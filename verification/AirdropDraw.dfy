/**
 The batched winner draw (pallets/airdrop/src/lib.rs, `draw_winners_authorized`): every batch walks
 the registrations strictly after a stored cursor and then again from the start. The reference is a
 single walk around the slot circle that starts right after the entropy point.
 */
module AirdropDraw {
  import opened Common
  import opened StorageOrder
  import opened AirdropTypes

  /** The one-shot order: slots strictly after the entropy point, then the rest, each ascending. */
  function Cyclic(keys: set<Slot>, p: Slot): (r: seq<Slot>)
    ensures |r| == |keys|
  {
    assert |Above(keys, p)| + |keys - Above(keys, p)| == |keys| by {
      assert Above(keys, p) + (keys - Above(keys, p)) == keys;
    }
    Sorted(Above(keys, p)) + Sorted(keys - Above(keys, p))
  }

  lemma JoinVisitsOnce(a: seq<Slot>, xs: set<Slot>, b: seq<Slot>, ys: set<Slot>)
    requires Lists(a, xs) && Lists(b, ys) && xs !! ys
    ensures forall x :: x in a + b <==> x in xs + ys
    ensures NoDuplicates(a + b)
  {
    forall i, j | 0 <= i < j < |a + b| ensures (a + b)[i] != (a + b)[j] {
      if i < |a| <= j { assert a[i] in a && b[j - |a|] in b; }
    }
  }

  /** The one-shot order visits every key exactly once. */
  lemma CyclicVisitsOnce(keys: set<Slot>, p: Slot)
    ensures forall x :: x in Cyclic(keys, p) <==> x in keys
    ensures NoDuplicates(Cyclic(keys, p))
  {
    SortedLists(Above(keys, p));
    SortedLists(keys - Above(keys, p));
    hide Sorted, Lists;
    JoinVisitsOnce(Sorted(Above(keys, p)), Above(keys, p), Sorted(keys - Above(keys, p)), keys - Above(keys, p));
    assert Above(keys, p) + (keys - Above(keys, p)) == keys;
  }

  lemma JoinWraps(up: seq<Slot>, lo: seq<Slot>, p: Slot, i: nat, j: nat)
    requires Ascending(up) && Ascending(lo) && i < j < |up| + |lo|
    requires (forall x :: x in up ==> x > p) && (forall x :: x in lo ==> x <= p)
    ensures var a, b := (up + lo)[i], (up + lo)[j];
      && (b > p ==> a > p)
      && ((a > p <==> b > p) ==> a < b)
  {
    if i < |up| { assert up[i] in up; } else { assert lo[i - |up|] in lo; }
    if j < |up| { assert up[j] in up; } else { assert lo[j - |up|] in lo; }
  }

  /** It starts strictly after the point, wraps around once, and ascends on either side. */
  lemma CyclicWrapsAround(keys: set<Slot>, p: Slot, i: nat, j: nat)
    requires i < j < |keys|
    ensures var a, b := Cyclic(keys, p)[i], Cyclic(keys, p)[j];
      && (b > p ==> a > p)
      && ((a > p <==> b > p) ==> a < b)
  {
    var up, lo := Sorted(Above(keys, p)), Sorted(keys - Above(keys, p));
    SortedLists(Above(keys, p));
    SortedLists(keys - Above(keys, p));
    hide Sorted;
    assert |up + lo| == |Cyclic(keys, p)|;
    JoinWraps(up, lo, p, i, j);
  }

  /** What the pallet iterates: `iter_prefix_from(from)` chained with `iter_prefix`. */
  function Walk(keys: set<Slot>, from: Slot): seq<Slot> {
    Sorted(Above(keys, from)) + Sorted(keys)
  }

  lemma WalkVisitsKeys(keys: set<Slot>, from: Slot)
    ensures forall s :: s in Walk(keys, from) ==> s in keys
  {
    SortedLists(Above(keys, from));
    SortedLists(keys);
  }

  /** The cursor after `i` winners: the entropy point, then the slot drawn last. */
  function CursorAt(keys: set<Slot>, p: Slot, i: nat): Slot
    requires i <= |keys|
  {
    if i == 0 then p else Cyclic(keys, p)[i - 1]
  }

  lemma SliceBeforeWrap(up: seq<Slot>, lo: seq<Slot>, i: nat, n: nat)
    requires i <= |up| && i + n <= |up| + |lo|
    ensures (up[i..] + (lo + up))[..n] == (up + lo)[i..i + n]
  {
  }

  lemma SliceAfterWrap(up: seq<Slot>, lo: seq<Slot>, all: seq<Slot>, d: nat, n: nat)
    requires d + n <= |lo|
    ensures (lo[d..] + up + all)[..n] == (up + lo)[|up| + d..|up| + d + n]
  {
  }

  /** The whole listing starts with the slots up to the point. */
  lemma ListingFromPoint(keys: set<Slot>, p: Slot)
    ensures Sorted(keys) == Sorted(keys - Above(keys, p)) + Sorted(Above(keys, p))
  {
    assert (keys - Above(keys, p)) + Above(keys, p) == keys;
    SortedSplit(keys - Above(keys, p), Above(keys, p));
  }

  /** Before the walk wraps, the slots after the last drawn one are the undrawn ones above the point. */
  lemma AboveBeforeWrap(keys: set<Slot>, p: Slot, i: nat)
    requires 0 < i <= |Above(keys, p)|
    ensures Sorted(Above(keys, Sorted(Above(keys, p))[i - 1])) == Sorted(Above(keys, p))[i..]
  {
    SortedAbove(Above(keys, p), i);
    var last := Sorted(Above(keys, p))[i - 1];
    assert Above(keys, last) == Above(Above(keys, p), last);
  }

  /** After it wraps, they are the undrawn ones up to the point and then all above it. */
  lemma AboveAfterWrap(keys: set<Slot>, p: Slot, d: nat)
    requires 0 < d <= |keys - Above(keys, p)|
    ensures Sorted(Above(keys, Sorted(keys - Above(keys, p))[d - 1]))
         == Sorted(keys - Above(keys, p))[d..] + Sorted(Above(keys, p))
  {
    var above, below := Above(keys, p), keys - Above(keys, p);
    SortedAbove(below, d);
    var last := Sorted(below)[d - 1];
    assert Above(keys, last) == Above(below, last) + above;
    SortedSplit(Above(below, last), above);
  }

  lemma CursorSlot(keys: set<Slot>, p: Slot, i: nat)
    requires i <= |keys|
    ensures 0 < i <= |Above(keys, p)| ==> CursorAt(keys, p, i) == Sorted(Above(keys, p))[i - 1]
    ensures i > |Above(keys, p)| ==>
      (i - |Above(keys, p)| <= |keys - Above(keys, p)| &&
       CursorAt(keys, p, i) == Sorted(keys - Above(keys, p))[i - |Above(keys, p)| - 1])
  {
    assert |Above(keys, p)| + |keys - Above(keys, p)| == |keys| by {
      assert Above(keys, p) + (keys - Above(keys, p)) == keys;
    }
  }

  lemma WalkBeforeWrap(keys: set<Slot>, p: Slot, i: nat)
    requires i <= |Above(keys, p)| && i <= |keys|
    ensures Walk(keys, CursorAt(keys, p, i))
         == Sorted(Above(keys, p))[i..] + (Sorted(keys - Above(keys, p)) + Sorted(Above(keys, p)))
  {
    CursorSlot(keys, p, i);
    ListingFromPoint(keys, p);
    if i > 0 { AboveBeforeWrap(keys, p, i); }
  }

  lemma WalkAfterWrap(keys: set<Slot>, p: Slot, i: nat)
    requires |Above(keys, p)| < i <= |keys|
    ensures i - |Above(keys, p)| <= |keys - Above(keys, p)|
    ensures Walk(keys, CursorAt(keys, p, i))
         == Sorted(keys - Above(keys, p))[i - |Above(keys, p)|..] + Sorted(Above(keys, p)) + Sorted(keys)
  {
    CursorSlot(keys, p, i);
    AboveAfterWrap(keys, p, i - |Above(keys, p)|);
  }

  /**
   The walk from the cursor left by `i` winners starts with the next `n` slots of the one-shot
   order, so it never runs dry before them.
   */
  lemma BatchIsNextSlice(keys: set<Slot>, p: Slot, i: nat, n: nat)
    requires i + n <= |keys|
    ensures n <= |Walk(keys, CursorAt(keys, p, i))|
    ensures Walk(keys, CursorAt(keys, p, i))[..n] == Cyclic(keys, p)[i..i + n]
  {
    var up, lo := Sorted(Above(keys, p)), Sorted(keys - Above(keys, p));
    assert |up + lo| == |Cyclic(keys, p)|;
    if i <= |up| {
      WalkBeforeWrap(keys, p, i);
      SliceBeforeWrap(up, lo, i, n);
    } else {
      WalkAfterWrap(keys, p, i);
      SliceAfterWrap(up, lo, Sorted(keys), i - |up|, n);
    }
  }

  /** `Winners` after inserting the registrants of `slots` one after another. */
  function Crown(w: map<Entry, Slot>, regs: map<Slot, Entry>, slots: seq<Slot>): map<Entry, Slot>
    requires forall s :: s in slots ==> s in regs
  {
    if slots == [] then w
    else
      var last := slots[|slots| - 1];
      assert last in slots;
      Crown(w, regs, slots[..|slots| - 1])[regs[last] := last]
  }

  lemma {:induction false} CrownConcat(w: map<Entry, Slot>, regs: map<Slot, Entry>, a: seq<Slot>, b: seq<Slot>)
    requires forall s :: s in a + b ==> s in regs
    ensures forall s :: s in a ==> s in regs
    ensures forall s :: s in b ==> s in regs
    ensures Crown(w, regs, a + b) == Crown(Crown(w, regs, a), regs, b)
  {
    assert forall s :: s in a ==> s in a + b;
    assert forall s :: s in b ==> s in a + b;
    if b == [] {
      assert a + b == a;
    } else {
      var n := |b| - 1;
      assert (a + b)[..|a + b| - 1] == a + b[..n];
      assert (a + b)[|a + b| - 1] == b[n];
      CrownConcat(w, regs, a, b[..n]);
    }
  }

  /** The winner table of a finished one-shot draw of `n` slots. */
  function Drawn(regs: map<Slot, Entry>, p: Slot, n: nat): map<Entry, Slot>
    requires n <= |regs.Keys|
  {
    CyclicVisitsOnce(regs.Keys, p);
    assert forall s :: s in Cyclic(regs.Keys, p)[..n] ==> s in Cyclic(regs.Keys, p);
    Crown(map[], regs, Cyclic(regs.Keys, p)[..n])
  }

  lemma CrownPrefix(regs: map<Slot, Entry>, c: seq<Slot>, i: nat, n: nat)
    requires i + n <= |c| && forall s :: s in c ==> s in regs
    ensures forall s :: s in c[..i] || s in c[i..i + n] || s in c[..i + n] ==> s in c
    ensures Crown(Crown(map[], regs, c[..i]), regs, c[i..i + n]) == Crown(map[], regs, c[..i + n])
  {
    assert c[..i] + c[i..i + n] == c[..i + n];
    CrownConcat(map[], regs, c[..i], c[i..i + n]);
  }

  /** A batch of `n` from the cursor turns the draw of `i` slots into the draw of `i + n`. */
  lemma DrawnExtends(regs: map<Slot, Entry>, p: Slot, i: nat, n: nat)
    requires i + n <= |regs.Keys|
    ensures n <= |Walk(regs.Keys, CursorAt(regs.Keys, p, i))|
    ensures forall s :: s in Walk(regs.Keys, CursorAt(regs.Keys, p, i))[..n] ==> s in regs
    ensures Crown(Drawn(regs, p, i), regs, Walk(regs.Keys, CursorAt(regs.Keys, p, i))[..n])
         == Drawn(regs, p, i + n)
  {
    var c := Cyclic(regs.Keys, p);
    CyclicVisitsOnce(regs.Keys, p);
    BatchIsNextSlice(regs.Keys, p, i, n);
    CrownPrefix(regs, c, i, n);
  }

  /** No two registered slots carry the same entry: the obligation put on registering callers. */
  ghost predicate EntriesDistinct(regs: map<Slot, Entry>) {
    forall s, t :: s in regs && t in regs && regs[s] == regs[t] ==> s == t
  }

  /** Every winner holds one of the drawn slots, and it is a slot it registered. */
  lemma {:induction false} CrownSound(regs: map<Slot, Entry>, slots: seq<Slot>)
    requires forall s :: s in slots ==> s in regs
    ensures |Crown(map[], regs, slots)| <= |slots|
    ensures forall e :: e in Crown(map[], regs, slots) <==> exists i :: 0 <= i < |slots| && regs[slots[i]] == e
    ensures forall e :: e in Crown(map[], regs, slots) ==>
      Crown(map[], regs, slots)[e] in slots && regs[Crown(map[], regs, slots)[e]] == e
  {
    if slots != [] {
      var n := |slots| - 1;
      var init := slots[..n];
      CrownSound(regs, init);
      var w := Crown(map[], regs, init);
      assert Crown(map[], regs, slots) == w[regs[slots[n]] := slots[n]];
      assert slots[n] in slots;
      forall e ensures e in Crown(map[], regs, slots) <==> exists i :: 0 <= i < |slots| && regs[slots[i]] == e {
        if e in w {
          var i :| 0 <= i < |init| && regs[init[i]] == e;
          assert regs[slots[i]] == e;
        }
        if i :| 0 <= i < |slots| && regs[slots[i]] == e && i < n {
          assert regs[init[i]] == e;
        }
        assert regs[slots[n]] in Crown(map[], regs, slots);
      }
      assert |w.Keys + {regs[slots[n]]}| <= |w.Keys| + 1;
      assert Crown(map[], regs, slots).Keys == w.Keys + {regs[slots[n]]};
    }
  }

  /** The registrants met along `slots` are pairwise different. */
  ghost predicate DistinctAlong(regs: map<Slot, Entry>, slots: seq<Slot>)
    requires forall s :: s in slots ==> s in regs
  {
    forall i, j :: 0 <= i < j < |slots| ==> regs[slots[i]] != regs[slots[j]]
  }

  lemma DistinctStep(regs: map<Slot, Entry>, slots: seq<Slot>)
    requires slots != [] && forall s :: s in slots ==> s in regs
    ensures var n := |slots| - 1;
      slots[n] in slots &&
      (DistinctAlong(regs, slots) <==>
        DistinctAlong(regs, slots[..n]) && regs[slots[n]] !in Crown(map[], regs, slots[..n]))
  {
    hide Crown;
    var n := |slots| - 1;
    var init := slots[..n];
    CrownSound(regs, init);
    assert slots[n] in slots;
    assert forall i :: 0 <= i < n ==> init[i] == slots[i];
    assert regs[slots[n]] in Crown(map[], regs, init) <==> exists i :: 0 <= i < n && regs[init[i]] == regs[slots[n]];
  }

  /** Every drawn slot has its own winner exactly when no entry was drawn twice. */
  lemma {:induction false} CrownFull(regs: map<Slot, Entry>, slots: seq<Slot>)
    requires forall s :: s in slots ==> s in regs
    ensures |Crown(map[], regs, slots)| == |slots| <==> DistinctAlong(regs, slots)
  {
    if slots != [] {
      var n := |slots| - 1;
      CrownFull(regs, slots[..n]);
      DistinctStep(regs, slots);
      CrownSound(regs, slots[..n]);
      hide DistinctAlong;
      var w := Crown(map[], regs, slots[..n]);
      assert Crown(map[], regs, slots).Keys == w.Keys + {regs[slots[n]]};
      if regs[slots[n]] in w { assert w.Keys + {regs[slots[n]]} == w.Keys; }
    }
  }

  /** The slots of a one-shot draw of `n`. */
  function DrawnSlots(regs: map<Slot, Entry>, p: Slot, n: nat): (r: seq<Slot>)
    requires n <= |regs|
    ensures |r| == n && forall s :: s in r ==> s in regs
  {
    CyclicVisitsOnce(regs.Keys, p);
    assert forall s :: s in Cyclic(regs.Keys, p)[..n] ==> s in Cyclic(regs.Keys, p);
    Cyclic(regs.Keys, p)[..n]
  }

  /** A draw of `n` slots has at most `n` winners. */
  lemma DrawnAtMost(regs: map<Slot, Entry>, p: Slot, n: nat)
    requires n <= |regs|
    ensures |Drawn(regs, p, n)| <= n
  {
    CrownSound(regs, DrawnSlots(regs, p, n));
  }

  /** It has `n` iff the drawn entries are distinct. */
  lemma DrawnFull(regs: map<Slot, Entry>, p: Slot, n: nat)
    requires n <= |regs|
    ensures |Drawn(regs, p, n)| == n <==> DistinctAlong(regs, DrawnSlots(regs, p, n))
    ensures EntriesDistinct(regs) ==> DistinctAlong(regs, DrawnSlots(regs, p, n))
  {
    var slots := DrawnSlots(regs, p, n);
    assert NoDuplicates(slots) by { CyclicVisitsOnce(regs.Keys, p); }
    hide Cyclic, Crown;
    CrownFull(regs, slots);
    assert forall i :: 0 <= i < n ==> slots[i] in slots;
  }
}
