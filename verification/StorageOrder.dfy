/**
 Iteration order of a storage map whose keys are hashed with `Identity`: ascending in the key.
 `Sorted` lists a set of numeric keys, `SortedPairs` the keys of a double map.
 */
module StorageOrder {

  ghost predicate Ascending(s: seq<nat>) {
    forall i, j :: 0 <= i < j < |s| ==> s[i] < s[j]
  }

  ghost predicate IsLeast(m: nat, s: set<nat>) {
    m in s && forall x :: x in s ==> m <= x
  }

  lemma {:induction false} LeastExists(s: set<nat>)
    requires s != {}
    ensures exists m :: IsLeast(m, s)
    decreases |s|
  {
    var y :| y in s;
    if s == {y} {
      assert IsLeast(y, s);
    } else {
      var rest := s - {y};
      LeastExists(rest);
      var m :| IsLeast(m, rest);
      assert forall x :: x in s <==> x == y || x in rest;
      if m < y { assert IsLeast(m, s); } else { assert IsLeast(y, s); }
    }
  }

  function Least(s: set<nat>): (m: nat)
    requires s != {}
    ensures IsLeast(m, s)
  {
    LeastExists(s);
    var m :| m in s && forall x :: x in s ==> m <= x;
    m
  }

  function Sorted(s: set<nat>): (r: seq<nat>)
    ensures |r| == |s|
    decreases |s|
  {
    if s == {} then [] else [Least(s)] + Sorted(s - {Least(s)})
  }

  /** A sequence that holds the keys `s` in ascending order. */
  ghost predicate Lists(r: seq<nat>, s: set<nat>) {
    Ascending(r) && forall x :: x in r <==> x in s
  }

  lemma ConsLists(m: nat, rest: seq<nat>, s: set<nat>)
    requires IsLeast(m, s) && Lists(rest, s - {m})
    ensures Lists([m] + rest, s)
  {
    forall j | 0 <= j < |rest| ensures m < rest[j] {
      assert rest[j] in rest;
    }
  }

  lemma {:induction false} SortedLists(s: set<nat>)
    ensures Lists(Sorted(s), s)
    decreases |s|
  {
    if s != {} {
      var m := Least(s);
      SortedLists(s - {m});
      hide Lists, Least;
      ConsLists(m, Sorted(s - {m}), s);
    }
  }

  /** Ascending sequences with the same elements are equal: `Sorted` is the only listing. */
  lemma {:induction false} AscendingUnique(a: seq<nat>, b: seq<nat>)
    requires Ascending(a) && Ascending(b)
    requires forall x :: x in a <==> x in b
    ensures a == b
  {
    if a != [] && b != [] {
      assert a[0] in b && b[0] in a;
      assert a == [a[0]] + a[1..] && b == [b[0]] + b[1..];
      forall x ensures x in a[1..] <==> x in b[1..] {
        TailMembers(a, x);
        TailMembers(b, x);
      }
      AscendingUnique(a[1..], b[1..]);
    } else {
      EmptyWhenMemberless(a);
      EmptyWhenMemberless(b);
    }
  }

  lemma EmptyWhenMemberless(a: seq<nat>)
    ensures a == [] || exists x :: x in a
  {
    if a != [] { assert a[0] in a; }
  }

  lemma TailMembers(a: seq<nat>, x: nat)
    requires Ascending(a) && a != []
    ensures x in a[1..] <==> x in a && x != a[0]
  {
    if x in a && x != a[0] {
      var k :| 0 <= k < |a| && a[k] == x;
      assert a[1..][k - 1] == x;
    }
  }

  lemma SortedIs(s: set<nat>, r: seq<nat>)
    requires Lists(r, s)
    ensures r == Sorted(s)
  {
    SortedLists(s);
    AscendingUnique(r, Sorted(s));
  }

  lemma ListsJoin(a: seq<nat>, lo: set<nat>, b: seq<nat>, hi: set<nat>)
    requires Lists(a, lo) && Lists(b, hi)
    requires forall x, y :: x in lo && y in hi ==> x < y
    ensures Lists(a + b, lo + hi)
  {
    forall i, j | 0 <= i < j < |a + b| ensures (a + b)[i] < (a + b)[j] {
      if i < |a| <= j {
        assert a[i] in lo && b[j - |a|] in hi;
      }
    }
  }

  /** Listing a set splits at any pivot that separates it. */
  lemma SortedSplit(lo: set<nat>, hi: set<nat>)
    requires forall x, y :: x in lo && y in hi ==> x < y
    ensures Sorted(lo + hi) == Sorted(lo) + Sorted(hi)
  {
    SortedLists(lo);
    SortedLists(hi);
    ListsJoin(Sorted(lo), lo, Sorted(hi), hi);
    SortedIs(lo + hi, Sorted(lo) + Sorted(hi));
  }

  /** The keys strictly after `p`, as `iter_prefix_from` sees them. */
  function Above(keys: set<nat>, p: nat): set<nat> { set k | k in keys && p < k }

  lemma SuffixMembers(r: seq<nat>, i: nat, x: nat)
    requires Ascending(r) && 0 < i <= |r|
    ensures x in r[i..] <==> x in r && r[i - 1] < x
  {
    if x in r && r[i - 1] < x {
      var k :| 0 <= k < |r| && r[k] == x;
      assert k >= i;
      assert r[i..][k - i] == x;
    }
  }

  /** The keys after the `i`-th listed key are the rest of the listing. */
  lemma SortedAbove(keys: set<nat>, i: nat)
    requires 0 < i <= |keys|
    ensures Sorted(keys)[i - 1] in keys
    ensures Sorted(Above(keys, Sorted(keys)[i - 1])) == Sorted(keys)[i..]
  {
    var r := Sorted(keys);
    SortedLists(keys);
    assert r[i - 1] in r;
    forall x ensures x in r[i..] <==> x in Above(keys, r[i - 1]) {
      SuffixMembers(r, i, x);
    }
    SortedIs(Above(keys, r[i - 1]), r[i..]);
  }

  /** Keys of a double map, ordered by the first key and then by the second. */
  predicate Before(a: (nat, nat), b: (nat, nat)) {
    a.0 < b.0 || (a.0 == b.0 && a.1 < b.1)
  }

  ghost predicate AscendingPairs(s: seq<(nat, nat)>) {
    forall i, j :: 0 <= i < j < |s| ==> Before(s[i], s[j])
  }

  ghost predicate IsFirst(m: (nat, nat), s: set<(nat, nat)>) {
    m in s && forall x :: x in s ==> x == m || Before(m, x)
  }

  lemma {:induction false} FirstExists(s: set<(nat, nat)>)
    requires s != {}
    ensures exists m :: IsFirst(m, s)
    decreases |s|
  {
    var y :| y in s;
    if s == {y} {
      assert IsFirst(y, s);
    } else {
      var rest := s - {y};
      FirstExists(rest);
      var m :| IsFirst(m, rest);
      assert forall x :: x in s <==> x == y || x in rest;
      if Before(m, y) { assert IsFirst(m, s); } else { assert IsFirst(y, s); }
    }
  }

  function First(s: set<(nat, nat)>): (m: (nat, nat))
    requires s != {}
    ensures IsFirst(m, s)
  {
    FirstExists(s);
    var m :| m in s && forall x :: x in s ==> x == m || Before(m, x);
    m
  }

  function SortedPairs(s: set<(nat, nat)>): (r: seq<(nat, nat)>)
    ensures |r| == |s|
    decreases |s|
  {
    if s == {} then [] else [First(s)] + SortedPairs(s - {First(s)})
  }

  ghost predicate ListsPairs(r: seq<(nat, nat)>, s: set<(nat, nat)>) {
    AscendingPairs(r) && forall x :: x in r <==> x in s
  }

  lemma ConsListsPairs(m: (nat, nat), rest: seq<(nat, nat)>, s: set<(nat, nat)>)
    requires IsFirst(m, s) && ListsPairs(rest, s - {m})
    ensures ListsPairs([m] + rest, s)
  {
    forall j | 0 <= j < |rest| ensures Before(m, rest[j]) {
      assert rest[j] in rest;
    }
  }

  lemma {:induction false} SortedPairsLists(s: set<(nat, nat)>)
    ensures ListsPairs(SortedPairs(s), s)
    decreases |s|
  {
    if s != {} {
      var m := First(s);
      SortedPairsLists(s - {m});
      hide ListsPairs, First;
      ConsListsPairs(m, SortedPairs(s - {m}), s);
    }
  }
}
