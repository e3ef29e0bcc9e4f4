/** Expiry sweeps over a timestamp-ordered map (support/src/credit_trees.rs). */
module ExpirySweep {
  import opened Common
  import opened StorageOrder

  /** Entries are (timestamp, key) pairs, iterated in that order. */
  type Entry = (nat, nat)

  datatype Validity = Valid | NotLocal | NothingToSweep | Stale | Future

  function Deadline(timestamp: nat, ttl: nat): nat { AddSat(timestamp, ttl, U64_MAX) }

  predicate Due(e: Entry, ttl: nat, now: nat) { now >= Deadline(e.0, ttl) }

  function DueOf(entries: set<Entry>, ttl: nat, now: nat): set<Entry> {
    set e | e in entries && Due(e, ttl, now)
  }

  /** `oldest_expiry`. */
  function Oldest(entries: set<Entry>): Option<nat> {
    if entries == {} then None else Some(First(entries).0)
  }

  /** `authorize_expiry_sweep`. */
  function Authorize(entries: set<Entry>, local: bool, oldest: nat, ttl: nat, now: nat): Validity {
    if !local then NotLocal
    else
      match Oldest(entries)
      case None => NothingToSweep
      case Some(filed) =>
        if oldest < filed then Stale
        else if oldest > filed || now < Deadline(filed, ttl) then Future
        else Valid
  }

  /** The oldest `limit` due entries: what one sweep should take. */
  function Batch(entries: set<Entry>, ttl: nat, now: nat, limit: nat): seq<Entry> {
    var due := SortedPairs(DueOf(entries, ttl, now));
    due[..Min(limit, |due|)]
  }

  function Swept(entries: set<Entry>, ttl: nat, now: nat, limit: nat): set<Entry> {
    entries - Elements(Batch(entries, ttl, now, limit))
  }

  /** An entry is due once `ttl` seconds have passed since its timestamp, or at the end of the clock. */
  lemma DueIs(e: Entry, ttl: nat, now: nat)
    ensures Due(e, ttl, now) <==> e.0 + ttl <= now || 0xFFFF_FFFF_FFFF_FFFF <= now
  {
  }

  /** What a sweep naming `oldest` is answered, `filed` being the oldest timestamp there is. */
  lemma VerdictIs(entries: set<Entry>, filed: Entry, local: bool, oldest: nat, ttl: nat, now: nat)
    requires filed in entries && (forall e :: e in entries ==> filed.0 <= e.0) && now < 0xFFFF_FFFF_FFFF_FFFF
    ensures Oldest(entries) == Some(filed.0)
    ensures Authorize(entries, local, oldest, ttl, now) ==
      if !local then NotLocal
      else if oldest < filed.0 then Stale
      else if oldest == filed.0 && filed.0 + ttl <= now then Valid
      else Future
  {
    assert First(entries).0 == filed.0;
  }

  // ----- the due entries are a prefix of the iteration -----

  /** Iterating while entries are due visits exactly the due entries, oldest first. */
  lemma {:induction false} DueIsPrefix(entries: set<Entry>, ttl: nat, now: nat)
    ensures |DueOf(entries, ttl, now)| <= |entries|
    ensures SortedPairs(entries)[..|DueOf(entries, ttl, now)|] == SortedPairs(DueOf(entries, ttl, now))
    ensures forall i :: |DueOf(entries, ttl, now)| <= i < |entries| ==> !Due(SortedPairs(entries)[i], ttl, now)
    decreases |entries|
  {
    hide Deadline;
    if entries != {} {
      var m := First(entries);
      var rest := entries - {m};
      DueIsPrefix(rest, ttl, now);
      var due, dueRest := DueOf(entries, ttl, now), DueOf(rest, ttl, now);
      assert SortedPairs(entries) == [m] + SortedPairs(rest);
      if Due(m, ttl, now) {
        assert due == dueRest + {m};
        FirstOfSubset(entries, due);
        assert due - {m} == dueRest;
        assert SortedPairs(due) == [m] + SortedPairs(dueRest);
        hide SortedPairs;
      } else {
        NoneDue(entries, ttl, now);
        hide SortedPairs;
        assert forall i :: 0 <= i < |entries| ==> SortedPairs(entries)[i] in SortedPairs(entries);
      }
    }
  }

  lemma FirstOfSubset(entries: set<Entry>, due: set<Entry>)
    requires entries != {} && due <= entries && First(entries) in due
    ensures First(due) == First(entries)
  {
    var m, n := First(entries), First(due);
    assert m == n || Before(n, m);
    assert n == m || Before(m, n);
  }

  lemma NoneDue(entries: set<Entry>, ttl: nat, now: nat)
    requires entries != {} && !Due(First(entries), ttl, now)
    ensures DueOf(entries, ttl, now) == {} && DueOf(entries - {First(entries)}, ttl, now) == {}
    ensures forall e :: e in SortedPairs(entries) ==> !Due(e, ttl, now)
  {
    SortedPairsLists(entries);
    hide SortedPairs, Deadline;
    forall e | e in entries ensures !Due(e, ttl, now) {
      if e != First(entries) {
        assert Before(First(entries), e);
        LaterIsNotDue(First(entries), e, ttl, now);
      }
    }
  }

  lemma LaterIsNotDue(a: Entry, b: Entry, ttl: nat, now: nat)
    requires a.0 <= b.0 && !Due(a, ttl, now)
    ensures !Due(b, ttl, now)
  {
  }

  // ----- draining -----

  lemma BatchIsDue(entries: set<Entry>, ttl: nat, now: nat, limit: nat)
    ensures Elements(Batch(entries, ttl, now, limit)) <= DueOf(entries, ttl, now)
    ensures |Elements(Batch(entries, ttl, now, limit))| == Min(limit, |DueOf(entries, ttl, now)|)
  {
    SortedPairsLists(DueOf(entries, ttl, now));
    hide SortedPairs, Due;
    var batch := Batch(entries, ttl, now, limit);
    assert forall e :: e in batch ==> e in SortedPairs(DueOf(entries, ttl, now));
    DistinctSize(batch);
  }

  lemma {:induction false} DistinctSize(s: seq<Entry>)
    requires AscendingPairs(s)
    ensures |Elements(s)| == |s|
  {
    if s != [] {
      var n := |s| - 1;
      DistinctSize(s[..n]);
      assert s == s[..n] + [s[n]];
      assert s[n] !in s[..n] by {
        forall i | 0 <= i < n ensures s[i] != s[n] { assert Before(s[i], s[n]); }
      }
      assert Elements(s) == Elements(s[..n]) + {s[n]};
    }
  }

  /** What a sweep leaves due: everything but the `limit` oldest. */
  lemma SweptDue(entries: set<Entry>, ttl: nat, now: nat, limit: nat)
    ensures DueOf(Swept(entries, ttl, now, limit), ttl, now)
         == DueOf(entries, ttl, now) - Elements(Batch(entries, ttl, now, limit))
    ensures |DueOf(Swept(entries, ttl, now, limit), ttl, now)| == MonusSat(|DueOf(entries, ttl, now)|, limit)
  {
    hide Batch, Elements, Due;
    BatchIsDue(entries, ttl, now, limit);
    var due, gone := DueOf(entries, ttl, now), Elements(Batch(entries, ttl, now, limit));
    assert DueOf(Swept(entries, ttl, now, limit), ttl, now) == due - gone;
    assert |due - gone| == |due| - |gone|;
  }

  /** An entry that is not due is never removed, and a removed one is no newer than one that stays due. */
  lemma OldestFirst(entries: set<Entry>, ttl: nat, now: nat, limit: nat, gone: Entry, stays: Entry)
    requires gone in entries && gone !in Swept(entries, ttl, now, limit)
    requires stays in Swept(entries, ttl, now, limit)
    ensures Due(gone, ttl, now)
    ensures Before(gone, stays)
  {
    var due := SortedPairs(DueOf(entries, ttl, now));
    SortedPairsLists(DueOf(entries, ttl, now));
    BatchIsDue(entries, ttl, now, limit);
    hide SortedPairs, Deadline;
    var batch := Batch(entries, ttl, now, limit);
    var i :| 0 <= i < |batch| && batch[i] == gone;
    if Due(stays, ttl, now) {
      assert stays in DueOf(entries, ttl, now);
      assert stays in due;
      var j :| 0 <= j < |due| && due[j] == stays;
      assert forall k :: 0 <= k < |batch| ==> due[k] == batch[k] && batch[k] in Elements(batch);
    } else {
      NotDueIsLater(gone, stays, ttl, now);
    }
  }

  lemma NotDueIsLater(a: Entry, b: Entry, ttl: nat, now: nat)
    requires Due(a, ttl, now) && !Due(b, ttl, now)
    ensures Before(a, b)
  {
  }

  /** The map after `n` sweeps at a fixed time. */
  function SweptTimes(entries: set<Entry>, ttl: nat, now: nat, limit: nat, n: nat): set<Entry> {
    if n == 0 then entries else Swept(SweptTimes(entries, ttl, now, limit, n - 1), ttl, now, limit)
  }

  lemma {:induction false} SweptTimesDue(entries: set<Entry>, ttl: nat, now: nat, limit: nat, n: nat)
    ensures |DueOf(SweptTimes(entries, ttl, now, limit, n), ttl, now)| == MonusSat(|DueOf(entries, ttl, now)|, n * limit)
  {
    hide DueOf, Swept;
    if n > 0 {
      SweptTimesDue(entries, ttl, now, limit, n - 1);
      SweptDue(SweptTimes(entries, ttl, now, limit, n - 1), ttl, now, limit);
      assert n * limit == (n - 1) * limit + limit;
    }
  }

  /** Repeated sweeps at a fixed time empty the due set after exactly `ceil(due / limit)` calls. */
  lemma SweepsUntilEmpty(entries: set<Entry>, ttl: nat, now: nat, limit: nat, n: nat)
    requires limit > 0
    ensures DueOf(SweptTimes(entries, ttl, now, limit, n), ttl, now) == {} <==>
      CeilDiv(|DueOf(entries, ttl, now)|, limit) <= n
  {
    hide DueOf, SweptTimes, CeilDiv;
    SweptTimesDue(entries, ttl, now, limit, n);
    CeilDivExact(|DueOf(entries, ttl, now)|, limit, n);
  }

  /** A sweep is authorized, for the right `oldest`, exactly when something is due. */
  lemma AuthorizedIffDue(entries: set<Entry>, oldest: nat, ttl: nat, now: nat)
    ensures Authorize(entries, true, oldest, ttl, now) == Valid <==>
      entries != {} && oldest == First(entries).0 && DueOf(entries, ttl, now) != {}
  {
    hide Deadline;
    if entries != {} {
      if Due(First(entries), ttl, now) {
        assert First(entries) in DueOf(entries, ttl, now);
      } else {
        NoneDue(entries, ttl, now);
      }
    }
  }

  /** So every authorized sweep with a positive limit removes at least one entry. */
  lemma AuthorizedMakesProgress(entries: set<Entry>, oldest: nat, ttl: nat, now: nat, limit: nat)
    requires Authorize(entries, true, oldest, ttl, now) == Valid && limit > 0
    ensures |Swept(entries, ttl, now, limit)| < |entries|
    ensures First(entries) !in Swept(entries, ttl, now, limit)
  {
    hide Due, Batch;
    AuthorizedIffDue(entries, oldest, ttl, now);
    BatchIsDue(entries, ttl, now, limit);
    var gone := Elements(Batch(entries, ttl, now, limit));
    assert |gone| > 0;
    assert |entries - gone| == |entries| - |gone|;
    FirstGoes(entries, ttl, now, limit);
  }

  lemma FirstGoes(entries: set<Entry>, ttl: nat, now: nat, limit: nat)
    requires entries != {} && limit > 0 && DueOf(entries, ttl, now) != {}
    ensures First(entries) in Elements(Batch(entries, ttl, now, limit))
  {
    var due := DueOf(entries, ttl, now);
    if !Due(First(entries), ttl, now) {
      NoneDue(entries, ttl, now);
    } else {
      FirstOfSubset(entries, due);
      assert SortedPairs(due)[0] == First(due);
      assert Batch(entries, ttl, now, limit)[0] == First(entries);
    }
  }

  class ExpiryMap {
    var entries: set<Entry>

    /**
     `drain_due_expiries`: stop at the first entry that is not due or at the limit, collect before
     removing. It takes exactly the oldest `min(limit, due)` due entries and nothing else.
     */
    method DrainDueExpiries(ttl: nat, now: nat, limit: nat) returns (keys: seq<nat>)
      modifies this
      ensures entries == Swept(old(entries), ttl, now, limit)
      ensures |keys| == Min(limit, |DueOf(old(entries), ttl, now)|)
      ensures forall i :: 0 <= i < |keys| ==> keys[i] == Batch(old(entries), ttl, now, limit)[i].1
    {
      var due := CollectDue(entries, ttl, now, limit);
      ghost var was := entries;
      hide Batch, SortedPairs;
      keys := [];
      var i := 0;
      while i < |due|
        invariant i <= |due| && |keys| == i
        invariant forall j :: 0 <= j < i ==> keys[j] == due[j].1
        invariant entries == was - Elements(due[..i])
      {
        assert due[..i + 1] == due[..i] + [due[i]];
        entries := entries - {due[i]};
        keys := keys + [due[i].1];
        i := i + 1;
      }
      assert due[..i] == due;
      BatchLength(was, ttl, now, limit);
    }
  }

  lemma BatchLength(entries: set<Entry>, ttl: nat, now: nat, limit: nat)
    ensures |Batch(entries, ttl, now, limit)| == Min(limit, |DueOf(entries, ttl, now)|)
  {
  }

  /** Where the scan stops: every entry before the number due is due, the next one is not. */
  lemma DueUpTo(entries: set<Entry>, ttl: nat, now: nat)
    ensures |DueOf(entries, ttl, now)| <= |SortedPairs(entries)|
    ensures forall i :: 0 <= i < |SortedPairs(entries)| ==>
      (Due(SortedPairs(entries)[i], ttl, now) <==> i < |DueOf(entries, ttl, now)|)
  {
    DueIsPrefix(entries, ttl, now);
    var due := DueOf(entries, ttl, now);
    SortedPairsLists(due);
    SortedPairsLists(entries);
    hide SortedPairs, Due;
    forall i | 0 <= i < |due| ensures Due(SortedPairs(entries)[i], ttl, now) {
      assert SortedPairs(entries)[i] == SortedPairs(due)[i];
      assert SortedPairs(due)[i] in due;
    }
  }

  /** The early-stopping scan collects what filtering and sorting would. */
  method CollectDue(entries: set<Entry>, ttl: nat, now: nat, limit: nat) returns (due: seq<Entry>)
    ensures due == Batch(entries, ttl, now, limit)
  {
    hide Due, SortedPairs;
    var all := SortedPairs(entries);
    DueUpTo(entries, ttl, now);
    var i := 0;
    while i < |all| && i < limit && Due(all[i], ttl, now)
      invariant i <= |DueOf(entries, ttl, now)| && i <= limit
    {
      i := i + 1;
    }
    due := all[..i];
    BatchIsPrefix(entries, ttl, now, limit);
  }

  lemma BatchIsPrefix(entries: set<Entry>, ttl: nat, now: nat, limit: nat)
    ensures Min(limit, |DueOf(entries, ttl, now)|) <= |SortedPairs(entries)|
    ensures Batch(entries, ttl, now, limit) == SortedPairs(entries)[..Min(limit, |DueOf(entries, ttl, now)|)]
  {
    DueIsPrefix(entries, ttl, now);
    SortedPairsLists(entries);
    SortedPairsLists(DueOf(entries, ttl, now));
    hide SortedPairs, Due;
  }
}
