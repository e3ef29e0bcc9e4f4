/** When the paid-token manager accepts a call, in plain arithmetic, and what an acceptance records. */
module PaidAcceptance {
  import opened Common
  import opened StorageOrder
  import opened PaidTokens
  import opened PaidLifecycle

  // ----- time -----

  /** A second belongs to the period whose stretch of `length` seconds it falls into. */
  lemma PeriodContains(cfg: Config, now32: nat)
    ensures var p := PeriodAt(cfg, now32);
      if cfg.length == 0 then p == 0 else p * cfg.length <= now32 < (p + 1) * cfg.length
  {
    if cfg.length > 0 {
      DivideAndRest(now32, cfg.length);
      QuotientBounds(now32, cfg.length);
      var p := now32 / cfg.length;
      assert p * cfg.length == cfg.length * p;
    }
  }

  /** A period's tokens live for the delay beyond its end, up to the last second of 32 bits. */
  lemma ExpiryIs(cfg: Config, p: Period)
    requires p <= 0xFFFF_FFFF
    ensures ExpiresAt(cfg, p) ==
      if p == 0xFFFF_FFFF then cfg.expiry
      else Min((p + 1) * cfg.length + cfg.expiry, 0xFFFF_FFFF)
  {
    if p == 0xFFFF_FFFF {
      assert 0 * cfg.length == 0;
    } else {
      var end := (p + 1) * cfg.length;
      assert (p + 1) % WRAP == p + 1;
    }
  }

  // ----- consuming -----

  /** A token the manager honours: of a ring of a live collection, unexpired, proven and unspent. */
  ghost predicate Honoured(cfg: Config, s: State, x: Token, env: Env) {
    && x.period in s.created && x.ring < |Rings(s, x.period)| && env.serviceOk
    && env.now % 0x1_0000_0000 < ExpiresAt(cfg, x.period)
    && env.proofOk
    && x !in s.consumed
  }

  /** A consumption is accepted exactly then; it records the token and nothing else changes. */
  lemma ConsumeAcceptedIff(cfg: Config, s: State, x: Token, env: Env)
    ensures var o := Consume(cfg, s, x, env);
      && (o.result == Ok <==> Honoured(cfg, s, x, env))
      && (o.result != Ok ==> o.state == s)
      && (o.result == Ok ==> o.state == s.(consumed := s.consumed + {x}, accepted := s.accepted + [x]))
      && (o.result == Err(AlreadyConsumed) ==> x in s.consumed)
  {
    hide ExpiresAt;
  }

  /** Step `j` consumed `x`, before its period's tokens expired. */
  ghost predicate ConsumedInTime(cfg: Config, steps: seq<Step>, j: nat, x: Token) {
    && j < |steps| && steps[j].op == OpConsume(x)
    && Honoured(cfg, StateAt(cfg, steps, j), x, steps[j].env)
  }

  lemma StepAccepts(cfg: Config, s: State, step: Step, x: Token)
    ensures var t := Perform(cfg, s, step.op, step.env).state;
      x in t.accepted <==> x in s.accepted || (step.op == OpConsume(x) && Honoured(cfg, s, x, step.env))
  {
    hide ExpiresAt, PeriodAt, Honoured;
    match step.op
    case OpConsume(y) => ConsumeAcceptedIff(cfg, s, y, step.env);
    case _ =>
  }

  /** On every run the accepted tokens are exactly those consumed by an honoured call, before expiry. */
  lemma {:induction false} AcceptedIffConsumedInTime(cfg: Config, steps: seq<Step>, n: nat, x: Token)
    requires n <= |steps|
    ensures x in StateAt(cfg, steps, n).accepted <==> exists j: nat :: j < n && ConsumedInTime(cfg, steps, j, x)
  {
    hide Perform, Honoured;
    if n > 0 {
      AcceptedIffConsumedInTime(cfg, steps, n - 1, x);
      StepAccepts(cfg, StateAt(cfg, steps, n - 1), steps[n - 1], x);
      assert ConsumedInTime(cfg, steps, n - 1, x) <==>
        steps[n - 1].op == OpConsume(x) && Honoured(cfg, StateAt(cfg, steps, n - 1), x, steps[n - 1].env);
    }
  }

  // ----- buying, cleaning, deleting -----

  /** A poll makes sure the current period has a collection, unless it was deleted or the service refuses. */
  lemma PollCreates(cfg: Config, s: State, env: Env)
    ensures var p := PeriodAt(cfg, env.now % 0x1_0000_0000);
      var o := Perform(cfg, s, OpPoll, env);
      && (o.result == Ok <==> p in s.created || (p !in s.retired && env.serviceOk))
      && (o.result == Ok ==> o.state.created == s.created + {p})
      && (p !in s.created && o.result == Ok ==> Pending(o.state, p) == {} && Rings(o.state, p) == [])
      && (p in s.created || o.result != Ok ==> o.state == s)
  {
    hide PeriodAt;
  }

  /** A key joins exactly if it is new and proven and the current period has or gets a collection. */
  lemma AddAcceptedIff(cfg: Config, s: State, m: Member, env: Env)
    ensures var p := PeriodAt(cfg, env.now % 0x1_0000_0000);
      var o := AddMember(cfg, s, m, env);
      && (o.result == Ok <==>
            && m !in s.members && env.proofOk && env.serviceOk
            && (p in s.created || p !in s.retired))
      && (o.result != Ok ==> o.state == s)
      && (o.result == Ok ==> o.state.members == s.members[m := p] && o.state.created == s.created + {p})
  {
    hide PeriodAt;
  }

  /** Cleaning is accepted exactly for the next ring of a live period that expired, and frees its keys. */
  lemma CleaningAcceptedIff(cfg: Config, s: State, p: Period, ring: nat, env: Env)
    ensures var o := CleanRing(cfg, s, p, ring, env);
      && (o.result == Ok <==>
            && p in s.created && ExpiresAt(cfg, p) <= env.now % 0x1_0000_0000
            && ring == NextRing(s, p) && ring < |Rings(s, p)|)
      && (o.result == Err(Future) <==> p in s.created && env.now % 0x1_0000_0000 < ExpiresAt(cfg, p))
      && (o.result != Ok ==> o.state == s)
      && (o.result == Ok ==> o.state.members == s.members - Rings(s, p)[ring])
  {
    hide ExpiresAt;
  }

  /** Deletion is accepted exactly for a live period that expired and has no ring left to clean. */
  lemma DeletionAcceptedIff(cfg: Config, s: State, p: Period, env: Env)
    ensures var o := DeleteCollection(cfg, s, p, env);
      && (o.result == Ok <==>
            && p in s.created && ExpiresAt(cfg, p) <= env.now % 0x1_0000_0000
            && |Rings(s, p)| <= NextRing(s, p) && env.serviceOk)
      && (o.result != Ok ==> o.state == s)
      && (o.result == Ok ==>
            && o.state.created == s.created - {p} && o.state.retired == s.retired + {p}
            && o.state.members == s.members && o.state.consumed == s.consumed
            && (p in o.state.dusting <==> p in s.dusting || RecordsOf(s, p) != {}))
  {
    hide ExpiresAt;
    if RecordsOf(s, p) != {} {
      var x :| x in RecordsOf(s, p);
      assert x in s.consumed && x.period == p;
    }
    if x :| x in s.consumed && x.period == p { assert x in RecordsOf(s, p); }
  }

  // ----- dusting -----

  /** Records of queued periods still to erase, and the queue itself. */
  ghost function DustLeft(s: State): nat {
    |QueuedRecords(s)| + |s.dusting|
  }

  ghost function QueuedRecords(s: State): set<Token> { set x | x in s.consumed && x.period in s.dusting }

  /**
   Dusting erases only records of the oldest queued period, takes that period off the queue exactly
   when its last record goes, and leaves less to dust whenever it erases something or finds nothing.
   */
  lemma DustProgress(cfg: Config, s: State, env: Env)
    requires Legal(s, Step(OpDust, env)) && s.dusting != {}
    ensures var o, p := CleanDust(s, env), Least(s.dusting);
      && o.result == Ok
      && (forall q :: q in s.dusting ==> p <= q)
      && (forall x: Token :: x.period != p ==> (x in o.state.consumed <==> x in s.consumed))
      && (o.state.dusting == if RecordsOf(o.state, p) == {} then s.dusting - {p} else s.dusting)
      && (env.gone != {} || RecordsOf(s, p) == {} ==> DustLeft(o.state) < DustLeft(s))
  {
    var o, p := CleanDust(s, env), Least(s.dusting);
    hide Least;
    assert RecordsOf(o.state, p) == RecordsOf(s, p) - env.gone;
    DifferenceEmpty(RecordsOf(s, p), env.gone);
    assert QueuedRecords(o.state) <= QueuedRecords(s);
    if env.gone != {} {
      var x :| x in env.gone;
      assert x in QueuedRecords(s) && x !in QueuedRecords(o.state);
      assert |QueuedRecords(o.state)| < |QueuedRecords(s)| by { SmallerSet(QueuedRecords(o.state), QueuedRecords(s), x); }
      SubsetSize(o.state.dusting, s.dusting);
    } else if RecordsOf(s, p) == {} {
      SubsetSize(QueuedRecords(o.state), QueuedRecords(s));
      SmallerSet(o.state.dusting, s.dusting, p);
    }
  }

  lemma DifferenceEmpty<T>(a: set<T>, b: set<T>)
    ensures a - b == {} <==> a <= b
  {
    if a - b == {} {
      forall x | x in a ensures x in b { assert x !in a - b; }
    }
  }

  lemma SmallerSet<T>(a: set<T>, b: set<T>, x: T)
    requires a <= b && x in b && x !in a
    ensures |a| < |b|
  {
    SubsetSize(a, b - {x});
  }

  lemma {:induction false} SubsetSize<T>(a: set<T>, b: set<T>)
    requires a <= b
    ensures |a| <= |b|
  {
    assert b == (b - a) + a;
    assert |b| == |b - a| + |a|;
  }
}
