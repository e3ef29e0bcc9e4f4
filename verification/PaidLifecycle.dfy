/** The life of a paid-token period: created once, filled while live, cleaned ring by ring, deleted. */
module PaidLifecycle {
  import opened Common
  import opened PaidTokens

  // ----- creation and expiry -----

  lemma NextMultiple(q: nat, d: nat, r: nat)
    requires r < d
    ensures d * q + r < (q + 1) * d && q <= d * q + r
  {
    assert (q + 1) * d == d * q + d;
    assert d * q == q + (d - 1) * q;
  }

  lemma QuotientBounds(now: nat, length: nat)
    requires length > 0
    ensures now < (now / length + 1) * length && now / length <= now
  {
    DivideAndRest(now, length);
    NextMultiple(now / length, length, now % length);
  }

  lemma LiveUntilSaturation(end: nat, expiry: nat, now: nat)
    requires now < end && now <= U32_MAX
    ensures now < AddSat(Min(end, U32_MAX), expiry, U32_MAX) <==> now != U32_MAX
  {
  }

  /** The current period is unexpired at every second but the last one a `u32` can hold. */
  lemma CurrentPeriodIsLive(cfg: Config, now32: nat)
    requires cfg.length > 0 && now32 <= U32_MAX
    ensures now32 < ExpiresAt(cfg, PeriodAt(cfg, now32)) <==> now32 != U32_MAX
  {
    var p := PeriodAt(cfg, now32);
    QuotientBounds(now32, cfg.length);
    if p + 1 == WRAP {
      assert MulSat((p + 1) % WRAP, cfg.length, U32_MAX) == 0;
    } else {
      var end := (p + 1) * cfg.length;
      assert MulSat((p + 1) % WRAP, cfg.length, U32_MAX) == Min(end, U32_MAX);
      LiveUntilSaturation(end, cfg.expiry, now32);
    }
  }

  /** A member is added to an expired period exactly at that last second. */
  lemma MembersJoinLivePeriods(cfg: Config, s: State, m: Member, env: Env)
    requires cfg.length > 0 && AddMember(cfg, s, m, env).result == Ok
    ensures var t, p := AddMember(cfg, s, m, env).state, PeriodAt(cfg, Now32(env));
      && m in t.members && t.members[m] == p && m in Pending(t, p) && p in t.created
      && (Now32(env) < ExpiresAt(cfg, p) <==> Now32(env) != U32_MAX)
  {
    CurrentPeriodIsLive(cfg, Now32(env));
  }

  // ----- created once, and then no more -----

  /** Every period ever created is live or retired, and was created once. */
  ghost predicate BirthsSafe(s: State) {
    && NoDuplicates(s.births)
    && s.created !! s.retired
    && (forall p :: p in s.births <==> p in s.created || p in s.retired)
  }

  lemma EnsureBirth(s: State, p: Period, env: Env)
    requires BirthsSafe(s)
    ensures BirthsSafe(EnsureCollection(s, p, env).state)
  {
    if p !in s.created && p !in s.retired { assert p !in s.births; }
  }

  lemma StepBirthsSafe(cfg: Config, s: State, op: Op, env: Env)
    requires BirthsSafe(s)
    ensures BirthsSafe(Perform(cfg, s, op, env).state)
  {
    hide ExpiresAt, PeriodAt, EnsureCollection;
    match op
    case OpPoll => EnsureBirth(s, PeriodAt(cfg, Now32(env)), env);
    case OpAddMember(m) => EnsureBirth(s, PeriodAt(cfg, Now32(env)), env);
    case _ =>
  }

  lemma NobodyBorn()
    ensures BirthsSafe(Genesis)
  {
  }

  /** On every run, whatever the clock does, each period's collection is created at most once. */
  lemma {:induction false} CreatedAtMostOnce(cfg: Config, steps: seq<Step>, n: nat)
    requires n <= |steps|
    ensures BirthsSafe(StateAt(cfg, steps, n))
    ensures NoDuplicates(StateAt(cfg, steps, n).births)
  {
    hide Perform, BirthsSafe;
    if n == 0 {
      NobodyBorn();
    } else {
      CreatedAtMostOnce(cfg, steps, n - 1);
      StepBirthsSafe(cfg, StateAt(cfg, steps, n - 1), steps[n - 1].op, steps[n - 1].env);
    }
    BirthsDistinct(StateAt(cfg, steps, n));
  }

  lemma BirthsDistinct(s: State)
    requires BirthsSafe(s)
    ensures NoDuplicates(s.births)
  {
  }

  lemma StepKeepsRetired(cfg: Config, s: State, op: Op, env: Env)
    ensures s.retired <= Perform(cfg, s, op, env).state.retired
  {
    hide ExpiresAt, PeriodAt;
  }

  lemma {:induction false} RetiredStays(cfg: Config, steps: seq<Step>, n: nat, m: nat, p: Period)
    requires n <= m <= |steps| && p in StateAt(cfg, steps, n).retired
    ensures p in StateAt(cfg, steps, m).retired
  {
    hide Perform;
    if n < m {
      RetiredStays(cfg, steps, n, m - 1, p);
      StepKeepsRetired(cfg, StateAt(cfg, steps, m - 1), steps[m - 1].op, steps[m - 1].env);
    }
  }

  /** After a period's collection was deleted, every poll and every new member in it is refused for good. */
  lemma RetiredPeriodsAreClosed(cfg: Config, steps: seq<Step>, n: nat, m: nat)
    requires n <= m < |steps| && PeriodAt(cfg, Now32(steps[m].env)) in StateAt(cfg, steps, n).retired
    ensures var o := Perform(cfg, StateAt(cfg, steps, m), steps[m].op, steps[m].env);
      && (steps[m].op.OpPoll? ==> o == Outcome(StateAt(cfg, steps, m), Err(IdentifierRetired)))
      && (steps[m].op.OpAddMember? ==> o.result.Err? && o.state == StateAt(cfg, steps, m))
  {
    var p := PeriodAt(cfg, Now32(steps[m].env));
    RetiredStays(cfg, steps, n, m, p);
    CreatedAtMostOnce(cfg, steps, m);
    hide StateAt, PeriodAt;
  }

  // ----- when the current period can be a deleted one -----

  /** The first second at which the current period is expired: the last of the clock if periods have a length. */
  function LockedOutFrom(cfg: Config): nat { if cfg.length == 0 then cfg.expiry else U32_MAX }

  lemma LiveUntilLockedOut(cfg: Config, now32: nat)
    requires now32 <= U32_MAX
    ensures now32 < ExpiresAt(cfg, PeriodAt(cfg, now32)) <==> now32 < LockedOutFrom(cfg)
  {
    if cfg.length > 0 {
      CurrentPeriodIsLive(cfg, now32);
    } else {
      assert 1 * cfg.length == 0;
    }
  }

  /** No step of a run within `bound` falls into a period whose collection was deleted. */
  ghost predicate NeverLockedOut(cfg: Config, bound: nat) {
    forall steps: seq<Step>, n: nat :: Run(cfg, steps, bound) && n < |steps| ==> !LockedOutAt(cfg, steps, n)
  }

  ghost predicate LockedOutAt(cfg: Config, steps: seq<Step>, n: nat)
    requires n < |steps|
  {
    PeriodAt(cfg, Now32(steps[n].env)) in StateAt(cfg, steps, n).retired
  }

  lemma NotLockedOutBefore(cfg: Config, steps: seq<Step>, n: nat, bound: nat)
    requires Run(cfg, steps, bound) && n < |steps| && bound < LockedOutFrom(cfg)
    ensures !LockedOutAt(cfg, steps, n)
  {
    assert Run(cfg, steps, U32_MAX);
    ErasedOnlyAfterExpiry(cfg, steps, n);
    assert ClockAt(steps, n) <= steps[n].env.now <= bound;
    assert Now32(steps[n].env) == steps[n].env.now;
    LiveUntilLockedOut(cfg, steps[n].env.now);
    hide StateAt, ExpiresAt, PeriodAt;
  }

  /** Poll, delete, poll: the period is expired while it is current. */
  function LockOutRun(cfg: Config): seq<Step> {
    var env := Env(LockedOutFrom(cfg), true, true, {});
    [Step(OpPoll, env), Step(OpDelete(PeriodAt(cfg, LockedOutFrom(cfg))), env), Step(OpPoll, env)]
  }

  lemma LockOutRunDeletes(cfg: Config)
    ensures LockedOutAt(cfg, LockOutRun(cfg), 2)
  {
    var now, p, r := LockedOutFrom(cfg), PeriodAt(cfg, LockedOutFrom(cfg)), LockOutRun(cfg);
    LiveUntilLockedOut(cfg, now);
    hide ExpiresAt, PeriodAt, LockedOutFrom;
    var s1 := Perform(cfg, Genesis, OpPoll, r[0].env).state;
    assert s1.created == {p};
    assert Perform(cfg, s1, OpDelete(p), r[1].env).state.retired == {p};
    hide Perform;
    assert StateAt(cfg, r, 1) == s1;
  }

  /**
   The current period can be a deleted one, closed to new members for good, exactly once the clock
   can reach the second at which it expires while current: the last one of 32 bits.
   */
  lemma NeverLockedOutIff(cfg: Config, bound: nat)
    ensures NeverLockedOut(cfg, bound) <==> bound < LockedOutFrom(cfg)
  {
    if bound < LockedOutFrom(cfg) {
      forall steps: seq<Step>, n: nat | Run(cfg, steps, bound) && n < |steps| ensures !LockedOutAt(cfg, steps, n) {
        NotLockedOutBefore(cfg, steps, n, bound);
      }
    } else {
      LockOutRunDeletes(cfg);
      hide StateAt, PeriodAt, LockedOutFrom, LockedOutAt;
      assert Run(cfg, LockOutRun(cfg), bound);
    }
  }

  /** A member can join a period that has already expired, at the last second of the clock. */
  lemma LastSecondJoinsExpired(cfg: Config, m: Member)
    requires cfg.length > 0
    ensures var env := Env(U32_MAX, true, true, {});
      var o := AddMember(cfg, Genesis, m, env);
      && o.result == Ok && m in o.state.members
      && ExpiresAt(cfg, o.state.members[m]) <= Now32(env)
  {
    hide ExpiresAt, PeriodAt;
    CurrentPeriodIsLive(cfg, U32_MAX);
  }

  // ----- what the storage items have in common -----

  /** Collections, pending members and rings exist for the same periods, cleaning within the rings. */
  ghost predicate RingsTracked(s: State) {
    && s.pending.Keys == s.created && s.rings.Keys == s.created && s.nextRing.Keys <= s.created
    && (forall p :: NextRing(s, p) <= |Rings(s, p)|)
  }

  lemma StepTracked(cfg: Config, s: State, op: Op, env: Env)
    requires RingsTracked(s)
    ensures RingsTracked(Perform(cfg, s, op, env).state)
  {
    hide ExpiresAt, PeriodAt;
    hide EnsureCollection, AddMember;
    var t := Perform(cfg, s, op, env).state;
    match op
    case OpPoll => EnsureTracked(s, PeriodAt(cfg, Now32(env)), env);
    case OpAddMember(m) => AddTracked(cfg, s, m, env);
    case _ =>
      forall q: Period ensures NextRing(t, q) <= |Rings(t, q)| { assert NextRing(s, q) <= |Rings(s, q)|; }
  }

  lemma AddTracked(cfg: Config, s: State, m: Member, env: Env)
    requires RingsTracked(s)
    ensures RingsTracked(AddMember(cfg, s, m, env).state)
  {
    hide PeriodAt, EnsureCollection;
    var p := PeriodAt(cfg, Now32(env));
    EnsureTracked(s, p, env);
    var o, t := EnsureCollection(s, p, env), AddMember(cfg, s, m, env).state;
    if t != s {
      forall q: Period ensures NextRing(t, q) <= |Rings(t, q)| { assert NextRing(o.state, q) <= |Rings(o.state, q)|; }
    }
  }

  lemma EnsureTracked(s: State, p: Period, env: Env)
    requires RingsTracked(s)
    ensures RingsTracked(EnsureCollection(s, p, env).state)
    ensures EnsureCollection(s, p, env).result == Ok ==> p in EnsureCollection(s, p, env).state.created
  {
    var t := EnsureCollection(s, p, env).state;
    forall q: Period ensures NextRing(t, q) <= |Rings(t, q)| { assert NextRing(s, q) <= |Rings(s, q)|; }
  }

  lemma {:induction false} AlwaysTracked(cfg: Config, steps: seq<Step>, n: nat)
    requires n <= |steps|
    ensures RingsTracked(StateAt(cfg, steps, n))
  {
    hide Perform, RingsTracked;
    if n == 0 {
      GenesisTracked();
    } else {
      AlwaysTracked(cfg, steps, n - 1);
      StepTracked(cfg, StateAt(cfg, steps, n - 1), steps[n - 1].op, steps[n - 1].env);
    }
  }

  lemma GenesisTracked()
    ensures RingsTracked(Genesis)
  {
  }

  // ----- cleaning in order -----

  ghost predicate Accepted(cfg: Config, s: State, step: Step) { Perform(cfg, s, step.op, step.env).result == Ok }

  /** The rings of `p` cleaned by accepted calls since the period's collection was last deleted. */
  ghost function Cleanings(cfg: Config, steps: seq<Step>, n: nat, p: Period): seq<nat>
    requires n <= |steps|
  {
    if n == 0 then []
    else
      var before, step := Cleanings(cfg, steps, n - 1, p), steps[n - 1];
      if !Accepted(cfg, StateAt(cfg, steps, n - 1), step) then before
      else if step.op == OpDelete(p) then []
      else if step.op.OpCleanRing? && step.op.period == p then before + [step.op.ring]
      else before
  }

  /** What a step does to the next ring of a period. */
  lemma StepNextRing(cfg: Config, s: State, step: Step, p: Period)
    requires RingsTracked(s)
    ensures var t := Perform(cfg, s, step.op, step.env).state;
      NextRing(t, p) ==
        if !Accepted(cfg, s, step) then NextRing(s, p)
        else if step.op == OpDelete(p) then 0
        else if step.op.OpCleanRing? && step.op.period == p then step.op.ring + 1
        else NextRing(s, p)
    ensures Accepted(cfg, s, step) && step.op.OpCleanRing? && step.op.period == p ==> step.op.ring == NextRing(s, p)
  {
    hide ExpiresAt, PeriodAt;
    match step.op
    case OpAddMember(m) => EnsureNextRing(s, PeriodAt(cfg, Now32(step.env)), step.env, p);
    case _ =>
  }

  lemma EnsureNextRing(s: State, q: Period, env: Env, p: Period)
    ensures NextRing(EnsureCollection(s, q, env).state, p) == NextRing(s, p)
  {
  }

  /**
   In every run the accepted cleanings of a period since its last deletion are rings 0, 1, 2, ...,
   each once, and none beyond the rings it has.
   */
  lemma {:induction false} RingsCleanedInOrder(cfg: Config, steps: seq<Step>, n: nat, p: Period)
    requires n <= |steps|
    ensures var cleaned := Cleanings(cfg, steps, n, p);
      && |cleaned| == NextRing(StateAt(cfg, steps, n), p) <= |Rings(StateAt(cfg, steps, n), p)|
      && forall i :: 0 <= i < |cleaned| ==> cleaned[i] == i
  {
    hide Perform, Accepted;
    AlwaysTracked(cfg, steps, n);
    if n > 0 {
      RingsCleanedInOrder(cfg, steps, n - 1, p);
      AlwaysTracked(cfg, steps, n - 1);
      StepNextRing(cfg, StateAt(cfg, steps, n - 1), steps[n - 1], p);
    }
  }

  /** And when its collection is deleted, every ring it ever had was cleaned, in that order. */
  lemma DeletedAfterEveryRing(cfg: Config, steps: seq<Step>, n: nat, p: Period)
    requires n < |steps| && steps[n].op == OpDelete(p) && Accepted(cfg, StateAt(cfg, steps, n), steps[n])
    ensures var rings := |Rings(StateAt(cfg, steps, n), p)|;
      Cleanings(cfg, steps, n, p) == seq(rings, i => i)
  {
    hide ExpiresAt, Cleanings, StateAt;
    RingsCleanedInOrder(cfg, steps, n, p);
  }

  // ----- where registered keys are -----

  /** `m` sits in ring `i` of a live collection and that ring is not cleaned yet. */
  ghost predicate Open(s: State, p: Period, i: nat, m: Member) {
    p in s.created && NextRing(s, p) <= i < |Rings(s, p)| && m in Rings(s, p)[i]
  }

  /**
   Every registered key is pending or in one uncleaned ring of the period it was added in, except
   the lost ones, which no cleaning will reach.
   */
  ghost predicate MembersPlaced(s: State, lost: set<Member>) {
    && lost <= s.members.Keys
    && (forall m :: m in s.members && m !in lost ==>
          && s.members[m] in s.created
          && (m in Pending(s, s.members[m]) || exists i :: Open(s, s.members[m], i, m)))
    && (forall p, m :: p in s.created && m in Pending(s, p) ==> m in s.members && s.members[m] == p && m !in lost)
    && (forall p, i, m :: Open(s, p, i, m) ==>
          m in s.members && s.members[m] == p && m !in Pending(s, p) && m !in lost)
    && (forall p, i, j, m :: Open(s, p, i, m) && Open(s, p, j, m) ==> i == j)
  }

  /** The ring index a newly onboarded member of `p` lands in. */
  function Landing(s: State, p: Period, newRing: bool): nat {
    if newRing || Rings(s, p) == [] then |Rings(s, p)| else |Rings(s, p)| - 1
  }

  /** Keys a step loses: onboarded into a ring already cleaned, or pending when their collection goes. */
  ghost function NewlyLost(cfg: Config, s: State, step: Step): set<Member> {
    match step.op
    case OpOnboard(p, m, newRing) =>
      if p in s.created && m in Pending(s, p) && Landing(s, p, newRing) < NextRing(s, p) then {m} else {}
    case OpDelete(p) => if Accepted(cfg, s, step) then Pending(s, p) else {}
    case _ => {}
  }

  ghost function Lost(cfg: Config, steps: seq<Step>, n: nat): set<Member>
    requires n <= |steps|
  {
    if n == 0 then {} else Lost(cfg, steps, n - 1) + NewlyLost(cfg, StateAt(cfg, steps, n - 1), steps[n - 1])
  }

  lemma EnsurePlaced(s: State, p: Period, env: Env, lost: set<Member>)
    requires MembersPlaced(s, lost) && RingsTracked(s)
    ensures MembersPlaced(EnsureCollection(s, p, env).state, lost)
  {
    var t := EnsureCollection(s, p, env).state;
    if p !in s.created {
      assert forall q, i, m :: Open(t, q, i, m) <==> Open(s, q, i, m);
      forall m | m in t.members && m !in lost
        ensures m in Pending(t, t.members[m]) || exists i :: Open(t, t.members[m], i, m)
      {
        var q := s.members[m];
        if m !in Pending(s, q) {
          var i :| Open(s, q, i, m);
          assert Open(t, q, i, m);
        }
      }
    }
  }

  lemma OpenSame(s: State, t: State, q: Period, i: nat, m: Member)
    requires t.created == s.created && t.nextRing == s.nextRing && t.rings == s.rings
    ensures Open(t, q, i, m) <==> Open(s, q, i, m)
  {
  }

  /** The state after key `m` was registered and queued for period `p`. */
  ghost function Joined(s: State, p: Period, m: Member): State {
    s.(pending := s.pending[p := Pending(s, p) + {m}], members := s.members[m := p])
  }

  lemma JoinPlaced(s: State, p: Period, m: Member, lost: set<Member>)
    requires MembersPlaced(s, lost) && p in s.created && m !in s.members
    ensures MembersPlaced(Joined(s, p, m), lost)
  {
    var t := Joined(s, p, m);
    forall q: nat, i: nat, k ensures Open(t, q, i, k) <==> Open(s, q, i, k) { OpenSame(s, t, q, i, k); }
    hide Open;
    assert forall q: nat, k :: k in Pending(t, q) <==> k in Pending(s, q) || (q == p && k == m);
    hide Pending;
    forall k | k in t.members && k !in lost
      ensures k in Pending(t, t.members[k]) || exists i :: Open(t, t.members[k], i, k)
    {
      if k != m && k !in Pending(s, s.members[k]) {
        var i :| Open(s, s.members[k], i, k);
        assert Open(t, t.members[k], i, k);
      }
    }
  }

  lemma OpenAfterOnboard(s: State, p: Period, m: Member, newRing: bool, q: Period, i: nat, k: Member)
    requires p in s.created && m in Pending(s, p)
    ensures Open(Onboard(s, p, m, newRing).state, q, i, k) <==>
      || Open(s, q, i, k)
      || (q == p && i == Landing(s, p, newRing) && k == m && i >= NextRing(s, p))
  {
  }

  lemma PendingAfterOnboard(s: State, p: Period, m: Member, newRing: bool, q: Period, k: Member)
    requires p in s.created && m in Pending(s, p)
    ensures k in Pending(Onboard(s, p, m, newRing).state, q) <==> k in Pending(s, q) && !(q == p && k == m)
  {
  }

  lemma OnboardPlaced(s: State, p: Period, m: Member, newRing: bool, lost: set<Member>)
    requires MembersPlaced(s, lost) && p in s.created && m in Pending(s, p)
    ensures MembersPlaced(Onboard(s, p, m, newRing).state,
                          lost + if Landing(s, p, newRing) < NextRing(s, p) then {m} else {})
  {
    var t := Onboard(s, p, m, newRing).state;
    assert t.members == s.members && t.created == s.created;
    hide Open, Onboard, Pending;
    forall q: nat, i: nat, k
      ensures Open(t, q, i, k) <==>
        Open(s, q, i, k) || (q == p && i == Landing(s, p, newRing) && k == m && i >= NextRing(s, p))
    {
      OpenAfterOnboard(s, p, m, newRing, q, i, k);
    }
    forall q: nat, k ensures k in Pending(t, q) <==> k in Pending(s, q) && !(q == p && k == m) {
      PendingAfterOnboard(s, p, m, newRing, q, k);
    }
    forall k | k in t.members && k !in lost && !(k == m && Landing(s, p, newRing) < NextRing(s, p))
      ensures k in Pending(t, t.members[k]) || exists i :: Open(t, t.members[k], i, k)
    {
      if k == m {
        assert Open(t, p, Landing(s, p, newRing), m);
      } else if k !in Pending(s, s.members[k]) {
        var i :| Open(s, s.members[k], i, k);
        assert Open(t, t.members[k], i, k);
      }
    }
  }

  /** The state after ring `ring` of `p` was cleaned. */
  ghost function Cleaned(s: State, p: Period, ring: nat): State
    requires ring < |Rings(s, p)|
  {
    s.(members := s.members - Rings(s, p)[ring], nextRing := s.nextRing[p := ring + 1])
  }

  lemma OpenAfterClean(s: State, p: Period, ring: nat, q: Period, i: nat, m: Member)
    requires p in s.created && ring == NextRing(s, p) && ring < |Rings(s, p)|
    ensures Open(Cleaned(s, p, ring), q, i, m) <==> Open(s, q, i, m) && !(q == p && i == ring)
  {
  }

  lemma StillRegistered(s: State, p: Period, ring: nat, lost: set<Member>, q: Period, i: nat, m: Member)
    requires MembersPlaced(s, lost) && p in s.created && ring == NextRing(s, p) && ring < |Rings(s, p)|
    ensures Open(s, q, i, m) && !(q == p && i == ring) ==> m in Cleaned(s, p, ring).members
    ensures q in s.created && m in Pending(s, q) ==> m in Cleaned(s, p, ring).members
    ensures m in lost ==> m in Cleaned(s, p, ring).members
  {
    if m in Rings(s, p)[ring] { assert Open(s, p, ring, m); }
  }

  lemma CleanedPlaced(s: State, p: Period, ring: nat, lost: set<Member>)
    requires MembersPlaced(s, lost) && p in s.created && ring == NextRing(s, p) && ring < |Rings(s, p)|
    ensures MembersPlaced(Cleaned(s, p, ring), lost)
  {
    var t := Cleaned(s, p, ring);
    forall q: nat, i: nat, m ensures Open(t, q, i, m) <==> Open(s, q, i, m) && !(q == p && i == ring) {
      OpenAfterClean(s, p, ring, q, i, m);
    }
    forall q: nat, i: nat, m ensures Open(t, q, i, m) ==> m in t.members {
      StillRegistered(s, p, ring, lost, q, i, m);
    }
    forall q: nat, m ensures q in s.created && m in Pending(s, q) ==> m in t.members {
      StillRegistered(s, p, ring, lost, q, 0, m);
    }
    forall m | m in lost ensures m in t.members { StillRegistered(s, p, ring, lost, 0, 0, m); }
    forall k | k in t.members && k !in lost
      ensures k in Pending(t, t.members[k]) || exists i :: Open(t, t.members[k], i, k)
    {
      if k !in Pending(s, s.members[k]) {
        var i :| Open(s, s.members[k], i, k);
        assert !(s.members[k] == p && i == ring);
        assert Open(t, t.members[k], i, k);
      }
    }
  }

  lemma CleanPlaced(cfg: Config, s: State, p: Period, ring: nat, env: Env, lost: set<Member>)
    requires MembersPlaced(s, lost)
    ensures MembersPlaced(CleanRing(cfg, s, p, ring, env).state, lost)
  {
    hide ExpiresAt, MembersPlaced;
    if CleanRing(cfg, s, p, ring, env).result == Ok { CleanedPlaced(s, p, ring, lost); }
  }

  /** Which of the keys `ks` were registered in the period. */
  ghost function OfPeriod(s: State, ks: set<Member>, p: Period): set<Member> {
    set m | m in ks && m in s.members && s.members[m] == p
  }

  /** Who is still registered for the period. */
  ghost function RegisteredIn(s: State, p: Period): set<Member> { OfPeriod(s, s.members.Keys, p) }

  lemma OpenAfterDelete(s: State, p: Period, t: State, q: Period, i: nat, k: Member)
    requires NextRing(s, p) >= |Rings(s, p)|
    requires t.created == s.created - {p} && t.nextRing == s.nextRing - {p} && t.rings == s.rings - {p}
    ensures Open(t, q, i, k) <==> Open(s, q, i, k)
  {
  }

  lemma DeletePlaced(cfg: Config, s: State, p: Period, env: Env, lost: set<Member>)
    requires MembersPlaced(s, lost) && DeleteCollection(cfg, s, p, env).result == Ok
    ensures MembersPlaced(DeleteCollection(cfg, s, p, env).state, lost + Pending(s, p))
  {
    hide ExpiresAt;
    var t := DeleteCollection(cfg, s, p, env).state;
    forall q: nat, i: nat, k ensures Open(t, q, i, k) <==> Open(s, q, i, k) { OpenAfterDelete(s, p, t, q, i, k); }
    assert forall i, k :: !Open(s, p, i, k);
    hide Open;
    forall k | k in t.members && k !in lost + Pending(s, p)
      ensures t.members[k] in t.created && (k in Pending(t, t.members[k]) || exists i :: Open(t, t.members[k], i, k))
    {
      if k !in Pending(s, s.members[k]) {
        var i :| Open(s, s.members[k], i, k);
        assert Open(t, t.members[k], i, k);
      }
    }
  }

  lemma SamePlaces(s: State, t: State, lost: set<Member>)
    requires MembersPlaced(s, lost)
    requires t.created == s.created && t.nextRing == s.nextRing && t.members == s.members
    requires t.pending == s.pending && t.rings == s.rings
    ensures MembersPlaced(t, lost)
  {
    assert forall q, i, k :: Open(t, q, i, k) <==> Open(s, q, i, k);
  }

  lemma AddPlaced(cfg: Config, s: State, m: Member, env: Env, lost: set<Member>)
    requires MembersPlaced(s, lost) && RingsTracked(s)
    ensures MembersPlaced(AddMember(cfg, s, m, env).state, lost)
  {
    hide MembersPlaced, PeriodAt;
    var p := PeriodAt(cfg, Now32(env));
    EnsurePlaced(s, p, env, lost);
    EnsureTracked(s, p, env);
    if AddMember(cfg, s, m, env).result == Ok { JoinPlaced(EnsureCollection(s, p, env).state, p, m, lost); }
  }

  lemma StepPlaced(cfg: Config, s: State, step: Step, lost: set<Member>)
    requires MembersPlaced(s, lost) && RingsTracked(s)
    ensures MembersPlaced(Perform(cfg, s, step.op, step.env).state, lost + NewlyLost(cfg, s, step))
  {
    hide MembersPlaced, ExpiresAt, RingsTracked, AddMember, EnsureCollection, CleanRing;
    assert lost + {} == lost;
    match step.op
    case OpPoll => EnsurePlaced(s, PeriodAt(cfg, Now32(step.env)), step.env, lost);
    case OpAddMember(m) => AddPlaced(cfg, s, m, step.env, lost);
    case OpOnboard(p, m, newRing) =>
      if p in s.created && m in Pending(s, p) { OnboardPlaced(s, p, m, newRing, lost); }
    case OpCleanRing(p, ring) => CleanPlaced(cfg, s, p, ring, step.env, lost);
    case OpDelete(p) =>
      if DeleteCollection(cfg, s, p, step.env).result == Ok { DeletePlaced(cfg, s, p, step.env, lost); }
    case OpConsume(x) => SamePlaces(s, Perform(cfg, s, step.op, step.env).state, lost);
    case OpDust => SamePlaces(s, Perform(cfg, s, step.op, step.env).state, lost);
  }

  lemma GenesisPlaced()
    ensures MembersPlaced(Genesis, {})
  {
    assert forall p, i, m :: !Open(Genesis, p, i, m);
  }

  /** In every state of every run each registered key is pending, in one uncleaned ring, or lost. */
  lemma {:induction false} AlwaysPlaced(cfg: Config, steps: seq<Step>, n: nat)
    requires n <= |steps|
    ensures MembersPlaced(StateAt(cfg, steps, n), Lost(cfg, steps, n))
  {
    hide Perform, MembersPlaced, NewlyLost;
    if n == 0 {
      GenesisPlaced();
    } else {
      AlwaysPlaced(cfg, steps, n - 1);
      AlwaysTracked(cfg, steps, n - 1);
      StepPlaced(cfg, StateAt(cfg, steps, n - 1), steps[n - 1], Lost(cfg, steps, n - 1));
    }
  }

  lemma DeletionKeeps(cfg: Config, s: State, p: Period, env: Env, lost: set<Member>)
    requires MembersPlaced(s, lost) && DeleteCollection(cfg, s, p, env).result == Ok
    ensures RegisteredIn(DeleteCollection(cfg, s, p, env).state, p) == Pending(s, p) + OfPeriod(s, lost, p)
  {
    hide ExpiresAt;
    assert forall i, m :: !Open(s, p, i, m);
  }

  lemma NextState(cfg: Config, steps: seq<Step>, n: nat)
    requires n < |steps|
    ensures StateAt(cfg, steps, n + 1) == Perform(cfg, StateAt(cfg, steps, n), steps[n].op, steps[n].env).state
  {
  }

  /**
   On every run, the keys of a period that outlive its collection are exactly those pending at the
   deletion and those lost before; so none does iff nobody was left behind.
   */
  lemma DeletionLeavesOnlyLost(cfg: Config, steps: seq<Step>, n: nat, p: Period)
    requires n < |steps| && steps[n].op == OpDelete(p) && Accepted(cfg, StateAt(cfg, steps, n), steps[n])
    ensures var s := StateAt(cfg, steps, n);
      var left := RegisteredIn(StateAt(cfg, steps, n + 1), p);
      && left == Pending(s, p) + OfPeriod(s, Lost(cfg, steps, n), p)
      && (left == {} <==> Pending(s, p) == {} && OfPeriod(s, Lost(cfg, steps, n), p) == {})
  {
    AlwaysPlaced(cfg, steps, n);
    NextState(cfg, steps, n);
    hide StateAt, Lost, DeleteCollection, RegisteredIn, MembersPlaced, OfPeriod;
    var s := StateAt(cfg, steps, n);
    DeletionKeeps(cfg, s, p, steps[n].env, Lost(cfg, steps, n));
  }

  lemma {:induction false} LostStays(cfg: Config, steps: seq<Step>, n: nat, m: nat, k: Member)
    requires n <= m <= |steps| && k in Lost(cfg, steps, n)
    ensures k in Lost(cfg, steps, m)
  {
    hide StateAt, NewlyLost;
    if n < m { LostStays(cfg, steps, n, m - 1, k); }
  }

  /** A lost key stays registered for good, so it can never be used again. */
  lemma LostForever(cfg: Config, steps: seq<Step>, n: nat, m: nat, k: Member, env: Env)
    requires n <= m <= |steps| && k in Lost(cfg, steps, n)
    ensures k in StateAt(cfg, steps, m).members
    ensures AddMember(cfg, StateAt(cfg, steps, m), k, env).result == Err(MemberKeyAlreadyUsed)
  {
    LostStays(cfg, steps, n, m, k);
    AlwaysPlaced(cfg, steps, m);
    hide StateAt, Lost;
  }

  // ----- two runs that strand a key -----

  const Early: Member := 5
  const Stranded: Member := 6

  function At(now: nat): Env { Env(now, true, true, {}) }

  /** A key that is never onboarded. */
  function PendingRun(cfg: Config): seq<Step> {
    [ Step(OpAddMember(Stranded), At(0)),
      Step(OpDelete(0), At(ExpiresAt(cfg, 0))) ]
  }

  /** A key onboarded into the last ring after that ring was cleaned. */
  function LateRun(cfg: Config): seq<Step> {
    var late := ExpiresAt(cfg, 0);
    [ Step(OpAddMember(Early), At(0)),
      Step(OpAddMember(Stranded), At(0)),
      Step(OpOnboard(0, Early, true), At(0)),
      Step(OpCleanRing(0, 0), At(late)),
      Step(OpOnboard(0, Stranded, false), At(late)),
      Step(OpDelete(0), At(late)) ]
  }

  ghost predicate AllAccepted(cfg: Config, steps: seq<Step>) {
    forall n :: 0 <= n < |steps| ==> Accepted(cfg, StateAt(cfg, steps, n), steps[n])
  }

  lemma FirstPeriod(cfg: Config)
    ensures PeriodAt(cfg, 0) == 0 && Now32(At(0)) == 0 && Now32(At(ExpiresAt(cfg, 0))) == ExpiresAt(cfg, 0) <= U32_MAX
  {
  }

  /** The key is pending when its period's collection is deleted, and stays registered. */
  lemma PendingKeyIsStranded(cfg: Config)
    ensures Run(cfg, PendingRun(cfg), U32_MAX) && AllAccepted(cfg, PendingRun(cfg))
    ensures StateAt(cfg, PendingRun(cfg), 2).members == map[Stranded := 0]
    ensures 0 in StateAt(cfg, PendingRun(cfg), 2).retired
  {
    FirstPeriod(cfg);
    hide ExpiresAt, PeriodAt;
    var r := PendingRun(cfg);
    var s1 := Perform(cfg, Genesis, r[0].op, r[0].env).state;
    assert s1.members == map[Stranded := 0] && s1.created == {0} && Rings(s1, 0) == [] && NextRing(s1, 0) == 0;
    assert Accepted(cfg, Genesis, r[0]) && Accepted(cfg, s1, r[1]);
    var s2 := Perform(cfg, s1, r[1].op, r[1].env).state;
    assert s2.members == s1.members && 0 in s2.retired;
    hide Perform, Accepted;
    assert StateAt(cfg, r, 0) == Genesis && StateAt(cfg, r, 1) == s1 && StateAt(cfg, r, 2) == s2;
    hide StateAt;
  }

  const Joining := Genesis.(created := {0}, members := map[Early := 0, Stranded := 0], births := [0],
                            pending := map[0 := {Early, Stranded}], rings := map[0 := []])
  const Half := Joining.(pending := map[0 := {Stranded}], rings := map[0 := [{Early}]])
  const Swept := Half.(members := map[Stranded := 0], nextRing := map[0 := 1])
  const JoinedLate := Swept.(pending := map[0 := {}], rings := map[0 := [{Early, Stranded}]])

  lemma LateJoins(cfg: Config)
    ensures var r := LateRun(cfg);
      var s1 := Perform(cfg, Genesis, r[0].op, r[0].env).state;
      && Accepted(cfg, Genesis, r[0]) && Accepted(cfg, s1, r[1])
      && Perform(cfg, s1, r[1].op, r[1].env).state == Joining
  {
    FirstPeriod(cfg);
    hide ExpiresAt, PeriodAt;
    assert {Early} + {Stranded} == {Early, Stranded} && {} + {Early} == {Early};
  }

  lemma EarlyCleaned(cfg: Config)
    ensures var r := LateRun(cfg);
      && Accepted(cfg, Joining, r[2]) && Perform(cfg, Joining, r[2].op, r[2].env).state == Half
      && Accepted(cfg, Half, r[3]) && Perform(cfg, Half, r[3].op, r[3].env).state == Swept
  {
    FirstPeriod(cfg);
    hide ExpiresAt, PeriodAt;
    assert {Early, Stranded} - {Early} == {Stranded};
    assert [] + [{Early}] == [{Early}];
    assert map[Early := 0, Stranded := 0] - {Early} == map[Stranded := 0];
  }

  lemma LateOnboards(cfg: Config)
    ensures var r := LateRun(cfg);
      && Accepted(cfg, Swept, r[4]) && Perform(cfg, Swept, r[4].op, r[4].env).state == JoinedLate
      && Accepted(cfg, JoinedLate, r[5])
      && Perform(cfg, JoinedLate, r[5].op, r[5].env).state.members == map[Stranded := 0]
      && 0 in Perform(cfg, JoinedLate, r[5].op, r[5].env).state.retired
  {
    FirstPeriod(cfg);
    hide ExpiresAt, PeriodAt;
    assert {Stranded} - {Stranded} == {} && {Early} + {Stranded} == {Early, Stranded};
    assert [{Early}][..0] + [{Early, Stranded}] == [{Early, Stranded}];
  }

  /** The key joined a ring in the end, but after its cleaning, and stays registered. */
  lemma LateKeyIsStranded(cfg: Config)
    ensures Run(cfg, LateRun(cfg), U32_MAX) && AllAccepted(cfg, LateRun(cfg))
    ensures StateAt(cfg, LateRun(cfg), 6).members == map[Stranded := 0]
    ensures Pending(StateAt(cfg, LateRun(cfg), 5), 0) == {} && 0 in StateAt(cfg, LateRun(cfg), 6).retired
  {
    FirstPeriod(cfg);
    LateJoins(cfg);
    EarlyCleaned(cfg);
    LateOnboards(cfg);
    hide Perform, Accepted, ExpiresAt;
    var r := LateRun(cfg);
    assert StateAt(cfg, r, 1) == Perform(cfg, Genesis, r[0].op, r[0].env).state;
    assert StateAt(cfg, r, 2) == Joining;
    assert StateAt(cfg, r, 3) == Half;
    assert StateAt(cfg, r, 4) == Swept;
    assert StateAt(cfg, r, 5) == JoinedLate;
    assert StateAt(cfg, r, 6) == Perform(cfg, JoinedLate, r[5].op, r[5].env).state;
    assert StateAt(cfg, r, 0) == Genesis;
    hide StateAt;
  }

  // ----- runs that keep the stated assumption -----

  /** The stated assumption: members reach their rings before their period expires. */
  predicate OnboardsInTime(cfg: Config, step: Step) {
    step.op.OpOnboard? ==> step.env.now < ExpiresAt(cfg, step.op.period)
  }

  /** The stated assumption at deletion: nobody is left pending. */
  predicate OnboardedBeforeDeletion(s: State, step: Step) {
    step.op.OpDelete? ==> Pending(s, step.op.period) == {}
  }

  /** A run in which the member service keeps the stated assumptions. */
  ghost predicate OrderlyRun(cfg: Config, steps: seq<Step>) {
    && Run(cfg, steps, U32_MAX)
    && (forall n :: 0 <= n < |steps| ==> OnboardsInTime(cfg, steps[n]))
    && (forall n :: 0 <= n < |steps| ==> OnboardedBeforeDeletion(StateAt(cfg, steps, n), steps[n]))
  }

  /** Cleaning starts only after expiry. */
  ghost predicate CleanedAfterExpiry(cfg: Config, s: State, clock: nat) {
    forall p :: NextRing(s, p) > 0 ==> ExpiresAt(cfg, p) <= clock
  }

  lemma StepCleanedAfterExpiry(cfg: Config, s: State, step: Step, clock: nat)
    requires CleanedAfterExpiry(cfg, s, clock) && RingsTracked(s) && clock <= step.env.now < WRAP
    ensures CleanedAfterExpiry(cfg, Perform(cfg, s, step.op, step.env).state, step.env.now)
  {
    hide ExpiresAt;
    assert Now32(step.env) == step.env.now;
    var t := Perform(cfg, s, step.op, step.env).state;
    if step.op.OpCleanRing? && Accepted(cfg, s, step) {
      assert ExpiresAt(cfg, step.op.period) <= step.env.now;
    }
    hide Perform, RingsTracked;
    forall p | NextRing(t, p) > 0 ensures ExpiresAt(cfg, p) <= step.env.now { StepNextRing(cfg, s, step, p); }
  }

  lemma ClockBelow(cfg: Config, steps: seq<Step>, n: nat)
    requires Run(cfg, steps, U32_MAX) && n < |steps|
    ensures ClockAt(steps, n) <= steps[n].env.now < WRAP
  {
  }

  lemma {:induction false} RunCleanedAfterExpiry(cfg: Config, steps: seq<Step>, n: nat)
    requires Run(cfg, steps, U32_MAX) && n <= |steps|
    ensures CleanedAfterExpiry(cfg, StateAt(cfg, steps, n), ClockAt(steps, n))
  {
    hide Perform, Run, ExpiresAt;
    if n > 0 {
      RunCleanedAfterExpiry(cfg, steps, n - 1);
      AlwaysTracked(cfg, steps, n - 1);
      ClockBelow(cfg, steps, n - 1);
      hide CleanedAfterExpiry, RingsTracked;
      StepCleanedAfterExpiry(cfg, StateAt(cfg, steps, n - 1), steps[n - 1], ClockAt(steps, n - 1));
    }
  }

  /** Under the assumption no key is ever lost. */
  lemma {:induction false} OrderlyRunLosesNobody(cfg: Config, steps: seq<Step>, n: nat)
    requires OrderlyRun(cfg, steps) && n <= |steps|
    ensures Lost(cfg, steps, n) == {}
  {
    hide Perform, Run, ExpiresAt, StateAt;
    if n > 0 {
      OrderlyRunLosesNobody(cfg, steps, n - 1);
      RunCleanedAfterExpiry(cfg, steps, n - 1);
      ClockBelow(cfg, steps, n - 1);
      assert OnboardsInTime(cfg, steps[n - 1]) && OnboardedBeforeDeletion(StateAt(cfg, steps, n - 1), steps[n - 1]);
      assert NewlyLost(cfg, StateAt(cfg, steps, n - 1), steps[n - 1]) == {};
    }
  }

  /** So every registered key is pending or in one uncleaned ring of its live period. */
  lemma OrderlyRunPlaces(cfg: Config, steps: seq<Step>, n: nat)
    requires OrderlyRun(cfg, steps) && n <= |steps|
    ensures MembersPlaced(StateAt(cfg, steps, n), {})
  {
    AlwaysPlaced(cfg, steps, n);
    OrderlyRunLosesNobody(cfg, steps, n);
  }

  /** And an accepted deletion finds every member of its period already gone. */
  lemma DeletedPeriodsAreEmpty(cfg: Config, steps: seq<Step>, n: nat)
    requires OrderlyRun(cfg, steps) && n < |steps| && steps[n].op.OpDelete?
    requires Accepted(cfg, StateAt(cfg, steps, n), steps[n])
    ensures RegisteredIn(StateAt(cfg, steps, n + 1), steps[n].op.period) == {}
    ensures ExpiresAt(cfg, steps[n].op.period) <= steps[n].env.now
  {
    OrderlyRunLosesNobody(cfg, steps, n);
    hide ExpiresAt, RegisteredIn, Run, OnboardsInTime, StateAt, Accepted;
    ClockBelow(cfg, steps, n);
    var s, p, env := StateAt(cfg, steps, n), steps[n].op.period, steps[n].env;
    assert OnboardedBeforeDeletion(s, steps[n]);
    DeletionLeavesOnlyLost(cfg, steps, n, p);
    DeletedIsExpired(cfg, s, p, env);
  }

  lemma DeletedIsExpired(cfg: Config, s: State, p: Period, env: Env)
    requires Accepted(cfg, s, Step(OpDelete(p), env)) && env.now < WRAP
    ensures ExpiresAt(cfg, p) <= env.now
  {
    hide ExpiresAt;
    assert Now32(env) == env.now;
  }
}
