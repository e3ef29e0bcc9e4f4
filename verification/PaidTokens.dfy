/**
 Paid unload tokens (pallets/coinage/src/paid_tkn_manager.rs): collections per time period, members,
 consumption records, and the clean-up that eventually erases those records.
 */
module PaidTokens {
  import opened Common
  import opened StorageOrder

  type Period = nat
  type Member = nat

  /** A token is identified by its period, its ring and the alias proven in that ring. */
  datatype Token = Token(period: Period, ring: nat, alias: nat)

  const WRAP: nat := 0x1_0000_0000

  /** Period length and expiry delay, both `u32` seconds. */
  datatype RawConfig = RawConfig(length: nat, expiry: nat)

  type Config = c: RawConfig | c.length <= U32_MAX && c.expiry <= U32_MAX witness RawConfig(0, 0)

  /**
   The manager's storage (`members` also records the period a key was added in), the member
   service's pending members and rings per collection and its identifiers retired by deletions,
   which no new collection can use, and the history of creations and accepted tokens.
   */
  datatype State = State(
    created: set<Period>,
    nextRing: map<Period, nat>,
    members: map<Member, Period>,
    consumed: set<Token>,
    dusting: set<Period>,
    pending: map<Period, set<Member>>,
    rings: map<Period, seq<set<Member>>>,
    retired: set<Period>,
    births: seq<Period>,
    accepted: seq<Token>)

  const Genesis := State({}, map[], map[], {}, {}, map[], map[], {}, [], [])

  /**
   What the outside answers in one step: the clock in seconds, whether the member service accepts,
   whether key and proof check out, and which records a bounded `clear_prefix` removes.
   */
  datatype Env = Env(now: nat, serviceOk: bool, proofOk: bool, gone: set<Token>)

  datatype Error =
    | ServiceRefused | IdentifierRetired | MemberKeyAlreadyUsed | InvalidMemberKey
    | NothingToBuild | Future | Stale | InvalidRevision | InvalidTokenProof | AlreadyConsumed

  datatype Result = Ok | Err(error: Error)

  datatype Outcome = Outcome(state: State, result: Result)

  // ----- period arithmetic -----

  /** `as_secs() as u32`. */
  function Now32(env: Env): nat { env.now % WRAP }

  function PeriodAt(cfg: Config, now32: nat): Period {
    if cfg.length == 0 then 0 else now32 / cfg.length
  }

  /** `period_expiration_time`; the addition of one wraps in `u32`. */
  function ExpiresAt(cfg: Config, p: Period): nat {
    AddSat(MulSat((p + 1) % WRAP, cfg.length, U32_MAX), cfg.expiry, U32_MAX)
  }

  function NextRing(s: State, p: Period): nat { if p in s.nextRing then s.nextRing[p] else 0 }

  function Rings(s: State, p: Period): seq<set<Member>> { if p in s.rings then s.rings[p] else [] }

  function Pending(s: State, p: Period): set<Member> { if p in s.pending then s.pending[p] else {} }

  // ----- operations -----

  /** `ensure_collection_exists`; the member service creates no collection under a retired identifier. */
  function EnsureCollection(s: State, p: Period, env: Env): Outcome {
    if p in s.created then Outcome(s, Ok)
    else if p in s.retired then Outcome(s, Err(IdentifierRetired))
    else if !env.serviceOk then Outcome(s, Err(ServiceRefused))
    else
      Outcome(s.(created := s.created + {p},
                 pending := s.pending[p := {}],
                 rings := s.rings[p := []],
                 births := s.births + [p]), Ok)
  }

  function AddMember(cfg: Config, s: State, m: Member, env: Env): Outcome {
    if m in s.members then Outcome(s, Err(MemberKeyAlreadyUsed))
    else if !env.proofOk then Outcome(s, Err(InvalidMemberKey))
    else
      var p := PeriodAt(cfg, Now32(env));
      var o := EnsureCollection(s, p, env);
      if o.result != Ok then Outcome(s, o.result)
      else if !env.serviceOk then Outcome(s, Err(ServiceRefused))
      else
        Outcome(o.state.(pending := o.state.pending[p := Pending(o.state, p) + {m}],
                         members := o.state.members[m := p]), Ok)
  }

  /** The member service puts a pending member into its last ring or opens a new one. */
  function Onboard(s: State, p: Period, m: Member, newRing: bool): Outcome {
    if p !in s.created || m !in Pending(s, p) then Outcome(s, Ok)
    else
      var rs := Rings(s, p);
      var rs' := if newRing || rs == [] then rs + [{m}] else rs[..|rs| - 1] + [rs[|rs| - 1] + {m}];
      Outcome(s.(pending := s.pending[p := Pending(s, p) - {m}], rings := s.rings[p := rs']), Ok)
  }

  function CleanRing(cfg: Config, s: State, p: Period, ring: nat, env: Env): Outcome {
    if p !in s.created then Outcome(s, Err(NothingToBuild))
    else if Now32(env) < ExpiresAt(cfg, p) then Outcome(s, Err(Future))
    else if ring != NextRing(s, p) || ring >= |Rings(s, p)| then Outcome(s, Err(Stale))
    else
      Outcome(s.(members := s.members - Rings(s, p)[ring], nextRing := s.nextRing[p := ring + 1]), Ok)
  }

  function DeleteCollection(cfg: Config, s: State, p: Period, env: Env): Outcome {
    if p !in s.created then Outcome(s, Err(NothingToBuild))
    else if Now32(env) < ExpiresAt(cfg, p) then Outcome(s, Err(Future))
    else if NextRing(s, p) < |Rings(s, p)| then Outcome(s, Err(Stale))
    else if !env.serviceOk then Outcome(s, Err(ServiceRefused))
    else
      Outcome(s.(created := s.created - {p},
                 nextRing := s.nextRing - {p},
                 pending := s.pending - {p},
                 rings := s.rings - {p},
                 retired := s.retired + {p},
                 dusting := if exists x :: x in s.consumed && x.period == p then s.dusting + {p} else s.dusting), Ok)
  }

  /** `validate_token_consumption_proof` followed by `mark_token_consumed`; only a ring has a root. */
  function Consume(cfg: Config, s: State, x: Token, env: Env): Outcome {
    if x.period !in s.created || x.ring >= |Rings(s, x.period)| || !env.serviceOk then Outcome(s, Err(InvalidRevision))
    else if Now32(env) >= ExpiresAt(cfg, x.period) then Outcome(s, Err(Stale))
    else if !env.proofOk then Outcome(s, Err(InvalidTokenProof))
    else if x in s.consumed then Outcome(s, Err(AlreadyConsumed))
    else Outcome(s.(consumed := s.consumed + {x}, accepted := s.accepted + [x]), Ok)
  }

  function RecordsOf(s: State, p: Period): set<Token> { set x | x in s.consumed && x.period == p }

  /** `clean_dust_unchecked`: erase records of the first queued period. */
  function CleanDust(s: State, env: Env): Outcome {
    if s.dusting == {} then Outcome(s, Err(Stale))
    else
      var p := Least(s.dusting);
      var left := s.consumed - env.gone;
      Outcome(s.(consumed := left,
                 dusting := if RecordsOf(s, p) <= env.gone then s.dusting - {p} else s.dusting), Ok)
  }

  // ----- runs -----

  datatype Op =
    | OpPoll
    | OpAddMember(member: Member)
    | OpOnboard(period: Period, member: Member, newRing: bool)
    | OpCleanRing(period: Period, ring: nat)
    | OpDelete(period: Period)
    | OpConsume(token: Token)
    | OpDust

  datatype Step = Step(op: Op, env: Env)

  function Perform(cfg: Config, s: State, op: Op, env: Env): Outcome {
    match op
    case OpPoll => EnsureCollection(s, PeriodAt(cfg, Now32(env)), env)
    case OpAddMember(m) => AddMember(cfg, s, m, env)
    case OpOnboard(p, m, newRing) => Onboard(s, p, m, newRing)
    case OpCleanRing(p, ring) => CleanRing(cfg, s, p, ring, env)
    case OpDelete(p) => DeleteCollection(cfg, s, p, env)
    case OpConsume(x) => Consume(cfg, s, x, env)
    case OpDust => CleanDust(s, env)
  }

  function StateAt(cfg: Config, steps: seq<Step>, n: nat): State
    requires n <= |steps|
  {
    if n == 0 then Genesis
    else Perform(cfg, StateAt(cfg, steps, n - 1), steps[n - 1].op, steps[n - 1].env).state
  }

  /** Dusting removes only records of the queued period it works on. */
  ghost predicate Legal(s: State, step: Step) {
    step.op.OpDust? && s.dusting != {} ==> step.env.gone <= RecordsOf(s, Least(s.dusting))
  }

  /** A run on any clock. */
  ghost predicate LegalRun(cfg: Config, steps: seq<Step>) {
    forall n :: 0 <= n < |steps| ==> Legal(StateAt(cfg, steps, n), steps[n])
  }

  /** A run whose clock never goes back and never passes `bound`. */
  ghost predicate Run(cfg: Config, steps: seq<Step>, bound: nat) {
    && LegalRun(cfg, steps)
    && (forall n :: 0 <= n < |steps| ==> steps[n].env.now <= bound)
    && (forall i, j :: 0 <= i < j < |steps| ==> steps[i].env.now <= steps[j].env.now)
  }

  /** The clock after `n` steps. */
  function ClockAt(steps: seq<Step>, n: nat): nat
    requires n <= |steps|
  {
    if n == 0 then 0 else steps[n - 1].env.now
  }

  // ----- no token is accepted twice -----

  /** Records are erased only of retired periods, and every record is of a live or a queued period. */
  ghost predicate SpendSafe(s: State) {
    && NoDuplicates(s.accepted)
    && s.created !! s.retired
    && s.dusting <= s.retired
    && (forall x :: x in s.accepted ==> x in s.consumed || x.period in s.retired)
    && (forall x :: x in s.consumed ==> x.period in s.created || x.period in s.dusting)
  }

  lemma EnsureSpendSafe(s: State, p: Period, env: Env)
    requires SpendSafe(s)
    ensures SpendSafe(EnsureCollection(s, p, env).state)
  {
  }

  lemma StepSpendSafe(cfg: Config, s: State, step: Step)
    requires SpendSafe(s) && Legal(s, step)
    ensures SpendSafe(Perform(cfg, s, step.op, step.env).state)
  {
    hide ExpiresAt, PeriodAt, EnsureCollection;
    var t := Perform(cfg, s, step.op, step.env).state;
    match step.op
    case OpPoll => EnsureSpendSafe(s, PeriodAt(cfg, Now32(step.env)), step.env);
    case OpAddMember(m) => EnsureSpendSafe(s, PeriodAt(cfg, Now32(step.env)), step.env);
    case OpConsume(x) =>
      if t != s { assert x !in s.accepted; }
    case OpDelete(p) =>
      if t != s {
        assert forall x :: x in s.consumed && x.period == p ==> p in t.dusting;
      }
    case OpDust =>
      if s.dusting != {} {
        var p := Least(s.dusting);
        assert forall x :: x in s.consumed && x !in t.consumed ==> x.period == p;
        assert forall x :: x in t.consumed && x.period == p ==> x in RecordsOf(s, p);
      }
    case _ =>
  }

  lemma {:induction false} RunSpendSafe(cfg: Config, steps: seq<Step>, n: nat)
    requires n <= |steps| && LegalRun(cfg, steps)
    ensures SpendSafe(StateAt(cfg, steps, n))
  {
    hide Perform, Legal;
    if n > 0 {
      RunSpendSafe(cfg, steps, n - 1);
      hide SpendSafe;
      StepSpendSafe(cfg, StateAt(cfg, steps, n - 1), steps[n - 1]);
    }
  }

  /**
   No double spend. On every run, whatever the clock does, no token is accepted twice, although its
   record is erased in the end: a record goes only after its period was retired for good, and until
   then its period is live or queued for dusting.
   */
  lemma NeverAcceptedTwice(cfg: Config, steps: seq<Step>, n: nat)
    requires n <= |steps| && LegalRun(cfg, steps)
    ensures var s := StateAt(cfg, steps, n);
      && NoDuplicates(s.accepted)
      && (forall x :: x in s.accepted && x !in s.consumed ==> x.period in s.retired && x.period !in s.created)
      && (forall x :: x in s.consumed ==> x.period in s.created || x.period in s.dusting)
  {
    hide StateAt, LegalRun;
    RunSpendSafe(cfg, steps, n);
  }

  // ----- periods are retired only after they expired -----

  ghost predicate RetiredExpired(cfg: Config, s: State, clock: nat) {
    forall p :: p in s.retired ==> ExpiresAt(cfg, p) <= clock
  }

  lemma StepRetiredExpired(cfg: Config, s: State, step: Step, clock: nat)
    requires RetiredExpired(cfg, s, clock) && clock <= step.env.now < WRAP
    ensures RetiredExpired(cfg, Perform(cfg, s, step.op, step.env).state, step.env.now)
  {
    hide ExpiresAt, PeriodAt;
    assert Now32(step.env) == step.env.now;
  }

  /** Below 2^32 seconds a period is retired, and its records erased, only once its tokens expired. */
  lemma {:induction false} ErasedOnlyAfterExpiry(cfg: Config, steps: seq<Step>, n: nat)
    requires n <= |steps| && Run(cfg, steps, U32_MAX)
    ensures RetiredExpired(cfg, StateAt(cfg, steps, n), ClockAt(steps, n))
    ensures forall x :: x in StateAt(cfg, steps, n).accepted && x !in StateAt(cfg, steps, n).consumed ==>
      ExpiresAt(cfg, x.period) <= ClockAt(steps, n)
  {
    hide Perform, Legal, ExpiresAt;
    RunSpendSafe(cfg, steps, n);
    if n > 0 {
      ErasedOnlyAfterExpiry(cfg, steps, n - 1);
      assert ClockAt(steps, n - 1) <= steps[n - 1].env.now;
      StepRetiredExpired(cfg, StateAt(cfg, steps, n - 1), steps[n - 1], ClockAt(steps, n - 1));
    }
  }
}
