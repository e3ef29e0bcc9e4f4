/**
 Alias-account mappings (pallets/alias-accounts/src/lib.rs): a two-way map between accounts and
 contextual aliases, staleness stamps, and the pallet's references on accounts. The member service
 is an oracle that may answer differently in every step.
 */
module AliasMaps {
  import opened Common

  type AccountId = nat
  type Identifier = nat
  type RingIndex = nat
  type Revision = nat

  datatype ContextualAlias = ContextualAlias(alias: nat, context: nat)

  datatype AliasInfo = AliasInfo(collection: Identifier, revision: Revision, ring: RingIndex, ca: ContextualAlias)

  /** `sufficients` counts the references this pallet holds on each account. */
  datatype Maps = Maps(
    aliasToAccount: map<(Identifier, ContextualAlias), AccountId>,
    accountToAlias: map<AccountId, AliasInfo>,
    staleSince: map<AccountId, nat>,
    sufficients: map<AccountId, nat>)

  datatype RawConfig = RawConfig(
    people: Identifier,
    peopleLite: Identifier,
    proofWindow: nat,
    retention: nat,
    maxBatch: nat,
    interval: nat)

  type Config = c: RawConfig | c.proofWindow > 0 && c.retention > 0 && c.maxBatch > 0 && c.interval > 0
    witness RawConfig(0, 1, 1, 1, 1, 1)

  /**
   What the outside answers in one step: clock, transaction source, which revisions the member
   service accepts, the newest root times it knows, what a proof verifies to, fee and burn.
   */
  datatype Env = Env(
    now: nat,
    local: bool,
    valid: set<(Identifier, RingIndex, Revision)>,
    roots: map<(Identifier, RingIndex), nat>,
    proven: Option<nat>,
    fee: Option<nat>,
    burnOk: bool)

  datatype Error =
    | InvalidCollection | AccountInUse | InvalidAccount | AliasAccountAlreadySet | TimeOutOfRange
    | AliasFeeUnset | ReproveMismatch | StaleRevision | BadProof | BurnRefused
    | TransactionNotLocal | EmptyBatch | UnsortedBatch | WrongStaleState

  datatype Result = Ok | Err(error: Error)

  datatype Outcome = Outcome(maps: Maps, result: Result)

  function Key(i: AliasInfo): (Identifier, ContextualAlias) { (i.collection, i.ca) }

  function Refs(m: Maps, a: AccountId): nat { if a in m.sufficients then m.sufficients[a] else 0 }

  function IncRef(m: Maps, a: AccountId): Maps { m.(sufficients := m.sufficients[a := Refs(m, a) + 1]) }

  function DecRef(m: Maps, a: AccountId): Maps { m.(sufficients := m.sufficients[a := MonusSat(Refs(m, a), 1)]) }

  /** `verify_proof`: the alias a proof yields in `context`, or why it is refused. */
  function VerifyProof(cfg: Config, collection: Identifier, ring: RingIndex, revision: Revision, env: Env): (r: (Result, nat)) {
    if collection != cfg.people && collection != cfg.peopleLite then (Err(InvalidCollection), 0)
    else if (collection, ring, revision) !in env.valid then (Err(StaleRevision), 0)
    else
      match env.proven
      case None => (Err(BadProof), 0)
      case Some(alias) => (Ok, alias)
  }

  predicate InWindow(cfg: Config, validAt: nat, now: nat) {
    validAt <= now <= AddSat(validAt, cfg.proofWindow, U64_MAX)
  }

  // ----- the signed calls -----

  function UnsetAlias(m: Maps, who: AccountId): Outcome {
    if who !in m.accountToAlias then Outcome(m, Err(InvalidAccount))
    else Outcome(Forget(m, who), Ok)
  }

  /** Both directions, the stamp and the reference of a mapped account go. */
  function Forget(m: Maps, who: AccountId): Maps
    requires who in m.accountToAlias
  {
    DecRef(m.(accountToAlias := m.accountToAlias - {who},
              aliasToAccount := m.aliasToAccount - {Key(m.accountToAlias[who])},
              staleSince := m.staleSince - {who}), who)
  }

  function SetAlias(cfg: Config, m: Maps, who: AccountId, collection: Identifier, ring: RingIndex,
                    revision: Revision, context: nat, validAt: nat, env: Env): Outcome
  {
    var (verdict, alias) := VerifyProof(cfg, collection, ring, revision, env);
    if env.fee.None? then Outcome(m, Err(AliasFeeUnset))
    else if !InWindow(cfg, validAt, env.now) then Outcome(m, Err(TimeOutOfRange))
    else if verdict != Ok then Outcome(m, verdict)
    else
      var info := AliasInfo(collection, revision, ring, ContextualAlias(alias, context));
      var isNew := !(Key(info) in m.aliasToAccount && m.aliasToAccount[Key(info)] == who);
      if !isNew && who in m.accountToAlias && m.accountToAlias[who] == info then
        Outcome(m, Err(AliasAccountAlreadySet))
      else if isNew && who in m.accountToAlias then Outcome(m, Err(AccountInUse))
      else if !env.burnOk then Outcome(m, Err(BurnRefused))
      else Outcome(Bind(m, who, info), Ok)
  }

  /** Bind `who` to the alias; another account bound to it loses its mapping and reference. */
  function Bind(m: Maps, who: AccountId, info: AliasInfo): Maps {
    var held := Key(info) in m.aliasToAccount;
    var isNew := !(held && m.aliasToAccount[Key(info)] == who);
    var m1 := if isNew && held then
                var previous := m.aliasToAccount[Key(info)];
                DecRef(m.(accountToAlias := m.accountToAlias - {previous},
                          staleSince := m.staleSince - {previous}), previous)
              else m;
    var m2 := if isNew then IncRef(m1, who) else m1;
    m2.(accountToAlias := m2.accountToAlias[who := info],
        aliasToAccount := m2.aliasToAccount[Key(info) := who],
        staleSince := m2.staleSince - {who})
  }

  function ReproveAlias(cfg: Config, m: Maps, who: AccountId, ring: RingIndex, revision: Revision,
                        validAt: nat, env: Env): Outcome
  {
    if !InWindow(cfg, validAt, env.now) then Outcome(m, Err(TimeOutOfRange))
    else if who !in m.accountToAlias then Outcome(m, Err(InvalidAccount))
    else
      var was := m.accountToAlias[who];
      var (verdict, alias) := VerifyProof(cfg, was.collection, ring, revision, env);
      if verdict != Ok then Outcome(m, verdict)
      else if alias != was.ca.alias then Outcome(m, Err(ReproveMismatch))
      else if ring == was.ring && revision <= was.revision then Outcome(m, Err(AliasAccountAlreadySet))
      else
        Outcome(m.(accountToAlias := m.accountToAlias[who := was.(revision := revision, ring := ring)],
                   staleSince := m.staleSince - {who}), Ok)
  }

  // ----- the sweep calls -----

  datatype Action = Report | Retire | ClearReport

  /** `stale_alias_action`: which sweep call applies to an account's mapping. */
  function StaleAction(cfg: Config, m: Maps, a: AccountId, env: Env): Option<Action> {
    if a !in m.accountToAlias then None
    else
      var i := m.accountToAlias[a];
      if (i.collection, i.ring, i.revision) in env.valid then
        if a in m.staleSince then Some(ClearReport) else None
      else if a !in m.staleSince then Some(Report)
      else if env.now >= AddSat(m.staleSince[a], cfg.retention, U64_MAX) then Some(Retire)
      else None
  }

  /** When a reported mapping counts as stale from: the newest root, capped by the clock. */
  function StampOf(i: AliasInfo, env: Env): nat {
    if (i.collection, i.ring) in env.roots then Min(env.roots[(i.collection, i.ring)], env.now) else env.now
  }

  function Stamps(infos: map<AccountId, AliasInfo>, b: set<AccountId>, env: Env): map<AccountId, nat>
    requires b <= infos.Keys
  {
    map a | a in b :: StampOf(infos[a], env)
  }

  function KeysOf(infos: map<AccountId, AliasInfo>, b: set<AccountId>): set<(Identifier, ContextualAlias)>
    requires b <= infos.Keys
  {
    set a | a in b :: Key(infos[a])
  }

  function FewerRefs(m: Maps, b: set<AccountId>): map<AccountId, nat> {
    map a | a in b :: MonusSat(Refs(m, a), 1)
  }

  /** What one sweep call does to a whole batch at once. */
  function Swept(m: Maps, action: Action, batch: set<AccountId>, env: Env): Maps {
    var b := batch * m.accountToAlias.Keys;
    match action
    case Report => m.(staleSince := m.staleSince + Stamps(m.accountToAlias, b, env))
    case Retire =>
      Maps(m.aliasToAccount - KeysOf(m.accountToAlias, b),
           m.accountToAlias - b,
           m.staleSince - b,
           m.sufficients + FewerRefs(m, b))
    case ClearReport => m.(staleSince := m.staleSince - b)
  }

  predicate StrictlyAscending(s: seq<AccountId>) {
    forall i :: 0 <= i < |s| - 1 ==> s[i] < s[i + 1]
  }

  /** `authorize_sweep`. */
  function AuthorizeSweep(cfg: Config, m: Maps, action: Action, batch: seq<AccountId>, env: Env): Result {
    if !env.local then Err(TransactionNotLocal)
    else if batch == [] then Err(EmptyBatch)
    else if !StrictlyAscending(batch) then Err(UnsortedBatch)
    else if exists i :: 0 <= i < |batch| && StaleAction(cfg, m, batch[i], env) != Some(action) then Err(WrongStaleState)
    else Ok
  }

  function Sweep(cfg: Config, m: Maps, action: Action, batch: seq<AccountId>, env: Env): Outcome {
    var verdict := AuthorizeSweep(cfg, m, action, batch, env);
    if verdict != Ok then Outcome(m, verdict) else Outcome(Swept(m, action, Elements(batch), env), Ok)
  }

  // ----- steps -----

  datatype Op =
    | OpSet(who: AccountId, collection: Identifier, ring: RingIndex, revision: Revision, context: nat, validAt: nat)
    | OpUnset(who: AccountId)
    | OpReprove(who: AccountId, ring: RingIndex, revision: Revision, validAt: nat)
    | OpSweep(action: Action, batch: seq<AccountId>)

  datatype Step = Step(op: Op, env: Env)

  function Perform(cfg: Config, m: Maps, op: Op, env: Env): Outcome {
    match op
    case OpSet(who, collection, ring, revision, context, validAt) =>
      SetAlias(cfg, m, who, collection, ring, revision, context, validAt, env)
    case OpUnset(who) => UnsetAlias(m, who)
    case OpReprove(who, ring, revision, validAt) => ReproveAlias(cfg, m, who, ring, revision, validAt, env)
    case OpSweep(action, batch) => Sweep(cfg, m, action, batch, env)
  }

  const Empty := Maps(map[], map[], map[], map[])

  /** The maps after the first `n` steps of a run. */
  function StateAt(cfg: Config, steps: seq<Step>, n: nat): Maps
    requires n <= |steps|
  {
    if n == 0 then Empty
    else Perform(cfg, StateAt(cfg, steps, n - 1), steps[n - 1].op, steps[n - 1].env).maps
  }

  // ----- the maps stay inverse bijections -----

  ghost predicate Inverse(m: Maps) {
    && (forall a :: a in m.accountToAlias ==>
          Key(m.accountToAlias[a]) in m.aliasToAccount && m.aliasToAccount[Key(m.accountToAlias[a])] == a)
    && (forall k :: k in m.aliasToAccount ==>
          m.aliasToAccount[k] in m.accountToAlias && Key(m.accountToAlias[m.aliasToAccount[k]]) == k)
    && (forall a :: a in m.staleSince ==> a in m.accountToAlias)
    && (forall a :: Refs(m, a) == if a in m.accountToAlias then 1 else 0)
  }

  lemma ForgetKeepsInverse(m: Maps, who: AccountId)
    requires Inverse(m) && who in m.accountToAlias
    ensures Inverse(Forget(m, who))
  {
  }

  lemma BindKeepsInverse(m: Maps, who: AccountId, info: AliasInfo)
    requires Inverse(m)
    requires who in m.accountToAlias ==> Key(info) in m.aliasToAccount && m.aliasToAccount[Key(info)] == who
    ensures Inverse(Bind(m, who, info))
  {
  }

  lemma ReproveKeepsInverse(m: Maps, who: AccountId, ring: RingIndex, revision: Revision)
    requires Inverse(m) && who in m.accountToAlias
    ensures Inverse(m.(accountToAlias := m.accountToAlias[who := m.accountToAlias[who].(revision := revision, ring := ring)],
                       staleSince := m.staleSince - {who}))
  {
  }

  lemma SweptKeepsInverse(m: Maps, action: Action, batch: set<AccountId>, env: Env)
    requires Inverse(m)
    ensures Inverse(Swept(m, action, batch, env))
  {
    if action.Retire? {
      var t := Swept(m, action, batch, env);
      forall a | a in t.accountToAlias
        ensures Key(t.accountToAlias[a]) in t.aliasToAccount && t.aliasToAccount[Key(t.accountToAlias[a])] == a
      {
        assert m.aliasToAccount[Key(m.accountToAlias[a])] == a;
      }
    }
  }

  /** Every call keeps the maps inverse, stamps on mapped accounts, one reference per mapping. */
  lemma StepKeepsInverse(cfg: Config, m: Maps, op: Op, env: Env)
    requires Inverse(m)
    ensures Inverse(Perform(cfg, m, op, env).maps)
  {
    hide Forget, Bind, Swept, AuthorizeSweep;
    match op
    case OpSet(who, collection, ring, revision, context, validAt) =>
      var o := SetAlias(cfg, m, who, collection, ring, revision, context, validAt, env);
      if o.result == Ok {
        var alias := VerifyProof(cfg, collection, ring, revision, env).1;
        BindKeepsInverse(m, who, AliasInfo(collection, revision, ring, ContextualAlias(alias, context)));
      }
    case OpUnset(who) => if who in m.accountToAlias { ForgetKeepsInverse(m, who); }
    case OpReprove(who, ring, revision, validAt) =>
      if who in m.accountToAlias { ReproveKeepsInverse(m, who, ring, revision); }
    case OpSweep(action, batch) => SweptKeepsInverse(m, action, Elements(batch), env);
  }

  lemma {:induction false} AlwaysInverse(cfg: Config, steps: seq<Step>, n: nat)
    requires n <= |steps|
    ensures Inverse(StateAt(cfg, steps, n))
  {
    hide Inverse, Perform;
    if n == 0 {
      EmptyInverse();
    } else {
      AlwaysInverse(cfg, steps, n - 1);
      StepKeepsInverse(cfg, StateAt(cfg, steps, n - 1), steps[n - 1].op, steps[n - 1].env);
    }
  }

  lemma EmptyInverse()
    ensures Inverse(Empty)
  {
  }
}
