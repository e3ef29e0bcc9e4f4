/** What each alias-accounts call is accepted for, what it stores, and that every mapping was proven. */
module AliasCalls {
  import opened Common
  import opened AliasMaps

  /** A proof the member service accepts: of a personhood collection, at a valid revision. */
  ghost predicate ProofAccepted(cfg: Config, collection: Identifier, ring: RingIndex, revision: Revision, env: Env) {
    && (collection == cfg.people || collection == cfg.peopleLite)
    && (collection, ring, revision) in env.valid
    && env.proven.Some?
  }

  lemma VerifiesIff(cfg: Config, collection: Identifier, ring: RingIndex, revision: Revision, env: Env)
    ensures var r := VerifyProof(cfg, collection, ring, revision, env);
      && (r.0 == Ok <==> ProofAccepted(cfg, collection, ring, revision, env))
      && (r.0 == Ok ==> env.proven == Some(r.1))
  {
  }

  /** A proof is in time from the moment it names until the window has passed. */
  lemma WindowIs(cfg: Config, validAt: nat, now: nat)
    requires now <= 0xFFFF_FFFF_FFFF_FFFF
    ensures InWindow(cfg, validAt, now) <==> validAt <= now <= validAt + cfg.proofWindow
  {
  }

  /** The alias in the collection is bound to the account. */
  ghost predicate BoundTo(m: Maps, key: (Identifier, ContextualAlias), who: AccountId) {
    key in m.aliasToAccount && m.aliasToAccount[key] == who
  }

  /** Accounts other than `who` keep mapping and stamp, unless they held the alias. */
  ghost predicate OthersKeep(m: Maps, t: Maps, who: AccountId, key: (Identifier, ContextualAlias)) {
    forall a :: a != who && !BoundTo(m, key, a) ==>
      && (a in t.accountToAlias <==> a in m.accountToAlias)
      && (a in m.accountToAlias ==> t.accountToAlias[a] == m.accountToAlias[a])
      && (a in t.staleSince <==> a in m.staleSince)
      && (a in m.staleSince ==> t.staleSince[a] == m.staleSince[a])
  }

  /** What an accepted binding leaves for the account: just what was proven, unstamped and not stale. */
  ghost predicate HoldsProven(cfg: Config, t: Maps, who: AccountId, collection: Identifier, ring: RingIndex,
                              revision: Revision, context: nat, env: Env)
  {
    && who in t.accountToAlias && who !in t.staleSince
    && StaleAction(cfg, t, who, env) == None
    && var info := t.accountToAlias[who];
       && info.collection == collection && info.ring == ring && info.revision == revision
       && info.ca.context == context && env.proven == Some(info.ca.alias)
       && BoundTo(t, (collection, info.ca), who)
  }

  lemma BindStores(cfg: Config, m: Maps, who: AccountId, info: AliasInfo, env: Env)
    requires (info.collection, info.ring, info.revision) in env.valid && env.proven == Some(info.ca.alias)
    ensures HoldsProven(cfg, Bind(m, who, info), who, info.collection, info.ring, info.revision, info.ca.context, env)
    ensures OthersKeep(m, Bind(m, who, info), who, Key(info))
    ensures forall a :: a != who && BoundTo(m, Key(info), a) ==> a !in Bind(m, who, info).accountToAlias
  {
  }

  /** Whether the account may take the alias: it holds none, or this one with other ring data. */
  ghost predicate MayTake(m: Maps, who: AccountId, collection: Identifier, ring: RingIndex, revision: Revision,
                          ca: ContextualAlias)
  {
    if BoundTo(m, (collection, ca), who) then
      who in m.accountToAlias ==> m.accountToAlias[who] != AliasInfo(collection, revision, ring, ca)
    else who !in m.accountToAlias
  }

  /**
   Setting an alias is accepted exactly with a fee set and paid, an accepted proof in its window, and
   an account free to take the alias; it then stores what was proven, and only a previous holder of
   the alias loses by it.
   */
  lemma SetAcceptedIff(cfg: Config, m: Maps, who: AccountId, collection: Identifier, ring: RingIndex,
                       revision: Revision, context: nat, validAt: nat, env: Env)
    ensures var o := SetAlias(cfg, m, who, collection, ring, revision, context, validAt, env);
      && (o.result == Ok <==>
            && env.fee.Some? && env.burnOk && InWindow(cfg, validAt, env.now)
            && ProofAccepted(cfg, collection, ring, revision, env)
            && MayTake(m, who, collection, ring, revision, ContextualAlias(env.proven.value, context)))
      && (o.result != Ok ==> o.maps == m)
      && (o.result == Ok ==>
            && HoldsProven(cfg, o.maps, who, collection, ring, revision, context, env)
            && OthersKeep(m, o.maps, who, (collection, ContextualAlias(env.proven.value, context))))
  {
    hide InWindow, Bind, StaleAction, HoldsProven, OthersKeep, VerifyProof;
    VerifiesIff(cfg, collection, ring, revision, env);
    if ProofAccepted(cfg, collection, ring, revision, env) {
      BindStores(cfg, m, who, AliasInfo(collection, revision, ring, ContextualAlias(env.proven.value, context)), env);
    }
  }

  /** Whether a proof renews a mapping: of its alias, on another ring or at a later revision. */
  ghost predicate Renews(m: Maps, who: AccountId, ring: RingIndex, revision: Revision, env: Env) {
    && who in m.accountToAlias
    && env.proven == Some(m.accountToAlias[who].ca.alias)
    && (ring == m.accountToAlias[who].ring ==> revision > m.accountToAlias[who].revision)
  }

  /**
   Re-proving is accepted exactly with an accepted proof in its window that renews the mapping; only
   the ring and revision of the account change, never backwards on one ring.
   */
  lemma ReproveAcceptedIff(cfg: Config, m: Maps, who: AccountId, ring: RingIndex, revision: Revision, validAt: nat, env: Env)
    requires Inverse(m)
    ensures var o := ReproveAlias(cfg, m, who, ring, revision, validAt, env);
      && (o.result == Ok <==>
            && InWindow(cfg, validAt, env.now) && Renews(m, who, ring, revision, env)
            && ProofAccepted(cfg, m.accountToAlias[who].collection, ring, revision, env))
      && (o.result != Ok ==> o.maps == m)
      && (o.result == Ok ==>
            && HoldsProven(cfg, o.maps, who, m.accountToAlias[who].collection, ring, revision,
                           m.accountToAlias[who].ca.context, env)
            && OthersKeep(m, o.maps, who, Key(m.accountToAlias[who]))
            && o.maps.aliasToAccount == m.aliasToAccount && o.maps.sufficients == m.sufficients)
  {
    hide InWindow, VerifyProof;
    if who in m.accountToAlias { VerifiesIff(cfg, m.accountToAlias[who].collection, ring, revision, env); }
  }

  /** Unsetting is accepted exactly for a mapped account, and frees it, its alias and nothing else. */
  lemma UnsetAcceptedIff(m: Maps, who: AccountId)
    requires Inverse(m)
    ensures var o := UnsetAlias(m, who);
      && (o.result == Ok <==> who in m.accountToAlias)
      && (o.result != Ok ==> o.maps == m)
      && (o.result == Ok ==>
            && who !in o.maps.accountToAlias && Key(m.accountToAlias[who]) !in o.maps.aliasToAccount
            && Refs(o.maps, who) == 0
            && OthersKeep(m, o.maps, who, Key(m.accountToAlias[who])))
  {
  }

  // ----- staleness -----

  /** A mapping is reported while it is stale and unstamped, retired once its stamp is old enough. */
  lemma ActionIs(cfg: Config, m: Maps, a: AccountId, env: Env)
    ensures var mapped := a in m.accountToAlias;
      var valid := mapped && var i := m.accountToAlias[a]; (i.collection, i.ring, i.revision) in env.valid;
      var stamped := a in m.staleSince;
      && (StaleAction(cfg, m, a, env) == Some(Report) <==> mapped && !valid && !stamped)
      && (StaleAction(cfg, m, a, env) == Some(ClearReport) <==> valid && stamped)
      && (StaleAction(cfg, m, a, env) == Some(Retire) <==>
            && mapped && !valid && stamped
            && (m.staleSince[a] + cfg.retention <= env.now || 0xFFFF_FFFF_FFFF_FFFF <= env.now))
  {
  }

  /** A stamp is the newest root's time if one is known and not in the future, else the clock. */
  lemma StampIs(i: AliasInfo, env: Env)
    ensures var stamp, ring := StampOf(i, env), (i.collection, i.ring);
      && stamp <= env.now
      && (ring in env.roots ==> stamp <= env.roots[ring] && (stamp == env.roots[ring] || stamp == env.now))
      && (ring !in env.roots ==> stamp == env.now)
  {
  }

  /**
   An accepted sweep does to exactly the accounts of its batch what its kind says: stamp, remove in
   both directions, or unstamp; none of them then awaits the same sweep.
   */
  lemma SweepDoes(cfg: Config, m: Maps, action: Action, batch: seq<AccountId>, env: Env, a: AccountId)
    requires Inverse(m) && Sweep(cfg, m, action, batch, env).result == Ok
    ensures var t := Sweep(cfg, m, action, batch, env).maps;
      && (a !in batch ==>
            && (a in t.accountToAlias <==> a in m.accountToAlias)
            && (a in m.accountToAlias ==> t.accountToAlias[a] == m.accountToAlias[a])
            && (a in t.staleSince <==> a in m.staleSince)
            && (a in m.staleSince ==> t.staleSince[a] == m.staleSince[a]))
      && (a in batch ==>
            && a in m.accountToAlias
            && StaleAction(cfg, t, a, env) != Some(action)
            && match action
               case Report =>
                 && a in t.accountToAlias && t.accountToAlias[a] == m.accountToAlias[a]
                 && a in t.staleSince && t.staleSince[a] == StampOf(m.accountToAlias[a], env)
               case Retire =>
                 a !in t.accountToAlias && Key(m.accountToAlias[a]) !in t.aliasToAccount && a !in t.staleSince
               case ClearReport =>
                 && a in t.accountToAlias && t.accountToAlias[a] == m.accountToAlias[a]
                 && a !in t.staleSince)
  {
    hide StampOf;
    if a in batch { BatchInState(cfg, m, action, batch, env, a); }
    hide AuthorizeSweep, Inverse;
  }

  lemma BatchInState(cfg: Config, m: Maps, action: Action, batch: seq<AccountId>, env: Env, a: AccountId)
    requires AuthorizeSweep(cfg, m, action, batch, env) == Ok && a in batch
    ensures StaleAction(cfg, m, a, env) == Some(action)
  {
    hide StaleAction;
    var i :| 0 <= i < |batch| && batch[i] == a;
  }

  // ----- every mapping was proven -----

  /** Step `j` proved the mapping `a` has: its account set it, or renewed its ring and revision. */
  ghost predicate ProvenAt(cfg: Config, steps: seq<Step>, j: nat, a: AccountId, info: AliasInfo) {
    && j < |steps|
    && ProofAccepted(cfg, info.collection, info.ring, info.revision, steps[j].env)
    && steps[j].env.proven == Some(info.ca.alias)
    && match steps[j].op
       case OpSet(who, collection, ring, revision, context, validAt) =>
         && who == a && collection == info.collection && ring == info.ring && revision == info.revision
         && context == info.ca.context && InWindow(cfg, validAt, steps[j].env.now) && steps[j].env.burnOk
       case OpReprove(who, ring, revision, validAt) =>
         who == a && ring == info.ring && revision == info.revision && InWindow(cfg, validAt, steps[j].env.now)
       case _ => false
  }

  /** A step leaves a mapping as it was, or its account proved it in that step. */
  lemma StepOnMapping(cfg: Config, m: Maps, step: Step, a: AccountId)
    requires Inverse(m) && a in Perform(cfg, m, step.op, step.env).maps.accountToAlias
    ensures var t := Perform(cfg, m, step.op, step.env).maps;
      || (a in m.accountToAlias && m.accountToAlias[a] == t.accountToAlias[a])
      || ProvenAt(cfg, [step], 0, a, t.accountToAlias[a])
  {
    hide InWindow, Inverse, OthersKeep, ProofAccepted, SetAlias, ReproveAlias, UnsetAlias, AuthorizeSweep, MayTake, Renews, StaleAction;
    match step.op
    case OpSet(who, collection, ring, revision, context, validAt) =>
      SetAcceptedIff(cfg, m, who, collection, ring, revision, context, validAt, step.env);
      if a != who && SetAlias(cfg, m, who, collection, ring, revision, context, validAt, step.env).result == Ok {
        SetOnOther(cfg, m, who, collection, ring, revision, context, validAt, step.env, a);
      }
    case OpReprove(who, ring, revision, validAt) =>
      ReproveAcceptedIff(cfg, m, who, ring, revision, validAt, step.env);
      if a != who { ReproveOnOther(cfg, m, who, ring, revision, validAt, step.env, a); }
      hide HoldsProven;
      if a == who { ReproveOnOwn(cfg, m, who, ring, revision, validAt, step.env); }
    case OpUnset(who) => UnsetOnOther(m, who, a);
    case OpSweep(action, batch) =>
  }

  lemma SetOnOther(cfg: Config, m: Maps, who: AccountId, collection: Identifier, ring: RingIndex, revision: Revision,
                   context: nat, validAt: nat, env: Env, a: AccountId)
    requires a != who
    ensures var t := SetAlias(cfg, m, who, collection, ring, revision, context, validAt, env).maps;
      a in t.accountToAlias ==> a in m.accountToAlias && t.accountToAlias[a] == m.accountToAlias[a]
  {
    hide InWindow, VerifyProof;
  }

  lemma ReproveOnOther(cfg: Config, m: Maps, who: AccountId, ring: RingIndex, revision: Revision, validAt: nat, env: Env, a: AccountId)
    requires a != who
    ensures var t := ReproveAlias(cfg, m, who, ring, revision, validAt, env).maps;
      a in t.accountToAlias ==> a in m.accountToAlias && t.accountToAlias[a] == m.accountToAlias[a]
  {
    hide InWindow, VerifyProof;
  }

  lemma ReproveOnOwn(cfg: Config, m: Maps, who: AccountId, ring: RingIndex, revision: Revision, validAt: nat, env: Env)
    ensures var o := ReproveAlias(cfg, m, who, ring, revision, validAt, env);
      o.result == Ok ==>
        && who in m.accountToAlias && who in o.maps.accountToAlias
        && o.maps.accountToAlias[who] == AliasInfo(m.accountToAlias[who].collection, revision, ring, m.accountToAlias[who].ca)
        && InWindow(cfg, validAt, env.now) && ProofAccepted(cfg, m.accountToAlias[who].collection, ring, revision, env)
        && env.proven == Some(m.accountToAlias[who].ca.alias)
  {
    hide InWindow;
  }

  lemma UnsetOnOther(m: Maps, who: AccountId, a: AccountId)
    ensures var t := UnsetAlias(m, who).maps;
      a in t.accountToAlias ==> a in m.accountToAlias && t.accountToAlias[a] == m.accountToAlias[a]
  {
  }

  /** In every state of every run, each mapping was proven by its account in a step of the run. */
  lemma {:induction false} EveryMappingWasProven(cfg: Config, steps: seq<Step>, n: nat, a: AccountId)
    requires n <= |steps| && a in StateAt(cfg, steps, n).accountToAlias
    ensures exists j: nat :: j < n && ProvenAt(cfg, steps, j, a, StateAt(cfg, steps, n).accountToAlias[a])
  {
    hide Perform, Inverse, ProvenAt;
    if n > 0 {
      var m, t := StateAt(cfg, steps, n - 1), StateAt(cfg, steps, n);
      AlwaysInverse(cfg, steps, n - 1);
      StepOnMapping(cfg, m, steps[n - 1], a);
      if a in m.accountToAlias && m.accountToAlias[a] == t.accountToAlias[a] {
        EveryMappingWasProven(cfg, steps, n - 1, a);
      } else {
        ProvenThere(cfg, steps, n - 1, a, t.accountToAlias[a]);
      }
    }
  }

  lemma ProvenThere(cfg: Config, steps: seq<Step>, j: nat, a: AccountId, info: AliasInfo)
    requires j < |steps| && ProvenAt(cfg, [steps[j]], 0, a, info)
    ensures ProvenAt(cfg, steps, j, a, info)
  {
    hide InWindow, ProofAccepted;
  }
}
