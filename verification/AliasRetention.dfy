/** Retention safety of the two-phase sweep, over every run and every member-service behaviour. */
module AliasRetention {
  import opened Common
  import opened AliasMaps

  /** Step `j` reported `a`: an authorized report batch naming it. */
  ghost predicate Reports(cfg: Config, steps: seq<Step>, j: nat, a: AccountId)
    requires j < |steps|
  {
    && steps[j].op.OpSweep? && steps[j].op.action == Report && a in steps[j].op.batch
    && Perform(cfg, StateAt(cfg, steps, j), steps[j].op, steps[j].env).result == Ok
  }

  /** `a` is mapped as `info` and stamped `s` in every state after step `j` up to state `n`. */
  ghost predicate Undisturbed(cfg: Config, steps: seq<Step>, j: nat, n: nat, a: AccountId, info: AliasInfo, s: nat)
    requires n <= |steps|
  {
    forall k :: j < k <= n ==>
      && a in StateAt(cfg, steps, k).staleSince && StateAt(cfg, steps, k).staleSince[a] == s
      && a in StateAt(cfg, steps, k).accountToAlias && StateAt(cfg, steps, k).accountToAlias[a] == info
  }

  /** The stamp on `a` in state `n` was set by the report at step `j` and nothing touched it since. */
  ghost predicate StampedBy(cfg: Config, steps: seq<Step>, j: nat, n: nat, a: AccountId)
    requires n <= |steps|
  {
    && j < n && Reports(cfg, steps, j, a)
    && a in StateAt(cfg, steps, j).accountToAlias
    && var info := StateAt(cfg, steps, j).accountToAlias[a];
       Undisturbed(cfg, steps, j, n, a, info, StampOf(info, steps[j].env))
  }

  ghost predicate Kept(m: Maps, t: Maps, a: AccountId) {
    && a in m.staleSince && a in t.staleSince && t.staleSince[a] == m.staleSince[a]
    && a in m.accountToAlias && a in t.accountToAlias && t.accountToAlias[a] == m.accountToAlias[a]
  }

  /** Binding an alias drops the stamps of both accounts it concerns and keeps the others. */
  lemma BindOnStamp(m: Maps, who: AccountId, info: AliasInfo, a: AccountId)
    requires Inverse(m) && a in Bind(m, who, info).staleSince
    ensures Kept(m, Bind(m, who, info), a)
  {
  }

  /** What one step can do to a stamp: keep it and its mapping, drop it, or set it by a report. */
  lemma StepOnStamp(cfg: Config, m: Maps, op: Op, env: Env, a: AccountId)
    requires Inverse(m)
    requires var t := Perform(cfg, m, op, env).maps; a in t.staleSince
    ensures var t := Perform(cfg, m, op, env).maps;
      || Kept(m, t, a)
      || (&& op.OpSweep? && op.action == Report && a in op.batch && Perform(cfg, m, op, env).result == Ok
          && a in m.accountToAlias && a in t.accountToAlias && t.accountToAlias[a] == m.accountToAlias[a]
          && t.staleSince[a] == StampOf(m.accountToAlias[a], env))
  {
    hide AuthorizeSweep, VerifyProof, InWindow, StampOf, Bind;
    match op
    case OpSet(who, collection, ring, revision, context, validAt) =>
      if Perform(cfg, m, op, env).result == Ok {
        var alias := VerifyProof(cfg, collection, ring, revision, env).1;
        BindOnStamp(m, who, AliasInfo(collection, revision, ring, ContextualAlias(alias, context)), a);
      }
    case _ =>
  }

  lemma StampExtends(cfg: Config, steps: seq<Step>, j: nat, n: nat, a: AccountId)
    requires 0 < n <= |steps| && StampedBy(cfg, steps, j, n - 1, a)
    requires Kept(StateAt(cfg, steps, n - 1), StateAt(cfg, steps, n), a)
    ensures StampedBy(cfg, steps, j, n, a)
  {
    hide Perform, Reports, StampOf, StateAt;
  }

  lemma StampStarts(cfg: Config, steps: seq<Step>, n: nat, a: AccountId)
    requires 0 < n <= |steps| && Reports(cfg, steps, n - 1, a)
    requires var m, t := StateAt(cfg, steps, n - 1), StateAt(cfg, steps, n);
      && a in m.accountToAlias && a in t.accountToAlias && t.accountToAlias[a] == m.accountToAlias[a]
      && a in t.staleSince && t.staleSince[a] == StampOf(m.accountToAlias[a], steps[n - 1].env)
    ensures StampedBy(cfg, steps, n - 1, n, a)
  {
    hide Perform, Reports, StampOf, StateAt;
  }

  lemma {:induction false} StampHasReport(cfg: Config, steps: seq<Step>, n: nat, a: AccountId)
    requires n <= |steps| && a in StateAt(cfg, steps, n).staleSince
    ensures exists j: nat :: StampedBy(cfg, steps, j, n, a)
  {
    hide Inverse, Perform, Kept, StampedBy;
    if n > 0 {
      var m := StateAt(cfg, steps, n - 1);
      AlwaysInverse(cfg, steps, n - 1);
      StepOnStamp(cfg, m, steps[n - 1].op, steps[n - 1].env, a);
      if Kept(m, StateAt(cfg, steps, n), a) {
        assert a in m.staleSince by { KeptStamped(m, StateAt(cfg, steps, n), a); }
        StampHasReport(cfg, steps, n - 1, a);
        var j: nat :| StampedBy(cfg, steps, j, n - 1, a);
        StampExtends(cfg, steps, j, n, a);
      } else {
        StampStarts(cfg, steps, n, a);
      }
    }
  }

  lemma KeptStamped(m: Maps, t: Maps, a: AccountId)
    requires Kept(m, t, a)
    ensures a in m.staleSince
  {
  }

  /** An accepted retirement of `a` by step `i`. */
  ghost predicate Retires(cfg: Config, steps: seq<Step>, i: nat, a: AccountId)
    requires i < |steps|
  {
    && steps[i].op.OpSweep? && steps[i].op.action == Retire && a in steps[i].op.batch
    && Perform(cfg, StateAt(cfg, steps, i), steps[i].op, steps[i].env).result == Ok
  }

  /** What a retirement by step `i` owes to the report at step `j`. */
  ghost predicate RetentionServed(cfg: Config, steps: seq<Step>, j: nat, i: nat, a: AccountId)
    requires i < |steps|
  {
    && StampedBy(cfg, steps, j, i, a)
    && var info, r, t := StateAt(cfg, steps, j).accountToAlias[a], steps[j].env, steps[i].env;
       && StampOf(info, r) <= r.now
       && t.now >= AddSat(StampOf(info, r), cfg.retention, U64_MAX)
       && (info.collection, info.ring, info.revision) !in t.valid
       && ((info.collection, info.ring) !in r.roots ==> t.now >= AddSat(r.now, cfg.retention, U64_MAX))
  }

  /**
   Retention safety. A sweep retires a mapping only after an earlier report stamped it at or before
   that report's time; the stamp and the mapping stayed as they were ever since; the retention has
   passed since the stamp (since the report, if no root was known then); and the revision is
   invalid now.
   */
  lemma RetiredOnlyAfterRetention(cfg: Config, steps: seq<Step>, i: nat, a: AccountId)
    requires i < |steps| && Retires(cfg, steps, i, a)
    ensures exists j: nat :: RetentionServed(cfg, steps, j, i, a)
  {
    hide StateAt, Reports, Swept;
    var m, env, batch := StateAt(cfg, steps, i), steps[i].env, steps[i].op.batch;
    assert StaleAction(cfg, m, a, env) == Some(Retire) by {
      var k :| 0 <= k < |batch| && batch[k] == a;
    }
    StampHasReport(cfg, steps, i, a);
    var j: nat :| StampedBy(cfg, steps, j, i, a);
    assert m.staleSince[a] == StampOf(StateAt(cfg, steps, j).accountToAlias[a], steps[j].env);
    assert RetentionServed(cfg, steps, j, i, a);
  }

  lemma BindRemoves(m: Maps, who: AccountId, info: AliasInfo, a: AccountId)
    requires Inverse(m) && a in m.accountToAlias && a !in Bind(m, who, info).accountToAlias
    ensures who != a && Key(m.accountToAlias[a]) == Key(info)
    ensures Key(info) in Bind(m, who, info).aliasToAccount && Bind(m, who, info).aliasToAccount[Key(info)] == who
  {
  }

  /** A mapping goes only by its account, by a new holder proving its alias, or by a retirement. */
  lemma RemovalCauses(cfg: Config, steps: seq<Step>, i: nat, a: AccountId)
    requires i < |steps|
    requires a in StateAt(cfg, steps, i).accountToAlias && a !in StateAt(cfg, steps, i + 1).accountToAlias
    ensures var m, t, op := StateAt(cfg, steps, i), StateAt(cfg, steps, i + 1), steps[i].op;
      var key := Key(m.accountToAlias[a]);
      || (op.OpUnset? && op.who == a)
      || (op.OpSet? && op.who != a && key in t.aliasToAccount && t.aliasToAccount[key] == op.who)
      || Retires(cfg, steps, i, a)
  {
    hide VerifyProof, InWindow, AuthorizeSweep, Bind, Inverse;
    var m, op, env := StateAt(cfg, steps, i), steps[i].op, steps[i].env;
    AlwaysInverse(cfg, steps, i);
    assert StateAt(cfg, steps, i + 1) == Perform(cfg, m, op, env).maps;
    match op
    case OpSet(who, collection, ring, revision, context, validAt) =>
      var alias := VerifyProof(cfg, collection, ring, revision, env).1;
      BindRemoves(m, who, AliasInfo(collection, revision, ring, ContextualAlias(alias, context)), a);
    case _ =>
  }
}
