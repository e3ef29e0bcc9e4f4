/**
 The alias-accounts pallet with its storage maps updated in place. Every call does to the stored maps
 what the specification does to their value; the sweep calls loop, the specification does not.
 */
module AliasPallet {
  import opened Common
  import opened StorageOrder
  import opened AliasMaps
  import opened AliasSweep

  /** The maps after the first `i` accounts of a batch were swept one at a time. */
  function SweptOne(m: Maps, action: Action, a: AccountId, env: Env): Maps {
    if a !in m.accountToAlias then m
    else
      match action
      case Report => m.(staleSince := m.staleSince[a := StampOf(m.accountToAlias[a], env)])
      case Retire => Forget(m, a)
      case ClearReport => m.(staleSince := m.staleSince - {a})
  }

  lemma ReportExtends(m: Maps, b: set<AccountId>, a: AccountId, env: Env)
    requires a !in b && b <= m.accountToAlias.Keys && a in m.accountToAlias
    ensures m.staleSince + Stamps(m.accountToAlias, b + {a}, env)
         == (m.staleSince + Stamps(m.accountToAlias, b, env))[a := StampOf(m.accountToAlias[a], env)]
  {
    hide StampOf;
  }

  lemma RetireExtends(m: Maps, b: set<AccountId>, a: AccountId, env: Env)
    requires a !in b && b <= m.accountToAlias.Keys && a in m.accountToAlias
    ensures SweptOne(Swept(m, Retire, b, env), Retire, a, env) == Swept(m, Retire, b + {a}, env)
  {
    var infos := m.accountToAlias;
    assert b * infos.Keys == b && (b + {a}) * infos.Keys == b + {a};
    assert KeysOf(infos, b + {a}) == KeysOf(infos, b) + {Key(infos[a])};
    assert m.sufficients + FewerRefs(m, b + {a})
        == (m.sufficients + FewerRefs(m, b))[a := MonusSat(Refs(m, a), 1)];
    assert infos - (b + {a}) == infos - b - {a};
    assert m.staleSince - (b + {a}) == m.staleSince - b - {a};
    assert m.aliasToAccount - KeysOf(infos, b + {a}) == m.aliasToAccount - KeysOf(infos, b) - {Key(infos[a])};
  }

  lemma SweptMapped(m: Maps, action: Action, done: set<AccountId>, env: Env)
    ensures Swept(m, action, done, env) == Swept(m, action, done * m.accountToAlias.Keys, env)
  {
    assert done * m.accountToAlias.Keys * m.accountToAlias.Keys == done * m.accountToAlias.Keys;
  }

  lemma MappedStays(m: Maps, action: Action, done: set<AccountId>, a: AccountId, env: Env)
    requires a !in done
    ensures a in Swept(m, action, done, env).accountToAlias <==> a in m.accountToAlias
  {
  }

  /** Sweeping one more account extends the swept set by it. */
  lemma SweptExtends(m: Maps, action: Action, done: set<AccountId>, a: AccountId, env: Env)
    requires a !in done
    ensures SweptOne(Swept(m, action, done, env), action, a, env) == Swept(m, action, done + {a}, env)
  {
    var infos := m.accountToAlias;
    var b := done * infos.Keys;
    MappedStays(m, action, done, a, env);
    SweptMapped(m, action, done, env);
    SweptMapped(m, action, done + {a}, env);
    if a in infos {
      assert (done + {a}) * infos.Keys == b + {a};
      assert b * infos.Keys == b && (b + {a}) * infos.Keys == b + {a};
      match action
      case Report => ReportExtends(m, b, a, env);
      case Retire =>
        hide Swept, SweptOne;
        RetireExtends(m, b, a, env);
      case ClearReport => assert m.staleSince - (b + {a}) == m.staleSince - b - {a};
    } else {
      hide Swept;
      assert (done + {a}) * infos.Keys == b;
    }
  }

  lemma AscendingDistinct(batch: seq<AccountId>, i: nat, j: nat)
    requires StrictlyAscending(batch) && i < j < |batch|
    ensures batch[i] < batch[j]
  {
    if i + 1 < j { AscendingDistinct(batch, i, j - 1); }
  }

  class Pallet {
    const cfg: Config
    var aliasToAccount: map<(Identifier, ContextualAlias), AccountId>
    var accountToAlias: map<AccountId, AliasInfo>
    var staleSince: map<AccountId, nat>
    var sufficients: map<AccountId, nat>

    function View(): Maps
      reads this
    {
      Maps(aliasToAccount, accountToAlias, staleSince, sufficients)
    }

    constructor (cfg: Config)
      ensures this.cfg == cfg && View() == Empty && Inverse(View())
    {
      this.cfg := cfg;
      aliasToAccount, accountToAlias, staleSince, sufficients := map[], map[], map[], map[];
    }

    method DecSufficients(a: AccountId)
      modifies this`sufficients
      ensures View() == DecRef(old(View()), a)
    {
      sufficients := sufficients[a := MonusSat(if a in sufficients then sufficients[a] else 0, 1)];
    }

    method UnsetAliasAccount(who: AccountId) returns (r: Result)
      modifies this
      ensures Outcome(View(), r) == UnsetAlias(old(View()), who)
      ensures old(Inverse(View())) ==> Inverse(View())
    {
      hide Inverse;
      if old(Inverse(View())) { StepKeepsInverse(cfg, View(), OpUnset(who), Env(0, true, {}, map[], None, None, true)); }
      if who !in accountToAlias { return Err(InvalidAccount); }
      var info := accountToAlias[who];
      accountToAlias := accountToAlias - {who};
      aliasToAccount := aliasToAccount - {Key(info)};
      staleSince := staleSince - {who};
      DecSufficients(who);
      r := Ok;
    }

    method SetAliasAccount(who: AccountId, collection: Identifier, ring: RingIndex, revision: Revision,
                           context: nat, validAt: nat, env: Env) returns (r: Result)
      modifies this
      ensures Outcome(View(), r) == SetAlias(cfg, old(View()), who, collection, ring, revision, context, validAt, env)
      ensures old(Inverse(View())) ==> Inverse(View())
    {
      hide Inverse, InWindow, VerifyProof;
      if old(Inverse(View())) {
        StepKeepsInverse(cfg, View(), OpSet(who, collection, ring, revision, context, validAt), env);
      }
      if env.fee.None? { return Err(AliasFeeUnset); }
      if !InWindow(cfg, validAt, env.now) { return Err(TimeOutOfRange); }
      var (verdict, alias) := VerifyProof(cfg, collection, ring, revision, env);
      if verdict != Ok { return verdict; }
      var info := AliasInfo(collection, revision, ring, ContextualAlias(alias, context));
      var previous := if Key(info) in aliasToAccount then Some(aliasToAccount[Key(info)]) else None;
      var isNew := previous != Some(who);
      if !isNew && who in accountToAlias && accountToAlias[who] == info { return Err(AliasAccountAlreadySet); }
      if isNew && who in accountToAlias { return Err(AccountInUse); }
      if !env.burnOk { return Err(BurnRefused); }
      if isNew {
        if previous.Some? {
          DecSufficients(previous.value);
          accountToAlias := accountToAlias - {previous.value};
          staleSince := staleSince - {previous.value};
        }
        sufficients := sufficients[who := (if who in sufficients then sufficients[who] else 0) + 1];
      }
      accountToAlias := accountToAlias[who := info];
      aliasToAccount := aliasToAccount[Key(info) := who];
      staleSince := staleSince - {who};
      r := Ok;
    }

    method ReproveAliasAccount(who: AccountId, ring: RingIndex, revision: Revision, validAt: nat, env: Env)
      returns (r: Result)
      modifies this
      ensures Outcome(View(), r) == ReproveAlias(cfg, old(View()), who, ring, revision, validAt, env)
      ensures old(Inverse(View())) ==> Inverse(View())
    {
      hide Inverse, InWindow, VerifyProof;
      if old(Inverse(View())) { StepKeepsInverse(cfg, View(), OpReprove(who, ring, revision, validAt), env); }
      if !InWindow(cfg, validAt, env.now) { return Err(TimeOutOfRange); }
      if who !in accountToAlias { return Err(InvalidAccount); }
      var was := accountToAlias[who];
      var (verdict, alias) := VerifyProof(cfg, was.collection, ring, revision, env);
      if verdict != Ok { return verdict; }
      if alias != was.ca.alias { return Err(ReproveMismatch); }
      if !(ring != was.ring || revision > was.revision) { return Err(AliasAccountAlreadySet); }
      accountToAlias := accountToAlias[who := AliasInfo(was.collection, revision, ring, was.ca)];
      staleSince := staleSince - {who};
      r := Ok;
    }

    /** One account of a report, retire or clear batch. */
    method SweepAccount(action: Action, account: AccountId, env: Env)
      modifies this
      ensures View() == SweptOne(old(View()), action, account, env)
    {
      if account !in accountToAlias { return; }
      var info := accountToAlias[account];
      match action
      case Report => staleSince := staleSince[account := StampOf(info, env)];
      case Retire =>
        accountToAlias := accountToAlias - {account};
        aliasToAccount := aliasToAccount - {Key(info)};
        staleSince := staleSince - {account};
        DecSufficients(account);
      case ClearReport => staleSince := staleSince - {account};
    }

    /** The three sweep calls: the gate, then one account after another. */
    method SweepBatch(action: Action, batch: seq<AccountId>, env: Env) returns (r: Result)
      modifies this
      ensures Outcome(View(), r) == Sweep(cfg, old(View()), action, batch, env)
      ensures old(Inverse(View())) ==> Inverse(View())
    {
      hide Inverse, StaleAction;
      ghost var m := View();
      if old(Inverse(View())) { StepKeepsInverse(cfg, m, OpSweep(action, batch), env); }
      r := AuthorizeSweep(cfg, View(), action, batch, env);
      if r != Ok { return; }
      SweptNone(m, action, env);
      hide Swept, SweptOne, AuthorizeSweep;
      assert Elements(batch[..0]) == {};
      var i := 0;
      while i < |batch|
        invariant i <= |batch|
        invariant View() == Swept(m, action, Elements(batch[..i]), env)
      {
        SweepAccount(action, batch[i], env);
        NextElement(batch, i);
        SweptExtends(m, action, Elements(batch[..i]), batch[i], env);
        i := i + 1;
      }
      assert batch[..i] == batch;
    }

    /**
     `sweep_stale_aliases`: classify every mapping, fill one batch per action up to the limit,
     stopping once all are full, and sort each. Every non-empty batch passes its own gate on this
     state and holds as many mappings of its state as fit.
     */
    method SweepStaleAliases(order: seq<AccountId>, block: nat, env: Env)
      returns (batches: map<Action, seq<AccountId>>)
      requires env.local && NoDuplicates(order) && forall a :: a in order <==> a in accountToAlias
      ensures block % cfg.interval != 0 ==> batches == map[]
      ensures block % cfg.interval == 0 ==> forall k :: k in batches <==> Candidates(cfg, View(), k, env) != {}
      ensures forall k :: k in batches ==>
        && AuthorizeSweep(cfg, View(), k, batches[k], env) == Ok
        && |batches[k]| == Min(cfg.maxBatch, |Candidates(cfg, View(), k, env)|)
    {
      hide Chosen, Sorted, AuthorizeSweep, Candidates, StaleAction;
      batches := map[];
      if block % cfg.interval != 0 { return; }
      var report, retire, clear := FillBatches(order, env);
      ghost var m := View();
      BatchAccepted(cfg, m, order, Report, env);
      BatchAccepted(cfg, m, order, Retire, env);
      BatchAccepted(cfg, m, order, ClearReport, env);
      if report != [] { batches := batches[Report := Sorted(Elements(report))]; }
      if retire != [] { batches := batches[Retire := Sorted(Elements(retire))]; }
      if clear != [] { batches := batches[ClearReport := Sorted(Elements(clear))]; }
      forall k ensures k in batches <==> Candidates(cfg, m, k, env) != {} {
        match k
        case Report =>
        case Retire =>
        case ClearReport =>
      }
    }

    method FillBatches(order: seq<AccountId>, env: Env)
      returns (report: seq<AccountId>, retire: seq<AccountId>, clear: seq<AccountId>)
      ensures report == Chosen(cfg, View(), order, |order|, Report, env)
      ensures retire == Chosen(cfg, View(), order, |order|, Retire, env)
      ensures clear == Chosen(cfg, View(), order, |order|, ClearReport, env)
    {
      hide StaleAction;
      report, retire, clear := [], [], [];
      var limit := cfg.maxBatch;
      var i := 0;
      while i < |order|
        invariant i <= |order|
        invariant report == Chosen(cfg, View(), order, i, Report, env)
        invariant retire == Chosen(cfg, View(), order, i, Retire, env)
        invariant clear == Chosen(cfg, View(), order, i, ClearReport, env)
      {
        var action := StaleAction(cfg, View(), order[i], env);
        if action == Some(Report) && |report| < limit { report := report + [order[i]]; }
        if action == Some(Retire) && |retire| < limit { retire := retire + [order[i]]; }
        if action == Some(ClearReport) && |clear| < limit { clear := clear + [order[i]]; }
        i := i + 1;
        if action.Some? && |report| >= limit && |retire| >= limit && |clear| >= limit {
          ChosenStops(cfg, View(), order, i, |order|, Report, env);
          ChosenStops(cfg, View(), order, i, |order|, Retire, env);
          ChosenStops(cfg, View(), order, i, |order|, ClearReport, env);
          return;
        }
      }
    }
  }

  lemma SweptNone(m: Maps, action: Action, env: Env)
    ensures Swept(m, action, {}, env) == m
  {
    assert {} * m.accountToAlias.Keys == {};
  }

  lemma NextElement(batch: seq<AccountId>, i: nat)
    requires i < |batch| && StrictlyAscending(batch)
    ensures batch[i] !in Elements(batch[..i])
    ensures Elements(batch[..i + 1]) == Elements(batch[..i]) + {batch[i]}
  {
    assert batch[..i + 1] == batch[..i] + [batch[i]];
    forall j | 0 <= j < i ensures batch[j] != batch[i] { AscendingDistinct(batch, j, i); }
  }
}
