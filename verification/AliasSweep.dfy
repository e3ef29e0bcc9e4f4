/** The offchain planner of the stale-alias sweep and the independence of its three batches. */
module AliasSweep {
  import opened Common
  import opened StorageOrder
  import opened AliasMaps

  // ----- batches of one snapshot do not disturb each other -----

  /** A sweep leaves the state of every account outside its batch alone. */
  lemma SweptKeepsOthers(cfg: Config, m: Maps, action: Action, batch: set<AccountId>, env: Env, a: AccountId)
    requires a !in batch
    ensures StaleAction(cfg, Swept(m, action, batch, env), a, env) == StaleAction(cfg, m, a, env)
  {
  }

  ghost predicate AllIn(cfg: Config, m: Maps, action: Action, batch: set<AccountId>, env: Env) {
    forall a :: a in batch ==> StaleAction(cfg, m, a, env) == Some(action)
  }

  lemma ReportRetireCommute(m: Maps, xs: set<AccountId>, ys: set<AccountId>, env: Env)
    requires xs !! ys && xs <= m.accountToAlias.Keys && ys <= m.accountToAlias.Keys
    ensures Swept(Swept(m, Report, xs, env), Retire, ys, env) == Swept(Swept(m, Retire, ys, env), Report, xs, env)
  {
    var infos := m.accountToAlias;
    assert xs * infos.Keys == xs && ys * infos.Keys == ys && xs * (infos - ys).Keys == xs;
    assert Stamps(infos - ys, xs, env) == Stamps(infos, xs, env);
    assert m.staleSince + Stamps(infos, xs, env) - ys == m.staleSince - ys + Stamps(infos, xs, env);
    assert FewerRefs(Swept(m, Report, xs, env), ys) == FewerRefs(m, ys);
  }

  lemma ReportClearCommute(m: Maps, xs: set<AccountId>, ys: set<AccountId>, env: Env)
    requires xs !! ys && xs <= m.accountToAlias.Keys && ys <= m.accountToAlias.Keys
    ensures Swept(Swept(m, Report, xs, env), ClearReport, ys, env) == Swept(Swept(m, ClearReport, ys, env), Report, xs, env)
  {
    var infos := m.accountToAlias;
    assert xs * infos.Keys == xs && ys * infos.Keys == ys;
    assert m.staleSince + Stamps(infos, xs, env) - ys == m.staleSince - ys + Stamps(infos, xs, env);
  }

  lemma RetireClearCommute(m: Maps, xs: set<AccountId>, ys: set<AccountId>, env: Env)
    requires xs !! ys && xs <= m.accountToAlias.Keys && ys <= m.accountToAlias.Keys
    ensures Swept(Swept(m, Retire, xs, env), ClearReport, ys, env) == Swept(Swept(m, ClearReport, ys, env), Retire, xs, env)
  {
    var infos := m.accountToAlias;
    assert xs * infos.Keys == xs && ys * infos.Keys == ys && ys * (infos - xs).Keys == ys;
    assert m.staleSince - xs - ys == m.staleSince - ys - xs;
    assert FewerRefs(Swept(m, ClearReport, ys, env), xs) == FewerRefs(m, xs);
  }

  /** Sweeps of different kinds commute on disjoint batches. */
  lemma SweptCommute(m: Maps, x: Action, xs: set<AccountId>, y: Action, ys: set<AccountId>, env: Env)
    requires x != y && xs !! ys && xs <= m.accountToAlias.Keys && ys <= m.accountToAlias.Keys
    ensures Swept(Swept(m, x, xs, env), y, ys, env) == Swept(Swept(m, y, ys, env), x, xs, env)
  {
    hide Swept;
    match (x, y)
    case (Report, Retire) => ReportRetireCommute(m, xs, ys, env);
    case (Retire, Report) => ReportRetireCommute(m, ys, xs, env);
    case (Report, ClearReport) => ReportClearCommute(m, xs, ys, env);
    case (ClearReport, Report) => ReportClearCommute(m, ys, xs, env);
    case (Retire, ClearReport) => RetireClearCommute(m, xs, ys, env);
    case (ClearReport, Retire) => RetireClearCommute(m, ys, xs, env);
    case _ =>
  }

  // ----- the same through the gate -----

  lemma Authorized(cfg: Config, m: Maps, action: Action, batch: seq<AccountId>, env: Env)
    ensures AuthorizeSweep(cfg, m, action, batch, env) == Ok <==>
      env.local && batch != [] && StrictlyAscending(batch) && AllIn(cfg, m, action, Elements(batch), env)
  {
    if AllIn(cfg, m, action, Elements(batch), env) {
      assert forall i :: 0 <= i < |batch| ==> batch[i] in Elements(batch);
    } else {
      var a :| a in Elements(batch) && StaleAction(cfg, m, a, env) != Some(action);
      var i :| 0 <= i < |batch| && batch[i] == a;
    }
  }

  /** An accepted sweep leaves every batch of another kind acceptable. */
  lemma OtherBatchStaysAuthorized(cfg: Config, m: Maps, x: Action, xs: seq<AccountId>, y: Action, ys: seq<AccountId>, env: Env)
    requires x != y
    requires AuthorizeSweep(cfg, m, x, xs, env) == Ok && AuthorizeSweep(cfg, m, y, ys, env) == Ok
    ensures AuthorizeSweep(cfg, Sweep(cfg, m, x, xs, env).maps, y, ys, env) == Ok
    ensures Elements(xs) !! Elements(ys)
  {
    hide AuthorizeSweep, StaleAction, Swept, StrictlyAscending;
    Authorized(cfg, m, x, xs, env);
    Authorized(cfg, m, y, ys, env);
    forall a | a in Elements(ys)
      ensures StaleAction(cfg, Swept(m, x, Elements(xs), env), a, env) == Some(y)
    {
      SweptKeepsOthers(cfg, m, x, Elements(xs), env, a);
    }
    Authorized(cfg, Swept(m, x, Elements(xs), env), y, ys, env);
  }

  lemma AllInMapped(cfg: Config, m: Maps, x: Action, xs: set<AccountId>, env: Env)
    requires AllIn(cfg, m, x, xs, env)
    ensures xs <= m.accountToAlias.Keys
  {
  }

  /** Two accepted sweeps of different kinds can go in either order. */
  lemma TwoSweepsCommute(cfg: Config, m: Maps, x: Action, xs: seq<AccountId>, y: Action, ys: seq<AccountId>, env: Env)
    requires x != y
    requires AuthorizeSweep(cfg, m, x, xs, env) == Ok && AuthorizeSweep(cfg, m, y, ys, env) == Ok
    ensures Sweep(cfg, Sweep(cfg, m, x, xs, env).maps, y, ys, env)
         == Sweep(cfg, Sweep(cfg, m, y, ys, env).maps, x, xs, env)
  {
    hide AuthorizeSweep, StaleAction, Swept, StrictlyAscending, AllIn;
    OtherBatchStaysAuthorized(cfg, m, x, xs, y, ys, env);
    OtherBatchStaysAuthorized(cfg, m, y, ys, x, xs, env);
    Authorized(cfg, m, x, xs, env);
    Authorized(cfg, m, y, ys, env);
    AllInMapped(cfg, m, x, Elements(xs), env);
    AllInMapped(cfg, m, y, Elements(ys), env);
    SweptCommute(m, x, Elements(xs), y, Elements(ys), env);
  }

  /** The maps after three sweeps, one after another. */
  function Three(cfg: Config, m: Maps, x: Action, y: Action, z: Action, plan: map<Action, seq<AccountId>>, env: Env): Maps
    requires x in plan && y in plan && z in plan
  {
    Sweep(cfg, Sweep(cfg, Sweep(cfg, m, x, plan[x], env).maps, y, plan[y], env).maps, z, plan[z], env).maps
  }

  lemma SwapFirst(cfg: Config, m: Maps, x: Action, y: Action, z: Action, plan: map<Action, seq<AccountId>>, env: Env)
    requires x != y && x in plan && y in plan && z in plan
    requires forall k :: k in plan ==> AuthorizeSweep(cfg, m, k, plan[k], env) == Ok
    ensures Three(cfg, m, x, y, z, plan, env) == Three(cfg, m, y, x, z, plan, env)
  {
    hide Sweep, AuthorizeSweep;
    TwoSweepsCommute(cfg, m, x, plan[x], y, plan[y], env);
  }

  lemma SwapLast(cfg: Config, m: Maps, x: Action, y: Action, z: Action, plan: map<Action, seq<AccountId>>, env: Env)
    requires x != y && x != z && y != z && x in plan && y in plan && z in plan
    requires forall k :: k in plan ==> AuthorizeSweep(cfg, m, k, plan[k], env) == Ok
    ensures Three(cfg, m, x, y, z, plan, env) == Three(cfg, m, x, z, y, plan, env)
  {
    hide Sweep, AuthorizeSweep;
    OtherBatchStaysAuthorized(cfg, m, x, plan[x], y, plan[y], env);
    OtherBatchStaysAuthorized(cfg, m, x, plan[x], z, plan[z], env);
    TwoSweepsCommute(cfg, Sweep(cfg, m, x, plan[x], env).maps, y, plan[y], z, plan[z], env);
  }

  /**
   Three batches accepted on one snapshot can be applied in any order: whichever goes first and
   second, the remaining ones are still accepted, and the final maps are the same.
   */
  lemma SweepsInAnyOrder(cfg: Config, m: Maps, x: Action, y: Action, z: Action, plan: map<Action, seq<AccountId>>, env: Env)
    requires x != y && x != z && y != z && x in plan && y in plan && z in plan
    requires forall k :: k in plan ==> AuthorizeSweep(cfg, m, k, plan[k], env) == Ok
    ensures var m1 := Sweep(cfg, m, x, plan[x], env).maps;
      var m2 := Sweep(cfg, m1, y, plan[y], env).maps;
      && AuthorizeSweep(cfg, m1, y, plan[y], env) == Ok
      && AuthorizeSweep(cfg, m1, z, plan[z], env) == Ok
      && AuthorizeSweep(cfg, m2, z, plan[z], env) == Ok
    ensures Report in plan && Retire in plan && ClearReport in plan
    ensures Three(cfg, m, x, y, z, plan, env) == Three(cfg, m, Report, Retire, ClearReport, plan, env)
  {
    hide Sweep, AuthorizeSweep, Three;
    OtherBatchStaysAuthorized(cfg, m, x, plan[x], y, plan[y], env);
    OtherBatchStaysAuthorized(cfg, m, x, plan[x], z, plan[z], env);
    OtherBatchStaysAuthorized(cfg, Sweep(cfg, m, x, plan[x], env).maps, y, plan[y], z, plan[z], env);
    assert Report in plan && Retire in plan && ClearReport in plan;
    SwapLast(cfg, m, x, y, z, plan, env);
    SwapFirst(cfg, m, Report, Retire, ClearReport, plan, env);
    SwapFirst(cfg, m, Report, ClearReport, Retire, plan, env);
    SwapFirst(cfg, m, Retire, ClearReport, Report, plan, env);
    SwapLast(cfg, m, Report, Retire, ClearReport, plan, env);
    SwapLast(cfg, m, Retire, Report, ClearReport, plan, env);
    SwapLast(cfg, m, ClearReport, Report, Retire, plan, env);
  }

  // ----- the planner -----

  /** The first `limit` accounts of `order[..i]` that are in state `k`. */
  function Chosen(cfg: Config, m: Maps, order: seq<AccountId>, i: nat, k: Action, env: Env): seq<AccountId>
    requires i <= |order|
  {
    if i == 0 then []
    else
      var c := Chosen(cfg, m, order, i - 1, k, env);
      if StaleAction(cfg, m, order[i - 1], env) == Some(k) && |c| < cfg.maxBatch then c + [order[i - 1]] else c
  }

  /** A full batch takes nothing more, which is why the planner may stop early. */
  lemma {:induction false} ChosenStops(cfg: Config, m: Maps, order: seq<AccountId>, i: nat, n: nat, k: Action, env: Env)
    requires i <= n <= |order| && |Chosen(cfg, m, order, i, k, env)| >= cfg.maxBatch
    ensures Chosen(cfg, m, order, n, k, env) == Chosen(cfg, m, order, i, k, env)
  {
    if i < n { ChosenStops(cfg, m, order, i, n - 1, k, env); }
  }

  /** The accounts of `order[..i]` in state `k`. */
  ghost function InState(cfg: Config, m: Maps, order: seq<AccountId>, i: nat, k: Action, env: Env): set<AccountId>
    requires i <= |order|
  {
    set j | 0 <= j < i && StaleAction(cfg, m, order[j], env) == Some(k) :: order[j]
  }

  lemma InStateStep(cfg: Config, m: Maps, order: seq<AccountId>, i: nat, k: Action, env: Env)
    requires 0 < i <= |order| && NoDuplicates(order)
    ensures order[i - 1] !in InState(cfg, m, order, i - 1, k, env)
    ensures InState(cfg, m, order, i, k, env) == InState(cfg, m, order, i - 1, k, env)
      + if StaleAction(cfg, m, order[i - 1], env) == Some(k) then {order[i - 1]} else {}
  {
    hide StaleAction;
  }

  lemma {:induction false} ChosenCounts(cfg: Config, m: Maps, order: seq<AccountId>, i: nat, k: Action, env: Env)
    requires i <= |order| && NoDuplicates(order)
    ensures Elements(Chosen(cfg, m, order, i, k, env)) <= InState(cfg, m, order, i, k, env)
    ensures NoDuplicates(Chosen(cfg, m, order, i, k, env))
    ensures |Chosen(cfg, m, order, i, k, env)| == Min(cfg.maxBatch, |InState(cfg, m, order, i, k, env)|)
  {
    hide StaleAction;
    if i > 0 {
      ChosenCounts(cfg, m, order, i - 1, k, env);
      InStateStep(cfg, m, order, i, k, env);
      var c := Chosen(cfg, m, order, i - 1, k, env);
      hide InState, NoDuplicates, Elements;
      Appended(c, order[i - 1]);
    }
  }

  lemma Appended(c: seq<AccountId>, a: AccountId)
    requires NoDuplicates(c)
    ensures Elements(c + [a]) == Elements(c) + {a}
    ensures a !in Elements(c) ==> NoDuplicates(c + [a])
  {
    assert forall j :: 0 <= j < |c| ==> c[j] in Elements(c);
  }

  lemma {:induction false} NoDuplicatesSize(s: seq<AccountId>)
    requires NoDuplicates(s)
    ensures |Elements(s)| == |s|
  {
    if s != [] {
      var n := |s| - 1;
      NoDuplicatesSize(s[..n]);
      assert s == s[..n] + [s[n]];
      assert Elements(s) == Elements(s[..n]) + {s[n]};
    }
  }

  /** All mapped accounts in state `k`. */
  ghost function Candidates(cfg: Config, m: Maps, k: Action, env: Env): set<AccountId> {
    set a | a in m.accountToAlias && StaleAction(cfg, m, a, env) == Some(k)
  }

  lemma InStateIsCandidates(cfg: Config, m: Maps, order: seq<AccountId>, k: Action, env: Env)
    requires forall a :: a in order <==> a in m.accountToAlias
    ensures InState(cfg, m, order, |order|, k, env) == Candidates(cfg, m, k, env)
  {
    hide StaleAction;
    forall a | a in Candidates(cfg, m, k, env) ensures a in InState(cfg, m, order, |order|, k, env) {
      var j :| 0 <= j < |order| && order[j] == a;
    }
  }

  /** A sorted batch of the planner, if not empty, passes the gate and is as large as it can be. */
  lemma BatchAccepted(cfg: Config, m: Maps, order: seq<AccountId>, k: Action, env: Env)
    requires env.local && NoDuplicates(order) && forall a :: a in order <==> a in m.accountToAlias
    ensures var batch := Sorted(Elements(Chosen(cfg, m, order, |order|, k, env)));
      && |batch| == Min(cfg.maxBatch, |Candidates(cfg, m, k, env)|)
      && (batch != [] ==> AuthorizeSweep(cfg, m, k, batch, env) == Ok)
      && (batch == [] <==> Candidates(cfg, m, k, env) == {})
      && (batch == [] <==> Chosen(cfg, m, order, |order|, k, env) == [])
  {
    hide StaleAction, AuthorizeSweep;
    var chosen := Chosen(cfg, m, order, |order|, k, env);
    ChosenCounts(cfg, m, order, |order|, k, env);
    InStateIsCandidates(cfg, m, order, k, env);
    NoDuplicatesSize(chosen);
    SortedLists(Elements(chosen));
    var batch := Sorted(Elements(chosen));
    hide Chosen, Sorted, InState;
    assert Elements(batch) == Elements(chosen);
    Authorized(cfg, m, k, batch, env);
  }
}
