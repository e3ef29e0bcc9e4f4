/** Where the money goes: no call creates or destroys funds, and each pays exactly whom it names. */
module AirdropFunds {
  import opened Common
  import opened StorageOrder
  import opened Labels
  import opened AirdropTypes
  import opened AirdropLedger
  import opened AirdropEvent
  import opened AirdropSystem

  // ----- total supply -----

  function InAsset(k: (AssetId, AccountId), v: nat, a: AssetId): nat { if k.0 == a then v else 0 }

  /** The free balances of asset `a` over all accounts. */
  ghost function SumFree(free: map<(AssetId, AccountId), nat>, a: AssetId): nat
    decreases |free|
  {
    if free == map[] then 0
    else
      var k := First(free.Keys);
      assert (free - {k}).Keys == free.Keys - {k};
      InAsset(k, free[k], a) + SumFree(free - {k}, a)
  }

  lemma {:induction false} SumRemove(free: map<(AssetId, AccountId), nat>, k: (AssetId, AccountId), a: AssetId)
    requires k in free
    ensures SumFree(free, a) == InAsset(k, free[k], a) + SumFree(free - {k}, a)
    decreases |free|
  {
    var f := First(free.Keys);
    if f != k {
      var rest, without := free - {f}, free - {k};
      assert rest.Keys == free.Keys - {f} && without.Keys == free.Keys - {k};
      SumRemove(rest, k, a);
      SumRemove(without, f, a);
      assert rest - {k} == without - {f};
    }
  }

  lemma SumWrite(free: map<(AssetId, AccountId), nat>, k: (AssetId, AccountId), v: nat, a: AssetId)
    ensures SumFree(free[k := v], a) + InAsset(k, if k in free then free[k] else 0, a) == SumFree(free, a) + InAsset(k, v, a)
  {
    hide SumFree;
    SumRemove(free[k := v], k, a);
    assert free[k := v] - {k} == free - {k};
    if k in free { SumRemove(free, k, a); } else { assert free - {k} == free; }
  }

  /** All funds of asset `a`: what the pot holds and every free balance. */
  ghost function Supply(l: Ledger, a: AssetId): nat { Held(l, a) + SumFree(l.free, a) }

  lemma TransferConserves(l: Ledger, x: AssetId, from: AccountId, to: AccountId, amount: nat, ok: bool, a: AssetId)
    ensures var t := Transfer(l, x, from, to, amount, ok); t.Some? ==> Supply(t.value, a) == Supply(l, a)
  {
    hide SumFree;
    if Transfer(l, x, from, to, amount, ok).Some? {
      var debited := l.free[(x, from) := Free(l, x, from) - amount];
      SumWrite(l.free, (x, from), Free(l, x, from) - amount, a);
      SumWrite(debited, (x, to), Free(l.(free := debited), x, to) + amount, a);
    }
  }

  lemma HoldConserves(l: Ledger, pot: AccountId, x: AssetId, amount: nat, ok: bool, a: AssetId)
    ensures var t := Hold(l, pot, x, amount, ok); t.Some? ==> Supply(t.value, a) == Supply(l, a)
  {
    hide SumFree;
    if Hold(l, pot, x, amount, ok).Some? { SumWrite(l.free, (x, pot), Free(l, x, pot) - amount, a); }
  }

  lemma UnholdConserves(l: Ledger, pot: AccountId, x: AssetId, amount: nat, a: AssetId)
    requires amount <= Held(l, x)
    ensures Supply(Unhold(l, pot, x, amount), a) == Supply(l, a)
  {
    hide SumFree;
    SumWrite(l.free, (x, pot), Free(l, x, pot) + amount, a);
  }

  lemma ReleaseConserves(cfg: Config, l: Ledger, source: Option<AccountId>, prize: Prize, count: nat,
                         grant: Grant, transferOk: bool, a: AssetId)
    ensures Supply(ReleaseRemaining(cfg, l, source, prize, count, grant, transferOk).ledger, a) == Supply(l, a)
  {
    hide Supply, Transfer, Unhold, MulSat;
    var answer := BestEffort(l, prize.assetId, MulSat(prize.assetAmount, count, cfg.balanceMax), grant);
    if count > 0 && answer.Some? {
      var l1 := Unhold(l, cfg.pot, prize.assetId, answer.value);
      UnholdConserves(l, cfg.pot, prize.assetId, answer.value, a);
      if source.Some? {
        TransferConserves(l1, prize.assetId, cfg.pot, source.value, answer.value, transferOk, a);
      }
    }
  }

  lemma SettleConserves(cfg: Config, s: Sys, id: EventId, ch: Change, env: Env, a: AssetId)
    requires id in s.cells
    ensures Supply(Settle(cfg, s, id, ch, env).ledger, a) == Supply(s.ledger, a)
  {
    hide Supply, ReleaseRemaining;
    var c := s.cells[id];
    ReleaseConserves(cfg, s.ledger, c.source, c.info.prize, ch.released, env.grant, env.transferOk, a);
  }

  lemma ScheduleConserves(cfg: Config, s: Sys, id: EventId, info: EventInfo, source: Option<AccountId>, env: Env, a: AssetId)
    ensures Supply(Schedule(cfg, s, id, info, source, env).sys.ledger, a) == Supply(s.ledger, a)
  {
    hide Supply, Hold, IsDnsLabel;
    HoldConserves(s.ledger, cfg.pot, info.prize.assetId, info.prize.assetAmount * info.prize.maxWinners, env.holdOk, a);
  }

  lemma ScheduleFundedConserves(cfg: Config, s: Sys, source: AccountId, id: EventId, info: EventInfo, env: Env, a: AssetId)
    ensures Supply(ScheduleFunded(cfg, s, source, id, info, env).sys.ledger, a) == Supply(s.ledger, a)
  {
    hide Supply, Transfer, Schedule;
    var amount := info.prize.assetAmount * info.prize.maxWinners;
    var moved := Transfer(s.ledger, info.prize.assetId, source, cfg.pot, amount, env.transferOk);
    TransferConserves(s.ledger, info.prize.assetId, source, cfg.pot, amount, env.transferOk, a);
    if moved.Some? { ScheduleConserves(cfg, s.(ledger := moved.value), id, info, Some(source), env, a); }
  }

  lemma ClaimConserves(cfg: Config, s: Sys, id: EventId, entry: Entry, beneficiary: AccountId, env: Env, a: AssetId)
    ensures Supply(DoClaim(cfg, s, id, entry, beneficiary, env).sys.ledger, a) == Supply(s.ledger, a)
  {
    hide Supply, Transfer, Unhold;
    if id in s.cells {
      var prize := s.cells[id].info.prize;
      var l1 := ReleaseExact(s.ledger, cfg.pot, prize.assetId, prize.assetAmount, env.grant);
      if l1.Some? {
        UnholdConserves(s.ledger, cfg.pot, prize.assetId, prize.assetAmount, a);
        TransferConserves(l1.value, prize.assetId, cfg.pot, beneficiary, prize.assetAmount, env.transferOk, a);
      }
    }
  }

  /** No step of the pallet creates or destroys funds, whether it succeeds or fails. */
  lemma StepConservesSupply(cfg: Config, s: Sys, op: Op, env: Env, a: AssetId)
    requires !op.OpOutside?
    ensures Supply(Perform(cfg, s, op, env).sys.ledger, a) == Supply(s.ledger, a)
  {
    hide Supply, Transfer, Settle, Authorize, CallChange, Schedule, ScheduleFunded, DoClaim;
    match op
    case OpSchedule(id, info) => ScheduleConserves(cfg, s, id, info, None, env, a);
    case OpScheduleFunded(source, id, info) => ScheduleFundedConserves(cfg, s, source, id, info, env, a);
    case OpRemoveScheduled(id) =>
      if id in s.cells { SettleConserves(cfg, s, id, RemoveScheduled(s.cells[id]), env, a); }
    case OpCancel(id) =>
      if id in s.cells { SettleConserves(cfg, s, id, Cancel(s.cells[id]), env, a); }
    case OpRegister(id, slot, entry) =>
    case OpClaim(id, entry, beneficiary) => ClaimConserves(cfg, s, id, entry, beneficiary, env, a);
    case OpCall(call) =>
      if call.id in s.cells && Authorize(call, s.cells[call.id].status, s.cells[call.id].info, env) == Ok {
        SettleConserves(cfg, s, call.id, CallChange(cfg, s.cells[call.id], call, env), env, a);
      }
    case OpEnableAsset(asset, account) =>
      TransferConserves(s.ledger, asset, account, cfg.pot, env.minBalance, env.transferOk, a);
    case OpDisableAsset(asset, account) =>
      if asset in s.supported {
        TransferConserves(s.ledger, asset, cfg.pot, account, s.supported[asset], env.transferOk, a);
      }
    case OpTranslate =>
  }

  /** So the supply of every asset is the same in every state of a run without outside transfers. */
  lemma {:induction false} RunConservesSupply(cfg: Config, s: Sys, steps: seq<Step>, n: nat, a: AssetId)
    requires n <= |steps| && forall i :: 0 <= i < n ==> !steps[i].op.OpOutside?
    ensures Supply(StateAt(cfg, s, steps, n).ledger, a) == Supply(s.ledger, a)
  {
    hide Supply, Perform;
    if n > 0 {
      RunConservesSupply(cfg, s, steps, n - 1, a);
      StepConservesSupply(cfg, StateAt(cfg, s, steps, n - 1), steps[n - 1].op, steps[n - 1].env, a);
    }
  }

  // ----- who gets what -----

  /** A transfer moves `amount` from one account to the other and touches nothing else. */
  lemma TransferMoves(l: Ledger, x: AssetId, from: AccountId, to: AccountId, amount: nat, ok: bool, a: AssetId, who: AccountId)
    ensures var t := Transfer(l, x, from, to, amount, ok);
      t.Some? ==>
        && Held(t.value, a) == Held(l, a)
        && Free(t.value, a, who) + (if a == x && who == from then amount else 0)
           == Free(l, a, who) + (if a == x && who == to then amount else 0)
  {
  }

  /** A paid claim moves one prize from hold to the beneficiary and changes no other balance. */
  lemma ClaimPays(cfg: Config, s: Sys, id: EventId, entry: Entry, beneficiary: AccountId, env: Env, a: AssetId, who: AccountId)
    ensures var o := DoClaim(cfg, s, id, entry, beneficiary, env);
      o.result == Ok ==>
        && id in s.cells
        && var prize := s.cells[id].info.prize;
           && Held(o.sys.ledger, a) + (if a == prize.assetId then prize.assetAmount else 0) == Held(s.ledger, a)
           && Free(o.sys.ledger, a, who) == Free(s.ledger, a, who)
              + (if a == prize.assetId && who == beneficiary then prize.assetAmount else 0)
  {
    hide Transfer;
    if id in s.cells {
      var prize := s.cells[id].info.prize;
      var l1 := ReleaseExact(s.ledger, cfg.pot, prize.assetId, prize.assetAmount, env.grant);
      if l1.Some? {
        TransferMoves(l1.value, prize.assetId, cfg.pot, beneficiary, prize.assetAmount, env.transferOk, a, who);
      }
    }
  }

  /** The account released prizes end up with: the source if the refund went through, else the pot. */
  function RefundTo(cfg: Config, source: Option<AccountId>, refunded: nat): AccountId {
    if source.Some? && refunded > 0 then source.value else cfg.pot
  }

  /** What a release takes out of hold arrives, undivided, at the source or in the pot's free balance. */
  lemma ReleaseLandsWhole(cfg: Config, l: Ledger, source: Option<AccountId>, prize: Prize, count: nat,
                          grant: Grant, transferOk: bool, a: AssetId, who: AccountId)
    ensures var r := ReleaseRemaining(cfg, l, source, prize, count, grant, transferOk);
      && Held(r.ledger, a) <= Held(l, a)
      && Free(r.ledger, a, who) == Free(l, a, who)
         + (if who == RefundTo(cfg, source, r.refunded) then Held(l, a) - Held(r.ledger, a) else 0)
      && (r.refunded > 0 ==> source.Some? && r.refunded == Held(l, prize.assetId) - Held(r.ledger, prize.assetId))
  {
    hide Transfer, MulSat;
    var answer := BestEffort(l, prize.assetId, MulSat(prize.assetAmount, count, cfg.balanceMax), grant);
    if count > 0 && answer.Some? && source.Some? {
      var l1 := Unhold(l, cfg.pot, prize.assetId, answer.value);
      TransferMoves(l1, prize.assetId, cfg.pot, source.value, answer.value, transferOk, a, who);
      TransferMoves(l1, prize.assetId, cfg.pot, source.value, answer.value, transferOk, prize.assetId, who);
    }
  }
}
