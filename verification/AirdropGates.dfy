/**
 When each call is accepted, in terms of the event's own times and tables, and what follows over
 runs: windows stay open until their time, cancelled events pay nobody, refunds equal fundings.
 */
module AirdropGates {
  import opened Common
  import opened Labels
  import opened AirdropTypes
  import opened AirdropDraw
  import opened AirdropLedger
  import opened AirdropEvent
  import opened AirdropSystem
  import opened AirdropSafety
  import opened AirdropRuns
  import opened AirdropProgress
  import opened AirdropOrigins
  import opened AirdropFrozen

  // ----- lifecycle calls -----

  /** The randomness source has a value produced after the recorded moment. */
  ghost predicate FresherThan(env: Env, mark: nat) {
    exists value: nat, moment: nat :: env.randomness == Some((value, moment)) && moment > mark
  }

  /** The phase and time each call belongs to. */
  ghost predicate MayHappen(call: Call, c: Cell, env: Env) {
    match call
    case StartRegistrationCall(_) => c.status.Scheduled? && c.info.registrationStarts <= env.now
    case CloseRegistrationCall(_) => c.status.Registering? && c.info.drawTime <= env.now
    case CaptureEntropyCall(_) => c.status.AwaitingEntropy? && FresherThan(env, c.status.lastMoment)
    case DrawWinnersCall(_) => c.status.DrawWinners?
    case CloseDrawingCall(_) => c.status.DrawWinners? && c.status.added == c.status.effective
    case CloseClaimingCall(_) => c.status.Claiming? && c.info.endTime <= env.now
    case CleanUpRegistrationsCall(_) => c.status.ClearingRegistrations?
    case CleanUpWinnersCall(_) => c.status.ClearingWinners?
    case FinalizeCall(_) => c.status.Finalizing?
  }

  lemma FreshIs(env: Env, mark: nat)
    ensures Fresh(env, mark) <==> FresherThan(env, mark)
  {
    if Fresh(env, mark) { assert env.randomness == Some((env.randomness.value.0, env.randomness.value.1)); }
  }

  /** A lifecycle call is accepted exactly from a local source, in its phase, from its time on. */
  lemma CallAcceptedIff(cfg: Config, s: Sys, call: Call, env: Env)
    ensures DoCall(cfg, s, call, env).result == Ok <==>
      env.local && call.id in s.cells && MayHappen(call, s.cells[call.id], env)
  {
    hide Settle, CallChange, Fresh;
    if call.id in s.cells && s.cells[call.id].status.AwaitingEntropy? {
      FreshIs(env, s.cells[call.id].status.lastMoment);
    }
  }

  /** In its phase but before its time it is refused as not due, and only then. */
  lemma NotYetDueIff(cfg: Config, s: Sys, call: Call, env: Env)
    ensures DoCall(cfg, s, call, env).result == Err(NotYetDue) <==>
      && env.local && call.id in s.cells
      && var c := s.cells[call.id];
         || (call.StartRegistrationCall? && c.status.Scheduled? && env.now < c.info.registrationStarts)
         || (call.CloseRegistrationCall? && c.status.Registering? && env.now < c.info.drawTime)
         || (call.CloseClaimingCall? && c.status.Claiming? && env.now < c.info.endTime)
  {
    hide Settle, CallChange, Fresh;
  }

  /** How far the clock must be for the schedule scan to reach an event. */
  ghost predicate ScanReaches(c: Cell, now: nat) {
    && (c.status.Scheduled? ==> c.info.registrationStarts <= now)
    && (c.status.Registering? || c.status.AwaitingEntropy? || c.status.DrawWinners? ==> c.info.drawTime <= now)
    && (Rank(c.status) >= 4 ==> c.info.endTime <= now)
  }

  /** The worker submits the calls that may happen once the scan reaches their event, and no idle draw. */
  lemma WantedIff(cells: map<EventId, Cell>, call: Call, env: Env)
    ensures Wanted(cells, call, env) <==>
      && call.id in cells
      && MayHappen(call, cells[call.id], env) && ScanReaches(cells[call.id], env.now)
      && (call.DrawWinnersCall? ==> cells[call.id].status.added != cells[call.id].status.effective)
  {
    hide Fresh;
    if call.id in cells && cells[call.id].status.AwaitingEntropy? {
      FreshIs(env, cells[call.id].status.lastMoment);
    }
  }

  /** A draw batch takes as many of the remaining winners as the draw limit allows, and leaves the rest. */
  lemma BatchTakesUpToLimit(cfg: Config, c: Cell)
    requires CellInv(cfg, c) && c.status.DrawWinners?
    ensures var d := DrawBatch(c, cfg.drawLimit).next;
      && d.Some? && d.value.status.DrawWinners? && d.value.status.effective == c.status.effective
      && c.status.added <= d.value.status.added <= c.status.added + cfg.drawLimit
      && d.value.status.added <= c.status.effective
      && (d.value.status.added == c.status.added + cfg.drawLimit || d.value.status.added == c.status.effective)
  {
    hide Drawn, CursorAt, Walk, DrawBatch, BookSound, BookAgrees, EffectiveWinners, WithinCap;
    DrawBatchExtends(c, cfg.drawLimit);
  }

  // ----- windows -----

  /** Before an event's next time, no step but a cancellation or removal moves it out of its phase. */
  lemma StepKeepsWindow(cfg: Config, s: Sys, op: Op, env: Env, k: EventId)
    requires k in s.cells && op != OpCancel(k) && op != OpRemoveScheduled(k)
    ensures var c, t := s.cells[k], Perform(cfg, s, op, env).sys;
      && (k in t.cells ==>
            && t.cells[k].info.registrationStarts == c.info.registrationStarts
            && t.cells[k].info.drawTime == c.info.drawTime && t.cells[k].info.endTime == c.info.endTime)
      && (c.status.Scheduled? && env.now < c.info.registrationStarts ==> k in t.cells && t.cells[k].status.Scheduled?)
      && (c.status.Registering? && env.now < c.info.drawTime ==> k in t.cells && t.cells[k].status.Registering?)
      && (c.status.Claiming? && env.now < c.info.endTime ==> k in t.cells && t.cells[k].status.Claiming?)
  {
    hide Settle, CallChange, IsDnsLabel, Transfer, Hold, Cancel;
    match op
    case OpRemoveScheduled(id) => if id in s.cells { SettleElsewhere(cfg, s, id, RemoveScheduled(s.cells[id]), env, k); }
    case OpCancel(id) => if id in s.cells { SettleElsewhere(cfg, s, id, Cancel(s.cells[id]), env, k); }
    case OpCall(call) =>
      if call.id in s.cells && Authorize(call, s.cells[call.id].status, s.cells[call.id].info, env) == Ok {
        var ch := CallChange(cfg, s.cells[call.id], call, env);
        CallKeepsInfo(cfg, s.cells[call.id], call, env);
        SettleElsewhere(cfg, s, call.id, ch, env, k);
      }
    case _ =>
  }

  lemma CallKeepsInfo(cfg: Config, c: Cell, call: Call, env: Env)
    requires Authorize(call, c.status, c.info, env) == Ok
    ensures var next := CallChange(cfg, c, call, env).next; next.Some? ==> next.value.info == c.info
  {
    hide DrawBatch, EffectiveWinners;
    if call.DrawWinnersCall? { DrawBatchInfo(c, cfg.drawLimit); }
  }

  lemma DrawBatchInfo(c: Cell, drawLimit: nat)
    requires c.status.DrawWinners?
    ensures DrawBatch(c, drawLimit).next.Some? && DrawBatch(c, drawLimit).next.value.info == c.info
  {
    hide Crown, Walk;
  }

  lemma SettleElsewhere(cfg: Config, s: Sys, id: EventId, ch: Change, env: Env, k: EventId)
    requires id in s.cells && k in s.cells
    ensures var t := Settle(cfg, s, id, ch, env);
      && (k != id ==> k in t.cells && t.cells[k] == s.cells[k])
      && (k == id && k in t.cells ==> ch.next.Some? && t.cells[k].info == ch.next.value.info)
  {
    hide ReleaseRemaining;
  }

  /** A claim window stays open: an event in `Claiming` stays there until its end time, unless cancelled. */
  lemma {:induction false} ClaimWindowStaysOpen(h: History, i: nat, j: nat, id: EventId)
    requires i <= j <= |h.steps| && Live(h, i, id) && At(h, i, id).status.Claiming?
    requires forall m :: i <= m < j ==> h.steps[m].op != OpCancel(id) && h.steps[m].env.now < At(h, i, id).info.endTime
    ensures Live(h, j, id) && At(h, j, id).status.Claiming? && At(h, j, id).info.endTime == At(h, i, id).info.endTime
  {
    hide After, Perform;
    if i < j {
      ClaimWindowStaysOpen(h, i, j - 1, id);
      NextState(h, j - 1);
      var s := After(h.cfg, h.free, h.steps, j - 1);
      if h.steps[j - 1].op == OpRemoveScheduled(id) {
        RefusesRemoval(h.cfg, s, id, h.steps[j - 1].env);
      } else {
        StepKeepsWindow(h.cfg, s, h.steps[j - 1].op, h.steps[j - 1].env, id);
      }
    }
  }

  lemma RefusesRemoval(cfg: Config, s: Sys, id: EventId, env: Env)
    requires id in s.cells && !s.cells[id].status.Scheduled?
    ensures Perform(cfg, s, OpRemoveScheduled(id), env) == Outcome(s, Err(WrongStatus))
  {
  }

  // ----- scheduling, removing, cancelling -----

  /** The terms an event can be scheduled under. */
  ghost predicate Schedulable(cfg: Config, s: Sys, id: EventId, info: EventInfo, env: Env) {
    && IsDnsLabel(info.productName)
    && 1 <= info.prize.maxWinners <= 10_000
    && info.registrationStarts < info.drawTime && info.drawTime < info.endTime
    && info.prize.assetId in s.supported
    && env.minBalance <= info.prize.assetAmount
    && id !in s.cells
    && info.prize.assetAmount * info.prize.maxWinners <= cfg.balanceMax
  }

  /**
   Scheduling is accepted exactly for such terms if the pot can hold the whole allocation; the event
   then starts empty under those terms, and a refused one changes nothing.
   */
  lemma ScheduleAcceptedIff(cfg: Config, s: Sys, id: EventId, info: EventInfo, source: Option<AccountId>, env: Env)
    ensures var o := Schedule(cfg, s, id, info, source, env);
      var total := info.prize.assetAmount * info.prize.maxWinners;
      && (o.result == Ok <==>
            && Schedulable(cfg, s, id, info, env)
            && env.holdOk && Free(s.ledger, info.prize.assetId, cfg.pot) >= total)
      && (o.result != Ok ==> o.sys == s)
      && (o.result == Ok ==>
            && o.sys.cells.Keys == s.cells.Keys + {id}
            && (forall k :: k in s.cells ==> o.sys.cells[k] == s.cells[k])
            && o.sys.cells[id].info == info && o.sys.cells[id].source == source && o.sys.cells[id].status.Scheduled?
            && Held(o.sys.ledger, info.prize.assetId) == Held(s.ledger, info.prize.assetId) + total
            && Free(o.sys.ledger, info.prize.assetId, cfg.pot) + total == Free(s.ledger, info.prize.assetId, cfg.pot))
      && (o.result == Err(AssetNotEnabled) ==> info.prize.assetId !in s.supported)
      && (o.result == Err(PrizeBelowMinBalance) ==> info.prize.assetAmount < env.minBalance)
  {
    hide IsDnsLabel;
  }

  /** A source pays the whole allocation into hold, and only if the event is scheduled. */
  lemma SourcePaysAllocation(cfg: Config, s: Sys, source: AccountId, id: EventId, info: EventInfo, env: Env)
    requires source != cfg.pot
    ensures var o := ScheduleFunded(cfg, s, source, id, info, env);
      var asset, total := info.prize.assetId, info.prize.assetAmount * info.prize.maxWinners;
      && (o.result == Ok <==>
            && Schedulable(cfg, s, id, info, env) && env.holdOk && env.transferOk
            && Free(s.ledger, asset, source) >= total)
      && (o.result != Ok ==> o.sys == s)
      && (o.result == Ok ==>
            && id in o.sys.cells && o.sys.cells[id].source == Some(source) && o.sys.cells[id].info == info
            && Held(o.sys.ledger, asset) == Held(s.ledger, asset) + total
            && Free(o.sys.ledger, asset, source) + total == Free(s.ledger, asset, source)
            && Free(o.sys.ledger, asset, cfg.pot) == Free(s.ledger, asset, cfg.pot))
  {
    hide IsDnsLabel, Schedule;
    var asset, total := info.prize.assetId, info.prize.assetAmount * info.prize.maxWinners;
    var moved := Transfer(s.ledger, asset, source, cfg.pot, total, env.transferOk);
    if moved.Some? {
      assert Free(moved.value, asset, cfg.pot) == Free(s.ledger, asset, cfg.pot) + total;
      ScheduleAcceptedIff(cfg, s.(ledger := moved.value), id, info, Some(source), env);
      HoldTouchesPotOnly(cfg, s.(ledger := moved.value), id, info, Some(source), env, source);
    }
  }

  lemma HoldTouchesPotOnly(cfg: Config, s: Sys, id: EventId, info: EventInfo, source: Option<AccountId>, env: Env, who: AccountId)
    requires who != cfg.pot
    ensures Free(Schedule(cfg, s, id, info, source, env).sys.ledger, info.prize.assetId, who)
         == Free(s.ledger, info.prize.assetId, who)
  {
    hide IsDnsLabel;
  }

  /** Removing is accepted exactly while the event is scheduled, and leaves nothing of it. */
  lemma RemovalAcceptedIff(cfg: Config, s: Sys, id: EventId, env: Env)
    ensures var o := DoRemoveScheduled(cfg, s, id, env);
      && (o.result == Ok <==> id in s.cells && s.cells[id].status.Scheduled?)
      && (o.result != Ok ==> o.sys == s)
      && (o.result == Ok ==> o.sys.cells == s.cells - {id})
  {
    hide ReleaseRemaining;
  }

  /** The winner count of an event whose registration closed. */
  function EffectiveOf(s: Status): nat {
    match s
    case AwaitingEntropy(_, effective, _) => effective
    case DrawWinners(_, effective, _, _) => effective
    case Claiming(_, effective, _) => effective
    case ClearingRegistrations(_, effective, _, _) => effective
    case ClearingWinners(_, effective, _, _) => effective
    case Finalizing(effective, _) => effective
    case _ => 0
  }

  function ParticipantsOf(s: Status): nat {
    match s
    case Registering(participants) => participants
    case AwaitingEntropy(participants, _, _) => participants
    case DrawWinners(participants, _, _, _) => participants
    case Claiming(participants, _, _) => participants
    case ClearingRegistrations(participants, _, _, _) => participants
    case ClearingWinners(participants, _, _, _) => participants
    case _ => 0
  }

  /** Prizes are released only when registration closes and at the end; in between all counts are carried along. */
  lemma CallCarriesCounts(cfg: Config, c: Cell, call: Call, env: Env)
    requires Authorize(call, c.status, c.info, env) == Ok
    ensures var ch := CallChange(cfg, c, call, env);
      && (ch.released > 0 ==> call.CloseRegistrationCall? || call.FinalizeCall?)
      && (ch.next.Some? && Rank(c.status) >= 2 ==>
            && EffectiveOf(ch.next.value.status) == EffectiveOf(c.status)
            && Claimed(ch.next.value.status) == Claimed(c.status))
      && (ch.next.Some? && 1 <= Rank(c.status) && Rank(ch.next.value.status) <= 6 ==>
            ParticipantsOf(ch.next.value.status) == ParticipantsOf(c.status))
  {
    hide Walk, Crown, EffectiveWinners;
  }

  /**
   Cancelling ends an event: it is gone if it was scheduled, and on its way out otherwise. While
   registering it releases the whole allocation at once; later on it leaves the rest to the end.
   */
  lemma CancelTerminates(cfg: Config, s: Sys, id: EventId, env: Env)
    ensures var t := DoCancel(cfg, s, id, env).sys;
      && (id in t.cells <==> id in s.cells && !s.cells[id].status.Scheduled?)
      && (id in t.cells ==>
            && Rank(t.cells[id].status) >= 5
            && t.cells[id].info == s.cells[id].info && t.cells[id].source == s.cells[id].source
            && t.cells[id].regs == s.cells[id].regs && t.cells[id].winners == s.cells[id].winners
            && t.cells[id].book.paid == s.cells[id].book.paid)
      && (id in t.cells && !s.cells[id].status.Registering? ==>
            && t.ledger == s.ledger && t.cells[id].book.released == s.cells[id].book.released
            && EffectiveOf(t.cells[id].status) == EffectiveOf(s.cells[id].status)
            && Claimed(t.cells[id].status) == Claimed(s.cells[id].status))
      && (id in t.cells && s.cells[id].status.Registering? ==>
            && Owed(t.cells[id]) == 0
            && t.cells[id].book.released == s.cells[id].book.released + s.cells[id].info.prize.maxWinners)
      && (forall k :: k != id ==> (k in t.cells <==> k in s.cells) && (k in s.cells ==> t.cells[k] == s.cells[k]))
  {
    if id in s.cells { NothingToRelease(cfg, s, s.cells[id], env); }
    hide ReleaseRemaining;
  }

  lemma NothingToRelease(cfg: Config, s: Sys, c: Cell, env: Env)
    ensures ReleaseRemaining(cfg, s.ledger, c.source, c.info.prize, 0, env.grant, env.transferOk) == PayBack(s.ledger, 0)
  {
  }

  lemma CallPaysNobody(cfg: Config, c: Cell, call: Call, env: Env)
    requires Authorize(call, c.status, c.info, env) == Ok
    ensures var d := CallChange(cfg, c, call, env).next; d.Some? ==> d.value.book.paid == c.book.paid
  {
    CallDescends(cfg, c, call, env);
    hide CallChange, Authorize;
  }

  lemma TerminatingPaysNobody(cfg: Config, s: Sys, op: Op, env: Env, k: EventId)
    requires k in s.cells && Rank(s.cells[k].status) >= 5
    ensures var t := Perform(cfg, s, op, env).sys;
      k in t.cells ==> Rank(t.cells[k].status) >= 5 && t.cells[k].book.paid == s.cells[k].book.paid
  {
    StepKeepsRank(cfg, s, op, env, k);
    hide Settle, CallChange, Authorize, IsDnsLabel, Transfer, Hold, Cancel;
    match op
    case OpRemoveScheduled(id) => if id in s.cells { SettlePaysNobody(cfg, s, id, RemoveScheduled(s.cells[id]), env, k); }
    case OpCancel(id) =>
      if id in s.cells {
        CancelDescends(s.cells[id]);
        SettlePaysNobody(cfg, s, id, Cancel(s.cells[id]), env, k);
      }
    case OpCall(call) =>
      if call.id in s.cells && Authorize(call, s.cells[call.id].status, s.cells[call.id].info, env) == Ok {
        CallPaysNobody(cfg, s.cells[call.id], call, env);
        SettlePaysNobody(cfg, s, call.id, CallChange(cfg, s.cells[call.id], call, env), env, k);
      }
    case _ =>
  }

  lemma SettlePaysNobody(cfg: Config, s: Sys, id: EventId, ch: Change, env: Env, k: EventId)
    requires id in s.cells && k in s.cells
    requires ch.next.Some? ==> ch.next.value.book.paid == s.cells[id].book.paid
    ensures var t := Settle(cfg, s, id, ch, env); k in t.cells ==> t.cells[k].book.paid == s.cells[k].book.paid
  {
    hide ReleaseRemaining;
  }

  /** Once cancelled, an event never opens again and pays nobody, however long it lives on. */
  lemma {:induction false} CancelledPaysNobody(h: History, i: nat, j: nat, id: EventId)
    requires i < j <= |h.steps| && h.steps[i].op == OpCancel(id) && Live(h, i, id) && LiveThroughout(h, i + 1, j, id)
    ensures Rank(At(h, j, id).status) >= 5
    ensures At(h, j, id).book.paid == At(h, i, id).book.paid
  {
    hide After, Perform;
    assert Live(h, j, id);
    NextState(h, j - 1);
    var s := After(h.cfg, h.free, h.steps, j - 1);
    if j == i + 1 {
      CancelTerminates(h.cfg, s, id, h.steps[i].env);
      CancelIs(h.cfg, s, id, h.steps[i].env);
    } else {
      assert Live(h, j - 1, id);
      CancelledPaysNobody(h, i, j - 1, id);
      TerminatingPaysNobody(h.cfg, s, h.steps[j - 1].op, h.steps[j - 1].env, id);
    }
  }

  lemma CancelIs(cfg: Config, s: Sys, id: EventId, env: Env)
    ensures Perform(cfg, s, OpCancel(id), env) == DoCancel(cfg, s, id, env)
  {
    hide DoCancel;
  }

  // ----- registering, claiming -----

  /** Registering is accepted exactly while registration is open and the slot free, and adds just that. */
  lemma RegisterAcceptedIff(s: Sys, id: EventId, slot: Slot, entry: Entry)
    ensures var o := DoRegister(s, id, slot, entry);
      && (o.result == Ok <==>
            && id in s.cells && s.cells[id].status.Registering?
            && slot !in s.cells[id].regs && s.cells[id].status.participants != 0xFFFF_FFFF)
      && (o.result != Ok ==> o.sys == s)
      && (o.result == Ok ==>
            && o.sys.cells[id].regs == s.cells[id].regs[slot := entry]
            && o.sys.cells[id].status == Registering(s.cells[id].status.participants + 1)
            && o.sys.ledger == s.ledger
            && (forall k :: k in s.cells && k != id ==> k in o.sys.cells && o.sys.cells[k] == s.cells[k]))
  {
  }

  /** An unpaid winner of an enabled asset, inside the claim window. */
  ghost predicate Claimable(s: Sys, id: EventId, entry: Entry, now: nat) {
    && id in s.cells
    && s.cells[id].status.Claiming? && now < s.cells[id].info.endTime
    && s.cells[id].info.prize.assetId in s.supported
    && entry in s.cells[id].winners
  }

  /**
   A claim is accepted exactly if it is claimable and the ledger releases and transfers the prize; a
   refused one changes nothing.
   */
  lemma ClaimAcceptedIff(cfg: Config, s: Sys, id: EventId, entry: Entry, beneficiary: AccountId, env: Env)
    ensures var o := DoClaim(cfg, s, id, entry, beneficiary, env);
      && (o.result == Ok <==>
            && Claimable(s, id, entry, env.now)
            && env.grant.Granted? && env.transferOk
            && s.cells[id].info.prize.assetAmount <= Held(s.ledger, s.cells[id].info.prize.assetId))
      && (o.result == Err(ClaimingWindowClosed) <==>
            id in s.cells && s.cells[id].status.Claiming? && s.cells[id].info.endTime <= env.now)
      && (o.result != Ok ==> o.sys == s)
      && (o.result == Ok ==> id in o.sys.cells && o.sys.cells[id].winners == s.cells[id].winners - {entry})
  {
    hide ReleaseExact, Transfer;
    if id in s.cells { PayOutSucceeds(cfg, s.ledger, s.cells[id].info.prize, beneficiary, env); }
  }

  lemma PayOutSucceeds(cfg: Config, l: Ledger, prize: Prize, beneficiary: AccountId, env: Env)
    ensures var l1 := ReleaseExact(l, cfg.pot, prize.assetId, prize.assetAmount, env.grant);
      && (l1.Some? <==> env.grant.Granted? && prize.assetAmount <= Held(l, prize.assetId))
      && (l1.Some? ==>
            (Transfer(l1.value, prize.assetId, cfg.pot, beneficiary, prize.assetAmount, env.transferOk).Some? <==>
              env.transferOk))
  {
    var l1 := ReleaseExact(l, cfg.pot, prize.assetId, prize.assetAmount, env.grant);
    if l1.Some? { assert Free(l1.value, prize.assetId, cfg.pot) == Free(l, prize.assetId, cfg.pot) + prize.assetAmount; }
  }

  /** So in every run a claim is paid only inside its event's claim window, after its draw time. */
  lemma PaidInsideWindow(h: History, n: nat, id: EventId, entry: Entry, who: AccountId)
    requires Run(h.cfg, h.free, h.steps) && n < |h.steps|
    requires h.steps[n].op == OpClaim(id, entry, who) && Accepted(h, n)
    ensures Live(h, n, id) && At(h, n, id).status.Claiming?
    ensures h.steps[n].env.now < At(h, n, id).info.endTime
    ensures exists i: nat :: ClosedAt(h, i, n, id) && h.steps[i].env.now >= At(h, n, id).info.drawTime
  {
    var s := After(h.cfg, h.free, h.steps, n);
    ClaimAcceptedIff(h.cfg, s, id, entry, who, h.steps[n].env);
    ClaimIs(h.cfg, s, id, entry, who, h.steps[n].env);
    hide After, Run, Perform, DoClaim;
    assert Live(h, n, id);
    ClosingExists(h, n, id);
    var i: nat :| ClosedAt(h, i, n, id);
    ClosedInTime(h, i, n, id);
  }

  lemma ClaimIs(cfg: Config, s: Sys, id: EventId, entry: Entry, who: AccountId, env: Env)
    ensures Perform(cfg, s, OpClaim(id, entry, who), env) == DoClaim(cfg, s, id, entry, who, env)
  {
    hide DoClaim;
  }

  lemma {:induction false} TimesStay(h: History, i: nat, j: nat, id: EventId)
    requires LiveThroughout(h, i, j, id)
    ensures Live(h, i, id) && Live(h, j, id)
    ensures At(h, j, id).info.drawTime == At(h, i, id).info.drawTime
    ensures At(h, j, id).info.endTime == At(h, i, id).info.endTime
  {
    hide After, Perform;
    assert Live(h, i, id) && Live(h, j, id);
    if i < j {
      assert Live(h, j - 1, id);
      TimesStay(h, i, j - 1, id);
      NextState(h, j - 1);
      var s, op, env := After(h.cfg, h.free, h.steps, j - 1), h.steps[j - 1].op, h.steps[j - 1].env;
      if op == OpCancel(id) {
        CancelTerminates(h.cfg, s, id, env);
        CancelIs(h.cfg, s, id, env);
      } else if op == OpRemoveScheduled(id) {
        RemovalAcceptedIff(h.cfg, s, id, env);
        RemovalIs(h.cfg, s, id, env);
      } else {
        StepKeepsWindow(h.cfg, s, op, env, id);
      }
    }
  }

  lemma RemovalIs(cfg: Config, s: Sys, id: EventId, env: Env)
    ensures Perform(cfg, s, OpRemoveScheduled(id), env) == DoRemoveScheduled(cfg, s, id, env)
  {
    hide DoRemoveScheduled;
  }

  lemma CallIs(cfg: Config, s: Sys, call: Call, env: Env)
    ensures Perform(cfg, s, OpCall(call), env) == DoCall(cfg, s, call, env)
  {
    hide Settle, CallChange, Authorize;
  }

  /** The call that closed an event's registration came at its draw time or later. */
  lemma ClosedInTime(h: History, i: nat, n: nat, id: EventId)
    requires ClosedAt(h, i, n, id) && Live(h, n, id) && Frozen(At(h, n, id).status)
    ensures h.steps[i].env.now >= At(h, n, id).info.drawTime
  {
    var s, call, env := After(h.cfg, h.free, h.steps, i), CloseRegistrationCall(id), h.steps[i].env;
    TimesStay(h, i, n, id);
    CallIs(h.cfg, s, call, env);
    CallAcceptedIff(h.cfg, s, call, env);
    hide After, Perform, DoCall;
  }

  // ----- supported assets -----

  /** Enabling is accepted exactly for an asset not enabled yet whose minimum balance the source can pay. */
  lemma EnableAcceptedIff(cfg: Config, s: Sys, asset: AssetId, source: AccountId, env: Env)
    ensures var o := DoEnableAsset(cfg, s, asset, source, env);
      && (o.result == Ok <==> asset !in s.supported && env.transferOk && env.minBalance <= Free(s.ledger, asset, source))
      && (o.result != Ok ==> o.sys == s)
      && (o.result == Ok ==> o.sys.supported == s.supported[asset := env.minBalance] && o.sys.cells == s.cells)
  {
    hide Held;
  }

  /** Nothing but disabling the asset changes what it was funded with. */
  lemma FundingStays(cfg: Config, s: Sys, op: Op, env: Env, asset: AssetId)
    requires asset in s.supported && (op.OpDisableAsset? ==> op.asset != asset)
    ensures var t := Perform(cfg, s, op, env).sys; asset in t.supported && t.supported[asset] == s.supported[asset]
  {
    hide Settle, CallChange, Authorize, IsDnsLabel, Transfer, Hold, ReleaseExact, Cancel;
    match op
    case OpRemoveScheduled(id) => if id in s.cells { SettleKeepsSupported(cfg, s, id, RemoveScheduled(s.cells[id]), env); }
    case OpCancel(id) => if id in s.cells { SettleKeepsSupported(cfg, s, id, Cancel(s.cells[id]), env); }
    case OpCall(call) =>
      if call.id in s.cells && Authorize(call, s.cells[call.id].status, s.cells[call.id].info, env) == Ok {
        SettleKeepsSupported(cfg, s, call.id, CallChange(cfg, s.cells[call.id], call, env), env);
      }
    case _ =>
  }

  lemma SettleKeepsSupported(cfg: Config, s: Sys, id: EventId, ch: Change, env: Env)
    requires id in s.cells
    ensures Settle(cfg, s, id, ch, env).supported == s.supported
  {
    hide ReleaseRemaining;
  }

  /** Disabling pays back exactly that, whatever the minimum balance is by then. */
  lemma DisableRefundsFunding(cfg: Config, s: Sys, asset: AssetId, beneficiary: AccountId, env: Env)
    requires beneficiary != cfg.pot
    ensures var o := DoDisableAsset(cfg, s, asset, beneficiary, env);
      && (o.result == Ok <==>
            asset in s.supported && env.transferOk && s.supported[asset] <= Free(s.ledger, asset, cfg.pot))
      && (o.result != Ok ==> o.sys == s)
      && (o.result == Ok ==>
            && o.sys.supported == s.supported - {asset}
            && Free(o.sys.ledger, asset, beneficiary) == Free(s.ledger, asset, beneficiary) + s.supported[asset]
            && Free(o.sys.ledger, asset, cfg.pot) + s.supported[asset] == Free(s.ledger, asset, cfg.pot))
  {
  }
}
