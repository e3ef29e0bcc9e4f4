/** What holds in every state of every run that starts before the pallet's first call. */
module AirdropRuns {
  import opened Common
  import opened Labels
  import opened AirdropTypes
  import opened AirdropDraw
  import opened AirdropLedger
  import opened AirdropEvent
  import opened AirdropSystem
  import opened AirdropSafety

  lemma GenesisOk(cfg: Config, free: map<(AssetId, AccountId), nat>)
    ensures Inv(cfg, Genesis(free)) && Exact(Genesis(free)) && Refunded(Genesis(free))
  {
  }

  ghost predicate Run(cfg: Config, free: map<(AssetId, AccountId), nat>, steps: seq<Step>) {
    LegalRun(cfg, Genesis(free), steps)
  }

  function After(cfg: Config, free: map<(AssetId, AccountId), nat>, steps: seq<Step>, n: nat): Sys
    requires n <= |steps|
  {
    StateAt(cfg, Genesis(free), steps, n)
  }

  lemma Reached(cfg: Config, free: map<(AssetId, AccountId), nat>, steps: seq<Step>, n: nat)
    requires Run(cfg, free, steps) && n <= |steps|
    ensures Inv(cfg, After(cfg, free, steps, n))
  {
    GenesisOk(cfg, free);
    RunKeepsInv(cfg, Genesis(free), steps, n);
  }

  // ----- prize backing -----

  /** The calls that release prizes best-effort; a claim releases exactly or is rolled back. */
  predicate Releases(op: Op) { op.OpRemoveScheduled? || op.OpCancel? || op.OpCall? }

  /** The ledger does not refuse or cut short a best-effort release in this step. */
  predicate ReleaseGranted(cfg: Config, step: Step) {
    Releases(step.op) ==> Willing(step.env.grant, cfg.balanceMax)
  }

  /** Nor the refund that follows it. */
  predicate RefundGranted(cfg: Config, step: Step) {
    ReleaseGranted(cfg, step) && (Releases(step.op) ==> step.env.transferOk)
  }

  /** Slots are released only out of what is owed, so no release amount saturates. */
  lemma ReleaseNeverSaturates(cfg: Config, c: Cell, ch: Change, refunded: nat)
    requires CellInv(cfg, c) && ChangeSound(cfg, c, ch, refunded)
    ensures ch.released <= Owed(c) <= c.info.prize.maxWinners
    ensures c.info.prize.assetAmount * ch.released <= c.info.prize.assetAmount * Owed(c) <= cfg.balanceMax
    ensures MulSat(c.info.prize.assetAmount, ch.released, cfg.balanceMax) == c.info.prize.assetAmount * ch.released
  {
    hide TablesAgree, BookSound;
    var prize := c.info.prize;
    MulMonotone(prize.assetAmount, ch.released, Owed(c));
    MulMonotone(prize.assetAmount, Owed(c), prize.maxWinners);
  }

  lemma MulMonotone(amount: nat, x: nat, y: nat)
    requires x <= y
    ensures amount * x <= amount * y
  {
  }

  /** What a settled change releases when the ledger grants it, and what a source gets back. */
  lemma SettleReleasesAll(cfg: Config, s: Sys, id: EventId, ch: Change, env: Env, a: AssetId)
    requires Inv(cfg, s) && id in s.cells && Willing(env.grant, cfg.balanceMax)
    requires ChangeSound(cfg, s.cells[id], ch, RefundOf(cfg, s, id, ch, env))
    ensures var c := s.cells[id];
      && Held(Settle(cfg, s, id, ch, env).ledger, a)
         + (if a == c.info.prize.assetId then c.info.prize.assetAmount * ch.released else 0) == Held(s.ledger, a)
      && RefundOf(cfg, s, id, ch, env)
         == if c.source.Some? && env.transferOk then c.info.prize.assetAmount * ch.released else 0
  {
    hide CellInv, Debt, ReleaseRemaining, AllFinishedOk;
    var c := s.cells[id];
    var prize := c.info.prize;
    ReleaseNeverSaturates(cfg, c, ch, RefundOf(cfg, s, id, ch, env));
    DebtRemove(s.cells, id, prize.assetId);
    ReleaseExactWhenWilling(cfg, s.ledger, c.source, prize, ch.released, env.grant, env.transferOk, a);
  }

  lemma SettleKeepsExact(cfg: Config, s: Sys, id: EventId, ch: Change, env: Env)
    requires Inv(cfg, s) && Exact(s) && id in s.cells && Willing(env.grant, cfg.balanceMax)
    requires ChangeSound(cfg, s.cells[id], ch, RefundOf(cfg, s, id, ch, env))
    ensures Exact(Settle(cfg, s, id, ch, env))
  {
    hide Inv, Debt, ChangeSound, Settle;
    forall a ensures Held(Settle(cfg, s, id, ch, env).ledger, a) == Debt(Settle(cfg, s, id, ch, env).cells, a) {
      SettleDebt(cfg, s, id, ch, env, a);
      SettleReleasesAll(cfg, s, id, ch, env, a);
    }
  }

  lemma SettleKeepsRefunded(cfg: Config, s: Sys, id: EventId, ch: Change, env: Env)
    requires Inv(cfg, s) && Refunded(s) && id in s.cells && Willing(env.grant, cfg.balanceMax) && env.transferOk
    requires ChangeSound(cfg, s.cells[id], ch, RefundOf(cfg, s, id, ch, env))
    ensures Refunded(Settle(cfg, s, id, ch, env))
  {
    hide Inv, Refunded, ChangeSound, Settle, RefundOf;
    SettleReleasesAll(cfg, s, id, ch, env, s.cells[id].info.prize.assetId);
    RefundsAddUp(cfg, s, id, ch, env);
  }

  lemma RefundsAddUp(cfg: Config, s: Sys, id: EventId, ch: Change, env: Env)
    requires Refunded(s) && id in s.cells
    requires ChangeSound(cfg, s.cells[id], ch, RefundOf(cfg, s, id, ch, env))
    requires RefundOf(cfg, s, id, ch, env)
          == if s.cells[id].source.Some? then s.cells[id].info.prize.assetAmount * ch.released else 0
    ensures Refunded(Settle(cfg, s, id, ch, env))
  {
    hide CellInv, ReleaseRemaining;
    var c := s.cells[id];
    MulSplit(c.info.prize.assetAmount, c.book.released, ch.released);
  }

  /** While no best-effort release is refused, every step keeps the hold equal to the debt. */
  lemma StepKeepsExact(cfg: Config, s: Sys, op: Op, env: Env)
    requires Inv(cfg, s) && Legal(cfg, s, op, env) && Exact(s) && ReleaseGranted(cfg, Step(op, env))
    ensures Exact(Perform(cfg, s, op, env).sys)
  {
    hide CellInv, Debt, AllFinishedOk, Backed, Settle, Authorize, CallChange, ChangeSound;
    hide Schedule, ScheduleFunded, DoClaim, DoRegister;
    match op
    case OpSchedule(id, info) => ScheduleKeepsExact(cfg, s, id, info, None, env);
    case OpScheduleFunded(source, id, info) => ScheduleFundedKeepsExact(cfg, s, source, id, info, env);
    case OpRemoveScheduled(id) => CancelKeepsExact(cfg, s, id, env);
    case OpCancel(id) => CancelKeepsExact(cfg, s, id, env);
    case OpRegister(id, slot, entry) => RegisterKeepsExact(cfg, s, id, slot, entry);
    case OpClaim(id, entry, beneficiary) => ClaimKeepsExact(cfg, s, id, entry, beneficiary, env);
    case OpCall(call) =>
      if call.id in s.cells && Authorize(call, s.cells[call.id].status, s.cells[call.id].info, env) == Ok {
        var ch := CallChange(cfg, s.cells[call.id], call, env);
        CallChangeSound(cfg, s.cells[call.id], call, env, RefundOf(cfg, s, call.id, ch, env));
        SettleKeepsExact(cfg, s, call.id, ch, env);
      }
    case OpEnableAsset(asset, account) =>
    case OpDisableAsset(asset, account) =>
    case OpTranslate =>
      forall a ensures Debt(Translate(s).cells, a) == Held(s.ledger, a) { TranslateDebt(s.cells, a); }
    case OpOutside(free) =>
  }

  lemma ScheduleKeepsExact(cfg: Config, s: Sys, id: EventId, info: EventInfo, source: Option<AccountId>, env: Env)
    requires Exact(s)
    ensures Exact(Schedule(cfg, s, id, info, source, env).sys)
  {
    hide Debt, IsDnsLabel;
    var t := Schedule(cfg, s, id, info, source, env).sys;
    if t != s {
      forall a ensures Held(t.ledger, a) == Debt(t.cells, a) {
        DebtInsert(s.cells, id, NewCell(info, source), a);
      }
    }
  }

  lemma ScheduleFundedKeepsExact(cfg: Config, s: Sys, source: AccountId, id: EventId, info: EventInfo, env: Env)
    requires Exact(s)
    ensures Exact(ScheduleFunded(cfg, s, source, id, info, env).sys)
  {
    hide Debt, Schedule;
    var moved := Transfer(s.ledger, info.prize.assetId, source, cfg.pot,
                          info.prize.assetAmount * info.prize.maxWinners, env.transferOk);
    if moved.Some? {
      var s1 := s.(ledger := moved.value);
      assert forall a :: Held(s1.ledger, a) == Held(s.ledger, a);
      ScheduleKeepsExact(cfg, s1, id, info, Some(source), env);
    }
  }

  lemma CancelKeepsExact(cfg: Config, s: Sys, id: EventId, env: Env)
    requires Inv(cfg, s) && Exact(s) && Willing(env.grant, cfg.balanceMax)
    ensures Exact(DoCancel(cfg, s, id, env).sys)
    ensures Exact(DoRemoveScheduled(cfg, s, id, env).sys)
  {
    hide CellInv, Debt, AllFinishedOk, Backed, Settle, ChangeSound;
    if id in s.cells {
      var c := s.cells[id];
      CancelSound(cfg, c, RefundOf(cfg, s, id, Cancel(c), env));
      SettleKeepsExact(cfg, s, id, Cancel(c), env);
    }
  }

  lemma RegisterKeepsExact(cfg: Config, s: Sys, id: EventId, slot: Slot, entry: Entry)
    requires Inv(cfg, s) && Exact(s)
    ensures Exact(DoRegister(s, id, slot, entry).sys)
  {
    hide CellInv, Debt, AllFinishedOk, Backed;
    var o := DoRegister(s, id, slot, entry);
    if o.result == Ok {
      var c := s.cells[id];
      RegisterSound(cfg, c, slot, entry);
      forall a ensures Held(o.sys.ledger, a) == Debt(o.sys.cells, a) {
        DebtRemove(s.cells, id, a);
        DebtUpdate(s.cells, id, Register(c, slot, entry), a);
      }
    }
  }

  lemma ClaimKeepsExact(cfg: Config, s: Sys, id: EventId, entry: Entry, beneficiary: AccountId, env: Env)
    requires Inv(cfg, s) && Exact(s)
    ensures Exact(DoClaim(cfg, s, id, entry, beneficiary, env).sys)
  {
    hide Inv, Debt;
    var o := DoClaim(cfg, s, id, entry, beneficiary, env);
    if o.result == Ok {
      forall a ensures Held(o.sys.ledger, a) == Debt(o.sys.cells, a) {
        ClaimDebt(cfg, s, id, entry, beneficiary, env, a);
      }
    }
  }

  /** While no release and no refund is refused, every step keeps the refunds complete. */
  lemma StepKeepsRefunded(cfg: Config, s: Sys, op: Op, env: Env)
    requires Inv(cfg, s) && Legal(cfg, s, op, env) && Refunded(s) && RefundGranted(cfg, Step(op, env))
    ensures Refunded(Perform(cfg, s, op, env).sys)
  {
    hide CellInv, Inv, Settle, Authorize, CallChange, ChangeSound, IsDnsLabel, Transfer, Hold;
    match op
    case OpRemoveScheduled(id) => CancelKeepsRefunded(cfg, s, id, env);
    case OpCancel(id) => CancelKeepsRefunded(cfg, s, id, env);
    case OpCall(call) => CallKeepsRefunded(cfg, s, call, env);
    case _ =>
  }

  lemma CancelKeepsRefunded(cfg: Config, s: Sys, id: EventId, env: Env)
    requires Inv(cfg, s) && Refunded(s) && Willing(env.grant, cfg.balanceMax) && env.transferOk
    ensures Refunded(DoCancel(cfg, s, id, env).sys)
    ensures Refunded(DoRemoveScheduled(cfg, s, id, env).sys)
  {
    hide CellInv, Backed, AllFinishedOk, Settle, ChangeSound, Refunded;
    if id in s.cells {
      var c := s.cells[id];
      CancelSound(cfg, c, RefundOf(cfg, s, id, Cancel(c), env));
      SettleKeepsRefunded(cfg, s, id, Cancel(c), env);
    }
  }

  lemma CallKeepsRefunded(cfg: Config, s: Sys, call: Call, env: Env)
    requires Inv(cfg, s) && Legal(cfg, s, OpCall(call), env)
    requires Refunded(s) && Willing(env.grant, cfg.balanceMax) && env.transferOk
    ensures Refunded(DoCall(cfg, s, call, env).sys)
  {
    hide CellInv, Backed, AllFinishedOk, Settle, ChangeSound, Refunded, Authorize, CallChange;
    if call.id in s.cells && Authorize(call, s.cells[call.id].status, s.cells[call.id].info, env) == Ok {
      var ch := CallChange(cfg, s.cells[call.id], call, env);
      CallChangeSound(cfg, s.cells[call.id], call, env, RefundOf(cfg, s, call.id, ch, env));
      SettleKeepsRefunded(cfg, s, call.id, ch, env);
    }
  }

  lemma {:induction false} RunKeepsExact(cfg: Config, free: map<(AssetId, AccountId), nat>, steps: seq<Step>, n: nat)
    requires Run(cfg, free, steps) && n <= |steps|
    requires forall i :: 0 <= i < n ==> ReleaseGranted(cfg, steps[i])
    ensures Exact(After(cfg, free, steps, n))
  {
    hide Inv, Exact, Perform, Legal, ReleaseGranted;
    GenesisOk(cfg, free);
    if n > 0 {
      RunKeepsExact(cfg, free, steps, n - 1);
      Reached(cfg, free, steps, n - 1);
      assert steps[n - 1] == Step(steps[n - 1].op, steps[n - 1].env);
      StepKeepsExact(cfg, After(cfg, free, steps, n - 1), steps[n - 1].op, steps[n - 1].env);
    }
  }

  lemma {:induction false} RunKeepsRefunded(cfg: Config, free: map<(AssetId, AccountId), nat>, steps: seq<Step>, n: nat)
    requires Run(cfg, free, steps) && n <= |steps|
    requires forall i :: 0 <= i < n ==> RefundGranted(cfg, steps[i])
    ensures Refunded(After(cfg, free, steps, n))
  {
    hide Inv, Refunded, Perform, Legal, RefundGranted;
    GenesisOk(cfg, free);
    if n > 0 {
      RunKeepsRefunded(cfg, free, steps, n - 1);
      Reached(cfg, free, steps, n - 1);
      assert steps[n - 1] == Step(steps[n - 1].op, steps[n - 1].env);
      StepKeepsRefunded(cfg, After(cfg, free, steps, n - 1), steps[n - 1].op, steps[n - 1].env);
    }
  }

  /**
   Prize backing. In every state of every run the pot's held balance of each asset covers the prize
   slots still owed on all its events; it equals them while no
   best-effort release was refused, whatever transfers and claims were.
   */
  lemma PrizesAlwaysBacked(cfg: Config, free: map<(AssetId, AccountId), nat>, steps: seq<Step>, n: nat, a: AssetId)
    requires Run(cfg, free, steps) && n <= |steps|
    ensures Debt(After(cfg, free, steps, n).cells, a) <= Held(After(cfg, free, steps, n).ledger, a)
    ensures (forall i :: 0 <= i < n ==> ReleaseGranted(cfg, steps[i])) ==>
      Debt(After(cfg, free, steps, n).cells, a) == Held(After(cfg, free, steps, n).ledger, a)
  {
    Reached(cfg, free, steps, n);
    if forall i :: 0 <= i < n ==> ReleaseGranted(cfg, steps[i]) { RunKeepsExact(cfg, free, steps, n); }
    hide CellsOk, AllFinishedOk, After, Run;
  }

  /** So a winner who claims in time is paid, unless the ledger refuses. */
  lemma WinnersCanClaim(cfg: Config, free: map<(AssetId, AccountId), nat>, steps: seq<Step>, n: nat,
                        id: EventId, entry: Entry, beneficiary: AccountId, env: Env)
    requires Run(cfg, free, steps) && n <= |steps| && Willing(env.grant, cfg.balanceMax) && env.transferOk
    requires var s := After(cfg, free, steps, n);
      && id in s.cells && s.cells[id].status.Claiming? && entry in s.cells[id].winners
      && env.now < s.cells[id].info.endTime && s.cells[id].info.prize.assetId in s.supported
    ensures DoClaim(cfg, After(cfg, free, steps, n), id, entry, beneficiary, env).result == Ok
  {
    hide After, Run, CellInv, Debt, AllFinishedOk;
    var s := After(cfg, free, steps, n);
    var c := s.cells[id];
    Reached(cfg, free, steps, n);
    DebtRemove(s.cells, id, c.info.prize.assetId);
    ClaimSound(cfg, c, entry);
    MulMonotone(c.info.prize.assetAmount, 1, Owed(c));
    PrizeFits(cfg, c);
  }

  lemma PrizeFits(cfg: Config, c: Cell)
    requires CellInv(cfg, c)
    ensures c.info.prize.assetAmount <= cfg.balanceMax
  {
    MulMonotone(c.info.prize.assetAmount, 1, c.info.prize.maxWinners);
  }

  // ----- settlement -----

  /**
   Settlement. Whatever path led to an event's removal, the slots paid and the slots released add
   up to `max_winners`; nobody was paid twice; everybody paid was drawn; and if no release or
   refund was refused, a funding source got back exactly the prizes that were not paid.
   */
  lemma RemovedEventsAreSettled(cfg: Config, free: map<(AssetId, AccountId), nat>, steps: seq<Step>, n: nat, k: nat)
    requires Run(cfg, free, steps) && n <= |steps|
    requires k < |After(cfg, free, steps, n).finished|
    ensures var f := After(cfg, free, steps, n).finished[k];
      && |f.book.paid| + f.book.released == f.info.prize.maxWinners
      && NoDuplicates(f.book.paid)
      && (f.book.paid != [] ==>
            && |f.book.closings| == 1 && |f.book.captures| == 1
            && f.book.closings[0].effective <= |f.book.closings[0].regs|
            && forall e :: e in f.book.paid ==> e in DrawnEntries(f.book.closings[0], f.book.captures[0]))
      && ((forall i :: 0 <= i < n ==> RefundGranted(cfg, steps[i])) && f.source.Some? ==>
            f.book.refunded == f.info.prize.assetAmount * (f.info.prize.maxWinners - |f.book.paid|))
  {
    hide After, Run, CellsOk, Backed, DrawnEntries;
    Reached(cfg, free, steps, n);
    if forall i :: 0 <= i < n ==> RefundGranted(cfg, steps[i]) { RunKeepsRefunded(cfg, free, steps, n); }
    assert FinishedOk(After(cfg, free, steps, n).finished[k]);
  }

  /** Of a live event, too: slots paid, released and still owed add up, and claims stay within the draw. */
  lemma LiveEventsBalance(cfg: Config, free: map<(AssetId, AccountId), nat>, steps: seq<Step>, n: nat, id: EventId)
    requires Run(cfg, free, steps) && n <= |steps| && id in After(cfg, free, steps, n).cells
    ensures var c := After(cfg, free, steps, n).cells[id];
      && |c.book.paid| + c.book.released + Owed(c) == c.info.prize.maxWinners
      && |c.book.paid| == Claimed(c.status)
      && NoDuplicates(c.book.paid)
      && (forall e :: e in c.book.paid ==> e !in c.winners)
      && (c.status.Claiming? ==> |c.winners| + c.status.claimed <= c.status.effective)
  {
    hide After, Run, Backed, AllFinishedOk, Drawn, EffectiveWinners, WithinCap, DrawnEntries;
    Reached(cfg, free, steps, n);
    assert CellInv(cfg, After(cfg, free, steps, n).cells[id]);
  }

  // ----- the draw -----

  /**
   Batched draw equals one-shot draw. Once the batches are done, the winner table is the one the
   first `effective` slots strictly after the entropy point give in wrap-around order, over the
   registrations frozen when the watermark was recorded and entropy produced after it.
   */
  lemma DrawIsOneShot(cfg: Config, free: map<(AssetId, AccountId), nat>, steps: seq<Step>, n: nat, id: EventId)
    requires Run(cfg, free, steps) && n <= |steps| && id in After(cfg, free, steps, n).cells
    requires After(cfg, free, steps, n).cells[id].status.DrawWinners?
    ensures var c := After(cfg, free, steps, n).cells[id];
      && c.entropy.Some? && c.status.added <= c.status.effective <= |c.regs|
      && c.winners == Drawn(c.regs, c.entropy.value, c.status.added)
      && |c.book.closings| == 1 && |c.book.captures| == 1
      && c.book.closings[0].regs == c.regs && c.book.captures[0].target == c.entropy.value
      && c.book.closings[0].mark < c.book.captures[0].moment
  {
    hide After, Run, Backed, AllFinishedOk, Drawn, CursorAt, EffectiveWinners, WithinCap, DrawnEntries;
    Reached(cfg, free, steps, n);
    assert CellInv(cfg, After(cfg, free, steps, n).cells[id]);
  }

  /**
   While claiming, unclaimed winners plus claims are exactly the drawn entries; they reach the
   effective winner count iff no entry was drawn twice, which holds when every entry holds one
   slot, as callers promise.
   */
  lemma ClaimingCountsAgree(cfg: Config, free: map<(AssetId, AccountId), nat>, steps: seq<Step>, n: nat, id: EventId)
    requires Run(cfg, free, steps) && n <= |steps| && id in After(cfg, free, steps, n).cells
    requires After(cfg, free, steps, n).cells[id].status.Claiming?
    ensures var c := After(cfg, free, steps, n).cells[id];
      && c.entropy.Some? && 1 <= c.status.effective <= Min(c.info.prize.maxWinners, |c.regs|)
      && |c.regs| == c.status.participants
      && |c.winners| + c.status.claimed == |Drawn(c.regs, c.entropy.value, c.status.effective)|
      && (|c.winners| + c.status.claimed == c.status.effective <==>
            DistinctAlong(c.regs, DrawnSlots(c.regs, c.entropy.value, c.status.effective)))
      && (EntriesDistinct(c.regs) ==> |c.winners| + c.status.claimed == c.status.effective)
  {
    hide After, Run, Backed, AllFinishedOk, Drawn, DrawnSlots, DistinctAlong, EffectiveWinners, DrawnEntries;
    Reached(cfg, free, steps, n);
    var c := After(cfg, free, steps, n).cells[id];
    assert CellInv(cfg, c);
    DrawnFull(c.regs, c.entropy.value, c.status.effective);
  }

  /**
   The winner cap. Whenever registration closed in a run, on an event live or removed, the winners
   were as many as the prize allows, but beyond the first no more than the cap's share of the
   registrations; the rest of the prize slots were released.
   */
  lemma WinnerCapRespected(cfg: Config, free: map<(AssetId, AccountId), nat>, steps: seq<Step>, n: nat)
    requires Run(cfg, free, steps) && n <= |steps|
    ensures var s := After(cfg, free, steps, n);
      && (forall id :: id in s.cells ==> CapsRespected(s.cells[id].info.prize, s.cells[id].book))
      && (forall i :: 0 <= i < |s.finished| ==> CapsRespected(s.finished[i].info.prize, s.finished[i].book))
  {
    hide After, Run, Backed, TablesAgree, BookAgrees, DrawnEntries, WithinCap;
    Reached(cfg, free, steps, n);
    var s := After(cfg, free, steps, n);
    forall id | id in s.cells ensures CapsRespected(s.cells[id].info.prize, s.cells[id].book) {
      assert CellInv(cfg, s.cells[id]);
    }
    forall i | 0 <= i < |s.finished| ensures CapsRespected(s.finished[i].info.prize, s.finished[i].book) {
      assert FinishedOk(s.finished[i]);
    }
  }

  ghost predicate CapsRespected(prize: Prize, b: Book) {
    forall k :: 0 <= k < |b.closings| ==>
      && WithinCap(prize, |b.closings[k].regs|, b.closings[k].effective)
      && b.closings[k].effective <= |b.closings[k].regs|
  }

  // ----- frozen, then random -----

  /** Between closing and clearing. */
  predicate Frozen(s: Status) { s.AwaitingEntropy? || s.DrawWinners? || s.Claiming? }

  /** Captured entropy stays, and so do the registrations and the closing while an event is frozen. */
  ghost predicate KeepsFrozen(c: Cell, d: Cell) {
    && (c.entropy.Some? ==> d.entropy == c.entropy)
    && (Frozen(c.status) && Frozen(d.status) ==> d.regs == c.regs && d.book.closings == c.book.closings)
  }

  lemma CallKeepsFrozen(cfg: Config, c: Cell, call: Call, env: Env)
    requires CellInv(cfg, c) && Authorize(call, c.status, c.info, env) == Ok
    ensures var d := CallChange(cfg, c, call, env).next; d.Some? ==> KeepsFrozen(c, d.value)
  {
    hide DrawBatch, EffectiveWinners, WithinCap, TablesAgree, BookSound;
    if call.DrawWinnersCall? { DrawBatchFrame(c, cfg.drawLimit); }
  }

  lemma DrawBatchFrame(c: Cell, drawLimit: nat)
    requires c.status.DrawWinners?
    ensures var d := DrawBatch(c, drawLimit).next;
      d.Some? && d.value.regs == c.regs && d.value.entropy == c.entropy && d.value.book == c.book
      && d.value.status.DrawWinners?
  {
  }

  lemma SettleKeepsFrozen(cfg: Config, s: Sys, id: EventId, ch: Change, env: Env, k: EventId)
    requires id in s.cells && k in s.cells
    requires ch.next.Some? ==> KeepsFrozen(s.cells[id], ch.next.value)
    ensures var t := Settle(cfg, s, id, ch, env); k in t.cells ==> KeepsFrozen(s.cells[k], t.cells[k])
  {
    hide ReleaseRemaining;
  }

  /** No step changes captured entropy, nor the registrations of a frozen event. */
  lemma StepKeepsFrozen(cfg: Config, s: Sys, op: Op, env: Env, k: EventId)
    requires Inv(cfg, s) && k in s.cells && k in Perform(cfg, s, op, env).sys.cells
    ensures KeepsFrozen(s.cells[k], Perform(cfg, s, op, env).sys.cells[k])
  {
    hide CellInv, Settle, CallChange, Authorize, Backed, AllFinishedOk, IsDnsLabel;
    match op
    case OpRemoveScheduled(id) =>
      if id in s.cells { SettleKeepsFrozen(cfg, s, id, RemoveScheduled(s.cells[id]), env, k); }
    case OpCancel(id) =>
      if id in s.cells { SettleKeepsFrozen(cfg, s, id, Cancel(s.cells[id]), env, k); }
    case OpCall(call) =>
      if call.id in s.cells && Authorize(call, s.cells[call.id].status, s.cells[call.id].info, env) == Ok {
        CallKeepsFrozen(cfg, s.cells[call.id], call, env);
        SettleKeepsFrozen(cfg, s, call.id, CallChange(cfg, s.cells[call.id], call, env), env, k);
      }
    case _ =>
  }
}
