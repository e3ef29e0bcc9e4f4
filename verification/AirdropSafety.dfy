/** Safety of the airdrop machine over every run: backing, settlement, table agreement. */
module AirdropSafety {
  import opened Common
  import opened StorageOrder
  import opened Labels
  import opened AirdropTypes
  import opened AirdropDraw
  import opened AirdropLedger
  import opened AirdropEvent
  import opened AirdropSystem

  // ----- the debt of the pot -----

  /** What the pot owes on one event, in units of asset `a`. */
  function DebtOf(c: Cell, a: AssetId): nat {
    if c.info.prize.assetId == a then c.info.prize.assetAmount * Owed(c) else 0
  }

  /** What the pot owes on all live events together. */
  ghost function Debt(cells: map<EventId, Cell>, a: AssetId): nat
    decreases |cells|
  {
    if cells == map[] then 0
    else
      var id := Least(cells.Keys);
      assert |(cells - {id}).Keys| < |cells.Keys| by { assert (cells - {id}).Keys == cells.Keys - {id}; }
      DebtOf(cells[id], a) + Debt(cells - {id}, a)
  }

  lemma {:induction false} DebtRemove(cells: map<EventId, Cell>, id: EventId, a: AssetId)
    requires id in cells
    ensures Debt(cells, a) == DebtOf(cells[id], a) + Debt(cells - {id}, a)
    decreases |cells|
  {
    var k := Least(cells.Keys);
    if k != id {
      var rest := cells - {k};
      assert rest.Keys == cells.Keys - {k};
      DebtRemove(rest, id, a);
      var without := cells - {id};
      assert without.Keys == cells.Keys - {id};
      DebtRemove(without, k, a);
      assert rest - {id} == without - {k};
    }
  }

  lemma DebtUpdate(cells: map<EventId, Cell>, id: EventId, c: Cell, a: AssetId)
    ensures Debt(cells[id := c], a) == DebtOf(c, a) + Debt(cells - {id}, a)
  {
    DebtRemove(cells[id := c], id, a);
    assert cells[id := c] - {id} == cells - {id};
  }

  lemma DebtInsert(cells: map<EventId, Cell>, id: EventId, c: Cell, a: AssetId)
    requires id !in cells
    ensures Debt(cells[id := c], a) == DebtOf(c, a) + Debt(cells, a)
  {
    DebtUpdate(cells, id, c, a);
    assert cells - {id} == cells;
  }

  // ----- the invariant -----

  /** Every slot of a removed event was either paid or released. */
  ghost predicate FinishedOk(f: Finished) {
    BookSound(f.book, f.info) && |f.book.paid| + f.book.released == f.info.prize.maxWinners
  }

  /** The held balance covers what is owed, asset by asset. */
  ghost predicate Backed(s: Sys) {
    forall a :: Debt(s.cells, a) <= Held(s.ledger, a)
  }

  ghost predicate CellsOk(cfg: Config, cells: map<EventId, Cell>) {
    forall id :: id in cells ==> CellInv(cfg, cells[id])
  }

  ghost predicate AllFinishedOk(fs: seq<Finished>) {
    forall i :: 0 <= i < |fs| ==> FinishedOk(fs[i])
  }

  ghost predicate Inv(cfg: Config, s: Sys) {
    CellsOk(cfg, s.cells) && Backed(s) && AllFinishedOk(s.finished)
  }

  /** Released slots are booked as refunds exactly when the event has a funding source. */
  ghost predicate RefundExact(info: EventInfo, source: Option<AccountId>, b: Book) {
    b.refunded == if source.Some? then info.prize.assetAmount * b.released else 0
  }

  /** The pot holds what is owed and nothing more: the invariant of runs without a refused release. */
  ghost predicate Exact(s: Sys) {
    forall a :: Held(s.ledger, a) == Debt(s.cells, a)
  }

  /** Every funding source got back what was released: the invariant of runs without any refusal. */
  ghost predicate Refunded(s: Sys) {
    && (forall id :: id in s.cells ==> RefundExact(s.cells[id].info, s.cells[id].source, s.cells[id].book))
    && (forall i :: 0 <= i < |s.finished| ==>
          RefundExact(s.finished[i].info, s.finished[i].source, s.finished[i].book))
  }

  // ----- one step -----

  /** An authorized lifecycle call is a sound change. */
  lemma CallChangeSound(cfg: Config, c: Cell, call: Call, env: Env, refunded: nat)
    requires CellInv(cfg, c) && Authorize(call, c.status, c.info, env) == Ok
    requires call.CleanUpRegistrationsCall? ==> env.goneSlots <= c.regs.Keys
    requires call.CleanUpWinnersCall? ==> env.goneEntries <= c.winners.Keys
    ensures ChangeSound(cfg, c, CallChange(cfg, c, call, env), refunded)
  {
    hide CellInv, ChangeSound, DrawBatch, CloseRegistration, CleanUpRegistrations, CleanUpWinners;
    match call
    case StartRegistrationCall(_) => StartRegistrationSound(cfg, c, refunded);
    case CloseRegistrationCall(_) => CloseRegistrationSound(cfg, c, env.moment, refunded);
    case CaptureEntropyCall(_) =>
      CaptureEntropySound(cfg, c, env.randomness.value.0, env.randomness.value.1, refunded);
    case DrawWinnersCall(_) => DrawBatchSound(cfg, c, refunded);
    case CloseDrawingCall(_) => CloseDrawingSound(cfg, c, refunded);
    case CloseClaimingCall(_) => CloseClaimingSound(cfg, c, refunded);
    case CleanUpRegistrationsCall(_) => CleanUpRegistrationsSound(cfg, c, env.goneSlots, refunded);
    case CleanUpWinnersCall(_) => CleanUpWinnersSound(cfg, c, env.goneEntries, refunded);
    case FinalizeCall(_) => FinalizeSound(cfg, c, refunded);
  }

  /** The amount the source gets back when a change is settled. */
  function RefundOf(cfg: Config, s: Sys, id: EventId, ch: Change, env: Env): nat
    requires id in s.cells
  {
    var c := s.cells[id];
    ReleaseRemaining(cfg, s.ledger, c.source, c.info.prize, ch.released, env.grant, env.transferOk).refunded
  }

  lemma MulSplit(amount: nat, x: nat, y: nat)
    ensures amount * (x + y) == amount * x + amount * y
  {
  }

  /** A sound change moves exactly its released slots out of the debt. */
  lemma SettleDebt(cfg: Config, s: Sys, id: EventId, ch: Change, env: Env, a: AssetId)
    requires id in s.cells && ChangeSound(cfg, s.cells[id], ch, RefundOf(cfg, s, id, ch, env))
    ensures var prize := s.cells[id].info.prize;
      Debt(Settle(cfg, s, id, ch, env).cells, a)
        + (if a == prize.assetId then prize.assetAmount * ch.released else 0) == Debt(s.cells, a)
  {
    hide CellInv, ReleaseRemaining;
    var c := s.cells[id];
    DebtRemove(s.cells, id, a);
    match ch.next
    case None =>
    case Some(d) =>
      var d' := d.(book := Booked(d.book, ch.released, RefundOf(cfg, s, id, ch, env)));
      DebtUpdate(s.cells, id, d', a);
      assert Owed(d') == Owed(d);
      MulSplit(c.info.prize.assetAmount, Owed(d), ch.released);
  }

  /** Settling a sound change keeps the pot backed, whatever the ledger answers. */
  lemma SettleBacked(cfg: Config, s: Sys, id: EventId, ch: Change, env: Env)
    requires Backed(s) && id in s.cells && ChangeSound(cfg, s.cells[id], ch, RefundOf(cfg, s, id, ch, env))
    ensures Backed(Settle(cfg, s, id, ch, env))
  {
    hide ChangeSound, Debt, ReleaseRemaining;
    var c := s.cells[id];
    forall a ensures Debt(Settle(cfg, s, id, ch, env).cells, a) <= Held(Settle(cfg, s, id, ch, env).ledger, a) {
      SettleDebt(cfg, s, id, ch, env, a);
      ReleaseBound(cfg, s.ledger, c.source, c.info.prize, ch.released, env.grant, env.transferOk, a);
    }
  }

  lemma SettleKeepsInv(cfg: Config, s: Sys, id: EventId, ch: Change, env: Env)
    requires Inv(cfg, s) && id in s.cells
    requires ChangeSound(cfg, s.cells[id], ch, RefundOf(cfg, s, id, ch, env))
    ensures Inv(cfg, Settle(cfg, s, id, ch, env))
  {
    SettleBacked(cfg, s, id, ch, env);
    hide TablesAgree, BookSound, Backed, ReleaseRemaining;
    var c := s.cells[id];
    BookedSound(c.book, c.info, ch.released, RefundOf(cfg, s, id, ch, env));
  }

  lemma NewCellOk(cfg: Config, info: EventInfo, source: Option<AccountId>)
    requires 1 <= info.prize.maxWinners <= MAX_WINNERS
    requires info.prize.assetAmount * info.prize.maxWinners <= cfg.balanceMax
    requires info.registrationStarts < info.drawTime < info.endTime
    ensures CellInv(cfg, NewCell(info, source))
  {
    hide EffectiveWinners, WithinCap;
  }

  /** A fresh event starts with its whole allocation held and owed. */
  lemma ScheduleKeepsInv(cfg: Config, s: Sys, id: EventId, info: EventInfo, source: Option<AccountId>, env: Env)
    requires Inv(cfg, s)
    ensures Inv(cfg, Schedule(cfg, s, id, info, source, env).sys)
  {
    hide CellInv, Debt, FinishedOk, IsDnsLabel;
    var o := Schedule(cfg, s, id, info, source, env);
    if o.result == Ok {
      NewCellOk(cfg, info, source);
      forall a ensures Debt(o.sys.cells, a) <= Held(o.sys.ledger, a) {
        DebtInsert(s.cells, id, NewCell(info, source), a);
      }
    }
  }

  /** Moving free balances alone keeps the invariant. */
  lemma FreeMovesKeepInv(cfg: Config, s: Sys, t: Sys)
    requires Inv(cfg, s) && t.cells == s.cells && t.finished == s.finished && t.ledger.held == s.ledger.held
    ensures Inv(cfg, t)
  {
    hide CellInv, Debt;
    assert forall a :: Held(t.ledger, a) == Held(s.ledger, a);
  }

  lemma RegisterKeepsInv(cfg: Config, s: Sys, id: EventId, slot: Slot, entry: Entry)
    requires Inv(cfg, s)
    ensures Inv(cfg, DoRegister(s, id, slot, entry).sys)
  {
    hide CellInv, Debt, FinishedOk;
    var o := DoRegister(s, id, slot, entry);
    if o.result == Ok {
      var c := s.cells[id];
      RegisterSound(cfg, c, slot, entry);
      forall a ensures Debt(o.sys.cells, a) <= Held(o.sys.ledger, a) {
        DebtRemove(s.cells, id, a);
        DebtUpdate(s.cells, id, Register(c, slot, entry), a);
      }
    }
  }

  /** A claim takes one slot out of the debt and its prize out of hold. */
  lemma ClaimDebt(cfg: Config, s: Sys, id: EventId, entry: Entry, beneficiary: AccountId, env: Env, a: AssetId)
    requires Inv(cfg, s)
    ensures var o := DoClaim(cfg, s, id, entry, beneficiary, env);
      o.result == Ok ==>
        && id in s.cells
        && var prize := s.cells[id].info.prize;
           && Debt(o.sys.cells, a) + (if a == prize.assetId then prize.assetAmount else 0) == Debt(s.cells, a)
           && Held(o.sys.ledger, a) + (if a == prize.assetId then prize.assetAmount else 0) == Held(s.ledger, a)
  {
    hide CellInv, Debt, Backed, AllFinishedOk;
    var o := DoClaim(cfg, s, id, entry, beneficiary, env);
    if o.result == Ok {
      var c := s.cells[id];
      ClaimSound(cfg, c, entry);
      DebtRemove(s.cells, id, a);
      DebtUpdate(s.cells, id, Claim(c, entry), a);
      MulSplit(c.info.prize.assetAmount, Owed(Claim(c, entry)), 1);
    }
  }

  lemma ClaimKeepsInv(cfg: Config, s: Sys, id: EventId, entry: Entry, beneficiary: AccountId, env: Env)
    requires Inv(cfg, s)
    ensures Inv(cfg, DoClaim(cfg, s, id, entry, beneficiary, env).sys)
  {
    hide CellInv, Debt, FinishedOk;
    var o := DoClaim(cfg, s, id, entry, beneficiary, env);
    if o.result == Ok {
      ClaimSound(cfg, s.cells[id], entry);
      forall a ensures Debt(o.sys.cells, a) <= Held(o.sys.ledger, a) {
        ClaimDebt(cfg, s, id, entry, beneficiary, env, a);
      }
    }
  }

  lemma CallKeepsInv(cfg: Config, s: Sys, call: Call, env: Env)
    requires Inv(cfg, s) && Legal(cfg, s, OpCall(call), env)
    ensures Inv(cfg, DoCall(cfg, s, call, env).sys)
  {
    if call.id in s.cells && Authorize(call, s.cells[call.id].status, s.cells[call.id].info, env) == Ok {
      hide CellInv, Settle, Authorize, CallChange, ChangeSound, Backed, AllFinishedOk;
      var c := s.cells[call.id];
      var ch := CallChange(cfg, c, call, env);
      CallChangeSound(cfg, c, call, env, RefundOf(cfg, s, call.id, ch, env));
      SettleKeepsInv(cfg, s, call.id, ch, env);
    }
  }

  /** Every step keeps the invariant. */
  lemma StepKeepsInv(cfg: Config, s: Sys, op: Op, env: Env)
    requires Inv(cfg, s) && Legal(cfg, s, op, env)
    ensures Inv(cfg, Perform(cfg, s, op, env).sys)
  {
    hide Inv, Legal, Schedule, ScheduleFunded, DoRemoveScheduled, DoCancel, DoRegister, DoClaim, DoCall;
    match op
    case OpSchedule(id, info) => ScheduleKeepsInv(cfg, s, id, info, None, env);
    case OpScheduleFunded(source, id, info) => ScheduleFundedKeepsInv(cfg, s, source, id, info, env);
    case OpRemoveScheduled(id) => CancelKeepsInv(cfg, s, id, env);
    case OpCancel(id) => CancelKeepsInv(cfg, s, id, env);
    case OpRegister(id, slot, entry) => RegisterKeepsInv(cfg, s, id, slot, entry);
    case OpClaim(id, entry, beneficiary) => ClaimKeepsInv(cfg, s, id, entry, beneficiary, env);
    case OpCall(call) => CallKeepsInv(cfg, s, call, env);
    case OpEnableAsset(asset, account) => FreeMovesKeepInv(cfg, s, Perform(cfg, s, op, env).sys);
    case OpDisableAsset(asset, account) => FreeMovesKeepInv(cfg, s, Perform(cfg, s, op, env).sys);
    case OpTranslate => TranslateKeepsInv(cfg, s);
    case OpOutside(free) => FreeMovesKeepInv(cfg, s, Perform(cfg, s, op, env).sys);
  }

  lemma ScheduleFundedKeepsInv(cfg: Config, s: Sys, source: AccountId, id: EventId, info: EventInfo, env: Env)
    requires Inv(cfg, s)
    ensures Inv(cfg, ScheduleFunded(cfg, s, source, id, info, env).sys)
  {
    var moved := Transfer(s.ledger, info.prize.assetId, source, cfg.pot,
                          info.prize.assetAmount * info.prize.maxWinners, env.transferOk);
    if moved.Some? {
      FreeMovesKeepInv(cfg, s, s.(ledger := moved.value));
      ScheduleKeepsInv(cfg, s.(ledger := moved.value), id, info, Some(source), env);
    }
    hide Inv, Schedule;
  }

  /** Removing a scheduled event is what cancelling one does. */
  lemma CancelKeepsInv(cfg: Config, s: Sys, id: EventId, env: Env)
    requires Inv(cfg, s)
    ensures Inv(cfg, DoCancel(cfg, s, id, env).sys)
    ensures Inv(cfg, DoRemoveScheduled(cfg, s, id, env).sys)
  {
    if id in s.cells {
      var c := s.cells[id];
      hide CellInv, Settle, ChangeSound, Backed, AllFinishedOk;
      CancelSound(cfg, c, RefundOf(cfg, s, id, Cancel(c), env));
      SettleKeepsInv(cfg, s, id, Cancel(c), env);
    }
  }

  lemma UnnamedOk(cfg: Config, c: Cell)
    requires CellInv(cfg, c)
    ensures CellInv(cfg, Unnamed(c))
  {
    hide Drawn, CursorAt, EffectiveWinners, WithinCap, DrawnEntries;
  }

  /** The translate pass leaves the debt as it is. */
  lemma {:induction false} TranslateDebt(cells: map<EventId, Cell>, a: AssetId)
    ensures Debt(UnnamedAll(cells), a) == Debt(cells, a)
    decreases |cells|
  {
    if cells != map[] {
      var k := Least(cells.Keys);
      var rest := cells - {k};
      assert rest.Keys == cells.Keys - {k};
      TranslateDebt(rest, a);
      var t := UnnamedAll(cells);
      hide Debt;
      DebtRemove(cells, k, a);
      DebtRemove(t, k, a);
      assert t - {k} == UnnamedAll(rest);
    }
  }

  lemma TranslateKeepsInv(cfg: Config, s: Sys)
    requires Inv(cfg, s)
    ensures Inv(cfg, Translate(s))
  {
    hide CellInv, Debt, FinishedOk;
    forall id | id in s.cells ensures CellInv(cfg, Unnamed(s.cells[id])) { UnnamedOk(cfg, s.cells[id]); }
    forall a ensures Debt(Translate(s).cells, a) <= Held(s.ledger, a) { TranslateDebt(s.cells, a); }
  }

  /** Every state of every run satisfies the invariant. */
  lemma {:induction false} RunKeepsInv(cfg: Config, s: Sys, steps: seq<Step>, n: nat)
    requires Inv(cfg, s) && LegalRun(cfg, s, steps) && n <= |steps|
    ensures Inv(cfg, StateAt(cfg, s, steps, n))
  {
    hide Inv, Legal, Perform;
    if n > 0 {
      RunKeepsInv(cfg, s, steps, n - 1);
      StepKeepsInv(cfg, StateAt(cfg, s, steps, n - 1), steps[n - 1].op, steps[n - 1].env);
    }
  }
}
