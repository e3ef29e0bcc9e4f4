/** Everybody paid had registered and had claimed: tracing payments back to the calls of the run. */
module AirdropOrigins {
  import opened Common
  import opened Labels
  import opened AirdropTypes
  import opened AirdropDraw
  import opened AirdropLedger
  import opened AirdropEvent
  import opened AirdropSystem
  import opened AirdropSafety
  import opened AirdropRuns

  /** A run from the pallet's first call on. */
  datatype History = History(cfg: Config, free: map<(AssetId, AccountId), nat>, steps: seq<Step>)

  ghost predicate Accepted(h: History, j: nat)
    requires j < |h.steps|
  {
    Perform(h.cfg, After(h.cfg, h.free, h.steps, j), h.steps[j].op, h.steps[j].env).result == Ok
  }

  /** One of the first `n` steps registered `entry` under `slot`. */
  ghost predicate WasRegistered(h: History, n: nat, id: EventId, slot: Slot, entry: Entry) {
    exists j: nat :: j < n && j < |h.steps| && h.steps[j].op == OpRegister(id, slot, entry) && Accepted(h, j)
  }

  ghost predicate ClaimedAt(h: History, j: nat, id: EventId, entry: Entry) {
    && j < |h.steps| && h.steps[j].op.OpClaim? && h.steps[j].op.id == id && h.steps[j].op.entry == entry
    && Accepted(h, j)
  }

  ghost predicate WasClaimed(h: History, n: nat, id: EventId, entry: Entry) {
    exists j: nat :: j < n && ClaimedAt(h, j, id, entry)
  }

  ghost predicate RegsTraced(h: History, n: nat, id: EventId, regs: map<Slot, Entry>) {
    forall slot :: slot in regs ==> WasRegistered(h, n, id, slot, regs[slot])
  }

  ghost predicate BookTraced(h: History, n: nat, id: EventId, b: Book) {
    && (forall k :: 0 <= k < |b.closings| ==> RegsTraced(h, n, id, b.closings[k].regs))
    && (forall i :: 0 <= i < |b.paid| ==> WasClaimed(h, n, id, b.paid[i]))
  }

  ghost predicate Traced(h: History, n: nat, s: Sys) {
    && (forall id :: id in s.cells ==> RegsTraced(h, n, id, s.cells[id].regs) && BookTraced(h, n, id, s.cells[id].book))
    && (forall i :: 0 <= i < |s.finished| ==> BookTraced(h, n, s.finished[i].id, s.finished[i].book))
  }

  lemma TracedLater(h: History, n: nat, s: Sys)
    requires Traced(h, n, s)
    ensures Traced(h, n + 1, s)
  {
    hide Accepted;
    forall id, regs | RegsTraced(h, n, id, regs) ensures RegsTraced(h, n + 1, id, regs) {
      forall slot | slot in regs ensures WasRegistered(h, n + 1, id, slot, regs[slot]) {
        assert WasRegistered(h, n, id, slot, regs[slot]);
      }
    }
    forall id, b | BookTraced(h, n, id, b) ensures BookTraced(h, n + 1, id, b) {
      forall i | 0 <= i < |b.paid| ensures WasClaimed(h, n + 1, id, b.paid[i]) {
        assert WasClaimed(h, n, id, b.paid[i]);
      }
    }
  }

  /** What a change keeps: registrations only go, nobody is paid, a closing freezes what is there. */
  ghost predicate Descends(c: Cell, d: Cell) {
    && d.regs.Keys <= c.regs.Keys && (forall slot :: slot in d.regs ==> d.regs[slot] == c.regs[slot])
    && d.book.paid == c.book.paid
    && (|| d.book.closings == c.book.closings
        || (|d.book.closings| == |c.book.closings| + 1
            && d.book.closings[..|c.book.closings|] == c.book.closings
            && d.book.closings[|c.book.closings|].regs == c.regs))
  }

  lemma CallDescends(cfg: Config, c: Cell, call: Call, env: Env)
    requires Authorize(call, c.status, c.info, env) == Ok
    ensures var d := CallChange(cfg, c, call, env).next; d.Some? ==> Descends(c, d.value)
  {
    hide DrawBatch, EffectiveWinners, WithinCap;
    if call.DrawWinnersCall? { DrawBatchFrame(c, cfg.drawLimit); }
  }

  lemma CancelDescends(c: Cell)
    ensures Cancel(c).next.Some? ==> Descends(c, Cancel(c).next.value)
  {
  }

  lemma DescendsTraced(h: History, n: nat, id: EventId, c: Cell, d: Cell)
    requires Descends(c, d) && RegsTraced(h, n, id, c.regs) && BookTraced(h, n, id, c.book)
    ensures RegsTraced(h, n, id, d.regs) && BookTraced(h, n, id, d.book)
  {
    hide WasRegistered, WasClaimed;
    forall k | 0 <= k < |d.book.closings| ensures RegsTraced(h, n, id, d.book.closings[k].regs) {
      if k < |c.book.closings| { assert d.book.closings[k] == c.book.closings[k]; }
    }
  }

  lemma SettleTraced(h: History, n: nat, s: Sys, id: EventId, ch: Change, env: Env)
    requires Traced(h, n, s) && id in s.cells && (ch.next.Some? ==> Descends(s.cells[id], ch.next.value))
    ensures Traced(h, n, Settle(h.cfg, s, id, ch, env))
  {
    hide RegsTraced, Descends, ReleaseRemaining, WasClaimed;
    if ch.next.Some? { DescendsTraced(h, n, id, s.cells[id], ch.next.value); }
  }

  lemma RegisterTraced(h: History, n: nat, id: EventId, slot: Slot, entry: Entry)
    requires n < |h.steps| && h.steps[n].op == OpRegister(id, slot, entry) && Accepted(h, n)
    requires Traced(h, n + 1, After(h.cfg, h.free, h.steps, n))
    ensures Traced(h, n + 1, DoRegister(After(h.cfg, h.free, h.steps, n), id, slot, entry).sys)
  {
    hide After, Accepted, BookTraced;
    assert WasRegistered(h, n + 1, id, slot, entry);
    hide WasRegistered;
  }

  lemma ClaimTraced(h: History, n: nat, id: EventId, entry: Entry, who: AccountId, env: Env)
    requires n < |h.steps| && h.steps[n].op == OpClaim(id, entry, who) && Accepted(h, n)
    requires Traced(h, n + 1, After(h.cfg, h.free, h.steps, n))
    ensures Traced(h, n + 1, DoClaim(h.cfg, After(h.cfg, h.free, h.steps, n), id, entry, who, env).sys)
  {
    hide After, Accepted, RegsTraced, Transfer, ReleaseExact;
    assert ClaimedAt(h, n, id, entry);
    assert WasClaimed(h, n + 1, id, entry);
    hide WasClaimed;
  }

  lemma FreshTraced(h: History, n: nat, id: EventId, info: EventInfo, source: Option<AccountId>)
    ensures RegsTraced(h, n, id, NewCell(info, source).regs) && BookTraced(h, n, id, NewCell(info, source).book)
  {
  }

  lemma ScheduleTraced(h: History, n: nat, s: Sys, id: EventId, info: EventInfo, source: Option<AccountId>, env: Env)
    requires Traced(h, n, s)
    ensures Traced(h, n, Schedule(h.cfg, s, id, info, source, env).sys)
  {
    hide RegsTraced, BookTraced, IsDnsLabel, Hold;
    FreshTraced(h, n, id, info, source);
  }

  lemma FundedTraced(h: History, n: nat, s: Sys, source: AccountId, id: EventId, info: EventInfo, env: Env)
    requires Traced(h, n, s)
    ensures Traced(h, n, ScheduleFunded(h.cfg, s, source, id, info, env).sys)
  {
    var moved := Transfer(s.ledger, info.prize.assetId, source, h.cfg.pot,
                          info.prize.assetAmount * info.prize.maxWinners, env.transferOk);
    if moved.Some? {
      SameTraced(h, n, s, s.(ledger := moved.value));
      ScheduleTraced(h, n, s.(ledger := moved.value), id, info, Some(source), env);
    }
    hide Traced, Schedule, Transfer;
  }

  lemma SameTraced(h: History, n: nat, s: Sys, t: Sys)
    requires Traced(h, n, s) && t.cells == s.cells && t.finished == s.finished
    ensures Traced(h, n, t)
  {
    hide RegsTraced, BookTraced;
  }

  lemma TranslateTraced(h: History, n: nat, s: Sys)
    requires Traced(h, n, s)
    ensures Traced(h, n, Translate(s))
  {
    hide RegsTraced, BookTraced;
  }

  lemma RemovalTraced(h: History, n: nat, s: Sys, id: EventId, env: Env)
    requires Traced(h, n, s)
    ensures Traced(h, n, DoRemoveScheduled(h.cfg, s, id, env).sys) && Traced(h, n, DoCancel(h.cfg, s, id, env).sys)
  {
    hide Traced, Settle, Cancel, Descends;
    if id in s.cells {
      CancelDescends(s.cells[id]);
      SettleTraced(h, n, s, id, RemoveScheduled(s.cells[id]), env);
      SettleTraced(h, n, s, id, Cancel(s.cells[id]), env);
    }
  }

  lemma CallTraced(h: History, n: nat, s: Sys, call: Call, env: Env)
    requires Traced(h, n, s)
    ensures Traced(h, n, DoCall(h.cfg, s, call, env).sys)
  {
    hide Traced, Settle, Authorize, CallChange, Descends;
    if call.id in s.cells && Authorize(call, s.cells[call.id].status, s.cells[call.id].info, env) == Ok {
      CallDescends(h.cfg, s.cells[call.id], call, env);
      SettleTraced(h, n, s, call.id, CallChange(h.cfg, s.cells[call.id], call, env), env);
    }
  }

  lemma StepTraced(h: History, n: nat)
    requires n < |h.steps| && Traced(h, n, After(h.cfg, h.free, h.steps, n))
    ensures Traced(h, n + 1, Perform(h.cfg, After(h.cfg, h.free, h.steps, n), h.steps[n].op, h.steps[n].env).sys)
  {
    hide After, Traced, Schedule, ScheduleFunded, DoRemoveScheduled, DoCancel, DoCall, Translate, Transfer;
    var s, op, env := After(h.cfg, h.free, h.steps, n), h.steps[n].op, h.steps[n].env;
    TracedLater(h, n, s);
    match op
    case OpSchedule(id, info) => ScheduleTraced(h, n + 1, s, id, info, None, env);
    case OpScheduleFunded(source, id, info) => FundedTraced(h, n + 1, s, source, id, info, env);
    case OpRemoveScheduled(id) => RemovalTraced(h, n + 1, s, id, env);
    case OpCancel(id) => RemovalTraced(h, n + 1, s, id, env);
    case OpRegister(id, slot, entry) => if Accepted(h, n) { RegisterTraced(h, n, id, slot, entry); }
    case OpClaim(id, entry, who) => if Accepted(h, n) { ClaimTraced(h, n, id, entry, who, env); }
    case OpCall(call) => CallTraced(h, n + 1, s, call, env);
    case OpTranslate => TranslateTraced(h, n + 1, s);
    case OpEnableAsset(asset, account) => SameTraced(h, n + 1, s, Perform(h.cfg, s, op, env).sys);
    case OpDisableAsset(asset, account) => SameTraced(h, n + 1, s, Perform(h.cfg, s, op, env).sys);
    case OpOutside(free) => SameTraced(h, n + 1, s, Perform(h.cfg, s, op, env).sys);
  }

  lemma {:induction false} AlwaysTraced(h: History, n: nat)
    requires n <= |h.steps|
    ensures Traced(h, n, After(h.cfg, h.free, h.steps, n))
  {
    hide Perform, RegsTraced, BookTraced;
    if n > 0 {
      AlwaysTraced(h, n - 1);
      hide Traced;
      StepTraced(h, n - 1);
    }
  }

  lemma PaidTraced(h: History, n: nat, id: EventId, b: Book, info: EventInfo, e: Entry)
    requires BookSound(b, info) && BookTraced(h, n, id, b) && e in b.paid
    ensures WasClaimed(h, n, id, e) && exists slot :: WasRegistered(h, n, id, slot, e)
  {
    hide WasRegistered, WasClaimed, Cyclic;
    var i :| 0 <= i < |b.paid| && b.paid[i] == e;
    var k, c := b.closings[0], b.captures[0];
    assert e in DrawnEntries(k, c);
    CrownSound(k.regs, DrawnSlots(k.regs, c.target, k.effective));
    var slot := Drawn(k.regs, c.target, k.effective)[e];
    assert slot in k.regs && k.regs[slot] == e;
    assert RegsTraced(h, n, id, k.regs);
    assert WasRegistered(h, n, id, slot, e);
  }

  /**
   On every run, whoever was paid by an event, live or removed, had been registered for it under
   some slot and had claimed, by accepted calls of that run.
   */
  lemma OnlyRegistrantsArePaid(h: History, n: nat)
    requires Run(h.cfg, h.free, h.steps) && n <= |h.steps|
    ensures var s := After(h.cfg, h.free, h.steps, n);
      && (forall id, e :: id in s.cells && e in s.cells[id].book.paid ==>
            WasClaimed(h, n, id, e) && exists slot :: WasRegistered(h, n, id, slot, e))
      && (forall i, e :: 0 <= i < |s.finished| && e in s.finished[i].book.paid ==>
            WasClaimed(h, n, s.finished[i].id, e) && exists slot :: WasRegistered(h, n, s.finished[i].id, slot, e))
  {
    AlwaysTraced(h, n);
    Reached(h.cfg, h.free, h.steps, n);
    hide WasRegistered, WasClaimed, After, BookTraced, BookSound, TablesAgree, BookAgrees, Backed, Run;
    var s := After(h.cfg, h.free, h.steps, n);
    forall id, e | id in s.cells && e in s.cells[id].book.paid
      ensures WasClaimed(h, n, id, e) && exists slot :: WasRegistered(h, n, id, slot, e)
    {
      assert CellInv(h.cfg, s.cells[id]);
      PaidTraced(h, n, id, s.cells[id].book, s.cells[id].info, e);
    }
    forall i, e | 0 <= i < |s.finished| && e in s.finished[i].book.paid
      ensures WasClaimed(h, n, s.finished[i].id, e) && exists slot :: WasRegistered(h, n, s.finished[i].id, slot, e)
    {
      assert FinishedOk(s.finished[i]);
      PaidTraced(h, n, s.finished[i].id, s.finished[i].book, s.finished[i].info, e);
    }
  }
}
