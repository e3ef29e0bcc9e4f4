/**
 The obligation on registering callers, an entry determines its slot: what keeping it buys and what
 breaking it costs.
 */
module AirdropObligation {
  import opened Common
  import opened Labels
  import opened AirdropTypes
  import opened AirdropDraw
  import opened AirdropLedger
  import opened AirdropEvent
  import opened AirdropSystem
  import opened AirdropSafety
  import opened AirdropRuns
  import opened AirdropOrigins

  /** No two accepted register calls for the event carry one entry under different slots. */
  ghost predicate EntryDeterminesSlot(h: History, id: EventId) {
    forall i: nat, j: nat :: RegistersAt(h, i, id) && RegistersAt(h, j, id) && h.steps[i].op.entry == h.steps[j].op.entry ==>
      h.steps[i].op.slot == h.steps[j].op.slot
  }

  ghost predicate RegistersAt(h: History, j: nat, id: EventId) {
    j < |h.steps| && h.steps[j].op.OpRegister? && h.steps[j].op.id == id && Accepted(h, j)
  }

  lemma RegistrarStep(h: History, n: nat, id: EventId, slot: Slot, entry: Entry)
    requires WasRegistered(h, n, id, slot, entry)
    ensures exists j: nat :: RegistersAt(h, j, id) && h.steps[j].op.slot == slot && h.steps[j].op.entry == entry
  {
    hide Accepted;
    var j: nat :| j < n && j < |h.steps| && h.steps[j].op == OpRegister(id, slot, entry) && Accepted(h, j);
    assert RegistersAt(h, j, id);
  }

  /** If the callers keep it, every entry holds one slot in every reachable registration table. */
  lemma ObligationKeepsEntriesDistinct(h: History, n: nat, id: EventId)
    requires n <= |h.steps| && EntryDeterminesSlot(h, id) && id in After(h.cfg, h.free, h.steps, n).cells
    ensures EntriesDistinct(After(h.cfg, h.free, h.steps, n).cells[id].regs)
  {
    AlwaysTraced(h, n);
    hide After, WasRegistered, RegistersAt, BookTraced;
    var regs := After(h.cfg, h.free, h.steps, n).cells[id].regs;
    assert RegsTraced(h, n, id, regs);
    forall s, t | s in regs && t in regs && regs[s] == regs[t] ensures s == t {
      RegistrarStep(h, n, id, s, regs[s]);
      RegistrarStep(h, n, id, t, regs[t]);
    }
  }

  /** So winners plus claims reach the effective winner count. */
  lemma ObligationFillsWinners(h: History, n: nat, id: EventId)
    requires Run(h.cfg, h.free, h.steps) && n <= |h.steps| && EntryDeterminesSlot(h, id)
    requires id in After(h.cfg, h.free, h.steps, n).cells && After(h.cfg, h.free, h.steps, n).cells[id].status.Claiming?
    ensures var c := After(h.cfg, h.free, h.steps, n).cells[id];
      |c.winners| + c.status.claimed == c.status.effective
  {
    hide After, Run, EntryDeterminesSlot, Drawn, DrawnSlots, EntriesDistinct, DistinctAlong;
    ObligationKeepsEntriesDistinct(h, n, id);
    ClaimingCountsAgree(h.cfg, h.free, h.steps, n, id);
  }

  // ----- a run that breaks it -----

  const Twice := AccountEntry(7)
  const Terms := EventInfo([97], Prize(0, 1, 2, 1_000_000), 1, 2, 3)
  const Small: Config := RawConfig(2, 1, 1, 10, 0)
  const Pot: map<(AssetId, AccountId), nat> := map[(0, 0) := 2]

  function Now(now: nat): Env { Env(now, true, Some((0, 1)), 0, 0, Granted(0), true, true, {}, {}) }

  /** One account registers under two slots of an event for two winners. */
  function DoubledSteps(): seq<Step> {
    [ Step(OpEnableAsset(0, 9), Now(0)),
      Step(OpSchedule(1, Terms), Now(0)),
      Step(OpCall(StartRegistrationCall(1)), Now(1)),
      Step(OpRegister(1, 10, Twice), Now(1)),
      Step(OpRegister(1, 20, Twice), Now(1)),
      Step(OpCall(CloseRegistrationCall(1)), Now(2)),
      Step(OpCall(CaptureEntropyCall(1)), Now(2)),
      Step(OpCall(DrawWinnersCall(1)), Now(2)),
      Step(OpCall(CloseDrawingCall(1)), Now(2)) ]
  }

  /** A call that releases nothing only replaces its event's record. */
  lemma QuietCall(cfg: Config, s: Sys, call: Call, env: Env)
    requires call.id in s.cells
    requires Authorize(call, s.cells[call.id].status, s.cells[call.id].info, env) == Ok
    requires CallChange(cfg, s.cells[call.id], call, env).released == 0
    requires CallChange(cfg, s.cells[call.id], call, env).next.Some?
    ensures env.local
    ensures DoCall(cfg, s, call, env).sys.cells
         == s.cells[call.id := CallChange(cfg, s.cells[call.id], call, env).next.value]
  {
    assert env.local;
    hide CallChange, Authorize;
  }

  lemma StepIs(steps: seq<Step>, k: nat)
    requires k < |steps|
    ensures StateAt(Small, Genesis(Pot), steps, k + 1)
         == Perform(Small, StateAt(Small, Genesis(Pot), steps, k), steps[k].op, steps[k].env).sys
  {
  }

  lemma QuietStep(steps: seq<Step>, k: nat, c: Cell, call: Call, env: Env)
    requires k < |steps| && steps[k] == Step(OpCall(call), env) && call.id == 1
    requires StateAt(Small, Genesis(Pot), steps, k).cells == map[1 := c]
    requires Authorize(call, c.status, c.info, env) == Ok
    requires CallChange(Small, c, call, env).released == 0 && CallChange(Small, c, call, env).next.Some?
    ensures StateAt(Small, Genesis(Pot), steps, k + 1).cells == map[1 := CallChange(Small, c, call, env).next.value]
  {
    StepIs(steps, k);
    hide StateAt, CallChange, Authorize, DoCall;
    QuietCall(Small, StateAt(Small, Genesis(Pot), steps, k), call, env);
  }

  const Regs: map<Slot, Entry> := map[10 := Twice, 20 := Twice]
  const Opened := NewCell(Terms, None).(status := Registering(0))
  const Filled := Opened.(status := Registering(2), regs := Regs)
  const Closed := CloseRegistration(Filled, 0).next.value
  const Seeded := CaptureEntropy(Closed, 0, 1).next.value

  lemma EventOpens()
    ensures StateAt(Small, Genesis(Pot), DoubledSteps(), 2).cells == map[1 := NewCell(Terms, None)]
  {
    var r := DoubledSteps();
    assert IsDnsLabel([97]);
    StepIs(r, 0);
    StepIs(r, 1);
    assert StateAt(Small, Genesis(Pot), r, 0) == Genesis(Pot);
    hide StateAt;
  }

  lemma EventFills()
    ensures StateAt(Small, Genesis(Pot), DoubledSteps(), 5).cells == map[1 := Filled]
  {
    var r := DoubledSteps();
    EventOpens();
    QuietStep(r, 2, NewCell(Terms, None), StartRegistrationCall(1), Now(1));
    StepIs(r, 3);
    StepIs(r, 4);
    hide StateAt, Schedule, DoCall, DoClaim;
    assert StateAt(Small, Genesis(Pot), r, 4).cells[1] == Opened.(status := Registering(1), regs := map[10 := Twice]);
    assert map[10 := Twice][20 := Twice] == Regs;
  }

  lemma ClosedStatus()
    ensures CloseRegistration(Filled, 0) == Change(Some(Closed), 0)
    ensures Closed.status == AwaitingEntropy(2, 2, 0) && Closed.regs == Regs && Closed.info == Terms
    ensures Closed.winners == map[] && Closed.entropy == None
  {
    assert EffectiveWinners(Terms.prize, 2) == 2;
  }

  lemma DrawsBoth()
    ensures DrawBatch(Seeded, 2).released == 0 && DrawBatch(Seeded, 2).next.Some?
    ensures var c := DrawBatch(Seeded, 2).next.value;
      c.regs == Regs && c.info == Terms && c.status.DrawWinners? && c.status.effective == 2 && c.status.added == 2
  {
    ClosedStatus();
    assert |Regs.Keys| == 2 by { assert Regs.Keys == {10, 20}; }
    assert Drawn(Regs, 0, 0) == map[];
    hide DrawBatch, Drawn, Walk;
    DrawBatchExtends(Seeded, 2);
  }

  lemma DoubledToClaiming()
    ensures var s := StateAt(Small, Genesis(Pot), DoubledSteps(), 9);
      && 1 in s.cells && s.cells[1].regs == Regs && s.cells[1].status.Claiming?
      && s.cells[1].status.effective == 2 && s.cells[1].status.claimed == 0
  {
    var r := DoubledSteps();
    EventFills();
    ClosedStatus();
    DrawsBoth();
    hide StateAt, DrawBatch, CloseRegistration;
    var drawn := DrawBatch(Seeded, 2).next.value;
    QuietStep(r, 5, Filled, CloseRegistrationCall(1), Now(2));
    QuietStep(r, 6, Closed, CaptureEntropyCall(1), Now(2));
    QuietStep(r, 7, Seeded, DrawWinnersCall(1), Now(2));
    QuietStep(r, 8, drawn, CloseDrawingCall(1), Now(2));
  }

  lemma DoubledIsRun()
    ensures Run(Small, Pot, DoubledSteps())
  {
    hide StateAt;
  }

  lemma SameEntryTwice(slots: seq<Slot>)
    requires |slots| == 2 && forall s :: s in slots ==> s in Regs
    ensures !DistinctAlong(Regs, slots)
  {
    assert slots[0] in slots && slots[1] in slots;
    assert Regs[slots[0]] == Regs[slots[1]];
  }

  /** When a caller breaks it, a run reaches claiming with fewer winners than the effective count. */
  lemma DoubledEntryLosesAWinner()
    ensures Run(Small, Pot, DoubledSteps())
    ensures var s := After(Small, Pot, DoubledSteps(), 9);
      && 1 in s.cells && s.cells[1].status.Claiming?
      && |s.cells[1].winners| + s.cells[1].status.claimed < s.cells[1].status.effective
  {
    DoubledIsRun();
    DoubledToClaiming();
    var c := After(Small, Pot, DoubledSteps(), 9).cells[1];
    hide StateAt, Run, DoubledSteps, DrawnSlots, Drawn, DistinctAlong;
    ClaimingCountsAgree(Small, Pot, DoubledSteps(), 9, 1);
    SameEntryTwice(DrawnSlots(Regs, c.entropy.value, 2));
    DrawnAtMost(Regs, c.entropy.value, 2);
  }
}
