/**
 From worker ticks to removal. A tick reads one state and submits the calls it wants; they are
 included later, among any other steps. Every tick past an event's end costs that event some work.
 */
module AirdropTicks {
  import opened Common
  import opened Labels
  import opened AirdropTypes
  import opened AirdropLedger
  import opened AirdropDraw
  import opened AirdropEvent
  import opened AirdropSystem
  import opened AirdropSafety
  import opened AirdropProgress

  /** A block at or after the tick: the clock and the randomness source did not go back. */
  predicate Later(env: Env, e: Env) {
    && e.local
    && env.now <= e.now
    && (env.randomness.Some? ==> e.randomness.Some? && env.randomness.value.1 <= e.randomness.value.1)
  }

  // ----- a tick applied at once -----

  /** A call leaves every other event as it is. */
  lemma CallTouchesOne(cfg: Config, s: Sys, call: Call, env: Env, k: EventId)
    requires k != call.id
    ensures var t := DoCall(cfg, s, call, env).sys;
      (k in t.cells <==> k in s.cells) && (k in s.cells ==> t.cells[k] == s.cells[k])
  {
    hide ReleaseRemaining, CallChange, Authorize;
  }

  /** The steps include the calls of a tick one after another, each in a block at or after it. */
  ghost predicate Includes(steps: seq<Step>, calls: seq<Call>, env: Env) {
    && |steps| == |calls|
    && (forall i :: 0 <= i < |calls| ==> steps[i].op == OpCall(calls[i]) && Later(env, steps[i].env))
  }

  lemma {:induction false} WaitingEventsStay(cfg: Config, s: Sys, steps: seq<Step>, calls: seq<Call>, env: Env, i: nat, k: EventId)
    requires Includes(steps, calls, env) && i <= |calls| && forall j :: 0 <= j < i ==> calls[j].id != k
    ensures var t := StateAt(cfg, s, steps, i);
      (k in t.cells <==> k in s.cells) && (k in s.cells ==> t.cells[k] == s.cells[k])
  {
    hide Later, DoCall;
    if i > 0 {
      WaitingEventsStay(cfg, s, steps, calls, env, i - 1, k);
      CallTouchesOne(cfg, StateAt(cfg, s, steps, i - 1), calls[i - 1], steps[i - 1].env, k);
    }
  }

  lemma LaterSameGate(id: EventId, status: Status, info: EventInfo, env: Env, e: Env)
    requires Later(env, e) && Due(status, info, env.now) && Pick(id, status, env).Some?
    ensures Pick(id, status, e) == Pick(id, status, env)
    ensures e.local && Due(status, info, e.now)
  {
  }

  /** The calls of one tick, applied in order, are each still authorized when their turn comes. */
  lemma TickStaysAuthorized(cfg: Config, s: Sys, steps: seq<Step>, calls: seq<Call>, env: Env, i: nat)
    requires Includes(steps, calls, env) && i < |calls|
    requires forall j :: 0 <= j < |calls| ==> Wanted(s.cells, calls[j], env)
    requires forall j, k :: 0 <= j < k < |calls| ==> calls[j].id != calls[k].id
    ensures var t := StateAt(cfg, s, steps, i);
      && calls[i].id in s.cells && calls[i].id in t.cells && t.cells[calls[i].id] == s.cells[calls[i].id]
      && Authorize(calls[i], t.cells[calls[i].id].status, t.cells[calls[i].id].info, steps[i].env) == Ok
  {
    hide Authorize, Later, Due, Pick, StateAt;
    var k := calls[i].id;
    WaitingEventsStay(cfg, s, steps, calls, env, i, k);
    LaterSameGate(k, s.cells[k].status, s.cells[k].info, env, steps[i].env);
    PickedIsAuthorized(k, s.cells[k].status, s.cells[k].info, steps[i].env);
  }

  // ----- a tick whose calls are included among other steps -----

  /** A call passes its gate only as the worker's own pick, or as a draw that is already complete. */
  lemma AuthorizedIsPicked(call: Call, status: Status, info: EventInfo, env: Env)
    requires Authorize(call, status, info, env) == Ok
    ensures Pick(call.id, status, env) == Some(call)
         || (call.DrawWinnersCall? && status.DrawWinners? && status.added == status.effective)
  {
  }

  /** The worker picks the same call for both, whatever the counts in them. */
  predicate SamePick(s: Status, t: Status) {
    || s == t
    || (s.Registering? && t.Registering?)
    || (s.Claiming? && t.Claiming?)
    || (s.ClearingRegistrations? && t.ClearingRegistrations?)
    || (s.ClearingWinners? && t.ClearingWinners?)
  }

  /** The event still waits for the call it was picked for. */
  ghost predicate StillPicked(c: Cell, d: Cell) {
    && d.info.registrationStarts == c.info.registrationStarts
    && d.info.drawTime == c.info.drawTime && d.info.endTime == c.info.endTime
    && SamePick(c.status, d.status)
  }

  /** An action costs its event work, or leaves it waiting for the same call. */
  ghost predicate CostsOrWaits(cfg: Config, rate: Rate, c: Cell, d: Cell) {
    && d.info.endTime == c.info.endTime
    && Fuel(cfg, rate, d) <= Fuel(cfg, rate, c)
    && (Fuel(cfg, rate, d) < Fuel(cfg, rate, c) || StillPicked(c, d))
  }

  lemma StillPickedSame(c: Cell, d: Cell, id: EventId, env: Env)
    requires StillPicked(c, d)
    ensures Due(d.status, d.info, env.now) <==> Due(c.status, c.info, env.now)
    ensures Pick(id, d.status, env) == Pick(id, c.status, env)
  {
  }

  lemma CompleteDrawWaits(cfg: Config, rate: Rate, c: Cell)
    requires CellInv(cfg, c) && c.status.DrawWinners? && c.status.added == c.status.effective
    ensures CostsOrWaits(cfg, rate, c, DrawBatch(c, cfg.drawLimit).next.value)
  {
    hide Drawn, CursorAt, Walk, DrawBatch, BookSound, BookAgrees, EffectiveWinners, WithinCap, CeilDiv, Batches;
    DrawBatchExtends(c, cfg.drawLimit);
  }

  lemma ChangeKeepsInfo(cfg: Config, c: Cell, call: Call, env: Env)
    requires Authorize(call, c.status, c.info, env) == Ok
    ensures var next := CallChange(cfg, c, call, env).next; next.Some? ==> next.value.info == c.info
  {
    hide Walk, Crown, EffectiveWinners, WithinCap;
  }

  lemma CleanUpCostsOrWaits(cfg: Config, rate: Rate, c: Cell, call: Call, env: Env)
    requires Authorize(call, c.status, c.info, env) == Ok && (call.CleanUpRegistrationsCall? || call.CleanUpWinnersCall?)
    requires call.CleanUpRegistrationsCall? ==> env.goneSlots <= c.regs.Keys
    requires call.CleanUpWinnersCall? ==> env.goneEntries <= c.winners.Keys
    ensures CostsOrWaits(cfg, rate, c, CallChange(cfg, c, call, env).next.value)
  {
    hide Fuel;
    ChangeKeepsInfo(cfg, c, call, env);
    if call.CleanUpRegistrationsCall? {
      CleanUpRegistrationsSpends(cfg, rate, c, env.goneSlots);
    } else {
      CleanUpWinnersSpends(cfg, rate, c, env.goneEntries);
    }
  }

  lemma CallCostsOrWaits(cfg: Config, rate: Rate, c: Cell, call: Call, env: Env)
    requires CellInv(cfg, c) && Authorize(call, c.status, c.info, env) == Ok
    requires call.CleanUpRegistrationsCall? ==> env.goneSlots <= c.regs.Keys
    requires call.CleanUpWinnersCall? ==> env.goneEntries <= c.winners.Keys
    ensures var next := CallChange(cfg, c, call, env).next; next.Some? ==> CostsOrWaits(cfg, rate, c, next.value)
  {
    hide CellInv, Fuel, CallChange;
    AuthorizedIsPicked(call, c.status, c.info, env);
    if call.CleanUpRegistrationsCall? || call.CleanUpWinnersCall? {
      CleanUpCostsOrWaits(cfg, rate, c, call, env);
    } else {
      CallSpends(cfg, rate, c, call, env);
      ChangeKeepsInfo(cfg, c, call, env);
    }
    hide Authorize, Pick;
    if call.DrawWinnersCall? && c.status.DrawWinners? && c.status.added == c.status.effective {
      CompleteDrawWaits(cfg, rate, c);
      DrawCallChange(cfg, c, call, env);
    }
  }

  lemma DrawCallChange(cfg: Config, c: Cell, call: Call, env: Env)
    requires call.DrawWinnersCall? && Authorize(call, c.status, c.info, env) == Ok
    ensures CallChange(cfg, c, call, env) == DrawBatch(c, cfg.drawLimit)
  {
    hide DrawBatch;
  }

  lemma CancelKeepsInfo(c: Cell)
    ensures Cancel(c).next.Some? ==> Cancel(c).next.value.info == c.info
  {
  }

  lemma CancelCostsOrWaits(cfg: Config, rate: Rate, c: Cell)
    requires CellInv(cfg, c)
    ensures Cancel(c).next.Some? ==> CostsOrWaits(cfg, rate, c, Cancel(c).next.value)
  {
    CancelKeepsInfo(c);
    hide CellInv, Fuel, Cancel;
    CancelNeverAdds(cfg, rate, c);
  }

  lemma SettleCostsOrWaits(cfg: Config, rate: Rate, s: Sys, id: EventId, ch: Change, env: Env, k: EventId)
    requires id in s.cells && k in s.cells && (ch.next.Some? ==> CostsOrWaits(cfg, rate, s.cells[id], ch.next.value))
    ensures var t := Settle(cfg, s, id, ch, env); k in t.cells ==> CostsOrWaits(cfg, rate, s.cells[k], t.cells[k])
  {
    hide ReleaseRemaining, CeilDiv, Batches;
  }

  /** Whatever the step, it costs a live event work or leaves it waiting for the same call. */
  lemma StepCostsOrWaits(cfg: Config, rate: Rate, s: Sys, step: Step, k: EventId)
    requires Inv(cfg, s) && Legal(cfg, s, step.op, step.env) && k in s.cells
    ensures var t := Perform(cfg, s, step.op, step.env).sys;
      k in t.cells ==> CostsOrWaits(cfg, rate, s.cells[k], t.cells[k])
  {
    hide CellInv, Settle, CallChange, Authorize, Backed, AllFinishedOk, IsDnsLabel, Fuel, Cancel;
    match step.op
    case OpRemoveScheduled(id) =>
      if id in s.cells { SettleCostsOrWaits(cfg, rate, s, id, RemoveScheduled(s.cells[id]), step.env, k); }
    case OpCancel(id) =>
      if id in s.cells {
        CancelCostsOrWaits(cfg, rate, s.cells[id]);
        SettleCostsOrWaits(cfg, rate, s, id, Cancel(s.cells[id]), step.env, k);
      }
    case OpCall(call) =>
      if call.id in s.cells && Authorize(call, s.cells[call.id].status, s.cells[call.id].info, step.env) == Ok {
        CallCostsOrWaits(cfg, rate, s.cells[call.id], call, step.env);
        SettleCostsOrWaits(cfg, rate, s, call.id, CallChange(cfg, s.cells[call.id], call, step.env), step.env, k);
      }
    case OpRegister(id, slot, entry) =>
      if id in s.cells && s.cells[id].status.Registering? { RegisterNeverAdds(cfg, rate, s.cells[id], slot, entry); }
    case OpClaim(id, entry, _) =>
      if id in s.cells && s.cells[id].status.Claiming? && entry in s.cells[id].winners {
        ClaimNeverAdds(cfg, rate, s.cells[id], entry);
      }
    case OpTranslate => UnnamedFuel(cfg, rate, s.cells[k]);
    case _ =>
  }

  lemma CostsOrWaitsTrans(cfg: Config, rate: Rate, c: Cell, d: Cell, e: Cell)
    requires CostsOrWaits(cfg, rate, c, d) && CostsOrWaits(cfg, rate, d, e)
    ensures CostsOrWaits(cfg, rate, c, e)
  {
    hide Fuel;
  }

  lemma {:induction false} SegmentCostsOrWaits(cfg: Config, rate: Rate, s: Sys, steps: seq<Step>, a: nat, b: nat, id: EventId)
    requires Inv(cfg, s) && LegalRun(cfg, s, steps) && a <= b <= |steps| && id in StateAt(cfg, s, steps, a).cells
    ensures GoneWithin(cfg, s, steps, b, id) ||
      (id in StateAt(cfg, s, steps, b).cells &&
       CostsOrWaits(cfg, rate, StateAt(cfg, s, steps, a).cells[id], StateAt(cfg, s, steps, b).cells[id]))
  {
    hide Inv, Perform, Legal, Fuel, CostsOrWaits;
    if a == b {
      CostsNothing(cfg, rate, StateAt(cfg, s, steps, a).cells[id]);
    } else {
      SegmentCostsOrWaits(cfg, rate, s, steps, a, b - 1, id);
      RunKeepsInv(cfg, s, steps, b - 1);
      var t, u := StateAt(cfg, s, steps, b - 1), StateAt(cfg, s, steps, b);
      if id in t.cells { StepCostsOrWaits(cfg, rate, t, steps[b - 1], id); }
      if id in t.cells && id in u.cells && !GoneWithin(cfg, s, steps, b, id) {
        CostsOrWaitsTrans(cfg, rate, StateAt(cfg, s, steps, a).cells[id], t.cells[id], u.cells[id]);
      }
    }
  }

  lemma CostsNothing(cfg: Config, rate: Rate, c: Cell)
    ensures CostsOrWaits(cfg, rate, c, c)
  {
    hide Fuel;
  }

  /** Every call the tick at step `a` wants is included before step `b`, in a block at or after the tick. */
  ghost predicate TickIncluded(cfg: Config, rate: Rate, s: Sys, steps: seq<Step>, a: nat, b: nat, env: Env)
    requires a <= b <= |steps|
  {
    forall call: Call :: Wanted(StateAt(cfg, s, steps, a).cells, call, env) ==>
      exists j: nat :: a <= j < b && IncludedAt(cfg, rate, s, steps, j, call, env)
  }

  /** A clean-up call finds a block in which it removes a batch at the rate. */
  ghost predicate IncludedAt(cfg: Config, rate: Rate, s: Sys, steps: seq<Step>, j: nat, call: Call, env: Env) {
    && j < |steps| && steps[j].op == OpCall(call) && Later(env, steps[j].env)
    && (call.id in StateAt(cfg, s, steps, j).cells ==>
          Drains(rate, StateAt(cfg, s, steps, j).cells[call.id], call, steps[j].env))
  }

  /** Past its end, and with randomness fresher than its watermark if it waits for that. */
  ghost predicate Ripe(c: Cell, env: Env) {
    c.info.endTime <= env.now && (c.status.AwaitingEntropy? ==> Fresh(env, c.status.lastMoment))
  }

  lemma RipeIsWanted(cfg: Config, s: Sys, id: EventId, env: Env)
    requires Inv(cfg, s) && id in s.cells && Ripe(s.cells[id], env)
    ensures exists call: Call :: call.id == id && Wanted(s.cells, call, env)
  {
    hide TablesAgree, BookSound, BookAgrees, Backed, AllFinishedOk;
    var c := s.cells[id];
    assert CellInv(cfg, c);
    PastEndAlwaysPicked(id, c.status, c.info, env);
    var call := Pick(id, c.status, env).value;
    assert call.id == id && Wanted(s.cells, call, env);
  }

  /**
   One tick. An event past its end at a tick whose calls get included, among whatever other steps,
   is gone when the last of them was, or has less work left than at the tick.
   */
  lemma TickCostsWork(cfg: Config, rate: Rate, s: Sys, steps: seq<Step>, a: nat, b: nat, env: Env, id: EventId)
    requires Inv(cfg, s) && LegalRun(cfg, s, steps) && a <= b <= |steps| && id in StateAt(cfg, s, steps, a).cells
    requires TickIncluded(cfg, rate, s, steps, a, b, env) && Ripe(StateAt(cfg, s, steps, a).cells[id], env)
    ensures GoneWithin(cfg, s, steps, b, id) ||
      (id in StateAt(cfg, s, steps, b).cells &&
       Fuel(cfg, rate, StateAt(cfg, s, steps, b).cells[id]) < Fuel(cfg, rate, StateAt(cfg, s, steps, a).cells[id]))
  {
    hide Inv, Perform, Legal, Fuel, CostsOrWaits, Ripe, Wanted, IncludedAt, StateAt;
    var c := StateAt(cfg, s, steps, a).cells[id];
    RunKeepsInv(cfg, s, steps, a);
    RipeIsWanted(cfg, StateAt(cfg, s, steps, a), id, env);
    var call: Call :| call.id == id && Wanted(StateAt(cfg, s, steps, a).cells, call, env);
    var j: nat :| a <= j < b && IncludedAt(cfg, rate, s, steps, j, call, env);
    SegmentCostsOrWaits(cfg, rate, s, steps, a, j, id);
    if id in StateAt(cfg, s, steps, j).cells && !GoneWithin(cfg, s, steps, j, id) {
      InclusionCosts(cfg, rate, s, steps, a, j, env, call);
      if id in StateAt(cfg, s, steps, j + 1).cells {
        SegmentCostsOrWaits(cfg, rate, s, steps, j + 1, b, id);
        if id in StateAt(cfg, s, steps, b).cells && !GoneWithin(cfg, s, steps, b, id) {
          NeverDearer(cfg, rate, StateAt(cfg, s, steps, j + 1).cells[id], StateAt(cfg, s, steps, b).cells[id]);
        }
      }
    }
    GoneStays(cfg, s, steps, j, b, id);
    assert j + 1 <= b && id !in StateAt(cfg, s, steps, j + 1).cells ==> GoneWithin(cfg, s, steps, b, id);
  }

  lemma GoneStays(cfg: Config, s: Sys, steps: seq<Step>, j: nat, b: nat, id: EventId)
    requires j <= b <= |steps|
    ensures GoneWithin(cfg, s, steps, j, id) ==> GoneWithin(cfg, s, steps, b, id)
  {
    hide StateAt;
  }

  lemma NeverDearer(cfg: Config, rate: Rate, c: Cell, d: Cell)
    requires CostsOrWaits(cfg, rate, c, d)
    ensures Fuel(cfg, rate, d) <= Fuel(cfg, rate, c) && d.info.endTime == c.info.endTime
  {
    hide Fuel;
  }

  lemma InclusionCosts(cfg: Config, rate: Rate, s: Sys, steps: seq<Step>, a: nat, j: nat, env: Env, call: Call)
    requires Inv(cfg, s) && LegalRun(cfg, s, steps) && a <= j && IncludedAt(cfg, rate, s, steps, j, call, env)
    requires call.id in StateAt(cfg, s, steps, a).cells && call.id in StateAt(cfg, s, steps, j).cells
    requires Wanted(StateAt(cfg, s, steps, a).cells, call, env)
    requires CostsOrWaits(cfg, rate, StateAt(cfg, s, steps, a).cells[call.id], StateAt(cfg, s, steps, j).cells[call.id])
    ensures var u := StateAt(cfg, s, steps, j + 1);
      call.id in u.cells ==> Fuel(cfg, rate, u.cells[call.id]) < Fuel(cfg, rate, StateAt(cfg, s, steps, a).cells[call.id])
  {
    hide Inv, Legal, Fuel, Pick, Due, Perform;
    var id, t := call.id, StateAt(cfg, s, steps, j);
    var c, d := StateAt(cfg, s, steps, a).cells[id], t.cells[id];
    RunKeepsInv(cfg, s, steps, j);
    StepFuel(cfg, rate, t, steps[j], id);
    if StillPicked(c, d) {
      StillPickedSame(c, d, id, env);
      LaterSameGate(id, d.status, d.info, env, steps[j].env);
      assert Serves(rate, t, steps[j], id);
    }
  }

  // ----- many ticks -----

  /** Tick `k` reads the state before step `at[k]`; its calls are included before the next tick. */
  ghost predicate Ticks(cfg: Config, rate: Rate, s: Sys, steps: seq<Step>, at: seq<nat>, envs: seq<Env>) {
    && |at| == |envs| + 1
    && (forall k :: 0 <= k < |envs| ==> at[k] <= at[k + 1])
    && (forall k :: 0 <= k < |at| ==> at[k] <= |steps|)
    && (forall k :: 0 <= k < |envs| ==> TickIncluded(cfg, rate, s, steps, at[k], at[k + 1], envs[k]))
  }

  /** At every tick the clock is past `end`, and an event that waits for randomness has it. */
  ghost predicate RipeThroughout(cfg: Config, rate: Rate, s: Sys, steps: seq<Step>, at: seq<nat>, envs: seq<Env>, id: EventId, end: nat)
    requires Ticks(cfg, rate, s, steps, at, envs)
  {
    forall k :: 0 <= k < |envs| ==>
      && end <= envs[k].now
      && (id in StateAt(cfg, s, steps, at[k]).cells ==>
            var c := StateAt(cfg, s, steps, at[k]).cells[id];
            c.status.AwaitingEntropy? ==> Fresh(envs[k], c.status.lastMoment))
  }

  lemma {:induction false} TicksUseUpFuel(cfg: Config, rate: Rate, s: Sys, steps: seq<Step>, at: seq<nat>, envs: seq<Env>, id: EventId, k: nat)
    requires Inv(cfg, s) && LegalRun(cfg, s, steps) && id in s.cells && Ticks(cfg, rate, s, steps, at, envs) && k <= |envs|
    requires RipeThroughout(cfg, rate, s, steps, at, envs, id, s.cells[id].info.endTime)
    ensures GoneWithin(cfg, s, steps, at[k], id) ||
      (id in StateAt(cfg, s, steps, at[k]).cells &&
       StateAt(cfg, s, steps, at[k]).cells[id].info.endTime == s.cells[id].info.endTime &&
       Fuel(cfg, rate, StateAt(cfg, s, steps, at[k]).cells[id]) + k <= Fuel(cfg, rate, s.cells[id]))
  {
    hide Inv, LegalRun, Fuel, CostsOrWaits, GoneWithin, TickIncluded;
    if k == 0 {
      StartsHere(cfg, s, steps);
      SegmentCostsOrWaits(cfg, rate, s, steps, 0, at[0], id);
      if !GoneWithin(cfg, s, steps, at[0], id) {
        NeverDearer(cfg, rate, s.cells[id], StateAt(cfg, s, steps, at[0]).cells[id]);
      }
    } else {
      TicksUseUpFuel(cfg, rate, s, steps, at, envs, id, k - 1);
      GoneStays(cfg, s, steps, at[k - 1], at[k], id);
      if !GoneWithin(cfg, s, steps, at[k], id) {
        TickCostsWork(cfg, rate, s, steps, at[k - 1], at[k], envs[k - 1], id);
        SegmentCostsOrWaits(cfg, rate, s, steps, at[k - 1], at[k], id);
        NeverDearer(cfg, rate, StateAt(cfg, s, steps, at[k - 1]).cells[id], StateAt(cfg, s, steps, at[k]).cells[id]);
      }
    }
  }

  lemma StartsHere(cfg: Config, s: Sys, steps: seq<Step>)
    ensures StateAt(cfg, s, steps, 0) == s
  {
  }

  /**
   Progress by ticks. Once the clock is past an event's end, the event is gone after at most `Fuel`
   ticks, whatever else happens between them, provided the calls of each tick are included before
   the next and a tick that finds the event waiting for randomness finds fresh randomness.
   */
  lemma TicksFinishEveryEvent(cfg: Config, rate: Rate, s: Sys, steps: seq<Step>, at: seq<nat>, envs: seq<Env>, id: EventId)
    requires Inv(cfg, s) && LegalRun(cfg, s, steps) && id in s.cells && Ticks(cfg, rate, s, steps, at, envs)
    requires RipeThroughout(cfg, rate, s, steps, at, envs, id, s.cells[id].info.endTime)
    requires |envs| >= Fuel(cfg, rate, s.cells[id])
    ensures GoneWithin(cfg, s, steps, |steps|, id)
  {
    hide Inv, LegalRun, Fuel, GoneWithin, StateAt, TickIncluded, RipeThroughout;
    TicksUseUpFuel(cfg, rate, s, steps, at, envs, id, |envs|);
    var t := StateAt(cfg, s, steps, at[|envs|]);
    if id in t.cells { FuelPositive(cfg, rate, t.cells[id]); }
    GoneStays(cfg, s, steps, at[|envs|], |steps|, id);
  }
}
