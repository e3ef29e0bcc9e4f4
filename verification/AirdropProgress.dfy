/** The offchain worker's choice of calls and why it drives every event to removal. */
module AirdropProgress {
  import opened Common
  import opened Labels
  import opened AirdropTypes
  import opened AirdropLedger
  import opened AirdropDraw
  import opened AirdropEvent
  import opened AirdropSystem
  import opened AirdropSafety

  /** The call the worker submits for a due event, if any. */
  function Pick(id: EventId, status: Status, env: Env): Option<Call> {
    match status
    case Scheduled => Some(StartRegistrationCall(id))
    case Registering(_) => Some(CloseRegistrationCall(id))
    case AwaitingEntropy(_, _, lastMoment) =>
      if Fresh(env, lastMoment) then Some(CaptureEntropyCall(id)) else None
    case DrawWinners(_, effective, added, _) =>
      if added == effective then Some(CloseDrawingCall(id)) else Some(DrawWinnersCall(id))
    case Claiming(_, _, _) => Some(CloseClaimingCall(id))
    case ClearingRegistrations(_, _, _, _) => Some(CleanUpRegistrationsCall(id))
    case ClearingWinners(_, _, _, _) => Some(CleanUpWinnersCall(id))
    case Finalizing(_, _) => Some(FinalizeCall(id))
  }

  predicate Due(status: Status, info: EventInfo, now: nat) { NextActionAt(status, info) <= now }

  /** The worker should submit `call`: its event is live and due, and this is the call to pick. */
  ghost predicate Wanted(cells: map<EventId, Cell>, call: Call, env: Env) {
    && call.id in cells
    && Due(cells[call.id].status, cells[call.id].info, env.now)
    && Pick(call.id, cells[call.id].status, env) == Some(call)
  }

  /** The worker and the gate agree: what it submits for a due event passes `authorize_*`. */
  lemma PickedIsAuthorized(id: EventId, status: Status, info: EventInfo, env: Env)
    requires env.local && Due(status, info, env.now) && Pick(id, status, env).Some?
    ensures Pick(id, status, env).value.id == id
    ensures Authorize(Pick(id, status, env).value, status, info, env) == Ok
  {
  }

  /** Past its end, with randomness fresher than its watermark, every event has a call to submit. */
  lemma PastEndAlwaysPicked(id: EventId, status: Status, info: EventInfo, env: Env)
    requires info.registrationStarts < info.drawTime < info.endTime <= env.now
    ensures Due(status, info, env.now)
    ensures Pick(id, status, env).Some? <==> (status.AwaitingEntropy? ==> Fresh(env, status.lastMoment))
  {
  }

  // ----- work left, in worker calls -----

  /** How many entries a clean-up call is sure to remove, if there are so many: 1 up to the clear limit. */
  type Rate = r: nat | r > 0 witness 1

  /** Calls that drain `n` entries; finding none left takes one call, too. */
  function Batches(n: nat, rate: Rate): nat { Max(1, CeilDiv(n, rate)) }

  /** An upper bound on the worker calls an event still needs, batch by batch and phase by phase. */
  function Fuel(cfg: Config, rate: Rate, c: Cell): nat {
    match c.status
    case Scheduled => 6 + Unclosed(cfg, rate, c)
    case Registering(_) => 5 + Unclosed(cfg, rate, c)
    case AwaitingEntropy(_, effective, _) =>
      4 + Batches(|c.regs|, rate) + Batches(effective, rate) + CeilDiv(effective, cfg.drawLimit)
    case DrawWinners(_, effective, added, _) =>
      3 + Batches(|c.regs|, rate) + Batches(effective, rate) + CeilDiv(MonusSat(effective, added), cfg.drawLimit)
    case Claiming(_, _, _) => 2 + Batches(|c.regs|, rate) + Batches(|c.winners|, rate)
    case ClearingRegistrations(_, _, _, _) => 1 + Batches(|c.regs|, rate) + Batches(|c.winners|, rate)
    case ClearingWinners(_, _, _, _) => 1 + Batches(|c.winners|, rate)
    case Finalizing(_, _) => 1
  }

  /** The batches of an event whose registration count is still open. */
  function Unclosed(cfg: Config, rate: Rate, c: Cell): nat {
    Batches(U32_MAX, rate) + Batches(c.info.prize.maxWinners, rate) + CeilDiv(c.info.prize.maxWinners, cfg.drawLimit)
  }

  lemma BatchesMonotone(a: nat, b: nat, rate: Rate)
    requires a <= b
    ensures Batches(a, rate) <= Batches(b, rate)
  {
    hide CeilDiv;
    CeilDivMonotone(a, b, rate);
  }

  /** Removing `rate` entries, with some left, saves a call. */
  lemma BatchesSpend(n: nat, left: nat, rate: Rate)
    requires 0 < left && left + Min(rate, n) <= n
    ensures Batches(left, rate) < Batches(n, rate)
  {
    hide CeilDiv;
    CeilDivStep(n, rate);
    CeilDivMonotone(left, MonusSat(n, rate), rate);
    CeilDivMonotone(1, left, rate);
    CeilDivStep(1, rate);
  }

  lemma FuelPositive(cfg: Config, rate: Rate, c: Cell)
    ensures Fuel(cfg, rate, c) >= 1
  {
    hide Batches, CeilDiv;
  }

  ghost predicate Spends(cfg: Config, rate: Rate, c: Cell, ch: Change) {
    ch.next.None? || Fuel(cfg, rate, ch.next.value) < Fuel(cfg, rate, c)
  }

  ghost predicate NeverAdds(cfg: Config, rate: Rate, c: Cell, ch: Change) {
    ch.next.None? || Fuel(cfg, rate, ch.next.value) <= Fuel(cfg, rate, c)
  }

  lemma DrawSpends(cfg: Config, rate: Rate, c: Cell)
    requires CellInv(cfg, c) && c.status.DrawWinners?
    ensures NeverAdds(cfg, rate, c, DrawBatch(c, cfg.drawLimit))
    ensures c.status.added != c.status.effective ==> Spends(cfg, rate, c, DrawBatch(c, cfg.drawLimit))
  {
    hide Drawn, CursorAt, Walk, DrawBatch, BookSound, BookAgrees, EffectiveWinners, WithinCap, CeilDiv, Batches;
    DrawBatchExtends(c, cfg.drawLimit);
    var remaining := MonusSat(c.status.effective, c.status.added);
    if remaining > 0 { CeilDivStep(remaining, cfg.drawLimit); }
  }

  lemma CloseDrawingSpends(cfg: Config, rate: Rate, c: Cell)
    requires CellInv(cfg, c) && c.status.DrawWinners? && c.status.added == c.status.effective
    ensures Spends(cfg, rate, c, CloseDrawing(c))
  {
    hide Drawn, CursorAt, BookSound, BookAgrees, EffectiveWinners, WithinCap, CeilDiv, Batches;
    DrawnAtMost(c.regs, c.entropy.value, c.status.added);
    BatchesMonotone(|c.winners|, c.status.effective, rate);
  }

  lemma CloseRegistrationSpends(cfg: Config, rate: Rate, c: Cell, mark: nat)
    requires CellInv(cfg, c) && c.status.Registering?
    ensures Spends(cfg, rate, c, CloseRegistration(c, mark))
  {
    hide BookSound, BookAgrees, CeilDiv, Batches;
    if c.status.participants > 0 {
      EffectiveBounds(c.info.prize, c.status.participants);
      var effective := EffectiveWinners(c.info.prize, c.status.participants);
      BatchesMonotone(|c.regs|, U32_MAX, rate);
      BatchesMonotone(effective, c.info.prize.maxWinners, rate);
      CeilDivMonotone(effective, c.info.prize.maxWinners, cfg.drawLimit);
    }
  }

  /** A clean-up call keeps its phase and adds no work; if it removes a batch, it spends a call. */
  lemma CleanUpRegistrationsSpends(cfg: Config, rate: Rate, c: Cell, gone: set<Slot>)
    requires c.status.ClearingRegistrations? && gone <= c.regs.Keys
    ensures NeverAdds(cfg, rate, c, CleanUpRegistrations(c, gone))
    ensures |gone| >= Min(rate, |c.regs|) ==> Spends(cfg, rate, c, CleanUpRegistrations(c, gone))
    ensures CleanUpRegistrations(c, gone).next.value.status.ClearingRegistrations?
         || Spends(cfg, rate, c, CleanUpRegistrations(c, gone))
  {
    hide CeilDiv, Batches;
    Emptied(c.regs, gone);
    var left := c.regs - gone;
    BatchesMonotone(|left|, |c.regs|, rate);
    BatchesPositive(|c.regs|, rate);
    if left != map[] && |gone| >= Min(rate, |c.regs|) {
      NonEmptySize(left);
      BatchesSpend(|c.regs|, |left|, rate);
    }
  }

  lemma CleanUpWinnersSpends(cfg: Config, rate: Rate, c: Cell, gone: set<Entry>)
    requires c.status.ClearingWinners? && gone <= c.winners.Keys
    ensures NeverAdds(cfg, rate, c, CleanUpWinners(c, gone))
    ensures |gone| >= Min(rate, |c.winners|) ==> Spends(cfg, rate, c, CleanUpWinners(c, gone))
    ensures CleanUpWinners(c, gone).next.value.status.ClearingWinners?
         || Spends(cfg, rate, c, CleanUpWinners(c, gone))
  {
    hide CeilDiv, Batches;
    Emptied(c.winners, gone);
    var left := c.winners - gone;
    BatchesMonotone(|left|, |c.winners|, rate);
    BatchesPositive(|c.winners|, rate);
    if left != map[] && |gone| >= Min(rate, |c.winners|) {
      NonEmptySize(left);
      BatchesSpend(|c.winners|, |left|, rate);
    }
  }

  lemma BatchesPositive(n: nat, rate: Rate)
    ensures Batches(n, rate) >= 1
  {
  }

  lemma NonEmptySize<K, V>(m: map<K, V>)
    requires m != map[]
    ensures |m| > 0
  {
    assert |m.Keys| > 0;
  }

  /** A clean-up call removes at least a batch, or what is left. */
  predicate Drains(rate: Rate, c: Cell, call: Call, env: Env) {
    && (call.CleanUpRegistrationsCall? ==> |env.goneSlots| >= Min(rate, |c.regs|))
    && (call.CleanUpWinnersCall? ==> |env.goneEntries| >= Min(rate, |c.winners|))
  }

  /** An authorized call never adds work, and a call the worker would pick removes some if it drains. */
  lemma CallSpends(cfg: Config, rate: Rate, c: Cell, call: Call, env: Env)
    requires CellInv(cfg, c) && Authorize(call, c.status, c.info, env) == Ok
    requires call.CleanUpRegistrationsCall? ==> env.goneSlots <= c.regs.Keys
    requires call.CleanUpWinnersCall? ==> env.goneEntries <= c.winners.Keys
    ensures NeverAdds(cfg, rate, c, CallChange(cfg, c, call, env))
    ensures Pick(call.id, c.status, env) == Some(call) && Drains(rate, c, call, env) ==>
      Spends(cfg, rate, c, CallChange(cfg, c, call, env))
    ensures Pick(call.id, c.status, env) == Some(call) && !call.CleanUpRegistrationsCall? && !call.CleanUpWinnersCall? ==>
      Spends(cfg, rate, c, CallChange(cfg, c, call, env))
  {
    hide CellInv, DrawBatch, CloseRegistration, CleanUpRegistrations, CleanUpWinners, CloseDrawing, CeilDiv, Batches;
    match call
    case CloseRegistrationCall(_) => CloseRegistrationSpends(cfg, rate, c, env.moment);
    case DrawWinnersCall(_) => DrawSpends(cfg, rate, c);
    case CloseDrawingCall(_) => CloseDrawingSpends(cfg, rate, c);
    case CleanUpRegistrationsCall(_) => CleanUpRegistrationsSpends(cfg, rate, c, env.goneSlots);
    case CleanUpWinnersCall(_) => CleanUpWinnersSpends(cfg, rate, c, env.goneEntries);
    case CaptureEntropyCall(_) =>
    case StartRegistrationCall(_) =>
    case CloseClaimingCall(_) =>
    case FinalizeCall(_) =>
  }

  /** Cancelling never adds work, and removes some unless the event already terminates. */
  lemma CancelNeverAdds(cfg: Config, rate: Rate, c: Cell)
    requires CellInv(cfg, c)
    ensures NeverAdds(cfg, rate, c, Cancel(c))
    ensures Spends(cfg, rate, c, Cancel(c)) || Cancel(c).next == Some(c)
  {
    hide Drawn, CursorAt, BookSound, BookAgrees, EffectiveWinners, WithinCap, CeilDiv, Batches;
    if c.status.DrawWinners? {
      DrawnAtMost(c.regs, c.entropy.value, c.status.added);
      BatchesMonotone(|c.winners|, c.status.effective, rate);
    } else if c.status.Registering? {
      BatchesMonotone(|c.regs|, U32_MAX, rate);
      BatchesMonotone(0, c.info.prize.maxWinners, rate);
    } else if c.status.AwaitingEntropy? {
      BatchesMonotone(0, c.status.effective, rate);
    }
  }

  lemma RegisterNeverAdds(cfg: Config, rate: Rate, c: Cell, slot: Slot, entry: Entry)
    requires c.status.Registering?
    ensures Fuel(cfg, rate, Register(c, slot, entry)) == Fuel(cfg, rate, c)
  {
    hide CeilDiv, Batches;
  }

  lemma ClaimNeverAdds(cfg: Config, rate: Rate, c: Cell, entry: Entry)
    requires c.status.Claiming? && entry in c.winners
    ensures Fuel(cfg, rate, Claim(c, entry)) <= Fuel(cfg, rate, c)
  {
    hide CeilDiv, Batches;
    Emptied(c.winners, {entry});
    BatchesMonotone(|c.winners - {entry}|, |c.winners|, rate);
  }

  lemma UnnamedFuel(cfg: Config, rate: Rate, c: Cell)
    ensures Fuel(cfg, rate, Unnamed(c)) == Fuel(cfg, rate, c)
  {
    hide CeilDiv, Batches;
  }

  /** The step is the worker's call for the live, due event `id`, and drains at the rate. */
  ghost predicate Serves(rate: Rate, s: Sys, step: Step, id: EventId) {
    && id in s.cells
    && step.env.local
    && Due(s.cells[id].status, s.cells[id].info, step.env.now)
    && step.op.OpCall?
    && Pick(id, s.cells[id].status, step.env) == Some(step.op.call)
    && Drains(rate, s.cells[id], step.op.call, step.env)
  }

  lemma SettleFuel(cfg: Config, rate: Rate, s: Sys, id: EventId, ch: Change, env: Env, k: EventId)
    requires id in s.cells && k in s.cells && NeverAdds(cfg, rate, s.cells[id], ch)
    ensures var t := Settle(cfg, s, id, ch, env);
      k in t.cells ==> Fuel(cfg, rate, t.cells[k]) <= Fuel(cfg, rate, s.cells[k])
    ensures var t := Settle(cfg, s, id, ch, env);
      Spends(cfg, rate, s.cells[id], ch) ==> id !in t.cells || Fuel(cfg, rate, t.cells[id]) < Fuel(cfg, rate, s.cells[id])
  {
    hide ReleaseRemaining, CeilDiv, Batches;
  }

  /** No step adds work to a live event, and serving it removes some. */
  lemma StepFuel(cfg: Config, rate: Rate, s: Sys, step: Step, k: EventId)
    requires Inv(cfg, s) && Legal(cfg, s, step.op, step.env) && k in s.cells
    ensures var t := Perform(cfg, s, step.op, step.env).sys;
      k in t.cells ==>
        && Fuel(cfg, rate, t.cells[k]) <= Fuel(cfg, rate, s.cells[k])
        && (Serves(rate, s, step, k) ==> Fuel(cfg, rate, t.cells[k]) < Fuel(cfg, rate, s.cells[k]))
  {
    hide CellInv, Settle, CallChange, Authorize, Backed, AllFinishedOk, IsDnsLabel, Fuel, NeverAdds, Spends, Drains;
    match step.op
    case OpRemoveScheduled(id) => if id in s.cells { CancelFuel(cfg, rate, s, id, step.env, k); }
    case OpCancel(id) => if id in s.cells { CancelFuel(cfg, rate, s, id, step.env, k); }
    case OpCall(call) => CallFuel(cfg, rate, s, call, step.env, k);
    case OpRegister(id, slot, entry) =>
      if id in s.cells && s.cells[id].status.Registering? { RegisterNeverAdds(cfg, rate, s.cells[id], slot, entry); }
    case OpClaim(id, entry, _) =>
      if id in s.cells && s.cells[id].status.Claiming? && entry in s.cells[id].winners {
        ClaimNeverAdds(cfg, rate, s.cells[id], entry);
      }
    case OpTranslate => UnnamedFuel(cfg, rate, s.cells[k]);
    case _ =>
  }

  lemma CancelFuel(cfg: Config, rate: Rate, s: Sys, id: EventId, env: Env, k: EventId)
    requires Inv(cfg, s) && id in s.cells && k in s.cells
    ensures var t := Settle(cfg, s, id, Cancel(s.cells[id]), env);
      k in t.cells ==> Fuel(cfg, rate, t.cells[k]) <= Fuel(cfg, rate, s.cells[k])
  {
    hide CellInv, Backed, AllFinishedOk;
    CancelNeverAdds(cfg, rate, s.cells[id]);
    SettleFuel(cfg, rate, s, id, Cancel(s.cells[id]), env, k);
  }

  lemma CallFuel(cfg: Config, rate: Rate, s: Sys, call: Call, env: Env, k: EventId)
    requires Inv(cfg, s) && Legal(cfg, s, OpCall(call), env) && k in s.cells
    ensures var t := DoCall(cfg, s, call, env).sys;
      k in t.cells ==>
        && Fuel(cfg, rate, t.cells[k]) <= Fuel(cfg, rate, s.cells[k])
        && (Serves(rate, s, Step(OpCall(call), env), k) ==> Fuel(cfg, rate, t.cells[k]) < Fuel(cfg, rate, s.cells[k]))
  {
    hide CellInv, Settle, CallChange, Authorize, Backed, AllFinishedOk, Fuel, NeverAdds, Spends, Drains;
    if Serves(rate, s, Step(OpCall(call), env), k) {
      PickedIsAuthorized(k, s.cells[k].status, s.cells[k].info, env);
    }
    if call.id in s.cells && Authorize(call, s.cells[call.id].status, s.cells[call.id].info, env) == Ok {
      CallSpends(cfg, rate, s.cells[call.id], call, env);
      SettleFuel(cfg, rate, s, call.id, CallChange(cfg, s.cells[call.id], call, env), env, k);
    }
  }

  /** How many of the first `n` steps served `id`. */
  ghost function ServedBy(cfg: Config, rate: Rate, s: Sys, steps: seq<Step>, n: nat, id: EventId): nat
    requires n <= |steps|
  {
    if n == 0 then 0
    else ServedBy(cfg, rate, s, steps, n - 1, id) + if Serves(rate, StateAt(cfg, s, steps, n - 1), steps[n - 1], id) then 1 else 0
  }

  ghost predicate GoneWithin(cfg: Config, s: Sys, steps: seq<Step>, n: nat, id: EventId)
    requires n <= |steps|
  {
    exists m :: 0 <= m <= n && id !in StateAt(cfg, s, steps, m).cells
  }

  lemma {:induction false} FuelRunsOut(cfg: Config, rate: Rate, s: Sys, steps: seq<Step>, n: nat, id: EventId)
    requires Inv(cfg, s) && LegalRun(cfg, s, steps) && n <= |steps| && id in s.cells
    ensures GoneWithin(cfg, s, steps, n, id) ||
      (id in StateAt(cfg, s, steps, n).cells &&
       Fuel(cfg, rate, StateAt(cfg, s, steps, n).cells[id]) + ServedBy(cfg, rate, s, steps, n, id) <= Fuel(cfg, rate, s.cells[id]))
  {
    hide Inv, Perform, Serves, Legal, Fuel;
    if n > 0 {
      FuelRunsOut(cfg, rate, s, steps, n - 1, id);
      var t := StateAt(cfg, s, steps, n - 1);
      RunKeepsInv(cfg, s, steps, n - 1);
      if id in t.cells { StepFuel(cfg, rate, t, steps[n - 1], id); }
      assert id in StateAt(cfg, s, steps, n).cells || GoneWithin(cfg, s, steps, n, id);
    }
  }

  /**
   Progress. However registrations, claims, cancellations and other events' steps interleave, an
   event is removed by the time the worker's call for it was included `Fuel` times.
   */
  lemma WorkerFinishesEveryEvent(cfg: Config, rate: Rate, s: Sys, steps: seq<Step>, id: EventId)
    requires Inv(cfg, s) && LegalRun(cfg, s, steps) && id in s.cells
    requires ServedBy(cfg, rate, s, steps, |steps|, id) >= Fuel(cfg, rate, s.cells[id])
    ensures GoneWithin(cfg, s, steps, |steps|, id)
  {
    hide Inv, LegalRun, GoneWithin, StateAt, ServedBy, Fuel;
    FuelRunsOut(cfg, rate, s, steps, |steps|, id);
    var t := StateAt(cfg, s, steps, |steps|);
    if id in t.cells { FuelPositive(cfg, rate, t.cells[id]); }
  }
}
