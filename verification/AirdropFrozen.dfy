/** Frozen, then random, over whole runs: the draw uses the table at closing and later entropy. */
module AirdropFrozen {
  import opened Common
  import opened Labels
  import opened AirdropTypes
  import opened AirdropDraw
  import opened AirdropLedger
  import opened AirdropEvent
  import opened AirdropSystem
  import opened AirdropSafety
  import opened AirdropRuns
  import opened AirdropOrigins

  /** The event with its record in the state after `n` steps. */
  ghost predicate Live(h: History, n: nat, id: EventId) {
    n <= |h.steps| && id in After(h.cfg, h.free, h.steps, n).cells
  }

  ghost function At(h: History, n: nat, id: EventId): Cell
    requires Live(h, n, id)
  {
    After(h.cfg, h.free, h.steps, n).cells[id]
  }

  /** One and the same event from state `i` to state `j`. */
  ghost predicate LiveThroughout(h: History, i: nat, j: nat, id: EventId) {
    i <= j && forall m :: i <= m <= j ==> Live(h, m, id)
  }

  // ----- phases only advance -----

  function Rank(s: Status): nat {
    match s
    case Scheduled => 0
    case Registering(_) => 1
    case AwaitingEntropy(_, _, _) => 2
    case DrawWinners(_, _, _, _) => 3
    case Claiming(_, _, _) => 4
    case ClearingRegistrations(_, _, _, _) => 5
    case ClearingWinners(_, _, _, _) => 6
    case Finalizing(_, _) => 7
  }

  lemma CallKeepsRank(cfg: Config, c: Cell, call: Call, env: Env)
    requires Authorize(call, c.status, c.info, env) == Ok
    ensures var d := CallChange(cfg, c, call, env).next; d.Some? ==> Rank(c.status) <= Rank(d.value.status)
  {
    hide DrawBatch, EffectiveWinners, WithinCap;
    if call.DrawWinnersCall? { DrawBatchFrame(c, cfg.drawLimit); }
  }

  lemma SettleKeepsRank(cfg: Config, s: Sys, id: EventId, ch: Change, env: Env, k: EventId)
    requires id in s.cells && k in s.cells
    requires ch.next.Some? ==> Rank(s.cells[id].status) <= Rank(ch.next.value.status)
    ensures var t := Settle(cfg, s, id, ch, env);
      k in t.cells ==> Rank(s.cells[k].status) <= Rank(t.cells[k].status)
  {
    hide ReleaseRemaining, Rank;
  }

  lemma StepKeepsRank(cfg: Config, s: Sys, op: Op, env: Env, k: EventId)
    requires k in s.cells
    ensures var t := Perform(cfg, s, op, env).sys;
      k in t.cells ==> Rank(s.cells[k].status) <= Rank(t.cells[k].status)
  {
    hide Settle, CallChange, Authorize, IsDnsLabel, Transfer, Hold;
    match op
    case OpRemoveScheduled(id) =>
      if id in s.cells { SettleKeepsRank(cfg, s, id, RemoveScheduled(s.cells[id]), env, k); }
    case OpCancel(id) =>
      if id in s.cells { SettleKeepsRank(cfg, s, id, Cancel(s.cells[id]), env, k); }
    case OpCall(call) =>
      if call.id in s.cells && Authorize(call, s.cells[call.id].status, s.cells[call.id].info, env) == Ok {
        CallKeepsRank(cfg, s.cells[call.id], call, env);
        SettleKeepsRank(cfg, s, call.id, CallChange(cfg, s.cells[call.id], call, env), env, k);
      }
    case _ =>
  }

  lemma FrozenIsRank(s: Status)
    ensures Frozen(s) <==> 2 <= Rank(s) <= 4
  {
  }

  lemma FrozenInBetween(a: Status, b: Status, c: Status)
    requires Rank(a) <= Rank(b) <= Rank(c) && Frozen(a) && Frozen(c)
    ensures Frozen(b)
  {
    FrozenIsRank(a);
    FrozenIsRank(b);
    FrozenIsRank(c);
  }

  lemma NextState(h: History, n: nat)
    requires n < |h.steps|
    ensures After(h.cfg, h.free, h.steps, n + 1)
         == Perform(h.cfg, After(h.cfg, h.free, h.steps, n), h.steps[n].op, h.steps[n].env).sys
  {
  }

  /**
   Over any stretch of a run in which an event lives on, its phase only advances, captured entropy
   stays as it is, and between closing and clearing so do its registrations and its closing.
   */
  lemma {:induction false} FrozenOverSegments(h: History, i: nat, j: nat, id: EventId)
    requires Run(h.cfg, h.free, h.steps) && LiveThroughout(h, i, j, id)
    ensures KeepsFrozen(At(h, i, id), At(h, j, id))
    ensures Rank(At(h, i, id).status) <= Rank(At(h, j, id).status)
  {
    hide After, Run, Rank, Frozen;
    assert Live(h, i, id) && Live(h, j, id);
    if i < j {
      assert Live(h, j - 1, id);
      FrozenOverSegments(h, i, j - 1, id);
      Reached(h.cfg, h.free, h.steps, j - 1);
      NextState(h, j - 1);
      hide Inv, Perform;
      var s := After(h.cfg, h.free, h.steps, j - 1);
      StepKeepsFrozen(h.cfg, s, h.steps[j - 1].op, h.steps[j - 1].env, id);
      StepKeepsRank(h.cfg, s, h.steps[j - 1].op, h.steps[j - 1].env, id);
      var a, b, c := At(h, i, id), At(h, j - 1, id), At(h, j, id);
      if Frozen(a.status) && Frozen(c.status) { FrozenInBetween(a.status, b.status, c.status); }
    }
  }

  // ----- where the frozen table and the entropy come from -----

  /** Step `i` closed the registrations that the event still has in state `n`. */
  ghost predicate ClosedAt(h: History, i: nat, n: nat, id: EventId) {
    && i < n <= |h.steps| && LiveThroughout(h, i, n, id)
    && h.steps[i].op == OpCall(CloseRegistrationCall(id)) && Accepted(h, i)
    && At(h, i, id).status.Registering?
    && At(h, n, id).regs == At(h, i, id).regs
    && |At(h, n, id).book.closings| == 1
    && At(h, n, id).book.closings[0].regs == At(h, i, id).regs
    && At(h, n, id).book.closings[0].mark == h.steps[i].env.moment
  }

  /** Step `k` captured the entropy that the event still has in state `n`. */
  ghost predicate CapturedAt(h: History, k: nat, n: nat, id: EventId) {
    && k < n <= |h.steps| && LiveThroughout(h, k, n, id)
    && h.steps[k].op == OpCall(CaptureEntropyCall(id)) && Accepted(h, k)
    && At(h, k, id).status.AwaitingEntropy?
    && h.steps[k].env.randomness.Some?
    && At(h, k, id).status.lastMoment < h.steps[k].env.randomness.value.1
    && At(h, n, id).entropy == Some(h.steps[k].env.randomness.value.0)
  }

  /** Closing registration is what froze the record: the table stays, the closing is the only one. */
  ghost predicate FrozenBy(c: Cell, d: Cell, mark: nat) {
    && c.status.Registering?
    && d.regs == c.regs && |d.book.closings| == 1
    && d.book.closings[0].regs == c.regs && d.book.closings[0].mark == mark
  }

  lemma CallFreezes(cfg: Config, c: Cell, call: Call, env: Env)
    requires CellInv(cfg, c) && Authorize(call, c.status, c.info, env) == Ok && !Frozen(c.status)
    ensures var d := CallChange(cfg, c, call, env).next;
      d.Some? && Frozen(d.value.status) ==> call.CloseRegistrationCall? && FrozenBy(c, d.value, env.moment)
  {
    hide EffectiveWinners, WithinCap, Drawn, CursorAt, Walk, Crown, TablesAgree, BookSound;
  }

  lemma CancelNeverFreezes(c: Cell)
    ensures Cancel(c).next.Some? && Frozen(Cancel(c).next.value.status) ==> Frozen(c.status)
  {
  }

  /** What settling leaves of an event: the change's record with its releases booked, or as it was. */
  lemma SettledRecord(cfg: Config, s: Sys, id: EventId, ch: Change, env: Env, k: EventId)
    requires id in s.cells && k in Settle(cfg, s, id, ch, env).cells
    ensures var d := Settle(cfg, s, id, ch, env).cells[k];
      if k != id then k in s.cells && d == s.cells[k]
      else
        ch.next.Some? && d.status == ch.next.value.status && d.regs == ch.next.value.regs
        && d.book.closings == ch.next.value.book.closings
  {
    hide ReleaseRemaining;
  }

  /** An event gets frozen only by closing its registration. */
  lemma StepFreezes(cfg: Config, s: Sys, op: Op, env: Env, k: EventId)
    requires Inv(cfg, s)
    requires var t := Perform(cfg, s, op, env).sys;
      k in t.cells && Frozen(t.cells[k].status) && !(k in s.cells && Frozen(s.cells[k].status))
    ensures op == OpCall(CloseRegistrationCall(k)) && Perform(cfg, s, op, env).result == Ok && k in s.cells
    ensures FrozenBy(s.cells[k], Perform(cfg, s, op, env).sys.cells[k], env.moment)
  {
    hide CellInv, Settle, CallChange, Authorize, Cancel, Transfer, Hold, IsDnsLabel, Backed, AllFinishedOk;
    match op
    case OpRemoveScheduled(id) => SettledRecord(cfg, s, id, RemoveScheduled(s.cells[id]), env, k);
    case OpCancel(id) =>
      CancelNeverFreezes(s.cells[id]);
      SettledRecord(cfg, s, id, Cancel(s.cells[id]), env, k);
    case OpCall(call) =>
      SettledRecord(cfg, s, call.id, CallChange(cfg, s.cells[call.id], call, env), env, k);
      if k == call.id { CallFreezes(cfg, s.cells[k], call, env); }
    case _ =>
  }

  /** An event gets entropy only by capturing it. */
  lemma StepCaptures(cfg: Config, s: Sys, op: Op, env: Env, k: EventId)
    requires var t := Perform(cfg, s, op, env).sys;
      k in t.cells && t.cells[k].entropy.Some? && !(k in s.cells && s.cells[k].entropy.Some?)
    ensures op == OpCall(CaptureEntropyCall(k)) && Perform(cfg, s, op, env).result == Ok
    ensures k in s.cells && s.cells[k].status.AwaitingEntropy?
    ensures env.randomness.Some? && s.cells[k].status.lastMoment < env.randomness.value.1
    ensures Perform(cfg, s, op, env).sys.cells[k].entropy == Some(env.randomness.value.0)
  {
    hide EffectiveWinners, WithinCap, Walk, Crown, ReleaseRemaining, Transfer, Hold, IsDnsLabel;
  }

  lemma ClosedLater(h: History, i: nat, n: nat, m: nat, id: EventId)
    requires Run(h.cfg, h.free, h.steps) && ClosedAt(h, i, n, id) && LiveThroughout(h, n, m, id)
    requires Frozen(At(h, n, id).status) && Frozen(At(h, m, id).status)
    ensures ClosedAt(h, i, m, id)
  {
    hide After, Run, Frozen;
    FrozenOverSegments(h, n, m, id);
    assert Live(h, m, id);
  }

  lemma {:induction false} ClosingExists(h: History, n: nat, id: EventId)
    requires Run(h.cfg, h.free, h.steps) && Live(h, n, id) && Frozen(At(h, n, id).status)
    ensures exists i: nat :: ClosedAt(h, i, n, id)
  {
    hide Run, Frozen, StateAt, Perform, Inv, Rank;
    if n == 0 {
      NothingAtFirst(h, id);
    } else {
      var s := After(h.cfg, h.free, h.steps, n - 1);
      NextState(h, n - 1);
      Reached(h.cfg, h.free, h.steps, n - 1);
      if Live(h, n - 1, id) && Frozen(At(h, n - 1, id).status) {
        ClosingExists(h, n - 1, id);
        var i: nat :| ClosedAt(h, i, n - 1, id);
        ClosedLater(h, i, n - 1, n, id);
      } else {
        StepFreezes(h.cfg, s, h.steps[n - 1].op, h.steps[n - 1].env, id);
        assert ClosedAt(h, n - 1, n, id);
      }
    }
  }

  lemma NothingAtFirst(h: History, id: EventId)
    ensures !Live(h, 0, id)
  {
  }

  lemma CapturedLater(h: History, k: nat, n: nat, m: nat, id: EventId)
    requires Run(h.cfg, h.free, h.steps) && CapturedAt(h, k, n, id) && LiveThroughout(h, n, m, id)
    ensures CapturedAt(h, k, m, id)
  {
    hide After, Run, Frozen;
    FrozenOverSegments(h, n, m, id);
    assert Live(h, m, id);
  }

  lemma {:induction false} CaptureExists(h: History, n: nat, id: EventId)
    requires Run(h.cfg, h.free, h.steps) && Live(h, n, id) && At(h, n, id).entropy.Some?
    ensures exists k: nat :: CapturedAt(h, k, n, id)
  {
    hide Run, Frozen, StateAt, Perform, Inv, Rank;
    if n == 0 {
      NothingAtFirst(h, id);
    } else {
      var s := After(h.cfg, h.free, h.steps, n - 1);
      NextState(h, n - 1);
      if Live(h, n - 1, id) && At(h, n - 1, id).entropy.Some? {
        CaptureExists(h, n - 1, id);
        var k: nat :| CapturedAt(h, k, n - 1, id);
        CapturedLater(h, k, n - 1, n, id);
      } else {
        StepCaptures(h.cfg, s, h.steps[n - 1].op, h.steps[n - 1].env, id);
        assert CapturedAt(h, n - 1, n, id);
      }
    }
  }

  lemma MarkIsStored(cfg: Config, c: Cell)
    requires CellInv(cfg, c) && c.status.AwaitingEntropy?
    ensures |c.book.closings| == 1 && c.book.closings[0].mark == c.status.lastMoment
  {
    hide TablesAgree, BookSound;
  }

  /**
   Frozen, then random. In every run, an event that has entropy while it is drawing or claiming got
   it by one call of that run, from a value produced after the moment recorded by an earlier call
   that closed its registration; and its registrations are those present at that closing.
   */
  lemma FrozenThenRandom(h: History, n: nat, id: EventId)
    requires Run(h.cfg, h.free, h.steps) && Live(h, n, id)
    requires At(h, n, id).entropy.Some? && Frozen(At(h, n, id).status)
    ensures exists i: nat, k: nat ::
      && ClosedAt(h, i, n, id) && CapturedAt(h, k, n, id) && i < k
      && h.steps[i].env.moment < h.steps[k].env.randomness.value.1
  {
    hide Run, After, Inv;
    CaptureExists(h, n, id);
    var k: nat :| CapturedAt(h, k, n, id);
    assert Live(h, k, id) && Frozen(At(h, k, id).status);
    ClosingExists(h, k, id);
    var i: nat :| ClosedAt(h, i, k, id);
    ClosedLater(h, i, k, n, id);
    Reached(h.cfg, h.free, h.steps, k);
    LiveInv(h, k, id);
    MarkIsStored(h.cfg, At(h, k, id));
    assert ClosedAt(h, i, n, id) && CapturedAt(h, k, n, id) && i < k;
  }

  lemma LiveInv(h: History, n: nat, id: EventId)
    requires Live(h, n, id) && Inv(h.cfg, After(h.cfg, h.free, h.steps, n))
    ensures CellInv(h.cfg, At(h, n, id))
  {
    hide CellInv, Backed, AllFinishedOk, StateAt;
  }
}
