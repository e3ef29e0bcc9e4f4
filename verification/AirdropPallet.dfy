/**
 The airdrop pallet as the runtime stores it: five tables, the supported assets and the ledger, all
 updated in place. The ghost `model` is the abstract machine; every call keeps the tables in step
 with it and returns what it returns.
 */
module AirdropPallet {
  import opened Common
  import opened StorageOrder
  import opened Labels
  import opened AirdropTypes
  import opened AirdropDraw
  import opened AirdropLedger
  import opened AirdropEvent
  import opened AirdropSystem
  import opened AirdropSafety
  import opened AirdropProgress
  import opened AirdropTables

  lemma NoRegistrations(cfg: Config, c: Cell)
    requires CellInv(cfg, c) && (c.status.Scheduled? || (c.status.Registering? && c.status.participants == 0))
    ensures c.regs == map[] && c.winners == map[] && c.entropy == None
  {
    hide Drawn, EffectiveWinners, WithinCap;
  }

  lemma FinalizingIsEmpty(cfg: Config, c: Cell)
    requires CellInv(cfg, c) && c.status.Finalizing?
    ensures c.regs == map[] && c.winners == map[]
  {
    hide Drawn, EffectiveWinners, WithinCap;
  }

  lemma AwaitingHasNoEntropy(cfg: Config, c: Cell)
    requires CellInv(cfg, c) && (c.status.Registering? || c.status.AwaitingEntropy?)
    ensures c.entropy == None
  {
    hide Drawn, EffectiveWinners, WithinCap;
  }

  lemma ReleaseNothing(cfg: Config, l: Ledger, source: Option<AccountId>, prize: Prize, env: Env)
    ensures ReleaseRemaining(cfg, l, source, prize, 0, env.grant, env.transferOk) == PayBack(l, 0)
  {
  }

  lemma DrawNeverRunsDry(cfg: Config, c: Cell)
    requires CellInv(cfg, c) && c.status.DrawWinners?
    ensures BatchSize(c, cfg.drawLimit) <= |Walk(c.regs.Keys, c.status.cursor)|
    ensures forall s :: s in Walk(c.regs.Keys, c.status.cursor) ==> s in c.regs
    ensures c.entropy.Some? && c.status.added + BatchSize(c, cfg.drawLimit) <= U32_MAX
  {
    hide Drawn, CursorAt, Walk, DrawBatch, BookSound, BookAgrees, EffectiveWinners, WithinCap;
    DrawBatchExtends(c, cfg.drawLimit);
    WalkVisitsKeys(c.regs.Keys, c.status.cursor);
  }

  /** One more slot of the walk crowns one more registrant. */
  lemma CrownNext(w: map<Entry, Slot>, regs: map<Slot, Entry>, walk: seq<Slot>, i: nat)
    requires i < |walk| && forall s :: s in walk ==> s in regs
    ensures walk[i] in regs
    ensures forall s :: s in walk[..i] || s in walk[..i + 1] ==> s in regs
    ensures Crown(w, regs, walk[..i + 1]) == Crown(w, regs, walk[..i])[regs[walk[i]] := walk[i]]
  {
    assert walk[i] in walk;
    assert walk[..i + 1][..i] == walk[..i];
    assert forall s :: s in walk[..i + 1] ==> s in walk;
  }

  /** Settling a change whose effect was written to the tables. */
  lemma SettleCommitted(cfg: Config, t: Tables, s: Sys, id: EventId, ch: Change, env: Env, u: Tables)
    requires Couples(t, s.cells) && id in s.cells && Written(t, u, id, s.cells[id], ch.next)
    ensures var c, after := s.cells[id], Settle(cfg, s, id, ch, env);
      && Couples(u, after.cells)
      && after.supported == s.supported
      && after.ledger
         == ReleaseRemaining(cfg, s.ledger, c.source, c.info.prize, ch.released, env.grant, env.transferOk).ledger
  {
    hide Couples, Written, ReleaseRemaining;
    var c := s.cells[id];
    var p := ReleaseRemaining(cfg, s.ledger, c.source, c.info.prize, ch.released, env.grant, env.transferOk);
    var book := Booked(if ch.next.Some? then ch.next.value.book else c.book, ch.released, p.refunded);
    CoupleWritten(t, s.cells, u, id, ch.next, book);
  }

  lemma CallCommitted(cfg: Config, t: Tables, s: Sys, call: Call, env: Env, u: Tables)
    requires Inv(cfg, s) && Legal(cfg, s, OpCall(call), env) && Couples(t, s.cells) && call.id in s.cells
    requires Authorize(call, s.cells[call.id].status, s.cells[call.id].info, env) == Ok
    requires Written(t, u, call.id, s.cells[call.id], CallChange(cfg, s.cells[call.id], call, env).next)
    ensures var c, after := s.cells[call.id], DoCall(cfg, s, call, env);
      && after.result == Ok && Inv(cfg, after.sys) && Couples(u, after.sys.cells)
      && after.sys.supported == s.supported
      && after.sys.ledger
         == ReleaseRemaining(cfg, s.ledger, c.source, c.info.prize, CallChange(cfg, c, call, env).released,
                             env.grant, env.transferOk).ledger
  {
    CallKeepsInv(cfg, s, call, env);
    assert env.local;
    hide Inv, Couples, Written, ReleaseRemaining, Settle, CallChange, Legal, Authorize;
    SettleCommitted(cfg, t, s, call.id, CallChange(cfg, s.cells[call.id], call, env), env, u);
  }

  lemma CrownNone(w: map<Entry, Slot>, regs: map<Slot, Entry>)
    ensures Crown(w, regs, []) == w
  {
  }

  // ----- migrating -----

  predicate AwaitsRegistrations(status: Status) { status.Scheduled? || status.Registering? }

  /** The translated layout of a stored event: the same event with an empty product name. */
  function Unname(e: ActiveEvent): ActiveEvent {
    ActiveEvent(e.id, e.info.(productName := []), e.status, e.source)
  }

  /** Rewrites every stored event and lists those that still await registrations, each once. */
  method TranslateLoop(order: seq<EventId>, stored: map<EventId, ActiveEvent>)
    returns (events: map<EventId, ActiveEvent>, toCancel: seq<EventId>)
    requires NoDuplicates(order) && forall id :: id in order <==> id in stored
    ensures events.Keys == stored.Keys
    ensures forall id :: id in stored ==> events[id] == Unname(stored[id])
    ensures |toCancel| <= |order| && NoDuplicates(toCancel)
    ensures forall id :: id in toCancel <==> id in stored && AwaitsRegistrations(stored[id].status)
  {
    ghost var done: set<EventId> := {};
    events, toCancel := stored, [];
    var i := 0;
    while i < |order|
      invariant i <= |order| && |toCancel| <= i
      invariant events.Keys == stored.Keys && done <= stored.Keys
      invariant forall k :: 0 <= k < |order| ==> (order[k] in done <==> k < i)
      invariant forall id :: id in stored ==> events[id] == if id in done then Unname(stored[id]) else stored[id]
      invariant forall id :: id in toCancel <==> id in done && AwaitsRegistrations(stored[id].status)
      invariant NoDuplicates(toCancel)
    {
      var id := order[i];
      assert id in order && id !in done;
      if AwaitsRegistrations(events[id].status) {
        toCancel := toCancel + [id];
      }
      events := events[id := Unname(events[id])];
      done := done + {id};
      i := i + 1;
    }
    assert done == stored.Keys by {
      forall id | id in stored ensures id in done {
        assert id in order;
      }
    }
  }

  /** The cancellations of the migration, in order. */
  ghost function CancelAll(cfg: Config, s: Sys, ids: seq<EventId>, envs: seq<Env>): Sys
    requires |ids| <= |envs|
  {
    if ids == [] then s
    else
      var n := |ids| - 1;
      DoCancel(cfg, CancelAll(cfg, s, ids[..n], envs), ids[n], envs[n]).sys
  }

  lemma EventKeys(t: Tables, cells: map<EventId, Cell>, id: EventId)
    requires Couples(t, cells)
    ensures id in t.events <==> id in cells
    ensures id in cells ==> t.events[id].status == cells[id].status
  {
    assert Agrees(t, cells, id);
  }

  lemma TranslateCouples(t: Tables, cells: map<EventId, Cell>, u: Tables)
    requires Couples(t, cells)
    requires u.events.Keys == t.events.Keys
    requires forall id :: id in t.events ==> u.events[id] == Unname(t.events[id])
    requires u == t.(events := u.events)
    ensures Couples(u, UnnamedAll(cells))
  {
    var after := UnnamedAll(cells);
    forall id: EventId ensures Agrees(u, after, id) {
      assert Agrees(t, cells, id);
      if id in cells { assert At(Unnamed(cells[id])) == At(cells[id]); }
    }
  }

  lemma TranslateFrame(s: Sys)
    ensures Translate(s).cells == UnnamedAll(s.cells)
    ensures Translate(s).supported == s.supported && Translate(s).ledger == s.ledger
  {
  }

  // ----- the schedule scan -----

  /** Schedule entries in timestamp order: one per live event, at the time its status dictates. */
  ghost predicate Indexes(entries: seq<(nat, EventId)>, cells: map<EventId, Cell>) {
    && (forall j :: 0 <= j < |entries| ==> entries[j].1 in cells && entries[j].0 == At(cells[entries[j].1]))
    && (forall j, k :: 0 <= j < k < |entries| ==> entries[j].0 <= entries[k].0 && entries[j].1 != entries[k].1)
    && (forall id :: id in cells ==> (At(cells[id]), id) in entries)
  }

  lemma ScheduleIndexes(t: Tables, cells: map<EventId, Cell>, entries: seq<(nat, EventId)>)
    requires Couples(t, cells) && entries == SortedPairs(t.schedule)
    ensures Indexes(entries, cells)
  {
    SortedPairsLists(t.schedule);
    hide SortedPairs;
    forall j | 0 <= j < |entries| ensures entries[j].1 in cells && entries[j].0 == At(cells[entries[j].1]) {
      assert entries[j] in entries;
      assert Agrees(t, cells, entries[j].1);
    }
    forall id | id in cells ensures (At(cells[id]), id) in entries {
      assert Agrees(t, cells, id);
    }
    assert forall j, k :: 0 <= j < k < |entries| ==> Before(entries[j], entries[k]);
  }

  ghost function PickAt(cells: map<EventId, Cell>, entry: (nat, EventId), env: Env): (p: Option<Call>)
    ensures p.Some? ==> p.value.id == entry.1
  {
    if entry.1 in cells then Pick(entry.1, cells[entry.1].status, env) else None
  }

  /** The calls submitted for the first `i` entries. */
  ghost function Picks(cells: map<EventId, Cell>, entries: seq<(nat, EventId)>, i: nat, env: Env): seq<Call>
    requires i <= |entries|
  {
    if i == 0 then []
    else
      var p := PickAt(cells, entries[i - 1], env);
      Picks(cells, entries, i - 1, env) + if p.Some? then [p.value] else []
  }

  lemma {:induction false} PicksMembers(cells: map<EventId, Cell>, entries: seq<(nat, EventId)>, i: nat, env: Env, call: Call)
    requires i <= |entries|
    ensures call in Picks(cells, entries, i, env) <==>
      exists j :: 0 <= j < i && PickAt(cells, entries[j], env) == Some(call)
  {
    hide PickAt;
    if i > 0 {
      PicksMembers(cells, entries, i - 1, env, call);
      assert PickAt(cells, entries[i - 1], env) == Some(call) || PickAt(cells, entries[i - 1], env) != Some(call);
    }
  }

  ghost predicate DistinctIds(calls: seq<Call>) {
    forall j, k :: 0 <= j < k < |calls| ==> calls[j].id != calls[k].id
  }

  lemma DistinctIdsSnoc(calls: seq<Call>, call: Call)
    requires DistinctIds(calls) && forall j :: 0 <= j < |calls| ==> calls[j].id != call.id
    ensures DistinctIds(calls + [call])
  {
    var longer := calls + [call];
    forall j, k | 0 <= j < k < |longer| ensures longer[j].id != longer[k].id {
      assert longer[j] == calls[j];
    }
  }

  lemma {:induction false} PicksDistinct(cells: map<EventId, Cell>, entries: seq<(nat, EventId)>, i: nat, env: Env)
    requires i <= |entries|
    requires forall j, k :: 0 <= j < k < |entries| ==> entries[j].1 != entries[k].1
    ensures DistinctIds(Picks(cells, entries, i, env))
  {
    hide PickAt;
    if i > 0 {
      PicksDistinct(cells, entries, i - 1, env);
      var before, p := Picks(cells, entries, i - 1, env), PickAt(cells, entries[i - 1], env);
      assert Picks(cells, entries, i, env) == before + if p.Some? then [p.value] else [];
      forall k | 0 <= k < |before| ensures before[k].id != entries[i - 1].1 {
        assert before[k] in before;
        PicksMembers(cells, entries, i - 1, env, before[k]);
        var j :| 0 <= j < i - 1 && PickAt(cells, entries[j], env) == Some(before[k]);
        assert entries[j].1 != entries[i - 1].1;
      }
      hide Picks, DistinctIds;
      if p.Some? { DistinctIdsSnoc(before, p.value); }
    }
  }

  /** When the scan stops, at the end or at the first future entry, it has what it wants. */
  lemma ScanDone(cells: map<EventId, Cell>, entries: seq<(nat, EventId)>, i: nat, env: Env, call: Call)
    requires i <= |entries| && Indexes(entries, cells) && forall j :: 0 <= j < i ==> entries[j].0 <= env.now
    requires i == |entries| || env.now < entries[i].0
    ensures call in Picks(cells, entries, i, env) <==> Wanted(cells, call, env)
  {
    hide Picks, Pick;
    PicksMembers(cells, entries, i, env, call);
    if call in Picks(cells, entries, i, env) {
      var j :| 0 <= j < i && PickAt(cells, entries[j], env) == Some(call);
      assert entries[j].1 == call.id;
    }
    if Wanted(cells, call, env) {
      var j :| 0 <= j < |entries| && entries[j] == (At(cells[call.id]), call.id);
      assert j < i;
      assert PickAt(cells, entries[j], env) == Some(call);
    }
  }

  class Pallet {
    const cfg: Config
    var events: map<EventId, ActiveEvent>
    var actionSchedule: set<(nat, EventId)>
    var registrations: map<EventId, map<Slot, Entry>>
    var winners: map<EventId, map<Entry, Slot>>
    var eventEntropy: map<EventId, Slot>
    var supportedAssets: map<AssetId, nat>
    var ledger: Ledger
    ghost var model: Sys

    ghost function Stored(): Tables
      reads this
    {
      Tables(events, actionSchedule, registrations, winners, eventEntropy)
    }

    /** The tables stand for the machine's records, and the machine satisfies its invariant. */
    ghost predicate Valid()
      reads this
    {
      && Couples(Stored(), model.cells)
      && supportedAssets == model.supported
      && ledger == model.ledger
      && Inv(cfg, model)
    }

    constructor (cfg: Config, free: map<(AssetId, AccountId), nat>)
      ensures this.cfg == cfg && model == Genesis(free) && Valid()
    {
      this.cfg := cfg;
      events, actionSchedule, registrations, winners, eventEntropy := map[], {}, map[], map[], map[];
      supportedAssets, ledger := map[], Ledger(map[], free);
      model := Genesis(free);
    }

    // ----- private helpers, stated on the tables they touch -----

    /** `transition`: set the status, and move the schedule entry if its timestamp changes. */
    method Transition(event: ActiveEvent, status: Status) returns (e: ActiveEvent)
      modifies this`actionSchedule
      ensures e == event.(status := status)
      ensures (NextActionAt(event.status, event.info), event.id) in old(actionSchedule) ==>
        actionSchedule == old(actionSchedule) - {(NextActionAt(event.status, event.info), event.id)}
                                              + {(NextActionAt(status, event.info), event.id)}
    {
      var oldTimestamp := NextActionAt(event.status, event.info);
      var newTimestamp := NextActionAt(status, event.info);
      e := event.(status := status);
      if oldTimestamp != newTimestamp {
        actionSchedule := actionSchedule - {(oldTimestamp, event.id)};
        actionSchedule := actionSchedule + {(newTimestamp, event.id)};
      }
    }

    /** `release_remaining_prizes`: best effort, never fails. */
    method ReleaseRemainingPrizes(source: Option<AccountId>, prize: Prize, count: nat, env: Env)
      modifies this`ledger
      ensures ledger == ReleaseRemaining(cfg, old(ledger), source, prize, count, env.grant, env.transferOk).ledger
    {
      if count == 0 { return; }
      var toRelease := MulSat(prize.assetAmount, count, cfg.balanceMax);
      var answer := BestEffort(ledger, prize.assetId, toRelease, env.grant);
      if answer.None? { return; }
      var released := answer.value;
      ledger := Unhold(ledger, cfg.pot, prize.assetId, released);
      if released == 0 { return; }
      if source.Some? {
        var moved := Transfer(ledger, prize.assetId, cfg.pot, source.value, released, env.transferOk);
        if moved.Some? { ledger := moved.value; }
      }
    }

    /** `refund_and_drop_event`. */
    method RefundAndDropEvent(event: ActiveEvent, env: Env)
      modifies this`ledger, this`actionSchedule, this`events
      ensures ledger == ReleaseRemaining(cfg, old(ledger), event.source, event.info.prize,
                                         event.info.prize.maxWinners, env.grant, env.transferOk).ledger
      ensures actionSchedule == old(actionSchedule) - {(NextActionAt(event.status, event.info), event.id)}
      ensures events == old(events) - {event.id}
    {
      ReleaseRemainingPrizes(event.source, event.info.prize, event.info.prize.maxWinners, env);
      actionSchedule := actionSchedule - {(NextActionAt(event.status, event.info), event.id)};
      events := events - {event.id};
    }

    function AuthorizeStored(call: Call, env: Env): Result
      reads this
    {
      if !env.local then Err(TransactionNotLocal)
      else if call.id !in events then Err(UnknownEvent)
      else Authorize(call, events[call.id].status, events[call.id].info, env)
    }

    lemma StoredEvent(id: EventId)
      requires Valid()
      ensures id in events <==> id in model.cells
      ensures id in events ==> HoldsAt(Stored(), id, model.cells[id]) && CellInv(cfg, model.cells[id])
    {
      hide CellInv;
      assert Agrees(Stored(), model.cells, id);
    }

    /** The gate reads the tables and decides as the machine does; a refusal changes nothing. */
    lemma Gate(call: Call, env: Env)
      requires Valid()
      ensures AuthorizeStored(call, env) != Ok ==>
        DoCall(cfg, model, call, env) == Outcome(model, AuthorizeStored(call, env))
      ensures AuthorizeStored(call, env) == Ok ==>
        && call.id in events && call.id in model.cells
        && HoldsAt(Stored(), call.id, model.cells[call.id])
        && CellInv(cfg, model.cells[call.id])
        && Authorize(call, model.cells[call.id].status, model.cells[call.id].info, env) == Ok
    {
      StoredEvent(call.id);
      hide CellInv, Couples, Authorize, Settle, CallChange, Inv;
    }

    // ----- lifecycle calls -----

    method StartRegistrationAuthorized(id: EventId, env: Env) returns (r: Result)
      requires Valid()
      modifies this
      ensures Valid() && Outcome(model, r) == DoCall(cfg, old(model), StartRegistrationCall(id), env)
    {
      hide CellInv, Couples, Inv, DoCall, ReleaseRemaining, Walk, Crown, EffectiveWinners, WithinCap, RowSet;
      ghost var call, t := StartRegistrationCall(id), Stored();
      Gate(call, env);
      r := AuthorizeStored(StartRegistrationCall(id), env);
      if r != Ok { return; }
      var event := events[id];
      event := Transition(event, Registering(0));
      events := events[id := event];
      ReleaseNothing(cfg, ledger, event.source, event.info.prize, env);
      RowKept(t.registrations, id);
      RowKept(t.winners, id);
      CallCommitted(cfg, t, model, call, env, Stored());
      model := DoCall(cfg, model, call, env).sys;
    }

    method CloseRegistrationAuthorized(id: EventId, env: Env) returns (r: Result)
      requires Valid()
      modifies this
      ensures Valid() && Outcome(model, r) == DoCall(cfg, old(model), CloseRegistrationCall(id), env)
    {
      hide CellInv, Couples, Inv, DoCall, ReleaseRemaining, Walk, Crown, EffectiveWinners, WithinCap, RowSet;
      ghost var call, t := CloseRegistrationCall(id), Stored();
      Gate(call, env);
      r := AuthorizeStored(CloseRegistrationCall(id), env);
      if r != Ok { return; }
      var event := events[id];
      var total := event.status.participants;
      if total == 0 {
        NoRegistrations(cfg, model.cells[id]);
        RefundAndDropEvent(event, env);
        CallCommitted(cfg, t, model, call, env, Stored());
      } else {
        var effective := EffectiveWinners(event.info.prize, total);
        var unused := MonusSat(event.info.prize.maxWinners, effective);
        if unused > 0 {
          ReleaseRemainingPrizes(event.source, event.info.prize, unused, env);
        }
        event := Transition(event, AwaitingEntropy(total, effective, env.moment));
        events := events[id := event];
        RowKept(t.registrations, id);
        RowKept(t.winners, id);
        ReleaseNothing(cfg, old(ledger), event.source, event.info.prize, env);
        CallCommitted(cfg, t, model, call, env, Stored());
      }
      model := DoCall(cfg, model, call, env).sys;
    }

    method CaptureEntropyAuthorized(id: EventId, env: Env) returns (r: Result)
      requires Valid()
      modifies this
      ensures Valid() && Outcome(model, r) == DoCall(cfg, old(model), CaptureEntropyCall(id), env)
    {
      hide CellInv, Couples, Inv, DoCall, ReleaseRemaining, Walk, Crown, EffectiveWinners, WithinCap, RowSet;
      ghost var call, t := CaptureEntropyCall(id), Stored();
      Gate(call, env);
      r := AuthorizeStored(CaptureEntropyCall(id), env);
      if r != Ok { return; }
      var event := events[id];
      var target := env.randomness.value.0;
      eventEntropy := eventEntropy[id := target];
      event := Transition(event, DrawWinners(event.status.participants, event.status.effective, 0, target));
      events := events[id := event];
      ReleaseNothing(cfg, ledger, event.source, event.info.prize, env);
      RowKept(t.registrations, id);
      RowKept(t.winners, id);
      CallCommitted(cfg, t, model, call, env, Stored());
      model := DoCall(cfg, model, call, env).sys;
    }

    method DrawWinnersAuthorized(id: EventId, env: Env) returns (r: Result)
      requires Valid()
      modifies this
      ensures Valid() && Outcome(model, r) == DoCall(cfg, old(model), DrawWinnersCall(id), env)
    {
      hide CellInv, Couples, Inv, DoCall, ReleaseRemaining, Walk, Crown, EffectiveWinners, WithinCap, RowSet;
      ghost var call, t := DrawWinnersCall(id), Stored();
      Gate(call, env);
      r := AuthorizeStored(DrawWinnersCall(id), env);
      if r != Ok { return; }
      var event := events[id];
      DrawNeverRunsDry(cfg, model.cells[id]);
      var regs := Row(registrations, id);
      var crowned, cursor, newAdded := DrawLoop(id, regs, event.status, winners);
      winners := crowned;
      var added := AddSat(event.status.added, newAdded, U32_MAX);
      event := event.(status := DrawWinners(event.status.participants, event.status.effective, added, cursor));
      events := events[id := event];
      ReleaseNothing(cfg, ledger, event.source, event.info.prize, env);
      RowKept(t.registrations, id);
      CallCommitted(cfg, t, model, call, env, Stored());
      model := DoCall(cfg, model, call, env).sys;
    }

    /** The loop of `draw_winners_authorized`: it always finds the `capped_remaining` slots it takes. */
    method DrawLoop(id: EventId, regs: map<Slot, Entry>, status: Status, table: map<EventId, map<Entry, Slot>>)
      returns (crowned: map<EventId, map<Entry, Slot>>, cursor: Slot, newAdded: nat)
      requires status.DrawWinners?
      requires forall s :: s in Walk(regs.Keys, status.cursor) ==> s in regs
      requires Min(MonusSat(status.effective, status.added), cfg.drawLimit) <= |Walk(regs.Keys, status.cursor)|
      requires status.added + Min(MonusSat(status.effective, status.added), cfg.drawLimit) <= U32_MAX
      ensures newAdded == Min(MonusSat(status.effective, status.added), cfg.drawLimit)
      ensures var slots := Walk(regs.Keys, status.cursor)[..newAdded];
        && (forall s :: s in slots ==> s in regs)
        && RowSet(table, crowned, id, Crown(Row(table, id), regs, slots))
        && cursor == if slots == [] then status.cursor else slots[newAdded - 1]
    {
      hide Walk, Crown;
      var remaining := MonusSat(status.effective, status.added);
      var capped := Min(remaining, cfg.drawLimit);
      var walk := Walk(regs.Keys, status.cursor);
      crowned, cursor, newAdded := table, status.cursor, 0;
      assert walk[..0] == [];
      assert Crown(Row(table, id), regs, []) == Row(table, id) by { CrownNone(Row(table, id), regs); }
      while newAdded < Min(capped, |walk|)
        invariant newAdded <= capped <= |walk|
        invariant forall s :: s in walk[..newAdded] ==> s in regs
        invariant RowSet(table, crowned, id, Crown(Row(table, id), regs, walk[..newAdded]))
        invariant cursor == if newAdded == 0 then status.cursor else walk[newAdded - 1]
      {
        var nextWinner := walk[newAdded];
        CrownNext(Row(table, id), regs, walk, newAdded);
        crowned := crowned[id := Row(crowned, id)[regs[nextWinner] := nextWinner]];
        cursor := nextWinner;
        newAdded := AddSat(newAdded, 1, U32_MAX);
      }
      assert newAdded == capped;  // the iterator is never exhausted before `capped_remaining`
    }

    method CloseDrawingAuthorized(id: EventId, env: Env) returns (r: Result)
      requires Valid()
      modifies this
      ensures Valid() && Outcome(model, r) == DoCall(cfg, old(model), CloseDrawingCall(id), env)
    {
      hide CellInv, Couples, Inv, DoCall, ReleaseRemaining, Walk, Crown, EffectiveWinners, WithinCap, RowSet;
      ghost var call, t := CloseDrawingCall(id), Stored();
      Gate(call, env);
      r := AuthorizeStored(CloseDrawingCall(id), env);
      if r != Ok { return; }
      var event := events[id];
      event := Transition(event, Claiming(event.status.participants, event.status.effective, 0));
      events := events[id := event];
      ReleaseNothing(cfg, ledger, event.source, event.info.prize, env);
      RowKept(t.registrations, id);
      RowKept(t.winners, id);
      CallCommitted(cfg, t, model, call, env, Stored());
      model := DoCall(cfg, model, call, env).sys;
    }

    method CloseClaimingAuthorized(id: EventId, env: Env) returns (r: Result)
      requires Valid()
      modifies this
      ensures Valid() && Outcome(model, r) == DoCall(cfg, old(model), CloseClaimingCall(id), env)
    {
      hide CellInv, Couples, Inv, DoCall, ReleaseRemaining, Walk, Crown, EffectiveWinners, WithinCap, RowSet;
      ghost var call, t := CloseClaimingCall(id), Stored();
      Gate(call, env);
      r := AuthorizeStored(CloseClaimingCall(id), env);
      if r != Ok { return; }
      var event := events[id];
      event := Transition(event, ClearingRegistrations(event.status.participants, event.status.effective,
                                                       event.status.claimed, 0));
      events := events[id := event];
      ReleaseNothing(cfg, ledger, event.source, event.info.prize, env);
      RowKept(t.registrations, id);
      RowKept(t.winners, id);
      CallCommitted(cfg, t, model, call, env, Stored());
      model := DoCall(cfg, model, call, env).sys;
    }

    method CleanUpRegistrationsAuthorized(id: EventId, env: Env) returns (r: Result)
      requires Valid() && Legal(cfg, model, OpCall(CleanUpRegistrationsCall(id)), env)
      modifies this
      ensures Valid() && Outcome(model, r) == DoCall(cfg, old(model), CleanUpRegistrationsCall(id), env)
    {
      hide CellInv, Couples, Inv, DoCall, ReleaseRemaining, Walk, Crown, EffectiveWinners, WithinCap, RowSet, Legal, Row, Written;
      ghost var call, t := CleanUpRegistrationsCall(id), Stored();
      Gate(call, env);
      r := AuthorizeStored(CleanUpRegistrationsCall(id), env);
      if r != Ok { return; }
      ReleaseNothing(cfg, ledger, model.cells[id].source, model.cells[id].info.prize, env);
      CleanUpRegistrationsInner(id, env.goneSlots, model.cells[id]);
      CallCommitted(cfg, t, model, call, env, Stored());
      model := DoCall(cfg, model, call, env).sys;
    }

    /** `clean_up_registrations_inner`. */
    method CleanUpRegistrationsInner(id: EventId, gone: set<Slot>, ghost c: Cell)
      requires HoldsAt(Stored(), id, c) && c.status.ClearingRegistrations?
      modifies this`events, this`actionSchedule, this`registrations
      ensures Written(old(Stored()), Stored(), id, c, CleanUpRegistrations(c, gone).next)
    {
      hide RowSet, Row;
      ghost var t := Stored();
      var event := events[id];
      var s := event.status;
      var left := Row(registrations, id) - gone;
      registrations := registrations[id := left];
      if left == map[] {
        event := Transition(event, ClearingWinners(s.participants, s.effective, s.claimed, 0));
      } else {
        event := event.(status := ClearingRegistrations(s.participants, s.effective, s.claimed,
                                                        AddSat(s.cleaned, |gone|, U32_MAX)));
      }
      events := events[id := event];
      RowReplaced(t.registrations, id, left);
      RowKept(t.winners, id);
    }

    method CleanUpWinnersAuthorized(id: EventId, env: Env) returns (r: Result)
      requires Valid() && Legal(cfg, model, OpCall(CleanUpWinnersCall(id)), env)
      modifies this
      ensures Valid() && Outcome(model, r) == DoCall(cfg, old(model), CleanUpWinnersCall(id), env)
    {
      hide CellInv, Couples, Inv, DoCall, ReleaseRemaining, Walk, Crown, EffectiveWinners, WithinCap, RowSet, Legal, Row, Written;
      ghost var call, t := CleanUpWinnersCall(id), Stored();
      Gate(call, env);
      r := AuthorizeStored(CleanUpWinnersCall(id), env);
      if r != Ok { return; }
      ReleaseNothing(cfg, ledger, model.cells[id].source, model.cells[id].info.prize, env);
      CleanUpWinnersInner(id, env.goneEntries, model.cells[id]);
      CallCommitted(cfg, t, model, call, env, Stored());
      model := DoCall(cfg, model, call, env).sys;
    }

    /** `clean_up_winners_inner`. */
    method CleanUpWinnersInner(id: EventId, gone: set<Entry>, ghost c: Cell)
      requires HoldsAt(Stored(), id, c) && c.status.ClearingWinners?
      modifies this`events, this`actionSchedule, this`winners
      ensures Written(old(Stored()), Stored(), id, c, CleanUpWinners(c, gone).next)
    {
      hide RowSet, Row;
      ghost var t := Stored();
      var event := events[id];
      var s := event.status;
      var left := Row(winners, id) - gone;
      winners := winners[id := left];
      if left == map[] {
        event := Transition(event, Finalizing(s.effective, s.claimed));
      } else {
        event := event.(status := ClearingWinners(s.participants, s.effective, s.claimed,
                                                  AddSat(s.cleaned, |gone|, U32_MAX)));
      }
      events := events[id := event];
      RowKept(t.registrations, id);
      RowReplaced(t.winners, id, left);
    }

    method FinalizeAuthorized(id: EventId, env: Env) returns (r: Result)
      requires Valid()
      modifies this
      ensures Valid() && Outcome(model, r) == DoCall(cfg, old(model), FinalizeCall(id), env)
    {
      hide CellInv, Couples, Inv, DoCall, ReleaseRemaining, Walk, Crown, EffectiveWinners, WithinCap, RowSet;
      ghost var call, t := FinalizeCall(id), Stored();
      Gate(call, env);
      r := AuthorizeStored(FinalizeCall(id), env);
      if r != Ok { return; }
      var event := events[id];
      FinalizingIsEmpty(cfg, model.cells[id]);
      ReleaseNothing(cfg, ledger, event.source, event.info.prize, env);
      var unclaimed := MonusSat(event.status.effective, event.status.claimed);
      if unclaimed > 0 {
        ReleaseRemainingPrizes(event.source, event.info.prize, unclaimed, env);
      }
      actionSchedule := actionSchedule - {(NextActionAt(event.status, event.info), id)};
      eventEntropy := eventEntropy - {id};
      events := events - {id};
      CallCommitted(cfg, t, model, call, env, Stored());
      model := DoCall(cfg, model, call, env).sys;
    }

    // ----- scheduling, cancelling -----

    /** `do_schedule`. */
    method DoSchedule(id: EventId, info: EventInfo, source: Option<AccountId>, env: Env) returns (r: Result)
      requires Valid()
      modifies this
      ensures Valid() && Outcome(model, r) == Schedule(cfg, old(model), id, info, source, env)
    {
      hide CellInv, Couples, Inv, IsDnsLabel;
      ghost var t := Stored();
      ScheduleKeepsInv(cfg, model, id, info, source, env);
      StoredEvent(id);
      if !IsDnsLabel(info.productName) { return Err(InvalidProductName); }
      if info.prize.maxWinners == 0 { return Err(NoWinnersConfigured); }
      if info.prize.maxWinners > MAX_WINNERS { return Err(TooManyWinners); }
      if !(info.registrationStarts < info.drawTime && info.drawTime < info.endTime) {
        return Err(InvalidEventTimes);
      }
      if info.prize.assetId !in supportedAssets { return Err(AssetNotEnabled); }
      if info.prize.assetAmount < env.minBalance { return Err(PrizeBelowMinBalance); }
      if id in events { return Err(DuplicateEventId); }
      var toHold := info.prize.assetAmount * info.prize.maxWinners;
      if toHold > cfg.balanceMax { return Err(PrizeAllocationOverflow); }
      var held := Hold(ledger, cfg.pot, info.prize.assetId, toHold, env.holdOk);
      if held.None? { return Err(LedgerRefused); }
      ledger := held.value;
      events := events[id := ActiveEvent(id, info, Scheduled, source)];
      actionSchedule := actionSchedule + {(info.registrationStarts, id)};
      CoupleInsert(t, model.cells, Stored(), id, NewCell(info, source));
      model := Schedule(cfg, model, id, info, source, env).sys;
      r := Ok;
    }

    /** `Airdrop::schedule`: a failed inner call restores the ledger. */
    method ScheduleFromSource(source: AccountId, id: EventId, info: EventInfo, env: Env) returns (r: Result)
      requires Valid()
      modifies this
      ensures Valid() && Outcome(model, r) == ScheduleFunded(cfg, old(model), source, id, info, env)
    {
      var toTransfer := info.prize.assetAmount * info.prize.maxWinners;
      hide Couples, IsDnsLabel, CellInv;
      if toTransfer > cfg.balanceMax { return Err(PrizeAllocationOverflow); }
      var moved := Transfer(ledger, info.prize.assetId, source, cfg.pot, toTransfer, env.transferOk);
      if moved.None? { return Err(LedgerRefused); }
      var before := ledger;
      ghost var was := model;
      FreeMovesKeepInv(cfg, model, model.(ledger := moved.value));
      hide Inv;
      ledger := moved.value;
      model := model.(ledger := moved.value);
      r := DoSchedule(id, info, Some(source), env);
      if r != Ok {
        ledger := before;
        model := was;
      }
    }

    method DoRemoveScheduledEvent(id: EventId, env: Env) returns (r: Result)
      requires Valid()
      modifies this
      ensures Valid() && Outcome(model, r) == DoRemoveScheduled(cfg, old(model), id, env)
    {
      hide CellInv, Couples, Inv, ReleaseRemaining;
      ghost var t := Stored();
      StoredEvent(id);
      if id !in events { return Err(NoScheduledEvent); }
      var event := events[id];
      if !event.status.Scheduled? { return Err(WrongStatus); }
      NoRegistrations(cfg, model.cells[id]);
      RefundAndDropEvent(event, env);
      CancelKeepsInv(cfg, model, id, env);
      SettleCommitted(cfg, t, model, id, RemoveScheduled(model.cells[id]), env, Stored());
      hide Settle, Written;
      model := DoRemoveScheduled(cfg, model, id, env).sys;
      r := Ok;
    }

    /** `do_cancel`, which never fails. */
    method CancelEvent(id: EventId, env: Env)
      requires Valid()
      modifies this
      ensures Valid() && model == DoCancel(cfg, old(model), id, env).sys
    {
      hide CellInv, Couples, Inv, ReleaseRemaining, Settle, RowSet, Written;
      ghost var t := Stored();
      StoredEvent(id);
      if id !in events { return; }
      CancelKeepsInv(cfg, model, id, env);
      CancelStored(events[id], env, model.cells[id]);
      SettleCommitted(cfg, t, model, id, Cancel(model.cells[id]), env, Stored());
      model := DoCancel(cfg, model, id, env).sys;
    }

    /** The body of `do_cancel` on a stored event. */
    method CancelStored(stored: ActiveEvent, env: Env, ghost c: Cell)
      requires HoldsAt(Stored(), stored.id, c) && stored == events[stored.id] && CellInv(cfg, c)
      modifies this`events, this`actionSchedule, this`ledger
      ensures Written(old(Stored()), Stored(), stored.id, c, Cancel(c).next)
      ensures ledger == ReleaseRemaining(cfg, old(ledger), c.source, c.info.prize, Cancel(c).released,
                                         env.grant, env.transferOk).ledger
    {
      hide CellInv, ReleaseRemaining, RowSet;
      var id, event := stored.id, stored;
      RowKept(registrations, id);
      RowKept(winners, id);
      ReleaseNothing(cfg, ledger, event.source, event.info.prize, env);
      if event.status.Scheduled? {
        NoRegistrations(cfg, c);
        RefundAndDropEvent(event, env);
      } else if event.status.Registering? {
        ReleaseRemainingPrizes(event.source, event.info.prize, event.info.prize.maxWinners, env);
        event := Transition(event, ClearingRegistrations(event.status.participants, 0, 0, 0));
        events := events[id := event];
      } else if event.status.AwaitingEntropy? || event.status.DrawWinners? {
        event := Transition(event, ClearingRegistrations(event.status.participants, event.status.effective, 0, 0));
        events := events[id := event];
      } else if event.status.Claiming? {
        event := Transition(event, ClearingRegistrations(event.status.participants, event.status.effective,
                                                         event.status.claimed, 0));
        events := events[id := event];
      }
    }

    // ----- participating, claiming -----

    /** `register_slot_in`, behind all three ways of participating. */
    method RegisterSlot(id: EventId, slot: Slot, entry: Entry) returns (r: Result)
      requires Valid()
      modifies this
      ensures Valid() && Outcome(model, r) == DoRegister(old(model), id, slot, entry)
    {
      hide CellInv, Couples, Inv, RowSet;
      ghost var t := Stored();
      StoredEvent(id);
      if id !in events { return Err(UnknownEvent); }
      var event := events[id];
      if !event.status.Registering? { return Err(NotAcceptingRegistrations); }
      if slot in Row(registrations, id) { return Err(EntropySlotTaken); }
      if event.status.participants == U32_MAX { return Err(ParticipantOverflow); }
      event := event.(status := Registering(event.status.participants + 1));
      registrations := registrations[id := Row(registrations, id)[slot := entry]];
      events := events[id := event];
      AwaitingHasNoEntropy(cfg, model.cells[id]);
      RegisterKeepsInv(cfg, model, id, slot, entry);
      RowReplaced(t.registrations, id, Row(t.registrations, id)[slot := entry]);
      RowKept(t.winners, id);
      CoupleWritten(t, model.cells, Stored(), id, Some(Register(model.cells[id], slot, entry)), model.cells[id].book);
      model := DoRegister(model, id, slot, entry).sys;
      r := Ok;
    }

    method ClaimPrize(id: EventId, entry: Entry, beneficiary: AccountId, env: Env) returns (r: Result)
      requires Valid()
      modifies this
      ensures Valid() && Outcome(model, r) == DoClaim(cfg, old(model), id, entry, beneficiary, env)
    {
      hide CellInv, Couples, Inv, RowSet, Transfer, ReleaseExact, Written;
      ghost var t := Stored();
      StoredEvent(id);
      if id !in events { return Err(UnknownEvent); }
      var event := events[id];
      var prize := event.info.prize;
      if !event.status.Claiming? { return Err(NotClaiming); }
      if env.now >= event.info.endTime { return Err(ClaimingWindowClosed); }
      if prize.assetId !in supportedAssets { return Err(AssetNotEnabled); }
      if entry !in Row(winners, id) { return Err(NoSuchWinner); }
      var released := ReleaseExact(ledger, cfg.pot, prize.assetId, prize.assetAmount, env.grant);
      if released.None? { return Err(LedgerRefused); }
      var paid := Transfer(released.value, prize.assetId, cfg.pot, beneficiary, prize.assetAmount, env.transferOk);
      if paid.None? { return Err(LedgerRefused); }
      ledger := paid.value;
      ghost var c := model.cells[id];
      MarkClaimed(id, entry, c);
      ClaimKeepsInv(cfg, model, id, entry, beneficiary, env);
      CoupleWritten(t, model.cells, Stored(), id, Some(Claim(c, entry)), Claim(c, entry).book);
      model := DoClaim(cfg, model, id, entry, beneficiary, env).sys;
      r := Ok;
    }

    /** The winner leaves the table and is counted as claimed. */
    method MarkClaimed(id: EventId, entry: Entry, ghost c: Cell)
      requires HoldsAt(Stored(), id, c) && c.status.Claiming?
      modifies this`events, this`winners
      ensures Written(old(Stored()), Stored(), id, c, Some(Claim(c, entry)))
    {
      hide RowSet, Row;
      ghost var t := Stored();
      var event := events[id];
      winners := winners[id := Row(winners, id) - {entry}];
      event := event.(status := Claiming(event.status.participants, event.status.effective,
                                         AddSat(event.status.claimed, 1, U32_MAX)));
      events := events[id := event];
      RowKept(t.registrations, id);
      RowReplaced(t.winners, id, Row(t.winners, id) - {entry});
    }

    // ----- supported assets -----

    method EnableAsset(asset: AssetId, source: AccountId, env: Env) returns (r: Result)
      requires Valid()
      modifies this
      ensures Valid() && Outcome(model, r) == DoEnableAsset(cfg, old(model), asset, source, env)
    {
      if asset in supportedAssets { return Err(AssetAlreadyEnabled); }
      var moved := Transfer(ledger, asset, source, cfg.pot, env.minBalance, env.transferOk);
      if moved.None? { return Err(LedgerRefused); }
      ledger := moved.value;
      supportedAssets := supportedAssets[asset := env.minBalance];
      FreeMovesKeepInv(cfg, model, DoEnableAsset(cfg, model, asset, source, env).sys);
      hide Inv, Couples;
      model := DoEnableAsset(cfg, model, asset, source, env).sys;
      r := Ok;
    }

    method DisableAsset(asset: AssetId, beneficiary: AccountId, env: Env) returns (r: Result)
      requires Valid()
      modifies this
      ensures Valid() && Outcome(model, r) == DoDisableAsset(cfg, old(model), asset, beneficiary, env)
    {
      if asset !in supportedAssets { return Err(AssetNotEnabled); }
      var moved := Transfer(ledger, asset, cfg.pot, beneficiary, supportedAssets[asset], env.transferOk);
      if moved.None? { return Err(LedgerRefused); }
      ledger := moved.value;
      supportedAssets := supportedAssets - {asset};
      FreeMovesKeepInv(cfg, model, DoDisableAsset(cfg, model, asset, beneficiary, env).sys);
      hide Inv, Couples;
      model := DoDisableAsset(cfg, model, asset, beneficiary, env).sys;
      r := Ok;
    }

    // ----- the offchain worker -----

    /**
     Walks the schedule in timestamp order and stops at the first entry in the future. It submits
     exactly one call for every due event, skipping one that still waits for fresh randomness, and
     each call passes its own authorization on this state.
     */
    method OffchainWorker(block: nat, env: Env) returns (calls: seq<Call>)
      requires Valid() && env.local
      ensures block % cfg.workerInterval != 0 ==> calls == []
      ensures forall call :: call in calls ==> AuthorizeStored(call, env) == Ok
      ensures forall j, k :: 0 <= j < k < |calls| ==> calls[j].id != calls[k].id
      ensures block % cfg.workerInterval == 0 ==>
        forall call :: call in calls <==> Wanted(model.cells, call, env)
    {
      hide Inv, Couples, SortedPairs, Before;
      calls := [];
      if block % cfg.workerInterval != 0 { return; }
      var entries := SortedPairs(actionSchedule);
      ghost var cells := model.cells;
      ScheduleIndexes(Stored(), cells, entries);
      var i := 0;
      while i < |entries|
        invariant i <= |entries|
        invariant calls == Picks(cells, entries, i, env)
        invariant forall j :: 0 <= j < i ==> entries[j].0 <= env.now
        decreases |entries| - i
      {
        var (timestamp, id) := entries[i];
        if timestamp > env.now {
          break;
        }
        StoredEvent(id);
        var call := Pick(id, events[id].status, env);
        if call.Some? {
          calls := calls + [call.value];
        }
        i := i + 1;
      }
      PicksDistinct(cells, entries, i, env);
      forall call ensures call in calls <==> Wanted(cells, call, env) {
        ScanDone(cells, entries, i, env, call);
      }
      hide Picks, Indexes;
      forall call | call in calls ensures AuthorizeStored(call, env) == Ok {
        StoredEvent(call.id);
        PickedIsAuthorized(call.id, cells[call.id].status, cells[call.id].info, env);
      }
    }

    // ----- the v0 to v1 storage migration -----

    /**
     `MigrateToProductContexts`: clear every product name, collecting the events that still await
     registrations, then cancel those. `order` is the storage iteration order and `envs` holds the
     ledger's answers to the cancellations.
     */
    method OnRuntimeUpgrade(order: seq<EventId>, envs: seq<Env>) returns (toCancel: seq<EventId>)
      requires Valid()
      requires NoDuplicates(order) && (forall id :: id in order <==> id in events) && |envs| == |order|
      modifies this
      ensures Valid()
      ensures |toCancel| <= |envs| && model == CancelAll(cfg, Translate(old(model)), toCancel, envs)
      ensures NoDuplicates(toCancel)
      ensures forall id :: id in toCancel <==> id in old(model.cells) && AwaitsRegistrations(old(model.cells)[id].status)
    {
      toCancel := TranslateEvents(order);
      ghost var translated := model;
      hide Inv, Couples, DoCancel;
      var k := 0;
      while k < |toCancel|
        invariant k <= |toCancel|
        invariant Valid() && model == CancelAll(cfg, translated, toCancel[..k], envs)
      {
        CancelEvent(toCancel[k], envs[k]);
        assert toCancel[..k + 1][..k] == toCancel[..k];
        k := k + 1;
      }
      assert toCancel[..k] == toCancel;
    }

    /** The translate pass, event by event. */
    method TranslateEvents(order: seq<EventId>) returns (toCancel: seq<EventId>)
      requires Valid()
      requires NoDuplicates(order) && (forall id :: id in order <==> id in events)
      modifies this
      ensures Valid() && model == Translate(old(model))
      ensures |toCancel| <= |order| && NoDuplicates(toCancel)
      ensures forall id :: id in toCancel <==> id in old(model.cells) && AwaitsRegistrations(old(model.cells)[id].status)
    {
      hide Inv, Couples, Translate;
      ghost var t, cells := Stored(), model.cells;
      events, toCancel := TranslateLoop(order, events);
      TranslateCouples(t, cells, Stored());
      TranslateKeepsInv(cfg, model);
      forall id ensures (id in t.events <==> id in cells) && (id in cells ==> t.events[id].status == cells[id].status) {
        EventKeys(t, cells, id);
      }
      TranslateFrame(model);
      model := Translate(model);
    }
  }
}
