/** What the v0 to v1 storage migration of the airdrop pallet leaves behind. */
module AirdropMigration {
  import opened Common
  import opened AirdropTypes
  import opened AirdropLedger
  import opened AirdropEvent
  import opened AirdropSystem
  import opened AirdropSafety
  import opened AirdropPallet

  /** A surviving event: renamed, and sent to clean-up with its prizes released if it was registering. */
  ghost predicate MigratedTo(c: Cell, d: Cell) {
    && d.info == EventInfo([], c.info.prize, c.info.registrationStarts, c.info.drawTime, c.info.endTime)
    && d.source == c.source
    && d.regs == c.regs && d.winners == c.winners && d.entropy == c.entropy
    && d.book.paid == c.book.paid && d.book.closings == c.book.closings && d.book.captures == c.book.captures
    && if c.status.Registering? then
         && d.status == ClearingRegistrations(c.status.participants, 0, 0, 0)
         && d.book.released == c.book.released + c.info.prize.maxWinners
       else d.status == c.status && d.book.released == c.book.released && d.book.refunded == c.book.refunded
  }

  /** The events cancelled so far are gone or clearing, the others only lost their name. */
  ghost predicate PartlyMigrated(cells: map<EventId, Cell>, done: set<EventId>, after: map<EventId, Cell>) {
    && (forall id :: id in after <==> id in cells && !(id in done && cells[id].status.Scheduled?))
    && (forall id :: id in after ==> if id in done then MigratedTo(cells[id], after[id]) else after[id] == Unnamed(cells[id]))
  }

  lemma CancelOne(cfg: Config, cells: map<EventId, Cell>, done: set<EventId>, s: Sys, id: EventId, env: Env)
    requires PartlyMigrated(cells, done, s.cells) && id in cells && id !in done && AwaitsRegistrations(cells[id].status)
    ensures PartlyMigrated(cells, done + {id}, DoCancel(cfg, s, id, env).sys.cells)
  {
    hide ReleaseRemaining;
    assert s.cells[id] == Unnamed(cells[id]);
  }

  lemma NothingMigrated(cells: map<EventId, Cell>)
    ensures PartlyMigrated(cells, {}, UnnamedAll(cells))
  {
  }

  lemma {:induction false} CancelAllMigrates(cfg: Config, cells: map<EventId, Cell>, s: Sys, ids: seq<EventId>, envs: seq<Env>)
    requires |ids| <= |envs| && NoDuplicates(ids)
    requires forall k :: 0 <= k < |ids| ==> ids[k] in cells && AwaitsRegistrations(cells[ids[k]].status)
    requires s.cells == UnnamedAll(cells)
    ensures PartlyMigrated(cells, Elements(ids), CancelAll(cfg, s, ids, envs).cells)
  {
    hide PartlyMigrated, DoCancel, Unnamed, AwaitsRegistrations;
    if ids == [] {
      NothingMigrated(cells);
      assert Elements(ids) == {};
    } else {
      var n := |ids| - 1;
      CancelAllMigrates(cfg, cells, s, ids[..n], envs);
      ElementsLast(ids);
      hide Elements;
      CancelOne(cfg, cells, Elements(ids[..n]), CancelAll(cfg, s, ids[..n], envs), ids[n], envs[n]);
    }
  }

  lemma ElementsLast(ids: seq<EventId>)
    requires ids != [] && NoDuplicates(ids)
    ensures var n := |ids| - 1;
      ids[n] !in Elements(ids[..n]) && Elements(ids) == Elements(ids[..n]) + {ids[n]}
  {
    assert ids == ids[..|ids| - 1] + [ids[|ids| - 1]];
  }

  lemma {:induction false} CancelAllKeepsInv(cfg: Config, s: Sys, ids: seq<EventId>, envs: seq<Env>)
    requires Inv(cfg, s) && |ids| <= |envs|
    ensures Inv(cfg, CancelAll(cfg, s, ids, envs))
  {
    hide Inv, DoCancel;
    if ids != [] {
      var n := |ids| - 1;
      CancelAllKeepsInv(cfg, s, ids[..n], envs);
      CancelKeepsInv(cfg, CancelAll(cfg, s, ids[..n], envs), ids[n], envs[n]);
    }
  }

  /**
   After the migration no event awaits registrations, exactly the scheduled ones are gone, every
   survivor has an empty product name, and the pot still backs what is owed.
   */
  lemma MigrationComplete(cfg: Config, s: Sys, ids: seq<EventId>, envs: seq<Env>)
    requires Inv(cfg, s) && |ids| <= |envs| && NoDuplicates(ids)
    requires forall id :: id in ids <==> id in s.cells && AwaitsRegistrations(s.cells[id].status)
    ensures var after := CancelAll(cfg, Translate(s), ids, envs);
      && Inv(cfg, after)
      && (forall id :: id in after.cells <==> id in s.cells && !s.cells[id].status.Scheduled?)
      && (forall id :: id in after.cells ==>
            && !AwaitsRegistrations(after.cells[id].status)
            && after.cells[id].info.productName == []
            && MigratedTo(s.cells[id], after.cells[id]))
  {
    hide Inv, DoCancel;
    TranslateKeepsInv(cfg, s);
    CancelAllKeepsInv(cfg, Translate(s), ids, envs);
    assert forall k :: 0 <= k < |ids| ==> ids[k] in ids;
    CancelAllMigrates(cfg, s.cells, Translate(s), ids, envs);
  }
}
