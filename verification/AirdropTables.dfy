/** The pallet's five storage tables and how they stand for the abstract records. */
module AirdropTables {
  import opened Common
  import opened AirdropTypes
  import opened AirdropEvent

  /** `Events`, `ActionSchedule`, `Registrations`, `Winners` and `EventEntropy`. */
  datatype Tables = Tables(
    events: map<EventId, ActiveEvent>,
    schedule: set<(nat, EventId)>,
    registrations: map<EventId, map<Slot, Entry>>,
    winners: map<EventId, map<Entry, Slot>>,
    entropy: map<EventId, Slot>)

  /** The entries of a double map under its first key. */
  function Row<K, V>(m: map<EventId, map<K, V>>, id: EventId): map<K, V> {
    if id in m then m[id] else map[]
  }

  function At(c: Cell): nat { NextActionAt(c.status, c.info) }

  function Record(id: EventId, c: Cell): ActiveEvent { ActiveEvent(id, c.info, c.status, c.source) }

  /** The tables hold one event's record, its one schedule entry, its rows and its entropy. */
  ghost predicate HoldsAt(t: Tables, id: EventId, c: Cell) {
    && id in t.events && t.events[id] == Record(id, c)
    && (forall at: nat :: (at, id) in t.schedule <==> at == At(c))
    && Row(t.registrations, id) == c.regs
    && Row(t.winners, id) == c.winners
    && (id in t.entropy <==> c.entropy.Some?)
    && (id in t.entropy ==> c.entropy == Some(t.entropy[id]))
  }

  /** The tables hold nothing under the identifier, so it can be scheduled again. */
  ghost predicate NothingAt(t: Tables, id: EventId) {
    && id !in t.events
    && (forall at: nat :: (at, id) !in t.schedule)
    && Row(t.registrations, id) == map[]
    && Row(t.winners, id) == map[]
    && id !in t.entropy
  }

  ghost predicate Agrees(t: Tables, cells: map<EventId, Cell>, id: EventId) {
    if id in cells then HoldsAt(t, id, cells[id]) else NothingAt(t, id)
  }

  ghost predicate Couples(t: Tables, cells: map<EventId, Cell>) {
    forall id: EventId :: Agrees(t, cells, id)
  }

  /** Two states of the tables agree on everything under `id`. */
  ghost predicate SameAt(t: Tables, u: Tables, id: EventId) {
    && (id in t.events <==> id in u.events) && (id in t.events ==> t.events[id] == u.events[id])
    && (forall at: nat :: (at, id) in t.schedule <==> (at, id) in u.schedule)
    && Row(t.registrations, id) == Row(u.registrations, id)
    && Row(t.winners, id) == Row(u.winners, id)
    && (id in t.entropy <==> id in u.entropy) && (id in t.entropy ==> t.entropy[id] == u.entropy[id])
  }

  /** Writing under one identifier keeps the coupling if it is right there. */
  lemma CoupleAt(t: Tables, cells: map<EventId, Cell>, u: Tables, cells': map<EventId, Cell>, id: EventId)
    requires Couples(t, cells)
    requires forall k: EventId :: k != id ==> SameAt(t, u, k)
    requires forall k :: k != id ==> (k in cells <==> k in cells') && (k in cells ==> cells[k] == cells'[k])
    requires Agrees(u, cells', id)
    ensures Couples(u, cells')
  {
    forall k: EventId ensures Agrees(u, cells', k) {
      if k != id {
        assert Agrees(t, cells, k) && SameAt(t, u, k);
        SameAgrees(t, cells, u, cells', k);
      }
    }
  }

  lemma SameAgrees(t: Tables, cells: map<EventId, Cell>, u: Tables, cells': map<EventId, Cell>, k: EventId)
    requires Agrees(t, cells, k) && SameAt(t, u, k)
    requires (k in cells <==> k in cells') && (k in cells ==> cells[k] == cells'[k])
    ensures Agrees(u, cells', k)
  {
  }

  /** `m'` is `m` with the whole row of `id` replaced. */
  ghost predicate RowSet<K, V>(m: map<EventId, map<K, V>>, m': map<EventId, map<K, V>>, id: EventId, row: map<K, V>) {
    forall k: EventId :: Row(m', k) == if k == id then row else Row(m, k)
  }

  lemma RowKept<K, V>(m: map<EventId, map<K, V>>, id: EventId)
    ensures RowSet(m, m, id, Row(m, id))
  {
  }

  lemma RowReplaced<K, V>(m: map<EventId, map<K, V>>, id: EventId, row: map<K, V>)
    ensures RowSet(m, m[id := row], id, row)
  {
  }

  /** Storing or dropping a live event keeps the coupling; the history is not stored. */
  lemma CoupleWritten(t: Tables, cells: map<EventId, Cell>, u: Tables, id: EventId, next: Option<Cell>, book: Book)
    requires Couples(t, cells) && id in cells && Written(t, u, id, cells[id], next)
    ensures next.Some? ==> Couples(u, cells[id := next.value.(book := book)])
    ensures next.None? ==> Couples(u, cells - {id})
  {
    assert Agrees(t, cells, id);
    match next
    case Some(d) => CoupleAt(t, cells, u, cells[id := d.(book := book)], id);
    case None => CoupleAt(t, cells, u, cells - {id}, id);
  }

  /** Inserting a fresh event under an identifier that holds nothing. */
  lemma CoupleInsert(t: Tables, cells: map<EventId, Cell>, u: Tables, id: EventId, d: Cell)
    requires Couples(t, cells) && id !in cells
    requires d.regs == map[] && d.winners == map[] && d.entropy == None
    requires u == t.(events := t.events[id := Record(id, d)], schedule := t.schedule + {(At(d), id)})
    ensures Couples(u, cells[id := d])
  {
    assert Agrees(t, cells, id);
    CoupleAt(t, cells, u, cells[id := d], id);
  }

  /** The tables after a change to the live event `id` was stored, or the event dropped. */
  ghost predicate Written(t: Tables, u: Tables, id: EventId, c: Cell, next: Option<Cell>) {
    match next
    case Some(d) =>
      && u.events == t.events[id := Record(id, d)]
      && u.schedule == t.schedule - {(At(c), id)} + {(At(d), id)}
      && RowSet(t.registrations, u.registrations, id, d.regs)
      && RowSet(t.winners, u.winners, id, d.winners)
      && u.entropy == (if d.entropy.Some? then t.entropy[id := d.entropy.value] else t.entropy)
      && (d.entropy.None? ==> c.entropy.None?)
    case None =>
      && c.regs == map[] && c.winners == map[]
      && u.events == t.events - {id}
      && u.schedule == t.schedule - {(At(c), id)}
      && u.registrations == t.registrations && u.winners == t.winners
      && u.entropy == t.entropy - {id}
  }
}
