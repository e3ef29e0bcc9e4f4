/**
 One airdrop event as an abstract record: what the five storage tables say about it, plus a history
 of what happened to it. Each lifecycle action is a function from a record to a `Change`.
 */
module AirdropEvent {
  import opened Common
  import opened AirdropTypes
  import opened AirdropDraw

  /** Registration closed over `regs` when the randomness source was at `mark`. */
  datatype Closing = Closing(regs: map<Slot, Entry>, mark: nat, effective: nat)

  /** Entropy `target` was captured; the source produced it at `moment`. */
  datatype Capture = Capture(target: Slot, moment: nat)

  /** History of one event since it was scheduled; slots are counted, refunds are amounts. */
  datatype Book = Book(
    paid: seq<Entry>,
    released: nat,
    refunded: nat,
    closings: seq<Closing>,
    captures: seq<Capture>)

  datatype Cell = Cell(
    info: EventInfo,
    source: Option<AccountId>,
    status: Status,
    regs: map<Slot, Entry>,
    winners: map<Entry, Slot>,
    entropy: Option<Slot>,
    book: Book)

  const EmptyBook := Book([], 0, 0, [], [])

  function NewCell(info: EventInfo, source: Option<AccountId>): Cell {
    Cell(info, source, Scheduled, map[], map[], None, EmptyBook)
  }

  /** What an action makes of a record: its successor, if any, and the prize slots it releases. */
  datatype Change = Change(next: Option<Cell>, released: nat)

  // ----- the lifecycle actions -----

  /** `winner_cap.mul_floor(total)`, then at most `max_winners` and at least one. */
  function EffectiveWinners(prize: Prize, total: nat): nat {
    Max(Min(prize.maxWinners, prize.winnerCap * total / 1_000_000), 1)
  }

  function StartRegistration(c: Cell): Change {
    Change(Some(c.(status := Registering(0))), 0)
  }

  function CloseRegistration(c: Cell, mark: nat): Change
    requires c.status.Registering?
  {
    var total := c.status.participants;
    if total == 0 then Change(None, c.info.prize.maxWinners)
    else
      var effective := EffectiveWinners(c.info.prize, total);
      Change(
        Some(c.(status := AwaitingEntropy(total, effective, mark),
                book := c.book.(closings := c.book.closings + [Closing(c.regs, mark, effective)]))),
        MonusSat(c.info.prize.maxWinners, effective))
  }

  function CaptureEntropy(c: Cell, target: Slot, moment: nat): Change
    requires c.status.AwaitingEntropy?
  {
    Change(
      Some(c.(status := DrawWinners(c.status.participants, c.status.effective, 0, target),
              entropy := Some(target),
              book := c.book.(captures := c.book.captures + [Capture(target, moment)]))),
      0)
  }

  /** One batch: up to `drawLimit` of the remaining winners, taken from the walk after the cursor. */
  function DrawBatch(c: Cell, drawLimit: nat): Change
    requires c.status.DrawWinners?
  {
    var walk := Walk(c.regs.Keys, c.status.cursor);
    var slots := walk[..Min(BatchSize(c, drawLimit), |walk|)];
    var cursor := if slots == [] then c.status.cursor else slots[|slots| - 1];
    WalkVisitsKeys(c.regs.Keys, c.status.cursor);
    Change(
      Some(c.(status := DrawWinners(c.status.participants, c.status.effective,
                                    AddSat(c.status.added, |slots|, U32_MAX), cursor),
              winners := Crown(c.winners, c.regs, slots))),
      0)
  }

  /** `capped_remaining`: how many winners a batch asks the walk for. */
  function BatchSize(c: Cell, drawLimit: nat): nat
    requires c.status.DrawWinners?
  {
    Min(MonusSat(c.status.effective, c.status.added), drawLimit)
  }

  function CloseDrawing(c: Cell): Change
    requires c.status.DrawWinners?
  {
    Change(Some(c.(status := Claiming(c.status.participants, c.status.effective, 0))), 0)
  }

  function CloseClaiming(c: Cell): Change
    requires c.status.Claiming?
  {
    var s := c.status;
    Change(Some(c.(status := ClearingRegistrations(s.participants, s.effective, s.claimed, 0))), 0)
  }

  /** `clear_prefix` with a limit: `gone` are the removed keys, the cursor is none iff nothing is left. */
  function CleanUpRegistrations(c: Cell, gone: set<Slot>): Change
    requires c.status.ClearingRegistrations?
  {
    var s := c.status;
    var left := c.regs - gone;
    var status := if left == map[] then ClearingWinners(s.participants, s.effective, s.claimed, 0)
                  else ClearingRegistrations(s.participants, s.effective, s.claimed, AddSat(s.cleaned, |gone|, U32_MAX));
    Change(Some(c.(status := status, regs := left)), 0)
  }

  function CleanUpWinners(c: Cell, gone: set<Entry>): Change
    requires c.status.ClearingWinners?
  {
    var s := c.status;
    var left := c.winners - gone;
    var status := if left == map[] then Finalizing(s.effective, s.claimed)
                  else ClearingWinners(s.participants, s.effective, s.claimed, AddSat(s.cleaned, |gone|, U32_MAX));
    Change(Some(c.(status := status, winners := left)), 0)
  }

  function Finalize(c: Cell): Change
    requires c.status.Finalizing?
  {
    Change(None, MonusSat(c.status.effective, c.status.claimed))
  }

  function RemoveScheduled(c: Cell): Change {
    Change(None, c.info.prize.maxWinners)
  }

  /** `do_cancel` on a stored event. */
  function Cancel(c: Cell): Change {
    match c.status
    case Scheduled => Change(None, c.info.prize.maxWinners)
    case Registering(total) =>
      Change(Some(c.(status := ClearingRegistrations(total, 0, 0, 0))), c.info.prize.maxWinners)
    case AwaitingEntropy(total, effective, _) =>
      Change(Some(c.(status := ClearingRegistrations(total, effective, 0, 0))), 0)
    case DrawWinners(total, effective, _, _) =>
      Change(Some(c.(status := ClearingRegistrations(total, effective, 0, 0))), 0)
    case Claiming(total, effective, claimed) =>
      Change(Some(c.(status := ClearingRegistrations(total, effective, claimed, 0))), 0)
    case _ => Change(Some(c), 0)
  }

  function Register(c: Cell, slot: Slot, entry: Entry): Cell
    requires c.status.Registering?
  {
    c.(status := Registering(c.status.participants + 1), regs := c.regs[slot := entry])
  }

  function Claim(c: Cell, entry: Entry): Cell
    requires c.status.Claiming?
  {
    c.(status := Claiming(c.status.participants, c.status.effective, AddSat(c.status.claimed, 1, U32_MAX)),
       winners := c.winners - {entry},
       book := c.book.(paid := c.book.paid + [entry]))
  }

  /** The successor's history after the ledger settled the change. */
  function Booked(b: Book, released: nat, refunded: nat): Book {
    b.(released := b.released + released, refunded := b.refunded + refunded)
  }

  // ----- what every action keeps -----

  /** Prize slots the pot still owes: reserved and neither paid nor released. */
  function Owed(c: Cell): nat {
    match c.status
    case Scheduled => c.info.prize.maxWinners
    case Registering(_) => c.info.prize.maxWinners
    case AwaitingEntropy(_, effective, _) => effective
    case DrawWinners(_, effective, _, _) => effective
    case Claiming(_, effective, claimed) => MonusSat(effective, claimed)
    case ClearingRegistrations(_, effective, claimed, _) => MonusSat(effective, claimed)
    case ClearingWinners(_, effective, claimed, _) => MonusSat(effective, claimed)
    case Finalizing(effective, claimed) => MonusSat(effective, claimed)
  }

  function Claimed(s: Status): nat {
    match s
    case Claiming(_, _, claimed) => claimed
    case ClearingRegistrations(_, _, claimed, _) => claimed
    case ClearingWinners(_, _, claimed, _) => claimed
    case Finalizing(_, claimed) => claimed
    case _ => 0
  }

  /**
   `w` is the winner count for `total` participants: as many as the prize allows, but beyond the
   first no more than the cap's share of the participants.
   */
  ghost predicate WithinCap(prize: Prize, total: nat, w: nat) {
    && 1 <= w <= prize.maxWinners
    && (w > 1 ==> 1_000_000 * w <= prize.winnerCap * total)
    && (w < prize.maxWinners ==> 1_000_000 * (w + 1) > prize.winnerCap * total)
  }

  /** The counts fixed when registration closed over a non-empty table. */
  ghost predicate ClosedCounts(c: Cell, total: nat, effective: nat) {
    && total == |c.regs| <= U32_MAX
    && WithinCap(c.info.prize, total, effective)
    && effective <= total
  }

  /** What the tables hold in each phase. */
  ghost predicate TablesAgree(c: Cell) {
    match c.status
    case Scheduled => c.regs == map[] && c.winners == map[]
    case Registering(total) => total == |c.regs| <= U32_MAX && c.winners == map[]
    case AwaitingEntropy(total, effective, _) => ClosedCounts(c, total, effective) && c.winners == map[]
    case DrawWinners(total, effective, added, cursor) =>
      && ClosedCounts(c, total, effective)
      && added <= effective
      && c.entropy.Some?
      && c.winners == Drawn(c.regs, c.entropy.value, added)
      && cursor == CursorAt(c.regs.Keys, c.entropy.value, added)
    case Claiming(total, effective, claimed) =>
      && ClosedCounts(c, total, effective)
      && c.entropy.Some?
      && var drawn := Drawn(c.regs, c.entropy.value, effective);
         && |drawn| <= effective
         && |c.winners| + claimed == |drawn|
         && c.winners.Keys <= drawn.Keys
         && forall e :: e in c.winners ==> c.winners[e] == drawn[e]
    case ClearingRegistrations(total, effective, claimed, cleaned) =>
      && |c.regs| + cleaned == total <= U32_MAX
      && |c.winners| + claimed <= effective <= c.info.prize.maxWinners
    case ClearingWinners(_, effective, claimed, cleaned) =>
      && c.regs == map[]
      && |c.winners| + cleaned + claimed <= effective <= c.info.prize.maxWinners
    case Finalizing(effective, claimed) =>
      c.regs == map[] && c.winners == map[] && claimed <= effective <= c.info.prize.maxWinners
  }

  /** The entries drawn from the frozen registrations at the captured entropy point. */
  ghost function DrawnEntries(k: Closing, e: Capture): set<Entry>
    requires k.effective <= |k.regs|
  {
    Drawn(k.regs, e.target, k.effective).Keys
  }

  /**
   A history in which registration closed at most once, entropy was captured at most once and
   strictly after it, and everybody paid was drawn from the frozen table and paid once.
   */
  ghost predicate BookSound(b: Book, info: EventInfo) {
    && |b.captures| <= |b.closings| <= 1
    && NoDuplicates(b.paid)
    && (b.closings != [] ==>
          && WithinCap(info.prize, |b.closings[0].regs|, b.closings[0].effective)
          && b.closings[0].effective <= |b.closings[0].regs|)
    && (b.captures != [] ==> b.closings[0].mark < b.captures[0].moment)
    && (b.paid != [] ==> b.captures != [])
    && (forall e :: e in b.paid ==> e in DrawnEntries(b.closings[0], b.captures[0]))
  }

  /** How the history of a live event agrees with its record. */
  ghost predicate BookAgrees(c: Cell) {
    && |c.book.paid| == Claimed(c.status)
    && |c.book.paid| + c.book.released + Owed(c) == c.info.prize.maxWinners
    && (forall e :: e in c.book.paid ==> e !in c.winners)
    && c.entropy == (if c.book.captures == [] then None else Some(c.book.captures[0].target))
    && match c.status
       case Scheduled => c.book.closings == []
       case Registering(_) => c.book.closings == []
       case AwaitingEntropy(_, effective, mark) =>
         c.book.closings == [Closing(c.regs, mark, effective)] && c.book.captures == []
       case DrawWinners(_, effective, _, _) => FrozenSince(c, effective)
       case Claiming(_, effective, _) => FrozenSince(c, effective)
       case _ => true
  }

  /** The draw runs over the registrations frozen at the closing, with entropy captured later. */
  ghost predicate FrozenSince(c: Cell, effective: nat) {
    && |c.book.closings| == 1 && |c.book.captures| == 1
    && c.book.closings[0].regs == c.regs
    && c.book.closings[0].effective == effective
  }

  ghost predicate CellInv(cfg: Config, c: Cell) {
    && 1 <= c.info.prize.maxWinners <= MAX_WINNERS
    && c.info.prize.assetAmount * c.info.prize.maxWinners <= cfg.balanceMax
    && c.info.registrationStarts < c.info.drawTime < c.info.endTime
    && TablesAgree(c)
    && BookSound(c.book, c.info)
    && BookAgrees(c)
  }

  /**
   A change that keeps the event's terms, balances its slots, and leaves a good record once the
   released slots are booked.
   */
  ghost predicate ChangeSound(cfg: Config, c: Cell, ch: Change, refunded: nat) {
    match ch.next
    case None => ch.released == Owed(c)
    case Some(d) =>
      && d.info == c.info && d.source == c.source
      && d.book.released == c.book.released && d.book.refunded == c.book.refunded
      && Owed(c) == Owed(d) + ch.released
      && CellInv(cfg, d.(book := Booked(d.book, ch.released, refunded)))
  }

  lemma CapFloor(cap: Permill, total: nat)
    ensures cap * total / 1_000_000 <= total
  {
    var rest := 1_000_000 - cap;
    assert 1_000_000 * total == cap * total + rest * total;
  }

  lemma EffectiveBounds(prize: Prize, total: nat)
    requires total > 0 && prize.maxWinners > 0
    ensures 1 <= EffectiveWinners(prize, total) <= Min(prize.maxWinners, total)
  {
    CapFloor(prize.winnerCap, total);
  }

  lemma ShareFloor(share: nat, w: nat)
    ensures w <= share / 1_000_000 <==> 1_000_000 * w <= share
  {
  }

  /** The closing arithmetic meets the cap exactly: no other count does. */
  lemma EffectiveWithinCap(prize: Prize, total: nat, w: nat)
    requires prize.maxWinners > 0
    ensures WithinCap(prize, total, w) <==> w == EffectiveWinners(prize, total)
  {
    var share := prize.winnerCap * total;
    ShareFloor(share, w);
    ShareFloor(share, w + 1);
    var e := EffectiveWinners(prize, total);
    ShareFloor(share, e);
    ShareFloor(share, e + 1);
  }

  /** Booking released slots and refunds keeps a history sound. */
  lemma BookedSound(b: Book, info: EventInfo, released: nat, refunded: nat)
    requires BookSound(b, info)
    ensures BookSound(Booked(b, released, refunded), info)
  {
    hide Drawn;
  }

  lemma StartRegistrationSound(cfg: Config, c: Cell, refunded: nat)
    requires CellInv(cfg, c) && c.status.Scheduled?
    ensures ChangeSound(cfg, c, StartRegistration(c), refunded)
  {
    hide Drawn, BookSound, EffectiveWinners, WithinCap;
    BookedSound(c.book, c.info, 0, refunded);
  }

  lemma CloseRegistrationSound(cfg: Config, c: Cell, mark: nat, refunded: nat)
    requires CellInv(cfg, c) && c.status.Registering?
    ensures ChangeSound(cfg, c, CloseRegistration(c, mark), refunded)
  {
    if c.status.participants > 0 {
      EffectiveBounds(c.info.prize, c.status.participants);
      EffectiveWithinCap(c.info.prize, c.status.participants,
                         EffectiveWinners(c.info.prize, c.status.participants));
      hide EffectiveWinners, WithinCap;
    }
  }

  lemma CaptureEntropySound(cfg: Config, c: Cell, target: Slot, moment: nat, refunded: nat)
    requires CellInv(cfg, c) && c.status.AwaitingEntropy? && c.status.lastMoment < moment
    ensures ChangeSound(cfg, c, CaptureEntropy(c, target, moment), refunded)
  {
    assert Drawn(c.regs, target, 0) == map[];
  }

  lemma NextCursor(keys: set<Slot>, p: Slot, i: nat, n: nat)
    requires 0 < n && i + n <= |keys|
    ensures n <= |Walk(keys, CursorAt(keys, p, i))|
    ensures Walk(keys, CursorAt(keys, p, i))[..n][n - 1] == CursorAt(keys, p, i + n)
  {
    BatchIsNextSlice(keys, p, i, n);
    var slice := Cyclic(keys, p)[i..i + n];
    assert slice[n - 1] == Cyclic(keys, p)[i + n - 1];
  }

  /** A batch never finds the walk exhausted, and the table stays a prefix of the one-shot draw. */
  lemma DrawBatchExtends(c: Cell, drawLimit: nat)
    requires c.status.DrawWinners? && c.status.added <= c.status.effective <= |c.regs| <= U32_MAX
    requires c.entropy.Some?
    requires c.winners == Drawn(c.regs, c.entropy.value, c.status.added)
    requires c.status.cursor == CursorAt(c.regs.Keys, c.entropy.value, c.status.added)
    ensures BatchSize(c, drawLimit) <= |Walk(c.regs.Keys, c.status.cursor)|
    ensures var n := BatchSize(c, drawLimit);
      DrawBatch(c, drawLimit) == Change(
        Some(c.(status := DrawWinners(c.status.participants, c.status.effective, c.status.added + n,
                                      CursorAt(c.regs.Keys, c.entropy.value, c.status.added + n)),
                winners := Drawn(c.regs, c.entropy.value, c.status.added + n))),
        0)
  {
    hide Drawn, CursorAt, Walk, Crown;
    var n := BatchSize(c, drawLimit);
    DrawnExtends(c.regs, c.entropy.value, c.status.added, n);
    if n > 0 { NextCursor(c.regs.Keys, c.entropy.value, c.status.added, n); }
  }

  lemma DrawBatchSound(cfg: Config, c: Cell, refunded: nat)
    requires CellInv(cfg, c) && c.status.DrawWinners?
    ensures ChangeSound(cfg, c, DrawBatch(c, cfg.drawLimit), refunded)
  {
    hide Drawn, Walk, Crown, CursorAt, DrawBatch, BookSound, EffectiveWinners, WithinCap;
    BookedSound(c.book, c.info, 0, refunded);
    DrawBatchExtends(c, cfg.drawLimit);
  }

  lemma CloseDrawingSound(cfg: Config, c: Cell, refunded: nat)
    requires CellInv(cfg, c) && c.status.DrawWinners? && c.status.added == c.status.effective
    ensures ChangeSound(cfg, c, CloseDrawing(c), refunded)
  {
    hide Drawn, CursorAt, BookSound, EffectiveWinners, WithinCap;
    BookedSound(c.book, c.info, 0, refunded);
    DrawnAtMost(c.regs, c.entropy.value, c.status.effective);
  }

  lemma CloseClaimingSound(cfg: Config, c: Cell, refunded: nat)
    requires CellInv(cfg, c) && c.status.Claiming?
    ensures ChangeSound(cfg, c, CloseClaiming(c), refunded)
  {
    hide Drawn, BookSound, EffectiveWinners, WithinCap;
    BookedSound(c.book, c.info, 0, refunded);
  }

  lemma Emptied<K, V>(m: map<K, V>, gone: set<K>)
    requires gone <= m.Keys
    ensures (m - gone).Keys == m.Keys - gone && |m - gone| + |gone| == |m|
    ensures m - gone == map[] <==> gone == m.Keys
  {
    assert (m - gone).Keys == m.Keys - gone;
    assert |m.Keys - gone| == |m.Keys| - |gone|;
  }

  lemma CleanUpRegistrationsSound(cfg: Config, c: Cell, gone: set<Slot>, refunded: nat)
    requires CellInv(cfg, c) && c.status.ClearingRegistrations?
    requires gone <= c.regs.Keys
    ensures ChangeSound(cfg, c, CleanUpRegistrations(c, gone), refunded)
    ensures CleanUpRegistrations(c, gone).next.value.status.ClearingWinners? <==> gone == c.regs.Keys
  {
    hide Drawn, BookSound, EffectiveWinners, WithinCap;
    BookedSound(c.book, c.info, 0, refunded);
    Emptied(c.regs, gone);
  }

  lemma CleanUpWinnersSound(cfg: Config, c: Cell, gone: set<Entry>, refunded: nat)
    requires CellInv(cfg, c) && c.status.ClearingWinners?
    requires gone <= c.winners.Keys
    ensures ChangeSound(cfg, c, CleanUpWinners(c, gone), refunded)
    ensures CleanUpWinners(c, gone).next.value.status.Finalizing? <==> gone == c.winners.Keys
  {
    hide Drawn, BookSound, EffectiveWinners, WithinCap;
    BookedSound(c.book, c.info, 0, refunded);
    Emptied(c.winners, gone);
  }

  lemma FinalizeSound(cfg: Config, c: Cell, refunded: nat)
    requires CellInv(cfg, c) && c.status.Finalizing?
    ensures ChangeSound(cfg, c, Finalize(c), refunded)
  {
  }

  lemma CancelBeforeDrawSound(cfg: Config, c: Cell, refunded: nat)
    requires CellInv(cfg, c) && (c.status.Scheduled? || c.status.Registering? || c.status.AwaitingEntropy?)
    ensures ChangeSound(cfg, c, Cancel(c), refunded)
  {
    hide Drawn, BookSound, EffectiveWinners, WithinCap;
    BookedSound(c.book, c.info, Cancel(c).released, refunded);
  }

  lemma CancelWhileDrawingSound(cfg: Config, c: Cell, refunded: nat)
    requires CellInv(cfg, c) && c.status.DrawWinners?
    ensures ChangeSound(cfg, c, Cancel(c), refunded)
  {
    hide Drawn, CursorAt, BookSound, EffectiveWinners, WithinCap;
    BookedSound(c.book, c.info, 0, refunded);
    DrawnAtMost(c.regs, c.entropy.value, c.status.added);
  }

  lemma CancelSound(cfg: Config, c: Cell, refunded: nat)
    requires CellInv(cfg, c)
    ensures ChangeSound(cfg, c, Cancel(c), refunded)
  {
    match c.status
    case DrawWinners(_, _, _, _) => CancelWhileDrawingSound(cfg, c, refunded);
    case Claiming(_, _, _) =>
      assert Cancel(c) == CloseClaiming(c);
      CloseClaimingSound(cfg, c, refunded);
    case ClearingRegistrations(_, _, _, _) => BookedSound(c.book, c.info, 0, refunded);
    case ClearingWinners(_, _, _, _) => BookedSound(c.book, c.info, 0, refunded);
    case Finalizing(_, _) => BookedSound(c.book, c.info, 0, refunded);
    case _ => CancelBeforeDrawSound(cfg, c, refunded);
  }

  lemma RegisterSound(cfg: Config, c: Cell, slot: Slot, entry: Entry)
    requires CellInv(cfg, c) && c.status.Registering?
    requires slot !in c.regs && c.status.participants != U32_MAX
    ensures CellInv(cfg, Register(c, slot, entry))
    ensures Owed(Register(c, slot, entry)) == Owed(c)
  {
    assert c.regs[slot := entry].Keys == c.regs.Keys + {slot};
  }

  lemma ClaimSound(cfg: Config, c: Cell, entry: Entry)
    requires CellInv(cfg, c) && c.status.Claiming? && entry in c.winners
    ensures CellInv(cfg, Claim(c, entry))
    ensures Owed(c) == Owed(Claim(c, entry)) + 1
  {
    hide Drawn, EffectiveWinners, WithinCap;
    assert (c.winners - {entry}).Keys == c.winners.Keys - {entry};
  }
}
