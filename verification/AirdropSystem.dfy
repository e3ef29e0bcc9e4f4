/**
 The airdrop pallet as a state machine over all live events, one shared asset ledger and every call
 that can reach it. `Perform` is one step; a run is any sequence of steps in any order.
 */
module AirdropSystem {
  import opened Common
  import opened Labels
  import opened AirdropTypes
  import opened AirdropLedger
  import opened AirdropEvent

  /** An event that was removed, with its terms and its whole history. */
  datatype Finished = Finished(id: EventId, info: EventInfo, source: Option<AccountId>, book: Book)

  datatype Sys = Sys(
    cells: map<EventId, Cell>,
    supported: map<AssetId, nat>,
    ledger: Ledger,
    finished: seq<Finished>)

  /** The lifecycle calls the offchain worker submits. */
  datatype Call =
    | StartRegistrationCall(id: EventId)
    | CloseRegistrationCall(id: EventId)
    | CaptureEntropyCall(id: EventId)
    | DrawWinnersCall(id: EventId)
    | CloseDrawingCall(id: EventId)
    | CloseClaimingCall(id: EventId)
    | CleanUpRegistrationsCall(id: EventId)
    | CleanUpWinnersCall(id: EventId)
    | FinalizeCall(id: EventId)

  /**
   What the outside world answers during one step: clock, transaction source, randomness source
   (value and moment, and its current moment), minimum balance, the ledger's answers, and which
   entries a bounded `clear_prefix` removes.
   */
  datatype Env = Env(
    now: nat,
    local: bool,
    randomness: Option<(Slot, nat)>,
    moment: nat,
    minBalance: nat,
    grant: Grant,
    transferOk: bool,
    holdOk: bool,
    goneSlots: set<Slot>,
    goneEntries: set<Entry>)

  predicate Fresh(env: Env, mark: nat) {
    env.randomness.Some? && mark < env.randomness.value.1
  }

  /** The `authorize_*` checks, on the stored status and terms of the event named by the call. */
  function Authorize(call: Call, status: Status, info: EventInfo, env: Env): Result {
    if !env.local then Err(TransactionNotLocal)
    else
      match call
      case StartRegistrationCall(_) => if status.Scheduled? then WhenDue(status, info, env) else Err(WrongStatus)
      case CloseRegistrationCall(_) => if status.Registering? then WhenDue(status, info, env) else Err(WrongStatus)
      case CaptureEntropyCall(_) =>
        if !status.AwaitingEntropy? then Err(WrongStatus)
        else if Fresh(env, status.lastMoment) then Ok else Err(EntropyNotReady)
      case DrawWinnersCall(_) => if status.DrawWinners? then Ok else Err(WrongStatus)
      case CloseDrawingCall(_) =>
        if status.DrawWinners? && status.added == status.effective then Ok else Err(WrongStatus)
      case CloseClaimingCall(_) => if status.Claiming? then WhenDue(status, info, env) else Err(WrongStatus)
      case CleanUpRegistrationsCall(_) => if status.ClearingRegistrations? then Ok else Err(WrongStatus)
      case CleanUpWinnersCall(_) => if status.ClearingWinners? then Ok else Err(WrongStatus)
      case FinalizeCall(_) => if status.Finalizing? then Ok else Err(WrongStatus)
  }

  function WhenDue(status: Status, info: EventInfo, env: Env): Result {
    if env.now < NextActionAt(status, info) then Err(NotYetDue) else Ok
  }

  /** What an authorized call makes of its event. */
  function CallChange(cfg: Config, c: Cell, call: Call, env: Env): Change
    requires Authorize(call, c.status, c.info, env) == Ok
  {
    match call
    case StartRegistrationCall(_) => StartRegistration(c)
    case CloseRegistrationCall(_) => CloseRegistration(c, env.moment)
    case CaptureEntropyCall(_) => CaptureEntropy(c, env.randomness.value.0, env.randomness.value.1)
    case DrawWinnersCall(_) => DrawBatch(c, cfg.drawLimit)
    case CloseDrawingCall(_) => CloseDrawing(c)
    case CloseClaimingCall(_) => CloseClaiming(c)
    case CleanUpRegistrationsCall(_) => CleanUpRegistrations(c, env.goneSlots)
    case CleanUpWinnersCall(_) => CleanUpWinners(c, env.goneEntries)
    case FinalizeCall(_) => Finalize(c)
  }

  datatype Outcome = Outcome(sys: Sys, result: Result)

  /** Apply a change to a live event: settle the released slots, then store or drop the record. */
  function Settle(cfg: Config, s: Sys, id: EventId, ch: Change, env: Env): Sys
    requires id in s.cells
  {
    var c := s.cells[id];
    var p := ReleaseRemaining(cfg, s.ledger, c.source, c.info.prize, ch.released, env.grant, env.transferOk);
    match ch.next
    case None =>
      s.(cells := s.cells - {id},
         ledger := p.ledger,
         finished := s.finished + [Finished(id, c.info, c.source, Booked(c.book, ch.released, p.refunded))])
    case Some(d) =>
      s.(cells := s.cells[id := d.(book := Booked(d.book, ch.released, p.refunded))], ledger := p.ledger)
  }

  // ----- the calls -----

  /** `do_schedule`. */
  function Schedule(cfg: Config, s: Sys, id: EventId, info: EventInfo, source: Option<AccountId>, env: Env): Outcome {
    var toHold := info.prize.assetAmount * info.prize.maxWinners;
    if !IsDnsLabel(info.productName) then Outcome(s, Err(InvalidProductName))
    else if info.prize.maxWinners == 0 then Outcome(s, Err(NoWinnersConfigured))
    else if info.prize.maxWinners > MAX_WINNERS then Outcome(s, Err(TooManyWinners))
    else if !(info.registrationStarts < info.drawTime < info.endTime) then Outcome(s, Err(InvalidEventTimes))
    else if info.prize.assetId !in s.supported then Outcome(s, Err(AssetNotEnabled))
    else if info.prize.assetAmount < env.minBalance then Outcome(s, Err(PrizeBelowMinBalance))
    else if id in s.cells then Outcome(s, Err(DuplicateEventId))
    else if toHold > cfg.balanceMax then Outcome(s, Err(PrizeAllocationOverflow))
    else
      match Hold(s.ledger, cfg.pot, info.prize.assetId, toHold, env.holdOk)
      case None => Outcome(s, Err(LedgerRefused))
      case Some(l) => Outcome(s.(cells := s.cells[id := NewCell(info, source)], ledger := l), Ok)
  }

  /** `Airdrop::schedule`: fund the pot from `source` first; both happen or neither does. */
  function ScheduleFunded(cfg: Config, s: Sys, source: AccountId, id: EventId, info: EventInfo, env: Env): Outcome {
    var toTransfer := info.prize.assetAmount * info.prize.maxWinners;
    if toTransfer > cfg.balanceMax then Outcome(s, Err(PrizeAllocationOverflow))
    else
      match Transfer(s.ledger, info.prize.assetId, source, cfg.pot, toTransfer, env.transferOk)
      case None => Outcome(s, Err(LedgerRefused))
      case Some(l) =>
        var o := Schedule(cfg, s.(ledger := l), id, info, Some(source), env);
        if o.result == Ok then o else Outcome(s, o.result)
  }

  function DoRemoveScheduled(cfg: Config, s: Sys, id: EventId, env: Env): Outcome {
    if id !in s.cells then Outcome(s, Err(NoScheduledEvent))
    else if !s.cells[id].status.Scheduled? then Outcome(s, Err(WrongStatus))
    else Outcome(Settle(cfg, s, id, RemoveScheduled(s.cells[id]), env), Ok)
  }

  function DoCancel(cfg: Config, s: Sys, id: EventId, env: Env): Outcome {
    if id !in s.cells then Outcome(s, Ok)
    else Outcome(Settle(cfg, s, id, Cancel(s.cells[id]), env), Ok)
  }

  /** `register_slot_in`, reached by all three ways of participating once a slot is derived. */
  function DoRegister(s: Sys, id: EventId, slot: Slot, entry: Entry): Outcome {
    if id !in s.cells then Outcome(s, Err(UnknownEvent))
    else
      var c := s.cells[id];
      if !c.status.Registering? then Outcome(s, Err(NotAcceptingRegistrations))
      else if slot in c.regs then Outcome(s, Err(EntropySlotTaken))
      else if c.status.participants == U32_MAX then Outcome(s, Err(ParticipantOverflow))
      else Outcome(s.(cells := s.cells[id := Register(c, slot, entry)]), Ok)
  }

  function DoClaim(cfg: Config, s: Sys, id: EventId, entry: Entry, beneficiary: AccountId, env: Env): Outcome {
    if id !in s.cells then Outcome(s, Err(UnknownEvent))
    else
      var c := s.cells[id];
      var prize := c.info.prize;
      if !c.status.Claiming? then Outcome(s, Err(NotClaiming))
      else if env.now >= c.info.endTime then Outcome(s, Err(ClaimingWindowClosed))
      else if prize.assetId !in s.supported then Outcome(s, Err(AssetNotEnabled))
      else if entry !in c.winners then Outcome(s, Err(NoSuchWinner))
      else
        match ReleaseExact(s.ledger, cfg.pot, prize.assetId, prize.assetAmount, env.grant)
        case None => Outcome(s, Err(LedgerRefused))
        case Some(l1) =>
          match Transfer(l1, prize.assetId, cfg.pot, beneficiary, prize.assetAmount, env.transferOk)
          case None => Outcome(s, Err(LedgerRefused))
          case Some(l2) => Outcome(s.(cells := s.cells[id := Claim(c, entry)], ledger := l2), Ok)
  }

  function DoCall(cfg: Config, s: Sys, call: Call, env: Env): Outcome {
    if !env.local then Outcome(s, Err(TransactionNotLocal))
    else if call.id !in s.cells then Outcome(s, Err(UnknownEvent))
    else
      var c := s.cells[call.id];
      match Authorize(call, c.status, c.info, env)
      case Err(e) => Outcome(s, Err(e))
      case Ok => Outcome(Settle(cfg, s, call.id, CallChange(cfg, c, call, env), env), Ok)
  }

  function DoEnableAsset(cfg: Config, s: Sys, asset: AssetId, source: AccountId, env: Env): Outcome {
    if asset in s.supported then Outcome(s, Err(AssetAlreadyEnabled))
    else
      match Transfer(s.ledger, asset, source, cfg.pot, env.minBalance, env.transferOk)
      case None => Outcome(s, Err(LedgerRefused))
      case Some(l) => Outcome(s.(supported := s.supported[asset := env.minBalance], ledger := l), Ok)
  }

  function DoDisableAsset(cfg: Config, s: Sys, asset: AssetId, beneficiary: AccountId, env: Env): Outcome {
    if asset !in s.supported then Outcome(s, Err(AssetNotEnabled))
    else
      match Transfer(s.ledger, asset, cfg.pot, beneficiary, s.supported[asset], env.transferOk)
      case None => Outcome(s, Err(LedgerRefused))
      case Some(l) => Outcome(s.(supported := s.supported - {asset}, ledger := l), Ok)
  }

  /** The event with an empty product name, as the storage migration leaves it. */
  function Unnamed(c: Cell): Cell { c.(info := c.info.(productName := [])) }

  function UnnamedAll(cells: map<EventId, Cell>): map<EventId, Cell> {
    map id | id in cells :: Unnamed(cells[id])
  }

  /** The translate pass of the v0 to v1 storage migration; its cancellations are `OpCancel` steps. */
  function Translate(s: Sys): Sys {
    s.(cells := UnnamedAll(s.cells))
  }

  // ----- steps and runs -----

  datatype Op =
    | OpSchedule(id: EventId, info: EventInfo)
    | OpScheduleFunded(source: AccountId, id: EventId, info: EventInfo)
    | OpRemoveScheduled(id: EventId)
    | OpCancel(id: EventId)
    | OpRegister(id: EventId, slot: Slot, entry: Entry)
    | OpClaim(id: EventId, entry: Entry, beneficiary: AccountId)
    | OpCall(call: Call)
    | OpEnableAsset(asset: AssetId, account: AccountId)
    | OpDisableAsset(asset: AssetId, account: AccountId)
    | OpTranslate
    | OpOutside(free: map<(AssetId, AccountId), nat>)  // other pallets move free balances

  function Perform(cfg: Config, s: Sys, op: Op, env: Env): Outcome {
    match op
    case OpSchedule(id, info) => Schedule(cfg, s, id, info, None, env)
    case OpScheduleFunded(source, id, info) => ScheduleFunded(cfg, s, source, id, info, env)
    case OpRemoveScheduled(id) => DoRemoveScheduled(cfg, s, id, env)
    case OpCancel(id) => DoCancel(cfg, s, id, env)
    case OpRegister(id, slot, entry) => DoRegister(s, id, slot, entry)
    case OpClaim(id, entry, beneficiary) => DoClaim(cfg, s, id, entry, beneficiary, env)
    case OpCall(call) => DoCall(cfg, s, call, env)
    case OpEnableAsset(asset, account) => DoEnableAsset(cfg, s, asset, account, env)
    case OpDisableAsset(asset, account) => DoDisableAsset(cfg, s, asset, account, env)
    case OpTranslate => Outcome(Translate(s), Ok)
    case OpOutside(free) => Outcome(s.(ledger := s.ledger.(free := free)), Ok)
  }

  /** The storage answers of a step are possible ones: `clear_prefix` removes entries that are there. */
  ghost predicate Legal(cfg: Config, s: Sys, op: Op, env: Env) {
    op.OpCall? && op.call.id in s.cells ==>
      var c := s.cells[op.call.id];
      (op.call.CleanUpRegistrationsCall? ==> env.goneSlots <= c.regs.Keys) &&
      (op.call.CleanUpWinnersCall? ==> env.goneEntries <= c.winners.Keys)
  }

  datatype Step = Step(op: Op, env: Env)

  /** The state after the first `n` steps. */
  function StateAt(cfg: Config, s: Sys, steps: seq<Step>, n: nat): Sys
    requires n <= |steps|
  {
    if n == 0 then s
    else Perform(cfg, StateAt(cfg, s, steps, n - 1), steps[n - 1].op, steps[n - 1].env).sys
  }

  ghost predicate LegalRun(cfg: Config, s: Sys, steps: seq<Step>) {
    forall n :: 0 <= n < |steps| ==> Legal(cfg, StateAt(cfg, s, steps, n), steps[n].op, steps[n].env)
  }

  /** No events, nothing held: the pallet before its first call. */
  function Genesis(free: map<(AssetId, AccountId), nat>): Sys {
    Sys(map[], map[], Ledger(map[], free), [])
  }
}
