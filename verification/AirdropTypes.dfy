/** The airdrop pallet's stored records (pallets/airdrop/src/types.rs) and its lifecycle clock. */
module AirdropTypes {
  import opened Common

  /** 32-byte identifiers and 256-bit slots, as the numbers their big-endian bytes denote. */
  type EventId = nat
  type Slot = nat
  type AccountId = nat
  type AssetId = nat

  /** Parts per million, as `sp_runtime::Permill`. */
  type Permill = x: nat | x <= 1_000_000

  const MAX_WINNERS: nat := 10_000

  datatype Entry =
    | AliasEntry(alias: nat)
    | AccountEntry(account: AccountId)

  datatype Prize = Prize(
    assetId: AssetId,
    assetAmount: nat,
    maxWinners: nat,
    winnerCap: Permill)

  datatype EventInfo = EventInfo(
    productName: seq<byte>,
    prize: Prize,
    registrationStarts: nat,
    drawTime: nat,
    endTime: nat)

  datatype Status =
    | Scheduled
    | Registering(participants: nat)
    | AwaitingEntropy(participants: nat, effective: nat, lastMoment: nat)
    | DrawWinners(participants: nat, effective: nat, added: nat, cursor: Slot)
    | Claiming(participants: nat, effective: nat, claimed: nat)
    | ClearingRegistrations(participants: nat, effective: nat, claimed: nat, cleaned: nat)
    | ClearingWinners(participants: nat, effective: nat, claimed: nat, cleaned: nat)
    | Finalizing(effective: nat, claimed: nat)

  datatype ActiveEvent = ActiveEvent(
    id: EventId,
    info: EventInfo,
    status: Status,
    source: Option<AccountId>)

  /** `next_action_scheduled_at`: when an event in `status` has its next lifecycle action. */
  function NextActionAt(status: Status, info: EventInfo): nat {
    match status
    case Scheduled => info.registrationStarts
    case Registering(_) => info.drawTime
    case AwaitingEntropy(_, _, _) => info.drawTime
    case DrawWinners(_, _, _, _) => info.drawTime
    case Claiming(_, _, _) => info.endTime
    case ClearingRegistrations(_, _, _, _) => info.endTime
    case ClearingWinners(_, _, _, _) => info.endTime
    case Finalizing(_, _) => info.endTime
  }

  /** Integrity-tested runtime constants; `balanceMax` is the greatest asset balance. */
  datatype RawConfig = RawConfig(
    drawLimit: nat,
    clearLimit: nat,
    workerInterval: nat,
    balanceMax: nat,
    pot: AccountId)

  type Config = c: RawConfig | c.drawLimit > 0 && c.clearLimit > 0 && c.workerInterval > 0
    witness RawConfig(1, 1, 1, 0, 0)

  datatype Error =
    | InvalidProductName
    | NoWinnersConfigured
    | TooManyWinners
    | InvalidEventTimes
    | AssetNotEnabled
    | AssetAlreadyEnabled
    | PrizeBelowMinBalance
    | DuplicateEventId
    | PrizeAllocationOverflow
    | NoScheduledEvent
    | UnknownEvent
    | WrongStatus
    | NotAcceptingRegistrations
    | EntropySlotTaken
    | ParticipantOverflow
    | NotClaiming
    | ClaimingWindowClosed
    | NoSuchWinner
    | LedgerRefused
    | TransactionNotLocal
    | NotYetDue
    | EntropyNotReady

  datatype Result = Ok | Err(error: Error)
}
