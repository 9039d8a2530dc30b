/** The contract's records, its error codes, its emitted events and the machine integers they use. */
module BondTypes {
  const U32_MAX: int := 0xffff_ffff
  const U64_MAX: int := 0xffff_ffff_ffff_ffff
  const I128_MAX: int := 0x7fff_ffff_ffff_ffff_ffff_ffff_ffff_ffff
  const I128_MIN: int := -I128_MAX - 1

  const TOTAL_BPS: int := 10_000
  const MAX_TITLE_LENGTH: int := 96
  const MAX_VENUE_LENGTH: int := 160

  type u32 = x: int | 0 <= x <= U32_MAX
  type u64 = x: int | 0 <= x <= U64_MAX
  type i128 = x: int | I128_MIN <= x <= I128_MAX

  /** One byte of a UTF-8 string: the contract measures titles and venues in bytes. */
  newtype byte = x: int | 0 <= x < 256

  /** An account or contract address in its text form, which is never empty. */
  type Address = a: string | a != "" witness "G"

  datatype Config = Config(token: Address, communityPool: Address)

  datatype EventStatus = Active | Cancelled

  datatype Event = Event(
    id: u64,
    organizer: Address,
    verifier: Address,
    title: seq<byte>,
    venue: seq<byte>,
    bondAmount: i128,
    capacity: u32,
    reservedCount: u32,
    startTime: u64,
    checkinStart: u64,
    checkinDeadline: u64,
    cancellationDeadline: u64,
    organizerBps: u32,
    communityBps: u32,
    status: EventStatus)

  datatype ReservationStatus = Locked | Attended | Cancelled | Refunded | NoShowSettled

  /** The storage key of a reservation. */
  datatype Key = Key(eventId: u64, participant: Address)

  datatype Reservation = Reservation(
    eventId: u64,
    participant: Address,
    amount: i128,
    reservedAt: u64,
    status: ReservationStatus)

  datatype Error =
    | NotFound
    | NotActive
    | AlreadyReserved
    | EventFull
    | NotLocked
    | CheckInNotOpen
    | CheckInWindowClosed
    | CancellationDeadlinePassed
    | SettlementTooEarly
    | InvalidBasisPoints
    | InvalidSchedule
    | InvalidAmount
    | Overflow
    | EventNotCancelled

  /** The events the contract publishes, in the order of publication. */
  datatype LogEntry =
    | EventCreated(eventId: u64, organizer: Address, bondAmount: i128, capacity: u32)
    | BondLocked(eventId: u64, participant: Address, amount: i128)
    | ReservationCancelled(eventId: u64, participant: Address, amount: i128)
    | CheckedIn(eventId: u64, participant: Address, amount: i128)
    | EventCancelled(eventId: u64, organizer: Address)
    | RefundClaimed(eventId: u64, participant: Address, amount: i128)
    | NoShowSettled(eventId: u64, participant: Address, organizerAmount: i128, communityAmount: i128)

  predicate IsI128(x: int) {
    I128_MIN <= x <= I128_MAX
  }

  /** Integer division that rounds toward zero, as Rust and BigInt divide. */
  function TruncDiv(a: int, b: int): int
    requires b > 0
  {
    if a >= 0 then a / b else -(-a / b)
  }
}
