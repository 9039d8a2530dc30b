/**
 The contract as a function from state and call to outcome.

 A call either finishes with a new state, is refused with one of the contract's typed errors, or is
 aborted by the host (a missing signature or a refused token transfer). Only the first kind leaves a
 trace: everything a failed call wrote is rolled back.
 */
module BondSpec {
  import opened BondTypes
  import opened TokenBalances

  datatype State = State(
    self: Address,
    config: Config,
    eventCount: u64,
    events: map<u64, Event>,
    reservations: map<Key, Reservation>,
    balances: Balances,
    log: seq<LogEntry>,
    now: u64)

  /** The arguments of create_event. */
  datatype Policy = Policy(
    organizer: Address,
    title: seq<byte>,
    venue: seq<byte>,
    bondAmount: i128,
    capacity: u32,
    startTime: u64,
    checkinStart: u64,
    checkinDeadline: u64,
    cancellationDeadline: u64,
    organizerBps: u32,
    communityBps: u32)

  /** The seven entry points, and what can happen around the contract between two of them. */
  datatype Action =
    | CreateEvent(policy: Policy)
    | Reserve(key: Key)
    | CancelReservation(key: Key)
    | CheckIn(key: Key)
    | CancelEvent(eventId: u64)
    | ClaimRefund(key: Key)
    | SettleNoShow(key: Key)
    | OutsideTransfer(source: Address, target: Address, amount: i128)
    | OutsideMint(target: Address, amount: i128)
    | OutsideBurn(source: Address, amount: i128)
    | Tick(time: u64)

  /** A call carries the addresses that signed it. */
  datatype Call = Call(signers: set<Address>, action: Action)

  datatype Verdict = Pass | Refuse(error: Error) | Abort

  datatype Outcome = Done(state: State) | Refused(error: Error) | Aborted

  // ----- Guards, in the order in which the source checks them -----

  /** The contract calls nothing but the token, so it never signs for itself. */
  predicate Signed(s: State, signers: set<Address>, a: Address) {
    a in signers && a != s.self
  }

  predicate ValidSchedule(p: Policy) {
    && p.cancellationDeadline <= p.checkinStart
    && p.checkinStart <= p.startTime <= p.checkinDeadline
  }

  function CreateVerdict(s: State, signers: set<Address>, p: Policy): Verdict {
    if !Signed(s, signers, p.organizer) then Abort
    else if p.bondAmount <= 0 || p.capacity == 0
            || |p.title| > MAX_TITLE_LENGTH || |p.venue| > MAX_VENUE_LENGTH then Refuse(InvalidAmount)
    else if p.organizerBps + p.communityBps > U32_MAX then Refuse(Overflow)
    else if p.organizerBps + p.communityBps != TOTAL_BPS then Refuse(InvalidBasisPoints)
    else if !ValidSchedule(p) then Refuse(InvalidSchedule)
    else if s.eventCount == U64_MAX then Refuse(Overflow)
    else Pass
  }

  function ReserveVerdict(s: State, signers: set<Address>, key: Key): Verdict {
    if !Signed(s, signers, key.participant) then Abort
    else if key.eventId !in s.events then Refuse(NotFound)
    else
      var e := s.events[key.eventId];
      if e.status != EventStatus.Active then Refuse(NotActive)
      else if s.now >= e.checkinDeadline then Refuse(CheckInWindowClosed)
      else if e.reservedCount >= e.capacity then Refuse(EventFull)
      else if key in s.reservations then Refuse(AlreadyReserved)
      else if e.reservedCount == U32_MAX then Refuse(Overflow)
      else Pass
  }

  /** The start shared by the four calls that release a bond: a Locked record and its event must exist. */
  function LockedVerdict(s: State, key: Key): Verdict {
    if key !in s.reservations then Refuse(NotFound)
    else if s.reservations[key].status != Locked then Refuse(NotLocked)
    else if key.eventId !in s.events then Refuse(NotFound)
    else Pass
  }

  function CancelVerdict(s: State, signers: set<Address>, key: Key): Verdict {
    if !Signed(s, signers, key.participant) then Abort
    else if LockedVerdict(s, key) != Pass then LockedVerdict(s, key)
    else
      var e := s.events[key.eventId];
      if e.status != EventStatus.Active then Refuse(NotActive)
      else if s.now > e.cancellationDeadline then Refuse(CancellationDeadlinePassed)
      else if e.reservedCount == 0 then Refuse(Overflow)
      else Pass
  }

  function CheckInVerdict(s: State, signers: set<Address>, key: Key): Verdict {
    if LockedVerdict(s, key) != Pass then LockedVerdict(s, key)
    else
      var e := s.events[key.eventId];
      if !Signed(s, signers, e.verifier) then Abort
      else if e.status != EventStatus.Active then Refuse(NotActive)
      else if s.now < e.checkinStart then Refuse(CheckInNotOpen)
      else if s.now > e.checkinDeadline then Refuse(CheckInWindowClosed)
      else Pass
  }

  function CancelEventVerdict(s: State, signers: set<Address>, id: u64): Verdict {
    if id !in s.events then Refuse(NotFound)
    else if !Signed(s, signers, s.events[id].organizer) then Abort
    else if s.events[id].status != EventStatus.Active then Refuse(NotActive)
    else Pass
  }

  function ClaimVerdict(s: State, key: Key): Verdict {
    if LockedVerdict(s, key) != Pass then LockedVerdict(s, key)
    else if s.events[key.eventId].status != EventStatus.Cancelled then Refuse(EventNotCancelled)
    else Pass
  }

  /** The organizer's share of a bond: a multiply that is checked, then a truncating division. */
  function OrganizerShare(amount: int, organizerBps: int): int {
    TruncDiv(amount * organizerBps, TOTAL_BPS)
  }

  function SettleVerdict(s: State, key: Key): Verdict {
    if LockedVerdict(s, key) != Pass then LockedVerdict(s, key)
    else
      var e, amount := s.events[key.eventId], s.reservations[key].amount;
      if e.status != EventStatus.Active then Refuse(NotActive)
      else if s.now <= e.checkinDeadline then Refuse(SettlementTooEarly)
      else if !IsI128(amount * e.organizerBps) then Refuse(Overflow)
      else if !IsI128(OrganizerShare(amount, e.organizerBps)) then Refuse(Overflow)
      else if !IsI128(amount - OrganizerShare(amount, e.organizerBps)) then Refuse(Overflow)
      else Pass
  }

  // ----- Effects -----

  function Fail(v: Verdict): (o: Outcome)
    requires v != Pass
  {
    if v == Abort then Aborted else Refused(v.error)
  }

  function Create(s: State, signers: set<Address>, p: Policy): Outcome {
    var v := CreateVerdict(s, signers, p);
    if v != Pass then Fail(v)
    else
      var id := s.eventCount + 1;
      var e := Event(id, p.organizer, p.organizer, p.title, p.venue, p.bondAmount, p.capacity, 0,
                     p.startTime, p.checkinStart, p.checkinDeadline, p.cancellationDeadline,
                     p.organizerBps, p.communityBps, EventStatus.Active);
      Done(s.(eventCount := id, events := s.events[id := e],
              log := s.log + [EventCreated(id, p.organizer, p.bondAmount, p.capacity)]))
  }

  function ReserveSeat(s: State, signers: set<Address>, key: Key): Outcome {
    var v := ReserveVerdict(s, signers, key);
    if v != Pass then Fail(v)
    else
      var e := s.events[key.eventId];
      var r := Reservation(key.eventId, key.participant, e.bondAmount, s.now, Locked);
      match Transferred(s.balances, key.participant, s.self, r.amount)
      case None => Aborted
      case Some(b) =>
        Done(s.(events := s.events[key.eventId := e.(reservedCount := e.reservedCount + 1)],
                reservations := s.reservations[key := r],
                balances := b,
                log := s.log + [BondLocked(key.eventId, key.participant, r.amount)]))
  }

  /** Closes a Locked reservation, pays the legs out of custody and publishes the entry. */
  function Release(s: State, key: Key, status: ReservationStatus, events: map<u64, Event>,
                   legs: seq<Leg>, entry: LogEntry): Outcome
    requires key in s.reservations
  {
    match PaidOut(s.balances, s.self, legs)
    case None => Aborted
    case Some(b) =>
      Done(s.(events := events,
              reservations := s.reservations[key := s.reservations[key].(status := status)],
              balances := b,
              log := s.log + [entry]))
  }

  function CancelSeat(s: State, signers: set<Address>, key: Key): Outcome {
    var v := CancelVerdict(s, signers, key);
    if v != Pass then Fail(v)
    else
      var e, r := s.events[key.eventId], s.reservations[key];
      Release(s, key, ReservationStatus.Cancelled,
              s.events[key.eventId := e.(reservedCount := e.reservedCount - 1)],
              [Leg(key.participant, r.amount)],
              ReservationCancelled(key.eventId, key.participant, r.amount))
  }

  function Attend(s: State, signers: set<Address>, key: Key): Outcome {
    var v := CheckInVerdict(s, signers, key);
    if v != Pass then Fail(v)
    else
      var r := s.reservations[key];
      Release(s, key, Attended, s.events, [Leg(r.participant, r.amount)],
              CheckedIn(key.eventId, r.participant, r.amount))
  }

  function CallOff(s: State, signers: set<Address>, id: u64): Outcome {
    var v := CancelEventVerdict(s, signers, id);
    if v != Pass then Fail(v)
    else
      Done(s.(events := s.events[id := s.events[id].(status := EventStatus.Cancelled)],
              log := s.log + [EventCancelled(id, s.events[id].organizer)]))
  }

  function Claim(s: State, key: Key): Outcome {
    var v := ClaimVerdict(s, key);
    if v != Pass then Fail(v)
    else
      var r := s.reservations[key];
      Release(s, key, Refunded, s.events, [Leg(r.participant, r.amount)],
              RefundClaimed(key.eventId, r.participant, r.amount))
  }

  function Settle(s: State, key: Key): Outcome {
    var v := SettleVerdict(s, key);
    if v != Pass then Fail(v)
    else
      var e, r := s.events[key.eventId], s.reservations[key];
      var organizerAmount := OrganizerShare(r.amount, e.organizerBps);
      var communityAmount := r.amount - organizerAmount;
      Release(s, key, ReservationStatus.NoShowSettled, s.events,
              [Leg(e.organizer, organizerAmount), Leg(s.config.communityPool, communityAmount)],
              LogEntry.NoShowSettled(key.eventId, r.participant, organizerAmount, communityAmount))
  }

  // ----- What happens around the contract -----

  function MovedOutside(s: State, signers: set<Address>, source: Address, target: Address, amount: i128): Outcome {
    if !Signed(s, signers, source) then Aborted
    else
      match Transferred(s.balances, source, target, amount)
      case None => Aborted
      case Some(b) => Done(s.(balances := b))
  }

  function Minted(s: State, target: Address, amount: i128): Outcome {
    if amount < 0 || BalanceOf(s.balances, target) + amount > I128_MAX then Aborted
    else Done(s.(balances := s.balances[target := BalanceOf(s.balances, target) + amount]))
  }

  function Burned(s: State, signers: set<Address>, source: Address, amount: i128): Outcome {
    if !Signed(s, signers, source) || amount < 0 || BalanceOf(s.balances, source) < amount then Aborted
    else Done(s.(balances := s.balances[source := BalanceOf(s.balances, source) - amount]))
  }

  function Step(s: State, c: Call): Outcome {
    match c.action
    case CreateEvent(p) => Create(s, c.signers, p)
    case Reserve(key) => ReserveSeat(s, c.signers, key)
    case CancelReservation(key) => CancelSeat(s, c.signers, key)
    case CheckIn(key) => Attend(s, c.signers, key)
    case CancelEvent(id) => CallOff(s, c.signers, id)
    case ClaimRefund(key) => Claim(s, key)
    case SettleNoShow(key) => Settle(s, key)
    case OutsideTransfer(source, target, amount) => MovedOutside(s, c.signers, source, target, amount)
    case OutsideMint(target, amount) => Minted(s, target, amount)
    case OutsideBurn(source, amount) => Burned(s, c.signers, source, amount)
    case Tick(time) => if time < s.now then Aborted else Done(s.(now := time))
  }

  /** The state after a call: a refused or aborted call changes nothing. */
  function Next(s: State, c: Call): State {
    match Step(s, c)
    case Done(s') => s'
    case _ => s
  }

  /** The state after a whole run of calls, whoever makes them and in whatever order. */
  function Exec(s: State, calls: seq<Call>): State
    decreases |calls|
  {
    if calls == [] then s else Exec(Next(s, calls[0]), calls[1..])
  }

  /** The state the constructor leaves, with the token balances and the clock of that moment. */
  predicate Initial(s: State) {
    && s.eventCount == 0
    && s.events == map[]
    && s.reservations == map[]
    && s.log == []
  }
}
