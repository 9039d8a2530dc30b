/** What every call keeps: dense ids, sound records, seat counts that match, and custody that covers every bond. */
module BondInvariant {
  import opened BondSpec
  import opened BondTypes
  import opened MapSums
  import opened TokenBalances
  import opened Wrappers

  /** Events sit exactly at the ids 1 to eventCount, each under its own id. */
  ghost predicate DenseIds(s: State) {
    && (forall id: u64 :: id in s.events <==> 1 <= id <= s.eventCount)
    && (forall id: u64 :: id in s.events ==> s.events[id].id == id)
  }

  /** The terms create_event validated. */
  ghost predicate SoundEvent(s: State, e: Event) {
    && 0 < e.bondAmount
    && 0 < e.capacity
    && e.organizerBps + e.communityBps == TOTAL_BPS
    && e.cancellationDeadline <= e.checkinStart <= e.startTime <= e.checkinDeadline
    && e.organizer == e.verifier != s.self
  }

  /** A reservation sits under its own key, holds the event's bond and was made before check-in closed. */
  ghost predicate SoundReservation(s: State, key: Key, r: Reservation) {
    && key.eventId in s.events
    && r.eventId == key.eventId
    && r.participant == key.participant != s.self
    && r.amount == s.events[key.eventId].bondAmount
    && r.reservedAt < s.events[key.eventId].checkinDeadline
    && r.reservedAt <= s.now
    && (r.status == Refunded ==> s.events[key.eventId].status == EventStatus.Cancelled)
    && (r.status == ReservationStatus.NoShowSettled ==> s.events[key.eventId].checkinDeadline < s.now)
  }

  ghost predicate SoundRecords(s: State) {
    && (forall id: u64 :: id in s.events ==> SoundEvent(s, s.events[id]))
    && (forall key: Key :: key in s.reservations ==> SoundReservation(s, key, s.reservations[key]))
  }

  /** The reservations of an event that hold a seat: all but the cancelled ones. */
  ghost function Seats(s: State, id: u64): set<Key> {
    set key | key in s.reservations && key.eventId == id
           && s.reservations[key].status != ReservationStatus.Cancelled
  }

  ghost predicate SeatsCounted(s: State) {
    forall id: u64 :: id in s.events ==> |Seats(s, id)| == s.events[id].reservedCount <= s.events[id].capacity
  }

  /** The amounts of all Locked bonds, and their total. */
  ghost function LockedAmounts(s: State): map<Key, int> {
    map key | key in s.reservations && s.reservations[key].status == Locked :: s.reservations[key].amount
  }

  ghost function Custody(s: State): int {
    Sum(LockedAmounts(s))
  }

  ghost predicate Solvent(s: State) {
    Custody(s) <= BalanceOf(s.balances, s.self)
  }

  ghost predicate Inv(s: State) {
    && DenseIds(s)
    && SoundRecords(s)
    && SeatsCounted(s)
    && Solvent(s)
  }

  /** Tokens that reach the contract's account without becoming anybody's bond. */
  function Donation(s: State, c: Call): int {
    if !Step(s, c).Done? then 0
    else
      match c.action
      case OutsideTransfer(_, target, amount) => if target == s.self then amount else 0
      case OutsideMint(target, amount) => if target == s.self then amount else 0
      case SettleNoShow(key) =>
        // The constructor does not stop the pool from being the contract itself.
        if s.config.communityPool == s.self && key in s.reservations && key.eventId in s.events
        then s.reservations[key].amount - OrganizerShare(s.reservations[key].amount, s.events[key.eventId].organizerBps)
        else 0
      case _ => 0
  }

  function Donations(s: State, calls: seq<Call>): int
    decreases |calls|
  {
    if calls == [] then 0 else Donation(s, calls[0]) + Donations(Next(s, calls[0]), calls[1..])
  }

  /** New tokens less destroyed ones: the only way the supply changes. */
  function Issued(s: State, c: Call): int {
    if !Step(s, c).Done? then 0
    else
      match c.action
      case OutsideMint(_, amount) => amount
      case OutsideBurn(_, amount) => -amount
      case _ => 0
  }

  lemma InitialInv(s: State)
    requires Initial(s)
    ensures Inv(s) && Custody(s) == 0
  {
    assert LockedAmounts(s) == map[];
  }

  // ----- Splitting a bond -----

  /** Both legs of a split are non-negative, fit their type and add up to the bond. */
  lemma ShareBounds(amount: int, bps: int)
    requires 0 <= amount && 0 <= bps <= TOTAL_BPS
    ensures 0 <= OrganizerShare(amount, bps) <= amount
    ensures OrganizerShare(amount, bps) * TOTAL_BPS <= amount * bps < (OrganizerShare(amount, bps) + 1) * TOTAL_BPS
  {
    assert 0 <= amount * bps;
    assert amount * bps <= amount * TOTAL_BPS;
  }

  /** On sound records the split is refused only when the checked multiply overflows. */
  lemma SettleVerdictOnSound(s: State, key: Key)
    requires SoundRecords(s) && LockedVerdict(s, key) == Pass
    ensures var e, amount := s.events[key.eventId], s.reservations[key].amount;
      SettleVerdict(s, key) ==
        if e.status != EventStatus.Active then Refuse(NotActive)
        else if s.now <= e.checkinDeadline then Refuse(SettlementTooEarly)
        else if amount * e.organizerBps > I128_MAX then Refuse(Overflow)
        else Pass
  {
    ShareBounds(s.reservations[key].amount, s.events[key.eventId].organizerBps);
  }

  // ----- Bookkeeping of one reservation -----

  /** A new Locked bond adds its amount to custody. */
  lemma LockAddsCustody(s: State, s': State, key: Key, r: Reservation)
    requires key !in s.reservations && r.status == Locked
    requires s'.reservations == s.reservations[key := r]
    ensures Custody(s') == Custody(s) + r.amount
  {
    assert LockedAmounts(s') == LockedAmounts(s)[key := r.amount];
    SumPut(LockedAmounts(s), key, r.amount);
  }

  /** Closing a Locked bond takes exactly its amount out of custody. */
  lemma ReleaseTakesCustody(s: State, s': State, key: Key, status: ReservationStatus)
    requires key in s.reservations && s.reservations[key].status == Locked && status != Locked
    requires s'.reservations == s.reservations[key := s.reservations[key].(status := status)]
    ensures Custody(s') == Custody(s) - s.reservations[key].amount
  {
    assert LockedAmounts(s') == LockedAmounts(s) - {key};
    SumRemove(LockedAmounts(s), key);
  }

  lemma SameReservationsSameCustody(s: State, s': State)
    requires s'.reservations == s.reservations
    ensures Custody(s') == Custody(s)
  {
    assert LockedAmounts(s') == LockedAmounts(s);
  }

  /** How a new or cancelled seat changes the seat sets. */
  lemma SeatTaken(s: State, s': State, key: Key, r: Reservation)
    requires key !in s.reservations && r.status == Locked
    requires s'.reservations == s.reservations[key := r]
    ensures |Seats(s', key.eventId)| == |Seats(s, key.eventId)| + 1
    ensures forall id: u64 :: id != key.eventId ==> Seats(s', id) == Seats(s, id)
  {
    assert Seats(s', key.eventId) == Seats(s, key.eventId) + {key};
  }

  lemma SeatFreed(s: State, s': State, key: Key)
    requires key in s.reservations && s.reservations[key].status == Locked
    requires s'.reservations == s.reservations[key := s.reservations[key].(status := ReservationStatus.Cancelled)]
    ensures key in Seats(s, key.eventId)
    ensures |Seats(s', key.eventId)| == |Seats(s, key.eventId)| - 1
    ensures forall id: u64 :: id != key.eventId ==> Seats(s', id) == Seats(s, id)
  {
    assert Seats(s', key.eventId) == Seats(s, key.eventId) - {key};
  }

  lemma SeatKept(s: State, s': State, key: Key, status: ReservationStatus)
    requires key in s.reservations && s.reservations[key].status == Locked
    requires status != ReservationStatus.Cancelled
    requires s'.reservations == s.reservations[key := s.reservations[key].(status := status)]
    ensures forall id: u64 :: Seats(s', id) == Seats(s, id)
  {}

  // ----- What never changes -----

  /** An event keeps its terms; it can only change its seat count and become cancelled, for good. */
  ghost predicate EventEvolves(e: Event, e': Event) {
    && e' == e.(reservedCount := e'.reservedCount, status := e'.status)
    && (e.status == EventStatus.Cancelled ==> e'.status == EventStatus.Cancelled)
  }

  /** A reservation keeps everything but its status, and its status only while that is Locked. */
  ghost predicate ReservationEvolves(r: Reservation, r': Reservation) {
    && r' == r.(status := r'.status)
    && (r.status != Locked ==> r' == r)
  }

  ghost predicate Evolves(s: State, s': State) {
    && s'.self == s.self && s'.config == s.config
    && s.now <= s'.now && s.eventCount <= s'.eventCount
    && (forall id: u64 :: id in s.events ==> id in s'.events && EventEvolves(s.events[id], s'.events[id]))
    && (forall key: Key :: key in s.reservations ==>
          key in s'.reservations && ReservationEvolves(s.reservations[key], s'.reservations[key]))
  }

  /** The event and the reservation a call may write. */
  function TouchedEvent(s: State, a: Action): int {
    match a
    case CreateEvent(_) => s.eventCount + 1
    case CancelEvent(id) => id
    case Reserve(key) => key.eventId
    case CancelReservation(key) => key.eventId
    case CheckIn(key) => key.eventId
    case ClaimRefund(key) => key.eventId
    case SettleNoShow(key) => key.eventId
    case _ => 0
  }

  function TouchedKey(a: Action): Option<Key> {
    match a
    case Reserve(key) => Some(key)
    case CancelReservation(key) => Some(key)
    case CheckIn(key) => Some(key)
    case ClaimRefund(key) => Some(key)
    case SettleNoShow(key) => Some(key)
    case _ => None
  }

  /** At most one event and one reservation are written, each forward in its lifecycle. */
  ghost predicate EventsStep(s: State, s': State, id: int) {
    || s'.events == s.events
    || (&& id in s'.events
        && s'.events == s.events[id := s'.events[id]]
        && (id in s.events ==> EventEvolves(s.events[id], s'.events[id])))
  }

  ghost predicate ReservationsStep(s: State, s': State, touched: Option<Key>) {
    || s'.reservations == s.reservations
    || (&& touched.Some? && touched.value in s'.reservations
        && s'.reservations == s.reservations[touched.value := s'.reservations[touched.value]]
        && (touched.value in s.reservations ==>
              ReservationEvolves(s.reservations[touched.value], s'.reservations[touched.value])))
  }

  /** The frame of a call: identity and configuration stay, time and ids only grow. */
  ghost predicate Writes(s: State, s': State, id: int, touched: Option<Key>) {
    && s'.self == s.self && s'.config == s.config
    && s.now <= s'.now && s.eventCount <= s'.eventCount
    && EventsStep(s, s', id)
    && ReservationsStep(s, s', touched)
  }

  lemma CreateWrites(s: State, signers: set<Address>, p: Policy, s': State)
    requires s.eventCount + 1 !in s.events && Create(s, signers, p) == Done(s')
    ensures Writes(s, s', s.eventCount + 1, None)
  {}

  lemma ReserveWrites(s: State, signers: set<Address>, key: Key, s': State)
    requires ReserveSeat(s, signers, key) == Done(s')
    ensures Writes(s, s', key.eventId, Some(key))
  {}

  lemma CallOffWrites(s: State, signers: set<Address>, id: u64, s': State)
    requires CallOff(s, signers, id) == Done(s')
    ensures Writes(s, s', id, None)
  {}

  lemma CancelSeatWrites(s: State, signers: set<Address>, key: Key, s': State)
    requires CancelSeat(s, signers, key) == Done(s')
    ensures Writes(s, s', key.eventId, Some(key))
  {}

  /** Calls that close a bond and leave every event as it is. */
  lemma PayoutWrites(s: State, signers: set<Address>, key: Key, s': State)
    requires Attend(s, signers, key) == Done(s') || Claim(s, key) == Done(s') || Settle(s, key) == Done(s')
    ensures Writes(s, s', key.eventId, Some(key))
  {}

  lemma CallWrites(s: State, c: Call)
    requires s.eventCount + 1 !in s.events
    ensures Writes(s, Next(s, c), TouchedEvent(s, c.action), TouchedKey(c.action))
  {
    if Step(s, c).Done? {
      var s' := Next(s, c);
      match c.action
      case CreateEvent(p) => CreateWrites(s, c.signers, p, s');
      case Reserve(key) => ReserveWrites(s, c.signers, key, s');
      case CancelReservation(key) => CancelSeatWrites(s, c.signers, key, s');
      case CancelEvent(id) => CallOffWrites(s, c.signers, id, s');
      case CheckIn(key) => PayoutWrites(s, c.signers, key, s');
      case ClaimRefund(key) => PayoutWrites(s, c.signers, key, s');
      case SettleNoShow(key) => PayoutWrites(s, c.signers, key, s');
      case _ =>
    }
  }

  lemma WritesEvolve(s: State, s': State, id: int, touched: Option<Key>)
    requires Writes(s, s', id, touched)
    ensures Evolves(s, s')
  {}

  /** Every call, failed or not, moves every record forward in its lifecycle or leaves it alone. */
  lemma CallEvolves(s: State, c: Call)
    requires DenseIds(s)
    ensures Evolves(s, Next(s, c))
  {
    CallWrites(s, c);
    WritesEvolve(s, Next(s, c), TouchedEvent(s, c.action), TouchedKey(c.action));
  }

  // ----- One call: the records -----

  /** A call that writes no new event keeps the ids dense and the records it did not touch sound. */
  lemma WritesKeepRecords(s: State, s': State, id: int, touched: Option<Key>)
    requires DenseIds(s) && SoundRecords(s) && Writes(s, s', id, touched)
    requires s'.eventCount == s.eventCount && (id in s.events || s'.events == s.events)
    requires s'.reservations == s.reservations
             || SoundReservation(s', touched.value, s'.reservations[touched.value])
    ensures DenseIds(s') && SoundRecords(s')
  {
    forall i: u64 | i in s'.events ensures SoundEvent(s', s'.events[i]) {
      assert EventEvolves(s.events[i], s'.events[i]);
    }
    forall k: Key | k in s'.reservations ensures SoundReservation(s', k, s'.reservations[k]) {
      if k in s.reservations {
        assert SoundReservation(s, k, s.reservations[k]);
      }
    }
  }

  lemma CreateKeepsRecords(s: State, signers: set<Address>, p: Policy, s': State)
    requires DenseIds(s) && SoundRecords(s) && Create(s, signers, p) == Done(s')
    ensures DenseIds(s') && SoundRecords(s')
  {
    assert SoundEvent(s', s'.events[s'.eventCount]);
    forall i: u64 | i in s'.events ensures SoundEvent(s', s'.events[i]) {
      if i in s.events {
        assert SoundEvent(s, s.events[i]);
      }
    }
    forall k: Key | k in s'.reservations ensures SoundReservation(s', k, s'.reservations[k]) {
      assert SoundReservation(s, k, s.reservations[k]);
    }
  }

  lemma ReserveKeepsRecords(s: State, signers: set<Address>, key: Key, s': State)
    requires DenseIds(s) && SoundRecords(s) && ReserveSeat(s, signers, key) == Done(s')
    ensures DenseIds(s') && SoundRecords(s')
  {
    ReserveWrites(s, signers, key, s');
    WritesKeepRecords(s, s', key.eventId, Some(key));
  }

  lemma CancelSeatKeepsRecords(s: State, signers: set<Address>, key: Key, s': State)
    requires DenseIds(s) && SoundRecords(s) && CancelSeat(s, signers, key) == Done(s')
    ensures DenseIds(s') && SoundRecords(s')
  {
    assert SoundReservation(s, key, s.reservations[key]);
    CancelSeatWrites(s, signers, key, s');
    WritesKeepRecords(s, s', key.eventId, Some(key));
  }

  lemma PayoutKeepsRecords(s: State, signers: set<Address>, key: Key, s': State)
    requires DenseIds(s) && SoundRecords(s)
    requires Attend(s, signers, key) == Done(s') || Claim(s, key) == Done(s') || Settle(s, key) == Done(s')
    ensures DenseIds(s') && SoundRecords(s')
  {
    assert SoundReservation(s, key, s.reservations[key]);
    PayoutWrites(s, signers, key, s');
    WritesKeepRecords(s, s', key.eventId, Some(key));
  }

  lemma CallOffKeepsRecords(s: State, signers: set<Address>, id: u64, s': State)
    requires DenseIds(s) && SoundRecords(s) && CallOff(s, signers, id) == Done(s')
    ensures DenseIds(s') && SoundRecords(s')
  {
    CallOffWrites(s, signers, id, s');
    WritesKeepRecords(s, s', id, None);
  }

  lemma CallKeepsRecords(s: State, c: Call)
    requires DenseIds(s) && SoundRecords(s)
    ensures DenseIds(Next(s, c)) && SoundRecords(Next(s, c))
  {
    if Step(s, c).Done? {
      var s' := Next(s, c);
      match c.action
      case CreateEvent(p) => CreateKeepsRecords(s, c.signers, p, s');
      case Reserve(key) => ReserveKeepsRecords(s, c.signers, key, s');
      case CancelReservation(key) => CancelSeatKeepsRecords(s, c.signers, key, s');
      case CancelEvent(id) => CallOffKeepsRecords(s, c.signers, id, s');
      case CheckIn(key) => PayoutKeepsRecords(s, c.signers, key, s');
      case ClaimRefund(key) => PayoutKeepsRecords(s, c.signers, key, s');
      case SettleNoShow(key) => PayoutKeepsRecords(s, c.signers, key, s');
      case _ => WritesKeepRecords(s, s', 0, None);
    }
  }

  // ----- One call: the seats -----

  lemma SeatsStay(s: State, s': State)
    requires SeatsCounted(s)
    requires forall id: u64 :: Seats(s', id) == Seats(s, id)
    requires forall id: u64 :: id in s'.events ==>
      if id in s.events then
        s'.events[id].reservedCount == s.events[id].reservedCount && s'.events[id].capacity == s.events[id].capacity
      else s'.events[id].reservedCount == 0 && Seats(s, id) == {}
    ensures SeatsCounted(s')
  {}

  lemma NewEventIsEmpty(s: State, id: u64)
    requires SoundRecords(s) && id !in s.events
    ensures Seats(s, id) == {}
  {
    assert forall key: Key :: key in s.reservations ==> SoundReservation(s, key, s.reservations[key]);
  }

  lemma CreateKeepsSeats(s: State, signers: set<Address>, p: Policy, s': State)
    requires DenseIds(s) && SoundRecords(s) && SeatsCounted(s)
    requires Create(s, signers, p) == Done(s')
    ensures SeatsCounted(s')
  {
    NewEventIsEmpty(s, s'.eventCount);
    assert forall id: u64 :: Seats(s', id) == Seats(s, id);
    SeatsStay(s, s');
  }

  lemma ReserveKeepsSeats(s: State, signers: set<Address>, key: Key, s': State)
    requires SeatsCounted(s) && ReserveSeat(s, signers, key) == Done(s')
    ensures SeatsCounted(s')
  {
    SeatTaken(s, s', key, s'.reservations[key]);
    forall id: u64 | id in s'.events
      ensures |Seats(s', id)| == s'.events[id].reservedCount <= s'.events[id].capacity
    {
      assert |Seats(s, id)| == s.events[id].reservedCount;
    }
  }

  lemma CancelSeatKeepsSeats(s: State, signers: set<Address>, key: Key, s': State)
    requires SeatsCounted(s) && CancelSeat(s, signers, key) == Done(s')
    ensures SeatsCounted(s')
  {
    SeatFreed(s, s', key);
    forall id: u64 | id in s'.events
      ensures |Seats(s', id)| == s'.events[id].reservedCount <= s'.events[id].capacity
    {
      assert |Seats(s, id)| == s.events[id].reservedCount;
    }
  }

  /** Checking in, claiming and settling close a bond but keep its seat taken. */
  lemma ReleaseKeepsSeats(s: State, s': State, key: Key, status: ReservationStatus, legs: seq<Leg>, entry: LogEntry)
    requires SeatsCounted(s) && LockedVerdict(s, key) == Pass && status != ReservationStatus.Cancelled
    requires Release(s, key, status, s.events, legs, entry) == Done(s')
    ensures SeatsCounted(s')
  {
    SeatKept(s, s', key, status);
    SeatsStay(s, s');
  }

  lemma CallOffKeepsSeats(s: State, signers: set<Address>, id: u64, s': State)
    requires SeatsCounted(s) && CallOff(s, signers, id) == Done(s')
    ensures SeatsCounted(s')
  {
    assert forall i: u64 :: Seats(s', i) == Seats(s, i);
    SeatsStay(s, s');
  }

  lemma AttendKeepsSeats(s: State, signers: set<Address>, key: Key, s': State)
    requires SeatsCounted(s) && Attend(s, signers, key) == Done(s')
    ensures SeatsCounted(s')
  {
    var r := s.reservations[key];
    ReleaseKeepsSeats(s, s', key, Attended, [Leg(r.participant, r.amount)],
                      CheckedIn(key.eventId, r.participant, r.amount));
  }

  lemma ClaimKeepsSeats(s: State, key: Key, s': State)
    requires SeatsCounted(s) && Claim(s, key) == Done(s')
    ensures SeatsCounted(s')
  {
    var r := s.reservations[key];
    ReleaseKeepsSeats(s, s', key, Refunded, [Leg(r.participant, r.amount)],
                      RefundClaimed(key.eventId, r.participant, r.amount));
  }

  lemma SettleKeepsSeats(s: State, key: Key, s': State)
    requires SeatsCounted(s) && Settle(s, key) == Done(s')
    ensures SeatsCounted(s')
  {
    var e, r := s.events[key.eventId], s.reservations[key];
    var share := OrganizerShare(r.amount, e.organizerBps);
    ReleaseKeepsSeats(s, s', key, ReservationStatus.NoShowSettled,
                      [Leg(e.organizer, share), Leg(s.config.communityPool, r.amount - share)],
                      LogEntry.NoShowSettled(key.eventId, r.participant, share, r.amount - share));
  }

  lemma CallKeepsSeats(s: State, c: Call)
    requires DenseIds(s) && SoundRecords(s) && SeatsCounted(s)
    ensures SeatsCounted(Next(s, c))
  {
    if Step(s, c).Done? {
      var s' := Next(s, c);
      match c.action
      case CreateEvent(p) => CreateKeepsSeats(s, c.signers, p, s');
      case Reserve(key) => ReserveKeepsSeats(s, c.signers, key, s');
      case CancelReservation(key) => CancelSeatKeepsSeats(s, c.signers, key, s');
      case CancelEvent(id) => CallOffKeepsSeats(s, c.signers, id, s');
      case CheckIn(key) => AttendKeepsSeats(s, c.signers, key, s');
      case ClaimRefund(key) => ClaimKeepsSeats(s, key, s');
      case SettleNoShow(key) => SettleKeepsSeats(s, key, s');
      case _ =>
        assert forall id: u64 :: Seats(s', id) == Seats(s, id);
    }
  }

  // ----- One call: the money -----

  /** The contract's balance moves with custody and with donations, and with nothing else. */
  ghost predicate Balanced(s: State, s': State, donated: int) {
    BalanceOf(s'.balances, s.self) - Custody(s') == BalanceOf(s.balances, s.self) - Custody(s) + donated
  }

  lemma ReserveMoves(s: State, signers: set<Address>, key: Key, s': State)
    requires ReserveSeat(s, signers, key) == Done(s')
    ensures Balanced(s, s', 0) && Supply(s'.balances) == Supply(s.balances)
  {
    LockAddsCustody(s, s', key, s'.reservations[key]);
    TransferMoves(s.balances, key.participant, s.self, s'.reservations[key].amount);
  }

  lemma ReleaseMoves(s: State, s': State, key: Key, status: ReservationStatus,
                     events: map<u64, Event>, legs: seq<Leg>, entry: LogEntry)
    requires LockedVerdict(s, key) == Pass && status != Locked
    requires Release(s, key, status, events, legs, entry) == Done(s')
    ensures Balanced(s, s', s.reservations[key].amount + LegsFlow(s.self, legs, s.self))
    ensures Supply(s'.balances) == Supply(s.balances)
  {
    PaidOutMoves(s.balances, s.self, legs);
    ReleaseTakesCustody(s, s', key, status);
  }

  /** A full refund to anyone but the contract itself. */
  lemma RefundMoves(s: State, s': State, key: Key, status: ReservationStatus,
                    events: map<u64, Event>, target: Address, entry: LogEntry)
    requires LockedVerdict(s, key) == Pass && status != Locked && target != s.self
    requires Release(s, key, status, events, [Leg(target, s.reservations[key].amount)], entry) == Done(s')
    ensures Balanced(s, s', 0) && Supply(s'.balances) == Supply(s.balances)
  {
    var legs := [Leg(target, s.reservations[key].amount)];
    ReleaseMoves(s, s', key, status, events, legs, entry);
    assert LegsFlow(s.self, legs[1..], s.self) == 0;
  }

  lemma SettleMoves(s: State, key: Key, s': State)
    requires SoundRecords(s) && Settle(s, key) == Done(s')
    ensures var community := s.reservations[key].amount
                             - OrganizerShare(s.reservations[key].amount, s.events[key.eventId].organizerBps);
      && 0 <= community
      && Balanced(s, s', if s.config.communityPool == s.self then community else 0)
      && Supply(s'.balances) == Supply(s.balances)
  {
    var e, r := s.events[key.eventId], s.reservations[key];
    ShareBounds(r.amount, e.organizerBps);
    var share := OrganizerShare(r.amount, e.organizerBps);
    var legs := [Leg(e.organizer, share), Leg(s.config.communityPool, r.amount - share)];
    ReleaseMoves(s, s', key, ReservationStatus.NoShowSettled, s.events, legs,
                 LogEntry.NoShowSettled(key.eventId, r.participant, share, r.amount - share));
    assert legs[1..] == [legs[1]];
    assert LegsFlow(s.self, [legs[1]], s.self) == LegFlow(s.self, legs[1], s.self) + LegsFlow(s.self, [], s.self);
  }

  lemma OutsideMoves(s: State, c: Call)
    requires Step(s, c).Done?
    requires c.action.OutsideTransfer? || c.action.OutsideMint? || c.action.OutsideBurn? || c.action.Tick?
    ensures 0 <= Donation(s, c)
    ensures Balanced(s, Next(s, c), Donation(s, c))
    ensures Supply(Next(s, c).balances) == Supply(s.balances) + Issued(s, c)
  {
    SameReservationsSameCustody(s, Next(s, c));
    match c.action
    case OutsideTransfer(source, target, amount) => TransferMoves(s.balances, source, target, amount);
    case OutsideMint(target, amount) => SumPut(s.balances, target, BalanceOf(s.balances, target) + amount);
    case OutsideBurn(source, amount) => SumPut(s.balances, source, BalanceOf(s.balances, source) - amount);
    case Tick(_) =>
  }

  /** What one call does to the contract's balance, to custody and to the supply. */
  lemma CallMoves(s: State, c: Call)
    requires DenseIds(s) && SoundRecords(s)
    ensures 0 <= Donation(s, c)
    ensures Balanced(s, Next(s, c), Donation(s, c))
    ensures Supply(Next(s, c).balances) == Supply(s.balances) + Issued(s, c)
  {
    if Step(s, c).Done? {
      var s' := Next(s, c);
      match c.action
      case CreateEvent(_) => SameReservationsSameCustody(s, s');
      case CancelEvent(_) => SameReservationsSameCustody(s, s');
      case Reserve(key) => ReserveMoves(s, c.signers, key, s');
      case SettleNoShow(key) => SettleMoves(s, key, s');
      case CancelReservation(key) =>
        RefundMoves(s, s', key, ReservationStatus.Cancelled, s'.events, key.participant,
                    ReservationCancelled(key.eventId, key.participant, s.reservations[key].amount));
      case CheckIn(key) =>
        assert SoundReservation(s, key, s.reservations[key]);
        RefundMoves(s, s', key, Attended, s.events, key.participant,
                    CheckedIn(key.eventId, key.participant, s.reservations[key].amount));
      case ClaimRefund(key) =>
        assert SoundReservation(s, key, s.reservations[key]);
        RefundMoves(s, s', key, Refunded, s.events, key.participant,
                    RefundClaimed(key.eventId, key.participant, s.reservations[key].amount));
      case _ => OutsideMoves(s, c);
    }
  }

  lemma StaysSolvent(s: State, s': State, donated: int)
    requires Solvent(s) && s'.self == s.self && 0 <= donated && Balanced(s, s', donated)
    ensures Solvent(s')
  {}

  lemma CallKeepsInv(s: State, c: Call)
    requires Inv(s)
    ensures Inv(Next(s, c))
  {
    CallKeepsRecords(s, c);
    CallKeepsSeats(s, c);
    CallMoves(s, c);
    CallWrites(s, c);
    StaysSolvent(s, Next(s, c), Donation(s, c));
  }

  // ----- Whole runs -----

  lemma {:induction false} RunKeepsInv(s: State, calls: seq<Call>)
    requires Inv(s)
    ensures Inv(Exec(s, calls))
    ensures Exec(s, calls).self == s.self && Exec(s, calls).config == s.config
    ensures s.now <= Exec(s, calls).now
    decreases |calls|
  {
    if calls != [] {
      CallKeepsInv(s, calls[0]);
      CallEvolves(s, calls[0]);
      RunKeepsInv(Next(s, calls[0]), calls[1..]);
    }
  }

  /**
   Solvency over every run: whoever calls what in whatever order, the contract holds the Locked bonds,
   what its account held when it was deployed, and what was sent to it since. Nothing less, nothing more.
   */
  lemma {:induction false} CustodyIsExact(s: State, calls: seq<Call>)
    requires Inv(s)
    ensures var s' := Exec(s, calls);
      && 0 <= Donations(s, calls)
      && BalanceOf(s'.balances, s.self) ==
         Custody(s') + (BalanceOf(s.balances, s.self) - Custody(s)) + Donations(s, calls)
    decreases |calls|
  {
    if calls != [] {
      CallKeepsInv(s, calls[0]);
      CallMoves(s, calls[0]);
      CallEvolves(s, calls[0]);
      CustodyIsExact(Next(s, calls[0]), calls[1..]);
    }
  }

  lemma SolvencyFromDeployment(s: State, calls: seq<Call>)
    requires Initial(s)
    ensures var s' := Exec(s, calls);
      BalanceOf(s'.balances, s'.self) == Custody(s') + BalanceOf(s.balances, s.self) + Donations(s, calls)
  {
    InitialInv(s);
    CustodyIsExact(s, calls);
    RunKeepsInv(s, calls);
  }

  /** No entry point creates or destroys tokens. */
  lemma EntryPointsKeepSupply(s: State, c: Call)
    requires Inv(s) && !c.action.OutsideMint? && !c.action.OutsideBurn?
    ensures Supply(Next(s, c).balances) == Supply(s.balances)
  {
    CallMoves(s, c);
  }

  /** A Locked reservation holds a seat, so its event's count is never zero when it is cancelled. */
  lemma CountNeverOverflows(s: State, signers: set<Address>, key: Key)
    requires SeatsCounted(s)
    ensures ReserveVerdict(s, signers, key) != Refuse(Overflow)
    ensures CancelVerdict(s, signers, key) != Refuse(Overflow)
  {
    if LockedVerdict(s, key) == Pass {
      assert key in Seats(s, key.eventId);
      assert |Seats(s, key.eventId)| == s.events[key.eventId].reservedCount;
    }
  }

  /** Seat accounting in every reachable state; the count's own overflow and underflow never happen. */
  lemma SeatAccounting(s: State, calls: seq<Call>, signers: set<Address>, key: Key)
    requires Initial(s)
    ensures var s' := Exec(s, calls);
      && (forall id: u64 :: id in s'.events ==>
            s'.events[id].reservedCount == |Seats(s', id)| <= s'.events[id].capacity)
      && ReserveVerdict(s', signers, key) != Refuse(Overflow)
      && CancelVerdict(s', signers, key) != Refuse(Overflow)
  {
    InitialInv(s);
    RunKeepsInv(s, calls);
    CountNeverOverflows(Exec(s, calls), signers, key);
  }

  /** Dense ids in every reachable state. */
  lemma IdsAreDense(s: State, calls: seq<Call>, id: u64)
    requires Initial(s)
    ensures var s' := Exec(s, calls);
      && (id in s'.events <==> 1 <= id <= s'.eventCount)
      && (id in s'.events ==> s'.events[id].id == id)
  {
    InitialInv(s);
    RunKeepsInv(s, calls);
  }
}
