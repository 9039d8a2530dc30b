/** Folding the published log from nothing rebuilds what storage says, in every reachable state. */
module BondReplay {
  import opened BondInvariant
  import opened BondSpec
  import opened BondTypes

  datatype EventReplica = EventReplica(
    organizer: Address, bondAmount: int, capacity: int, reservedCount: int, status: EventStatus)

  datatype SeatReplica = SeatReplica(amount: int, status: ReservationStatus)

  datatype Replica = Replica(events: map<u64, EventReplica>, seats: map<Key, SeatReplica>, custody: int)

  const EMPTY: Replica := Replica(map[], map[], 0)

  /** A seat is closed: its status changes and its bond leaves custody. */
  function Close(rep: Replica, key: Key, status: ReservationStatus, amount: int): Replica {
    if key !in rep.seats then rep
    else rep.(seats := rep.seats[key := rep.seats[key].(status := status)], custody := rep.custody - amount)
  }

  function CountSeat(rep: Replica, id: u64, delta: int): Replica {
    if id !in rep.events then rep
    else rep.(events := rep.events[id := rep.events[id].(reservedCount := rep.events[id].reservedCount + delta)])
  }

  /** What an observer who only reads the log makes of one more entry. */
  function Observe(rep: Replica, e: LogEntry): Replica {
    match e
    case EventCreated(id, organizer, bondAmount, capacity) =>
      rep.(events := rep.events[id := EventReplica(organizer, bondAmount, capacity, 0, EventStatus.Active)])
    case EventCancelled(id, _) =>
      if id !in rep.events then rep
      else rep.(events := rep.events[id := rep.events[id].(status := EventStatus.Cancelled)])
    case BondLocked(id, participant, amount) =>
      var counted := CountSeat(rep, id, 1);
      counted.(seats := counted.seats[Key(id, participant) := SeatReplica(amount, Locked)],
               custody := counted.custody + amount)
    case ReservationCancelled(id, participant, amount) =>
      Close(CountSeat(rep, id, -1), Key(id, participant), ReservationStatus.Cancelled, amount)
    case CheckedIn(id, participant, amount) => Close(rep, Key(id, participant), Attended, amount)
    case RefundClaimed(id, participant, amount) => Close(rep, Key(id, participant), Refunded, amount)
    case NoShowSettled(id, participant, organizerAmount, communityAmount) =>
      Close(rep, Key(id, participant), ReservationStatus.NoShowSettled, organizerAmount + communityAmount)
  }

  function Replay(log: seq<LogEntry>): Replica {
    if log == [] then EMPTY else Observe(Replay(log[..|log| - 1]), log[|log| - 1])
  }

  function ReplicaOf(e: Event): EventReplica {
    EventReplica(e.organizer, e.bondAmount, e.capacity, e.reservedCount, e.status)
  }

  function StoredEvents(events: map<u64, Event>): map<u64, EventReplica> {
    map id | id in events :: ReplicaOf(events[id])
  }

  function StoredSeats(reservations: map<Key, Reservation>): map<Key, SeatReplica> {
    map key | key in reservations :: SeatReplica(reservations[key].amount, reservations[key].status)
  }

  /** What storage says, in the observer's terms. */
  ghost function Stored(s: State): Replica {
    Replica(StoredEvents(s.events), StoredSeats(s.reservations), Custody(s))
  }

  lemma WriteEvent(events: map<u64, Event>, id: u64, e: Event)
    ensures StoredEvents(events[id := e]) == StoredEvents(events)[id := ReplicaOf(e)]
  {}

  lemma WriteSeat(reservations: map<Key, Reservation>, key: Key, r: Reservation)
    ensures StoredSeats(reservations[key := r]) == StoredSeats(reservations)[key := SeatReplica(r.amount, r.status)]
  {}

  /** The call appended one entry, and observing it turns the old storage into the new. */
  ghost predicate Observed(s: State, s': State) {
    || (s'.log == s.log && Stored(s') == Stored(s))
    || (s'.log != [] && s'.log[..|s'.log| - 1] == s.log && Stored(s') == Observe(Stored(s), s'.log[|s'.log| - 1]))
  }

  lemma CreateObserved(s: State, signers: set<Address>, p: Policy, s': State)
    requires Create(s, signers, p) == Done(s')
    ensures Observed(s, s')
  {
    SameReservationsSameCustody(s, s');
    WriteEvent(s.events, s'.eventCount, s'.events[s'.eventCount]);
  }

  lemma CallOffObserved(s: State, signers: set<Address>, id: u64, s': State)
    requires CallOff(s, signers, id) == Done(s')
    ensures Observed(s, s')
  {
    SameReservationsSameCustody(s, s');
    WriteEvent(s.events, id, s'.events[id]);
  }

  lemma ReserveObserved(s: State, signers: set<Address>, key: Key, s': State)
    requires ReserveSeat(s, signers, key) == Done(s')
    ensures Observed(s, s')
  {
    LockAddsCustody(s, s', key, s'.reservations[key]);
    WriteEvent(s.events, key.eventId, s'.events[key.eventId]);
    WriteSeat(s.reservations, key, s'.reservations[key]);
  }

  /** A closed reservation, with its event as it was or with one seat less. */
  lemma ReleaseObserved(s: State, s': State, key: Key, status: ReservationStatus, entry: LogEntry)
    requires LockedVerdict(s, key) == Pass && status != Locked
    requires s'.reservations == s.reservations[key := s.reservations[key].(status := status)]
    requires s'.log == s.log + [entry]
    requires Observe(Stored(s), entry) ==
      Close(Stored(s).(events := StoredEvents(s'.events)), key, status, s.reservations[key].amount)
    ensures Observed(s, s')
  {
    ReleaseTakesCustody(s, s', key, status);
    WriteSeat(s.reservations, key, s'.reservations[key]);
    assert s'.log[..|s'.log| - 1] == s.log;
  }

  lemma CancelSeatObserved(s: State, signers: set<Address>, key: Key, s': State)
    requires CancelSeat(s, signers, key) == Done(s')
    ensures Observed(s, s')
  {
    WriteEvent(s.events, key.eventId, s'.events[key.eventId]);
    ReleaseObserved(s, s', key, ReservationStatus.Cancelled, s'.log[|s.log|]);
  }

  lemma AttendObserved(s: State, signers: set<Address>, key: Key, s': State)
    requires SoundRecords(s) && Attend(s, signers, key) == Done(s')
    ensures Observed(s, s')
  {
    assert SoundReservation(s, key, s.reservations[key]);
    ReleaseObserved(s, s', key, Attended, s'.log[|s.log|]);
  }

  lemma ClaimObserved(s: State, key: Key, s': State)
    requires SoundRecords(s) && Claim(s, key) == Done(s')
    ensures Observed(s, s')
  {
    assert SoundReservation(s, key, s.reservations[key]);
    ReleaseObserved(s, s', key, Refunded, s'.log[|s.log|]);
  }

  lemma SettleObserved(s: State, key: Key, s': State)
    requires SoundRecords(s) && Settle(s, key) == Done(s')
    ensures Observed(s, s')
  {
    assert SoundReservation(s, key, s.reservations[key]);
    ReleaseObserved(s, s', key, ReservationStatus.NoShowSettled, s'.log[|s.log|]);
  }

  lemma CallObserved(s: State, c: Call)
    requires SoundRecords(s)
    ensures Observed(s, Next(s, c))
  {
    if Step(s, c).Done? {
      var s' := Next(s, c);
      match c.action
      case CreateEvent(p) => CreateObserved(s, c.signers, p, s');
      case Reserve(key) => ReserveObserved(s, c.signers, key, s');
      case CancelReservation(key) => CancelSeatObserved(s, c.signers, key, s');
      case CheckIn(key) => AttendObserved(s, c.signers, key, s');
      case CancelEvent(id) => CallOffObserved(s, c.signers, id, s');
      case ClaimRefund(key) => ClaimObserved(s, key, s');
      case SettleNoShow(key) => SettleObserved(s, key, s');
      case _ => SameReservationsSameCustody(s, s');
    }
  }

  lemma {:induction false} RunReplays(s: State, calls: seq<Call>)
    requires Inv(s) && Replay(s.log) == Stored(s)
    ensures Replay(Exec(s, calls).log) == Stored(Exec(s, calls))
    decreases |calls|
  {
    if calls != [] {
      CallObserved(s, calls[0]);
      CallKeepsInv(s, calls[0]);
      RunReplays(Next(s, calls[0]), calls[1..]);
    }
  }

  /**
   The log is enough: replaying it from nothing gives every event's terms, seat count and status, every
   reservation's amount and status, and, as logged inflow less logged outflow, the bonds in custody.
   */
  lemma ReplayRefinesStorage(s: State, calls: seq<Call>)
    requires Initial(s)
    ensures Replay(Exec(s, calls).log) == Stored(Exec(s, calls))
  {
    InitialInv(s);
    assert Stored(s) == EMPTY;
    RunReplays(s, calls);
  }
}
