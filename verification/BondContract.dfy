/**
 The contract as it runs: entry points that load records, write them back and then move tokens.

 Every entry point is proved to do to the storage, the balances and the log exactly what the function
 Step of BondSpec says, including the rollback the host performs when a token transfer fails.
 */
module BondContract {
  import opened BondSpec
  import opened BondTypes
  import opened TokenBalances
  import opened Wrappers

  /** Why a call did not finish: a typed error of the contract, or an abort by the host. */
  datatype Failure = Contract(error: Error) | HostAbort

  /** The settlement token, which keeps its own balances. */
  class TokenLedger {
    var balances: Balances

    constructor (initial: Balances)
      ensures balances == initial
    {
      balances := initial;
    }

    /** Debits, then credits; a credit that does not fit undoes the debit. */
    method Transfer(source: Address, target: Address, amount: i128) returns (ok: bool)
      modifies this
      ensures ok <==> Transferred(old(balances), source, target, amount).Some?
      ensures balances == if ok then Transferred(old(balances), source, target, amount).value else old(balances)
    {
      var before := balances;
      var available := BalanceOf(balances, source);
      if amount < 0 || available < amount {
        return false;
      }
      balances := balances[source := available - amount];
      var received := BalanceOf(balances, target) + amount;
      if received > I128_MAX {
        balances := before;
        return false;
      }
      balances := balances[target := received];
      return true;
    }
  }

  /** The contract's keyed entries. A record is stored under the key its own fields name. */
  class Storage {
    var config: Config
    var eventCount: u64
    var events: map<u64, Event>
    var reservations: map<Key, Reservation>

    ghost predicate WellKeyed()
      reads this
    {
      && (forall id: u64 :: id in events ==> events[id].id == id)
      && (forall key: Key :: key in reservations ==>
            Key(reservations[key].eventId, reservations[key].participant) == key)
    }

    constructor (config: Config)
      ensures WellKeyed()
      ensures this.config == config && eventCount == 0 && events == map[] && reservations == map[]
    {
      this.config := config;
      eventCount, events, reservations := 0, map[], map[];
    }

    function GetEvent(id: u64): Option<Event>
      reads this
    {
      if id in events then Some(events[id]) else None
    }

    function GetReservation(id: u64, participant: Address): Option<Reservation>
      reads this
    {
      var key := Key(id, participant);
      if key in reservations then Some(reservations[key]) else None
    }

    method SetEventCount(count: u64)
      modifies this`eventCount
      ensures eventCount == count
    {
      eventCount := count;
    }

    method SetEvent(e: Event)
      requires WellKeyed()
      modifies this`events
      ensures WellKeyed() && events == old(events)[e.id := e]
    {
      events := events[e.id := e];
    }

    method SetReservation(r: Reservation)
      requires WellKeyed()
      modifies this`reservations
      ensures WellKeyed() && reservations == old(reservations)[Key(r.eventId, r.participant) := r]
    {
      reservations := reservations[Key(r.eventId, r.participant) := r];
    }

    /** The host's rollback of a failed invocation. */
    method Restore(events: map<u64, Event>, reservations: map<Key, Reservation>)
      modifies this`events, this`reservations
      ensures this.events == events && this.reservations == reservations
    {
      this.events, this.reservations := events, reservations;
    }
  }

  class ShowUpBond {
    const self: Address
    const storage: Storage
    const token: TokenLedger
    var log: seq<LogEntry>

    constructor (self: Address, config: Config, token: TokenLedger, now: u64)
      ensures this.self == self && this.token == token && fresh(storage)
      ensures Valid() && Initial(At(now)) && At(now).config == config
    {
      this.self, this.token := self, token;
      this.storage := new Storage(config);
      log := [];
    }

    ghost predicate Valid()
      reads this, storage
    {
      storage.WellKeyed()
    }

    /** The abstract state at a ledger time. */
    ghost function At(now: u64): State
      reads this, storage, token
    {
      State(self, storage.config, storage.eventCount, storage.events, storage.reservations,
            token.balances, log, now)
    }

    /** A call's answer and its effect, told by the specification. */
    ghost predicate Answers(before: State, call: Call, failure: Option<Failure>, after: State) {
      && after == Next(before, call)
      && failure == (match Step(before, call)
                     case Done(_) => None
                     case Refused(error) => Some(Contract(error))
                     case Aborted => Some(HostAbort))
    }

    predicate Authorised(signers: set<Address>, a: Address) {
      a in signers && a != self
    }

    method CreateEvent(signers: set<Address>, now: u64, p: Policy) returns (r: Result<u64, Failure>)
      requires Valid()
      modifies this, storage
      ensures Valid()
      ensures Answers(old(At(now)), Call(signers, Action.CreateEvent(p)),
                      if r.Ok? then None else Some(r.error), At(now))
      ensures r.Ok? ==> r.value == old(storage.eventCount) + 1 == storage.eventCount
    {
      if !Authorised(signers, p.organizer) {
        return Err(HostAbort);
      }
      if p.bondAmount <= 0 || p.capacity == 0 || |p.title| > MAX_TITLE_LENGTH || |p.venue| > MAX_VENUE_LENGTH {
        return Err(Contract(InvalidAmount));
      }
      var totalBps := p.organizerBps + p.communityBps;
      if totalBps > U32_MAX {
        return Err(Contract(Overflow));
      }
      if totalBps != TOTAL_BPS {
        return Err(Contract(InvalidBasisPoints));
      }
      if p.cancellationDeadline > p.checkinStart || p.checkinStart > p.checkinDeadline
         || p.startTime < p.checkinStart || p.startTime > p.checkinDeadline {
        return Err(Contract(InvalidSchedule));
      }
      if storage.eventCount == U64_MAX {
        return Err(Contract(Overflow));
      }
      var id := storage.eventCount + 1;
      var e := Event(id, p.organizer, p.organizer, p.title, p.venue, p.bondAmount, p.capacity, 0,
                     p.startTime, p.checkinStart, p.checkinDeadline, p.cancellationDeadline,
                     p.organizerBps, p.communityBps, EventStatus.Active);
      storage.SetEventCount(id);
      storage.SetEvent(e);
      log := log + [EventCreated(id, p.organizer, p.bondAmount, p.capacity)];
      return Ok(id);
    }

    method Reserve(signers: set<Address>, now: u64, id: u64, participant: Address) returns (failure: Option<Failure>)
      requires Valid()
      modifies this, storage, token
      ensures Valid()
      ensures Answers(old(At(now)), Call(signers, Action.Reserve(Key(id, participant))), failure, At(now))
    {
      if !Authorised(signers, participant) {
        return Some(HostAbort);
      }
      var found := storage.GetEvent(id);
      if found.None? {
        return Some(Contract(NotFound));
      }
      var event := found.value;
      if event.status != EventStatus.Active {
        return Some(Contract(NotActive));
      }
      if now >= event.checkinDeadline {
        return Some(Contract(CheckInWindowClosed));
      }
      if event.reservedCount >= event.capacity {
        return Some(Contract(EventFull));
      }
      if storage.GetReservation(id, participant).Some? {
        return Some(Contract(AlreadyReserved));
      }
      if event.reservedCount == U32_MAX {
        return Some(Contract(Overflow));
      }
      event := event.(reservedCount := event.reservedCount + 1);
      var reservation := Reservation(id, participant, event.bondAmount, now, Locked);

      var events, reservations := storage.events, storage.reservations;
      storage.SetEvent(event);
      storage.SetReservation(reservation);
      var paid := token.Transfer(participant, self, reservation.amount);
      if !paid {
        storage.Restore(events, reservations);
        return Some(HostAbort);
      }
      log := log + [BondLocked(id, participant, reservation.amount)];
      return None;
    }

    method CancelReservation(signers: set<Address>, now: u64, id: u64, participant: Address)
      returns (failure: Option<Failure>)
      requires Valid()
      modifies this, storage, token
      ensures Valid()
      ensures Answers(old(At(now)), Call(signers, Action.CancelReservation(Key(id, participant))), failure, At(now))
    {
      if !Authorised(signers, participant) {
        return Some(HostAbort);
      }
      var found := storage.GetReservation(id, participant);
      if found.None? {
        return Some(Contract(NotFound));
      }
      var reservation := found.value;
      if reservation.status != Locked {
        return Some(Contract(NotLocked));
      }
      var stored := storage.GetEvent(id);
      if stored.None? {
        return Some(Contract(NotFound));
      }
      var event := stored.value;
      if event.status != EventStatus.Active {
        return Some(Contract(NotActive));
      }
      if now > event.cancellationDeadline {
        return Some(Contract(CancellationDeadlinePassed));
      }
      if event.reservedCount == 0 {
        return Some(Contract(Overflow));
      }
      event := event.(reservedCount := event.reservedCount - 1);
      reservation := reservation.(status := ReservationStatus.Cancelled);

      var events, reservations := storage.events, storage.reservations;
      storage.SetEvent(event);
      storage.SetReservation(reservation);
      OneLeg(token.balances, self, Leg(participant, reservation.amount));
      var paid := token.Transfer(self, participant, reservation.amount);
      if !paid {
        storage.Restore(events, reservations);
        return Some(HostAbort);
      }
      log := log + [ReservationCancelled(id, participant, reservation.amount)];
      return None;
    }

    method CheckIn(signers: set<Address>, now: u64, id: u64, participant: Address) returns (failure: Option<Failure>)
      requires Valid()
      modifies this, storage, token
      ensures Valid()
      ensures Answers(old(At(now)), Call(signers, Action.CheckIn(Key(id, participant))), failure, At(now))
    {
      var found := storage.GetReservation(id, participant);
      if found.None? {
        return Some(Contract(NotFound));
      }
      var reservation := found.value;
      if reservation.status != Locked {
        return Some(Contract(NotLocked));
      }
      var stored := storage.GetEvent(id);
      if stored.None? {
        return Some(Contract(NotFound));
      }
      var event := stored.value;
      if !Authorised(signers, event.verifier) {
        return Some(HostAbort);
      }
      if event.status != EventStatus.Active {
        return Some(Contract(NotActive));
      }
      if now < event.checkinStart {
        return Some(Contract(CheckInNotOpen));
      }
      if now > event.checkinDeadline {
        return Some(Contract(CheckInWindowClosed));
      }
      reservation := reservation.(status := Attended);

      var events, reservations := storage.events, storage.reservations;
      storage.SetReservation(reservation);
      OneLeg(token.balances, self, Leg(reservation.participant, reservation.amount));
      var paid := token.Transfer(self, reservation.participant, reservation.amount);
      if !paid {
        storage.Restore(events, reservations);
        return Some(HostAbort);
      }
      log := log + [CheckedIn(id, reservation.participant, reservation.amount)];
      return None;
    }

    method CancelEvent(signers: set<Address>, now: u64, id: u64) returns (failure: Option<Failure>)
      requires Valid()
      modifies this, storage
      ensures Valid()
      ensures Answers(old(At(now)), Call(signers, Action.CancelEvent(id)), failure, At(now))
    {
      var stored := storage.GetEvent(id);
      if stored.None? {
        return Some(Contract(NotFound));
      }
      var event := stored.value;
      if !Authorised(signers, event.organizer) {
        return Some(HostAbort);
      }
      if event.status != EventStatus.Active {
        return Some(Contract(NotActive));
      }
      event := event.(status := EventStatus.Cancelled);
      storage.SetEvent(event);
      log := log + [EventCancelled(id, event.organizer)];
      return None;
    }

    method ClaimCancelledEventRefund(now: u64, id: u64, participant: Address) returns (failure: Option<Failure>)
      requires Valid()
      modifies this, storage, token
      ensures Valid()
      ensures Answers(old(At(now)), Call({}, Action.ClaimRefund(Key(id, participant))), failure, At(now))
    {
      var found := storage.GetReservation(id, participant);
      if found.None? {
        return Some(Contract(NotFound));
      }
      var reservation := found.value;
      if reservation.status != Locked {
        return Some(Contract(NotLocked));
      }
      var stored := storage.GetEvent(id);
      if stored.None? {
        return Some(Contract(NotFound));
      }
      var event := stored.value;
      if event.status != EventStatus.Cancelled {
        return Some(Contract(EventNotCancelled));
      }
      reservation := reservation.(status := Refunded);

      var events, reservations := storage.events, storage.reservations;
      storage.SetReservation(reservation);
      OneLeg(token.balances, self, Leg(reservation.participant, reservation.amount));
      var paid := token.Transfer(self, reservation.participant, reservation.amount);
      if !paid {
        storage.Restore(events, reservations);
        return Some(HostAbort);
      }
      log := log + [RefundClaimed(id, reservation.participant, reservation.amount)];
      return None;
    }

    /** A checked multiply, a truncating division and a checked subtraction. */
    method CheckedSplit(amount: i128, organizerBps: u32) returns (split: Option<(i128, i128)>)
      ensures split.Some? <==>
        && IsI128(amount * organizerBps)
        && IsI128(OrganizerShare(amount, organizerBps))
        && IsI128(amount - OrganizerShare(amount, organizerBps))
      ensures split.Some? ==>
        split.value == (OrganizerShare(amount, organizerBps), amount - OrganizerShare(amount, organizerBps))
    {
      var product := amount * organizerBps;
      if !IsI128(product) {
        return None;
      }
      var organizerAmount := TruncDiv(product, TOTAL_BPS);
      if !IsI128(organizerAmount) || !IsI128(amount - organizerAmount) {
        return None;
      }
      return Some((organizerAmount, amount - organizerAmount));
    }

    /** Both transfers of a settlement; a failure of the second undoes the first. */
    method PaySplit(organizer: Address, organizerAmount: i128, pool: Address, communityAmount: i128)
      returns (ok: bool)
      modifies token
      ensures var legs := [Leg(organizer, organizerAmount), Leg(pool, communityAmount)];
        var paid := PaidOut(old(token.balances), self, legs);
        && ok == paid.Some?
        && token.balances == (if ok then paid.value else old(token.balances))
    {
      var balances := token.balances;
      TwoLegs(balances, self, [Leg(organizer, organizerAmount), Leg(pool, communityAmount)]);
      ok := token.Transfer(self, organizer, organizerAmount);
      if ok {
        ok := token.Transfer(self, pool, communityAmount);
        if !ok {
          token.balances := balances;
        }
      }
    }

    method SettleNoShow(now: u64, id: u64, participant: Address) returns (failure: Option<Failure>)
      requires Valid()
      modifies this, storage, token
      ensures Valid()
      ensures Answers(old(At(now)), Call({}, Action.SettleNoShow(Key(id, participant))), failure, At(now))
    {
      var found := storage.GetReservation(id, participant);
      if found.None? {
        return Some(Contract(NotFound));
      }
      var reservation := found.value;
      if reservation.status != Locked {
        return Some(Contract(NotLocked));
      }
      var stored := storage.GetEvent(id);
      if stored.None? {
        return Some(Contract(NotFound));
      }
      var event := stored.value;
      if event.status != EventStatus.Active {
        return Some(Contract(NotActive));
      }
      if now <= event.checkinDeadline {
        return Some(Contract(SettlementTooEarly));
      }
      var split := CheckedSplit(reservation.amount, event.organizerBps);
      if split.None? {
        return Some(Contract(Overflow));
      }
      var (organizerAmount, communityAmount) := split.value;
      reservation := reservation.(status := ReservationStatus.NoShowSettled);

      var events, reservations := storage.events, storage.reservations;
      storage.SetReservation(reservation);
      var paid := PaySplit(event.organizer, organizerAmount, storage.config.communityPool, communityAmount);
      if !paid {
        storage.Restore(events, reservations);
        return Some(HostAbort);
      }
      log := log + [LogEntry.NoShowSettled(id, reservation.participant, organizerAmount, communityAmount)];
      return None;
    }
  }
}
