/**
 What each entry point answers in every sound state: when it finishes, which error it gives otherwise, and when the
 token aborts it. Every answer is read off the stored records, the clock, the signatures and the balances.
 */
module BondAnswers {
  import opened BondInvariant
  import opened BondOrder
  import opened BondRelease
  import opened BondSpec
  import opened BondTypes
  import opened TokenBalances
  import opened Wrappers

  datatype Answer = Finished | Refusal(error: Error) | HostAbort

  function AnswerTo(s: State, c: Call): Answer {
    match Step(s, c)
    case Done(_) => Finished
    case Refused(error) => Refusal(error)
    case Aborted => HostAbort
  }

  /** The largest token amount, as a number. */
  const LARGEST: int := 170_141_183_460_469_231_731_687_303_715_884_105_727

  /** An account can take an amount more. */
  predicate HasRoom(s: State, a: Address, amount: int) {
    BalanceOf(s.balances, a) + amount <= LARGEST
  }

  predicate Exists(s: State, id: u64) {
    1 <= id <= s.eventCount
  }

  /** A transfer between different accounts goes through exactly when it is covered and there is room. */
  lemma TransferAnswers(s: State, source: Address, target: Address, amount: i128)
    requires source != target && 0 <= amount
    ensures Transferred(s.balances, source, target, amount).Some? <==>
      amount <= BalanceOf(s.balances, source) && HasRoom(s, target, amount)
  {}

  // ----- Creating and cancelling an event -----

  /** The event a creation would store. */
  function Proposed(s: State, p: Policy): Event
    requires s.eventCount < U64_MAX
  {
    Event(s.eventCount + 1, p.organizer, p.organizer, p.title, p.venue, p.bondAmount, p.capacity, 0,
          p.startTime, p.checkinStart, p.checkinDeadline, p.cancellationDeadline,
          p.organizerBps, p.communityBps, EventStatus.Active)
  }

  /** A creation finishes exactly when it is signed, an id is left and what it would store is sound and short enough. */
  lemma CreateFinishesExactly(s: State, signers: set<Address>, p: Policy)
    ensures AnswerTo(s, Call(signers, Action.CreateEvent(p))) == Finished <==>
      && p.organizer in signers
      && s.eventCount < 18_446_744_073_709_551_615
      && SoundEvent(s, Proposed(s, p))
      && |p.title| <= 96 && |p.venue| <= 160
  {}

  /** The schedule is in order: cancelling ends before check-in opens, and the start lies in the check-in window. */
  predicate InOrder(p: Policy) {
    p.cancellationDeadline <= p.checkinStart && p.checkinStart <= p.startTime && p.startTime <= p.checkinDeadline
  }

  lemma CreateAnswers(s: State, signers: set<Address>, p: Policy)
    ensures AnswerTo(s, Call(signers, Action.CreateEvent(p))) ==
      if p.organizer !in signers || p.organizer == s.self then HostAbort
      else if p.bondAmount <= 0 || p.capacity == 0 || 96 < |p.title| || 160 < |p.venue| then Refusal(InvalidAmount)
      else if 4_294_967_295 < p.organizerBps + p.communityBps then Refusal(Overflow)
      else if p.organizerBps + p.communityBps != 10_000 then Refusal(InvalidBasisPoints)
      else if !InOrder(p) then Refusal(InvalidSchedule)
      else if s.eventCount == 18_446_744_073_709_551_615 then Refusal(Overflow)
      else Finished
  {}

  lemma CancelEventAnswers(s: State, signers: set<Address>, id: u64)
    requires Inv(s)
    ensures AnswerTo(s, Call(signers, CancelEvent(id))) ==
      if !Exists(s, id) then Refusal(NotFound)
      else if s.events[id].organizer !in signers then HostAbort
      else if s.events[id].status == EventStatus.Cancelled then Refusal(NotActive)
      else Finished
  {
    if id in s.events {
      assert SoundEvent(s, s.events[id]);
    }
  }

  // ----- Reserving -----

  lemma ReserveAnswers(s: State, signers: set<Address>, key: Key)
    requires Inv(s)
    ensures AnswerTo(s, Call(signers, Action.Reserve(key))) ==
      if key.participant !in signers || key.participant == s.self then HostAbort
      else if !Exists(s, key.eventId) then Refusal(NotFound)
      else
        var e := s.events[key.eventId];
        if e.status == EventStatus.Cancelled then Refusal(NotActive)
        else if e.checkinDeadline <= s.now then Refusal(CheckInWindowClosed)
        else if |Seats(s, key.eventId)| == e.capacity then Refusal(EventFull)
        else if key in s.reservations then Refusal(AlreadyReserved)
        else if BalanceOf(s.balances, key.participant) < e.bondAmount then HostAbort
        else if !HasRoom(s, s.self, e.bondAmount) then HostAbort
        else Finished
  {
    if key.eventId in s.events {
      assert SoundEvent(s, s.events[key.eventId]);
      assert |Seats(s, key.eventId)| == s.events[key.eventId].reservedCount;
      CountNeverOverflows(s, signers, key);
      if key.participant != s.self {
        TransferAnswers(s, key.participant, s.self, s.events[key.eventId].bondAmount);
      }
    }
  }

  /** An active event with a seat left for a participant who never had one. */
  predicate SeatIsFree(s: State, key: Key)
    requires key.eventId in s.events
  {
    var e := s.events[key.eventId];
    e.status == EventStatus.Active && e.reservedCount < e.capacity && key !in s.reservations
  }

  /** A participant who signs gets a free seat until check-in closes, if and only if he can pay and there is room. */
  lemma ReserveFinishesExactly(s: State, key: Key)
    requires Inv(s)
    ensures AnswerTo(s, Call({key.participant}, Action.Reserve(key))) == Finished <==>
      && key.participant != s.self
      && key.eventId in s.events && SeatIsFree(s, key)
      && s.now < s.events[key.eventId].checkinDeadline
      && s.events[key.eventId].bondAmount <= BalanceOf(s.balances, key.participant)
      && HasRoom(s, s.self, s.events[key.eventId].bondAmount)
  {
    ReserveAnswers(s, {key.participant}, key);
    if key.eventId in s.events {
      assert |Seats(s, key.eventId)| == s.events[key.eventId].reservedCount;
    }
  }

  // ----- Releasing -----

  /** How every release begins: a record has to be there and Locked; its event always is. */
  lemma ReleaseBegins(s: State, key: Key)
    requires Inv(s)
    ensures LockedVerdict(s, key) ==
      if key !in s.reservations then Refuse(NotFound)
      else if s.reservations[key].status != Locked then Refuse(NotLocked)
      else Pass
  {
    if key in s.reservations {
      assert SoundReservation(s, key, s.reservations[key]);
    }
  }

  /** A covered refund of the whole bond finishes exactly when its participant has room. */
  lemma RefundAnswers(s: State, key: Key, status: ReservationStatus, events: map<u64, Event>, entry: LogEntry)
    requires Inv(s) && LockedVerdict(s, key) == Pass
    ensures var amount := s.reservations[key].amount;
      var o := Release(s, key, status, events, [Leg(key.participant, amount)], entry);
      && (o.Done? <==> HasRoom(s, key.participant, amount)) && (o.Done? || o == Aborted)
      && (o.Done? ==> BalanceOf(o.state.balances, key.participant) == BalanceOf(s.balances, key.participant) + amount)
  {
    assert SoundReservation(s, key, s.reservations[key]);
    BondCovered(s, key);
    OneLeg(s.balances, s.self, Leg(key.participant, s.reservations[key].amount));
    TransferAnswers(s, s.self, key.participant, s.reservations[key].amount);
  }

  lemma CancelReservationAnswers(s: State, signers: set<Address>, key: Key)
    requires Inv(s)
    ensures AnswerTo(s, Call(signers, CancelReservation(key))) ==
      if key.participant !in signers || key.participant == s.self then HostAbort
      else if key !in s.reservations then Refusal(NotFound)
      else if s.reservations[key].status != Locked then Refusal(NotLocked)
      else
        var e := s.events[key.eventId];
        if e.status == EventStatus.Cancelled then Refusal(NotActive)
        else if e.cancellationDeadline < s.now then Refusal(CancellationDeadlinePassed)
        else if !HasRoom(s, key.participant, s.reservations[key].amount) then HostAbort
        else Finished
  {
    ReleaseBegins(s, key);
    CountNeverOverflows(s, signers, key);
    if LockedVerdict(s, key) == Pass {
      var e := s.events[key.eventId];
      var n := if e.reservedCount == 0 then 0 else e.reservedCount - 1;
      RefundAnswers(s, key, ReservationStatus.Cancelled, s.events[key.eventId := e.(reservedCount := n)],
                    ReservationCancelled(key.eventId, key.participant, s.reservations[key].amount));
    }
  }

  /** The verifier's signature is all a check-in asks for. */
  lemma CheckInAnswers(s: State, signers: set<Address>, key: Key)
    requires Inv(s)
    ensures AnswerTo(s, Call(signers, Action.CheckIn(key))) ==
      if key !in s.reservations then Refusal(NotFound)
      else if s.reservations[key].status != Locked then Refusal(NotLocked)
      else
        var e := s.events[key.eventId];
        if e.verifier !in signers then HostAbort
        else if e.status == EventStatus.Cancelled then Refusal(NotActive)
        else if s.now < e.checkinStart then Refusal(CheckInNotOpen)
        else if e.checkinDeadline < s.now then Refusal(CheckInWindowClosed)
        else if !HasRoom(s, key.participant, s.reservations[key].amount) then HostAbort
        else Finished
  {
    ReleaseBegins(s, key);
    if LockedVerdict(s, key) == Pass {
      var r := s.reservations[key];
      assert SoundReservation(s, key, r) && SoundEvent(s, s.events[key.eventId]);
      RefundAnswers(s, key, Attended, s.events, CheckedIn(key.eventId, key.participant, r.amount));
    }
  }

  lemma ClaimAnswers(s: State, signers: set<Address>, key: Key)
    requires Inv(s)
    ensures AnswerTo(s, Call(signers, ClaimRefund(key))) ==
      if key !in s.reservations then Refusal(NotFound)
      else if s.reservations[key].status != Locked then Refusal(NotLocked)
      else if s.events[key.eventId].status == EventStatus.Active then Refusal(EventNotCancelled)
      else if !HasRoom(s, key.participant, s.reservations[key].amount) then HostAbort
      else Finished
  {
    ReleaseBegins(s, key);
    if LockedVerdict(s, key) == Pass {
      var r := s.reservations[key];
      assert SoundReservation(s, key, r);
      RefundAnswers(s, key, Refunded, s.events, RefundClaimed(key.eventId, key.participant, r.amount));
    }
  }

  /** A check-in pays the whole bond and marks the attendance; it changes no event. */
  lemma CheckInPays(s: State, signers: set<Address>, key: Key)
    requires Inv(s) && AnswerTo(s, Call(signers, Action.CheckIn(key))) == Finished
    ensures var s' := Next(s, Call(signers, Action.CheckIn(key)));
      && s'.events == s.events && s'.reservations == s.reservations[key := s.reservations[key].(status := Attended)]
      && BalanceOf(s'.balances, key.participant) == BalanceOf(s.balances, key.participant) + s.reservations[key].amount
  {
    assert SoundReservation(s, key, s.reservations[key]);
    RefundAnswers(s, key, Attended, s.events, CheckedIn(key.eventId, key.participant, s.reservations[key].amount));
  }

  /** A cancellation pays the whole bond and frees the seat. */
  lemma CancelReservationPays(s: State, signers: set<Address>, key: Key)
    requires Inv(s) && AnswerTo(s, Call(signers, CancelReservation(key))) == Finished
    ensures var s', seats := Next(s, Call(signers, CancelReservation(key))), |Seats(s, key.eventId)|;
      && key.eventId in s.events && 0 < seats
      && s'.events == s.events[key.eventId := s.events[key.eventId].(reservedCount := seats - 1)]
      && s'.reservations == s.reservations[key := s.reservations[key].(status := ReservationStatus.Cancelled)]
      && BalanceOf(s'.balances, key.participant) == BalanceOf(s.balances, key.participant) + s.reservations[key].amount
  {
    var e := s.events[key.eventId];
    assert |Seats(s, key.eventId)| == e.reservedCount;
    RefundAnswers(s, key, ReservationStatus.Cancelled,
                  s.events[key.eventId := e.(reservedCount := e.reservedCount - 1)],
                  ReservationCancelled(key.eventId, key.participant, s.reservations[key].amount));
  }

  /** Organizer and pool can take their shares, both if they are one account; the contract as pool always can. */
  predicate SplitHasRoom(s: State, organizer: Address, share: int, rest: int) {
    var pool := s.config.communityPool;
    if pool == organizer then HasRoom(s, organizer, share + rest)
    else HasRoom(s, organizer, share) && (pool == s.self || HasRoom(s, pool, rest))
  }

  lemma RoomForSplit(s: State, organizer: Address, share: i128, rest: i128)
    requires organizer != s.self && 0 <= share && 0 <= rest
    ensures Fits(s.balances, s.self, [Leg(organizer, share), Leg(s.config.communityPool, rest)]) <==>
            SplitHasRoom(s, organizer, share, rest)
  {
    var pool := s.config.communityPool;
    var legs := [Leg(organizer, share), Leg(pool, rest)];
    forall a: Address
      ensures Received(legs, a) == (if organizer == a then share else 0) + (if pool == a then rest else 0)
    {
      ReceivedTwo(organizer, pool, share, rest, a);
    }
    assert Received(legs, organizer) == share + (if pool == organizer then rest else 0);
    assert Received(legs, pool) == rest + (if pool == organizer then share else 0);
  }

  lemma DueSettlementIsNotRefused(s: State, key: Key)
    requires SettleVerdict(s, key) == Pass
    ensures !Settle(s, key).Refused?
  {}

  lemma DueSettlementAnswers(s: State, signers: set<Address>, key: Key)
    requires Inv(s) && SettleVerdict(s, key) == Pass
    ensures var e, amount := s.events[key.eventId], s.reservations[key].amount;
      var share := amount * e.organizerBps / 10_000;
      AnswerTo(s, Call(signers, SettleNoShow(key))) ==
        if SplitHasRoom(s, e.organizer, share, amount - share) then Finished else HostAbort
  {
    var e, amount := s.events[key.eventId], s.reservations[key].amount;
    assert SoundReservation(s, key, s.reservations[key]) && SoundEvent(s, e);
    ShareBounds(amount, e.organizerBps);
    var share := OrganizerShare(amount, e.organizerBps);
    RoomForSplit(s, e.organizer, share, amount - share);
    SettlementWaitsOnlyForItsReceivers(s, signers, key);
    DueSettlementIsNotRefused(s, key);
  }

  lemma SettleAnswers(s: State, signers: set<Address>, key: Key)
    requires Inv(s)
    ensures AnswerTo(s, Call(signers, SettleNoShow(key))) ==
      if key !in s.reservations then Refusal(NotFound)
      else if s.reservations[key].status != Locked then Refusal(NotLocked)
      else
        var e, amount := s.events[key.eventId], s.reservations[key].amount;
        var share := amount * e.organizerBps / 10_000;
        if e.status == EventStatus.Cancelled then Refusal(NotActive)
        else if s.now <= e.checkinDeadline then Refusal(SettlementTooEarly)
        else if LARGEST < amount * e.organizerBps then Refusal(Overflow)
        else if SplitHasRoom(s, e.organizer, share, amount - share) then Finished
        else HostAbort
  {
    ReleaseBegins(s, key);
    if LockedVerdict(s, key) == Pass {
      SettleVerdictOnSound(s, key);
      if SettleVerdict(s, key) == Pass {
        DueSettlementAnswers(s, signers, key);
      }
    }
  }
}
