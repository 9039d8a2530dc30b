/**
 What the parties agreed to, and what can only happen with their signature.

 Terms and seats are kept word for word over every run, the log answers what a release will say, and nobody
 who stays silent loses tokens or has a decision made in his place.
 */
module BondTerms {
  import opened BondHistory
  import opened BondInvariant
  import opened BondSpec
  import opened BondTypes
  import opened TokenBalances
  import opened Wrappers

  // ----- Terms -----

  /** The arguments an event was created with, read back from storage. */
  function PolicyOf(e: Event): Policy {
    Policy(e.organizer, e.title, e.venue, e.bondAmount, e.capacity, e.startTime, e.checkinStart,
           e.checkinDeadline, e.cancellationDeadline, e.organizerBps, e.communityBps)
  }

  /** Whatever happens later, an event is stored under the next id with the very terms it was created with. */
  lemma PublishedTermsHold(s: State, signers: set<Address>, p: Policy, calls: seq<Call>)
    requires Inv(s) && Create(s, signers, p).Done?
    ensures var id, s' := s.eventCount + 1, Exec(Create(s, signers, p).state, calls);
      && id !in s.events && id in s'.events
      && PolicyOf(s'.events[id]) == p
      && s'.events[id].id == id && s'.events[id].verifier == p.organizer
  {
    var created := Create(s, signers, p).state;
    var c := Call(signers, Action.CreateEvent(p));
    assert Next(s, c) == created;
    CallKeepsInv(s, c);
    RunEvolves(created, calls);
    assert EventEvolves(created.events[s.eventCount + 1], Exec(created, calls).events[s.eventCount + 1]);
  }

  lemma SeatIsWritten(s: State, signers: set<Address>, key: Key, taken: State)
    requires Inv(s) && ReserveSeat(s, signers, key) == Done(taken)
    ensures Inv(taken) && key !in s.reservations && key in taken.reservations && key.eventId in taken.events
    ensures taken.reservations[key] ==
      Reservation(key.eventId, key.participant, taken.events[key.eventId].bondAmount, s.now, Locked)
  {
    var c := Call(signers, Action.Reserve(key));
    assert Next(s, c) == taken;
    CallKeepsInv(s, c);
  }

  lemma SeatHolds(s: State, s': State, key: Key)
    requires Evolves(s, s') && key in s.reservations && key.eventId in s.events
    ensures key in s'.reservations && key.eventId in s'.events
    ensures s'.reservations[key] == s.reservations[key].(status := s'.reservations[key].status)
    ensures s'.events[key.eventId].bondAmount == s.events[key.eventId].bondAmount
  {
    assert ReservationEvolves(s.reservations[key], s'.reservations[key]);
    assert EventEvolves(s.events[key.eventId], s'.events[key.eventId]);
  }

  /** Whatever happens later, a seat is stored with its owner, the event's bond and the time it was taken. */
  lemma ReservedSeatHolds(s: State, signers: set<Address>, key: Key, calls: seq<Call>)
    requires Inv(s) && ReserveSeat(s, signers, key).Done?
    ensures var s' := Exec(ReserveSeat(s, signers, key).state, calls);
      && key !in s.reservations && key in s'.reservations && key.eventId in s'.events
      && s'.reservations[key] == Reservation(key.eventId, key.participant, s'.events[key.eventId].bondAmount, s.now,
                                             s'.reservations[key].status)
  {
    var taken := ReserveSeat(s, signers, key).state;
    SeatIsWritten(s, signers, key, taken);
    RunEvolves(taken, calls);
    SeatHolds(taken, Exec(taken, calls), key);
  }

  // ----- Answers -----

  /**
   The log foretells how a release begins: unknown without a history, taken back or paid out after two entries, and
   open to the release's own conditions in between. A reservation without its event is never met.
   */
  lemma HistoryDecidesRelease(s: State, calls: seq<Call>, key: Key)
    requires Initial(s)
    ensures var s' := Exec(s, calls);
      LockedVerdict(s', key) ==
        match |KeyHistory(s'.log, key)|
        case 0 => Refuse(NotFound)
        case 1 => Pass
        case _ => Refuse(NotLocked)
  {
    ExactlyOnce(s, calls, key);
    InitialInv(s);
    RunKeepsInv(s, calls);
    var s' := Exec(s, calls);
    if key in s'.reservations {
      assert SoundReservation(s', key, s'.reservations[key]);
    }
  }

  // ----- Consent -----

  /** An address signs none of the calls. */
  predicate Silent(calls: seq<Call>, a: Address) {
    forall i :: 0 <= i < |calls| ==> a !in calls[i].signers
  }

  /** A refund pays its participant, a settlement the organizer and the pool; only the contract's account is debited. */
  lemma CancelEntryPays(s: State, signers: set<Address>, key: Key, s': State, a: Address)
    requires Inv(s) && a != s.self && CancelSeat(s, signers, key) == Done(s')
    ensures s'.log != [] && 0 <= EntryFlow(s', s'.log[|s'.log| - 1], a)
  {
    assert SoundReservation(s, key, s.reservations[key]);
    assert SoundEvent(s, s.events[key.eventId]);
  }

  lemma CheckInEntryPays(s: State, signers: set<Address>, key: Key, s': State, a: Address)
    requires Inv(s) && a != s.self && Attend(s, signers, key) == Done(s')
    ensures s'.log != [] && 0 <= EntryFlow(s', s'.log[|s'.log| - 1], a)
  {
    assert SoundReservation(s, key, s.reservations[key]);
    assert SoundEvent(s, s.events[key.eventId]);
  }

  lemma ClaimEntryPays(s: State, key: Key, s': State, a: Address)
    requires Inv(s) && a != s.self && Claim(s, key) == Done(s')
    ensures s'.log != [] && 0 <= EntryFlow(s', s'.log[|s'.log| - 1], a)
  {
    assert SoundReservation(s, key, s.reservations[key]);
    assert SoundEvent(s, s.events[key.eventId]);
  }

  lemma SettlementEntryPays(s: State, key: Key, s': State, a: Address)
    requires Inv(s) && a != s.self && Settle(s, key) == Done(s')
    ensures s'.log != [] && 0 <= EntryFlow(s', s'.log[|s'.log| - 1], a)
  {
    assert SoundReservation(s, key, s.reservations[key]);
    assert SoundEvent(s, s.events[key.eventId]);
    ShareBounds(s.reservations[key].amount, s.events[key.eventId].organizerBps);
  }

  predicate IsRelease(c: Call) {
    c.action.CancelReservation? || c.action.CheckIn? || c.action.ClaimRefund? || c.action.SettleNoShow?
  }

  lemma ReleaseEntryPays(s: State, c: Call, s': State, a: Address)
    requires Inv(s) && a != s.self && IsRelease(c) && Step(s, c) == Done(s')
    ensures s'.log != [] && 0 <= EntryFlow(s', s'.log[|s'.log| - 1], a)
  {
    match c.action
    case CancelReservation(key) => CancelEntryPays(s, c.signers, key, s', a);
    case CheckIn(key) => CheckInEntryPays(s, c.signers, key, s', a);
    case ClaimRefund(key) => ClaimEntryPays(s, key, s', a);
    case SettleNoShow(key) => SettlementEntryPays(s, key, s', a);
  }

  lemma ReserveTakesFromItsSigner(s: State, c: Call, a: Address)
    requires a != s.self && a !in c.signers && c.action.Reserve?
    ensures BalanceOf(s.balances, a) <= BalanceOf(Next(s, c).balances, a)
  {
    if Step(s, c).Done? {
      ReserveFlows(s, c.signers, c.action.key, Next(s, c), a);
    }
  }

  lemma OutsideTakesFromItsSigner(s: State, c: Call, a: Address)
    requires a !in c.signers
    requires c.action.OutsideTransfer? || c.action.OutsideMint? || c.action.OutsideBurn? || c.action.Tick?
    ensures BalanceOf(s.balances, a) <= BalanceOf(Next(s, c).balances, a)
  {
    OutsideFlowIsExact(s, c, a);
  }

  /** A call that releases nothing takes only from those who signed it. */
  lemma SilentOtherLosesNothing(s: State, c: Call, a: Address)
    requires a != s.self && a !in c.signers && !IsRelease(c)
    ensures BalanceOf(s.balances, a) <= BalanceOf(Next(s, c).balances, a)
  {
    match c.action
    case CreateEvent(_) =>
    case CancelEvent(_) =>
    case Reserve(_) => ReserveTakesFromItsSigner(s, c, a);
    case _ => OutsideTakesFromItsSigner(s, c, a);
  }

  /** Who loses tokens in a call has signed it. */
  lemma SilentCallLosesNothing(s: State, c: Call, a: Address)
    requires Inv(s) && a != s.self && a !in c.signers
    ensures BalanceOf(s.balances, a) <= BalanceOf(Next(s, c).balances, a)
  {
    if !IsRelease(c) {
      SilentOtherLosesNothing(s, c, a);
    } else if Step(s, c).Done? {
      CallFlows(s, c, a);
      ReleaseEntryPays(s, c, Next(s, c), a);
    }
  }

  /** Nobody who stays silent loses tokens, whatever everybody else does. */
  lemma {:induction false} NobodyLosesWithoutSigning(s: State, calls: seq<Call>, a: Address)
    requires Inv(s) && a != s.self && Silent(calls, a)
    ensures BalanceOf(s.balances, a) <= BalanceOf(Exec(s, calls).balances, a)
    decreases |calls|
  {
    if calls != [] {
      SilentCallLosesNothing(s, calls[0], a);
      CallKeepsInv(s, calls[0]);
      CallEvolves(s, calls[0]);
      NobodyLosesWithoutSigning(Next(s, calls[0]), calls[1..], a);
    }
  }

  /** A call that writes a reservation other than this one leaves it alone. */
  lemma OthersAreLeftAlone(s: State, c: Call, key: Key)
    requires DenseIds(s) && TouchedKey(c.action) != Some(key)
    ensures key in Next(s, c).reservations <==> key in s.reservations
    ensures key in s.reservations ==> Next(s, c).reservations[key] == s.reservations[key]
  {
    CallWrites(s, c);
  }

  lemma EventsAreLeftAlone(s: State, c: Call, id: u64)
    requires DenseIds(s) && id in s.events && c.action != Action.CancelEvent(id)
    ensures id in Next(s, c).events && Next(s, c).events[id].status == s.events[id].status
  {
    if Step(s, c).Done? {
      match c.action
      case CreateEvent(p) => assert id != s.eventCount + 1;
      case _ =>
    }
  }

  lemma BondDecisionsAreSigned(s: State, c: Call, key: Key)
    requires LockedVerdict(s, key) == Pass && TouchedKey(c.action) == Some(key)
    ensures var s', e := Next(s, c), s.events[key.eventId];
      && key in s'.reservations
      && (s'.reservations[key].status == ReservationStatus.Cancelled ==> key.participant in c.signers)
      && (s'.reservations[key].status == Attended ==> e.verifier in c.signers)
      && (s'.reservations[key].status == Refunded ==> e.status == EventStatus.Cancelled)
  {
    match c.action
    case Reserve(_) =>
    case CancelReservation(_) =>
    case CheckIn(_) =>
    case ClaimRefund(_) =>
    case SettleNoShow(_) =>
  }

  /** What one call can decide about a Locked bond, and whose signature that takes. */
  lemma DecisionsAreSigned(s: State, c: Call, key: Key)
    requires Inv(s) && key in s.reservations && s.reservations[key].status == Locked && key.eventId in s.events
    ensures var s', e := Next(s, c), s.events[key.eventId];
      && key in s'.reservations && key.eventId in s'.events
      && (s'.reservations[key].status == ReservationStatus.Cancelled ==> key.participant in c.signers)
      && (s'.reservations[key].status == Attended ==> e.verifier in c.signers)
      && (s'.reservations[key].status == Refunded ==> e.status == EventStatus.Cancelled)
      && (s'.events[key.eventId].status != e.status ==> e.organizer in c.signers)
      && s'.events[key.eventId].organizer == e.organizer
  {
    CallEvolves(s, c);
    assert EventEvolves(s.events[key.eventId], Next(s, c).events[key.eventId]);
    if c.action != Action.CancelEvent(key.eventId) {
      EventsAreLeftAlone(s, c, key.eventId);
    }
    if TouchedKey(c.action) == Some(key) {
      BondDecisionsAreSigned(s, c, key);
    } else {
      OthersAreLeftAlone(s, c, key);
    }
  }

  /** A closed reservation is settled for good. */
  lemma ClosedStaysClosed(s: State, calls: seq<Call>, key: Key)
    requires Inv(s) && key in s.reservations && s.reservations[key].status != Locked
    ensures key in Exec(s, calls).reservations && Exec(s, calls).reservations[key] == s.reservations[key]
  {
    RunEvolves(s, calls);
    assert ReservationEvolves(s.reservations[key], Exec(s, calls).reservations[key]);
  }

  /**
   Over every run: without the participant's signature a bond is never cancelled; without the organizer's it is, on
   an active event, neither attended nor refunded, and the event stays active.
   */
  lemma {:induction false} ClosedOnlyWithConsent(s: State, calls: seq<Call>, key: Key)
    requires Inv(s) && key in s.reservations && s.reservations[key].status == Locked && key.eventId in s.events
    ensures var s' := Exec(s, calls);
      && key in s'.reservations && key.eventId in s'.events
      && (Silent(calls, key.participant) ==> s'.reservations[key].status != ReservationStatus.Cancelled)
      && (Silent(calls, s.events[key.eventId].organizer) && s.events[key.eventId].status == EventStatus.Active ==>
            s'.reservations[key].status in {Locked, ReservationStatus.Cancelled, ReservationStatus.NoShowSettled})
    decreases |calls|
  {
    if calls != [] {
      var s' := Next(s, calls[0]);
      assert SoundEvent(s, s.events[key.eventId]);
      DecisionsAreSigned(s, calls[0], key);
      CallKeepsInv(s, calls[0]);
      assert forall a :: Silent(calls, a) ==> a !in calls[0].signers && Silent(calls[1..], a);
      if s'.reservations[key].status == Locked {
        ClosedOnlyWithConsent(s', calls[1..], key);
      } else {
        ClosedStaysClosed(s', calls[1..], key);
        RunEvolves(s', calls[1..]);
      }
    }
  }

  lemma SeatIsSigned(s: State, c: Call, key: Key)
    requires key !in s.reservations && TouchedKey(c.action) == Some(key) && key.participant !in c.signers
    ensures key !in Next(s, c).reservations
  {}

  /** Nobody is given a seat without signing for it. */
  lemma {:induction false} SeatedOnlyWithConsent(s: State, calls: seq<Call>, key: Key)
    requires Inv(s) && key !in s.reservations && Silent(calls, key.participant)
    ensures key !in Exec(s, calls).reservations
    decreases |calls|
  {
    if calls != [] {
      CallKeepsInv(s, calls[0]);
      if TouchedKey(calls[0].action) == Some(key) {
        SeatIsSigned(s, calls[0], key);
      } else {
        OthersAreLeftAlone(s, calls[0], key);
      }
      SeatedOnlyWithConsent(Next(s, calls[0]), calls[1..], key);
    }
  }
}
