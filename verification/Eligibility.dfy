/**
 The application's predictions of what the contract will accept, and the contract's own answer.

 A prediction is wrong exactly when the clock is told apart from a bound by the contract and not by doubles. That
 never happens below 2^53 seconds, and beyond it each prediction errs on one side only.
 */
module Eligibility {
  import opened BondAnswers
  import opened BondExamples
  import opened BondInvariant
  import opened BondSpec
  import opened BondTypes
  import opened Views
  import opened Wrappers

  predicate CanReserve(e: EventView, r: Option<ReservationView>, now: nat) {
    e.status == EventStatus.Active && now < e.checkinDeadline && e.reservedCount < e.capacity && r == None
  }

  predicate CanCancelReservation(e: EventView, r: Option<ReservationView>, now: nat) {
    r.Some? && r.value.status == Locked && e.status == EventStatus.Active && now <= e.cancellationDeadline
  }

  predicate CanCheckIn(e: EventView, r: Option<ReservationView>, now: nat) {
    r.Some? && r.value.status == Locked && e.status == EventStatus.Active
    && now >= e.checkinStart && now <= e.checkinDeadline
  }

  predicate CanSettleNoShow(e: EventView, r: Option<ReservationView>, now: nat) {
    r.Some? && r.value.status == Locked && e.status == EventStatus.Active && now > e.checkinDeadline
  }

  predicate CanClaimCancelledRefund(e: EventView, r: Option<ReservationView>, now: nat) {
    r.Some? && r.value.status == Locked && e.status == EventStatus.Cancelled
  }

  datatype Bucket = Upcoming | AttendedBucket | CancelledBucket | NoShow

  function ReservationBucket(e: EventView, r: ReservationView, now: nat): Bucket {
    match r.status
    case Attended => AttendedBucket
    case Cancelled => CancelledBucket
    case Refunded => CancelledBucket
    case NoShowSettled => NoShow
    case Locked =>
      if e.status == EventStatus.Cancelled then CancelledBucket
      else if now > e.checkinDeadline then NoShow
      else Upcoming
  }

  /** What the application reads about a reservation. */
  function ReadReservation(s: State, key: Key): Option<ReservationView> {
    if key in s.reservations then Some(ToReservationView(s.reservations[key])) else None
  }

  /** Both parties to the bond have signed, so only the contract's own checks decide. */
  predicate AllSigned(s: State, signers: set<Address>, key: Key) {
    && key.eventId in s.events
    && Signed(s, signers, key.participant) && Signed(s, signers, s.events[key.eventId].verifier)
  }

  lemma ClockKeepsOrder(s: State, t: u64)
    ensures ToNumber(s.now) < ToNumber(t) ==> s.now < t
    ensures ToNumber(s.now) > ToNumber(t) ==> s.now > t
    ensures s.now <= t ==> ToNumber(s.now) <= ToNumber(t)
    ensures s.now >= t ==> ToNumber(s.now) >= ToNumber(t)
  {
    if s.now <= t {
      NumbersKeepOrder(s.now, t);
    }
    if t <= s.now {
      NumbersKeepOrder(t, s.now);
    }
  }

  /** The clock is before, or past, a time that it cannot be told apart from as a double. */
  predicate BlursBefore(s: State, t: u64) {
    s.now < t && ToNumber(s.now) == ToNumber(t)
  }

  predicate BlursPast(s: State, t: u64) {
    s.now > t && ToNumber(s.now) == ToNumber(t)
  }

  predicate LockedAndActive(s: State, key: Key) {
    LockedVerdict(s, key) == Pass && s.events[key.eventId].status == EventStatus.Active
  }

  /**
   When a prediction about making or cancelling a reservation is right, for every 64-bit time: unless the seat is free
   and the clock blurs with the deadline before it, or the bond is Locked and the clock blurs with the deadline past it.
   */
  lemma WhenReservingIsPredicted(s: State, signers: set<Address>, key: Key)
    requires Inv(s) && AllSigned(s, signers, key)
    ensures var stored := s.events[key.eventId];
      var e, r, now := ToEventView(stored), ReadReservation(s, key), ToNumber(s.now);
      && ((CanReserve(e, r, now) <==> ReserveVerdict(s, signers, key) == Pass) <==>
            !(SeatIsFree(s, key) && BlursBefore(s, stored.checkinDeadline)))
      && ((CanCancelReservation(e, r, now) <==> CancelVerdict(s, signers, key) == Pass) <==>
            !(LockedAndActive(s, key) && BlursPast(s, stored.cancellationDeadline)))
  {
    ClockKeepsOrder(s, s.events[key.eventId].checkinDeadline);
    ClockKeepsOrder(s, s.events[key.eventId].cancellationDeadline);
    CountNeverOverflows(s, signers, key);
  }

  /** Likewise for the other ways out: a check-in blurs with either end of its window, a settlement with its start. */
  lemma WhenReleaseIsPredicted(s: State, signers: set<Address>, key: Key)
    requires Inv(s) && AllSigned(s, signers, key)
    ensures var stored := s.events[key.eventId];
      var e, r, now := ToEventView(stored), ReadReservation(s, key), ToNumber(s.now);
      && ((CanCheckIn(e, r, now) <==> CheckInVerdict(s, signers, key) == Pass) <==>
            !(LockedAndActive(s, key)
              && (BlursBefore(s, stored.checkinStart) || BlursPast(s, stored.checkinDeadline))))
      && ((CanSettleNoShow(e, r, now) <==> SettleVerdict(s, key) in {Pass, Refuse(Overflow)}) <==>
            !(LockedAndActive(s, key) && BlursPast(s, stored.checkinDeadline)))
      && (CanClaimCancelledRefund(e, r, now) <==> ClaimVerdict(s, key) == Pass)
  {
    var e := s.events[key.eventId];
    assert SoundEvent(s, e);
    ClockKeepsOrder(s, e.checkinStart);
    ClockKeepsOrder(s, e.checkinDeadline);
    NumbersKeepOrder(e.checkinStart, e.checkinDeadline);
    if LockedVerdict(s, key) == Pass {
      SettleVerdictOnSound(s, key);
    }
  }

  /** The no-show group is what has been settled or could be settled now, with the same exception. */
  lemma WhenNoShowIsRight(s: State, key: Key)
    requires Inv(s) && key in s.reservations
    ensures var e, r := s.events[key.eventId], s.reservations[key];
      (ReservationBucket(ToEventView(e), ToReservationView(r), ToNumber(s.now)) == NoShow <==>
         r.status == ReservationStatus.NoShowSettled || SettleVerdict(s, key) in {Pass, Refuse(Overflow)})
      <==> !(LockedAndActive(s, key) && BlursPast(s, e.checkinDeadline))
  {
    ClockKeepsOrder(s, s.events[key.eventId].checkinDeadline);
    if LockedVerdict(s, key) == Pass {
      SettleVerdictOnSound(s, key);
    }
  }

  /** Attended and cancelled reservations are grouped by their record, a cancelled event's Locked bonds as cancelled. */
  lemma ClosedGroupsAreRight(s: State, key: Key)
    requires Inv(s) && key in s.reservations
    ensures var e, r := s.events[key.eventId], s.reservations[key];
      var bucket := ReservationBucket(ToEventView(e), ToReservationView(r), ToNumber(s.now));
      && (bucket == AttendedBucket <==> r.status == Attended)
      && (bucket == CancelledBucket <==>
            || r.status == ReservationStatus.Cancelled || r.status == Refunded
            || (r.status == Locked && e.status == EventStatus.Cancelled))
  {}

  /** Upcoming is what is Locked on an active event whose check-in has not closed, but for a blur past the deadline. */
  lemma WhenUpcomingIsRight(s: State, key: Key)
    requires Inv(s) && key in s.reservations
    ensures var e, r := s.events[key.eventId], s.reservations[key];
      (ReservationBucket(ToEventView(e), ToReservationView(r), ToNumber(s.now)) == Upcoming <==>
         r.status == Locked && e.status == EventStatus.Active && s.now <= e.checkinDeadline)
      <==> !(LockedAndActive(s, key) && BlursPast(s, e.checkinDeadline))
  {
    ReleaseBegins(s, key);
    ClockKeepsOrder(s, s.events[key.eventId].checkinDeadline);
  }

  // ----- Below 2^53 seconds -----

  /** The clock and the event's times are small enough to be doubles. */
  predicate ExactTimes(s: State, e: Event) {
    && s.now < TWO_TO_53
    && e.checkinStart < TWO_TO_53 && e.checkinDeadline < TWO_TO_53 && e.cancellationDeadline < TWO_TO_53
  }

  lemma NothingBlurs(s: State, e: Event)
    requires ExactTimes(s, e)
    ensures !BlursBefore(s, e.checkinStart) && !BlursBefore(s, e.checkinDeadline)
    ensures !BlursPast(s, e.checkinDeadline) && !BlursPast(s, e.cancellationDeadline)
  {
    SmallNumbersAreExact(s.now);
    SmallNumbersAreExact(e.checkinStart);
    SmallNumbersAreExact(e.checkinDeadline);
    SmallNumbersAreExact(e.cancellationDeadline);
  }

  /**
   Prediction is exact: in every reachable state each predicate on the views holds exactly when the matching
   entry point passes all its checks. Settlement is predicted up to an overflow of its split.
   */
  lemma PredictionsAreExact(s: State, signers: set<Address>, key: Key)
    requires Inv(s) && AllSigned(s, signers, key)
    requires ExactTimes(s, s.events[key.eventId])
    ensures var e, r, now := ToEventView(s.events[key.eventId]), ReadReservation(s, key), ToNumber(s.now);
      && (CanReserve(e, r, now) <==> ReserveVerdict(s, signers, key) == Pass)
      && (CanCancelReservation(e, r, now) <==> CancelVerdict(s, signers, key) == Pass)
      && (CanCheckIn(e, r, now) <==> CheckInVerdict(s, signers, key) == Pass)
      && (CanSettleNoShow(e, r, now) <==> SettleVerdict(s, key) in {Pass, Refuse(Overflow)})
      && (CanClaimCancelledRefund(e, r, now) <==> ClaimVerdict(s, key) == Pass)
  {
    NothingBlurs(s, s.events[key.eventId]);
    WhenReservingIsPredicted(s, signers, key);
    WhenReleaseIsPredicted(s, signers, key);
  }

  /** The no-show group is what has been settled or could be settled now. */
  lemma NoShowBucketIsExact(s: State, key: Key)
    requires Inv(s) && key in s.reservations && ExactTimes(s, s.events[key.eventId])
    ensures var e, r := s.events[key.eventId], s.reservations[key];
      ReservationBucket(ToEventView(e), ToReservationView(r), ToNumber(s.now)) == NoShow <==>
        r.status == ReservationStatus.NoShowSettled || SettleVerdict(s, key) in {Pass, Refuse(Overflow)}
  {
    NothingBlurs(s, s.events[key.eventId]);
    WhenNoShowIsRight(s, key);
  }

  // ----- For every 64-bit time -----

  /**
   For every 64-bit clock: an offered reservation or settlement is never early or late, and a possible
   cancellation or check-in is always offered.
   */
  lemma PredictionsErrOnOneSide(s: State, signers: set<Address>, key: Key)
    requires Inv(s) && AllSigned(s, signers, key)
    ensures var e, r, now := ToEventView(s.events[key.eventId]), ReadReservation(s, key), ToNumber(s.now);
      && (CanReserve(e, r, now) ==> ReserveVerdict(s, signers, key) == Pass)
      && (CanCancelReservation(e, r, now) <== CancelVerdict(s, signers, key) == Pass)
      && (CanCheckIn(e, r, now) <== CheckInVerdict(s, signers, key) == Pass)
      && (CanSettleNoShow(e, r, now) ==> SettleVerdict(s, key) in {Pass, Refuse(Overflow)})
      && (CanClaimCancelledRefund(e, r, now) <==> ClaimVerdict(s, key) == Pass)
  {
    var e := s.events[key.eventId];
    ClockKeepsOrder(s, e.checkinStart);
    ClockKeepsOrder(s, e.checkinDeadline);
    ClockKeepsOrder(s, e.cancellationDeadline);
    CountNeverOverflows(s, signers, key);
    if LockedVerdict(s, key) == Pass {
      SettleVerdictOnSound(s, key);
    }
  }

  // ----- Where the predictions fail -----

  /** 2^53 and the second after it are one double. */
  lemma TwoSecondsOneDouble()
    ensures ToNumber(TWO_TO_53) == ToNumber(TWO_TO_53 + 1)
  {
    assert Spacing(TWO_TO_53, 1) == Spacing(TWO_TO_53, 2) == 2;
    assert Spacing(TWO_TO_53 + 1, 1) == Spacing(TWO_TO_53 + 1, 2) == 2;
  }

  /**
   A reachable state in which the application offers a cancellation and a check-in that are late, and withholds a
   settlement that is due.
   */
  lemma LateOffersHappen() returns (s: State, signers: set<Address>, key: Key)
    ensures Reachable(s) && LockedAndActive(s, key) && AllSigned(s, signers, key)
    ensures var e, r, now := ToEventView(s.events[key.eventId]), ReadReservation(s, key), ToNumber(s.now);
      && CanCancelReservation(e, r, now) && CancelVerdict(s, signers, key) == Refuse(CancellationDeadlinePassed)
      && CanCheckIn(e, r, now) && CheckInVerdict(s, signers, key) == Refuse(CheckInWindowClosed)
      && !CanSettleNoShow(e, r, now) && SettleVerdict(s, key) == Pass
  {
    SeatIsTaken(1, 0, TWO_TO_53, TWO_TO_53, map["P" := 1]);
    var seated := OneSeat(Terms(1, 0, TWO_TO_53, TWO_TO_53), map["P" := 1]);
    Wait(seated, TWO_TO_53 + 1);
    s, signers, key := seated.(now := TWO_TO_53 + 1), {"O", "P"}, Key(1, "P");
    TwoSecondsOneDouble();
  }

  /**
   A reachable state in which it withholds a reservation that is possible, and offers a check-in that is early.
   */
  lemma EarlyOffersHappen() returns (s: State, signers: set<Address>, free: Key, taken: Key)
    ensures Reachable(s) && AllSigned(s, signers, free) && AllSigned(s, signers, taken)
    ensures var e, now := ToEventView(s.events[free.eventId]), ToNumber(s.now);
      && !CanReserve(e, ReadReservation(s, free), now) && ReserveVerdict(s, signers, free) == Pass
      && free.eventId == taken.eventId
      && CanCheckIn(e, ReadReservation(s, taken), now) && CheckInVerdict(s, signers, taken) == Refuse(CheckInNotOpen)
  {
    SeatIsTaken(1, 0, TWO_TO_53 + 1, TWO_TO_53 + 1, map["P" := 1]);
    var seated := OneSeat(Terms(1, 0, TWO_TO_53 + 1, TWO_TO_53 + 1), map["P" := 1]);
    Wait(seated, TWO_TO_53);
    s, signers, free, taken := seated.(now := TWO_TO_53), {"O", "P", "Q"}, Key(1, "Q"), Key(1, "P");
    TwoSecondsOneDouble();
  }
}
