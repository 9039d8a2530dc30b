/**
 No bond is stranded: from every reachable state some run empties custody. Which bonds anyone can release
 without any signature, and at which times each way out is open.
 */
module BondRelease {
  import opened BondInvariant
  import opened BondOrder
  import opened BondSpec
  import opened BondTypes
  import opened TokenBalances

  ghost function LockedKeys(s: State): set<Key> {
    set key | key in s.reservations && s.reservations[key].status == Locked
  }

  /** A Locked bond that an unsigned call can release: refundable, or splittable once its deadline is past. */
  predicate ReleasableByAnyone(s: State, key: Key)
    requires key in s.reservations && key.eventId in s.events
  {
    var e := s.events[key.eventId];
    || e.status == EventStatus.Cancelled
    || (s.reservations[key].amount * e.organizerBps <= I128_MAX && e.checkinDeadline < U64_MAX)
  }

  /** Time passes and anyone's calls are made; nobody signs anything. */
  predicate HandsOff(c: Call) {
    c.action.Tick? || Permissionless(c)
  }

  ghost predicate AllReleasableByAnyone(s: State) {
    forall key: Key :: key in LockedKeys(s) ==> key.eventId in s.events && ReleasableByAnyone(s, key)
  }

  // ----- One bond -----

  /** A bond on a cancelled event can be claimed at any time, by anyone, for the participant's full amount. */
  lemma CancelledEventAlwaysRefunds(s: State, signers: set<Address>, key: Key)
    requires Inv(s) && Supply(s.balances) <= I128_MAX
    requires key in LockedKeys(s) && s.events[key.eventId].status == EventStatus.Cancelled
    ensures var c := Call(signers, ClaimRefund(key));
      && Finishes(s, c)
      && BalanceOf(Next(s, c).balances, key.participant) ==
         BalanceOf(s.balances, key.participant) + s.reservations[key].amount
      && LockedKeys(Next(s, c)) == LockedKeys(s) - {key}
  {
    var c := Call(signers, ClaimRefund(key));
    assert SoundReservation(s, key, s.reservations[key]);
    PassingCallFinishes(s, c);
    PermissionlessCall(s, c);
    OneLeg(s.balances, s.self, Leg(key.participant, s.reservations[key].amount));
  }

  /** Past the deadline an active event's bond is settled by anyone, exactly when its split fits the token's integer. */
  lemma NoShowSettlesExactlyWhenItFits(s: State, signers: set<Address>, key: Key)
    requires Inv(s) && Supply(s.balances) <= I128_MAX
    requires key in LockedKeys(s)
    requires s.events[key.eventId].status == EventStatus.Active && s.events[key.eventId].checkinDeadline < s.now
    ensures var c := Call(signers, SettleNoShow(key));
      && (Finishes(s, c) <==> s.reservations[key].amount * s.events[key.eventId].organizerBps <= I128_MAX)
      && (Finishes(s, c) ==> LockedKeys(Next(s, c)) == LockedKeys(s) - {key})
  {
    var c := Call(signers, SettleNoShow(key));
    assert SoundReservation(s, key, s.reservations[key]);
    SettleVerdictOnSound(s, key);
    PermissionlessCall(s, c);
    if SettleVerdict(s, key) == Pass {
      PassingCallFinishes(s, c);
    }
  }

  /** However large the supply: a due refund waits for nothing but room in its own participant's account. */
  lemma RefundWaitsOnlyForItsOwner(s: State, signers: set<Address>, key: Key)
    requires Inv(s) && ClaimVerdict(s, key) == Pass
    ensures Finishes(s, Call(signers, ClaimRefund(key))) <==>
            BalanceOf(s.balances, key.participant) + s.reservations[key].amount <= I128_MAX
  {
    var c := Call(signers, ClaimRefund(key));
    assert SoundReservation(s, key, s.reservations[key]);
    BondCovered(s, key);
    PermissionlessCall(s, c);
    OneLeg(s.balances, s.self, Leg(key.participant, s.reservations[key].amount));
  }

  /** And a settlement for room in the organizer's and the pool's: two shares in one account if these are the same. */
  lemma SettlementWaitsOnlyForItsReceivers(s: State, signers: set<Address>, key: Key)
    requires Inv(s) && SettleVerdict(s, key) == Pass
    ensures var c := Call(signers, SettleNoShow(key));
      Finishes(s, c) <==> Fits(s.balances, s.self, LegsOf(s, c))
  {
    var c := Call(signers, SettleNoShow(key));
    BondCovered(s, key);
    PermissionlessCall(s, c);
    AffordablePayments(s.balances, s.self, LegsOf(s, c));
  }

  /** Cancelling an active event writes its status and nothing else. */
  lemma OrganizerCancels(s: State, id: u64)
    requires SoundRecords(s) && id in s.events && s.events[id].status == EventStatus.Active
    ensures var cancel := Call({s.events[id].organizer}, CancelEvent(id));
      && Finishes(s, cancel)
      && SameBooks(s.(events := s.events[id := s.events[id].(status := EventStatus.Cancelled)]), Next(s, cancel))
  {
    assert SoundEvent(s, s.events[id]);
  }

  /** Whatever the split, the organizer can always open the way out by cancelling the event. */
  lemma OrganizerUnblocks(s: State, key: Key)
    requires Inv(s) && key in LockedKeys(s)
    requires key.eventId in s.events && s.events[key.eventId].status == EventStatus.Active
    ensures var cancel := Call({s.events[key.eventId].organizer}, CancelEvent(key.eventId));
      && Finishes(s, cancel)
      && Inv(Next(s, cancel)) && Next(s, cancel).balances == s.balances
      && LockedKeys(Next(s, cancel)) == LockedKeys(s) && Next(s, cancel).now == s.now
      && key.eventId in Next(s, cancel).events
      && Next(s, cancel).events[key.eventId].status == EventStatus.Cancelled
  {
    OrganizerCancels(s, key.eventId);
    CallKeepsInv(s, Call({s.events[key.eventId].organizer}, CancelEvent(key.eventId)));
  }

  // ----- All bonds -----

  lemma ClosingKeepsReleasable(s: State, s': State)
    requires s'.events == s.events
    requires forall key: Key ::
      key in LockedKeys(s') ==> key in LockedKeys(s) && s'.reservations[key] == s.reservations[key]
    ensures AllReleasableByAnyone(s) ==> AllReleasableByAnyone(s')
  {
    forall key: Key | key in LockedKeys(s') && AllReleasableByAnyone(s)
      ensures key.eventId in s'.events && ReleasableByAnyone(s', key)
    {
      assert ReleasableByAnyone(s, key);
    }
  }

  /** Closing a bond leaves the others, their events and the clock as they were. */
  lemma OthersStayReleasable(s: State, c: Call)
    requires Inv(s) && Permissionless(c)
    ensures Next(s, c).events == s.events && Next(s, c).now == s.now
    ensures AllReleasableByAnyone(s) ==> AllReleasableByAnyone(Next(s, c))
  {
    PermissionlessCall(s, c);
    ClosingKeepsReleasable(s, Next(s, c));
  }

  lemma {:induction false} ExecAppend(s: State, xs: seq<Call>, ys: seq<Call>)
    ensures Exec(s, xs + ys) == Exec(Exec(s, xs), ys)
    decreases |xs|
  {
    if xs == [] {
      assert xs + ys == ys;
    } else {
      assert (xs + ys)[1..] == xs[1..] + ys;
      ExecAppend(Next(s, xs[0]), xs[1..], ys);
    }
  }

  predicate BondIsRipe(e: Event, t: u64) {
    e.status == EventStatus.Cancelled || e.checkinDeadline < t || e.checkinDeadline == U64_MAX
  }

  /** At this time no Locked bond is early any more: refundable, past its deadline, or without a time after it. */
  ghost predicate Ripe(s: State, t: u64) {
    forall key: Key :: key in LockedKeys(s) ==> key.eventId in s.events && BondIsRipe(s.events[key.eventId], t)
  }

  /** Custody can be worked with: nothing in it can be refused any more for being early. */
  ghost predicate RipeNow(s: State) {
    Inv(s) && Supply(s.balances) <= I128_MAX && Ripe(s, s.now)
  }

  /** A run that closes one bond and nothing else, without signatures if it may. */
  ghost predicate Closes(s: State, key: Key, calls: seq<Call>) {
    var s' := Exec(s, calls);
    && RipeNow(s') && s'.now == s.now
    && LockedKeys(s') == LockedKeys(s) - {key}
    && (AllReleasableByAnyone(s) ==> AllReleasableByAnyone(s') && forall c :: c in calls ==> HandsOff(c))
  }

  lemma OneCallCloses(s: State, key: Key, close: Call)
    requires RipeNow(s) && Permissionless(close) && LockedKeys(Next(s, close)) == LockedKeys(s) - {key}
    ensures Closes(s, key, [close])
  {
    PermissionlessKeeps(s, close);
    OthersStayReleasable(s, close);
    ExecCons(s, close, []);
    assert [close] + [] == [close];
  }

  /** By a claim when the event is cancelled, by a settlement when the split fits. */
  lemma CloseByAnyone(s: State, key: Key) returns (calls: seq<Call>)
    requires RipeNow(s) && key in LockedKeys(s) && key.eventId in s.events && ReleasableByAnyone(s, key)
    ensures Closes(s, key, calls)
  {
    if s.events[key.eventId].status == EventStatus.Cancelled {
      CancelledEventAlwaysRefunds(s, {}, key);
      calls := [Call({}, ClaimRefund(key))];
    } else {
      NoShowSettlesExactlyWhenItFits(s, {}, key);
      calls := [Call({}, SettleNoShow(key))];
    }
    OneCallCloses(s, key, calls[0]);
  }

  /** After a cancellation by the organizer nothing is early either, and the bond is anyone's to release. */
  lemma CancelledStaysRipe(s: State, key: Key)
    requires RipeNow(s) && key in LockedKeys(s)
    requires key.eventId in s.events && s.events[key.eventId].status == EventStatus.Active
    ensures var s' := Next(s, Call({s.events[key.eventId].organizer}, CancelEvent(key.eventId)));
      && RipeNow(s') && s'.now == s.now && LockedKeys(s') == LockedKeys(s)
      && key.eventId in s'.events && ReleasableByAnyone(s', key)
  {
    OrganizerUnblocks(s, key);
    OrganizerCancels(s, key.eventId);
  }

  /** By a claim after the organizer cancelled the event. */
  lemma CloseByOrganizer(s: State, key: Key) returns (calls: seq<Call>)
    requires RipeNow(s) && key in LockedKeys(s) && key.eventId in s.events && !ReleasableByAnyone(s, key)
    ensures Closes(s, key, calls)
  {
    var cancel := Call({s.events[key.eventId].organizer}, CancelEvent(key.eventId));
    CancelledStaysRipe(s, key);
    var s' := Next(s, cancel);
    var rest := CloseByAnyone(s', key);
    ExecCons(s, cancel, rest);
    calls := [cancel] + rest;
    assert !AllReleasableByAnyone(s);
  }

  lemma CloseOne(s: State, key: Key) returns (calls: seq<Call>)
    requires RipeNow(s) && key in LockedKeys(s)
    ensures Closes(s, key, calls)
  {
    assert SoundReservation(s, key, s.reservations[key]);
    if ReleasableByAnyone(s, key) {
      calls := CloseByAnyone(s, key);
    } else {
      calls := CloseByOrganizer(s, key);
    }
  }

  /** When none is early every Locked bond can be closed, one after the other, at once. */
  lemma {:induction false} DrainRipe(s: State) returns (calls: seq<Call>)
    requires RipeNow(s)
    ensures LockedKeys(Exec(s, calls)) == {} && Exec(s, calls).now == s.now
    ensures AllReleasableByAnyone(s) ==> forall c :: c in calls ==> HandsOff(c)
    decreases |LockedKeys(s)|
  {
    if LockedKeys(s) == {} {
      return [];
    }
    var key :| key in LockedKeys(s);
    var first := CloseOne(s, key);
    var rest := DrainRipe(Exec(s, first));
    ExecAppend(s, first, rest);
    calls := first + rest;
  }

  lemma LaterRecordsAreSound(s: State, s': State, t: u64)
    requires SoundRecords(s) && s.now <= t && s' == s.(now := t)
    ensures SoundRecords(s')
  {
    forall key: Key | key in s'.reservations ensures SoundReservation(s', key, s'.reservations[key]) {
      assert SoundReservation(s, key, s.reservations[key]);
    }
  }

  lemma LaterSeatsAreCounted(s: State, s': State, t: u64)
    requires SeatsCounted(s) && s' == s.(now := t)
    ensures SeatsCounted(s')
  {
    SeatsStay(s, s');
  }

  lemma LaterReleaseIsTheSame(s: State, s': State, t: u64)
    requires s' == s.(now := t)
    ensures LockedKeys(s') == LockedKeys(s)
    ensures AllReleasableByAnyone(s') <==> AllReleasableByAnyone(s)
  {
    assert forall key: Key :: key in LockedKeys(s) && key.eventId in s.events ==>
      (ReleasableByAnyone(s', key) <==> ReleasableByAnyone(s, key));
  }

  /** Waiting changes nothing but the clock. */
  lemma LaterIsAsGood(s: State, s': State, t: u64)
    requires Inv(s) && s.now <= t && s' == s.(now := t)
    ensures Inv(s') && LockedKeys(s') == LockedKeys(s)
    ensures AllReleasableByAnyone(s') <==> AllReleasableByAnyone(s)
  {
    LaterRecordsAreSound(s, s', t);
    LaterSeatsAreCounted(s, s', t);
    LaterReleaseIsTheSame(s, s', t);
    SameReservationsSameCustody(s, s');
  }

  /** From the moment on at which no Locked bond is early, custody can be emptied without any further waiting. */
  lemma EmptiesOnceRipe(s: State, t: u64) returns (calls: seq<Call>)
    requires Inv(s) && Supply(s.balances) <= I128_MAX && s.now <= t && Ripe(s, t)
    ensures LockedKeys(Exec(s, calls)) == {} && Exec(s, calls).now == t
    ensures AllReleasableByAnyone(s) ==> forall c :: c in calls ==> HandsOff(c)
  {
    var wait, end := Call({}, Tick(t)), s.(now := t);
    assert Next(s, wait) == end;
    LaterIsAsGood(s, end, t);
    var rest := DrainRipe(end);
    ExecCons(s, wait, rest);
    calls := [wait] + rest;
  }

  predicate IsJustPast(s: State, key: Key, t: u64) {
    key.eventId in s.events && t == s.events[key.eventId].checkinDeadline + 1
  }

  /** The first time after a clock and after the deadlines of some bonds is one second after one of them, or now. */
  lemma {:induction false} FirstRipeTime(s: State, keys: set<Key>) returns (t: u64)
    requires SoundRecords(s) && keys <= LockedKeys(s)
    ensures s.now <= t
    ensures forall key: Key :: key in keys ==> key.eventId in s.events && BondIsRipe(s.events[key.eventId], t)
    ensures t == s.now || exists key: Key :: key in keys && IsJustPast(s, key, t)
    decreases keys
  {
    if keys == {} {
      return s.now;
    }
    var key :| key in keys;
    assert SoundReservation(s, key, s.reservations[key]);
    t := FirstRipeTime(s, keys - {key});
    var deadline := s.events[key.eventId].checkinDeadline;
    if t <= deadline < U64_MAX {
      t := deadline + 1;
      assert IsJustPast(s, key, t);
    }
  }

  lemma NothingLockedNoCustody(s: State)
    requires LockedKeys(s) == {}
    ensures Custody(s) == 0
  {
    assert LockedAmounts(s).Keys == LockedKeys(s);
    assert LockedAmounts(s) == map[];
  }

  /**
   No stranded bond: from every sound state some run closes every Locked bond and empties custody, and is over at once
   or one second after the check-in deadline of some Locked bond.
   */
  lemma NoStrandedBond(s: State) returns (calls: seq<Call>)
    requires Inv(s) && Supply(s.balances) <= I128_MAX
    ensures LockedKeys(Exec(s, calls)) == {}
    ensures Custody(Exec(s, calls)) == 0
    ensures var end := Exec(s, calls).now;
      end == s.now || exists key: Key :: key in LockedKeys(s) && IsJustPast(s, key, end)
    ensures AllReleasableByAnyone(s) ==> forall c :: c in calls ==> HandsOff(c)
  {
    var t := FirstRipeTime(s, LockedKeys(s));
    calls := EmptiesOnceRipe(s, t);
    NothingLockedNoCustody(Exec(s, calls));
  }

  /** Such a bond's own settlement and claim are refused, at any time, and other bonds' calls do not reach it. */
  lemma PermissionlessLeavesStuck(s: State, c: Call, key: Key)
    requires Inv(s) && Permissionless(c)
    requires LockedVerdict(s, key) == Pass && !ReleasableByAnyone(s, key)
    ensures key in LockedKeys(Next(s, c))
    ensures Next(s, c).events == s.events && Next(s, c).reservations[key] == s.reservations[key]
  {
    PermissionlessCall(s, c);
    SettleVerdictOnSound(s, key);
  }

  lemma TickOnlyMovesTime(s: State, c: Call)
    requires c.action.Tick?
    ensures Next(s, c) == s.(now := Next(s, c).now)
  {}

  /** Nothing that happens without signatures touches an event. */
  lemma HandsOffLeavesStuck(s: State, c: Call, key: Key)
    requires Inv(s) && HandsOff(c) && key in LockedKeys(s)
    requires key.eventId in s.events && !ReleasableByAnyone(s, key)
    ensures key in LockedKeys(Next(s, c))
    ensures key.eventId in Next(s, c).events && !ReleasableByAnyone(Next(s, c), key)
  {
    if Permissionless(c) {
      PermissionlessLeavesStuck(s, c, key);
    } else {
      TickOnlyMovesTime(s, c);
    }
  }

  /** A bond that no unsigned call can release stays through any run without signatures. */
  lemma {:induction false} StuckStaysStuck(s: State, calls: seq<Call>, key: Key)
    requires Inv(s) && (forall c :: c in calls ==> HandsOff(c))
    requires key in LockedKeys(s) && key.eventId in s.events && !ReleasableByAnyone(s, key)
    ensures key in LockedKeys(Exec(s, calls))
    decreases |calls|
  {
    if calls != [] {
      assert calls[0] in calls;
      HandsOffLeavesStuck(s, calls[0], key);
      CallKeepsInv(s, calls[0]);
      assert forall c :: c in calls[1..] ==> c in calls;
      StuckStaysStuck(Next(s, calls[0]), calls[1..], key);
    }
  }

  /**
   When custody empties without anybody's signature: exactly when every Locked bond is on a cancelled event, or
   has a split that fits the token's integer and a deadline the clock can pass.
   */
  lemma EmptiesWithoutSignatures(s: State)
    requires Inv(s) && Supply(s.balances) <= I128_MAX
    ensures (exists calls :: (forall c :: c in calls ==> HandsOff(c)) && LockedKeys(Exec(s, calls)) == {})
            <==> AllReleasableByAnyone(s)
  {
    if AllReleasableByAnyone(s) {
      var calls := NoStrandedBond(s);
    } else {
      var key :| key in LockedKeys(s) && !(key.eventId in s.events && ReleasableByAnyone(s, key));
      assert SoundReservation(s, key, s.reservations[key]);
      forall calls | forall c :: c in calls ==> HandsOff(c) ensures LockedKeys(Exec(s, calls)) != {} {
        StuckStaysStuck(s, calls, key);
      }
    }
  }

  // ----- When each way out is open -----

  predicate CancelOpen(s: State, signers: set<Address>, key: Key) { CancelVerdict(s, signers, key) == Pass }

  predicate CheckInOpen(s: State, signers: set<Address>, key: Key) { CheckInVerdict(s, signers, key) == Pass }

  predicate SettleOpen(s: State, key: Key) { SettleVerdict(s, key) == Pass }

  predicate ClaimOpen(s: State, key: Key) { ClaimVerdict(s, key) == Pass }

  /**
   Window separation in every reachable state: no two ways out of a bond are open at once, except cancelling and
   checking in together, which happens exactly at an instant that is the last of the one and the first of the other.
   */
  lemma WindowsAreSeparate(s: State, signers: set<Address>, key: Key)
    requires Inv(s)
    ensures !(SettleOpen(s, key) && (CancelOpen(s, signers, key) || CheckInOpen(s, signers, key)))
    ensures !(ClaimOpen(s, key) && (CancelOpen(s, signers, key) || CheckInOpen(s, signers, key) || SettleOpen(s, key)))
    ensures CancelOpen(s, signers, key) && CheckInOpen(s, signers, key) <==>
      && LockedVerdict(s, key) == Pass
      && s.events[key.eventId].status == EventStatus.Active
      && Signed(s, signers, key.participant) && Signed(s, signers, s.events[key.eventId].verifier)
      && s.now == s.events[key.eventId].cancellationDeadline == s.events[key.eventId].checkinStart
  {
    if LockedVerdict(s, key) == Pass {
      assert SoundEvent(s, s.events[key.eventId]);
      CountNeverOverflows(s, signers, key);
    }
  }

  predicate CheckInInstant(e: Event, t: u64) {
    e.checkinStart <= t <= e.checkinDeadline
  }

  /** Every reservation was made while a check-in instant was still to come. */
  lemma ReservedBeforeCheckInEnds(s: State, calls: seq<Call>, key: Key)
    requires Initial(s) && key in Exec(s, calls).reservations
    ensures var s' := Exec(s, calls);
      && key.eventId in s'.events
      && exists t: u64 :: CheckInInstant(s'.events[key.eventId], t) && s'.reservations[key].reservedAt < t
  {
    InitialInv(s);
    RunKeepsInv(s, calls);
    var s' := Exec(s, calls);
    assert SoundReservation(s', key, s'.reservations[key]);
    assert SoundEvent(s', s'.events[key.eventId]);
    var t: u64 := s'.events[key.eventId].checkinDeadline;
    assert CheckInInstant(s'.events[key.eventId], t);
  }
}
