/**
 Which bonds wait for their organizer: those that no run he keeps out of can release. The organizer is also the
 event's verifier, so without him there is neither a check-in nor a cancelled event, and his account never gets lighter.
 */
module BondOrganizer {
  import opened BondHistory
  import opened BondInvariant
  import opened BondOrder
  import opened BondRelease
  import opened BondSpec
  import opened BondTerms
  import opened BondTypes
  import opened TokenBalances
  import opened Wrappers

  /** What an unsigned release of a bond would pay: the refund on a cancelled event, the split on an active one. */
  function PayoutLegs(s: State, key: Key): seq<Leg>
    requires key in s.reservations && key.eventId in s.events
  {
    var e, amount := s.events[key.eventId], s.reservations[key].amount;
    var share := amount * e.organizerBps / TOTAL_BPS;
    if e.status == EventStatus.Cancelled then [Leg(key.participant, amount)]
    else if 0 <= share <= amount then [Leg(e.organizer, share), Leg(s.config.communityPool, amount - share)]
    else []
  }

  /** The organizer's account has room for what it would receive. */
  predicate RoomAtOrganizer(s: State, key: Key)
    requires key in s.reservations && key.eventId in s.events
  {
    var organizer := s.events[key.eventId].organizer;
    BalanceOf(s.balances, organizer) + Received(PayoutLegs(s, key), organizer) <= I128_MAX
  }

  /** No unsigned call ever releases the bond, and its participant cannot cancel any more, or is the organizer. */
  predicate WaitsForOrganizer(s: State, key: Key)
    requires key in s.reservations && key.eventId in s.events
  {
    var e := s.events[key.eventId];
    && !(ReleasableByAnyone(s, key) && RoomAtOrganizer(s, key))
    && (e.status == EventStatus.Cancelled || s.now > e.cancellationDeadline || key.participant == e.organizer)
  }

  /** The due release of a bond pays these legs. */
  lemma PayoutIsDue(s: State, c: Call, key: Key)
    requires Inv(s) && (c.action == SettleNoShow(key) || c.action == ClaimRefund(key)) && VerdictOf(s, c) == Pass
    ensures LegsOf(s, c) == PayoutLegs(s, key)
  {
    assert SoundReservation(s, key, s.reservations[key]);
    ShareBounds(s.reservations[key].amount, s.events[key.eventId].organizerBps);
  }

  // ----- A bond that waits -----

  /** Its release is refused, or aborted for want of room. */
  lemma WaitingIsNotPaidOut(s: State, c: Call, key: Key)
    requires Inv(s) && LockedVerdict(s, key) == Pass && WaitsForOrganizer(s, key)
    requires c.action == SettleNoShow(key) || c.action == ClaimRefund(key)
    ensures Next(s, c) == s
  {
    SettleVerdictOnSound(s, key);
    ReadyFinishes(s, c);
    assert SoundEvent(s, s.events[key.eventId]);
    if VerdictOf(s, c) == Pass {
      PayoutIsDue(s, c, key);
      assert ReleasableByAnyone(s, key);
    }
  }

  lemma WaitingIsNotCancelled(s: State, c: Call, key: Key)
    requires LockedVerdict(s, key) == Pass && WaitsForOrganizer(s, key)
    requires s.events[key.eventId].organizer !in c.signers && c.action == CancelReservation(key)
    ensures Next(s, c) == s
  {}

  lemma NotSeatedNorAttended(s: State, c: Call, key: Key)
    requires LockedVerdict(s, key) == Pass && s.events[key.eventId].verifier !in c.signers
    requires c.action == Action.Reserve(key) || c.action == Action.CheckIn(key)
    ensures Next(s, c) == s
  {}

  /** No call without the organizer's signature closes it. */
  lemma WaitingStaysLocked(s: State, c: Call, key: Key)
    requires Inv(s) && LockedVerdict(s, key) == Pass && WaitsForOrganizer(s, key)
    requires s.events[key.eventId].organizer !in c.signers
    ensures key in Next(s, c).reservations && Next(s, c).reservations[key] == s.reservations[key]
  {
    assert SoundEvent(s, s.events[key.eventId]);
    if TouchedKey(c.action) != Some(key) {
      OthersAreLeftAlone(s, c, key);
    } else if c.action == CancelReservation(key) {
      WaitingIsNotCancelled(s, c, key);
    } else if c.action == SettleNoShow(key) || c.action == ClaimRefund(key) {
      WaitingIsNotPaidOut(s, c, key);
    } else {
      NotSeatedNorAttended(s, c, key);
    }
  }

  /** What a bond waits for depends on its terms, its event's status and the organizer's balance. */
  lemma WaitsWithSameTerms(s: State, s': State, key: Key)
    requires LockedVerdict(s, key) == Pass && WaitsForOrganizer(s, key)
    requires key in s'.reservations && s'.reservations[key] == s.reservations[key] && key.eventId in s'.events
    requires EventEvolves(s.events[key.eventId], s'.events[key.eventId])
    requires s'.events[key.eventId].status == s.events[key.eventId].status
    requires s'.config == s.config && s.now <= s'.now
    requires var organizer := s.events[key.eventId].organizer;
      BalanceOf(s.balances, organizer) <= BalanceOf(s'.balances, organizer)
    ensures LockedVerdict(s', key) == Pass && WaitsForOrganizer(s', key)
  {
    assert PayoutLegs(s', key) == PayoutLegs(s, key);
  }

  /** So it goes on waiting. */
  lemma WaitingGoesOn(s: State, c: Call, key: Key)
    requires Inv(s) && LockedVerdict(s, key) == Pass && WaitsForOrganizer(s, key)
    requires s.events[key.eventId].organizer !in c.signers
    ensures var s' := Next(s, c);
      && LockedVerdict(s', key) == Pass && WaitsForOrganizer(s', key)
      && s'.events[key.eventId].organizer == s.events[key.eventId].organizer
  {
    assert SoundEvent(s, s.events[key.eventId]);
    WaitingStaysLocked(s, c, key);
    DecisionsAreSigned(s, c, key);
    CallEvolves(s, c);
    assert EventEvolves(s.events[key.eventId], Next(s, c).events[key.eventId]);
    SilentCallLosesNothing(s, c, s.events[key.eventId].organizer);
    WaitsWithSameTerms(s, Next(s, c), key);
  }

  /** Through every run the organizer keeps out of. */
  lemma {:induction false} WaitsThroughEveryRun(s: State, calls: seq<Call>, key: Key)
    requires Inv(s) && LockedVerdict(s, key) == Pass && WaitsForOrganizer(s, key)
    requires Silent(calls, s.events[key.eventId].organizer)
    ensures key in LockedKeys(Exec(s, calls))
    decreases |calls|
  {
    if calls != [] {
      WaitingGoesOn(s, calls[0], key);
      CallKeepsInv(s, calls[0]);
      WaitsThroughEveryRun(Next(s, calls[0]), calls[1..], key);
    }
  }

  // ----- A bond that does not wait -----

  /** An account that is emptied by its owner, which makes room in it. */
  function Emptying(s: State, a: Address): Call {
    Call({a}, OutsideBurn(a, BalanceOf(s.balances, a)))
  }

  lemma OwnerMakesRoom(s: State, a: Address)
    requires Inv(s) && a != s.self
    ensures var s' := Next(s, Emptying(s, a));
      && Inv(s') && s' == s.(balances := s'.balances)
      && (forall b: Address :: BalanceOf(s'.balances, b) == if b == a then 0 else BalanceOf(s.balances, b))
  {
    CallKeepsInv(s, Emptying(s, a));
  }

  /** One call frees the bond. */
  predicate Frees(s: State, c: Call, key: Key) {
    ClosedIn(Next(s, c), key)
  }

  lemma {:induction false} RunFrees(s: State, before: seq<Call>, c: Call, key: Key)
    requires Frees(Exec(s, before), c, key)
    ensures key !in LockedKeys(Exec(s, before + [c]))
  {
    ExecAppend(s, before, [c]);
    ExecCons(Exec(s, before), c, []);
    assert [c] + [] == [c];
  }

  lemma OneCall(s: State, c: Call)
    ensures Exec(s, [c]) == Next(s, c)
  {
    assert [c] == [c] + [];
    ExecCons(s, c, []);
  }

  /** A participant with room takes his bond back in time. */
  lemma ParticipantCancels(s: State, key: Key)
    requires Inv(s) && LockedVerdict(s, key) == Pass && BalanceOf(s.balances, key.participant) == 0
    requires s.events[key.eventId].status == EventStatus.Active && s.now <= s.events[key.eventId].cancellationDeadline
    ensures Frees(s, Call({key.participant}, CancelReservation(key)), key)
  {
    assert SoundReservation(s, key, s.reservations[key]);
    CountNeverOverflows(s, {key.participant}, key);
    BondCovered(s, key);
    OneLeg(s.balances, s.self, Leg(key.participant, s.reservations[key].amount));
  }

  lemma AnyoneClaims(s: State, key: Key)
    requires Inv(s) && ClaimVerdict(s, key) == Pass
    requires BalanceOf(s.balances, key.participant) + s.reservations[key].amount <= I128_MAX
    ensures Frees(s, Call({}, ClaimRefund(key)), key)
  {
    var c := Call({}, ClaimRefund(key));
    RefundWaitsOnlyForItsOwner(s, {}, key);
    PermissionlessCall(s, c);
  }

  lemma AnyoneSettles(s: State, key: Key)
    requires Inv(s) && SettleVerdict(s, key) == Pass && Fits(s.balances, s.self, PayoutLegs(s, key))
    ensures Frees(s, Call({}, SettleNoShow(key)), key)
  {
    var c := Call({}, SettleNoShow(key));
    PayoutIsDue(s, c, key);
    ReadyFinishes(s, c);
    PermissionlessCall(s, c);
  }

  lemma SecondCallFrees(s: State, c: Call, d: Call, key: Key)
    requires Frees(Next(s, c), d, key)
    ensures key !in LockedKeys(Exec(s, [c] + [d]))
  {
    OneCall(s, c);
    RunFrees(s, [c], d, key);
  }

  lemma RoomyRefund(s: State, key: Key)
    requires Inv(s) && ClaimVerdict(s, key) == Pass
    ensures Frees(Next(s, Emptying(s, key.participant)), Call({}, ClaimRefund(key)), key)
  {
    assert SoundReservation(s, key, s.reservations[key]);
    OwnerMakesRoom(s, key.participant);
    AnyoneClaims(Next(s, Emptying(s, key.participant)), key);
  }

  /** On a cancelled event: the refund, after its participant made room unless he is the organizer, who has room. */
  lemma RefundedWithoutOrganizer(s: State, key: Key) returns (calls: seq<Call>)
    requires Inv(s) && ClaimVerdict(s, key) == Pass && RoomAtOrganizer(s, key)
    ensures Silent(calls, s.events[key.eventId].organizer) && key !in LockedKeys(Exec(s, calls))
  {
    var p, claim := key.participant, Call({}, ClaimRefund(key));
    if p == s.events[key.eventId].organizer {
      var legs := [Leg(p, s.reservations[key].amount)];
      assert legs[1..] == [] && Received(legs, p) == s.reservations[key].amount;
      AnyoneClaims(s, key);
      RunFrees(s, [], claim, key);
      calls := [] + [claim];
    } else {
      RoomyRefund(s, key);
      SecondCallFrees(s, Emptying(s, p), claim, key);
      calls := [Emptying(s, p)] + [claim];
    }
  }

  /** In time: the participant's own cancellation, after he made room. */
  lemma CancelledWithoutOrganizer(s: State, key: Key) returns (calls: seq<Call>)
    requires Inv(s) && LockedVerdict(s, key) == Pass
    requires s.events[key.eventId].status == EventStatus.Active && s.now <= s.events[key.eventId].cancellationDeadline
    requires key.participant != s.events[key.eventId].organizer
    ensures Silent(calls, s.events[key.eventId].organizer) && key !in LockedKeys(Exec(s, calls))
  {
    var p, cancel := key.participant, Call({key.participant}, CancelReservation(key));
    assert SoundReservation(s, key, s.reservations[key]);
    OwnerMakesRoom(s, p);
    ParticipantCancels(Next(s, Emptying(s, p)), key);
    SecondCallFrees(s, Emptying(s, p), cancel, key);
    calls := [Emptying(s, p)] + [cancel];
  }

  lemma Waits(s: State, t: u64)
    requires Inv(s) && s.now <= t
    ensures Next(s, Call({}, Tick(t))) == s.(now := t) && Inv(s.(now := t))
  {
    LaterIsAsGood(s, s.(now := t), t);
  }

  /** With an empty pool a split has room as soon as the organizer has. */
  lemma SplitFits(s: State, key: Key)
    requires Inv(s) && LockedVerdict(s, key) == Pass && s.events[key.eventId].status == EventStatus.Active
    requires RoomAtOrganizer(s, key)
    requires var pool := s.config.communityPool;
      pool == s.self || pool == s.events[key.eventId].organizer || BalanceOf(s.balances, pool) == 0
    ensures Fits(s.balances, s.self, PayoutLegs(s, key))
  {
    var e, amount := s.events[key.eventId], s.reservations[key].amount;
    assert SoundReservation(s, key, s.reservations[key]);
    ShareBounds(amount, e.organizerBps);
    var legs := PayoutLegs(s, key);
    forall a: Address ensures Received(legs, a) ==
      (if legs[0].target == a then legs[0].amount else 0) + (if legs[1].target == a then legs[1].amount else 0)
    {
      ReceivedTwo(legs[0].target, legs[1].target, legs[0].amount, legs[1].amount, a);
      assert legs == [Leg(legs[0].target, legs[0].amount), Leg(legs[1].target, legs[1].amount)];
    }
  }

  /** The instant from which a bond on an active event can be settled. */
  function DueTime(s: State, key: Key): (t: int)
    requires key.eventId in s.events
    ensures s.now <= t && s.events[key.eventId].checkinDeadline < t
  {
    var deadline := s.events[key.eventId].checkinDeadline;
    if s.now > deadline then s.now else deadline + 1
  }

  /** Waiting makes a releasable bond's settlement due and takes no room. */
  lemma DueInTime(s: State, key: Key, t: u64)
    requires Inv(s) && LockedVerdict(s, key) == Pass && s.events[key.eventId].status == EventStatus.Active
    requires ReleasableByAnyone(s, key) && RoomAtOrganizer(s, key) && t == DueTime(s, key)
    ensures var later := s.(now := t);
      && Next(s, Call({}, Tick(t))) == later && Inv(later)
      && SettleVerdict(later, key) == Pass && RoomAtOrganizer(later, key)
  {
    Waits(s, t);
    SettleVerdictOnSound(s.(now := t), key);
    assert PayoutLegs(s.(now := t), key) == PayoutLegs(s, key);
  }
  lemma PoolNeedsNoRoom(s: State, key: Key)
    requires Inv(s) && SettleVerdict(s, key) == Pass && RoomAtOrganizer(s, key)
    requires s.config.communityPool in {s.self, s.events[key.eventId].organizer}
    ensures Frees(s, Call({}, SettleNoShow(key)), key)
  {
    SplitFits(s, key);
    AnyoneSettles(s, key);
  }

  /** Once the pool's owner has made room. */
  lemma RoomySettlement(s: State, key: Key)
    requires Inv(s) && SettleVerdict(s, key) == Pass && RoomAtOrganizer(s, key)
    requires s.config.communityPool !in {s.self, s.events[key.eventId].organizer}
    ensures Frees(Next(s, Emptying(s, s.config.communityPool)), Call({}, SettleNoShow(key)), key)
  {
    OwnerMakesRoom(s, s.config.communityPool);
    var roomy := Next(s, Emptying(s, s.config.communityPool));
    assert PayoutLegs(roomy, key) == PayoutLegs(s, key);
    assert SettleVerdict(roomy, key) == Pass;
    SplitFits(roomy, key);
    AnyoneSettles(roomy, key);
  }

  lemma ThirdCallFrees(s: State, c: Call, d: Call, e: Call, key: Key)
    requires Frees(Next(Next(s, c), d), e, key)
    ensures key !in LockedKeys(Exec(s, [c] + [d] + [e]))
  {
    ExecCons(s, c, [d]);
    OneCall(Next(s, c), d);
    RunFrees(s, [c] + [d], e, key);
  }

  /** On an active event: the settlement, after the deadline and after the pool's owner made room. */
  lemma SettledWithoutOrganizer(s: State, key: Key) returns (calls: seq<Call>)
    requires Inv(s) && LockedVerdict(s, key) == Pass && s.events[key.eventId].status == EventStatus.Active
    requires ReleasableByAnyone(s, key) && RoomAtOrganizer(s, key)
    ensures Silent(calls, s.events[key.eventId].organizer) && key !in LockedKeys(Exec(s, calls))
  {
    var t: u64 := DueTime(s, key);
    var wait, settle, later := Call({}, Tick(t)), Call({}, SettleNoShow(key)), s.(now := t);
    var pool := s.config.communityPool;
    DueInTime(s, key, t);
    if pool == s.self || pool == s.events[key.eventId].organizer {
      PoolNeedsNoRoom(later, key);
      SecondCallFrees(s, wait, settle, key);
      calls := [wait] + [settle];
    } else {
      RoomySettlement(later, key);
      ThirdCallFrees(s, wait, Emptying(later, pool), settle, key);
      calls := [wait] + [Emptying(later, pool)] + [settle];
    }
  }

  lemma ReleasedWithoutOrganizer(s: State, key: Key) returns (calls: seq<Call>)
    requires Inv(s) && LockedVerdict(s, key) == Pass && !WaitsForOrganizer(s, key)
    ensures Silent(calls, s.events[key.eventId].organizer) && key !in LockedKeys(Exec(s, calls))
  {
    if s.events[key.eventId].status == EventStatus.Cancelled {
      calls := RefundedWithoutOrganizer(s, key);
    } else if ReleasableByAnyone(s, key) && RoomAtOrganizer(s, key) {
      calls := SettledWithoutOrganizer(s, key);
    } else {
      calls := CancelledWithoutOrganizer(s, key);
    }
  }

  /**
   Whether a bond's release depends on the organizer, exactly and for any supply: some run he signs nothing of releases
   it, unless no unsigned call ever will and its participant can no longer cancel, or is the organizer himself.
   */
  lemma ReleaseDependsOnOrganizer(s: State, key: Key)
    requires Inv(s) && LockedVerdict(s, key) == Pass
    ensures (exists calls ::
              Silent(calls, s.events[key.eventId].organizer) && key !in LockedKeys(Exec(s, calls)))
            <==> !WaitsForOrganizer(s, key)
  {
    if WaitsForOrganizer(s, key) {
      forall calls | Silent(calls, s.events[key.eventId].organizer) ensures key in LockedKeys(Exec(s, calls)) {
        WaitsThroughEveryRun(s, calls, key);
      }
    } else {
      var calls := ReleasedWithoutOrganizer(s, key);
    }
  }
}
