/**
 Anyone may settle a no-show or claim a refund on a cancelled event, one bond at a time and in any order.
 The order does not matter: storage and balances end the same.
 */
module BondOrder {
  import opened BondHistory
  import opened BondInvariant
  import opened BondSpec
  import opened BondTypes
  import opened MapSums
  import opened TokenBalances

  /** The calls that need nobody's signature. */
  predicate Permissionless(c: Call) {
    c.action.ClaimRefund? || c.action.SettleNoShow?
  }

  /** Equal but for the order in which the log was written. */
  predicate SameBooks(s: State, t: State) {
    t == s.(log := t.log)
  }

  predicate Finishes(s: State, c: Call) {
    Step(s, c).Done?
  }

  /** Every call of a run finishes. */
  predicate AllFinish(s: State, calls: seq<Call>)
    decreases |calls|
  {
    calls == [] || (Finishes(s, calls[0]) && AllFinish(Next(s, calls[0]), calls[1..]))
  }

  // ----- Payments whose sender can afford them all -----

  function Total(legs: seq<Leg>): int {
    if legs == [] then 0 else legs[0].amount + Total(legs[1..])
  }

  function Received(legs: seq<Leg>, a: Address): int {
    if legs == [] then 0 else (if legs[0].target == a then legs[0].amount else 0) + Received(legs[1..], a)
  }

  lemma ReceivedTwo(a: Address, b: Address, x: i128, y: i128, c: Address)
    ensures Received([Leg(a, x), Leg(b, y)], c) == (if a == c then x else 0) + (if b == c then y else 0)
  {
    var legs, last := [Leg(a, x), Leg(b, y)], [Leg(b, y)];
    assert legs[1..] == last && last[1..] == [];
    assert Received(last, c) == if b == c then y else 0;
  }

  predicate Payable(legs: seq<Leg>) {
    forall i :: 0 <= i < |legs| ==> 0 <= legs[i].amount
  }

  ghost function Targets(legs: seq<Leg>): set<Address> {
    set i | 0 <= i < |legs| :: legs[i].target
  }

  /** No receiver other than the sender would overflow. */
  ghost predicate Fits(b: Balances, source: Address, legs: seq<Leg>) {
    forall a: Address :: a != source ==> BalanceOf(b, a) + Received(legs, a) <= I128_MAX
  }

  lemma {:induction false} ReceivedIsNonNegative(legs: seq<Leg>, a: Address)
    requires Payable(legs)
    ensures 0 <= Received(legs, a)
  {
    if legs != [] {
      ReceivedIsNonNegative(legs[1..], a);
    }
  }

  lemma {:induction false} TotalIsNonNegative(legs: seq<Leg>)
    requires Payable(legs)
    ensures 0 <= Total(legs)
  {
    if legs != [] {
      TotalIsNonNegative(legs[1..]);
    }
  }

  /** A sender who can afford all legs fails only on a receiver that is full, whatever the order. */
  lemma {:induction false} AffordablePayments(b: Balances, source: Address, legs: seq<Leg>)
    requires Payable(legs) && Total(legs) <= BalanceOf(b, source)
    ensures PaidOut(b, source, legs).Some? <==> Fits(b, source, legs)
    ensures PaidOut(b, source, legs).Some? && legs != [] ==>
      PaidOut(b, source, legs).value.Keys == b.Keys + {source} + Targets(legs)
    decreases |legs|
  {
    if legs == [] {
      return;
    }
    TotalIsNonNegative(legs[1..]);
    var leg := legs[0];
    forall a: Address ensures 0 <= Received(legs[1..], a) {
      ReceivedIsNonNegative(legs[1..], a);
    }
    if leg.target != source && BalanceOf(b, leg.target) + leg.amount > I128_MAX {
      assert !Fits(b, source, legs) by {
        assert BalanceOf(b, leg.target) + Received(legs, leg.target) > I128_MAX;
      }
    } else {
      var b' := Transferred(b, source, leg.target, leg.amount).value;
      TransferMoves(b, source, leg.target, leg.amount);
      AffordablePayments(b', source, legs[1..]);
      assert forall a: Address :: a != source ==>
        BalanceOf(b', a) + Received(legs[1..], a) == BalanceOf(b, a) + Received(legs, a);
      assert Targets(legs) == {leg.target} + Targets(legs[1..]);
    }
  }

  /** An account other than the sender only receives. */
  lemma {:induction false} FlowIsReceived(source: Address, legs: seq<Leg>, a: Address)
    ensures LegsFlow(source, legs, a) == Received(legs, a) - (if a == source then Total(legs) else 0)
  {
    if legs != [] {
      FlowIsReceived(source, legs[1..], a);
    }
  }

  // ----- One permissionless call -----

  function VerdictOf(s: State, c: Call): Verdict
    requires Permissionless(c)
  {
    if c.action.ClaimRefund? then ClaimVerdict(s, c.action.key) else SettleVerdict(s, c.action.key)
  }

  function StatusAfter(c: Call): ReservationStatus
    requires Permissionless(c)
  {
    if c.action.ClaimRefund? then Refunded else ReservationStatus.NoShowSettled
  }

  /** What a passing call pays: the whole bond back, or the two shares. */
  function LegsOf(s: State, c: Call): seq<Leg>
    requires Permissionless(c) && VerdictOf(s, c) == Pass
  {
    var r, e := s.reservations[c.action.key], s.events[c.action.key.eventId];
    if c.action.ClaimRefund? then [Leg(r.participant, r.amount)]
    else
      var share := OrganizerShare(r.amount, e.organizerBps);
      [Leg(e.organizer, share), Leg(s.config.communityPool, r.amount - share)]
  }

  /** A passing call closes its bond and pays its legs; any other changes nothing. */
  lemma PermissionlessCall(s: State, c: Call)
    requires SoundRecords(s) && Permissionless(c)
    ensures VerdictOf(s, c) != Pass ==> !Finishes(s, c) && Next(s, c) == s
    ensures VerdictOf(s, c) == Pass ==>
      var key, legs := c.action.key, LegsOf(s, c);
      && s.reservations[key].status == Locked
      && Payable(legs) && Total(legs) == s.reservations[key].amount
      && (Finishes(s, c) <==> PaidOut(s.balances, s.self, legs).Some?)
      && (Finishes(s, c) ==>
            SameBooks(s.(reservations := s.reservations[key := s.reservations[key].(status := StatusAfter(c))],
                         balances := PaidOut(s.balances, s.self, legs).value), Next(s, c)))
  {
    if VerdictOf(s, c) == Pass {
      var key, legs := c.action.key, LegsOf(s, c);
      var r, e := s.reservations[key], s.events[key.eventId];
      assert SoundReservation(s, key, r) && SoundEvent(s, e);
      ShareBounds(r.amount, e.organizerBps);
      if c.action.ClaimRefund? {
        assert legs == [legs[0]];
        assert Total(legs) == legs[0].amount + Total(legs[1..]);
      } else {
        assert legs == [legs[0], legs[1]] && legs[1..] == [legs[1]];
        assert Total(legs[1..]) == legs[1].amount + Total(legs[1..][1..]);
      }
    }
  }

  /** A passing call on another bond leaves a call's verdict and legs as they were. */
  lemma OtherVerdictStays(s: State, s': State, done: Call, c: Call)
    requires Permissionless(done) && Permissionless(c) && VerdictOf(s, done) == Pass
    requires done.action.key in s'.reservations && s'.reservations[done.action.key].status != Locked
    requires SameBooks(s.(reservations := s.reservations[done.action.key := s'.reservations[done.action.key]],
                          balances := s'.balances), s')
    ensures c.action.key != done.action.key ==>
      VerdictOf(s', c) == VerdictOf(s, c) && (VerdictOf(s, c) == Pass ==> LegsOf(s', c) == LegsOf(s, c))
    ensures VerdictOf(s, c) != Pass ==> VerdictOf(s', c) != Pass
    ensures c.action.key == done.action.key ==> VerdictOf(s', c) != Pass
  {}

  // ----- Two permissionless calls -----

  /** Two Locked bonds are covered together. */
  lemma TwoBondsCovered(s: State, a: Key, b: Key)
    requires Inv(s) && a != b
    requires LockedVerdict(s, a) == Pass && LockedVerdict(s, b) == Pass
    ensures s.reservations[a].amount + s.reservations[b].amount <= BalanceOf(s.balances, s.self)
  {
    var m := LockedAmounts(s);
    forall key | key in m ensures m[key] >= 0 {
      assert SoundReservation(s, key, s.reservations[key]);
    }
    SumBounds(m, a, b);
  }

  lemma Flows(source: Address, legs: seq<Leg>)
    requires Payable(legs)
    ensures forall a: Address :: 0 <= Received(legs, a)
    ensures forall a: Address ::
      LegsFlow(source, legs, a) == Received(legs, a) - (if a == source then Total(legs) else 0)
  {
    forall a: Address
      ensures 0 <= Received(legs, a)
      ensures LegsFlow(source, legs, a) == Received(legs, a) - (if a == source then Total(legs) else 0)
    {
      ReceivedIsNonNegative(legs, a);
      FlowIsReceived(source, legs, a);
    }
  }

  /** Two runs of affordable payments end in the same balances in either order, and both orders go through together. */
  lemma PaymentsCommute(b: Balances, source: Address, first: seq<Leg>, second: seq<Leg>)
    requires Payable(first) && Payable(second) && first != [] && second != []
    requires Total(first) + Total(second) <= BalanceOf(b, source)
    requires PaidOut(b, source, first).Some?
    requires PaidOut(PaidOut(b, source, first).value, source, second).Some?
    ensures PaidOut(b, source, second).Some?
    ensures PaidOut(PaidOut(b, source, second).value, source, first) ==
            PaidOut(PaidOut(b, source, first).value, source, second)
  {
    TotalIsNonNegative(first);
    TotalIsNonNegative(second);
    var b1 := PaidOut(b, source, first).value;
    PaidOutMoves(b, source, first);
    AffordablePayments(b, source, first);
    Flows(source, first);
    Flows(source, second);
    AffordablePayments(b1, source, second);
    var b12 := PaidOut(b1, source, second).value;
    PaidOutMoves(b1, source, second);
    AffordablePayments(b, source, second);
    var b2 := PaidOut(b, source, second).value;
    PaidOutMoves(b, source, second);
    AffordablePayments(b2, source, first);
    var b21 := PaidOut(b2, source, first).value;
    PaidOutMoves(b2, source, first);
    forall a: Address | a in b12 ensures b12[a] == b21[a] {
      assert BalanceOf(b12, a) == BalanceOf(b21, a);
    }
    assert b12 == b21;
  }

  /** While the supply fits the token's integer, a passing permissionless call finishes. */
  lemma {:induction false} SmallSupplyPays(b: Balances, source: Address, legs: seq<Leg>)
    requires Supply(b) <= I128_MAX
    requires Payable(legs) && Total(legs) <= BalanceOf(b, source)
    ensures PaidOut(b, source, legs).Some?
    decreases |legs|
  {
    if legs != [] {
      TotalIsNonNegative(legs[1..]);
      CoveredTransferSucceeds(b, source, legs[0].target, legs[0].amount);
      TransferMoves(b, source, legs[0].target, legs[0].amount);
      SmallSupplyPays(Transferred(b, source, legs[0].target, legs[0].amount).value, source, legs[1..]);
    }
  }

  lemma BondCovered(s: State, key: Key)
    requires Inv(s) && LockedVerdict(s, key) == Pass
    ensures 0 < s.reservations[key].amount <= BalanceOf(s.balances, s.self)
  {
    var m := LockedAmounts(s);
    forall k | k in m ensures m[k] >= 0 {
      assert SoundReservation(s, k, s.reservations[k]);
    }
    SumBounds(m, key, key);
    assert SoundReservation(s, key, s.reservations[key]);
  }

  /** A passing call can always be paid while the supply fits the token's integer. */
  lemma PassingCallFinishes(s: State, c: Call)
    requires Inv(s) && Permissionless(c) && VerdictOf(s, c) == Pass && Supply(s.balances) <= I128_MAX
    ensures Finishes(s, c)
  {
    PermissionlessCall(s, c);
    BondCovered(s, c.action.key);
    SmallSupplyPays(s.balances, s.self, LegsOf(s, c));
  }

  predicate BothFinish(s: State, c: Call, d: Call) {
    Finishes(s, c) && Finishes(Next(s, c), d)
  }

  /** The reservations after a passing call. */
  function Closed(reservations: map<Key, Reservation>, c: Call): map<Key, Reservation>
    requires Permissionless(c) && c.action.key in reservations
  {
    reservations[c.action.key := reservations[c.action.key].(status := StatusAfter(c))]
  }

  lemma ClosingsCommute(reservations: map<Key, Reservation>, c: Call, d: Call)
    requires Permissionless(c) && Permissionless(d) && c.action.key != d.action.key
    requires c.action.key in reservations && d.action.key in reservations
    ensures Closed(Closed(reservations, c), d) == Closed(Closed(reservations, d), c)
  {}

  /** Two passing calls on different bonds, in the given order. */
  lemma TwoClosings(s: State, c: Call, d: Call)
    requires Inv(s) && Permissionless(c) && Permissionless(d) && c.action.key != d.action.key
    requires VerdictOf(s, c) == Pass && VerdictOf(s, d) == Pass
    ensures var paid := PaidOut(s.balances, s.self, LegsOf(s, c));
      && (BothFinish(s, c, d) <==> paid.Some? && PaidOut(paid.value, s.self, LegsOf(s, d)).Some?)
      && (BothFinish(s, c, d) ==>
            SameBooks(s.(reservations := Closed(Closed(s.reservations, c), d),
                         balances := PaidOut(paid.value, s.self, LegsOf(s, d)).value),
                      Next(Next(s, c), d)))
  {
    PermissionlessCall(s, c);
    if Finishes(s, c) {
      var sc := Next(s, c);
      OtherVerdictStays(s, sc, c, d);
      CallKeepsRecords(s, c);
      PermissionlessCall(sc, d);
    }
  }

  /** Two passing calls on different bonds: if one order goes through, so does the other, with the same result. */
  lemma FinishedCallsCommute(s: State, c: Call, d: Call)
    requires Inv(s) && Permissionless(c) && Permissionless(d) && c.action.key != d.action.key
    requires VerdictOf(s, c) == Pass && VerdictOf(s, d) == Pass
    requires BothFinish(s, c, d)
    ensures BothFinish(s, d, c)
    ensures SameBooks(Next(Next(s, c), d), Next(Next(s, d), c))
  {
    PermissionlessCall(s, c);
    PermissionlessCall(s, d);
    TwoBondsCovered(s, c.action.key, d.action.key);
    TwoClosings(s, c, d);
    TwoClosings(s, d, c);
    PaymentsCommute(s.balances, s.self, LegsOf(s, c), LegsOf(s, d));
    ClosingsCommute(s.reservations, c, d);
  }

  /** On one bond at most one of settling and claiming passes, and only once. */
  lemma SameBondCommutes(s: State, c: Call, d: Call)
    requires Inv(s) && Permissionless(c) && Permissionless(d) && c.action.key == d.action.key
    requires VerdictOf(s, c) == Pass && VerdictOf(s, d) == Pass
    ensures Next(Next(s, c), d) == Next(Next(s, d), c)
    ensures !BothFinish(s, c, d)
  {
    assert c.action == d.action;
    assert Step(s, c) == Step(s, d);
    PermissionlessCall(s, c);
    if Finishes(s, c) {
      CallKeepsRecords(s, c);
      OtherVerdictStays(s, Next(s, c), c, d);
      OtherVerdictStays(s, Next(s, c), c, c);
      PermissionlessCall(Next(s, c), d);
      PermissionlessCall(Next(s, c), c);
    }
  }

  // ----- When two calls commute -----

  /** A call that is due and whose receivers have room for it, as things stand. */
  ghost predicate Ready(s: State, c: Call) {
    Permissionless(c) && VerdictOf(s, c) == Pass && Fits(s.balances, s.self, LegsOf(s, c))
  }

  lemma ReadyFinishes(s: State, c: Call)
    requires Inv(s) && Permissionless(c)
    ensures Finishes(s, c) <==> Ready(s, c)
    ensures !Ready(s, c) ==> Next(s, c) == s
  {
    PermissionlessCall(s, c);
    if VerdictOf(s, c) == Pass {
      BondCovered(s, c.action.key);
      AffordablePayments(s.balances, s.self, LegsOf(s, c));
    }
  }

  /** On one bond only one kind of call is ever due. */
  lemma OneKindIsDue(s: State, c: Call, d: Call)
    requires Permissionless(c) && Permissionless(d) && VerdictOf(s, c) == Pass && VerdictOf(s, d) == Pass
    ensures c.action.key == d.action.key ==> c.action == d.action
  {}

  predicate ClosedIn(s: State, key: Key) {
    key in s.reservations && s.reservations[key].status != Locked
  }

  /** What a ready call does: its bond is closed and its receivers are paid. */
  lemma ReadyPays(s: State, c: Call)
    requires Inv(s) && Ready(s, c)
    ensures var s' := Next(s, c);
      && Inv(s') && s'.self == s.self && ClosedIn(s', c.action.key)
      && (forall a: Address :: a != s.self ==>
            BalanceOf(s'.balances, a) == BalanceOf(s.balances, a) + Received(LegsOf(s, c), a))
  {
    ReadyFinishes(s, c);
    PermissionlessCall(s, c);
    CallKeepsInv(s, c);
    PaidOutMoves(s.balances, s.self, LegsOf(s, c));
    Flows(s.self, LegsOf(s, c));
  }

  /** And every other call stays as due as it was. */
  lemma AfterReady(s: State, c: Call, d: Call)
    requires Inv(s) && Ready(s, c) && Permissionless(d)
    ensures var s' := Next(s, c);
      && (VerdictOf(s', d) == Pass <==> VerdictOf(s, d) == Pass && d.action != c.action)
      && (VerdictOf(s', d) == Pass ==> LegsOf(s', d) == LegsOf(s, d))
  {
    ReadyFinishes(s, c);
    PermissionlessCall(s, c);
    OtherVerdictStays(s, Next(s, c), c, d);
    if VerdictOf(s, d) == Pass {
      OneKindIsDue(s, c, d);
    }
  }

  lemma {:induction false} ReceivedConcat(xs: seq<Leg>, ys: seq<Leg>, a: Address)
    ensures Received(xs + ys, a) == Received(xs, a) + Received(ys, a)
  {
    if xs == [] {
      assert xs + ys == ys;
    } else {
      assert (xs + ys)[1..] == xs[1..] + ys;
      ReceivedConcat(xs[1..], ys, a);
    }
  }

  lemma FitsAfterPaying(b: Balances, b': Balances, source: Address, xs: seq<Leg>, ys: seq<Leg>)
    requires forall a: Address :: a != source ==> BalanceOf(b', a) == BalanceOf(b, a) + Received(xs, a)
    ensures Fits(b', source, ys) <==> Fits(b, source, xs + ys)
  {
    forall a: Address ensures Received(xs + ys, a) == Received(xs, a) + Received(ys, a) {
      ReceivedConcat(xs, ys, a);
    }
  }

  /** After a ready call another one is still ready exactly when there is room for both. */
  lemma SecondIsReady(s: State, c: Call, d: Call)
    requires Inv(s) && Ready(s, c) && Permissionless(d) && VerdictOf(s, d) == Pass && c.action != d.action
    ensures Ready(Next(s, c), d) <==> Fits(s.balances, s.self, LegsOf(s, c) + LegsOf(s, d))
  {
    ReadyPays(s, c);
    AfterReady(s, c, d);
    FitsAfterPaying(s.balances, Next(s, c).balances, s.self, LegsOf(s, c), LegsOf(s, d));
  }

  lemma ReadyReceives(s: State, c: Call, a: Address)
    requires SoundRecords(s) && Ready(s, c)
    ensures 0 <= Received(LegsOf(s, c), a)
  {
    PermissionlessCall(s, c);
    ReceivedIsNonNegative(LegsOf(s, c), a);
  }

  /** Readiness is only ever lost: receivers fill up. */
  lemma ReadyShrinks(s: State, c: Call, d: Call)
    requires Inv(s) && Ready(s, c) && Ready(Next(s, c), d)
    ensures Ready(s, d) && d.action != c.action
  {
    AfterReady(s, c, d);
    SecondIsReady(s, c, d);
    forall a: Address ensures Received(LegsOf(s, d), a) <= Received(LegsOf(s, c) + LegsOf(s, d), a) {
      ReadyReceives(s, c, a);
      ReceivedConcat(LegsOf(s, c), LegsOf(s, d), a);
    }
  }

  /** Two bonds, room for either, but not for both. */
  ghost predicate Conflict(s: State, c: Call, d: Call) {
    && Ready(s, c) && Ready(s, d) && c.action.key != d.action.key
    && !Fits(s.balances, s.self, LegsOf(s, c) + LegsOf(s, d))
  }

  lemma FirstWins(s: State, c: Call, d: Call)
    requires Inv(s) && Conflict(s, c, d)
    ensures var s' := Next(Next(s, c), d);
      && !BothFinish(s, c, d)
      && ClosedIn(s', c.action.key)
      && d.action.key in s'.reservations && !ClosedIn(s', d.action.key)
  {
    SecondIsReady(s, c, d);
    ReadyPays(s, c);
    AfterReady(s, c, d);
    ReadyFinishes(Next(s, c), d);
  }

  /** A conflict is settled by who comes first. */
  lemma ConflictDoesNotCommute(s: State, c: Call, d: Call)
    requires Inv(s) && Conflict(s, c, d)
    ensures !SameBooks(Next(Next(s, c), d), Next(Next(s, d), c))
    ensures !BothFinish(s, c, d)
  {
    FirstWins(s, c, d);
    forall a: Address ensures Received(LegsOf(s, d) + LegsOf(s, c), a) == Received(LegsOf(s, c) + LegsOf(s, d), a) {
      ReceivedConcat(LegsOf(s, c), LegsOf(s, d), a);
      ReceivedConcat(LegsOf(s, d), LegsOf(s, c), a);
    }
    FirstWins(s, d, c);
  }

  /** A call that is not ready stays so, and the other call does not notice it. */
  lemma UnreadyCallCommutes(s: State, c: Call, d: Call)
    requires Inv(s) && Permissionless(c) && Permissionless(d) && !Ready(s, c)
    ensures Next(Next(s, c), d) == Next(s, d) == Next(Next(s, d), c)
    ensures !BothFinish(s, c, d) && !BothFinish(s, d, c)
  {
    ReadyFinishes(s, c);
    ReadyFinishes(s, d);
    CallKeepsInv(s, d);
    ReadyFinishes(Next(s, d), c);
    if Ready(s, d) && Ready(Next(s, d), c) {
      ReadyShrinks(s, d, c);
    }
  }

  lemma ReadyCallsCommute(s: State, c: Call, d: Call)
    requires Inv(s) && Ready(s, c) && Ready(s, d) && !Conflict(s, c, d)
    ensures SameBooks(Next(Next(s, c), d), Next(Next(s, d), c))
    ensures BothFinish(s, c, d) ==> BothFinish(s, d, c)
  {
    if c.action.key == d.action.key {
      SameBondCommutes(s, c, d);
    } else {
      SecondIsReady(s, c, d);
      ReadyFinishes(s, c);
      CallKeepsInv(s, c);
      ReadyFinishes(Next(s, c), d);
      FinishedCallsCommute(s, c, d);
    }
  }

  /**
   Two permissionless calls commute exactly unless there is room for either of their bonds and not for both: a
   condition on the balances before any call is made.
   */
  lemma CallsCommute(s: State, c: Call, d: Call)
    requires Inv(s) && Permissionless(c) && Permissionless(d)
    ensures SameBooks(Next(Next(s, c), d), Next(Next(s, d), c)) <==> !Conflict(s, c, d)
    ensures BothFinish(s, c, d) ==> BothFinish(s, d, c)
  {
    if !Ready(s, c) {
      UnreadyCallCommutes(s, c, d);
    } else if !Ready(s, d) {
      UnreadyCallCommutes(s, d, c);
    } else if Conflict(s, c, d) {
      ConflictDoesNotCommute(s, c, d);
    } else {
      ReadyCallsCommute(s, c, d);
    }
  }

  // ----- Any number of them -----

  /** No call reads the log. */
  lemma SameBooksStep(s: State, t: State, c: Call)
    requires SameBooks(s, t) && Permissionless(c)
    ensures SameBooks(Next(s, c), Next(t, c)) && (Finishes(s, c) <==> Finishes(t, c))
  {}

  lemma {:induction false} SameBooksRun(s: State, t: State, calls: seq<Call>)
    requires SameBooks(s, t) && forall c :: c in calls ==> Permissionless(c)
    ensures SameBooks(Exec(s, calls), Exec(t, calls)) && (AllFinish(s, calls) <==> AllFinish(t, calls))
    decreases |calls|
  {
    if calls != [] {
      SameBooksStep(s, t, calls[0]);
      SameBooksRun(Next(s, calls[0]), Next(t, calls[0]), calls[1..]);
    }
  }

  predicate Repeats(c: Call, calls: seq<Call>) {
    exists d :: d in calls && d.action == c.action
  }

  /** What the first call of a run adds to what is due. */
  ghost function HeadDue(s: State, c: Call, rest: seq<Call>, a: Address): int {
    if Ready(s, c) && !Repeats(c, rest) then Received(LegsOf(s, c), a) else 0
  }

  /** What the ready calls of a run would bring an account together, each action counted once. */
  ghost function Due(s: State, calls: seq<Call>, a: Address): int {
    if calls == [] then 0 else HeadDue(s, calls[0], calls[1..], a) + Due(s, calls[1..], a)
  }

  /** The calls whose legs fit alone fit together: nobody but the contract itself would overflow. */
  ghost predicate FitTogether(s: State, calls: seq<Call>) {
    forall a: Address :: a != s.self ==> BalanceOf(s.balances, a) + Due(s, calls, a) <= I128_MAX
  }

  predicate AllPermissionless(calls: seq<Call>) {
    forall c :: c in calls ==> Permissionless(c)
  }

  ghost predicate Agree(s: State, xs: seq<Call>, ys: seq<Call>) {
    SameBooks(Exec(s, xs), Exec(s, ys)) && (AllFinish(s, xs) ==> AllFinish(s, ys))
  }

  lemma ExecCons(s: State, c: Call, rest: seq<Call>)
    ensures Exec(s, [c] + rest) == Exec(Next(s, c), rest)
    ensures AllFinish(s, [c] + rest) <==> Finishes(s, c) && AllFinish(Next(s, c), rest)
  {
    assert ([c] + rest)[1..] == rest;
  }

  lemma PermissionlessKeeps(s: State, c: Call)
    requires Inv(s) && Permissionless(c)
    ensures Inv(Next(s, c)) && Supply(Next(s, c).balances) == Supply(s.balances)
  {
    CallKeepsInv(s, c);
    CallMoves(s, c);
  }

  lemma DueCons(s: State, c: Call, rest: seq<Call>, a: Address)
    ensures Due(s, [c] + rest, a) == HeadDue(s, c, rest, a) + Due(s, rest, a)
  {
    assert ([c] + rest)[1..] == rest;
  }

  /** Readiness and legs belong to the action, whoever signs the call. */
  lemma ReadyByAction(s: State, c: Call, d: Call)
    requires c.action == d.action
    ensures Ready(s, c) <==> Ready(s, d)
    ensures Ready(s, c) ==> LegsOf(s, c) == LegsOf(s, d)
  {}

  /** What is due covers any two ready calls of the run. */
  lemma {:induction false} DueCoversTwo(s: State, calls: seq<Call>, c: Call, d: Call, a: Address)
    requires SoundRecords(s) && Ready(s, c) && Ready(s, d) && c.action != d.action
    ensures Due(s, calls, a) >= (if Repeats(c, calls) then Received(LegsOf(s, c), a) else 0)
                                + (if Repeats(d, calls) then Received(LegsOf(s, d), a) else 0)
    decreases |calls|
  {
    if calls != [] {
      var x, rest := calls[0], calls[1..];
      DueCoversTwo(s, rest, c, d, a);
      assert forall y: Call :: Repeats(y, calls) <==> x.action == y.action || Repeats(y, rest);
      if Ready(s, x) {
        ReadyReceives(s, x, a);
      }
      if x.action == c.action {
        ReadyByAction(s, c, x);
      }
      if x.action == d.action {
        ReadyByAction(s, d, x);
      }
    }
  }

  /** A ready call leaves the rest of the run as ready as it was, up to repetitions of itself. */
  ghost predicate LeavesReady(s: State, c: Call, rest: seq<Call>) {
    Ready(s, c) ==> forall d :: d in rest ==> (Ready(Next(s, c), d) <==> Ready(s, d) && d.action != c.action)
  }

  lemma HeadDueAfter(s: State, c: Call, d: Call, rest: seq<Call>, a: Address)
    requires Inv(s) && Ready(s, c) && Permissionless(d)
    requires Ready(Next(s, c), d) <==> Ready(s, d) && d.action != c.action
    ensures HeadDue(Next(s, c), d, rest, a) ==
      HeadDue(s, d, rest, a) - (if d.action == c.action && !Repeats(c, rest) then Received(LegsOf(s, c), a) else 0)
  {
    AfterReady(s, c, d);
    if d.action == c.action {
      ReadyByAction(s, c, d);
    }
  }

  /** Then what is due afterwards is what was due before less what was paid. */
  lemma {:induction false} DueAfter(s: State, c: Call, rest: seq<Call>, a: Address)
    requires Inv(s) && Ready(s, c) && AllPermissionless(rest) && LeavesReady(s, c, rest)
    ensures Due(Next(s, c), rest, a) ==
      Due(s, rest, a) - (if Repeats(c, rest) then Received(LegsOf(s, c), a) else 0)
    decreases |rest|
  {
    if rest != [] {
      var d, tail := rest[0], rest[1..];
      assert d in rest && forall x :: x in tail ==> x in rest;
      DueAfter(s, c, tail, a);
      assert Repeats(c, rest) <==> d.action == c.action || Repeats(c, tail);
      HeadDueAfter(s, c, d, tail, a);
    }
  }

  /** The condition on a run is the condition on its rest after the first call. */
  lemma FitTogetherStep(s: State, c: Call, rest: seq<Call>)
    requires Inv(s) && Permissionless(c) && AllPermissionless(rest) && LeavesReady(s, c, rest)
    ensures FitTogether(s, [c] + rest) <==> FitTogether(Next(s, c), rest)
  {
    ReadyFinishes(s, c);
    if Ready(s, c) {
      ReadyPays(s, c);
    }
    forall a: Address | a != s.self
      ensures BalanceOf(s.balances, a) + Due(s, [c] + rest, a) ==
              BalanceOf(Next(s, c).balances, a) + Due(Next(s, c), rest, a)
    {
      DueCons(s, c, rest, a);
      if Ready(s, c) {
        DueAfter(s, c, rest, a);
      }
    }
  }

  lemma NoConflictTogether(s: State, calls: seq<Call>, c: Call, d: Call)
    requires Inv(s) && FitTogether(s, calls) && c in calls && d in calls
    requires Ready(s, c) && Ready(s, d) && c.action != d.action
    ensures Fits(s.balances, s.self, LegsOf(s, c) + LegsOf(s, d))
  {
    forall a: Address | a != s.self
      ensures BalanceOf(s.balances, a) + Received(LegsOf(s, c) + LegsOf(s, d), a) <= I128_MAX
    {
      assert Repeats(c, calls) && Repeats(d, calls);
      DueCoversTwo(s, calls, c, d, a);
      ReceivedConcat(LegsOf(s, c), LegsOf(s, d), a);
    }
  }

  /** Calls that fit together do not take each other's room. */
  lemma TogetherLeavesReady(s: State, c: Call, rest: seq<Call>)
    requires Inv(s) && Permissionless(c) && AllPermissionless(rest) && FitTogether(s, [c] + rest)
    ensures LeavesReady(s, c, rest)
  {
    if Ready(s, c) {
      forall d | d in rest ensures Ready(Next(s, c), d) <==> Ready(s, d) && d.action != c.action {
        if Ready(Next(s, c), d) {
          ReadyShrinks(s, c, d);
        } else if Ready(s, d) && d.action != c.action {
          NoConflictTogether(s, [c] + rest, c, d);
          SecondIsReady(s, c, d);
        }
      }
    }
  }

  /** The first two calls of a run may be swapped. */
  lemma SwapFirst(s: State, c: Call, d: Call, rest: seq<Call>)
    requires Inv(s) && Permissionless(c) && Permissionless(d) && AllPermissionless(rest)
    requires FitTogether(s, [c] + ([d] + rest))
    ensures Agree(s, [c] + ([d] + rest), [d] + ([c] + rest))
  {
    ExecCons(s, c, [d] + rest);
    ExecCons(Next(s, c), d, rest);
    ExecCons(s, d, [c] + rest);
    ExecCons(Next(s, d), c, rest);
    if Conflict(s, c, d) {
      NoConflictTogether(s, [c] + ([d] + rest), c, d);
    }
    CallsCommute(s, c, d);
    SameBooksRun(Next(Next(s, c), d), Next(Next(s, d), c), rest);
  }

  lemma AgreeTransitive(s: State, xs: seq<Call>, ys: seq<Call>, zs: seq<Call>)
    requires Agree(s, xs, ys) && Agree(s, ys, zs)
    ensures Agree(s, xs, zs)
  {}

  /** The run without its i-th call. */
  function Without(xs: seq<Call>, i: nat): seq<Call>
    requires i < |xs|
  {
    xs[..i] + xs[i + 1..]
  }

  lemma WithoutOne(xs: seq<Call>, i: nat)
    requires i < |xs|
    ensures multiset(Without(xs, i)) == multiset(xs) - multiset{xs[i]}
    ensures forall c :: c in xs <==> c == xs[i] || c in Without(xs, i)
  {
    assert xs == xs[..i] + [xs[i]] + xs[i + 1..];
  }

  lemma DueSwaps(s: State, c: Call, d: Call, rest: seq<Call>, a: Address)
    ensures Due(s, [c] + ([d] + rest), a) == Due(s, [d] + ([c] + rest), a)
  {
    DueCons(s, c, [d] + rest, a);
    DueCons(s, d, rest, a);
    DueCons(s, d, [c] + rest, a);
    DueCons(s, c, rest, a);
    assert Repeats(c, [d] + rest) <==> c.action == d.action || Repeats(c, rest);
    assert Repeats(d, [c] + rest) <==> c.action == d.action || Repeats(d, rest);
    if c.action == d.action {
      ReadyByAction(s, c, d);
    }
  }

  /** What is due does not depend on the order of the calls. */
  lemma {:induction false} DueMoves(s: State, xs: seq<Call>, i: nat, a: Address)
    requires i < |xs|
    ensures Due(s, xs, a) == Due(s, [xs[i]] + Without(xs, i), a)
    decreases i
  {
    if i == 0 {
      assert [xs[0]] + Without(xs, 0) == xs;
    } else {
      var c, tail := xs[0], xs[1..];
      DueMoves(s, tail, i - 1, a);
      var moved := [xs[i]] + Without(tail, i - 1);
      WithoutOne(tail, i - 1);
      assert xs == [c] + tail && Without(xs, i) == [c] + Without(tail, i - 1);
      DueCons(s, c, tail, a);
      DueCons(s, c, moved, a);
      assert Repeats(c, tail) <==> Repeats(c, moved);
      DueSwaps(s, c, xs[i], Without(tail, i - 1), a);
    }
  }

  lemma FitTogetherMoves(s: State, xs: seq<Call>, i: nat)
    requires i < |xs|
    ensures FitTogether(s, xs) <==> FitTogether(s, [xs[i]] + Without(xs, i))
  {
    forall a: Address ensures Due(s, xs, a) == Due(s, [xs[i]] + Without(xs, i), a) {
      DueMoves(s, xs, i, a);
    }
  }

  lemma SwappedTogether(s: State, c: Call, d: Call, rest: seq<Call>)
    requires FitTogether(s, [d] + ([c] + rest))
    ensures FitTogether(s, [c] + ([d] + rest))
  {
    forall a: Address ensures Due(s, [c] + ([d] + rest), a) == Due(s, [d] + ([c] + rest), a) {
      DueSwaps(s, c, d, rest, a);
    }
  }

  lemma TogetherStep(s: State, c: Call, rest: seq<Call>)
    requires Inv(s) && Permissionless(c) && AllPermissionless(rest) && FitTogether(s, [c] + rest)
    ensures Inv(Next(s, c)) && FitTogether(Next(s, c), rest)
  {
    TogetherLeavesReady(s, c, rest);
    FitTogetherStep(s, c, rest);
    PermissionlessKeeps(s, c);
  }

  /** A call may be moved to the front of the run. */
  lemma {:induction false} MoveToFront(s: State, xs: seq<Call>, i: nat)
    requires Inv(s) && i < |xs| && AllPermissionless(xs) && FitTogether(s, xs)
    ensures Agree(s, xs, [xs[i]] + Without(xs, i))
    decreases i
  {
    if i == 0 {
      assert [xs[0]] + Without(xs, 0) == xs;
    } else {
      // Move it to the second place, then swap it with the first.
      var c, d, tail := xs[0], xs[i], xs[1..];
      var rest := Without(tail, i - 1);
      assert xs == [c] + tail && Without(xs, i) == [c] + rest;
      WithoutOne(tail, i - 1);
      ExecCons(s, c, tail);
      TogetherStep(s, c, tail);
      MoveToFront(Next(s, c), tail, i - 1);
      ExecCons(s, c, [d] + rest);
      FitTogetherMoves(s, xs, i);
      SwappedTogether(s, c, d, rest);
      SwapFirst(s, c, d, rest);
      AgreeTransitive(s, xs, [c] + ([d] + rest), [d] + ([c] + rest));
    }
  }

  /** The first call of one order, found in another. */
  lemma FindFirst(xs: seq<Call>, ys: seq<Call>) returns (i: nat)
    requires multiset(xs) == multiset(ys) && ys != []
    ensures i < |xs| && xs[i] == ys[0]
    ensures multiset(Without(xs, i)) == multiset(ys[1..]) && |Without(xs, i)| < |xs|
    ensures forall c :: c in Without(xs, i) ==> c in xs
  {
    assert ys[0] in multiset(ys);
    i :| 0 <= i < |xs| && xs[i] == ys[0];
    WithoutOne(xs, i);
    WithoutOne(ys, 0);
    assert Without(ys, 0) == ys[1..];
  }

  /** Calls that fit together may be made in any order. */
  lemma {:induction false} TogetherAnyOrder(s: State, xs: seq<Call>, ys: seq<Call>)
    requires Inv(s) && AllPermissionless(xs) && multiset(xs) == multiset(ys)
    requires FitTogether(s, xs)
    ensures Agree(s, xs, ys)
    decreases |xs|
  {
    if ys == [] {
      assert |multiset(xs)| == 0;
      assert xs == ys;
    } else {
      var i := FindFirst(xs, ys);
      var rest := Without(xs, i);
      MoveToFront(s, xs, i);
      FitTogetherMoves(s, xs, i);
      TogetherStep(s, xs[i], rest);
      ExecCons(s, xs[i], rest);
      TogetherAnyOrder(Next(s, xs[i]), rest, ys[1..]);
    }
  }

  lemma ClosedStays(s: State, calls: seq<Call>, key: Key)
    requires Inv(s) && ClosedIn(s, key)
    ensures ClosedIn(Exec(s, calls), key)
  {
    RunEvolves(s, calls);
  }

  /** A due call without room never gets any: receivers only fill up. */
  lemma {:induction false} NeverFits(s: State, calls: seq<Call>, d: Call)
    requires Inv(s) && AllPermissionless(calls) && Permissionless(d)
    requires VerdictOf(s, d) == Pass && !Ready(s, d)
    ensures !ClosedIn(Exec(s, calls), d.action.key)
    decreases |calls|
  {
    if calls != [] {
      var c := calls[0];
      assert c in calls && forall x :: x in calls[1..] ==> x in calls;
      ReadyFinishes(s, c);
      PermissionlessKeeps(s, c);
      if Ready(s, c) {
        ReadyPays(s, c);
        if c.action == d.action {
          ReadyByAction(s, c, d);
        }
        AfterReady(s, c, d);
        if Ready(Next(s, c), d) {
          ReadyShrinks(s, c, d);
        }
      }
      NeverFits(Next(s, c), calls[1..], d);
    }
  }

  /** Every bond of a ready call is closed at the end. */
  ghost predicate AllReadyClosed(s: State, calls: seq<Call>, t: State) {
    forall c :: c in calls && Ready(s, c) ==> ClosedIn(t, c.action.key)
  }

  /** A run that closes everything it could shows that there is room for all of it. */
  lemma {:induction false} AllClosedFits(s: State, calls: seq<Call>)
    requires Inv(s) && AllPermissionless(calls) && AllReadyClosed(s, calls, Exec(s, calls))
    ensures FitTogether(s, calls)
    decreases |calls|
  {
    if calls != [] {
      var c, rest := calls[0], calls[1..];
      assert calls == [c] + rest && c in calls && forall x :: x in rest ==> x in calls;
      ReadyFinishes(s, c);
      PermissionlessKeeps(s, c);
      forall d | d in rest && Ready(s, c)
        ensures Ready(Next(s, c), d) <==> Ready(s, d) && d.action != c.action
      {
        AfterReady(s, c, d);
        if Ready(Next(s, c), d) {
          ReadyShrinks(s, c, d);
        } else if Ready(s, d) && d.action != c.action {
          NeverFits(Next(s, c), rest, d);
          assert false;
        }
      }
      AllClosedFits(Next(s, c), rest);
      FitTogetherStep(s, c, rest);
    }
  }

  ghost predicate AllOrdersAgree(s: State, xs: seq<Call>) {
    forall ys: seq<Call> :: multiset(ys) == multiset(xs) ==> SameBooks(Exec(s, xs), Exec(s, ys))
  }

  /** Whoever comes first closes his bond for good. */
  lemma FrontCloses(s: State, c: Call, rest: seq<Call>)
    requires Inv(s) && Ready(s, c)
    ensures ClosedIn(Exec(s, [c] + rest), c.action.key)
  {
    ExecCons(s, c, rest);
    ReadyPays(s, c);
    ClosedStays(Next(s, c), rest, c.action.key);
  }

  lemma SameBooksSameBonds(s: State, t: State, key: Key)
    requires SameBooks(s, t)
    ensures ClosedIn(s, key) <==> ClosedIn(t, key)
  {}

  lemma FrontIsAnOrder(xs: seq<Call>, i: nat)
    requires i < |xs|
    ensures multiset([xs[i]] + Without(xs, i)) == multiset(xs)
  {
    WithoutOne(xs, i);
  }

  /** Without room for all some ready call loses its turn. */
  lemma SomeoneIsLeftOut(s: State, xs: seq<Call>) returns (i: nat)
    requires Inv(s) && AllPermissionless(xs) && !FitTogether(s, xs)
    ensures i < |xs| && Ready(s, xs[i]) && !ClosedIn(Exec(s, xs), xs[i].action.key)
  {
    if AllReadyClosed(s, xs, Exec(s, xs)) {
      AllClosedFits(s, xs);
    }
    var c :| c in xs && Ready(s, c) && !ClosedIn(Exec(s, xs), c.action.key);
    i :| 0 <= i < |xs| && xs[i] == c;
  }

  /** And would have had it in front. */
  lemma SomeOrderDiffers(s: State, xs: seq<Call>)
    requires Inv(s) && AllPermissionless(xs) && !FitTogether(s, xs)
    ensures !AllOrdersAgree(s, xs)
  {
    var i := SomeoneIsLeftOut(s, xs);
    var ys := [xs[i]] + Without(xs, i);
    FrontIsAnOrder(xs, i);
    FrontCloses(s, xs[i], Without(xs, i));
    if SameBooks(Exec(s, xs), Exec(s, ys)) {
      SameBooksSameBonds(Exec(s, xs), Exec(s, ys), xs[i].action.key);
    }
  }

  /**
   Order independence, exactly: all orders of the same permissionless calls, refused and repeated ones included, leave
   the same storage and the same balances if and only if the calls whose legs fit alone fit together, which is read
   off the balances before any call. Organizers, pool, contract and participants may be the same account.
   */
  lemma OrderDoesNotMatter(s: State, xs: seq<Call>)
    requires Inv(s) && AllPermissionless(xs)
    ensures AllOrdersAgree(s, xs) <==> FitTogether(s, xs)
  {
    if FitTogether(s, xs) {
      forall ys: seq<Call> | multiset(ys) == multiset(xs) ensures SameBooks(Exec(s, xs), Exec(s, ys)) {
        TogetherAnyOrder(s, xs, ys);
      }
    } else {
      SomeOrderDiffers(s, xs);
    }
  }

  /** While the supply fits the token's integer a run closes every bond that was due. */
  lemma {:induction false} SmallSupplyClosesAll(s: State, calls: seq<Call>, d: Call)
    requires Inv(s) && AllPermissionless(calls) && Supply(s.balances) <= I128_MAX
    requires d in calls && VerdictOf(s, d) == Pass
    ensures ClosedIn(Exec(s, calls), d.action.key)
    decreases |calls|
  {
    var c := calls[0];
    assert c in calls && forall x :: x in calls[1..] ==> x in calls;
    PermissionlessKeeps(s, c);
    ReadyFinishes(s, c);
    if VerdictOf(s, c) == Pass {
      PassingCallFinishes(s, c);
      ReadyPays(s, c);
      AfterReady(s, c, d);
    }
    if VerdictOf(s, c) == Pass && c.action == d.action {
      ClosedStays(Next(s, c), calls[1..], d.action.key);
    } else {
      assert d in calls[1..];
      SmallSupplyClosesAll(Next(s, c), calls[1..], d);
    }
  }

  /** And so does a run in which every call finishes. */
  lemma {:induction false} FinishedRunClosesAll(s: State, calls: seq<Call>, d: Call)
    requires Inv(s) && AllPermissionless(calls) && AllFinish(s, calls) && d in calls
    ensures ClosedIn(Exec(s, calls), d.action.key)
    decreases |calls|
  {
    var c := calls[0];
    assert c in calls && forall x :: x in calls[1..] ==> x in calls;
    PermissionlessKeeps(s, c);
    ReadyFinishes(s, c);
    ReadyPays(s, c);
    if c == d {
      ClosedStays(Next(s, c), calls[1..], d.action.key);
    } else {
      FinishedRunClosesAll(Next(s, c), calls[1..], d);
    }
  }

  /** There is room for all when the supply fits the token's integer, or when one order was seen to go through. */
  lemma RoomForAll(s: State, xs: seq<Call>)
    requires Inv(s) && AllPermissionless(xs)
    requires Supply(s.balances) <= I128_MAX || AllFinish(s, xs)
    ensures FitTogether(s, xs)
  {
    forall c | c in xs && Ready(s, c) ensures ClosedIn(Exec(s, xs), c.action.key) {
      if AllFinish(s, xs) {
        FinishedRunClosesAll(s, xs, c);
      } else {
        SmallSupplyClosesAll(s, xs, c);
      }
    }
    AllClosedFits(s, xs);
  }

  /** Then every other order leaves the same books, and goes through if the first did. */
  lemma RoomyRunsReorder(s: State, xs: seq<Call>, ys: seq<Call>)
    requires Inv(s) && AllPermissionless(xs) && multiset(xs) == multiset(ys)
    requires Supply(s.balances) <= I128_MAX || AllFinish(s, xs)
    ensures SameBooks(Exec(s, xs), Exec(s, ys)) && (AllFinish(s, xs) ==> AllFinish(s, ys))
  {
    RoomForAll(s, xs);
    TogetherAnyOrder(s, xs, ys);
  }
}
