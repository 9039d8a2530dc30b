/** Reachable states in which a claim about the contract fails, each built by calls from deployment. */
module BondExamples {
  import opened BondHistory
  import opened BondInvariant
  import opened BondOrder
  import opened BondOrganizer
  import opened BondRelease
  import opened BondSpec
  import opened BondTerms
  import opened BondTypes
  import opened TokenBalances

  /** Some run from a deployment ends in this state. */
  ghost predicate Reachable(s: State) {
    exists start: State, calls: seq<Call> :: Initial(start) && s == Exec(start, calls)
  }

  lemma ReachableIsSound(s: State)
    requires Reachable(s)
    ensures Inv(s) && Chronicled(s)
  {
    var start, calls :| Initial(start) && s == Exec(start, calls);
    InitialInv(start);
    RunKeepsChronicle(start, calls);
  }

  lemma ReachableNext(s: State, c: Call)
    requires Reachable(s)
    ensures Reachable(Next(s, c))
  {
    var start, calls :| Initial(start) && s == Exec(start, calls);
    ExecAppend(start, calls, [c]);
    ExecCons(s, c, []);
    assert [c] + [] == [c];
    assert Next(s, c) == Exec(start, calls + [c]);
  }

  lemma Wait(s: State, t: u64)
    requires Reachable(s) && s.now <= t
    ensures Reachable(s.(now := t))
  {
    ReachableNext(s, Call({}, Tick(t)));
  }

  // ----- One event and its seats -----

  /** Two seats at a bond; check-in opens, and cancelling ends, at one instant, and check-in closes at another. */
  function Terms(bond: i128, organizerBps: u32, opening: u64, closing: u64): Policy
    requires organizerBps <= TOTAL_BPS
  {
    Policy("O", [], [], bond, 2, opening, opening, closing, opening, organizerBps, TOTAL_BPS - organizerBps)
  }

  function Opened(p: Policy, reserved: u32): Event {
    Event(1, p.organizer, p.organizer, p.title, p.venue, p.bondAmount, p.capacity, reserved,
          p.startTime, p.checkinStart, p.checkinDeadline, p.cancellationDeadline,
          p.organizerBps, p.communityBps, EventStatus.Active)
  }

  function Seat(p: Address, bond: i128): Reservation {
    Reservation(1, p, bond, 0, Locked)
  }

  /** The contract "C" with its pool "L", right after its only event was created. */
  function Empty(p: Policy, balances: Balances): State {
    State("C", Config("T", "L"), 1, map[1 := Opened(p, 0)], map[], balances,
          [EventCreated(1, p.organizer, p.bondAmount, p.capacity)], 0)
  }

  lemma EventOpens(bond: i128, organizerBps: u32, opening: u64, closing: u64, balances: Balances)
    requires 0 < bond && organizerBps <= TOTAL_BPS && opening <= closing
    ensures Reachable(Empty(Terms(bond, organizerBps, opening, closing), balances))
  {
    var start := State("C", Config("T", "L"), 0, map[], map[], balances, [], 0);
    assert start == Exec(start, []);
    assert Reachable(start);
    ReachableNext(start, Call({"O"}, Action.CreateEvent(Terms(bond, organizerBps, opening, closing))));
  }

  /** After "P" has taken a seat. */
  function OneSeat(p: Policy, balances: Balances): State
    requires p.bondAmount <= BalanceOf(balances, "P") && 0 <= BalanceOf(balances, "C") + p.bondAmount <= I128_MAX
    requires 0 <= BalanceOf(balances, "P") - p.bondAmount <= I128_MAX
  {
    var paid := balances["P" := BalanceOf(balances, "P") - p.bondAmount];
    Empty(p, balances).(
      events := map[1 := Opened(p, 1)],
      reservations := map[Key(1, "P") := Seat("P", p.bondAmount)],
      balances := paid["C" := BalanceOf(balances, "C") + p.bondAmount],
      log := [EventCreated(1, p.organizer, p.bondAmount, p.capacity), BondLocked(1, "P", p.bondAmount)])
  }

  lemma SeatIsTaken(bond: i128, organizerBps: u32, opening: u64, closing: u64, balances: Balances)
    requires 0 < bond <= BalanceOf(balances, "P") && BalanceOf(balances, "C") + bond <= I128_MAX
    requires organizerBps <= TOTAL_BPS && opening <= closing && 0 < closing
    ensures Reachable(OneSeat(Terms(bond, organizerBps, opening, closing), balances))
  {
    var p := Terms(bond, organizerBps, opening, closing);
    EventOpens(bond, organizerBps, opening, closing, balances);
    var c := Call({"P"}, Action.Reserve(Key(1, "P")));
    assert Next(Empty(p, balances), c) == OneSeat(p, balances);
    ReachableNext(Empty(p, balances), c);
  }

  // ----- Bonds that wait for their organizer -----

  /** A Locked bond that no run releases of which its organizer signs nothing. */
  ghost predicate OnlyWithOrganizer(s: State, key: Key) {
    && LockedVerdict(s, key) == Pass
    && (forall calls :: Silent(calls, s.events[key.eventId].organizer) ==> key in LockedKeys(Exec(s, calls)))
  }

  lemma WaitingNeedsOrganizer(s: State, key: Key)
    requires Reachable(s) && LockedVerdict(s, key) == Pass && WaitsForOrganizer(s, key)
    ensures OnlyWithOrganizer(s, key)
  {
    ReachableIsSound(s);
    forall calls | Silent(calls, s.events[key.eventId].organizer) ensures key in LockedKeys(Exec(s, calls)) {
      WaitsThroughEveryRun(s, calls, key);
    }
  }

  /** A split that overflows: a settlement past the deadline is refused, and only the organizer can help. */
  lemma SettlementCanOverflow() returns (s: State, key: Key)
    ensures Reachable(s) && OnlyWithOrganizer(s, key)
    ensures s.events[key.eventId].status == EventStatus.Active && s.events[key.eventId].checkinDeadline < s.now
    ensures forall signers :: Step(s, Call(signers, SettleNoShow(key))) == Refused(Overflow)
  {
    var bond: i128 := I128_MAX / 5_000;
    var seated := OneSeat(Terms(bond, TOTAL_BPS, 1, 1), map["P" := bond]);
    SeatIsTaken(bond, TOTAL_BPS, 1, 1, map["P" := bond]);
    Wait(seated, 2);
    s, key := seated.(now := 2), Key(1, "P");
    WaitingNeedsOrganizer(s, key);
  }

  /** A deadline at the last instant: no settlement is ever due, cancelling is over, and only the organizer can help. */
  lemma DeadlineCanBeTheLastInstant() returns (s: State, key: Key)
    ensures Reachable(s) && OnlyWithOrganizer(s, key)
    ensures forall t: u64 :: SettleVerdict(s.(now := t), key) == Refuse(SettlementTooEarly)
  {
    var seated := OneSeat(Terms(1, 0, 1, U64_MAX), map["P" := 1]);
    SeatIsTaken(1, 0, 1, U64_MAX, map["P" := 1]);
    Wait(seated, 2);
    s, key := seated.(now := 2), Key(1, "P");
    WaitingNeedsOrganizer(s, key);
  }

  // ----- Settlements that share a receiver -----

  /** Two no-shows past their deadline, one token each, all of it owed to the pool. */
  ghost predicate TwoNoShows(s: State, room: nat) {
    && s.self == "C" && s.config.communityPool == "L" && 1 in s.events
    && s.events[1] == Opened(Terms(1, 0, 1, 1), 2) && s.now == 2
    && s.reservations == map[Key(1, "P") := Seat("P", 1), Key(1, "Q") := Seat("Q", 1)]
    && BalanceOf(s.balances, "L") == I128_MAX - room
    && (forall a: Address :: a != "L" ==> BalanceOf(s.balances, a) <= 2)
  }

  /** After "Q" has taken the other seat. */
  lemma SecondSeatIsTaken(one: State, two: State)
    requires Reachable(one) && one.self == "C" && one.now == 0
    requires one.events == map[1 := Opened(Terms(1, 0, 1, 1), 1)]
    requires one.reservations == map[Key(1, "P") := Seat("P", 1)]
    requires BalanceOf(one.balances, "Q") == 1 && BalanceOf(one.balances, "C") == 1
    requires two == one.(events := map[1 := Opened(Terms(1, 0, 1, 1), 2)],
                         reservations := map[Key(1, "P") := Seat("P", 1), Key(1, "Q") := Seat("Q", 1)],
                         balances := one.balances["Q" := 0]["C" := 2],
                         log := one.log + [BondLocked(1, "Q", 1)])
    ensures Reachable(two)
  {
    var c := Call({"Q"}, Action.Reserve(Key(1, "Q")));
    assert Key(1, "Q") !in one.reservations;
    assert two.reservations == one.reservations[Key(1, "Q") := Seat("Q", 1)];
    assert two.events == one.events[1 := Opened(Terms(1, 0, 1, 1), 2)];
    assert Next(one, c) == two;
    ReachableNext(one, c);
  }

  lemma FirstNoShow(room: nat) returns (one: State)
    requires room <= I128_MAX
    ensures Reachable(one) && one.self == "C" && one.config.communityPool == "L" && one.now == 0
    ensures one.events == map[1 := Opened(Terms(1, 0, 1, 1), 1)]
    ensures one.reservations == map[Key(1, "P") := Seat("P", 1)]
    ensures one.balances == map["P" := 0, "Q" := 1, "L" := I128_MAX - room, "C" := 1]
  {
    var balances: Balances := map["P" := 1, "Q" := 1, "L" := I128_MAX - room];
    SeatIsTaken(1, 0, 1, 1, balances);
    one := OneSeat(Terms(1, 0, 1, 1), balances);
  }

  lemma NoShowsHappen(room: nat) returns (s: State)
    requires room <= I128_MAX
    ensures Reachable(s) && TwoNoShows(s, room)
  {
    var one := FirstNoShow(room);
    var two := one.(events := map[1 := Opened(Terms(1, 0, 1, 1), 2)],
                    reservations := map[Key(1, "P") := Seat("P", 1), Key(1, "Q") := Seat("Q", 1)],
                    balances := one.balances["Q" := 0]["C" := 2],
                    log := one.log + [BondLocked(1, "Q", 1)]);
    SecondSeatIsTaken(one, two);
    Wait(two, 2);
    s := two.(now := 2);
  }

  function Settling(p: Address): Call {
    Call({}, SettleNoShow(Key(1, p)))
  }

  lemma SettlingPaysThePool(s: State, room: nat, p: Address)
    requires TwoNoShows(s, room) && (p == "P" || p == "Q")
    ensures SettleVerdict(s, Key(1, p)) == Pass
    ensures LegsOf(s, Settling(p)) == [Leg("O", 0), Leg("L", 1)]
  {}

  lemma ReceivedByPool(a: Address)
    ensures Received([Leg("O", 0), Leg("L", 1)], a) == if a == "L" then 1 else 0
  {
    var legs, last := [Leg("O", 0), Leg("L", 1)], [Leg("L", 1)];
    assert legs[1..] == last && last[1..] == [];
    assert Received(last, a) == if a == "L" then 1 else 0;
  }

  lemma NoRoom(s: State)
    requires TwoNoShows(s, 0)
    ensures !Fits(s.balances, s.self, [Leg("O", 0), Leg("L", 1)])
  {
    ReceivedByPool("L");
    assert BalanceOf(s.balances, "L") + Received([Leg("O", 0), Leg("L", 1)], "L") > I128_MAX;
  }

  /** A Locked bond whose settlement is due and aborted, whoever calls. */
  ghost predicate HeldUp(s: State, key: Key) {
    && SettleVerdict(s, key) == Pass
    && (forall signers :: Step(s, Call(signers, SettleNoShow(key))) == Aborted)
  }

  lemma HeldUpWithoutRoom(s: State, key: Key)
    requires Inv(s) && SettleVerdict(s, key) == Pass
    requires !Fits(s.balances, s.self, LegsOf(s, Call({}, SettleNoShow(key))))
    ensures HeldUp(s, key)
  {
    ReadyFinishes(s, Call({}, SettleNoShow(key)));
  }

  lemma TwoAreDue() returns (s: State)
    ensures Reachable(s) && Inv(s) && BalanceOf(s.balances, s.config.communityPool) == I128_MAX
    ensures SettleVerdict(s, Key(1, "P")) == Pass && SettleVerdict(s, Key(1, "Q")) == Pass
    ensures !Fits(s.balances, s.self, LegsOf(s, Settling("P")))
    ensures !Fits(s.balances, s.self, LegsOf(s, Settling("Q")))
  {
    s := NoShowsHappen(0);
    ReachableIsSound(s);
    NoRoom(s);
    SettlingPaysThePool(s, 0, "P");
    SettlingPaysThePool(s, 0, "Q");
  }

  /** A full pool holds up every participant's settlement, not only one's. */
  lemma FullPoolHoldsUpEverybody() returns (s: State, a: Key, b: Key)
    ensures Reachable(s) && BalanceOf(s.balances, s.config.communityPool) == I128_MAX
    ensures a.participant != b.participant && HeldUp(s, a) && HeldUp(s, b)
  {
    s := TwoAreDue();
    a, b := Key(1, "P"), Key(1, "Q");
    HeldUpWithoutRoom(s, a);
    HeldUpWithoutRoom(s, b);
  }

  lemma RoomForOne(s: State, legs: seq<Leg>)
    requires TwoNoShows(s, 1) && legs == [Leg("O", 0), Leg("L", 1)]
    ensures Fits(s.balances, s.self, legs) && !Fits(s.balances, s.self, legs + legs)
  {
    forall a: Address ensures Received(legs, a) == (if a == "L" then 1 else 0) {
      ReceivedByPool(a);
    }
    ReceivedConcat(legs, legs, "L");
    assert BalanceOf(s.balances, "L") + Received(legs + legs, "L") > I128_MAX;
  }

  /** With room for one of two settlements, the order decides which one goes through. */
  lemma OrderMattersWhenThePoolIsNearlyFull() returns (s: State, c: Call, d: Call)
    ensures Reachable(s) && Permissionless(c) && Permissionless(d)
    ensures VerdictOf(s, c) == Pass && VerdictOf(s, d) == Pass
    ensures Conflict(s, c, d) && !SameBooks(Next(Next(s, c), d), Next(Next(s, d), c))
  {
    s := NoShowsHappen(1);
    ReachableIsSound(s);
    c, d := Settling("P"), Settling("Q");
    SettlingPaysThePool(s, 1, "P");
    SettlingPaysThePool(s, 1, "Q");
    RoomForOne(s, LegsOf(s, c));
    CallsCommute(s, c, d);
  }
}
