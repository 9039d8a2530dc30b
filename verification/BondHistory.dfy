/**
 What the published log says about storage and money, in every reachable state.

 The entries about one reservation tell its whole life: nothing, or a lock, or a lock and the one release
 that its stored status names. Every account's balance is explained by those entries and by outside moves.
 */
module BondHistory {
  import opened BondInvariant
  import opened BondSpec
  import opened BondTypes
  import opened TokenBalances
  import opened Wrappers

  /** The reservation an entry is about; entries about an event itself have none. */
  function KeyOf(e: LogEntry): Option<Key> {
    if e.EventCreated? || e.EventCancelled? then None else Some(Key(e.eventId, e.participant))
  }

  /** The entries of a log about one reservation, in order. */
  function KeyHistory(log: seq<LogEntry>, key: Key): seq<LogEntry> {
    if log == [] then []
    else
      var last := log[|log| - 1];
      KeyHistory(log[..|log| - 1], key) + (if KeyOf(last) == Some(key) then [last] else [])
  }

  /** The entries of a log about one event itself, in order. */
  function EventHistory(log: seq<LogEntry>, id: u64): seq<LogEntry> {
    if log == [] then []
    else
      var last := log[|log| - 1];
      EventHistory(log[..|log| - 1], id) + (if KeyOf(last) == None && last.eventId == id then [last] else [])
  }

  /** The release a closed reservation owes its status to: who was paid, and how much. */
  function Releases(s: State, key: Key, r: Reservation): seq<LogEntry>
    requires key.eventId in s.events
  {
    match r.status
    case Locked => []
    case Attended => [CheckedIn(key.eventId, key.participant, r.amount)]
    case Cancelled => [ReservationCancelled(key.eventId, key.participant, r.amount)]
    case Refunded => [RefundClaimed(key.eventId, key.participant, r.amount)]
    case NoShowSettled =>
      var share := r.amount * s.events[key.eventId].organizerBps / TOTAL_BPS;
      if 0 <= share <= r.amount
      then [LogEntry.NoShowSettled(key.eventId, key.participant, share, r.amount - share)] else []
  }

  /** The life of a reservation, read off storage. */
  function KeyStory(s: State, key: Key): seq<LogEntry> {
    if key !in s.reservations || key.eventId !in s.events then []
    else
      var r := s.reservations[key];
      [BondLocked(key.eventId, key.participant, r.amount)] + Releases(s, key, r)
  }

  function EventStory(s: State, id: u64): seq<LogEntry> {
    if id !in s.events then []
    else
      var e := s.events[id];
      [EventCreated(id, e.organizer, e.bondAmount, e.capacity)]
      + (if e.status == EventStatus.Cancelled then [EventCancelled(id, e.organizer)] else [])
  }

  ghost predicate CreatedFirst(log: seq<LogEntry>) {
    forall i, j | 0 <= i < |log| && 0 <= j < |log| && log[i].EventCreated? && log[j].eventId == log[i].eventId ::
      i <= j
  }

  /** The log tells exactly the stories of storage, and an event's creation precedes all else about it. */
  ghost predicate Chronicled(s: State) {
    && (forall key: Key :: KeyHistory(s.log, key) == KeyStory(s, key))
    && (forall id: u64 :: EventHistory(s.log, id) == EventStory(s, id))
    && CreatedFirst(s.log)
    && (forall i :: 0 <= i < |s.log| ==> s.log[i].eventId in s.events)
  }

  // ----- One call -----

  /** One entry is appended, and it continues the stories of storage. */
  ghost predicate Told(s: State, s': State, entry: LogEntry) {
    && s'.log == s.log + [entry]
    && (forall key: Key :: KeyStory(s', key) == KeyStory(s, key) + (if KeyOf(entry) == Some(key) then [entry] else []))
    && (forall id: u64 :: EventStory(s', id) ==
          EventStory(s, id) + (if KeyOf(entry) == None && entry.eventId == id then [entry] else []))
    && entry.eventId in s'.events
    && s.events.Keys <= s'.events.Keys
    && (entry.EventCreated? ==> entry.eventId !in s.events)
  }

  lemma HistoriesGrow(log: seq<LogEntry>, entry: LogEntry)
    ensures forall key: Key ::
      KeyHistory(log + [entry], key) == KeyHistory(log, key) + (if KeyOf(entry) == Some(key) then [entry] else [])
    ensures forall id: u64 ::
      EventHistory(log + [entry], id) ==
      EventHistory(log, id) + (if KeyOf(entry) == None && entry.eventId == id then [entry] else [])
  {
    assert (log + [entry])[..|log|] == log;
  }

  /** A creation comes before everything about its event when nothing about it was there. */
  lemma CreatedFirstGrows(log: seq<LogEntry>, entry: LogEntry)
    requires CreatedFirst(log)
    requires entry.EventCreated? ==> forall i :: 0 <= i < |log| ==> log[i].eventId != entry.eventId
    ensures CreatedFirst(log + [entry])
  {
    var grown := log + [entry];
    forall i, j | 0 <= i < |grown| && 0 <= j < |grown| && grown[i].EventCreated? && grown[j].eventId == grown[i].eventId
      ensures i <= j
    {
      assert i < |log| ==> grown[i] == log[i];
      assert j < |log| ==> grown[j] == log[j];
    }
  }

  lemma ToldKeepsChronicle(s: State, s': State, entry: LogEntry)
    requires Chronicled(s) && Told(s, s', entry)
    ensures Chronicled(s')
  {
    HistoriesGrow(s.log, entry);
    CreatedFirstGrows(s.log, entry);
    assert forall i :: 0 <= i < |s'.log| ==> s'.log[i] == if i < |s.log| then s.log[i] else entry;
  }

  /** Nothing is published and no story changes. */
  ghost predicate Untold(s: State, s': State) {
    s'.log == s.log && s'.events == s.events && s'.reservations == s.reservations
  }

  lemma UntoldKeepsChronicle(s: State, s': State)
    requires Chronicled(s) && Untold(s, s')
    ensures Chronicled(s')
  {
    forall key: Key ensures KeyStory(s', key) == KeyStory(s, key) {}
    forall id: u64 ensures EventStory(s', id) == EventStory(s, id) {}
  }

  /** A story only reads its own reservation and the split of its event. */
  lemma SameStory(s: State, s': State, key: Key)
    requires key in s.reservations ==> key.eventId in s.events
    requires key in s.reservations <==> key in s'.reservations
    requires key in s.reservations ==> s'.reservations[key] == s.reservations[key]
    requires key.eventId in s.events ==>
      key.eventId in s'.events && s'.events[key.eventId].organizerBps == s.events[key.eventId].organizerBps
    ensures KeyStory(s', key) == KeyStory(s, key)
  {}

  lemma CreateTells(s: State, signers: set<Address>, p: Policy, s': State)
    requires DenseIds(s) && SoundRecords(s) && Create(s, signers, p) == Done(s')
    ensures Told(s, s', EventCreated(s'.eventCount, p.organizer, p.bondAmount, p.capacity))
  {
    forall key: Key ensures KeyStory(s', key) == KeyStory(s, key) {
      assert key in s.reservations ==> SoundReservation(s, key, s.reservations[key]);
      SameStory(s, s', key);
    }
    assert s.eventCount + 1 !in s.events;
  }

  lemma ReserveTells(s: State, signers: set<Address>, key: Key, s': State)
    requires ReserveSeat(s, signers, key) == Done(s')
    ensures Told(s, s', BondLocked(key.eventId, key.participant, s.events[key.eventId].bondAmount))
  {
    forall k: Key ensures k != key ==> KeyStory(s', k) == KeyStory(s, k) {}
    assert KeyStory(s', key) == [BondLocked(key.eventId, key.participant, s.events[key.eventId].bondAmount)];
  }

  /** An event's story does not read its seat count. */
  lemma EventStoriesStay(s: State, s': State, seats: u64)
    requires seats in s.events && seats in s'.events
    requires s'.events == s.events[seats := s.events[seats].(reservedCount := s'.events[seats].reservedCount)]
    ensures forall id: u64 :: EventStory(s', id) == EventStory(s, id)
  {}

  lemma OtherStoriesStay(s: State, s': State, key: Key)
    requires SoundRecords(s) && key in s'.reservations && key.eventId in s.events && key.eventId in s'.events
    requires s'.reservations == s.reservations[key := s'.reservations[key]]
    requires s'.events ==
      s.events[key.eventId := s.events[key.eventId].(reservedCount := s'.events[key.eventId].reservedCount)]
    ensures forall k: Key :: k != key ==> KeyStory(s', k) == KeyStory(s, k)
  {
    forall k: Key | k != key ensures KeyStory(s', k) == KeyStory(s, k) {
      assert k in s.reservations ==> SoundReservation(s, k, s.reservations[k]);
      SameStory(s, s', k);
    }
  }

  /** Closing a Locked reservation tells the release its new status names. */
  lemma ReleaseTells(s: State, s': State, key: Key, status: ReservationStatus,
                     events: map<u64, Event>, legs: seq<Leg>, entry: LogEntry)
    requires SoundRecords(s) && LockedVerdict(s, key) == Pass
    requires Release(s, key, status, events, legs, entry) == Done(s')
    requires key.eventId in events
    requires events ==
      s.events[key.eventId := s.events[key.eventId].(reservedCount := events[key.eventId].reservedCount)]
    requires Releases(s, key, s.reservations[key].(status := status)) == [entry]
    ensures Told(s, s', entry)
  {
    assert SoundReservation(s, key, s.reservations[key]);
    assert KeyStory(s', key) == KeyStory(s, key) + [entry];
    OtherStoriesStay(s, s', key);
    EventStoriesStay(s, s', key.eventId);
  }

  lemma CallOffTells(s: State, signers: set<Address>, id: u64, s': State)
    requires CallOff(s, signers, id) == Done(s')
    ensures Told(s, s', EventCancelled(id, s.events[id].organizer))
  {
    forall key: Key ensures KeyStory(s', key) == KeyStory(s, key) {}
  }

  lemma SettleTells(s: State, key: Key, s': State)
    requires SoundRecords(s) && Settle(s, key) == Done(s')
    ensures Told(s, s', s'.log[|s'.log| - 1])
  {
    var e, r := s.events[key.eventId], s.reservations[key];
    ShareBounds(r.amount, e.organizerBps);
    var share := OrganizerShare(r.amount, e.organizerBps);
    ReleaseTells(s, s', key, ReservationStatus.NoShowSettled, s.events,
                 [Leg(e.organizer, share), Leg(s.config.communityPool, r.amount - share)],
                 LogEntry.NoShowSettled(key.eventId, r.participant, share, r.amount - share));
  }

  lemma RefundTells(s: State, s': State, key: Key, status: ReservationStatus, events: map<u64, Event>, entry: LogEntry)
    requires SoundRecords(s) && LockedVerdict(s, key) == Pass
    requires Release(s, key, status, events, [Leg(key.participant, s.reservations[key].amount)], entry) == Done(s')
    requires key.eventId in events
    requires events ==
      s.events[key.eventId := s.events[key.eventId].(reservedCount := events[key.eventId].reservedCount)]
    requires Releases(s, key, s.reservations[key].(status := status)) == [entry]
    ensures Told(s, s', entry)
  {
    ReleaseTells(s, s', key, status, events, [Leg(key.participant, s.reservations[key].amount)], entry);
  }

  /** A finished entry point tells one entry; anything else tells nothing. */
  lemma CallTells(s: State, c: Call)
    requires DenseIds(s) && SoundRecords(s)
    ensures var s' := Next(s, c);
      Untold(s, s') || (s'.log != [] && Told(s, s', s'.log[|s'.log| - 1]))
  {
    if Step(s, c).Done? {
      var s' := Next(s, c);
      match c.action
      case CreateEvent(p) => CreateTells(s, c.signers, p, s');
      case Reserve(key) => ReserveTells(s, c.signers, key, s');
      case CancelEvent(id) => CallOffTells(s, c.signers, id, s');
      case SettleNoShow(key) => SettleTells(s, key, s');
      case CancelReservation(key) =>
        RefundTells(s, s', key, ReservationStatus.Cancelled, s'.events,
                    ReservationCancelled(key.eventId, key.participant, s.reservations[key].amount));
      case CheckIn(key) =>
        assert SoundReservation(s, key, s.reservations[key]);
        RefundTells(s, s', key, Attended, s.events,
                    CheckedIn(key.eventId, key.participant, s.reservations[key].amount));
      case ClaimRefund(key) =>
        assert SoundReservation(s, key, s.reservations[key]);
        RefundTells(s, s', key, Refunded, s.events,
                    RefundClaimed(key.eventId, key.participant, s.reservations[key].amount));
      case _ =>
    }
  }

  lemma CallKeepsChronicle(s: State, c: Call)
    requires Inv(s) && Chronicled(s)
    ensures Chronicled(Next(s, c))
  {
    var s' := Next(s, c);
    CallTells(s, c);
    if Untold(s, s') {
      UntoldKeepsChronicle(s, s');
    } else {
      ToldKeepsChronicle(s, s', s'.log[|s'.log| - 1]);
    }
  }

  // ----- Whole runs -----

  lemma {:induction false} RunKeepsChronicle(s: State, calls: seq<Call>)
    requires Inv(s) && Chronicled(s)
    ensures Inv(Exec(s, calls)) && Chronicled(Exec(s, calls))
    decreases |calls|
  {
    if calls != [] {
      CallKeepsInv(s, calls[0]);
      CallKeepsChronicle(s, calls[0]);
      RunKeepsChronicle(Next(s, calls[0]), calls[1..]);
    }
  }

  /** What the releases in a history pay out. */
  function Paid(history: seq<LogEntry>): int {
    if history == [] then 0
    else
      Paid(history[..|history| - 1]) +
      match history[|history| - 1]
      case ReservationCancelled(_, _, amount) => amount
      case CheckedIn(_, _, amount) => amount
      case RefundClaimed(_, _, amount) => amount
      case NoShowSettled(_, _, organizerAmount, communityAmount) => organizerAmount + communityAmount
      case _ => 0
  }

  lemma StoryPays(s: State, key: Key)
    requires key in s.reservations && key.eventId in s.events
    requires SoundEvent(s, s.events[key.eventId]) && SoundReservation(s, key, s.reservations[key])
    ensures var r := s.reservations[key];
      && Paid(KeyStory(s, key)) == (if r.status == Locked then 0 else r.amount)
      && |KeyStory(s, key)| == (if r.status == Locked then 1 else 2)
  {
    var r, story := s.reservations[key], KeyStory(s, key);
    ShareBounds(r.amount, s.events[key.eventId].organizerBps);
    assert story[..1][..0] == [];
    assert Paid(story[..1]) == 0;
    if r.status == Locked {
      assert story == story[..1];
    } else {
      assert |story| == 2 && story[..|story| - 1] == story[..1];
    }
  }

  /**
   Exactly-once settlement: over every run the published history of a reservation is empty, a single lock,
   or a lock and one release. The release is the one its status names and it pays out the locked amount.
   */
  lemma ExactlyOnce(s: State, calls: seq<Call>, key: Key)
    requires Initial(s)
    ensures var s' := Exec(s, calls);
      && KeyHistory(s'.log, key) == KeyStory(s', key)
      && (key in s'.reservations <==> KeyHistory(s'.log, key) != [])
      && (key in s'.reservations ==>
            var r := s'.reservations[key];
            && Paid(KeyHistory(s'.log, key)) == (if r.status == Locked then 0 else r.amount)
            && |KeyHistory(s'.log, key)| == (if r.status == Locked then 1 else 2))
  {
    InitialInv(s);
    RunKeepsChronicle(s, calls);
    var s' := Exec(s, calls);
    if key in s'.reservations {
      assert SoundReservation(s', key, s'.reservations[key]);
      assert SoundEvent(s', s'.events[key.eventId]);
      StoryPays(s', key);
    }
  }

  // ----- Balances explained by the log -----

  /** What an entry moved into or out of an account. */
  function EntryFlow(s: State, e: LogEntry, a: Address): int {
    match e
    case BondLocked(_, participant, amount) =>
      (if a == s.self then amount else 0) - (if a == participant then amount else 0)
    case ReservationCancelled(_, participant, amount) => LegFlow(s.self, Leg(participant, amount), a)
    case CheckedIn(_, participant, amount) => LegFlow(s.self, Leg(participant, amount), a)
    case RefundClaimed(_, participant, amount) => LegFlow(s.self, Leg(participant, amount), a)
    case NoShowSettled(id, _, organizerAmount, communityAmount) =>
      (if id in s.events then LegFlow(s.self, Leg(s.events[id].organizer, organizerAmount), a) else 0)
      + LegFlow(s.self, Leg(s.config.communityPool, communityAmount), a)
    case _ => 0
  }

  function LogFlow(s: State, log: seq<LogEntry>, a: Address): int {
    if log == [] then 0 else LogFlow(s, log[..|log| - 1], a) + EntryFlow(s, log[|log| - 1], a)
  }

  /** What a call made around the contract moved into or out of an account. */
  function OutsideFlow(s: State, c: Call, a: Address): int {
    if !Step(s, c).Done? then 0
    else
      match c.action
      case OutsideTransfer(source, target, amount) => LegFlow(source, Leg(target, amount), a)
      case OutsideMint(target, amount) => if a == target then amount else 0
      case OutsideBurn(source, amount) => if a == source then -amount else 0
      case _ => 0
  }

  function OutsideFlows(s: State, calls: seq<Call>, a: Address): int
    decreases |calls|
  {
    if calls == [] then 0 else OutsideFlow(s, calls[0], a) + OutsideFlows(Next(s, calls[0]), calls[1..], a)
  }

  /** The organizer an entry pays never changes, so the log's flow does not depend on when it is read. */
  lemma {:induction false} LogFlowIsStable(s: State, s': State, log: seq<LogEntry>, a: Address)
    requires Evolves(s, s')
    requires forall i :: 0 <= i < |log| ==> log[i].eventId in s.events
    ensures LogFlow(s', log, a) == LogFlow(s, log, a)
  {
    if log != [] {
      var id := log[|log| - 1].eventId;
      assert EventEvolves(s.events[id], s'.events[id]);
      LogFlowIsStable(s, s', log[..|log| - 1], a);
    }
  }

  /** A release's legs move what its entry says. */
  lemma RefundFlows(s: State, s': State, key: Key, status: ReservationStatus,
                    events: map<u64, Event>, leg: Leg, entry: LogEntry, a: Address)
    requires key in s.reservations && Release(s, key, status, events, [leg], entry) == Done(s')
    ensures BalanceOf(s'.balances, a) == BalanceOf(s.balances, a) + LegFlow(s.self, leg, a)
  {
    PaidOutMoves(s.balances, s.self, [leg]);
    assert LegsFlow(s.self, [leg], a) == LegFlow(s.self, leg, a) + LegsFlow(s.self, [leg][1..], a);
  }

  lemma SettleFlows(s: State, key: Key, s': State, a: Address)
    requires Settle(s, key) == Done(s')
    ensures BalanceOf(s'.balances, a) == BalanceOf(s.balances, a) + EntryFlow(s', s'.log[|s'.log| - 1], a)
  {
    var e, r := s.events[key.eventId], s.reservations[key];
    var share := OrganizerShare(r.amount, e.organizerBps);
    var legs := [Leg(e.organizer, share), Leg(s.config.communityPool, r.amount - share)];
    PaidOutMoves(s.balances, s.self, legs);
    assert legs[1..] == [legs[1]];
    assert LegsFlow(s.self, [legs[1]], a) == LegFlow(s.self, legs[1], a) + LegsFlow(s.self, [legs[1]][1..], a);
  }

  /** What the entries a call published moved. */
  ghost predicate Explained(s: State, s': State, outside: int, a: Address) {
    BalanceOf(s'.balances, a) == BalanceOf(s.balances, a) + outside
      + (if s'.log == s.log then 0 else if s'.log == [] then 0 else EntryFlow(s', s'.log[|s'.log| - 1], a))
  }

  lemma ReserveFlows(s: State, signers: set<Address>, key: Key, s': State, a: Address)
    requires ReserveSeat(s, signers, key) == Done(s')
    ensures Explained(s, s', 0, a)
  {
    TransferMoves(s.balances, key.participant, s.self, s.events[key.eventId].bondAmount);
  }

  lemma CancelSeatFlows(s: State, signers: set<Address>, key: Key, s': State, a: Address)
    requires CancelSeat(s, signers, key) == Done(s')
    ensures Explained(s, s', 0, a)
  {
    var amount := s.reservations[key].amount;
    RefundFlows(s, s', key, ReservationStatus.Cancelled, s'.events, Leg(key.participant, amount),
                ReservationCancelled(key.eventId, key.participant, amount), a);
  }

  lemma AttendFlows(s: State, signers: set<Address>, key: Key, s': State, a: Address)
    requires Attend(s, signers, key) == Done(s')
    ensures Explained(s, s', 0, a)
  {
    var r := s.reservations[key];
    RefundFlows(s, s', key, Attended, s.events, Leg(r.participant, r.amount),
                CheckedIn(key.eventId, r.participant, r.amount), a);
  }

  lemma ClaimFlows(s: State, key: Key, s': State, a: Address)
    requires Claim(s, key) == Done(s')
    ensures Explained(s, s', 0, a)
  {
    var r := s.reservations[key];
    RefundFlows(s, s', key, Refunded, s.events, Leg(r.participant, r.amount),
                RefundClaimed(key.eventId, r.participant, r.amount), a);
  }

  lemma OutsideFlowIsExact(s: State, c: Call, a: Address)
    requires c.action.OutsideTransfer? || c.action.OutsideMint? || c.action.OutsideBurn? || c.action.Tick?
    ensures Explained(s, Next(s, c), OutsideFlow(s, c, a), a)
  {
    if Step(s, c).Done? && c.action.OutsideTransfer? {
      TransferMoves(s.balances, c.action.source, c.action.target, c.action.amount);
    }
  }

  lemma CallFlows(s: State, c: Call, a: Address)
    ensures Explained(s, Next(s, c), OutsideFlow(s, c, a), a)
  {
    if Step(s, c).Done? {
      var s' := Next(s, c);
      match c.action
      case Reserve(key) => ReserveFlows(s, c.signers, key, s', a);
      case CancelReservation(key) => CancelSeatFlows(s, c.signers, key, s', a);
      case CheckIn(key) => AttendFlows(s, c.signers, key, s', a);
      case ClaimRefund(key) => ClaimFlows(s, key, s', a);
      case SettleNoShow(key) => SettleFlows(s, key, s', a);
      case CreateEvent(_) =>
      case CancelEvent(_) =>
      case _ => OutsideFlowIsExact(s, c, a);
    }
  }

  lemma CallExtendsFlow(s: State, c: Call, a: Address)
    requires Inv(s) && Chronicled(s)
    ensures var s' := Next(s, c);
      BalanceOf(s'.balances, a) - LogFlow(s', s'.log, a) ==
      BalanceOf(s.balances, a) - LogFlow(s, s.log, a) + OutsideFlow(s, c, a)
  {
    var s' := Next(s, c);
    CallFlows(s, c, a);
    CallTells(s, c);
    CallEvolves(s, c);
    LogFlowIsStable(s, s', s.log, a);
    if !Untold(s, s') {
      assert s'.log[..|s'.log| - 1] == s.log;
    }
  }

  lemma {:induction false} RunExtendsFlow(s: State, calls: seq<Call>, a: Address)
    requires Inv(s) && Chronicled(s)
    ensures var s' := Exec(s, calls);
      BalanceOf(s'.balances, a) - LogFlow(s', s'.log, a) ==
      BalanceOf(s.balances, a) - LogFlow(s, s.log, a) + OutsideFlows(s, calls, a)
    decreases |calls|
  {
    if calls != [] {
      CallExtendsFlow(s, calls[0], a);
      CallKeepsInv(s, calls[0]);
      CallKeepsChronicle(s, calls[0]);
      RunExtendsFlow(Next(s, calls[0]), calls[1..], a);
    }
  }

  /**
   Every account, at every moment: its balance is what it started with, what moved outside the contract,
   and what the published entries paid it or took from it. With ExactlyOnce this fixes who is paid what.
   */
  lemma LogExplainsEveryBalance(s: State, calls: seq<Call>, a: Address)
    requires Initial(s)
    ensures var s' := Exec(s, calls);
      BalanceOf(s'.balances, a) == BalanceOf(s.balances, a) + OutsideFlows(s, calls, a) + LogFlow(s', s'.log, a)
  {
    InitialInv(s);
    RunExtendsFlow(s, calls, a);
  }

  // ----- Lifecycles -----

  lemma EvolvesTransitive(a: State, b: State, c: State)
    requires Evolves(a, b) && Evolves(b, c)
    ensures Evolves(a, c)
  {
    forall id: u64 | id in a.events ensures id in c.events && EventEvolves(a.events[id], c.events[id]) {
      assert EventEvolves(a.events[id], b.events[id]);
    }
    forall key: Key | key in a.reservations
      ensures key in c.reservations && ReservationEvolves(a.reservations[key], c.reservations[key])
    {
      assert ReservationEvolves(a.reservations[key], b.reservations[key]);
    }
  }

  /**
   Lifecycles over every run: an event keeps its terms and a cancelled one stays cancelled; a reservation keeps
   its amount and owner for ever, and once it has left Locked it is never written again.
   */
  lemma {:induction false} RunEvolves(s: State, calls: seq<Call>)
    requires Inv(s)
    ensures Evolves(s, Exec(s, calls))
    decreases |calls|
  {
    if calls != [] {
      CallEvolves(s, calls[0]);
      CallKeepsInv(s, calls[0]);
      RunEvolves(Next(s, calls[0]), calls[1..]);
      EvolvesTransitive(s, Next(s, calls[0]), Exec(s, calls));
    }
  }
}
