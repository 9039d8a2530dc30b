/**
 The organizer's participant list, rebuilt from the retained part of the published log.

 The provider's log is read page by page, every entry is decoded again, and each participant found in it is
 looked up in storage. The list says of itself whether it is complete; this module proves when that is true.
 */
module EventIndex {
  import opened BondExamples
  import opened BondHistory
  import opened BondInvariant
  import opened BondSpec
  import opened BondTypes
  import opened Views
  import opened Wrappers

  const EVENT_PAGE_SIZE: nat := 100

  // ----- Decoding one event -----

  datatype Field =
    | BigIntField(bigint: int)
    | NumberField(number: int)
    | NotFiniteField
    | StringField(text: string)
    | OtherField

  datatype ParsedEvent = ParsedEvent(name: string, data: map<string, Field>)

  /** One entry as the provider returns it; an entry the contract's spec does not know parses to nothing. */
  datatype RawEvent = RawEvent(inSuccessfulContractCall: bool, parsed: Option<ParsedEvent>)

  datatype Kind = BondLockedKind | ReservationCancelledKind | CheckedInKind | RefundClaimedKind

  datatype ShowUpEvent =
    | EventCreatedView(eventId: int, organizer: Address, bondAmount: int, capacity: int)
    | BondView(kind: Kind, eventId: int, participant: Address, amount: int)
    | EventCancelledView(eventId: int, organizer: Address)
    | NoShowSettledView(eventId: int, participant: Address, organizerAmount: int, communityAmount: int)

  function RequireBigInt(data: map<string, Field>, field: string): Result<int, string> {
    if field in data && data[field].BigIntField? then Ok(data[field].bigint)
    else Err("Contract event field " + field + " is not a bigint.")
  }

  function RequireNumber(data: map<string, Field>, field: string): Result<int, string> {
    if field in data && data[field].NumberField? then Ok(data[field].number)
    else Err("Contract event field " + field + " is not a finite number.")
  }

  function RequireString(data: map<string, Field>, field: string): Result<Address, string> {
    if field in data && data[field].StringField? && data[field].text != "" then Ok(data[field].text)
    else Err("Contract event field " + field + " is not a non-empty string.")
  }

  function MapBond(kind: Kind, data: map<string, Field>): Result<Option<ShowUpEvent>, string> {
    var id :- RequireBigInt(data, "event_id");
    var participant :- RequireString(data, "participant");
    var amount :- RequireBigInt(data, "amount");
    Ok(Some(BondView(kind, id, participant, amount)))
  }

  /** A known name with a missing field is an error; an unknown name is skipped. */
  function MapEvent(p: ParsedEvent): Result<Option<ShowUpEvent>, string> {
    if p.name == "EventCreated" then
      var id :- RequireBigInt(p.data, "event_id");
      var organizer :- RequireString(p.data, "organizer");
      var bondAmount :- RequireBigInt(p.data, "bond_amount");
      var capacity :- RequireNumber(p.data, "capacity");
      Ok(Some(EventCreatedView(id, organizer, bondAmount, capacity)))
    else if p.name == "BondLocked" then MapBond(BondLockedKind, p.data)
    else if p.name == "ReservationCancelled" then MapBond(ReservationCancelledKind, p.data)
    else if p.name == "CheckedIn" then MapBond(CheckedInKind, p.data)
    else if p.name == "EventCancelled" then
      var id :- RequireBigInt(p.data, "event_id");
      var organizer :- RequireString(p.data, "organizer");
      Ok(Some(EventCancelledView(id, organizer)))
    else if p.name == "RefundClaimed" then MapBond(RefundClaimedKind, p.data)
    else if p.name == "NoShowSettled" then
      var id :- RequireBigInt(p.data, "event_id");
      var participant :- RequireString(p.data, "participant");
      var organizerAmount :- RequireBigInt(p.data, "organizer_amount");
      var communityAmount :- RequireBigInt(p.data, "community_amount");
      Ok(Some(NoShowSettledView(id, participant, organizerAmount, communityAmount)))
    else Ok(None)
  }

  function PublishedBond(name: string, id: u64, participant: Address, amount: i128): ParsedEvent {
    ParsedEvent(name, map["event_id" := BigIntField(id), "participant" := StringField(participant),
                          "amount" := BigIntField(amount)])
  }

  /** An entry as the contract publishes it, under its declared name and field names. */
  function Published(e: LogEntry): ParsedEvent {
    match e
    case EventCreated(id, organizer, bondAmount, capacity) =>
      ParsedEvent("EventCreated", map["event_id" := BigIntField(id), "organizer" := StringField(organizer),
                                      "bond_amount" := BigIntField(bondAmount), "capacity" := NumberField(capacity)])
    case BondLocked(id, participant, amount) => PublishedBond("BondLocked", id, participant, amount)
    case ReservationCancelled(id, participant, amount) => PublishedBond("ReservationCancelled", id, participant, amount)
    case CheckedIn(id, participant, amount) => PublishedBond("CheckedIn", id, participant, amount)
    case EventCancelled(id, organizer) =>
      ParsedEvent("EventCancelled", map["event_id" := BigIntField(id), "organizer" := StringField(organizer)])
    case RefundClaimed(id, participant, amount) => PublishedBond("RefundClaimed", id, participant, amount)
    case NoShowSettled(id, participant, organizerAmount, communityAmount) =>
      ParsedEvent("NoShowSettled", map["event_id" := BigIntField(id), "participant" := StringField(participant),
                                       "organizer_amount" := BigIntField(organizerAmount),
                                       "community_amount" := BigIntField(communityAmount)])
  }

  /** The application's shape of an entry. */
  function ViewOf(e: LogEntry): ShowUpEvent {
    match e
    case EventCreated(id, organizer, bondAmount, capacity) => EventCreatedView(id, organizer, bondAmount, capacity)
    case BondLocked(id, participant, amount) => BondView(BondLockedKind, id, participant, amount)
    case ReservationCancelled(id, participant, amount) => BondView(ReservationCancelledKind, id, participant, amount)
    case CheckedIn(id, participant, amount) => BondView(CheckedInKind, id, participant, amount)
    case EventCancelled(id, organizer) => EventCancelledView(id, organizer)
    case RefundClaimed(id, participant, amount) => BondView(RefundClaimedKind, id, participant, amount)
    case NoShowSettled(id, participant, organizerAmount, communityAmount) =>
      NoShowSettledView(id, participant, organizerAmount, communityAmount)
  }

  /** Every entry the contract publishes is read back as itself. */
  lemma DecodesWhatIsPublished(e: LogEntry)
    ensures MapEvent(Published(e)) == Ok(Some(ViewOf(e)))
  {}

  // ----- Decoding a log -----

  /** The entry a raw event contributes to the log of one event, if any. */
  function Kept(raw: RawEvent, id: u64): Result<Option<ShowUpEvent>, string> {
    if !raw.inSuccessfulContractCall || raw.parsed.None? then Ok(None)
    else
      var mapped :- MapEvent(raw.parsed.value);
      Ok(if mapped.Some? && mapped.value.eventId == id then mapped else None)
  }

  function Decode(raw: seq<RawEvent>, id: u64): Result<seq<ShowUpEvent>, string> {
    if raw == [] then Ok([])
    else
      var before :- Decode(raw[..|raw| - 1], id);
      var last :- Kept(raw[|raw| - 1], id);
      Ok(if last.Some? then before + [last.value] else before)
  }

  // ----- The provider -----

  /**
   A fixed log served in pages. A page that starts at position i holds cut[i] entries and hands out the cursor of
   the position behind them; a page may stop short of its limit before the log ends.
   */
  datatype Server = Server(raw: seq<RawEvent>, tokens: seq<string>, cut: seq<nat>)

  datatype Page = Page(events: seq<RawEvent>, cursor: string)

  ghost predicate WellFormed(server: Server) {
    && |server.tokens| == |server.cut| == |server.raw| + 1
    && (forall i :: 0 <= i <= |server.raw| ==> server.tokens[i] != "")
    && (forall i, j :: 0 <= i < j <= |server.raw| ==> server.tokens[i] != server.tokens[j])
    && (forall i :: 0 <= i <= |server.raw| ==>
          server.cut[i] <= EVENT_PAGE_SIZE && i + server.cut[i] <= |server.raw|)
  }

  /** The paging loop gets to a position when all pages before it are full. */
  ghost predicate Visited(server: Server, i: nat)
    requires WellFormed(server)
  {
    && i <= |server.raw| && i % EVENT_PAGE_SIZE == 0
    && (forall j :: 0 <= j < i && j % EVENT_PAGE_SIZE == 0 ==> server.cut[j] == EVENT_PAGE_SIZE)
  }

  /** Of the pages the loop gets to, a short one means the log has ended. */
  ghost predicate ShortOnlyAtTheEnd(server: Server)
    requires WellFormed(server)
  {
    forall i: nat :: Visited(server, i) && server.cut[i] < EVENT_PAGE_SIZE ==> i + server.cut[i] == |server.raw|
  }

  /** The position a cursor stands for; a missing or empty cursor starts at the oldest entry. */
  method GetEvents(server: Server, cursor: Option<string>, ghost pos: nat) returns (page: Page)
    requires WellFormed(server) && pos <= |server.raw|
    requires if cursor.Some? then cursor.value == server.tokens[pos] else pos == 0
    ensures page == Page(server.raw[pos..pos + server.cut[pos]], server.tokens[pos + server.cut[pos]])
  {
    var i := 0;
    if cursor.Some? && cursor.value != "" {
      while i < |server.raw| && server.tokens[i] != cursor.value
        invariant 0 <= i <= pos
      {
        i := i + 1;
      }
    }
    page := Page(server.raw[i..i + server.cut[i]], server.tokens[i + server.cut[i]]);
  }

  /** Where the paging loop stops: behind the first page that is not full. */
  ghost function StopAt(server: Server, pos: nat): (stop: nat)
    requires WellFormed(server) && pos <= |server.raw|
    ensures pos <= stop <= |server.raw|
    decreases |server.raw| - pos
  {
    if server.cut[pos] < EVENT_PAGE_SIZE then pos + server.cut[pos] else StopAt(server, pos + EVENT_PAGE_SIZE)
  }

  datatype Snapshot = Snapshot(entries: seq<ShowUpEvent>, historyComplete: bool)

  predicate HasCreation(entries: seq<ShowUpEvent>) {
    exists i :: 0 <= i < |entries| && entries[i].EventCreatedView?
  }

  function SnapshotOf(decoded: Result<seq<ShowUpEvent>, string>): Result<Snapshot, string> {
    var entries :- decoded;
    Ok(Snapshot(entries, HasCreation(entries)))
  }

  lemma {:induction false} DecodeStopsAtError(raw: seq<RawEvent>, n: nat, id: u64)
    requires n <= |raw| && Decode(raw[..n], id).Err?
    ensures Decode(raw, id) == Decode(raw[..n], id)
    decreases |raw|
  {
    if n == |raw| {
      assert raw[..n] == raw;
    } else {
      assert raw[..|raw| - 1][..n] == raw[..n];
      DecodeStopsAtError(raw[..|raw| - 1], n, id);
    }
  }

  /** The decoding loop: the first malformed entry is the error, unsuccessful and unknown ones are skipped. */
  method DecodeAll(rawEvents: seq<RawEvent>, id: u64) returns (r: Result<seq<ShowUpEvent>, string>)
    ensures r == Decode(rawEvents, id)
  {
    var entries: seq<ShowUpEvent> := [];
    for i := 0 to |rawEvents|
      invariant Decode(rawEvents[..i], id) == Ok(entries)
    {
      assert rawEvents[..i + 1][..i] == rawEvents[..i];
      var rawEvent := rawEvents[i];
      if rawEvent.inSuccessfulContractCall && rawEvent.parsed.Some? {
        var mapped := MapEvent(rawEvent.parsed.value);
        if mapped.Err? {
          DecodeStopsAtError(rawEvents, i + 1, id);
          return Err(mapped.error);
        }
        if mapped.value.Some? && mapped.value.value.eventId == id {
          entries := entries + [mapped.value.value];
        }
      }
    }
    assert rawEvents[..|rawEvents|] == rawEvents;
    return Ok(entries);
  }

  /**
   The paging loop ends, never sees a cursor twice, and reads each entry before its stop once and in order.
   */
  method ReadEventLog(server: Server, id: u64) returns (r: Result<Snapshot, string>)
    requires WellFormed(server)
    ensures r == SnapshotOf(Decode(server.raw[..StopAt(server, 0)], id))
  {
    var rawEvents: seq<RawEvent> := [];
    var cursor: Option<string> := None;
    ghost var pos: nat := 0;
    while true
      invariant pos <= |server.raw| && rawEvents == server.raw[..pos]
      invariant if cursor.Some? then cursor.value == server.tokens[pos] else pos == 0
      invariant StopAt(server, pos) == StopAt(server, 0)
      decreases |server.raw| - pos
    {
      var response := GetEvents(server, cursor, pos);
      rawEvents := rawEvents + response.events;
      if |response.events| < EVENT_PAGE_SIZE {
        assert rawEvents == server.raw[..StopAt(server, 0)];
        break;
      }
      if cursor == Some(response.cursor) {
        return Err("Stellar RPC returned the same event cursor twice.");
      }
      cursor := Some(response.cursor);
      pos := pos + EVENT_PAGE_SIZE;
    }

    var decoded := DecodeAll(rawEvents, id);
    if decoded.Err? {
      return Err(decoded.error);
    }
    return Ok(Snapshot(decoded.value, HasCreation(decoded.value)));
  }

  /** The loop stops behind the only short page it gets to. */
  lemma {:induction false} StopsBehindAShortPage(server: Server, pos: nat) returns (last: nat)
    requires WellFormed(server) && Visited(server, pos)
    ensures Visited(server, last) && server.cut[last] < 100
    ensures StopAt(server, pos) == last + server.cut[last]
    decreases |server.raw| - pos
  {
    if server.cut[pos] < EVENT_PAGE_SIZE {
      last := pos;
    } else {
      assert forall j :: pos < j < pos + EVENT_PAGE_SIZE ==> j % EVENT_PAGE_SIZE != 0;
      last := StopsBehindAShortPage(server, pos + EVENT_PAGE_SIZE);
    }
  }

  /** Every retained entry is read exactly when no page on the way is short, also at a multiple of the page size. */
  lemma ReadsEverything(server: Server)
    requires WellFormed(server)
    ensures StopAt(server, 0) == |server.raw| <==> ShortOnlyAtTheEnd(server)
  {
    var last := StopsBehindAShortPage(server, 0);
    assert forall i: nat :: Visited(server, i) && server.cut[i] < EVENT_PAGE_SIZE ==> i == last;
  }

  // ----- The participant list -----

  datatype ReadOutcome = Fulfilled(value: Option<ReservationView>) | Rejected

  /** A read of storage: rejected while the entry is archived, empty when there is none. */
  function ReadCurrentReservation(s: State, archived: set<Key>, key: Key): ReadOutcome {
    if key in archived then Rejected
    else if key in s.reservations then Fulfilled(Some(ToReservationView(s.reservations[key])))
    else Fulfilled(None)
  }

  datatype ReservationList = ReservationList(reservations: seq<ReservationView>, historyComplete: bool, unreadable: nat)

  /** The participants of the lock entries, each once, in the order in which they first appear. */
  function Participants(entries: seq<ShowUpEvent>): seq<Address> {
    if entries == [] then []
    else
      var before, last := Participants(entries[..|entries| - 1]), entries[|entries| - 1];
      if last.BondView? && last.kind == BondLockedKind && last.participant !in before
      then before + [last.participant] else before
  }

  /** What can be read back of them. */
  function Readable(s: State, archived: set<Key>, id: u64, participants: seq<Address>): seq<ReservationView> {
    if participants == [] then []
    else
      var before := Readable(s, archived, id, participants[..|participants| - 1]);
      match ReadCurrentReservation(s, archived, Key(id, participants[|participants| - 1]))
      case Fulfilled(Some(view)) => before + [view]
      case _ => before
  }

  lemma ReadableFits(s: State, archived: set<Key>, id: u64, participants: seq<Address>)
    ensures |Readable(s, archived, id, participants)| <= |participants|
  {}

  function ListOf(s: State, archived: set<Key>, id: u64, log: Snapshot): ReservationList {
    var participants := Participants(log.entries);
    var reservations := Readable(s, archived, id, participants);
    ReadableFits(s, archived, id, participants);
    var unreadable := |participants| - |reservations|;
    ReservationList(reservations, log.historyComplete && unreadable == 0, unreadable)
  }

  /** What a whole read returns: the log up to the loop's stop, decoded, and its participants looked up. */
  ghost function ReadList(server: Server, s: State, archived: set<Key>, id: u64): Result<ReservationList, string>
    requires WellFormed(server)
  {
    var log := SnapshotOf(Decode(server.raw[..StopAt(server, 0)], id));
    if log.Err? then Err(log.error) else Ok(ListOf(s, archived, id, log.value))
  }

  /** The reading loop: one unreadable participant is counted and does not cost the others. */
  method ReadAll(s: State, archived: set<Key>, id: u64, participants: seq<Address>)
    returns (reservations: seq<ReservationView>, unreadable: nat)
    ensures reservations == Readable(s, archived, id, participants)
    ensures unreadable == |participants| - |reservations|
  {
    reservations, unreadable := [], 0;
    for i := 0 to |participants|
      invariant reservations == Readable(s, archived, id, participants[..i])
      invariant unreadable == i - |reservations|
    {
      assert participants[..i + 1][..i] == participants[..i];
      var outcome := ReadCurrentReservation(s, archived, Key(id, participants[i]));
      if outcome.Fulfilled? && outcome.value.Some? {
        reservations := reservations + [outcome.value.value];
      } else {
        unreadable := unreadable + 1;
      }
    }
    assert participants[..|participants|] == participants;
  }

  method ListEventReservations(server: Server, s: State, archived: set<Key>, id: u64)
    returns (r: Result<ReservationList, string>)
    requires WellFormed(server)
    ensures r == ReadList(server, s, archived, id)
  {
    var read := ReadEventLog(server, id);
    if read.Err? {
      return Err(read.error);
    }
    var log := read.value;
    var participants: seq<Address> := [];
    for i := 0 to |log.entries|
      invariant participants == Participants(log.entries[..i])
    {
      assert log.entries[..i + 1][..i] == log.entries[..i];
      var entry := log.entries[i];
      if entry.BondView? && entry.kind == BondLockedKind && entry.participant !in participants {
        participants := participants + [entry.participant];
      }
    }
    assert log.entries[..|log.entries|] == log.entries;

    var reservations, unreadable := ReadAll(s, archived, id, participants);
    return Ok(ReservationList(reservations, log.historyComplete && unreadable == 0, unreadable));
  }

  // ----- The claim of completeness -----

  /** The entries of a log that name one event. */
  function OfEvent(log: seq<LogEntry>, id: u64): seq<LogEntry> {
    if log == [] then []
    else
      OfEvent(log[..|log| - 1], id) + (if log[|log| - 1].eventId == id then [log[|log| - 1]] else [])
  }

  /** Raw events the reader passes over: failed calls, unknown events, and other events' entries. */
  predicate Noise(raw: RawEvent, id: u64) {
    Kept(raw, id) == Ok(None)
  }

  /** The provider's log holds exactly these entries of the event, in order, with any noise in between. */
  ghost predicate Carries(raw: seq<RawEvent>, entries: seq<LogEntry>, id: u64) {
    if raw == [] then entries == []
    else if Noise(raw[|raw| - 1], id) then Carries(raw[..|raw| - 1], entries, id)
    else
      && entries != []
      && entries[|entries| - 1].eventId == id
      && raw[|raw| - 1] == RawEvent(true, Some(Published(entries[|entries| - 1])))
      && Carries(raw[..|raw| - 1], entries[..|entries| - 1], id)
  }

  function ViewsOf(entries: seq<LogEntry>): (views: seq<ShowUpEvent>)
    ensures |views| == |entries|
    ensures forall i :: 0 <= i < |entries| ==> views[i] == ViewOf(entries[i])
  {
    if entries == [] then [] else ViewsOf(entries[..|entries| - 1]) + [ViewOf(entries[|entries| - 1])]
  }

  lemma {:induction false} DecodesCarried(raw: seq<RawEvent>, entries: seq<LogEntry>, id: u64)
    requires Carries(raw, entries, id)
    ensures Decode(raw, id) == Ok(ViewsOf(entries))
    decreases |raw|
  {
    if raw != [] {
      if Noise(raw[|raw| - 1], id) {
        DecodesCarried(raw[..|raw| - 1], entries, id);
      } else {
        DecodesWhatIsPublished(entries[|entries| - 1]);
        DecodesCarried(raw[..|raw| - 1], entries[..|entries| - 1], id);
      }
    }
  }

  lemma {:induction false} InOfEvent(log: seq<LogEntry>, id: u64, e: LogEntry)
    ensures e in OfEvent(log, id) <==> e in log && e.eventId == id
  {
    if log != [] {
      assert log == log[..|log| - 1] + [log[|log| - 1]];
      InOfEvent(log[..|log| - 1], id, e);
    }
  }

  lemma {:induction false} InKeyHistory(log: seq<LogEntry>, key: Key, e: LogEntry)
    ensures e in KeyHistory(log, key) <==> e in log && KeyOf(e) == Some(key)
  {
    if log != [] {
      assert log == log[..|log| - 1] + [log[|log| - 1]];
      InKeyHistory(log[..|log| - 1], key, e);
    }
  }

  predicate Locks(e: LogEntry, p: Address) {
    e.BondLocked? && e.participant == p
  }

  /** A lock entry of the participant is among the first entries. */
  predicate LockedBy(entries: seq<LogEntry>, n: nat, p: Address)
    requires n <= |entries|
  {
    exists i :: 0 <= i < n && Locks(entries[i], p)
  }

  lemma LastLocker(entries: seq<LogEntry>, p: Address)
    requires entries != []
    ensures var front := entries[..|entries| - 1];
      LockedBy(entries, |entries|, p) <==> LockedBy(front, |front|, p) || Locks(entries[|entries| - 1], p)
  {
    var front := entries[..|entries| - 1];
    assert forall i :: 0 <= i < |front| ==> front[i] == entries[i];
  }

  lemma {:induction false} ParticipantsAreTheLockers(entries: seq<LogEntry>, p: Address)
    ensures p in Participants(ViewsOf(entries)) <==> LockedBy(entries, |entries|, p)
  {
    if entries != [] {
      assert ViewsOf(entries)[..|entries| - 1] == ViewsOf(entries[..|entries| - 1]);
      LastLocker(entries, p);
      ParticipantsAreTheLockers(entries[..|entries| - 1], p);
    }
  }

  predicate Distinct(ps: seq<Address>) {
    forall i, j :: 0 <= i < j < |ps| ==> ps[i] != ps[j]
  }

  lemma {:induction false} ParticipantsAreDistinct(entries: seq<ShowUpEvent>)
    ensures Distinct(Participants(entries))
  {
    if entries != [] {
      ParticipantsAreDistinct(entries[..|entries| - 1]);
    }
  }

  /** A stored reservation of the event is announced by a lock entry, and only such. */
  lemma LockedInLog(s: State, id: u64, p: Address)
    requires Inv(s) && Chronicled(s)
    ensures Key(id, p) in s.reservations <==>
      exists i :: 0 <= i < |s.log| && s.log[i].eventId == id && Locks(s.log[i], p)
  {
    var key := Key(id, p);
    if key in s.reservations {
      assert SoundReservation(s, key, s.reservations[key]);
      var e := BondLocked(id, p, s.reservations[key].amount);
      assert KeyStory(s, key)[0] == e;
      InKeyHistory(s.log, key, e);
    }
    if i :| 0 <= i < |s.log| && s.log[i].eventId == id && Locks(s.log[i], p) {
      InKeyHistory(s.log, key, s.log[i]);
      assert KeyHistory(s.log, key) == KeyStory(s, key);
    }
  }

  /** Once an event's creation is retained, so is everything about it. */
  lemma RetainedCreationRetainsAll(s: State, k: nat, id: u64, i: nat)
    requires Chronicled(s) && k <= |s.log| && i < |s.log| && s.log[i].eventId == id
    requires exists j :: k <= j < |s.log| && s.log[j].EventCreated? && s.log[j].eventId == id
    ensures s.log[i] in OfEvent(s.log[k..], id)
  {
    var j :| k <= j < |s.log| && s.log[j].EventCreated? && s.log[j].eventId == id;
    assert j <= i;
    assert s.log[i] == s.log[k..][i - k];
    InOfEvent(s.log[k..], id, s.log[i]);
  }

  ghost predicate CreationRetained(s: State, k: nat, id: u64)
    requires k <= |s.log|
  {
    exists j :: k <= j < |s.log| && s.log[j].EventCreated? && s.log[j].eventId == id
  }

  /** The snapshot says "complete" exactly when the creation is retained. */
  lemma SnapshotSeesCreation(s: State, k: nat, id: u64)
    requires k <= |s.log|
    ensures HasCreation(ViewsOf(OfEvent(s.log[k..], id))) <==> CreationRetained(s, k, id)
  {
    var entries := OfEvent(s.log[k..], id);
    if HasCreation(ViewsOf(entries)) {
      var i :| 0 <= i < |entries| && ViewsOf(entries)[i].EventCreatedView?;
      InOfEvent(s.log[k..], id, entries[i]);
      var j :| 0 <= j < |s.log[k..]| && s.log[k..][j] == entries[i];
      assert s.log[k + j] == entries[i];
    }
    if CreationRetained(s, k, id) {
      var j :| k <= j < |s.log| && s.log[j].EventCreated? && s.log[j].eventId == id;
      assert s.log[k..][j - k] == s.log[j];
      InOfEvent(s.log[k..], id, s.log[j]);
      var i :| 0 <= i < |entries| && entries[i] == s.log[j];
      assert ViewsOf(entries)[i].EventCreatedView?;
    }
  }

  lemma ListedIsInLog(s: State, k: nat, id: u64, i: nat)
    requires k <= |s.log| && i < |OfEvent(s.log[k..], id)|
    ensures OfEvent(s.log[k..], id)[i] in s.log && OfEvent(s.log[k..], id)[i].eventId == id
  {
    var e := OfEvent(s.log[k..], id)[i];
    InOfEvent(s.log[k..], id, e);
    assert s.log == s.log[..k] + s.log[k..];
  }

  /** The participants found are stored ones. */
  lemma ParticipantsAreStored(s: State, k: nat, id: u64, p: Address)
    requires Inv(s) && Chronicled(s) && k <= |s.log|
    requires p in Participants(ViewsOf(OfEvent(s.log[k..], id)))
    ensures Key(id, p) in s.reservations
  {
    var entries := OfEvent(s.log[k..], id);
    ParticipantsAreTheLockers(entries, p);
    var i :| 0 <= i < |entries| && Locks(entries[i], p);
    ListedIsInLog(s, k, id, i);
    LockedInLog(s, id, p);
  }

  /** All of them are found when the creation is retained. */
  lemma StoredAreParticipants(s: State, k: nat, id: u64, p: Address)
    requires Inv(s) && Chronicled(s) && k <= |s.log| && CreationRetained(s, k, id)
    requires Key(id, p) in s.reservations
    ensures p in Participants(ViewsOf(OfEvent(s.log[k..], id)))
  {
    LockedInLog(s, id, p);
    var i :| 0 <= i < |s.log| && s.log[i].eventId == id && Locks(s.log[i], p);
    RetainedCreationRetainsAll(s, k, id, i);
    ParticipantsAreTheLockers(OfEvent(s.log[k..], id), p);
  }

  /** A view of a stored reservation of the event. */
  predicate IsStored(s: State, id: u64, view: ReservationView) {
    var key := Key(id, view.participant);
    key in s.reservations && view == ToReservationView(s.reservations[key])
  }

  /** Every participant has a stored reservation of the event. */
  predicate AllStored(s: State, id: u64, ps: seq<Address>) {
    forall p :: p in ps ==> Key(id, p) in s.reservations
  }

  lemma FrontIsStored(s: State, id: u64, ps: seq<Address>)
    requires ps != [] && AllStored(s, id, ps)
    ensures AllStored(s, id, ps[..|ps| - 1]) && Key(id, ps[|ps| - 1]) in s.reservations
  {
    assert ps == ps[..|ps| - 1] + [ps[|ps| - 1]];
  }

  /** Reading back stored participants loses exactly the archived ones. */
  lemma {:induction false} OnlyArchivedAreLost(s: State, archived: set<Key>, id: u64, ps: seq<Address>)
    requires AllStored(s, id, ps)
    ensures |Readable(s, archived, id, ps)| == |ps| <==> forall p :: p in ps ==> Key(id, p) !in archived
    decreases |ps|
  {
    if ps != [] {
      FrontIsStored(s, id, ps);
      OnlyArchivedAreLost(s, archived, id, ps[..|ps| - 1]);
      ReadableFits(s, archived, id, ps[..|ps| - 1]);
      assert ps == ps[..|ps| - 1] + [ps[|ps| - 1]];
    }
  }

  /** When none is lost, the views are theirs, in order. */
  lemma {:induction false} ViewsAreTheirs(s: State, archived: set<Key>, id: u64, ps: seq<Address>)
    requires AllStored(s, id, ps) && |Readable(s, archived, id, ps)| == |ps|
    ensures forall i :: 0 <= i < |ps| ==>
      Readable(s, archived, id, ps)[i] == ToReservationView(s.reservations[Key(id, ps[i])])
    decreases |ps|
  {
    if ps != [] {
      FrontIsStored(s, id, ps);
      ReadableFits(s, archived, id, ps[..|ps| - 1]);
      ViewsAreTheirs(s, archived, id, ps[..|ps| - 1]);
    }
  }

  /** Whatever is lost, what is read is stored. */
  lemma {:induction false} ReadableIsStored(s: State, archived: set<Key>, id: u64, ps: seq<Address>)
    requires SoundRecords(s) && AllStored(s, id, ps)
    ensures forall i :: 0 <= i < |Readable(s, archived, id, ps)| ==> IsStored(s, id, Readable(s, archived, id, ps)[i])
    decreases |ps|
  {
    if ps != [] {
      FrontIsStored(s, id, ps);
      ReadableIsStored(s, archived, id, ps[..|ps| - 1]);
      var key := Key(id, ps[|ps| - 1]);
      assert SoundReservation(s, key, s.reservations[key]);
    }
  }

  /**
   The list names every reservation of the event that was stored when the log was read, exactly once, and shows each as
   it is stored when it is looked up, which may be later.
   */
  ghost predicate ListsExactly(s: State, t: State, id: u64, views: seq<ReservationView>) {
    && (forall i :: 0 <= i < |views| ==> IsStored(t, id, views[i]))
    && (forall i, j :: 0 <= i < j < |views| ==> views[i].participant != views[j].participant)
    && (forall p: Address ::
          Key(id, p) in s.reservations <==> exists i :: 0 <= i < |views| && views[i].participant == p)
  }

  /** Nothing the list needs is archived. */
  ghost predicate NoneArchived(s: State, archived: set<Key>, id: u64) {
    forall p: Address :: Key(id, p) in s.reservations ==> Key(id, p) !in archived
  }

  /** The seats a list counts as taken. */
  function TakenSeats(views: seq<ReservationView>): set<Key> {
    set i | 0 <= i < |views| && views[i].status != ReservationStatus.Cancelled ::
      Key(views[i].eventId, views[i].participant)
  }

  /** The listed seats are those of the reservations that were there when the log was read. */
  lemma ListedSeats(s: State, t: State, id: u64, views: seq<ReservationView>)
    requires SoundRecords(t) && ListsExactly(s, t, id, views)
    ensures TakenSeats(views) == Seats(t, id) * s.reservations.Keys
  {
    forall key: Key ensures key in TakenSeats(views) <==> key in Seats(t, id) && key in s.reservations {
      if key in Seats(t, id) && key in s.reservations {
        assert SoundReservation(t, key, t.reservations[key]);
        assert Key(id, key.participant) in s.reservations;
      }
      if key in TakenSeats(views) {
        var i :| 0 <= i < |views| && views[i].status != ReservationStatus.Cancelled
          && Key(views[i].eventId, views[i].participant) == key;
        assert SoundReservation(t, Key(id, views[i].participant), t.reservations[Key(id, views[i].participant)]);
      }
    }
  }

  lemma SetSplits<T>(a: set<T>, b: set<T>)
    ensures |a| == |a * b| + |a - b|
  {
    assert a == a * b + (a - b);
  }

  /** So the contract's count exceeds the list's by exactly the seats taken in between. */
  lemma ListedSeatsAreCounted(s: State, t: State, id: u64, views: seq<ReservationView>)
    requires Inv(t) && id in t.events && ListsExactly(s, t, id, views)
    ensures t.events[id].reservedCount == |TakenSeats(views)| + |Seats(t, id) - s.reservations.Keys|
  {
    ListedSeats(s, t, id, views);
    SetSplits(Seats(t, id), s.reservations.Keys);
    assert |Seats(t, id)| == t.events[id].reservedCount;
  }

  /** The list an organizer gets for a retained suffix of the log at s and lookups at t. */
  function ListFor(s: State, t: State, archived: set<Key>, k: nat, id: u64): ReservationList
    requires k <= |s.log|
  {
    var entries := ViewsOf(OfEvent(s.log[k..], id));
    ListOf(t, archived, id, Snapshot(entries, HasCreation(entries)))
  }

  /** Storage as it is later still has every reservation. */
  lemma StillStored(s: State, t: State, id: u64, ps: seq<Address>)
    requires Evolves(s, t) && AllStored(s, id, ps)
    ensures AllStored(t, id, ps)
  {}

  lemma ParticipantsFound(s: State, k: nat, id: u64)
    requires Inv(s) && Chronicled(s) && k <= |s.log|
    ensures var ps := Participants(ViewsOf(OfEvent(s.log[k..], id)));
      && Distinct(ps)
      && (forall p: Address :: p in ps ==> Key(id, p) in s.reservations)
      && (CreationRetained(s, k, id) ==> id in s.events)
      && (CreationRetained(s, k, id) ==> forall p: Address :: p in ps <==> Key(id, p) in s.reservations)
  {
    ParticipantsAreDistinct(ViewsOf(OfEvent(s.log[k..], id)));
    forall p: Address | p in Participants(ViewsOf(OfEvent(s.log[k..], id))) ensures Key(id, p) in s.reservations {
      ParticipantsAreStored(s, k, id, p);
    }
    if CreationRetained(s, k, id) {
      forall p: Address | Key(id, p) in s.reservations
        ensures p in Participants(ViewsOf(OfEvent(s.log[k..], id)))
      {
        StoredAreParticipants(s, k, id, p);
      }
    }
  }

  /** When none is lost, the i-th view is the i-th participant's. */
  lemma ViewsName(s: State, archived: set<Key>, id: u64, ps: seq<Address>)
    requires SoundRecords(s) && AllStored(s, id, ps) && |Readable(s, archived, id, ps)| == |ps|
    ensures forall i :: 0 <= i < |ps| ==> Readable(s, archived, id, ps)[i].participant == ps[i]
  {
    ViewsAreTheirs(s, archived, id, ps);
    forall i | 0 <= i < |ps| ensures Readable(s, archived, id, ps)[i].participant == ps[i] {
      assert SoundReservation(s, Key(id, ps[i]), s.reservations[Key(id, ps[i])]);
    }
  }

  lemma CompleteListIsExact(s: State, t: State, archived: set<Key>, id: u64, ps: seq<Address>,
                            views: seq<ReservationView>)
    requires SoundRecords(t) && Distinct(ps) && AllStored(t, id, ps)
    requires forall p: Address :: p in ps <==> Key(id, p) in s.reservations
    requires views == Readable(t, archived, id, ps) && |views| == |ps|
    ensures ListsExactly(s, t, id, views)
  {
    ReadableIsStored(t, archived, id, ps);
    ViewsName(t, archived, id, ps);
    forall p: Address ensures p in ps <==> exists i :: 0 <= i < |views| && views[i].participant == p {
      if p in ps {
        var i :| 0 <= i < |ps| && ps[i] == p;
        assert views[i].participant == p;
      }
    }
  }

  /**
   Index completeness, for any retained suffix of the log, any archived entries, and lookups at the same time or later:
   the list calls itself complete exactly when the creation is retained and nothing it needs is archived, and then it
   is exactly the reservations the log was read for, each once and as it is when looked up. The contract then counts as
   many more seats as were taken in between. Without that claim it still lists nothing that is not stored.
   */
  lemma CompletenessIsHonest(s: State, t: State, archived: set<Key>, k: nat, id: u64)
    requires Inv(s) && Chronicled(s) && Inv(t) && Evolves(s, t) && k <= |s.log|
    ensures var list := ListFor(s, t, archived, k, id);
      && (list.historyComplete ==>
            id in t.events && ListsExactly(s, t, id, list.reservations)
            && t.events[id].reservedCount ==
               |TakenSeats(list.reservations)| + |Seats(t, id) - s.reservations.Keys|)
      && (list.historyComplete <==> CreationRetained(s, k, id) && NoneArchived(s, archived, id))
      && (forall i :: 0 <= i < |list.reservations| ==> IsStored(t, id, list.reservations[i]))
  {
    var ps := Participants(ViewsOf(OfEvent(s.log[k..], id)));
    ParticipantsFound(s, k, id);
    StillStored(s, t, id, ps);
    OnlyArchivedAreLost(t, archived, id, ps);
    ReadableIsStored(t, archived, id, ps);
    SnapshotSeesCreation(s, k, id);
    var list := ListFor(s, t, archived, k, id);
    if list.historyComplete {
      CompleteListIsExact(s, t, archived, id, ps, list.reservations);
      ListedSeatsAreCounted(s, t, id, list.reservations);
    }
  }

  /** With lookups at the moment of the log nothing is taken in between. */
  lemma NothingInBetween(s: State, id: u64)
    requires SoundRecords(s)
    ensures Evolves(s, s) && |Seats(s, id) - s.reservations.Keys| == 0
  {
    assert Seats(s, id) - s.reservations.Keys == {};
  }

  /** The method, the provider and the contract together: what a whole read returns. */
  lemma ReadListsTheContract(server: Server, s: State, t: State, archived: set<Key>, k: nat, id: u64)
    requires WellFormed(server) && ShortOnlyAtTheEnd(server)
    requires Inv(s) && Chronicled(s) && k <= |s.log|
    requires Carries(server.raw, OfEvent(s.log[k..], id), id)
    ensures ReadList(server, t, archived, id) == Ok(ListFor(s, t, archived, k, id))
  {
    ReadsEverything(server);
    assert server.raw[..|server.raw|] == server.raw;
    DecodesCarried(server.raw, OfEvent(s.log[k..], id), id);
  }

  // ----- When pages end early -----

  /** A raw event the reader would take for a lock of the event. */
  predicate IsLock(raw: RawEvent, id: u64) {
    var kept := Kept(raw, id);
    kept.Ok? && kept.value.Some? && kept.value.value.BondView? && kept.value.value.kind == BondLockedKind
  }

  predicate HasLock(raw: seq<RawEvent>, id: u64) {
    exists i :: 0 <= i < |raw| && IsLock(raw[i], id)
  }

  predicate LocksFrom(entries: seq<LogEntry>, m: nat) {
    exists i :: m <= i < |entries| && entries[i].BondLocked?
  }

  lemma LastLock(raw: seq<RawEvent>, n: nat, id: u64)
    requires n < |raw|
    ensures HasLock(raw[n..], id) <==> HasLock(raw[..|raw| - 1][n..], id) || IsLock(raw[|raw| - 1], id)
  {
    var front, last := raw[..|raw| - 1][n..], raw[|raw| - 1];
    assert raw[n..] == front + [last];
    if HasLock(front, id) {
      var i :| 0 <= i < |front| && IsLock(front[i], id);
      assert raw[n..][i] == front[i];
    }
    assert raw[n..][|front|] == last;
  }

  lemma LastLockEntry(entries: seq<LogEntry>, m: nat)
    requires m < |entries|
    ensures LocksFrom(entries, m) <==> LocksFrom(entries[..|entries| - 1], m) || entries[|entries| - 1].BondLocked?
  {
    var before := entries[..|entries| - 1];
    assert forall i :: 0 <= i < |before| ==> before[i] == entries[i];
  }

  lemma CarriedLast(raw: seq<RawEvent>, entries: seq<LogEntry>, id: u64)
    requires Carries(raw, entries, id) && raw != [] && !Noise(raw[|raw| - 1], id)
    ensures entries != [] && Carries(raw[..|raw| - 1], entries[..|entries| - 1], id)
    ensures IsLock(raw[|raw| - 1], id) <==> entries[|entries| - 1].BondLocked?
  {
    DecodesWhatIsPublished(entries[|entries| - 1]);
  }

  /** What a log carries splits with it. */
  lemma {:induction false} CarriesSplits(raw: seq<RawEvent>, entries: seq<LogEntry>, id: u64, n: nat) returns (m: nat)
    requires Carries(raw, entries, id) && n <= |raw|
    ensures m <= |entries| && Carries(raw[..n], entries[..m], id)
    ensures HasLock(raw[n..], id) <==> LocksFrom(entries, m)
    decreases |raw|
  {
    if n == |raw| {
      assert raw[..n] == raw && entries[..|entries|] == entries;
      return |entries|;
    }
    var front := raw[..|raw| - 1];
    assert front[..n] == raw[..n];
    LastLock(raw, n, id);
    if Noise(raw[|raw| - 1], id) {
      m := CarriesSplits(front, entries, id, n);
    } else {
      var before := entries[..|entries| - 1];
      CarriedLast(raw, entries, id);
      m := CarriesSplits(front, before, id, n);
      assert before[..m] == entries[..m];
      LastLockEntry(entries, m);
    }
  }

  lemma {:induction false} KeyHistoryConcat(xs: seq<LogEntry>, ys: seq<LogEntry>, key: Key)
    ensures KeyHistory(xs + ys, key) == KeyHistory(xs, key) + KeyHistory(ys, key)
    decreases |ys|
  {
    if ys == [] {
      assert xs + ys == xs;
    } else {
      assert (xs + ys)[..|xs + ys| - 1] == xs + ys[..|ys| - 1];
      KeyHistoryConcat(xs, ys[..|ys| - 1], key);
    }
  }

  lemma {:induction false} KeyHistoryOfEvent(log: seq<LogEntry>, key: Key)
    ensures KeyHistory(OfEvent(log, key.eventId), key) == KeyHistory(log, key)
  {
    if log != [] {
      var front, last := log[..|log| - 1], log[|log| - 1];
      KeyHistoryOfEvent(front, key);
      if last.eventId == key.eventId {
        KeyHistoryConcat(OfEvent(front, key.eventId), [last], key);
        assert [last][..0] == [];
        assert KeyHistory([last], key) == KeyHistory([], key) + if KeyOf(last) == Some(key) then [last] else [];
        assert OfEvent(log, key.eventId) == OfEvent(front, key.eventId) + [last];
      } else {
        assert OfEvent(log, key.eventId) == OfEvent(front, key.eventId) + [] == OfEvent(front, key.eventId);
        assert KeyHistory(log, key) == KeyHistory(front, key) + [] == KeyHistory(front, key);
      }
    }
  }

  /** A retained history is the end of the reservation's story. */
  lemma RetainedHistory(s: State, k: nat, key: Key)
    requires Chronicled(s) && k <= |s.log|
    ensures KeyStory(s, key) == KeyHistory(s.log[..k], key) + KeyHistory(OfEvent(s.log[k..], key.eventId), key)
  {
    assert s.log == s.log[..k] + s.log[k..];
    KeyHistoryConcat(s.log[..k], s.log[k..], key);
    KeyHistoryOfEvent(s.log[k..], key);
  }

  /** A story has its lock at the beginning and no other. */
  lemma LockIsFirst(s: State, key: Key, earlier: seq<LogEntry>, before: seq<LogEntry>, after: seq<LogEntry>,
                    e: LogEntry)
    requires KeyStory(s, key) == earlier + (before + after) && e in after && e.BondLocked?
    ensures before == []
  {
    var n :| 0 <= n < |after| && after[n] == e;
    assert KeyStory(s, key)[|earlier| + |before| + n] == e;
  }

  /** Two entries about a reservation take its history apart. */
  lemma HistoryApart(entries: seq<LogEntry>, key: Key, i: nat, j: nat)
    requires i < j < |entries| && KeyOf(entries[i]) == KeyOf(entries[j]) == Some(key)
    ensures KeyHistory(entries, key) == KeyHistory(entries[..j], key) + KeyHistory(entries[j..], key)
    ensures KeyHistory(entries[..j], key) != [] && entries[j] in KeyHistory(entries[j..], key)
  {
    assert entries == entries[..j] + entries[j..];
    KeyHistoryConcat(entries[..j], entries[j..], key);
    assert entries[..j][i] == entries[i] && entries[j..][0] == entries[j];
    InKeyHistory(entries[..j], key, entries[i]);
    InKeyHistory(entries[j..], key, entries[j]);
  }

  lemma NoSecondLock(s: State, k: nat, key: Key, i: nat, j: nat)
    requires Chronicled(s) && k <= |s.log|
    requires var entries := OfEvent(s.log[k..], key.eventId);
      i < j < |entries| && KeyOf(entries[i]) == KeyOf(entries[j]) == Some(key)
    ensures !OfEvent(s.log[k..], key.eventId)[j].BondLocked?
  {
    var entries, earlier := OfEvent(s.log[k..], key.eventId), KeyHistory(s.log[..k], key);
    var before, after := KeyHistory(entries[..j], key), KeyHistory(entries[j..], key);
    HistoryApart(entries, key, i, j);
    RetainedHistory(s, k, key);
    if entries[j].BondLocked? {
      LockIsFirst(s, key, earlier, before, after, entries[j]);
    }
  }

  /** So a participant is locked only once in what is retained. */
  lemma LockedOnce(s: State, k: nat, id: u64, i: nat, j: nat)
    requires Chronicled(s) && k <= |s.log|
    requires var entries := OfEvent(s.log[k..], id);
      i < |entries| && j < |entries| && entries[i].BondLocked? && entries[j].BondLocked?
      && entries[i].participant == entries[j].participant
    ensures i >= j
  {
    var entries := OfEvent(s.log[k..], id);
    ListedIsInLog(s, k, id, i);
    ListedIsInLog(s, k, id, j);
    if i < j {
      NoSecondLock(s, k, Key(id, entries[i].participant), i, j);
    }
  }

  lemma PrefixLockers(entries: seq<LogEntry>, m: nat, p: Address)
    requires m <= |entries|
    ensures p in Participants(ViewsOf(entries[..m])) <==> LockedBy(entries, m, p)
  {
    ParticipantsAreTheLockers(entries[..m], p);
    assert forall i :: 0 <= i < m ==> entries[..m][i] == entries[i];
  }

  /** What a read with early pages finds: stored participants of a prefix, each once. */
  lemma PrefixIsStored(s: State, k: nat, id: u64, m: nat)
    requires Inv(s) && Chronicled(s) && k <= |s.log| && m <= |OfEvent(s.log[k..], id)|
    ensures var ps := Participants(ViewsOf(OfEvent(s.log[k..], id)[..m]));
      Distinct(ps) && AllStored(s, id, ps)
  {
    var entries := OfEvent(s.log[k..], id);
    var ps := Participants(ViewsOf(entries[..m]));
    ParticipantsAreDistinct(ViewsOf(entries[..m]));
    forall p | p in ps ensures Key(id, p) in s.reservations {
      PrefixLockers(entries, m, p);
      ParticipantsAreTheLockers(entries, p);
      ParticipantsAreStored(s, k, id, p);
    }
  }

  /** A lock behind the prefix hides its participant. */
  lemma CutOffIsHidden(s: State, k: nat, id: u64, m: nat)
    requires Inv(s) && Chronicled(s) && k <= |s.log| && m <= |OfEvent(s.log[k..], id)|
    requires LocksFrom(OfEvent(s.log[k..], id), m)
    ensures exists p: Address ::
      p !in Participants(ViewsOf(OfEvent(s.log[k..], id)[..m])) && Key(id, p) in s.reservations
  {
    var entries := OfEvent(s.log[k..], id);
    var j :| m <= j < |entries| && entries[j].BondLocked?;
    var p := entries[j].participant;
    ParticipantsAreTheLockers(entries, p);
    ParticipantsAreStored(s, k, id, p);
    PrefixLockers(entries, m, p);
    if p in Participants(ViewsOf(entries[..m])) {
      var i :| 0 <= i < m && Locks(entries[i], p);
      LockedOnce(s, k, id, i, j);
    }
  }

  lemma PrefixSeesCreation(s: State, k: nat, id: u64, m: nat)
    requires k <= |s.log| && m <= |OfEvent(s.log[k..], id)|
    requires HasCreation(ViewsOf(OfEvent(s.log[k..], id)[..m]))
    ensures CreationRetained(s, k, id)
  {
    var entries := OfEvent(s.log[k..], id);
    var i :| 0 <= i < m && ViewsOf(entries[..m])[i].EventCreatedView?;
    assert ViewsOf(entries)[i] == ViewOf(entries[i]) == ViewsOf(entries[..m])[i];
    SnapshotSeesCreation(s, k, id);
  }

  /** When the creation was read, all stored participants were exactly when no lock is behind the prefix. */
  lemma PrefixParticipants(s: State, k: nat, id: u64, m: nat)
    requires Inv(s) && Chronicled(s) && k <= |s.log| && m <= |OfEvent(s.log[k..], id)|
    requires HasCreation(ViewsOf(OfEvent(s.log[k..], id)[..m]))
    ensures var entries := OfEvent(s.log[k..], id);
      (forall p: Address :: p in Participants(ViewsOf(entries[..m])) <==> Key(id, p) in s.reservations)
      <==> !LocksFrom(entries, m)
  {
    var entries := OfEvent(s.log[k..], id);
    var ps := Participants(ViewsOf(entries[..m]));
    if LocksFrom(entries, m) {
      CutOffIsHidden(s, k, id, m);
    } else {
      PrefixIsStored(s, k, id, m);
      PrefixSeesCreation(s, k, id, m);
      forall p: Address | Key(id, p) in s.reservations ensures p in ps {
        StoredAreParticipants(s, k, id, p);
        ParticipantsAreTheLockers(entries, p);
        PrefixLockers(entries, m, p);
      }
    }
  }

  /** A complete list names all reservations exactly when all their participants were found. */
  lemma ExactWhenAllFound(s: State, t: State, archived: set<Key>, id: u64, ps: seq<Address>)
    requires SoundRecords(t) && Distinct(ps) && AllStored(t, id, ps) && |Readable(t, archived, id, ps)| == |ps|
    ensures ListsExactly(s, t, id, Readable(t, archived, id, ps)) <==>
            forall p: Address :: p in ps <==> Key(id, p) in s.reservations
  {
    var views := Readable(t, archived, id, ps);
    if forall p: Address :: p in ps <==> Key(id, p) in s.reservations {
      CompleteListIsExact(s, t, archived, id, ps, views);
    }
    ViewsName(t, archived, id, ps);
    if ListsExactly(s, t, id, views) {
      forall p: Address ensures p in ps <==> exists i :: 0 <= i < |views| && views[i].participant == p {
        if p in ps {
          var i :| 0 <= i < |ps| && ps[i] == p;
          assert views[i].participant == p;
        }
      }
    }
  }

  /**
   For a provider that may end any page early: a list that calls itself complete is the reservations the log was read
   for, each once, exactly when no lock of the event was left behind the short page the reader stopped at.
   */
  lemma CompleteUnlessALockIsCutOff(server: Server, s: State, t: State, archived: set<Key>, k: nat, id: u64)
    requires WellFormed(server) && Inv(s) && Chronicled(s) && Inv(t) && Evolves(s, t) && k <= |s.log|
    requires Carries(server.raw, OfEvent(s.log[k..], id), id)
    ensures var list := ReadList(server, t, archived, id);
      && list.Ok?
      && (list.value.historyComplete ==>
            (ListsExactly(s, t, id, list.value.reservations) <==> !HasLock(server.raw[StopAt(server, 0)..], id)))
  {
    var entries := OfEvent(s.log[k..], id);
    var m := CarriesSplits(server.raw, entries, id, StopAt(server, 0));
    DecodesCarried(server.raw[..StopAt(server, 0)], entries[..m], id);
    if HasCreation(ViewsOf(entries[..m])) {
      var ps := Participants(ViewsOf(entries[..m]));
      PrefixIsStored(s, k, id, m);
      StillStored(s, t, id, ps);
      PrefixParticipants(s, k, id, m);
      if |Readable(t, archived, id, ps)| == |ps| {
        ExactWhenAllFound(s, t, archived, id, ps);
      }
    }
  }

  /** An entry as the provider sends it. */
  function Sent(e: LogEntry): RawEvent {
    RawEvent(true, Some(Published(e)))
  }

  /** Two entries on two pages. */
  function TwoPages(created: LogEntry, locked: LogEntry): Server {
    Server([Sent(created), Sent(locked)], ["a", "b", "c"], [1, 1, 0])
  }

  lemma OneEntryDecodes(e: LogEntry, id: u64)
    requires e.eventId == id
    ensures Decode([Sent(e)], id) == Ok([ViewOf(e)])
  {
    DecodesWhatIsPublished(e);
    assert [Sent(e)][..0] == [];
    assert Decode([], id) == Ok([]);
    assert [] + [ViewOf(e)] == [ViewOf(e)];
  }

  lemma FirstPageOnly(s: State, created: LogEntry, locked: LogEntry)
    requires created.EventCreated? && locked.BondLocked? && created.eventId == locked.eventId
    ensures var server, id := TwoPages(created, locked), created.eventId;
      && WellFormed(server) && HasLock(server.raw[StopAt(server, 0)..], id)
      && ReadList(server, s, {}, id) == Ok(ReservationList([], true, 0))
  {
    var server, id := TwoPages(created, locked), created.eventId;
    assert server.raw[..1] == [Sent(created)] && server.raw[1..] == [Sent(locked)];
    DecodesWhatIsPublished(locked);
    assert IsLock(server.raw[1..][0], id);
    OneEntryDecodes(created, id);
    var entries := [ViewOf(created)];
    assert entries[0].EventCreatedView? && entries[..0] == [];
    assert Participants(entries) == [];
  }

  lemma OneMoreCarried(raw: seq<RawEvent>, entries: seq<LogEntry>, e: LogEntry, id: u64)
    requires Carries(raw, entries, id) && e.eventId == id
    ensures Carries(raw + [Sent(e)], entries + [e], id)
  {
    DecodesWhatIsPublished(e);
    assert (raw + [Sent(e)])[..|raw|] == raw && (entries + [e])[..|entries|] == entries;
  }

  lemma TwoEntriesCarried(d: LogEntry, e: LogEntry, id: u64)
    requires d.eventId == id && e.eventId == id
    ensures Carries([Sent(d), Sent(e)], OfEvent([d, e], id), id)
  {
    OneMoreCarried([], [], d, id);
    OneMoreCarried([Sent(d)], [d], e, id);
    assert [] + [Sent(d)] == [Sent(d)] && [] + [d] == [d];
    assert [Sent(d)] + [Sent(e)] == [Sent(d), Sent(e)] && [d] + [e] == [d, e];
    assert [d, e][..1] == [d] && [d][..0] == [];
    assert OfEvent([d], id) == [d];
  }

  /** Such a lock can be left behind: a reachable state and a provider whose first page ends behind the creation. */
  lemma ShortPageHidesAReservation() returns (server: Server, s: State, key: Key)
    ensures Reachable(s) && key in s.reservations
    ensures WellFormed(server) && Carries(server.raw, OfEvent(s.log, key.eventId), key.eventId)
    ensures HasLock(server.raw[StopAt(server, 0)..], key.eventId)
    ensures ReadList(server, s, {}, key.eventId) == Ok(ReservationList([], true, 0))
  {
    SeatIsTaken(1, 0, 1, 1, map["P" := 1]);
    s, key := OneSeat(Terms(1, 0, 1, 1), map["P" := 1]), Key(1, "P");
    var created, locked := s.log[0], s.log[1];
    assert s.log == [created, locked];
    server := TwoPages(created, locked);
    TwoEntriesCarried(created, locked, 1);
    FirstPageOnly(s, created, locked);
  }
}
