/**
 What the participant list holds, for any log a provider may send and any part of it that was read, whether or not the
 list calls itself complete: one unreadable participant is counted and costs nobody else his place.
 */
module EventListing {
  import opened BondInvariant
  import opened BondSpec
  import opened BondTypes
  import opened EventIndex
  import opened Views
  import opened Wrappers

  // ----- Raw events -----

  predicate HasBigInt(p: ParsedEvent, field: string) {
    field in p.data && p.data[field].BigIntField?
  }

  predicate HasFiniteNumber(p: ParsedEvent, field: string) {
    field in p.data && p.data[field].NumberField?
  }

  predicate HasText(p: ParsedEvent, field: string) {
    field in p.data && p.data[field].StringField? && p.data[field].text != ""
  }

  predicate IsBondEvent(name: string) {
    name == "BondLocked" || name == "ReservationCancelled" || name == "CheckedIn" || name == "RefundClaimed"
  }

  /** The seven events the application knows. */
  predicate IsKnown(name: string) {
    IsBondEvent(name) || name == "EventCreated" || name == "EventCancelled" || name == "NoShowSettled"
  }

  /** A known event with all its fields, each of its type. */
  predicate HasItsFields(p: ParsedEvent) {
    && HasBigInt(p, "event_id")
    && (IsBondEvent(p.name) ==> HasText(p, "participant") && HasBigInt(p, "amount"))
    && (p.name == "EventCreated" ==>
          HasText(p, "organizer") && HasBigInt(p, "bond_amount") && HasFiniteNumber(p, "capacity"))
    && (p.name == "EventCancelled" ==> HasText(p, "organizer"))
    && (p.name == "NoShowSettled" ==>
          HasText(p, "participant") && HasBigInt(p, "organizer_amount") && HasBigInt(p, "community_amount"))
  }

  /** A raw event the application looks at: of a successful call, and of a known name. */
  predicate IsRead(raw: RawEvent) {
    raw.inSuccessfulContractCall && raw.parsed.Some? && IsKnown(raw.parsed.value.name)
  }

  predicate Malformed(raw: RawEvent) {
    IsRead(raw) && !HasItsFields(raw.parsed.value)
  }

  predicate IsAbout(raw: RawEvent, id: u64) {
    IsRead(raw) && HasItsFields(raw.parsed.value) && raw.parsed.value.data["event_id"].bigint == id
  }

  predicate IsLockOf(raw: RawEvent, id: u64, p: Address) {
    IsAbout(raw, id) && raw.parsed.value.name == "BondLocked" && raw.parsed.value.data["participant"].text == p
  }

  predicate IsCreationOf(raw: RawEvent, id: u64) {
    IsAbout(raw, id) && raw.parsed.value.name == "EventCreated"
  }

  predicate LocksView(e: ShowUpEvent, p: Address) {
    e.BondView? && e.kind == BondLockedKind && e.participant == p
  }

  /** One raw event: an error exactly when malformed, passed over exactly when not about the event, else kept. */
  lemma KeptExactly(raw: RawEvent, id: u64)
    ensures Kept(raw, id).Err? <==> Malformed(raw)
    ensures Noise(raw, id) <==> !Malformed(raw) && !IsAbout(raw, id)
    ensures IsAbout(raw, id) ==> Kept(raw, id).value.value.eventId == id
    ensures IsAbout(raw, id) ==> (Kept(raw, id).value.value.EventCreatedView? <==> IsCreationOf(raw, id))
    ensures forall p: Address :: IsAbout(raw, id) ==>
      (LocksView(Kept(raw, id).value.value, p) <==> IsLockOf(raw, id, p))
  {}

  /** A log is read without an error exactly when none of its events is malformed. */
  lemma {:induction false} DecodeFailsExactly(raw: seq<RawEvent>, id: u64)
    ensures Decode(raw, id).Err? <==> exists i :: 0 <= i < |raw| && Malformed(raw[i])
  {
    if raw != [] {
      var front := raw[..|raw| - 1];
      DecodeFailsExactly(front, id);
      KeptExactly(raw[|raw| - 1], id);
      assert forall i :: 0 <= i < |front| ==> front[i] == raw[i];
    }
  }

  /** The first malformed event is the error. */
  lemma FirstMalformedIsTheError(raw: seq<RawEvent>, id: u64, n: nat)
    requires n < |raw| && Malformed(raw[n]) && forall m :: 0 <= m < n ==> !Malformed(raw[m])
    ensures Kept(raw[n], id).Err? && Decode(raw, id) == Err(Kept(raw[n], id).error)
  {
    var upTo := raw[..n + 1];
    assert upTo[..n] == raw[..n];
    DecodeFailsExactly(raw[..n], id);
    KeptExactly(raw[n], id);
    DecodeStopsAtError(raw, n + 1, id);
  }

  predicate LockedIn(raw: seq<RawEvent>, id: u64, p: Address) {
    exists i :: 0 <= i < |raw| && IsLockOf(raw[i], id, p)
  }

  lemma LockedInLast(raw: seq<RawEvent>, id: u64, p: Address)
    requires raw != []
    ensures LockedIn(raw, id, p) <==> LockedIn(raw[..|raw| - 1], id, p) || IsLockOf(raw[|raw| - 1], id, p)
  {
    var front := raw[..|raw| - 1];
    assert forall i :: 0 <= i < |front| ==> front[i] == raw[i];
  }

  /** The participants found are those with a lock of the event in what was read. */
  lemma {:induction false} FoundExactly(raw: seq<RawEvent>, id: u64, p: Address)
    requires Decode(raw, id).Ok?
    ensures p in Participants(Decode(raw, id).value) <==> LockedIn(raw, id, p)
  {
    if raw != [] {
      var front, last := raw[..|raw| - 1], raw[|raw| - 1];
      FoundExactly(front, id, p);
      LockedInLast(raw, id, p);
      KeptExactly(last, id);
      if IsAbout(last, id) {
        var before, kept := Decode(front, id).value, Kept(last, id).value.value;
        assert Decode(raw, id).value[..|before|] == before;
        assert LocksView(kept, p) <==> IsLockOf(last, id, p);
      }
    }
  }

  /** The history is called complete exactly when the event's creation was read. */
  lemma {:induction false} CreationSeenExactly(raw: seq<RawEvent>, id: u64)
    requires Decode(raw, id).Ok?
    ensures HasCreation(Decode(raw, id).value) <==> exists i :: 0 <= i < |raw| && IsCreationOf(raw[i], id)
  {
    if raw != [] {
      var front, last := raw[..|raw| - 1], raw[|raw| - 1];
      CreationSeenExactly(front, id);
      KeptExactly(last, id);
      assert forall i :: 0 <= i < |front| ==> front[i] == raw[i];
      var before, entries := Decode(front, id).value, Decode(raw, id).value;
      if IsAbout(last, id) {
        assert entries == before + [Kept(last, id).value.value];
        assert forall i :: 0 <= i < |before| ==> entries[i] == before[i];
        assert entries[|before|] == Kept(last, id).value.value;
      }
    }
  }

  /** The first lock of a participant. */
  predicate FirstLockAt(raw: seq<RawEvent>, id: u64, p: Address, n: nat)
    requires n < |raw|
  {
    IsLockOf(raw[n], id, p) && forall m :: 0 <= m < n ==> !IsLockOf(raw[m], id, p)
  }

  predicate LockedBefore(raw: seq<RawEvent>, id: u64, p: Address, q: Address) {
    exists a, b :: 0 <= a < b < |raw| && FirstLockAt(raw, id, p, a) && FirstLockAt(raw, id, q, b)
  }

  lemma {:induction false} HasFirstLock(raw: seq<RawEvent>, id: u64, p: Address) returns (n: nat)
    requires LockedIn(raw, id, p)
    ensures n < |raw| && FirstLockAt(raw, id, p, n)
  {
    var front := raw[..|raw| - 1];
    LockedInLast(raw, id, p);
    assert forall i :: 0 <= i < |front| ==> front[i] == raw[i];
    if LockedIn(front, id, p) {
      n := HasFirstLock(front, id, p);
    } else {
      n := |front|;
    }
  }

  lemma LockedBeforeGrows(raw: seq<RawEvent>, id: u64, p: Address, q: Address)
    requires raw != [] && LockedBefore(raw[..|raw| - 1], id, p, q)
    ensures LockedBefore(raw, id, p, q)
  {
    var front := raw[..|raw| - 1];
    assert forall i :: 0 <= i < |front| ==> front[i] == raw[i];
    var a, b :| 0 <= a < b < |front| && FirstLockAt(front, id, p, a) && FirstLockAt(front, id, q, b);
    assert FirstLockAt(raw, id, p, a) && FirstLockAt(raw, id, q, b);
  }

  lemma NewlyLocked(raw: seq<RawEvent>, id: u64, p: Address, q: Address)
    requires raw != [] && LockedIn(raw[..|raw| - 1], id, p)
    requires !LockedIn(raw[..|raw| - 1], id, q) && IsLockOf(raw[|raw| - 1], id, q)
    ensures LockedBefore(raw, id, p, q)
  {
    var front := raw[..|raw| - 1];
    var a := HasFirstLock(front, id, p);
    assert forall i :: 0 <= i < |front| ==> front[i] == raw[i];
    assert FirstLockAt(raw, id, p, a) && FirstLockAt(raw, id, q, |front|);
  }

  predicate ComesBefore(ps: seq<Address>, p: Address, q: Address) {
    exists i, j :: 0 <= i < j < |ps| && ps[i] == p && ps[j] == q
  }

  /** One more raw event finds at most one more participant, who was not found before. */
  lemma FoundIsExtended(raw: seq<RawEvent>, id: u64)
    requires raw != [] && Decode(raw, id).Ok?
    ensures var before, ps := Participants(Decode(raw[..|raw| - 1], id).value), Participants(Decode(raw, id).value);
      ps == before || (ps != [] && ps == before + [ps[|ps| - 1]] && ps[|ps| - 1] !in before)
  {
    var before, entries := Decode(raw[..|raw| - 1], id).value, Decode(raw, id).value;
    if entries != before {
      assert entries[..|before|] == before;
    }
  }

  /** They are found in the order of their first locks. */
  lemma {:induction false} FoundInOrder(raw: seq<RawEvent>, id: u64, p: Address, q: Address)
    requires Decode(raw, id).Ok? && ComesBefore(Participants(Decode(raw, id).value), p, q)
    ensures LockedBefore(raw, id, p, q)
  {
    var ps := Participants(Decode(raw, id).value);
    if raw != [] {
      var front, last := raw[..|raw| - 1], raw[|raw| - 1];
      var before := Participants(Decode(front, id).value);
      FoundIsExtended(raw, id);
      if ComesBefore(before, p, q) {
        FoundInOrder(front, id, p, q);
        LockedBeforeGrows(raw, id, p, q);
      } else {
        var i, j :| 0 <= i < j < |ps| && ps[i] == p && ps[j] == q;
        assert j == |before| && p in before && q !in before;
        FoundExactly(front, id, p);
        FoundExactly(front, id, q);
        FoundExactly(raw, id, q);
        LockedInLast(raw, id, q);
        NewlyLocked(raw, id, p, q);
      }
    }
  }

  // ----- Lookups -----

  /** A lookup that gives a record. */
  predicate CanBeRead(t: State, archived: set<Key>, id: u64, p: Address) {
    Key(id, p) in t.reservations && Key(id, p) !in archived
  }

  predicate IsListed(views: seq<ReservationView>, p: Address) {
    exists i :: 0 <= i < |views| && views[i].participant == p
  }

  ghost function Unread(t: State, archived: set<Key>, id: u64, ps: seq<Address>): set<Address> {
    set p | p in ps && !CanBeRead(t, archived, id, p)
  }

  /** One more participant: his view comes behind the others, or he is one more unread. */
  lemma OneMoreLookup(t: State, archived: set<Key>, id: u64, ps: seq<Address>)
    requires SoundRecords(t) && ps != []
    ensures var before, p := Readable(t, archived, id, ps[..|ps| - 1]), ps[|ps| - 1];
      Readable(t, archived, id, ps) ==
        if CanBeRead(t, archived, id, p) then before + [ToReservationView(t.reservations[Key(id, p)])] else before
  {}

  lemma ListedLast(views: seq<ReservationView>, last: ReservationView, p: Address)
    ensures IsListed(views + [last], p) <==> IsListed(views, p) || last.participant == p
  {
    assert forall i :: 0 <= i < |views| ==> (views + [last])[i] == views[i];
    assert (views + [last])[|views|] == last;
  }

  /** Listed are exactly those who can be read. */
  lemma {:induction false} ListedExactly(t: State, archived: set<Key>, id: u64, ps: seq<Address>, p: Address)
    requires SoundRecords(t)
    ensures IsListed(Readable(t, archived, id, ps), p) <==> p in ps && CanBeRead(t, archived, id, p)
  {
    if ps != [] {
      var front, last := ps[..|ps| - 1], ps[|ps| - 1];
      assert ps == front + [last];
      ListedExactly(t, archived, id, front, p);
      OneMoreLookup(t, archived, id, ps);
      if CanBeRead(t, archived, id, last) {
        var key := Key(id, last);
        assert SoundReservation(t, key, t.reservations[key]);
        ListedLast(Readable(t, archived, id, front), ToReservationView(t.reservations[key]), p);
      }
    }
  }

  /** Each once, as stored, in the order in which they were found. */
  ghost predicate InTheirOrder(t: State, id: u64, ps: seq<Address>, views: seq<ReservationView>) {
    && (forall i :: 0 <= i < |views| ==> views[i].participant in ps && IsStored(t, id, views[i]))
    && (forall i, j :: 0 <= i < j < |views| ==> ComesBefore(ps, views[i].participant, views[j].participant))
  }

  lemma StillBefore(ps: seq<Address>, last: Address, p: Address, q: Address)
    requires ComesBefore(ps, p, q)
    ensures ComesBefore(ps + [last], p, q)
  {
    var i, j :| 0 <= i < j < |ps| && ps[i] == p && ps[j] == q;
    assert (ps + [last])[i] == p && (ps + [last])[j] == q;
  }

  lemma LastComesLast(ps: seq<Address>, last: Address, p: Address)
    requires p in ps
    ensures ComesBefore(ps + [last], p, last)
  {
    var i :| 0 <= i < |ps| && ps[i] == p;
    assert (ps + [last])[i] == p && (ps + [last])[|ps|] == last;
  }

  lemma OrderGrows(t: State, id: u64, ps: seq<Address>, views: seq<ReservationView>, last: Address)
    requires InTheirOrder(t, id, ps, views)
    ensures InTheirOrder(t, id, ps + [last], views)
  {
    forall i, j | 0 <= i < j < |views| ensures ComesBefore(ps + [last], views[i].participant, views[j].participant) {
      StillBefore(ps, last, views[i].participant, views[j].participant);
    }
  }

  lemma OrderGrowsByView(t: State, id: u64, ps: seq<Address>, views: seq<ReservationView>, view: ReservationView)
    requires InTheirOrder(t, id, ps, views) && IsStored(t, id, view)
    ensures InTheirOrder(t, id, ps + [view.participant], views + [view])
  {
    OrderGrows(t, id, ps, views, view.participant);
    var grown := views + [view];
    forall i, j | 0 <= i < j < |grown|
      ensures ComesBefore(ps + [view.participant], grown[i].participant, grown[j].participant)
    {
      if j == |views| {
        LastComesLast(ps, view.participant, views[i].participant);
      }
    }
  }

  lemma {:induction false} ListedInOrder(t: State, archived: set<Key>, id: u64, ps: seq<Address>)
    requires SoundRecords(t)
    ensures InTheirOrder(t, id, ps, Readable(t, archived, id, ps))
  {
    if ps != [] {
      var front, last := ps[..|ps| - 1], ps[|ps| - 1];
      assert ps == front + [last];
      ListedInOrder(t, archived, id, front);
      OneMoreLookup(t, archived, id, ps);
      var before := Readable(t, archived, id, front);
      if CanBeRead(t, archived, id, last) {
        var key := Key(id, last);
        assert SoundReservation(t, key, t.reservations[key]);
        OrderGrowsByView(t, id, front, before, ToReservationView(t.reservations[key]));
      } else {
        OrderGrows(t, id, front, before, last);
      }
    }
  }

  /** Everyone who was found and cannot be read is counted once. */
  lemma {:induction false} UnreadAreCounted(t: State, archived: set<Key>, id: u64, ps: seq<Address>)
    requires SoundRecords(t) && Distinct(ps)
    ensures |ps| - |Readable(t, archived, id, ps)| == |Unread(t, archived, id, ps)|
  {
    if ps != [] {
      var front, last := ps[..|ps| - 1], ps[|ps| - 1];
      assert ps == front + [last];
      UnreadAreCounted(t, archived, id, front);
      OneMoreLookup(t, archived, id, ps);
      var before := Unread(t, archived, id, front);
      assert last !in before;
      assert Unread(t, archived, id, ps) == if CanBeRead(t, archived, id, last) then before else before + {last};
    }
  }

  /** First locks are unique, so nobody comes before himself. */
  lemma ListedOnlyOnce(raw: seq<RawEvent>, id: u64, p: Address)
    ensures !LockedBefore(raw, id, p, p)
  {}

  // ----- The list -----

  /** Everyone with a lock in what was read whose lookup gives nothing. */
  ghost function LockedButUnread(t: State, archived: set<Key>, id: u64, raw: seq<RawEvent>): set<Address>
    requires Decode(raw, id).Ok?
  {
    set p | p in Participants(Decode(raw, id).value) && LockedIn(raw, id, p) && !CanBeRead(t, archived, id, p)
  }

  /** The parts of that about order and number. */
  lemma ListedOnce(t: State, archived: set<Key>, id: u64, raw: seq<RawEvent>)
    requires SoundRecords(t) && Decode(raw, id).Ok?
    ensures var ps := Participants(Decode(raw, id).value);
      var views := Readable(t, archived, id, ps);
      && (forall i :: 0 <= i < |views| ==> IsStored(t, id, views[i]))
      && (forall i, j :: 0 <= i < j < |views| ==>
            LockedBefore(raw, id, views[i].participant, views[j].participant))
      && |ps| - |views| == |LockedButUnread(t, archived, id, raw)|
  {
    var ps := Participants(Decode(raw, id).value);
    var views := Readable(t, archived, id, ps);
    ParticipantsAreDistinct(Decode(raw, id).value);
    ListedInOrder(t, archived, id, ps);
    forall i, j | 0 <= i < j < |views| ensures LockedBefore(raw, id, views[i].participant, views[j].participant) {
      FoundInOrder(raw, id, views[i].participant, views[j].participant);
    }
    UnreadAreCounted(t, archived, id, ps);
    forall p: Address ensures p in ps <==> LockedIn(raw, id, p) {
      FoundExactly(raw, id, p);
    }
    assert Unread(t, archived, id, ps) == LockedButUnread(t, archived, id, raw);
  }

  /**
   The list, whatever the provider sent and wherever the reader stopped, as long as nothing malformed was met: it shows
   exactly those with a lock of the event in what was read and a record that can be looked up, each once, as stored, in
   the order of their first locks. It counts all others with such a lock, and calls itself complete exactly when the
   creation was read and it counts none.
   */
  lemma ListIsHonest(server: Server, t: State, archived: set<Key>, id: u64)
    requires WellFormed(server) && SoundRecords(t)
    requires forall i :: 0 <= i < StopAt(server, 0) ==> !Malformed(server.raw[i])
    ensures var raw, read := server.raw[..StopAt(server, 0)], ReadList(server, t, archived, id);
      && read.Ok? && Decode(raw, id).Ok?
      && (forall p: Address ::
            IsListed(read.value.reservations, p) <==> LockedIn(raw, id, p) && CanBeRead(t, archived, id, p))
      && (forall i :: 0 <= i < |read.value.reservations| ==> IsStored(t, id, read.value.reservations[i]))
      && (forall i, j :: 0 <= i < j < |read.value.reservations| ==>
            LockedBefore(raw, id, read.value.reservations[i].participant, read.value.reservations[j].participant))
      && read.value.unreadable == |LockedButUnread(t, archived, id, raw)|
      && (read.value.historyComplete <==>
            read.value.unreadable == 0 && exists i :: 0 <= i < |raw| && IsCreationOf(raw[i], id))
  {
    var raw := server.raw[..StopAt(server, 0)];
    DecodeFailsExactly(raw, id);
    var ps := Participants(Decode(raw, id).value);
    ListedOnce(t, archived, id, raw);
    CreationSeenExactly(raw, id);
    forall p: Address
      ensures IsListed(Readable(t, archived, id, ps), p) <==> LockedIn(raw, id, p) && CanBeRead(t, archived, id, p)
    {
      FoundExactly(raw, id, p);
      ListedExactly(t, archived, id, ps, p);
    }
  }

  /** A malformed event in what is read is the only reason for no list at all. */
  lemma NoListExactly(server: Server, t: State, archived: set<Key>, id: u64)
    requires WellFormed(server)
    ensures ReadList(server, t, archived, id).Err? <==>
            exists i :: 0 <= i < StopAt(server, 0) && Malformed(server.raw[i])
  {
    var raw := server.raw[..StopAt(server, 0)];
    DecodeFailsExactly(raw, id);
    assert forall i :: 0 <= i < |raw| ==> raw[i] == server.raw[i];
  }
}
