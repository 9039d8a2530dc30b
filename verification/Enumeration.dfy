/** Listing the newest events by counting ids down from the contract's event count. */
module Enumeration {
  import opened BondInvariant
  import opened BondSpec
  import opened BondTypes
  import opened Views
  import opened Wrappers

  /** The optional limit: absent, not a finite number, or a number that is floored. */
  datatype Limit = Unlimited | NotFinite | UpTo(limit: real)

  /** How many events are asked for. */
  function Take(count: nat, limit: Limit): (n: nat)
    ensures n <= count
  {
    if limit.UpTo? then
      var floored := limit.limit.Floor;
      var least := if floored < count then floored else count;
      if least < 0 then 0 else least
    else count
  }

  /** As many as the limit allows, rounded down; a negative limit asks for none, and no finite limit for all. */
  predicate Wanted(count: nat, limit: Limit, n: nat) {
    && n <= count
    && (limit.UpTo? ==> (n == 0 || n as real <= limit.limit) && (n == count || limit.limit < (n + 1) as real))
    && (!limit.UpTo? ==> n == count)
  }

  lemma TakesWhatIsWanted(count: nat, limit: Limit, n: nat)
    ensures Wanted(count, limit, n) <==> n == Take(count, limit)
  {}

  /** A read by id: nothing when the event is not there. */
  function GetEvent(s: State, id: nat): Option<EventView> {
    if id in s.events then Some(ToEventView(s.events[id])) else None
  }

  /** The ids from high down to low + 1, those that read back, in that order. */
  function Listed(s: State, high: nat, low: nat): seq<EventView>
    requires low <= high
    decreases high
  {
    if high == low then []
    else
      (match GetEvent(s, high)
       case Some(view) => [view]
       case None => [])
      + Listed(s, high - 1, low)
  }

  /** Reads the counted ids back in order and drops the ones that are missing. */
  method ReadIds(s: State, count: nat, ids: seq<nat>) returns (views: seq<EventView>)
    requires |ids| <= count && forall i :: 0 <= i < |ids| ==> ids[i] == count - i
    ensures views == Listed(s, count, count - |ids|)
  {
    views := [];
    for i := 0 to |ids|
      invariant views + Listed(s, count - i, count - |ids|) == Listed(s, count, count - |ids|)
    {
      ghost var rest := Listed(s, count - i - 1, count - |ids|);
      var read := GetEvent(s, ids[i]);
      if read.Some? {
        assert views + ([read.value] + rest) == (views + [read.value]) + rest;
        views := views + [read.value];
      } else {
        assert [] + rest == rest;
      }
    }
  }

  method ListEvents(s: State, limit: Limit) returns (views: seq<EventView>)
    ensures views == Listed(s, s.eventCount, s.eventCount - Take(s.eventCount, limit))
  {
    var count: nat := s.eventCount;
    if count <= 0 {
      return [];
    }
    var take := Take(count, limit);
    if take == 0 {
      return [];
    }
    var ids: seq<nat> := [];
    var id := count;
    while id > count - take
      invariant count - take <= id <= count
      invariant |ids| == count - id && forall i :: 0 <= i < |ids| ==> ids[i] == count - i
    {
      ids := ids + [id];
      id := id - 1;
    }

    views := ReadIds(s, count, ids);
  }

  /** With dense ids nothing is skipped: the k-th listed event is the one with the k-th highest id. */
  lemma {:induction false} ListsDownward(s: State, high: nat, low: nat)
    requires DenseIds(s) && low <= high <= s.eventCount
    ensures |Listed(s, high, low)| == high - low
    ensures forall i :: 0 <= i < high - low ==> Some(Listed(s, high, low)[i]) == GetEvent(s, high - i)
    decreases high
  {
    if low < high {
      assert high in s.events;
      ListsDownward(s, high - 1, low);
    }
  }

  ghost predicate HoldsEvent(s: State, id: int, view: EventView) {
    id in s.events && view == ToEventView(s.events[id]) && view.id == id
  }

  /** The list is the newest events, as many as asked for: position i holds the event with the i-th highest id. */
  ghost predicate NewestFirst(s: State, n: nat, views: seq<EventView>) {
    && |views| == n <= s.eventCount
    && (forall i :: 0 <= i < n ==> HoldsEvent(s, s.eventCount - i, views[i]))
  }

  lemma ReadsItsId(s: State, id: nat, view: EventView)
    requires DenseIds(s) && GetEvent(s, id) == Some(view)
    ensures HoldsEvent(s, id, view)
  {}

  lemma ListIsNewestFirst(s: State, n: nat)
    requires DenseIds(s) && n <= s.eventCount
    ensures NewestFirst(s, n, Listed(s, s.eventCount, s.eventCount - n))
  {
    var count, views := s.eventCount, Listed(s, s.eventCount, s.eventCount - n);
    ListsDownward(s, count, count - n);
    forall i | 0 <= i < n ensures HoldsEvent(s, count - i, views[i]) {
      ReadsItsId(s, count - i, views[i]);
    }
  }

  /** Ids fall strictly down the list, and no newer event is left out. */
  lemma NewestFirstIsComplete(s: State, n: nat, views: seq<EventView>, id: u64)
    requires DenseIds(s) && NewestFirst(s, n, views)
    ensures forall i, j :: 0 <= i < j < n ==> views[i].id > views[j].id
    ensures id in s.events && id > s.eventCount - n ==> ToEventView(s.events[id]) in views
  {
    if id in s.events && id > s.eventCount - n {
      assert HoldsEvent(s, s.eventCount - (s.eventCount - id), views[s.eventCount - id]);
    }
  }

  /** In every reachable state. */
  lemma ListsTheNewestEvents(s: State, calls: seq<Call>, limit: Limit)
    requires Initial(s)
    ensures var s' := Exec(s, calls);
      var n := Take(s'.eventCount, limit);
      && Wanted(s'.eventCount, limit, n)
      && NewestFirst(s', n, Listed(s', s'.eventCount, s'.eventCount - n))
  {
    InitialInv(s);
    RunKeepsInv(s, calls);
    var s' := Exec(s, calls);
    ListIsNewestFirst(s', Take(s'.eventCount, limit));
    TakesWhatIsWanted(s'.eventCount, limit, Take(s'.eventCount, limit));
  }
}
