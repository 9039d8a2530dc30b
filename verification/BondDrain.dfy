/**
 When custody empties without anybody's signature, for any supply: every Locked bond has to be releasable by anyone,
 and the receivers need room for all of them.
 */
module BondDrain {
  import opened BondInvariant
  import opened BondOrder
  import opened BondRelease
  import opened BondSpec
  import opened BondTypes
  import opened TokenBalances

  /** The unsigned call that would release a bond, by its event's status. */
  function ReleaseCall(s: State, key: Key): Call
    requires key.eventId in s.events
  {
    Call({}, if s.events[key.eventId].status == EventStatus.Cancelled then ClaimRefund(key) else SettleNoShow(key))
  }

  /** Some calls name the release of every Locked bond, and nothing but such releases. */
  ghost predicate Names(s: State, releases: seq<Call>) {
    && (forall c :: c in releases ==>
          Permissionless(c) && c.action.key.eventId in s.events && c == ReleaseCall(s, c.action.key))
    && (forall key: Key :: key in LockedKeys(s) ==> key.eventId in s.events && ReleaseCall(s, key) in releases)
  }

  /** When time no longer matters. */
  function AtLast(s: State): State {
    s.(now := U64_MAX)
  }

  /** Every named release of a Locked bond has its legs fit alone, and all of them fit together. */
  ghost predicate AllFit(s: State, releases: seq<Call>) {
    && (forall c :: c in releases && Permissionless(c) && c.action.key in LockedKeys(s) ==> Ready(AtLast(s), c))
    && FitTogether(AtLast(s), releases)
  }

  // ----- Enough room -----

  /** Calls that fit together and are all ready close all their bonds, in the order they come. */
  lemma {:induction false} TogetherCloses(s: State, calls: seq<Call>, d: Call)
    requires Inv(s) && AllPermissionless(calls) && FitTogether(s, calls) && d in calls && Ready(s, d)
    ensures ClosedIn(Exec(s, calls), d.action.key)
    decreases |calls|
  {
    var c, rest := calls[0], calls[1..];
    assert calls == [c] + rest && c in calls && forall x :: x in rest ==> x in calls;
    TogetherLeavesReady(s, c, rest);
    TogetherStep(s, c, rest);
    ReadyFinishes(s, c);
    if c.action == d.action {
      ReadyByAction(s, c, d);
      ReadyPays(s, c);
      ClosedStays(Next(s, c), rest, d.action.key);
    } else {
      assert d in rest;
      TogetherCloses(Next(s, c), rest, d);
    }
  }

  lemma NamesAtLast(s: State, releases: seq<Call>)
    requires Inv(s) && Names(s, releases)
    ensures Inv(AtLast(s)) && LockedKeys(AtLast(s)) == LockedKeys(s) && AllPermissionless(releases)
  {
    LaterIsAsGood(s, AtLast(s), U64_MAX);
  }

  /** An unsigned release leaves every event as it is and locks no bond. */
  lemma LocksNothing(s: State, c: Call)
    requires Inv(s) && Permissionless(c)
    ensures Next(s, c).events == s.events && LockedKeys(Next(s, c)) <= LockedKeys(s)
  {
    PermissionlessCall(s, c);
  }

  lemma {:induction false} RunLocksNothing(s: State, calls: seq<Call>)
    requires Inv(s) && AllPermissionless(calls)
    ensures LockedKeys(Exec(s, calls)) <= LockedKeys(s)
    decreases |calls|
  {
    if calls != [] {
      assert calls[0] in calls && forall x :: x in calls[1..] ==> x in calls;
      LocksNothing(s, calls[0]);
      PermissionlessKeeps(s, calls[0]);
      RunLocksNothing(Next(s, calls[0]), calls[1..]);
    }
  }

  lemma ReleasesDrain(s: State, releases: seq<Call>)
    requires Inv(s) && Names(s, releases) && AllFit(s, releases)
    ensures LockedKeys(Exec(s, [Call({}, Tick(U64_MAX))] + releases)) == {}
  {
    var wait, last := Call({}, Tick(U64_MAX)), AtLast(s);
    assert Next(s, wait) == last;
    ExecCons(s, wait, releases);
    NamesAtLast(s, releases);
    RunLocksNothing(last, releases);
    forall key: Key | key in LockedKeys(s) ensures key !in LockedKeys(Exec(last, releases)) {
      TogetherCloses(last, releases, ReleaseCall(s, key));
    }
  }

  // ----- Not enough room -----

  lemma ReadyIsLocked(s: State, c: Call)
    requires Ready(s, c)
    ensures c.action.key in LockedKeys(s)
  {}

  /** With nothing Locked there is nothing due. */
  lemma {:induction false} NothingDue(s: State, releases: seq<Call>, a: Address)
    requires LockedKeys(s) == {}
    ensures Due(s, releases, a) == 0
  {
    if releases != [] {
      if Ready(s, releases[0]) {
        ReadyIsLocked(s, releases[0]);
      }
      NothingDue(s, releases[1..], a);
    }
  }

  lemma NothingLockedFits(s: State, releases: seq<Call>)
    requires LockedKeys(s) == {}
    ensures AllFit(s, releases)
  {
    forall a: Address ensures Due(AtLast(s), releases, a) == 0 {
      NothingDue(AtLast(s), releases, a);
    }
  }

  /** What is due stays due, for the same legs. */
  lemma DueAtLast(s: State, c: Call)
    requires Permissionless(c) && VerdictOf(s, c) == Pass
    ensures VerdictOf(AtLast(s), c) == Pass && LegsOf(AtLast(s), c) == LegsOf(s, c)
  {}

  lemma ClosesAtLast(s: State, c: Call)
    requires SoundRecords(s) && SoundRecords(AtLast(s)) && Permissionless(c) && VerdictOf(s, c) == Pass
    requires Finishes(s, c) && Finishes(AtLast(s), c)
    ensures SameBooks(AtLast(Next(s, c)), Next(AtLast(s), c))
  {
    DueAtLast(s, c);
    PermissionlessCall(s, c);
    PermissionlessCall(AtLast(s), c);
  }

  /** A ready call is as ready at the last instant, and does the same then. */
  lemma ReadyAtLast(s: State, c: Call)
    requires Inv(s) && Ready(s, c)
    ensures Inv(AtLast(s)) && Ready(AtLast(s), c)
    ensures SameBooks(AtLast(Next(s, c)), Next(AtLast(s), c))
  {
    LaterIsAsGood(s, AtLast(s), U64_MAX);
    DueAtLast(s, c);
    ReadyFinishes(s, c);
    ReadyFinishes(AtLast(s), c);
    ClosesAtLast(s, c);
  }

  lemma ReadyReadsNoLog(s: State, t: State, c: Call)
    requires SameBooks(s, t)
    ensures Ready(s, c) <==> Ready(t, c)
    ensures Ready(s, c) ==> LegsOf(s, c) == LegsOf(t, c)
  {}

  /** Neither readiness nor what is due reads the log. */
  lemma {:induction false} DueReadsNoLog(s: State, t: State, releases: seq<Call>, a: Address)
    requires SameBooks(s, t)
    ensures Due(s, releases, a) == Due(t, releases, a)
  {
    if releases != [] {
      ReadyReadsNoLog(s, t, releases[0]);
      DueReadsNoLog(s, t, releases[1..], a);
    }
  }

  lemma FitReadsNoLog(s: State, t: State, releases: seq<Call>)
    requires SameBooks(s, t)
    ensures FitTogether(s, releases) <==> FitTogether(t, releases)
  {
    forall a: Address ensures Due(s, releases, a) == Due(t, releases, a) {
      DueReadsNoLog(s, t, releases, a);
    }
  }

  /** A ready call is one of the named releases, but for who signs it. */
  lemma ReadyIsNamed(s: State, releases: seq<Call>, c: Call)
    requires Names(s, releases) && Ready(s, c)
    ensures c.action.key in LockedKeys(s) && Repeats(c, releases)
    ensures forall d :: d in releases && d.action.key == c.action.key ==> d.action == c.action
  {
    assert ReleaseCall(s, c.action.key) in releases;
  }

  /** What fits after a named release fitted with it before. */
  lemma FitsBefore(s: State, c: Call, releases: seq<Call>)
    requires Inv(s) && Ready(s, c) && AllPermissionless(releases) && Repeats(c, releases)
    requires LeavesReady(s, c, releases) && FitTogether(Next(s, c), releases)
    ensures FitTogether(s, releases)
  {
    ReadyPays(s, c);
    forall a: Address | a != s.self ensures BalanceOf(s.balances, a) + Due(s, releases, a) <= I128_MAX {
      DueAfter(s, c, releases, a);
    }
  }

  lemma OthersStayLocked(s: State, c: Call, key: Key)
    requires Inv(s) && Permissionless(c) && key in LockedKeys(s) && key != c.action.key
    ensures key in LockedKeys(Next(s, c))
  {
    PermissionlessCall(s, c);
  }

  lemma LeavesNamedReady(s: State, c: Call, releases: seq<Call>)
    requires Inv(s) && Ready(s, c) && AllPermissionless(releases)
    requires forall d :: d in releases && d.action.key == c.action.key ==> d.action == c.action
    requires forall d :: d in releases && d.action.key in LockedKeys(Next(s, c)) ==> Ready(Next(s, c), d)
    ensures LeavesReady(s, c, releases)
  {
    forall d | d in releases ensures Ready(Next(s, c), d) <==> Ready(s, d) && d.action != c.action {
      if Ready(Next(s, c), d) {
        ReadyShrinks(s, c, d);
      } else if Ready(s, d) && d.action != c.action {
        OthersStayLocked(s, c, d.action.key);
      }
    }
  }

  /** A release that happens does so at the last instant as well. */
  lemma FitBeforeRelease(s: State, c: Call, releases: seq<Call>)
    requires Inv(s) && Names(s, releases) && Ready(s, c) && AllFit(Next(s, c), releases)
    ensures AllFit(s, releases)
  {
    var last, after := AtLast(s), Next(AtLast(s), c);
    ReadyAtLast(s, c);
    ReadyIsNamed(s, releases, c);
    NamesAtLast(s, releases);
    FitReadsNoLog(AtLast(Next(s, c)), after, releases);
    forall d | d in releases && d.action.key in LockedKeys(after) ensures Ready(after, d) {
      ReadyReadsNoLog(AtLast(Next(s, c)), after, d);
    }
    LeavesNamedReady(last, c, releases);
    FitsBefore(last, c, releases);
    forall d | d in releases && d.action.key in LockedKeys(s) ensures Ready(last, d) {
      if d.action.key == c.action.key {
        ReadyByAction(last, c, d);
      } else {
        OthersStayLocked(last, c, d.action.key);
        ReadyShrinks(last, c, d);
      }
    }
  }

  lemma SameEventsSameNames(s: State, s': State, releases: seq<Call>)
    requires Names(s, releases) && s'.events == s.events && LockedKeys(s') <= LockedKeys(s)
    ensures Names(s', releases)
  {}

  lemma NamesStay(s: State, c: Call, releases: seq<Call>)
    requires Inv(s) && HandsOff(c) && Names(s, releases)
    ensures Inv(Next(s, c)) && Names(Next(s, c), releases)
  {
    CallKeepsInv(s, c);
    if Permissionless(c) {
      LocksNothing(s, c);
    } else {
      TickOnlyMovesTime(s, c);
    }
    SameEventsSameNames(s, Next(s, c), releases);
  }

  /** A run without signatures that empties custody shows that all releases fit. */
  lemma {:induction false} DrainedFits(s: State, calls: seq<Call>, releases: seq<Call>)
    requires Inv(s) && Names(s, releases) && (forall c :: c in calls ==> HandsOff(c))
    requires LockedKeys(Exec(s, calls)) == {}
    ensures AllFit(s, releases)
    decreases |calls|
  {
    if calls == [] {
      NothingLockedFits(s, releases);
    } else {
      var c := calls[0];
      assert c in calls && forall x :: x in calls[1..] ==> x in calls;
      NamesStay(s, c, releases);
      DrainedFits(Next(s, c), calls[1..], releases);
      if Permissionless(c) {
        ReadyFinishes(s, c);
        if Ready(s, c) {
          FitBeforeRelease(s, c, releases);
        }
      } else {
        TickOnlyMovesTime(s, c);
        assert AtLast(Next(s, c)) == AtLast(s);
      }
    }
  }

  // ----- Exactly -----

  /** The releases of all Locked bonds can be named. */
  lemma {:induction false} ReleasesOf(s: State, keys: set<Key>) returns (releases: seq<Call>)
    requires SoundRecords(s) && keys <= LockedKeys(s)
    ensures forall c :: c in releases ==>
      Permissionless(c) && c.action.key.eventId in s.events && c == ReleaseCall(s, c.action.key)
    ensures forall key: Key :: key in keys ==> key.eventId in s.events && ReleaseCall(s, key) in releases
    decreases keys
  {
    if keys == {} {
      return [];
    }
    var key :| key in keys;
    assert SoundReservation(s, key, s.reservations[key]);
    var rest := ReleasesOf(s, keys - {key});
    releases := [ReleaseCall(s, key)] + rest;
  }

  lemma ReleasesCanBeNamed(s: State) returns (releases: seq<Call>)
    requires Inv(s)
    ensures Names(s, releases)
  {
    releases := ReleasesOf(s, LockedKeys(s));
  }

  /**
   For any supply: some run without signatures empties custody if and only if, at the last instant, every Locked bond's
   release is due and has room alone, and all of them have room together. Which list names the releases does not matter.
   */
  lemma DrainsExactlyWhenAllFit(s: State, releases: seq<Call>)
    requires Inv(s) && Names(s, releases)
    ensures (exists calls :: (forall c :: c in calls ==> HandsOff(c)) && LockedKeys(Exec(s, calls)) == {})
            <==> AllFit(s, releases)
  {
    if AllFit(s, releases) {
      var calls := [Call({}, Tick(U64_MAX))] + releases;
      ReleasesDrain(s, releases);
      assert forall c :: c in calls ==> HandsOff(c);
    }
    forall calls | (forall c :: c in calls ==> HandsOff(c)) && LockedKeys(Exec(s, calls)) == {}
      ensures AllFit(s, releases)
    {
      DrainedFits(s, calls, releases);
    }
  }
}
