/** The application's views of stored records, with 64-bit times turned into floating-point numbers. */
module Views {
  import opened BondTypes

  const TWO_TO_52: int := 0x10_0000_0000_0000

  const TWO_TO_53: int := 0x20_0000_0000_0000

  /** The spacing of the doubles around v: the least doubling of u under which v has 53 bits. */
  function Spacing(v: nat, u: nat): nat
    requires 0 < u
    decreases v - u
  {
    if v < u * TWO_TO_53 then u else Spacing(v, 2 * u)
  }

  lemma SpacingIsPositive(v: nat, u: nat)
    requires 0 < u
    ensures u <= Spacing(v, u)
    decreases v - u
  {
    if u * TWO_TO_53 <= v {
      SpacingIsPositive(v, 2 * u);
    }
  }

  /** Number(v) for a non-negative bigint: the nearest double, ties to even. Exact below 2^53. */
  function ToNumber(v: nat): nat {
    var u := Spacing(v, 1);
    SpacingIsPositive(v, 1);
    var q, r := v / u, v % u;
    if 2 * r > u || (2 * r == u && q % 2 == 1) then (q + 1) * u else q * u
  }

  lemma SmallNumbersAreExact(v: nat)
    requires v < TWO_TO_53
    ensures ToNumber(v) == v
  {
    assert Spacing(v, 1) == 1;
  }

  /** v has at most 53 bits at its spacing, and exactly 53 when the spacing was doubled. */
  lemma SpacingFits(v: nat, u: nat)
    requires 0 < u && (u == 1 || u * TWO_TO_52 <= v)
    ensures v < Spacing(v, u) * TWO_TO_53
    ensures Spacing(v, u) == 1 || Spacing(v, u) * TWO_TO_52 <= v
    decreases v - u
  {
    if u * TWO_TO_53 <= v {
      SpacingFits(v, 2 * u);
    }
  }

  lemma SpacingGrows(a: nat, b: nat, u: nat)
    requires 0 < u && a <= b
    ensures Spacing(a, u) == Spacing(b, u) || 2 * Spacing(a, u) <= Spacing(b, u)
    decreases b - u
  {
    if u * TWO_TO_53 <= a {
      SpacingGrows(a, b, 2 * u);
    } else if u * TWO_TO_53 <= b {
      SpacingIsPositive(b, 2 * u);
    }
  }

  /** A rounded value stays between the two doubles around it. */
  lemma RoundsNearby(v: nat, u: nat)
    requires u == Spacing(v, 1)
    ensures 0 < u && (v / u) * u <= ToNumber(v) <= (v / u + 1) * u
  {
    SpacingIsPositive(v, 1);
    assert (v / u + 1) * u == (v / u) * u + u;
  }

  lemma Cancel(x: int, y: int, u: nat)
    requires x * u < y * u
    ensures x < y
  {}

  lemma Quotient(a: nat, u: nat)
    requires 0 < u
    ensures (a / u) * u <= a < (a / u + 1) * u
    ensures a == (a / u) * u + a % u
  {
    assert a == (a / u) * u + a % u;
    assert (a / u + 1) * u == (a / u) * u + u;
  }

  lemma QuotientGrows(a: nat, b: nat, u: nat)
    requires 0 < u && a <= b
    ensures a / u <= b / u
    ensures a / u == b / u ==> a % u <= b % u
  {
    Quotient(a, u);
    Quotient(b, u);
    Cancel(a / u, b / u + 1, u);
  }

  lemma Scaled(x: int, y: int, u: nat)
    requires x <= y
    ensures x * u <= y * u
  {}

  lemma SameSpacingKeepsOrder(a: nat, b: nat, u: nat)
    requires a <= b && Spacing(a, 1) == u && Spacing(b, 1) == u
    ensures ToNumber(a) <= ToNumber(b)
  {
    RoundsNearby(a, u);
    RoundsNearby(b, u);
    QuotientGrows(a, b, u);
    if a / u < b / u {
      Scaled(a / u + 1, b / u, u);
    }
  }

  lemma QuotientBelow(a: nat, u: nat, n: nat)
    requires 0 < u && a < u * n
    ensures a / u + 1 <= n
  {
    Quotient(a, u);
    Cancel(a / u, n, u);
  }

  lemma QuotientAbove(a: nat, u: nat, n: nat)
    requires 0 < u && u * n <= a
    ensures n <= a / u
  {
    Quotient(a, u);
    Cancel(n, a / u + 1, u);
  }

  /** The last double of one spacing is below the first of the next. */
  lemma WiderSpacingKeepsOrder(a: nat, b: nat, u: nat, w: nat)
    requires a <= b && Spacing(a, 1) == u && Spacing(b, 1) == w && 2 * u <= w
    ensures ToNumber(a) <= ToNumber(b)
  {
    RoundsNearby(a, u);
    RoundsNearby(b, w);
    SpacingFits(a, 1);
    SpacingFits(b, 1);
    QuotientBelow(a, u, TWO_TO_53);
    QuotientAbove(b, w, TWO_TO_52);
    Scaled(a / u + 1, TWO_TO_53, u);
    Scaled(TWO_TO_52, b / w, w);
  }

  /** Rounding keeps order: two times may become equal, but never change places. */
  lemma NumbersKeepOrder(a: nat, b: nat)
    requires a <= b
    ensures ToNumber(a) <= ToNumber(b)
  {
    var u, w := Spacing(a, 1), Spacing(b, 1);
    SpacingGrows(a, b, 1);
    if u == w {
      SameSpacingKeepsOrder(a, b, u);
    } else {
      WiderSpacingKeepsOrder(a, b, u, w);
    }
  }

  function Pow2(k: nat): (p: nat)
    ensures 0 < p
  {
    if k == 0 then 1 else 2 * Pow2(k - 1)
  }

  lemma SpacingIsAPower(v: nat, u: nat, k: nat) returns (j: nat)
    requires u == Pow2(k)
    ensures Spacing(v, u) == Pow2(j) && k <= j
    decreases v - u
  {
    if v < u * TWO_TO_53 {
      j := k;
    } else {
      j := SpacingIsAPower(v, 2 * u, k + 1);
    }
  }

  /** A number of 53 bits, scaled by a power of two, that no other is nearer to v than; of two, the even one. */
  predicate IsNearestDouble(v: nat, x: nat, k: nat, q: nat) {
    var u := Pow2(k);
    && v < u * 9_007_199_254_740_992 && (k == 0 || u * 4_503_599_627_370_496 <= v)
    && x == q * u
    && 2 * x <= 2 * v + u && 2 * v <= 2 * x + u
    && (2 * x == 2 * v + u || 2 * v == 2 * x + u ==> q % 2 == 0)
  }

  lemma RoundsHalfToEven(v: nat, u: nat) returns (q: nat)
    requires u == Spacing(v, 1) && 0 < u
    ensures ToNumber(v) == q * u
    ensures 2 * (q * u) <= 2 * v + u && 2 * v <= 2 * (q * u) + u
    ensures 2 * (q * u) == 2 * v + u || 2 * v == 2 * (q * u) + u ==> q % 2 == 0
  {
    Quotient(v, u);
    var up := (v / u + 1) * u;
    assert up == (v / u) * u + u;
    q := if ToNumber(v) == up then v / u + 1 else v / u;
  }

  /** The conversion is the one of the language: to the nearest double, ties to even. */
  lemma NumbersAreNearest(v: nat)
    ensures exists k, q :: IsNearestDouble(v, ToNumber(v), k, q)
  {
    SpacingIsPositive(v, 1);
    SpacingFits(v, 1);
    var k := SpacingIsAPower(v, 1, 0);
    var q := RoundsHalfToEven(v, Spacing(v, 1));
    assert IsNearestDouble(v, ToNumber(v), k, q);
  }

  datatype EventView = EventView(
    id: u64,
    organizer: Address,
    verifier: Address,
    title: seq<byte>,
    venue: seq<byte>,
    bondAmount: i128,
    capacity: u32,
    reservedCount: u32,
    startTime: nat,
    checkinStart: nat,
    checkinDeadline: nat,
    cancellationDeadline: nat,
    organizerBps: u32,
    communityBps: u32,
    status: EventStatus)

  datatype ReservationView = ReservationView(
    eventId: u64,
    participant: Address,
    amount: i128,
    reservedAt: nat,
    status: ReservationStatus)

  function ToEventView(e: Event): EventView {
    EventView(e.id, e.organizer, e.verifier, e.title, e.venue, e.bondAmount, e.capacity, e.reservedCount,
              ToNumber(e.startTime), ToNumber(e.checkinStart), ToNumber(e.checkinDeadline),
              ToNumber(e.cancellationDeadline), e.organizerBps, e.communityBps, e.status)
  }

  function ToReservationView(r: Reservation): ReservationView {
    ReservationView(r.eventId, r.participant, r.amount, ToNumber(r.reservedAt), r.status)
  }

  // ----- Nothing is lost -----

  predicate IsExact(t: nat) {
    t < 9_007_199_254_740_992
  }

  /** The record a view was made from. */
  function EventOf(v: EventView): Event
    requires IsExact(v.startTime) && IsExact(v.checkinStart) && IsExact(v.checkinDeadline)
    requires IsExact(v.cancellationDeadline)
  {
    Event(
      id := v.id, organizer := v.organizer, verifier := v.verifier, title := v.title, venue := v.venue,
      bondAmount := v.bondAmount, capacity := v.capacity, reservedCount := v.reservedCount, startTime := v.startTime,
      checkinStart := v.checkinStart, checkinDeadline := v.checkinDeadline,
      cancellationDeadline := v.cancellationDeadline, organizerBps := v.organizerBps, communityBps := v.communityBps,
      status := v.status)
  }

  function ReservationOf(v: ReservationView): Reservation
    requires IsExact(v.reservedAt)
  {
    Reservation(eventId := v.eventId, participant := v.participant, amount := v.amount, reservedAt := v.reservedAt,
                status := v.status)
  }

  /** Below 2^53 seconds a view gives its record back, field by field. */
  lemma EventViewLosesNothing(e: Event)
    requires IsExact(e.startTime) && IsExact(e.checkinStart) && IsExact(e.checkinDeadline)
    requires IsExact(e.cancellationDeadline)
    ensures var v := ToEventView(e);
      && IsExact(v.startTime) && IsExact(v.checkinStart) && IsExact(v.checkinDeadline)
      && IsExact(v.cancellationDeadline) && EventOf(v) == e
  {
    SmallNumbersAreExact(e.startTime);
    SmallNumbersAreExact(e.checkinStart);
    SmallNumbersAreExact(e.checkinDeadline);
    SmallNumbersAreExact(e.cancellationDeadline);
  }

  lemma ReservationViewLosesNothing(r: Reservation)
    requires IsExact(r.reservedAt)
    ensures IsExact(ToReservationView(r).reservedAt) && ReservationOf(ToReservationView(r)) == r
  {
    SmallNumbersAreExact(r.reservedAt);
  }
}
