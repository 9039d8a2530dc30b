/** The settlement token: checked balances and a transfer that either moves the whole amount or fails. */
module TokenBalances {
  import opened BondTypes
  import opened MapSums
  import opened Wrappers

  /** Token balances are never negative and never exceed a signed 128-bit integer. */
  type Balance = x: int | 0 <= x <= I128_MAX

  type Balances = map<Address, Balance>

  function BalanceOf(b: Balances, a: Address): Balance {
    if a in b then b[a] else 0
  }

  /** A transfer the token may refuse: the amount is negative, the sender short or the receiver full. */
  function Transferred(b: Balances, source: Address, target: Address, amount: i128): Option<Balances> {
    if amount < 0 || BalanceOf(b, source) < amount then None
    else
      var debited := b[source := BalanceOf(b, source) - amount];
      if BalanceOf(debited, target) + amount > I128_MAX then None
      else Some(debited[target := BalanceOf(debited, target) + amount])
  }

  /** One outgoing payment. */
  datatype Leg = Leg(target: Address, amount: i128)

  /** Several payments from one account, all of them or none. */
  function PaidOut(b: Balances, source: Address, legs: seq<Leg>): Option<Balances>
    decreases |legs|
  {
    if legs == [] then Some(b)
    else
      match Transferred(b, source, legs[0].target, legs[0].amount)
      case None => None
      case Some(b') => PaidOut(b', source, legs[1..])
  }

  /** What one payment adds to an account, seen from outside. */
  function LegFlow(source: Address, leg: Leg, a: Address): int {
    (if a == leg.target then leg.amount else 0) - (if a == source then leg.amount else 0)
  }

  function LegsFlow(source: Address, legs: seq<Leg>, a: Address): int {
    if legs == [] then 0 else LegFlow(source, legs[0], a) + LegsFlow(source, legs[1..], a)
  }

  ghost function Supply(b: Balances): int {
    Sum(b)
  }

  /** A transfer keeps the supply and changes balances by exactly its flow. */
  lemma TransferMoves(b: Balances, source: Address, target: Address, amount: i128)
    requires Transferred(b, source, target, amount).Some?
    ensures var b' := Transferred(b, source, target, amount).value;
      && Supply(b') == Supply(b)
      && (forall a: Address :: BalanceOf(b', a) == BalanceOf(b, a) + LegFlow(source, Leg(target, amount), a))
  {
    SumPut(b, source, BalanceOf(b, source) - amount);
    var debited := b[source := BalanceOf(b, source) - amount];
    SumPut(debited, target, BalanceOf(debited, target) + amount);
  }

  /** A run of payments keeps the supply and changes balances by exactly its flow. */
  lemma {:induction false} PaidOutMoves(b: Balances, source: Address, legs: seq<Leg>)
    requires PaidOut(b, source, legs).Some?
    ensures var b' := PaidOut(b, source, legs).value;
      && Supply(b') == Supply(b)
      && (forall a: Address :: BalanceOf(b', a) == BalanceOf(b, a) + LegsFlow(source, legs, a))
    decreases |legs|
  {
    if legs != [] {
      TransferMoves(b, source, legs[0].target, legs[0].amount);
      PaidOutMoves(Transferred(b, source, legs[0].target, legs[0].amount).value, source, legs[1..]);
    }
  }

  /** While the supply fits the token's integer, a covered payment cannot be refused. */
  lemma CoveredTransferSucceeds(b: Balances, source: Address, target: Address, amount: i128)
    requires Supply(b) <= I128_MAX
    requires 0 <= amount <= BalanceOf(b, source)
    ensures Transferred(b, source, target, amount).Some?
  {
    if source in b && target in b {
      SumBounds(b, source, target);
    }
  }

  /** One payment. */
  lemma OneLeg(b: Balances, source: Address, leg: Leg)
    ensures PaidOut(b, source, [leg]) == Transferred(b, source, leg.target, leg.amount)
  {
    match Transferred(b, source, leg.target, leg.amount)
    case None =>
    case Some(b') => assert PaidOut(b', source, [leg][1..]) == Some(b');
  }

  /** Two payments, one after the other. */
  lemma TwoLegs(b: Balances, source: Address, legs: seq<Leg>)
    requires |legs| == 2
    ensures PaidOut(b, source, legs) ==
      match Transferred(b, source, legs[0].target, legs[0].amount)
      case None => None
      case Some(b') => Transferred(b', source, legs[1].target, legs[1].amount)
  {
    assert legs[1..] == [legs[1]];
    match Transferred(b, source, legs[0].target, legs[0].amount)
    case None =>
    case Some(b') =>
      OneLeg(b', source, legs[1]);
  }
}
