/** The deposit flow as a reducer over racing actions, and what every sequence of actions keeps. */
module DepositMachine {
  import opened Wrappers

  /** Records the reducer only carries around: their contents decide nothing. */
  type AnchorConfig = string
  type Price = string

  datatype Quote = Quote(id: string, price: Price, expiresAt: int)

  datatype DepositTicket = DepositTicket(id: string, instructions: string)

  datatype StatusCode =
    | Incomplete
    | PendingUserTransferStart
    | PendingUserTransferComplete
    | PendingExternal
    | PendingAnchor
    | PendingStellar
    | PendingTrust
    | PendingCustomerInfoUpdate
    | StatusCompleted
    | StatusRefunded
    | StatusExpired
    | StatusError
    | Unknown

  datatype DepositStatus = DepositStatus(
    id: string, code: StatusCode, treasuryLow: bool, claimableBalanceId: Option<string>, message: Option<string>)

  datatype AnchorError = Reported(description: string) | ServerRejected(serverMessage: Option<string>)

  datatype StateName =
    | IDLE
    | DISCOVERING
    | PRICING
    | AUTHENTICATING
    | QUOTING
    | DEPOSIT_STARTED
    | AWAITING_BANK_TRANSFER
    | ANCHOR_PROCESSING
    | TREASURY_LOW
    | COMPLETED
    | CLAIM_REQUIRED
    | ERROR

  datatype Context = Context(
    config: Option<AnchorConfig>,
    price: Option<Price>,
    quote: Option<Quote>,
    quoteExpired: bool,
    expiredQuotePrice: Option<Price>,
    ticket: Option<DepositTicket>,
    depositId: Option<string>,
    status: Option<DepositStatus>,
    claimableBalanceId: Option<string>,
    account: Option<string>,
    error: Option<AnchorError>)

  datatype Deposit = Deposit(name: StateName, context: Context)

  datatype Action =
    | Start(account: Option<string>)
    | Resume(resumed: string, config: AnchorConfig, depositId: string, claimableBalanceId: Option<string>)
    | Discovered(discovered: AnchorConfig)
    | Priced(price: Price)
    | Authenticate
    | Authenticated
    | Quoted(quote: Quote, nowSeconds: int)
    | QuoteExpiryChecked(at: int)
    | QuoteRepriced(quoteId: string, newPrice: Price)
    | QuoteSkipped
    | DepositStarted(ticket: DepositTicket)
    | StatusPolled(status: DepositStatus)
    | Claimed
    | Failed(error: AnchorError)
    | Reset

  const FRESH: Context := Context(None, None, None, false, None, None, None, None, None, None, None)

  const INITIAL: Deposit := Deposit(IDLE, FRESH)

  /** An optional string counts as present only when it is not empty. */
  predicate Present(s: Option<string>) {
    s.Some? && s.value != ""
  }

  predicate IsTerminalState(d: Deposit) {
    d.name == COMPLETED || d.name == ERROR
  }

  predicate ShouldPoll(d: Deposit) {
    || d.name == DEPOSIT_STARTED
    || d.name == AWAITING_BANK_TRANSFER
    || d.name == ANCHOR_PROCESSING
    || d.name == TREASURY_LOW
  }

  predicate NeedsClaim(s: DepositStatus) {
    s.code == PendingTrust || (s.code == StatusCompleted && Present(s.claimableBalanceId))
  }

  function StateForStatus(s: DepositStatus): StateName {
    if s.code == StatusError || s.code == StatusRefunded || s.code == StatusExpired then ERROR
    else if s.treasuryLow then TREASURY_LOW
    else if NeedsClaim(s) then CLAIM_REQUIRED
    else if s.code == StatusCompleted then COMPLETED
    else if s.code == PendingUserTransferStart || s.code == Incomplete then AWAITING_BANK_TRANSFER
    else ANCHOR_PROCESSING
  }

  predicate IsQuoteExpired(q: Quote, nowSeconds: int) {
    q.expiresAt <= nowSeconds
  }

  predicate TakesPolls(name: StateName) {
    || name == AWAITING_BANK_TRANSFER
    || name == ANCHOR_PROCESSING
    || name == TREASURY_LOW
    || name == CLAIM_REQUIRED
  }

  predicate AcceptsPoll(d: Deposit, s: DepositStatus) {
    TakesPolls(d.name) && Present(d.context.depositId) && d.context.depositId.value == s.id
  }

  function Polled(d: Deposit, s: DepositStatus): Deposit {
    if !AcceptsPoll(d, s) then d
    else
      var next := StateForStatus(s);
      var claimable := if s.claimableBalanceId.Some? then s.claimableBalanceId else d.context.claimableBalanceId;
      var context := d.context.(status := Some(s), claimableBalanceId := claimable);
      if next == ERROR then Deposit(ERROR, context.(error := Some(ServerRejected(s.message))))
      else Deposit(next, context)
  }

  function Reduce(d: Deposit, a: Action): Deposit {
    match a
    case Reset => INITIAL
    case Failed(error) => Deposit(ERROR, d.context.(error := Some(error)))
    case Start(account) =>
      Deposit(DISCOVERING, FRESH.(account := if account.Some? then account else d.context.account))
    case Resume(account, config, depositId, claimable) =>
      Deposit(if Present(claimable) then CLAIM_REQUIRED else AWAITING_BANK_TRANSFER,
              FRESH.(account := Some(account), config := Some(config), depositId := Some(depositId),
                     claimableBalanceId := claimable))
    case Discovered(config) =>
      if d.name != DISCOVERING then d else Deposit(PRICING, d.context.(config := Some(config)))
    case Priced(price) => d.(context := d.context.(price := Some(price)))
    case Authenticate => if d.name != PRICING then d else d.(name := AUTHENTICATING)
    case Authenticated => if d.name != AUTHENTICATING then d else d.(name := QUOTING)
    case Quoted(quote, now) =>
      if d.name != QUOTING then d
      else Deposit(DEPOSIT_STARTED, d.context.(quote := Some(quote), quoteExpired := IsQuoteExpired(quote, now),
                                               expiredQuotePrice := None))
    case QuoteExpiryChecked(now) =>
      if d.context.quote.None? || IsQuoteExpired(d.context.quote.value, now) == d.context.quoteExpired then d
      else d.(context := d.context.(quoteExpired := IsQuoteExpired(d.context.quote.value, now)))
    case QuoteRepriced(quoteId, price) =>
      if !d.context.quoteExpired || d.context.quote.None? || d.context.quote.value.id != quoteId then d
      else d.(context := d.context.(expiredQuotePrice := Some(price)))
    case QuoteSkipped => if d.name != QUOTING then d else d.(name := DEPOSIT_STARTED)
    case DepositStarted(ticket) =>
      if d.name != DEPOSIT_STARTED && d.name != QUOTING then d
      else Deposit(AWAITING_BANK_TRANSFER, d.context.(ticket := Some(ticket), depositId := Some(ticket.id)))
    case StatusPolled(s) => Polled(d, s)
    case Claimed =>
      if d.name != CLAIM_REQUIRED then d
      else Deposit(COMPLETED, d.context.(claimableBalanceId := None))
  }

  function Run(d: Deposit, actions: seq<Action>): Deposit
    decreases |actions|
  {
    if actions == [] then d else Run(Reduce(d, actions[0]), actions[1..])
  }

  // ----- The invariant -----

  /** Before a deposit is open. */
  predicate PreOpen(name: StateName) {
    || name == IDLE || name == DISCOVERING || name == PRICING
    || name == AUTHENTICATING || name == QUOTING || name == DEPOSIT_STARTED
  }

  /** While a deposit is open or delivered. */
  predicate PostOpen(name: StateName) {
    TakesPolls(name) || name == COMPLETED
  }

  /** The anchor gave up, and returns what it received. */
  predicate Failing(s: DepositStatus) {
    s.code in {StatusError, StatusRefunded, StatusExpired}
  }

  /** The user still has to send the bank transfer. */
  predicate OwesTransfer(s: DepositStatus) {
    s.code in {Incomplete, PendingUserTransferStart}
  }

  /** The transfer was received and the anchor works on it, in a way known or not. */
  predicate InAnchorsHands(s: DepositStatus) {
    s.code in {PendingUserTransferComplete, PendingExternal, PendingAnchor, PendingStellar, PendingCustomerInfoUpdate,
               Unknown}
  }

  /** The money waits to be claimed by the user. */
  predicate Claimable(s: DepositStatus) {
    || s.code == PendingTrust
    || (s.code == StatusCompleted && s.claimableBalanceId.Some? && s.claimableBalanceId.value != "")
  }

  predicate Delivered(s: DepositStatus) {
    s.code == StatusCompleted && (s.claimableBalanceId.None? || s.claimableBalanceId.value == "")
  }

  /** A state tells the user exactly what a status says; an empty treasury is told before all but a failure. */
  predicate Tells(name: StateName, s: DepositStatus) {
    && (name == ERROR <==> Failing(s))
    && (name == TREASURY_LOW <==> s.treasuryLow && !Failing(s))
    && (name == AWAITING_BANK_TRANSFER <==> !s.treasuryLow && OwesTransfer(s))
    && (name == ANCHOR_PROCESSING <==> !s.treasuryLow && InAnchorsHands(s))
    && (name == CLAIM_REQUIRED <==> !s.treasuryLow && Claimable(s))
    && (name == COMPLETED <==> !s.treasuryLow && Delivered(s))
  }

  ghost predicate Inv(d: Deposit) {
    var c := d.context;
    && (c.error.Some? <==> d.name == ERROR)
    && (PostOpen(d.name) ==> c.depositId.Some?)
    && (c.status.Some? ==> c.depositId == Some(c.status.value.id))
    && (c.ticket.Some? ==> c.depositId == Some(c.ticket.value.id))
    && (PreOpen(d.name) ==> c.ticket.None? && c.depositId.None? && c.status.None? && c.claimableBalanceId.None?)
    && (d.name != COMPLETED && d.name != ERROR && c.status.Some? ==> Tells(d.name, c.status.value))
    && (c.status.Some? && Failing(c.status.value) ==> d.name == ERROR)
    && (d.name == CLAIM_REQUIRED ==> c.status.Some? || Present(c.claimableBalanceId))
    && (d.name == TREASURY_LOW || d.name == ANCHOR_PROCESSING ==> c.status.Some?)
    && (d.name == COMPLETED && c.status.Some? ==>
          Tells(COMPLETED, c.status.value) || (Tells(CLAIM_REQUIRED, c.status.value) && c.claimableBalanceId.None?))
  }

  lemma ReduceKeepsInv(d: Deposit, a: Action)
    requires Inv(d)
    ensures Inv(Reduce(d, a))
  {}

  /** Over every sequence of actions, racing and stale ones included, what the state says about itself is true. */
  lemma {:induction false} RunKeepsInv(d: Deposit, actions: seq<Action>)
    requires Inv(d)
    ensures Inv(Run(d, actions))
    decreases |actions|
  {
    if actions != [] {
      ReduceKeepsInv(d, actions[0]);
      RunKeepsInv(Reduce(d, actions[0]), actions[1..]);
    }
  }

  lemma ReachableIsSound(actions: seq<Action>)
    ensures Inv(Run(INITIAL, actions))
  {
    RunKeepsInv(INITIAL, actions);
  }

  /**
   A poll of the open deposit, in whatever open state it arrives: the next state tells what the status says, the status
   is kept, a claimable id it carries replaces the older one, and a failure is explained by the anchor's own message.
   */
  lemma PollIsTold(d: Deposit, s: DepositStatus)
    requires d.name in {AWAITING_BANK_TRANSFER, ANCHOR_PROCESSING, TREASURY_LOW, CLAIM_REQUIRED}
    requires d.context.depositId == Some(s.id) && s.id != ""
    ensures var d' := Reduce(d, StatusPolled(s));
      && Tells(d'.name, s)
      && (IsTerminalState(d') <==> Failing(s) || (!s.treasuryLow && Delivered(s)))
      && d'.context == d.context.(
           status := Some(s),
           claimableBalanceId :=
             if s.claimableBalanceId.Some? then s.claimableBalanceId else d.context.claimableBalanceId,
           error := if Failing(s) then Some(ServerRejected(s.message)) else d.context.error)
  {}

  /** The page goes on polling exactly while the last status leaves something to the anchor or the bank. */
  lemma PollsWhileUnsettled(d: Deposit)
    requires Inv(d) && PostOpen(d.name) && d.name != COMPLETED && d.context.status.Some?
    ensures var s := d.context.status.value;
      ShouldPoll(d) <==> s.treasuryLow || OwesTransfer(s) || InAnchorsHands(s)
  {}

  /** Before the wallet has signed in, or after a failure. */
  predicate SignedOut(name: StateName) {
    name == IDLE || name == DISCOVERING || name == PRICING || name == AUTHENTICATING || name == ERROR
  }

  /** No shortcut: from a signed-out state nothing but signing in, or resuming, gets to a quote or a deposit. */
  lemma {:induction false} NothingOpensWithoutSigningIn(d: Deposit, actions: seq<Action>)
    requires SignedOut(d.name) && forall a :: a in actions ==> !a.Resume? && a != Authenticated
    ensures SignedOut(Run(d, actions).name)
    decreases |actions|
  {
    if actions != [] {
      assert actions[0] in actions;
      assert forall a :: a in actions[1..] ==> a in actions;
      NothingOpensWithoutSigningIn(Reduce(d, actions[0]), actions[1..]);
    }
  }

  /** And only a ticket, or resuming, opens a deposit. */
  lemma {:induction false} NothingOpensWithoutATicket(d: Deposit, actions: seq<Action>)
    requires Inv(d) && !PostOpen(d.name) && forall a :: a in actions ==> !a.Resume? && !a.DepositStarted?
    ensures !PostOpen(Run(d, actions).name)
    decreases |actions|
  {
    if actions != [] {
      assert actions[0] in actions;
      assert forall a :: a in actions[1..] ==> a in actions;
      ReduceKeepsInv(d, actions[0]);
      NothingOpensWithoutATicket(Reduce(d, actions[0]), actions[1..]);
    }
  }

  /** A deposit is called completed only when it was delivered: by a poll that says so, or by a claim that was due. */
  lemma CompletedOnlyWhenDelivered(d: Deposit, a: Action)
    requires Inv(d) && d.name != COMPLETED && Reduce(d, a).name == COMPLETED
    ensures (a == Claimed && d.name == CLAIM_REQUIRED)
         || (&& a.StatusPolled? && TakesPolls(d.name) && d.context.depositId == Some(a.status.id)
             && a.status.code == StatusCompleted && !Present(a.status.claimableBalanceId) && !a.status.treasuryLow)
  {}

  /** The actions that begin or end a deposit on the user's side. */
  predicate Restarts(a: Action) {
    a.Start? || a.Resume? || a.Reset?
  }

  lemma OpenStepKeepsId(d: Deposit, a: Action)
    requires Inv(d) && !PreOpen(d.name) && !Restarts(a)
    ensures !PreOpen(Reduce(d, a).name)
    ensures Reduce(d, a).context.depositId == d.context.depositId
    ensures Reduce(d, a).context.ticket == d.context.ticket
    ensures IsTerminalState(d) && !a.Failed? ==> Reduce(d, a).name == d.name
  {}

  /**
   An open deposit keeps its id and its ticket whatever arrives, until the user starts over; no late ticket, quote or
   poll of another deposit replaces it.
   */
  lemma {:induction false} OpenDepositKeepsItsId(d: Deposit, actions: seq<Action>)
    requires Inv(d) && !PreOpen(d.name) && forall a :: a in actions ==> !Restarts(a)
    ensures Run(d, actions).context.depositId == d.context.depositId
    ensures Run(d, actions).context.ticket == d.context.ticket
    ensures IsTerminalState(d) && (forall a :: a in actions ==> !a.Failed?) ==> Run(d, actions).name == d.name
    decreases |actions|
  {
    if actions != [] {
      assert actions[0] in actions;
      assert forall a :: a in actions[1..] ==> a in actions;
      OpenStepKeepsId(d, actions[0]);
      ReduceKeepsInv(d, actions[0]);
      OpenDepositKeepsItsId(Reduce(d, actions[0]), actions[1..]);
    }
  }

  /** A poll that was sent for a deposit the user has since left changes nothing. */
  lemma StalePollIsIgnored(d: Deposit, s: DepositStatus)
    requires Inv(d) && (PreOpen(d.name) || IsTerminalState(d) || d.context.depositId != Some(s.id))
    ensures Reduce(d, StatusPolled(s)) == d
  {}

  /**
   Completed does not mean that no claimable id is left: an older one survives the poll exactly when the poll itself
   carries none.
   */
  lemma WhenCompletedKeepsAClaimableId(d: Deposit, s: DepositStatus)
    requires Inv(d) && AcceptsPoll(d, s) && !s.treasuryLow && Delivered(s)
    ensures Reduce(d, StatusPolled(s)).name == COMPLETED
    ensures Present(Reduce(d, StatusPolled(s)).context.claimableBalanceId) <==>
            s.claimableBalanceId.None? && Present(d.context.claimableBalanceId)
  {}

  lemma CompletedCanKeepAClaimableId() returns (actions: seq<Action>)
    ensures Run(INITIAL, actions).name == COMPLETED && Present(Run(INITIAL, actions).context.claimableBalanceId)
  {
    var resume := Resume("G", "anchor", "deposit", Some("balance"));
    var poll := StatusPolled(DepositStatus("deposit", StatusCompleted, false, None, None));
    actions := [resume, poll];
    assert actions[1..] == [poll] && [poll][1..] == [];
    assert Run(Reduce(INITIAL, resume), [poll]) == Run(Reduce(Reduce(INITIAL, resume), poll), []);
  }
}
