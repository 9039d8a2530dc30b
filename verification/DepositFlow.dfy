/** How a deposit proceeds: the whole flow from any state, what is accepted only in its turn, what never moves it. */
module DepositFlow {
  import opened DepositMachine
  import opened Wrappers

  /** From whatever was before, a new start through a firm quote to the first poll: each step, and all that is kept. */
  lemma WholeFlow(d: Deposit, account: Option<string>, config: AnchorConfig, price: Price, quote: Quote, now: int,
                  ticket: DepositTicket, s: DepositStatus)
    requires ticket.id == s.id != ""
    ensures var discovering := Reduce(d, Start(account));
      var pricing := Reduce(Reduce(discovering, Discovered(config)), Priced(price));
      var authenticating := Reduce(pricing, Authenticate);
      var quoting := Reduce(authenticating, Authenticated);
      var started := Reduce(quoting, Quoted(quote, now));
      var awaiting := Reduce(started, DepositStarted(ticket));
      var polled := Reduce(awaiting, StatusPolled(s));
      && discovering.name == DISCOVERING && pricing.name == PRICING && authenticating.name == AUTHENTICATING
      && quoting.name == QUOTING && started.name == DEPOSIT_STARTED && awaiting.name == AWAITING_BANK_TRANSFER
      && ShouldPoll(started) && ShouldPoll(awaiting) && !ShouldPoll(discovering) && !ShouldPoll(pricing)
      && !ShouldPoll(authenticating) && !ShouldPoll(quoting)
      && Tells(polled.name, s)
      && polled.context == Context(
           Some(config), Some(price), Some(quote), quote.expiresAt <= now, None, Some(ticket), Some(ticket.id), Some(s),
           s.claimableBalanceId, if account.Some? then account else d.context.account,
           if Failing(s) then Some(ServerRejected(s.message)) else None)
  {}

  /** A quote is optional: the flow goes the same way when it is skipped, and when the ticket comes without it. */
  lemma QuoteIsOptional(d: Deposit, ticket: DepositTicket)
    requires d.name == QUOTING
    ensures var skipped := Reduce(d, QuoteSkipped);
      && skipped == d.(name := DEPOSIT_STARTED)
      && Reduce(skipped, DepositStarted(ticket)) == Reduce(d, DepositStarted(ticket))
      && Reduce(d, DepositStarted(ticket)) ==
         Deposit(AWAITING_BANK_TRANSFER, d.context.(ticket := Some(ticket), depositId := Some(ticket.id)))
  {}

  /** A new quote is judged by its own expiry, and a price from an older one is forgotten. */
  lemma QuotesAreFresh(d: Deposit, quote: Quote, now: int)
    requires d.name == QUOTING
    ensures Reduce(d, Quoted(quote, now)) ==
      Deposit(DEPOSIT_STARTED,
              d.context.(quote := Some(quote), quoteExpired := quote.expiresAt <= now, expiredQuotePrice := None))
  {}

  /** Each of these is accepted in its turn only; early or late it changes nothing. */
  lemma OnlyInItsTurn(d: Deposit, config: AnchorConfig, quote: Quote, now: int, ticket: DepositTicket)
    ensures d.name != DISCOVERING ==> Reduce(d, Discovered(config)) == d
    ensures d.name != PRICING ==> Reduce(d, Authenticate) == d
    ensures d.name != AUTHENTICATING ==> Reduce(d, Authenticated) == d
    ensures d.name != QUOTING ==> Reduce(d, Quoted(quote, now)) == d && Reduce(d, QuoteSkipped) == d
    ensures d.name !in {QUOTING, DEPOSIT_STARTED} ==> Reduce(d, DepositStarted(ticket)) == d
    ensures d.name != CLAIM_REQUIRED ==> Reduce(d, Claimed) == d
  {}

  /** Prices and expiry checks warn and never block: they move nothing, and an expired quote is noticed either way. */
  lemma WarningsNeverBlock(d: Deposit, price: Price, quoteId: string, now: int)
    ensures Reduce(d, Priced(price)) == d.(context := d.context.(price := Some(price)))
    ensures Reduce(d, QuoteExpiryChecked(now)) ==
      if d.context.quote.None? then d
      else d.(context := d.context.(quoteExpired := d.context.quote.value.expiresAt <= now))
    ensures Reduce(d, QuoteRepriced(quoteId, price)) ==
      if d.context.quote.Some? && d.context.quote.value.id == quoteId && d.context.quoteExpired
      then d.(context := d.context.(expiredQuotePrice := Some(price))) else d
  {}

  /** A reload takes the deposit up where it was: claimable, or waiting for the bank, and its next poll is told. */
  lemma ResumeReopens(d: Deposit, account: string, config: AnchorConfig, claimable: Option<string>, s: DepositStatus)
    requires s.id != ""
    ensures var resumed := Reduce(d, Resume(account, config, s.id, claimable));
      && (resumed.name == CLAIM_REQUIRED <==> claimable.Some? && claimable.value != "")
      && (resumed.name == AWAITING_BANK_TRANSFER <==> claimable.None? || claimable.value == "")
      && resumed.context == FRESH.(account := Some(account), config := Some(config), depositId := Some(s.id),
                                   claimableBalanceId := claimable)
      && Tells(Reduce(resumed, StatusPolled(s)).name, s)
  {}

  /** How a deposit ends: a claim empties the claimable id, a failure keeps all that was known, a reset forgets it. */
  lemma EndsAreTold(d: Deposit, error: AnchorError)
    ensures d.name == CLAIM_REQUIRED ==>
      Reduce(d, Claimed) == Deposit(COMPLETED, d.context.(claimableBalanceId := None))
    ensures Reduce(d, Failed(error)) == Deposit(ERROR, d.context.(error := Some(error)))
    ensures Reduce(d, Reset) == Deposit(IDLE, FRESH)
    ensures IsTerminalState(Reduce(d, Failed(error))) && !IsTerminalState(Reduce(d, Reset))
    ensures d.name == CLAIM_REQUIRED ==> !IsTerminalState(d) && IsTerminalState(Reduce(d, Claimed))
  {}
}
