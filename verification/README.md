# ShowUp: a verified model

ShowUp takes a refundable bond for a seat at an event. A Soroban contract holds every bond in its own
account: attending, cancelling in time and a cancelled event return it, a no-show is split between the
organizer and a community pool. The web application has no database. It rebuilds what it shows from the
contract's storage and its published log, and funds accounts through an anchor's deposit flow.

This project models those parts in Dafny and proves what they promise.

- **The contract** is stated twice. `BondContract` is the imperative form: a token ledger, a keyed storage
  and the contract, whose methods write storage, move tokens and undo both when a transfer fails.
  `BondSpec` is the same as a function from state and call to outcome. Every method is proved to answer
  and to leave exactly what the function says, so the theorems about the function are theorems about
  the methods. `Exec` runs any sequence of calls by anyone, with clock ticks and token transfers, mints
  and burns made around the contract in between.
- **Whole-run theorems** stand on that: soundness and solvency (`BondInvariant`), the log as a complete
  account of storage and money (`BondHistory`, `BondReplay`), every entry point's exact answers (`BondAnswers`), order independence (`BondOrder`), no stranded
  bonds and separate windows (`BondRelease`, `BondDrain`), kept terms and consent (`BondTerms`), dependence on the organizer
  (`BondOrganizer`). `BondExamples` reaches, by calls from
  deployment, the states in which a claim fails.
- **The application's readings** are proved against the contract model: views and predictions (`Views`,
  `Eligibility`), the participant list (`EventIndex`, `EventListing`), the event list (`Enumeration`), and the amount
  arithmetic (`Amounts`).
- **The rest**: the deposit reducer and its polling loop (`DepositMachine`, `DepositFlow`, `DepositPolling`), calendar
  text (`Calendar`) and the token cache (`TokenCache`).

`Wrappers` and `MapSums` are small helpers, `BondTypes` and `TokenBalances` the contract's vocabulary.
`dafny verify dfyconfig.toml` checks the whole project.

## Where code and claims part

- docs/architecture/SYSTEM.md:600 says settlement does not depend on the organizer. It can. Some run the organizer signs
  nothing of releases a Locked bond, unless no unsigned call ever will (its split overflows a signed 128-bit integer, its
  deadline is the last representable second, or the organizer's own account is too full) and its participant can no
  longer cancel, or is the organizer: `BondOrganizer.ReleaseDependsOnOrganizer` is that condition, for any supply.
  `BondExamples.SettlementCanOverflow` and `BondExamples.DeadlineCanBeTheLastInstant` reach bonds that stay Locked in every
  run the organizer keeps out of.
- docs/architecture/SYSTEM.md:806 says one bad destination can never block anyone else. For refunds this holds
  (`BondRelease.RefundWaitsOnlyForItsOwner`). A full pool or organizer account, however, holds up every settlement that
  pays it (`BondRelease.SettlementWaitsOnlyForItsReceivers`, reached in `BondExamples.FullPoolHoldsUpEverybody`).
- The order of permissionless calls can matter when a receiver's account is almost full. All orders agree if and only if
  the calls whose legs fit alone fit together (`BondOrder.OrderDoesNotMatter`); a reachable state where they do not is
  `BondExamples.OrderMattersWhenThePoolIsNearlyFull`. While the supply fits the token's integer they always fit
  (`BondOrder.RoomForAll`).
- A provider that ends a page early can make `historyComplete` true for an incomplete list. Such a list is exact if and
  only if no lock of the event is behind the page the reader stopped at (`EventIndex.CompleteUnlessALockIsCutOff`), which
  can happen (`EventIndex.ShortPageHidesAReservation`).
- Times are turned into doubles. A prediction is wrong if and only if everything but the time allows the call and the
  clock and the bound it is held against are different seconds and one double, on the side `Eligibility.WhenReservingIsPredicted` and
  `Eligibility.WhenReleaseIsPredicted` name. Reachable states show a late cancellation and a late check-in that are
  offered, a settlement that is withheld (`Eligibility.LateOffersHappen`), a reservation that is withheld and an early
  check-in that is offered (`Eligibility.EarlyOffersHappen`). Below 2^53 seconds none of this happens.
- A completed deposit may keep an older claimable id (`DepositMachine.WhenCompletedKeepsAClaimableId`), and a `completed` or
  `pending_trust` status with the treasury low ends the polling loop while the machine keeps waiting
  (`DepositPolling.StopsTogether`).
- docs/architecture/SYSTEM.md:958-962 draws the claim step after COMPLETED; the reducer goes to CLAIM_REQUIRED directly.
- A token key stands for another pair too if and only if its address or its domain contains a NUL character
  (`TokenCache.WhenAKeyIsAmbiguous`).

## Model

| member | source | states |
|---|---|---|
| BondContract.TokenLedger.Transfer | contracts/showup-bond/src/lib.rs:146-150 | A transfer moves the whole amount, or is refused and moves nothing |
| BondContract.Storage.SetEvent | contracts/showup-bond/src/storage.rs:67-71 | An event is written under its own id and nothing else changes |
| BondContract.Storage.SetReservation | contracts/showup-bond/src/storage.rs:87-91 | A reservation is written under its event id and participant and nothing else changes |
| BondContract.ShowUpBond.constructor | contracts/showup-bond/src/lib.rs:28-37 | Deployment leaves the initial state, with this configuration |
| BondContract.ShowUpBond.CreateEvent | contracts/showup-bond/src/lib.rs:40-112 | The answer, every error in its place, and the whole new state are those of the specification; the returned id is the next one |
| BondContract.ShowUpBond.Reserve | contracts/showup-bond/src/lib.rs:114-160 | Same; a refused transfer undoes the seat and the count |
| BondContract.ShowUpBond.CancelReservation | contracts/showup-bond/src/lib.rs:162-200 | Same, for a participant's own cancellation |
| BondContract.ShowUpBond.CheckIn | contracts/showup-bond/src/lib.rs:202-241 | Same; the verifier is the one in storage |
| BondContract.ShowUpBond.CancelEvent | contracts/showup-bond/src/lib.rs:243-260 | Same; only the status is written |
| BondContract.ShowUpBond.ClaimCancelledEventRefund | contracts/showup-bond/src/lib.rs:262-296 | Same, without any signature |
| BondContract.ShowUpBond.CheckedSplit | contracts/showup-bond/src/lib.rs:313-322 | The split exists exactly when no checked operation leaves a signed 128-bit integer |
| BondContract.ShowUpBond.PaySplit | contracts/showup-bond/src/lib.rs:327-338 | Both transfers happen or neither: a failure of the second undoes the first |
| BondContract.ShowUpBond.SettleNoShow | contracts/showup-bond/src/lib.rs:298-349 | The answer and the whole new state are those of the specification, without any signature |
| TokenBalances.PaidOutMoves | contracts/showup-bond/src/lib.rs:329-338 | A run of payments keeps the supply and moves exactly its amounts |
| BondAnswers.CreateFinishesExactly | contracts/showup-bond/src/lib.rs:54-98 | A creation finishes if and only if it is signed, an id is left, what it would store is sound, and title and venue have at most 96 and 160 bytes |
| BondAnswers.CreateAnswers | contracts/showup-bond/src/lib.rs:54-81 | Which error each failing condition of a creation gives, and in which order they count |
| BondAnswers.CancelEventAnswers | contracts/showup-bond/src/lib.rs:243-248 | In every sound state an event's cancellation finishes for its organizer while it is active; otherwise which error or abort |
| BondAnswers.ReserveAnswers | contracts/showup-bond/src/lib.rs:115-150 | In every sound state the answer to a reservation by signatures, clock, seats held, earlier reservation and the two balances; no overflow error is possible |
| BondAnswers.ReserveFinishesExactly | contracts/showup-bond/src/lib.rs:115-150 | A participant's own reservation finishes if and only if the event is active, check-in has not closed, a seat is free for him, he holds the bond and the contract has room |
| BondAnswers.CancelReservationAnswers | contracts/showup-bond/src/lib.rs:163-190 | In every sound state the answer to a participant's cancellation; it waits for nothing but room in his account |
| BondAnswers.CancelReservationPays | contracts/showup-bond/src/lib.rs:179-190 | A finished one pays the whole bond, frees one seat and marks the record |
| BondAnswers.CheckInAnswers | contracts/showup-bond/src/lib.rs:203-231 | In every sound state the answer to a check-in: the verifier's signature is enough, the window bounds are inclusive, the participant needs room |
| BondAnswers.CheckInPays | contracts/showup-bond/src/lib.rs:223-231 | A finished one pays the whole bond, marks the record and changes no event |
| BondAnswers.ClaimAnswers | contracts/showup-bond/src/lib.rs:267-286 | In every sound state the answer to a claim, whoever calls |
| BondAnswers.SettleAnswers | contracts/showup-bond/src/lib.rs:299-338 | In every sound state the answer to a settlement, whoever calls: the split's overflow and the receivers' room included, one receiver or two |
| BondInvariant.ShareBounds | contracts/showup-bond/src/lib.rs:313-322 | The organizer's share lies between zero and the bond and is the exact product rounded down |
| BondInvariant.SettleVerdictOnSound | contracts/showup-bond/src/lib.rs:306-322 | Of the three checked operations only the multiplication can ever overflow on a stored reservation |
| BondInvariant.RunKeepsInv | contracts/showup-bond/src/lib.rs:40-349 | Every run keeps dense ids, sound records, matching seat counts and solvency |
| BondInvariant.CustodyIsExact | contracts/showup-bond/src/lib.rs:114-349 | Over every run the contract's balance is the Locked bonds, plus its earlier surplus, plus what was sent to it: nothing less, nothing more |
| BondInvariant.SolvencyFromDeployment | contracts/showup-bond/src/lib.rs:28-349 | The same, from deployment |
| BondInvariant.EntryPointsKeepSupply | contracts/showup-bond/src/lib.rs:114-349 | No entry point creates or destroys tokens |
| BondInvariant.CountNeverOverflows | contracts/showup-bond/src/lib.rs:133-179 | A Locked reservation holds a seat, so neither counter overflow is reachable |
| BondInvariant.SeatAccounting | contracts/showup-bond/src/lib.rs:126-183 | In every reachable state the count is the number of reservations that are not cancelled, at most the capacity |
| BondInvariant.IdsAreDense | contracts/showup-bond/src/lib.rs:79-101 | In every reachable state an event is stored at k exactly when 1 <= k <= count, under its own id |
| BondHistory.CallTells | contracts/showup-bond/src/lib.rs:103-346 | A finished call appends exactly one entry, and it continues the story of the one record it wrote |
| BondHistory.RunKeepsChronicle | contracts/showup-bond/src/lib.rs:103-346 | In every reachable state the log tells storage's stories, and an event's creation precedes everything about it |
| BondHistory.ExactlyOnce | contracts/showup-bond/src/lib.rs:129-346 | A reservation's history is empty, one lock, or a lock and the one release its status names, which pays exactly the locked amount |
| BondHistory.LogExplainsEveryBalance | contracts/showup-bond/src/lib.rs:142-346 | Every account's balance is its start, what moved outside, and what the published entries paid or took |
| BondHistory.RunEvolves | docs/architecture/SYSTEM.md:505-545 | Over every run an event keeps its terms, a cancelled one stays cancelled, and a closed reservation is never written again |
| BondReplay.ReplayRefinesStorage | contracts/showup-bond/src/events.rs:3-72 | Folding the log from nothing reproduces every event's terms, count and status, every reservation's amount and status, and custody |
| BondOrder.AffordablePayments | contracts/showup-bond/src/lib.rs:327-338 | A sender who can afford all payments fails exactly on a full receiver, in any order |
| BondOrder.PaymentsCommute | contracts/showup-bond/src/lib.rs:327-338 | Two runs of affordable payments end in the same balances either way, whoever the receivers are |
| BondOrder.CallsCommute | contracts/showup-bond/src/lib.rs:262-349 | Two permissionless calls commute, same storage and same balances, if and only if it is not so that there is room for either bond alone and not for both |
| BondOrder.OrderDoesNotMatter | contracts/showup-bond/src/lib.rs:262-349 | All orders of any permissionless calls, refused and repeated ones included, give the same storage and balances if and only if the calls whose legs fit alone fit together; organizer, pool and participants may coincide |
| BondOrder.RoomForAll | contracts/showup-bond/src/lib.rs:262-349 | They do while the supply fits the token's integer, and whenever one order was seen to go through |
| BondOrder.RoomyRunsReorder | contracts/showup-bond/src/lib.rs:262-349 | Then every other order leaves the same books, and goes through if the first did |
| BondExamples.OrderMattersWhenThePoolIsNearlyFull | contracts/showup-bond/src/lib.rs:327-338 | A state reached from deployment where two due settlements do not commute |
| BondExamples.FullPoolHoldsUpEverybody | docs/architecture/SYSTEM.md:801-806 | A state reached from deployment where a full pool aborts the due settlements of two participants, whoever calls |
| BondExamples.SettlementCanOverflow | contracts/showup-bond/src/lib.rs:313-317 | A state reached from deployment where a settlement past the deadline is refused with Overflow, whoever calls, and no run without the organizer's signature releases the bond |
| BondExamples.DeadlineCanBeTheLastInstant | contracts/showup-bond/src/lib.rs:309-311 | A state reached from deployment whose bond is too early to settle at every time, and which no run without the organizer's signature releases |
| BondRelease.CancelledEventAlwaysRefunds | contracts/showup-bond/src/lib.rs:262-296 | While the supply fits the token's integer a Locked bond on a cancelled event is refunded in full to its participant, whoever calls |
| BondRelease.NoShowSettlesExactlyWhenItFits | contracts/showup-bond/src/lib.rs:298-349 | With such a supply anyone's settlement past the deadline goes through exactly when the product fits the integer |
| BondRelease.RefundWaitsOnlyForItsOwner | docs/architecture/SYSTEM.md:801-806 | A due refund goes through exactly when its own participant's account has room |
| BondRelease.SettlementWaitsOnlyForItsReceivers | contracts/showup-bond/src/lib.rs:327-338 | A due settlement goes through exactly when organizer and pool have room |
| BondRelease.OrganizerUnblocks | contracts/showup-bond/src/lib.rs:243-260 | The organizer can always cancel an active event, which turns its Locked bonds into refunds and moves nothing |
| BondRelease.NoStrandedBond | contracts/showup-bond/src/lib.rs:243-349 | From every sound state with such a supply some run empties custody, at once or one second after the deadline of some Locked bond, without signatures if no bond needs its organizer |
| BondRelease.EmptiesOnceRipe | contracts/showup-bond/src/lib.rs:243-349 | From the first moment at which no Locked bond is early, without any further waiting |
| BondRelease.EmptiesWithoutSignatures | contracts/showup-bond/src/lib.rs:262-349 | With such a supply custody empties without any signature if and only if every Locked bond is on a cancelled event or has a split that fits and a deadline the clock can pass |
| BondDrain.DrainsExactlyWhenAllFit | contracts/showup-bond/src/lib.rs:262-349 | For any supply custody empties without any signature if and only if at the last instant every Locked bond's release is due and has room alone, and all have room together |
| BondOrganizer.ReleaseDependsOnOrganizer | docs/architecture/SYSTEM.md:593-603 | For any supply some run the organizer signs nothing of releases a Locked bond, if and only if an unsigned release can become due and finds room in the organizer's account, or the event is active, cancelling is open and the participant is not the organizer |
| BondOrganizer.WaitsThroughEveryRun | docs/architecture/SYSTEM.md:593-603 | A bond for which that fails stays Locked through every run the organizer signs nothing of |
| BondRelease.WindowsAreSeparate | contracts/showup-bond/src/lib.rs:162-349 | At most one way out is open, except cancelling and checking in at the instant that is both deadline and start |
| BondRelease.ReservedBeforeCheckInEnds | contracts/showup-bond/src/lib.rs:122-125 | Every reservation was made before some check-in instant |
| BondTerms.PublishedTermsHold | contracts/showup-bond/src/lib.rs:79-101 | Every argument of a creation is stored under the next id and stays so over every run |
| BondTerms.ReservedSeatHolds | contracts/showup-bond/src/lib.rs:134-143 | A seat keeps its owner, the event's bond and its time over every run |
| BondTerms.HistoryDecidesRelease | contracts/showup-bond/src/lib.rs:165-171 | In every reachable state the number of log entries about a reservation decides whether a release starts, and with which error it does not |
| BondTerms.NobodyLosesWithoutSigning | docs/architecture/SYSTEM.md:608-635 | Over every run no account that signs nothing loses tokens |
| BondTerms.ClosedOnlyWithConsent | docs/architecture/SYSTEM.md:507-528 | Without the participant's signature a bond is never cancelled; without the organizer's it is neither attended nor, on an active event, refunded |
| BondTerms.SeatedOnlyWithConsent | contracts/showup-bond/src/lib.rs:114-115 | Nobody gets a seat without signing |
| Views.SmallNumbersAreExact | apps/web/lib/contract/mappers.ts:26-29 | Times below 2^53 are exact in a view |
| Views.NumbersKeepOrder | apps/web/lib/contract/mappers.ts:26-29 | Rounding times to doubles never swaps two of them |
| Views.NumbersAreNearest | apps/web/lib/contract/mappers.ts:26-29 | A time becomes the nearest double, of two the even one |
| Views.EventViewLosesNothing | apps/web/lib/contract/mappers.ts:57-75 | Below 2^53 an event view gives its record back, field by field |
| Views.ReservationViewLosesNothing | apps/web/lib/contract/mappers.ts:77-87 | So does a reservation view |
| Eligibility.PredictionsAreExact | apps/web/lib/domain/eligibility.ts:20-102 | Below 2^53 each prediction holds exactly when the entry point passes its checks, settlement up to its overflow |
| Eligibility.PredictionsErrOnOneSide | apps/web/lib/domain/eligibility.ts:9-12 | For every 64-bit time: offered reservations and settlements are never early or late, possible cancellations and check-ins always offered |
| Eligibility.WhenReservingIsPredicted | apps/web/lib/domain/eligibility.ts:20-48 | For every 64-bit time a reservation is mispredicted if and only if the seat is free and the clock is before the deadline and the same double; a cancellation if and only if the bond is Locked, the event active and the clock past its deadline and the same double |
| Eligibility.WhenReleaseIsPredicted | apps/web/lib/domain/eligibility.ts:54-102 | Likewise check-in with both bounds of its window and settlement with the deadline; a claim is always predicted |
| Eligibility.WhenNoShowIsRight | apps/web/lib/domain/reservation-buckets.ts:16-35 | The no-show group is right under the same condition as the settlement's |
| Eligibility.WhenUpcomingIsRight | apps/web/lib/domain/reservation-buckets.ts:31-35 | Upcoming is what is Locked on an active event before check-in has closed, under the same condition |
| Eligibility.ClosedGroupsAreRight | apps/web/lib/domain/reservation-buckets.ts:23-34 | Attended is what was attended; cancelled is what was cancelled, refunded, or Locked on a cancelled event |
| Eligibility.LateOffersHappen | apps/web/lib/contract/mappers.ts:26-29 | A state reached from deployment where a late cancellation and a late check-in are offered and a due settlement is withheld |
| Eligibility.EarlyOffersHappen | apps/web/lib/contract/mappers.ts:26-29 | A state reached from deployment where a possible reservation is withheld and an early check-in offered |
| Eligibility.NoShowBucketIsExact | apps/web/lib/domain/reservation-buckets.ts:16-35 | The no-show group is exactly what is settled or could be settled now |
| EventIndex.DecodesWhatIsPublished | apps/web/lib/contract/event-log.ts:129-198 | Every entry the contract publishes is read back as itself |
| EventIndex.ReadEventLog | apps/web/lib/contract/event-log.ts:220-283 | Paging ends, meets no cursor twice, and decodes each entry before its stop once and in order; the first malformed entry is the error |
| EventIndex.DecodeAll | apps/web/lib/contract/event-log.ts:263-276 | The decoding loop keeps exactly the event's own entries from successful calls |
| EventIndex.ReadsEverything | apps/web/lib/contract/event-log.ts:249-255 | All retained entries are read if and only if, of the pages the loop gets to, a short one ends the log; also at a multiple of the page size |
| EventIndex.ListEventReservations | apps/web/lib/contract/event-log.ts:319-358 | The two loops return what `ReadList` says; EventListing.ListIsHonest states what that is |
| EventListing.ListIsHonest | apps/web/lib/contract/event-log.ts:319-358 | For any provider's log without malformed events and wherever reading stopped, complete or not: listed are exactly those with a lock of the event in what was read and a record that can be looked up, each once, as stored, in the order of their first locks; all others with such a lock are counted; complete exactly when the creation was read and none is counted |
| EventListing.NoListExactly | apps/web/lib/contract/event-log.ts:264-276 | There is no list exactly when something malformed was read |
| EventListing.FirstMalformedIsTheError | apps/web/lib/contract/event-log.ts:264-276 | Of several malformed events the first is the error |
| EventListing.KeptExactly | apps/web/lib/contract/event-log.ts:94-198 | A raw event is an error exactly when it is of a successful call and a known name and lacks a field; it is passed over exactly when failed, unknown or of another event |
| EventIndex.CompletenessIsHonest | apps/web/lib/contract/event-log.ts:66-87 | For any retained suffix, any archived entries and lookups at the log's time or later: complete exactly when the creation is retained and nothing is archived, and then the list is the reservations the log was read for, each once as it is when looked up, and the contract counts as many more seats as were taken in between |
| EventIndex.ReadListsTheContract | apps/web/lib/contract/event-log.ts:319-358 | Reader, provider and contract together give that list |
| EventIndex.CompleteUnlessALockIsCutOff | apps/web/lib/contract/event-log.ts:249-358 | For a provider that ends any page early, a list that calls itself complete is the reservations the log was read for, each once, if and only if no lock of the event is behind the page the reader stopped at |
| EventIndex.ShortPageHidesAReservation | apps/web/lib/contract/event-log.ts:249-251 | A state reached from deployment and a provider that hide a reservation from a list that calls itself complete |
| Enumeration.ListEvents | apps/web/lib/contract/index.ts:214-252 | The two loops return the readable ids of the range, counted down |
| Enumeration.ListsTheNewestEvents | apps/web/lib/contract/index.ts:207-252 | In every reachable state the list is the newest events in falling id order, as many as the limit rounded down allows, none for a negative one, all without a finite one |
| Enumeration.NewestFirstIsComplete | apps/web/lib/contract/index.ts:232-236 | Ids fall strictly and no newer event is left out |
| Amounts.ParsesExactly | apps/web/lib/domain/amounts.ts:29-63 | Exactly the decimal literals of at most seven decimals are accepted, and the result is the number they denote, unrounded |
| Amounts.LiteralIsWorth | apps/web/lib/domain/amounts.ts:34-62 | Any sign, digits and up to seven decimals, with white space around them, are worth exactly that many stroops |
| Amounts.RefusalsAreExact | apps/web/lib/domain/amounts.ts:34-56 | Refused as empty is white space only, as no decimal what is no such literal, as too long a literal of more than seven decimals |
| Amounts.TrimsExactly | apps/web/lib/domain/amounts.ts:34-34 | All white space at both ends is cut off and nothing else |
| Amounts.RoundTrip | apps/web/lib/domain/amounts.ts:29-92 | Parsing what was printed gives every integer back |
| Amounts.CanonicalFormIsStable | apps/web/lib/domain/amounts.ts:65-69 | Printing what was parsed is idempotent |
| Amounts.SameFormSameAmount | apps/web/lib/domain/amounts.ts:65-92 | Two accepted strings print alike exactly when they denote the same number |
| Amounts.PrintsCanonically | apps/web/lib/domain/amounts.ts:70-92 | What is printed has no plus, no minus before zero, no leading zeros and no trailing fraction zeros |
| Amounts.UnchangedExactlyWhenCanonical | apps/web/lib/domain/amounts.ts:65-92 | An accepted string is printed back unchanged if and only if it has that form |
| Amounts.SplitMatchesSettlement | apps/web/lib/domain/amounts.ts:94-121 | Whenever the contract settles, the application's split is what it publishes; both legs are non-negative and sum to the bond |
| Amounts.SplitsTowardZero | apps/web/lib/domain/amounts.ts:102-121 | Any amount, negative ones included, is split toward zero without a rest; basis points outside 0 to 10000 are refused |
| Amounts.SplittingLosesLessThanOneUnitABond | apps/web/lib/domain/amounts.ts:94-121 | Splitting n bonds one by one gives the organizer at most n - 1 units less than splitting their sum |
| DepositMachine.ReachableIsSound | apps/web/lib/anchor/machine.ts:204-377 | Over all action sequences: an error exactly in ERROR, an id in every open state, statuses and tickets of that id only, nothing of a deposit before it opens, and an open state with a status says exactly what that status's code, treasury flag and claimable id mean |
| DepositMachine.PollIsTold | apps/web/lib/anchor/machine.ts:323-365 | A poll of the open deposit leads to the state its code, treasury flag and claimable id mean, in each of the six cases, and all it carries is kept |
| DepositMachine.PollsWhileUnsettled | apps/web/lib/anchor/machine.ts:115-123 | Polling goes on exactly while the treasury is low, the transfer is owed or the anchor works |
| DepositMachine.CompletedOnlyWhenDelivered | apps/web/lib/anchor/machine.ts:128-163 | COMPLETED is entered only by a completed poll without a claimable id, or by a claim that was due |
| DepositMachine.OpenDepositKeepsItsId | apps/web/lib/anchor/machine.ts:310-321 | An open deposit keeps its id and ticket whatever arrives, until the user starts over |
| DepositMachine.StalePollIsIgnored | apps/web/lib/anchor/machine.ts:197-203 | A poll for a deposit the user has left changes nothing |
| DepositMachine.NothingOpensWithoutSigningIn | apps/web/lib/anchor/machine.ts:259-309 | No action sequence reaches a quote or a deposit without signing in or resuming |
| DepositMachine.NothingOpensWithoutATicket | apps/web/lib/anchor/machine.ts:310-321 | No action sequence opens a deposit without a ticket or resuming |
| DepositFlow.WholeFlow | apps/web/lib/anchor/machine.ts:218-365 | From any state a start, a firm quote, a ticket and a poll pass through every step and keep everything learned |
| DepositFlow.QuoteIsOptional | apps/web/lib/anchor/machine.ts:305-321 | Skipped or not taken, a quote changes nothing about the ticket |
| DepositFlow.QuotesAreFresh | apps/web/lib/anchor/machine.ts:267-278 | A new quote is judged by its own expiry and drops the price of an older one |
| DepositFlow.OnlyInItsTurn | apps/web/lib/anchor/machine.ts:241-373 | Late and early steps change nothing |
| DepositFlow.WarningsNeverBlock | apps/web/lib/anchor/machine.ts:248-303 | Prices and quote expiry are recorded, truly, and move nothing |
| DepositFlow.ResumeReopens | apps/web/lib/anchor/machine.ts:227-239 | A resumed deposit is claimable exactly with a claimable id, else waits for the bank, and its next poll is told |
| DepositFlow.EndsAreTold | apps/web/lib/anchor/machine.ts:209-216 | A claim, a failure and a reset end it as they should |
| DepositMachine.WhenCompletedKeepsAClaimableId | apps/web/lib/anchor/machine.ts:338-345 | A completing poll leaves a claimable id exactly when it carries none and an older one is there |
| DepositMachine.CompletedCanKeepAClaimableId | apps/web/lib/anchor/machine.ts:338-345 | A concrete run that ends completed with a claimable id |
| DepositPolling.PollDepositUntilSettled | apps/web/lib/anchor/sep6.ts:261-290 | Statuses are read and shown in order; the first terminal one is returned, a failure is passed on, otherwise the last one read |
| DepositPolling.StopsTogether | apps/web/lib/anchor/sep6.ts:230-239 | Loop and machine agree on stopping if and only if the status is not completed or pending trust with the treasury low |
| DepositPolling.LoopAndMachineAgree | apps/web/lib/anchor/machine.ts:115-123 | Over a whole loop they stop together if and only if the last status read is not such a one |
| DepositPolling.StallingStatusStrandsTheMachine | apps/web/lib/anchor/sep6.ts:230-239 | Such a status ends the loop and leaves the machine polling |
| Calendar.FourPassesAreOne | apps/web/lib/domain/calendar.ts:31-37 | The four replacements in their order equal one pass over the characters |
| Calendar.UnescapeInvertsEscape | apps/web/lib/domain/calendar.ts:31-37 | Unescaping as in section 3.3.11 of RFC 5545 inverts escaping for every text |
| Calendar.EscapedIsTextValue | apps/web/lib/domain/calendar.ts:31-37 | In an escaped text newlines, semicolons, commas and backslashes appear only in escapes |
| Calendar.BackslashesMustComeFirst | apps/web/lib/domain/calendar.ts:31-37 | The order of the passes is needed: with the backslashes last exactly the texts without newline, semicolon and comma come back |
| Calendar.SplitInvertsJoin | apps/web/lib/domain/calendar.ts:74-74 | Splitting on CRLF gives newline-free lines back, even those that end in a carriage return |
| Calendar.FileSplitsIntoItsLines | apps/web/lib/domain/calendar.ts:51-75 | The file splits into exactly its sixteen lines, whatever the texts contain |
| Calendar.ReaderRecoversTexts | apps/web/lib/domain/calendar.ts:62-69 | A reader recovers id, times, title, venue, the three sentences with cancellation time and link, and the link, from their own lines |
| Calendar.FrameIsFixed | apps/web/lib/domain/calendar.ts:55-72 | The other lines are the fixed ones, in their places |
| TokenCache.TokenStore.StoreToken | apps/web/lib/anchor/token-store.ts:98-106 | A token is stored under the joined key; one without a usable expiry is not |
| TokenCache.TokenStore.GetCachedToken | apps/web/lib/anchor/token-store.ts:112-127 | A fresh token is returned; one inside the skew is forgotten |
| TokenCache.TokenStore.ClearToken | apps/web/lib/anchor/token-store.ts:130-147 | Everything, one pair, or by the deleting loop exactly the keys with the account's prefix |
| TokenCache.KeyIsInjective | apps/web/lib/anchor/token-store.ts:24-28 | Joined keys of NUL-free addresses come from one pair only |
| TokenCache.PrefixIsAccount | apps/web/lib/anchor/token-store.ts:141-146 | A key has an account's prefix exactly when it is that account's |
| TokenCache.StepRefines | apps/web/lib/anchor/token-store.ts:98-147 | Every operation on joined keys refines the one on a map keyed by pairs |
| TokenCache.SessionsAgree | apps/web/lib/anchor/token-store.ts:98-147 | Over every session both give the same answers |
| TokenCache.NoTokenIsHandedOutLate | apps/web/lib/anchor/token-store.ts:112-127 | A token handed out was stored for that pair and outlives the skew |
| TokenCache.TokenIsHandedOutExactly | apps/web/lib/anchor/token-store.ts:112-127 | A token is handed out exactly when one is stored for the pair that lives more than thirty seconds longer |
| TokenCache.OpsChangeWhatTheyName | apps/web/lib/anchor/token-store.ts:98-147 | Every operation changes what is stored for the pairs it names and for no others |
| TokenCache.WhenAKeyIsAmbiguous | apps/web/lib/anchor/token-store.ts:24-28 | A pair shares its key with another if and only if its address or domain contains a NUL |
| TokenCache.NulBreaksTheKey | apps/web/lib/anchor/token-store.ts:24-28 | Two pairs on one key, one of which clearing the other's account removes |

## Left out

- Lifetimes of stored entries (the bumps in contracts/showup-bond/src/storage.rs): contract storage is taken to be live. The participant list takes the archived keys as a parameter.
- Signature trees: a call carries the set of addresses that signed it. The contract signs for nobody but itself towards the token.
- Refusals the token may add (trustlines, freezing, clawback): a transfer is refused only for a negative amount, a short sender or a full receiver.
- Title and venue contents: byte strings of which only the length matters.
- Read-only entry points of the contract (contracts/showup-bond/src/lib.rs:351-370): easy members.
- BondInvariant.CustodyIsExact: the constructor does not keep the pool from being the contract itself; a community share paid there counts as sent from outside.
- BondOrder.OrderDoesNotMatter: compares storage and balances; the log is written in the order of the calls.
- EventIndex.ReadEventLog: the log is fixed during the read, cursors are distinct and never empty, and the provider's health call, topic filter, retention times and entry metadata are not modelled; entries of other events and unknown ones may be mixed in.
- EventIndex.ListEventReservations: all lookups are made on one state, which may be later than the log's; the source makes them concurrently.
- Enumeration.ListEvents: event counts are exact where the source reads a double (the same below 2^53), and a read fails only by not finding the event.
- Amounts.SplitMatchesSettlement: basis points are integers; the checks for other JavaScript types are left out.
- DepositMachine.ReachableIsSound: configurations, prices and instructions are opaque, error texts reduced to their kind.
- DepositPolling.PollDepositUntilSettled: waiting between attempts is left out; the answers, failures and the abort signal of the attempts are the input.
- Calendar.FileSplitsIntoItsLines: formatted times are opaque texts without newlines; the Google link and the file name are left out.
- TokenCache.TokenStore.StoreToken: the token's expiry is an input, decoding its claims is not modelled.
- User interface, wallet, signing, RPC clients, the other anchor steps (apps/web/lib/anchor/sep1.ts and its neighbours), QR codes and forms.
