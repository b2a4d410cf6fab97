# Booking backend: verified model

A Dafny model of the hard parts of a salon-booking backend, with proofs about every run of
its protocols and every input of its algorithms. `dafny verify dfyconfig.toml` checks all of
it.

- **Agenda availability.** `Intervals` (merge, subtract, trim), `BranchHours` (weekly shifts
  and branch exceptions), `Slots` (slot generation and the barber-day pipeline), `DayRun`
  (whole days of bookings and releases), `Curation` and `CuratedView` (ranking and exposure).
- **Checkout.** `Discounts` and `Awarding` (apportionment in cents), `Checkout` and `Grouping`
  (discount lines, plan, detail rows, and the three composed).
- **Group bookings.** `Assignments` (bounded search over barber assignments).
- **Event delivery.** `Subscriber`, `Outbox`, `Dispatcher`, `Delivery`, `Polling`, `Opening`,
  `Replay`, `Overflow`, `DispatcherObject` (the outbox-to-SSE dispatcher) and `EventStream` (its frames against
  section 9.2 "Server-sent events" of the WHATWG HTML Living Standard).
- **Account deletion.** `ClientAccount`, `ClientSaga`, `ClientStore` for clients,
  `StaffDeletion`, `StaffStore` for staff.
- **Membership payments.** `Payments`, `PaymentRuns`, `PaymentStore`, and `Crossing`, which
  runs payments and deletions side by side.

Protocols are state machines: `Apply` takes any label in any state (a label that is not
possible changes nothing) and `Run` folds a list of labels, so a statement about `Run` is a
statement about every interleaving. One database transaction is one step; a call to an
outside service is an issued step, an effect that may happen at any later time, and an
answer that may be lost; a crash may come between any two. Classes hold the same state in
fields and change it as the source does, loop by loop where the source loops and in one statement
where it runs one UPDATE; their methods are proved equal to the functions the machines use. Money is whole cents and time whole minutes.

Assumptions about what is outside: interval bounds are whole minutes and the five-minute step
divides the day; an approved sale comes with a valid hash, a matching amount and non-empty
ids; outbox rows become visible in id order; a lookup of the Auth user that answers, answers
truthfully; a `write` that returns false has not accepted the frame; the `app_private`
redaction function either works or its verification fails the transaction.

## What the code does not promise

Some claims a reader might expect are false. For each there is an input or a run, and the
exact condition or the premise under which the claim holds.

- The floor of today can strand a gap shorter than the minimum (`DayRun.FloorStrandsShortGap`);
  a run keeps all gaps sellable exactly under `DayRun.RunKeepsGapsIff`, so always on other days
  (`DayRun.RunKeepsGapsSellable`).
- Of two free gaps the one that opens earlier is not always ranked first
  (`Curation.EarlierGapLoses`, `Curation.EarlierGapFirstIff`).
- A line can receive more than one leftover cent (`Discounts.TwoCentsOnOneLine`,
  `Discounts.WithinOneCentIff`).
- A proportional discount can fall short of the request (`Checkout.ProportionalFallsShort`,
  `Checkout.ProportionalMeetsRequestIff`).
- A poll batch that lands during a replay loses rows (`Overflow.GapWhenPollOvertakes`); the
  reconnect theorem excludes it.
- A reconnect with an id ahead of the dispatcher's cursor and nothing to replay repeats an event,
  because the last sent id is not set from Last-Event-ID (`Overflow.RepeatedAfterReconnect`), and
  Last-Event-ID 0 with an outbox emptied by retention is not told to resync
  (`Overflow.ZeroIdMissesPurgedRows`); `Replay.Seamless` is the exact condition
  (`Replay.ResumesWithoutGap`).
- A transport that throws defeats the buffer limit (`Subscriber.ThrowingGrows`); when it does is
  `Subscriber.OverflowClosesIff`, by how much `Overflow.QueueNeverExceeds`.
- An address that is only the IPv4-mapped prefix leaves a count behind
  (`Overflow.CountLeftBehind`, `Overflow.StableIff`).
- A client deletion can stay in `procesando`: when an asset cannot be certified, an e-mail address
  is shared or the redaction fails (`ClientSaga.ProcesandoContinuesIff`). The query to the payment
  provider in the status reconciliation is unreachable for intents this service creates
  (`PaymentRuns.NeverQueries`), and so is the empty-snapshot shortcut of storage
  (`ClientSaga.NoAssetsUnreachable`).

## Model

| member | source | states |
|---|---|---|
| `Intervals.MergeIntervals` | src/services/agendaService.js:527-548 | the result covers exactly the minutes of the valid inputs and is the normal form: ascending intervals with a strict gap between neighbours |
| `Intervals.NormalFormUnique` | src/services/agendaService.js:527-548 | a set of minutes has only one normal form, so a merged list is determined by what it covers |
| `Intervals.MergedCanonical` | src/services/agendaService.js:527-548 | two inputs that cover the same minutes merge to the same list |
| `Intervals.SubtractedPoints` | src/services/agendaService.js:550-581 | subtraction is pointwise set difference, for any base and any busy list |
| `Intervals.SubtractedChained` | src/services/agendaService.js:550-581 | a sorted disjoint base stays sorted and disjoint |
| `Intervals.SubtractedNormal` | src/services/agendaService.js:550-581 | a base in normal form gives a result in normal form |
| `Intervals.SubtractIntervals` | src/services/agendaService.js:550-581 | the pointer loop computes that subtraction |
| `Intervals.RangeFormRefinesDayForm` | src/services/agendaService.js:2448-2475 | for a base inside a day, subtracting only the busy intervals that overlap the day gives the same list as subtracting all of them |
| `Intervals.TrimmedPoints` | src/services/agendaService.js:487-512 | trimming at a floor keeps exactly the minutes at or after it |
| `Intervals.TrimIntervalsByMinimumStart` | src/services/agendaService.js:487-512 | the filtering loop computes that trimming |
| `BranchHours.ApplyBranchExceptionsToIntervals` | src/services/agendaService.js:1828-1857 | open minutes are none on total closure, else (special hours if any, otherwise base) plus extra openings minus partial closures, as a normal form |
| `BranchHours.SpecialHoursTest` | src/services/agendaService.js:1836-1841 | the list of special intervals is non-empty exactly when the special hours cover some minute |
| `BranchHours.ExceptionOrderIrrelevant` | src/services/agendaService.js:1828-1857 | reordering the exceptions, or replacing the base by a list of the same minutes, does not change the returned list |
| `BranchHours.ExceptionsDecide` | src/services/agendaService.js:1828-1857 | minute by minute and over the blocks themselves: a total closure leaves nothing; else a partial closure always closes, an extra opening or special hours open, and any other minute is open exactly when the base is and there are no special hours |
| `BranchHours.BuildBaseIntervalsFromSchedules` | src/services/agendaService.js:1734-1757 | the base covers exactly the minutes inside a shift and outside its lunch break |
| `Slots.AlignToStepLeast` | src/services/agendaService.js:1898-1907 | the first start tried is the least aligned minute not before the interval |
| `Slots.CursorsExact` | src/services/agendaService.js:1932-1983 | the starts tried are the aligned ones at which the service fits, increasing |
| `Slots.SlotGeneration` | src/services/agendaService.js:1881-1986 | every aligned fitting start appears exactly once, as a slot when both residues are zero or sellable and as a residual discard otherwise, in increasing order |
| `Slots.AllOfferedMember` | src/services/agendaService.js:1926-1983 | a slot is in the whole list if and only if some free interval offers it |
| `Slots.FillInterval` | src/services/agendaService.js:1941-1983 | the cursor loop, with interval end minus cursor as its measure, yields exactly the offers and the refusals of one free interval |
| `Slots.BuildSlotsFromIntervals` | src/services/agendaService.js:1881-1986 | the whole generator: all offers, and the discards when asked for |
| `Slots.GetAvailableSlots` | src/services/agendaService.js:1988-2057 | returns in order exactly the starts on the five-minute grid whose service fits a maximal stretch of open minutes outside every busy span, whatever its source, and at or after the floor, leaving on both sides nothing or enough to sell; the discards are the other such starts, the stretches too short, or the busy spans when nothing is free |
| `Slots.OffersExact` | src/services/agendaService.js:1881-2057 | the slots of the pipeline are exactly those, told from opening hours, busy spans and floor |
| `Slots.DiscardsExact` | src/services/agendaService.js:1881-2057 | the residual discards likewise: a start is discarded exactly when it fits a free stretch and strands a rest, a stretch exactly when it is too short |
| `DayRun.OfferSitsInGap` | src/services/agendaService.js:1941-1983 | an offered start lies in a free gap and what it leaves after it, and before it when no floor clipped the gap, is sellable |
| `DayRun.OfferedIff` | src/services/agendaService.js:1988-2057 | a booking is offered on a day exactly when its service and buffer together must be offered by the rules of the pipeline |
| `DayRun.ServiceAndBufferFree` | src/services/bookingReservationService.js:38-58 | an offered booking takes only open minutes that no other booking has, for the service and for the buffer after it |
| `DayRun.RunKeepsBookingsApart` | src/services/bookingReservationService.js:38-58 | in every run of bookings taken from offers and releases, bookings are pairwise disjoint and inside opening hours, floors included |
| `DayRun.BookKeepsGapsIff` | src/services/agendaService.js:1941-1983 | a booking leaves every gap sellable exactly when it starts at the edge of its gap or leaves the minimum before it |
| `DayRun.ReleaseKeepsGaps` | src/services/agendaService.js:2017-2047 | releasing a booking of at least the minimum leaves no short gap |
| `DayRun.RunKeepsGapsIff` | src/services/agendaService.js:2017-2047 | in every run of offered bookings and releases from a day whose gaps are sellable, floors of today included, all gaps stay sellable exactly when every booking of some minutes starts at the edge of its gap or leaves the minimum before it |
| `DayRun.StepKeepsGapsIff` | src/services/agendaService.js:1941-1983 | the same for one event, released and zero-length bookings included |
| `DayRun.FloorStrandsShortGap` | src/services/agendaService.js:487-512 | the claim fails for today: a floor inside a gap lets an offered booking strand five minutes |
| `Curation.MembershipExact` | src/services/agendaService.js:2812-2840 | a slot belongs to a period exactly when a segment of that period contains it whole, and to at most one period |
| `Curation.ScoreSlotForCuratedPeriod` | src/services/agendaService.js:2842-2899 | the terms added and subtracted one after another give the score the ranking lemmas reason about |
| `Curation.EarlierScoresHigher` | src/services/agendaService.js:2842-2899 | within one free gap and one period an earlier eligible slot scores strictly higher, whatever the closing, leftover and middle terms give |
| `Curation.OfferScore` | src/services/agendaService.js:2842-2899 | the score of an offer in closed form: 500 at the left edge, nine lost per minute into the gap, one per minute the gap opens after the day, 30 for a clean close or a tenth of the rest up to 20, twelve lost in the middle; no offer carries the residue penalty |
| `Curation.EarlierGapFirstIff` | src/services/agendaService.js:2879-2883 | between left-edge offers of two gaps the earlier gap ranks first exactly when it opens earlier by more than the later one gains at its close, so always beyond thirty minutes |
| `Curation.EarlierGapLoses` | src/services/agendaService.js:2879-2883 | it does not always: a gap at 9:00 ranks below one at 9:25 that closes cleanly |
| `Curation.GroupByPeriod` | src/services/agendaService.js:2911-2928 | each scored slot is in the list of its own period and no other, in input order |
| `Curation.BuildCuratedRankingByPeriod` | src/services/agendaService.js:2911-2936 | each period holds its own slots sorted by the ranking comparator |
| `Curation.SingleGapChronological` | src/services/agendaService.js:2911-2936 | for one gap no slot ranked later starts earlier, so the head of a period is the earliest offer of the gap in it |
| `Curation.ExposePeriod` | src/services/agendaService.js:2980-3040 | the selection loop computes the exposure of a ranked list |
| `Curation.ExposurePartitions` | src/services/agendaService.js:2980-3040 | recommended, alternatives and overflow together are a permutation of the eligible slots, the first of the ranking is recommended, and alternatives respect the limit |
| `Curation.ShownAreSpaced` | src/services/agendaService.js:2966-3040 | shown slots are pairwise at least the spacing apart |
| `Curation.OverflowHasReason` | src/services/agendaService.js:2980-3040 | the slots after the first that overflow are exactly those that at their turn met a full list or a shown slot too close, in ranking order; what was shown then stays shown |
| `Curation.ExposureKeepsOrder` | src/services/agendaService.js:2980-3040 | alternatives and overflow keep the order of the ranking |
| `Curation.BuildCuratedSlotExposure` | src/services/agendaService.js:2980-3040 | every period is exposed from its own ranked and eligible slots, with its total and whether more remain |
| `CuratedView.ViewExact` | src/services/agendaService.js:2980-3040 | a period shows exactly the slots inside one of its segments whose residues are zero or sellable, one of them recommended when there is any, the shown ones pairwise the spacing apart, with the total and the flag of what remains |
| `CuratedView.ViewDescends` | src/services/agendaService.js:2980-3040 | what is shown runs down the scores, so does the overflow, and the recommended slot scores at least as high as any |
| `CuratedView.RankingExact` | src/services/agendaService.js:2911-2936 | a ranking holds each slot of the period with its score, higher scores first and equal scores by clock time |
| `CuratedView.PeriodIs` | src/services/agendaService.js:2798-2840 | morning 6 to 12, afternoon to 18, night to 24 and to 6; a slot across a bound has no period |
| `Discounts.InputOrderIrrelevant` | src/services/bookingDiscounts.js:91-121 | for distinct line keys the participants, and so the awards, do not depend on the input order |
| `Discounts.LeftoverBounds` | src/services/bookingDiscounts.js:105-128 | after the floors between zero and n-1 cents are left |
| `Discounts.CentsConserve` | src/services/bookingDiscounts.js:105-141 | awarded cents add up to the request, each line between the floor of its exact share and its capacity, at most the leftover above the floor |
| `Discounts.AllocationIsFair` | src/services/bookingDiscounts.js:91-141 | whenever the request fits total capacity the allocation exists, sums exactly to it and overfills no line |
| `Discounts.FillOneMore` | src/services/bookingDiscounts.js:123-128 | one more cent goes to the first row of the order that still has room, and nowhere else |
| `Discounts.PlaceLeftover` | src/services/bookingDiscounts.js:122-128 | the one-cent loop ends with the bulk filling of the rows in order |
| `Discounts.AwardShares` | src/services/bookingDiscounts.js:105-141 | floors, loop and final check together; the check never fails |
| `Discounts.AllocateDiscountAcrossLines` | src/services/bookingDiscounts.js:91-141 | awards if and only if the request fits, as the fair allocation of the participants |
| `Awarding.CentsLargestFirst` | src/services/bookingDiscounts.js:105-128 | a line gets a leftover cent only when every line with a larger fraction, or an equal one and an earlier key, is full |
| `Awarding.LargestFirstUnique` | src/services/bookingDiscounts.js:105-141 | no other cents have that property with the whole shares, the capacities and the sum |
| `Awarding.AllocationExact` | src/services/bookingDiscounts.js:91-141 | told from the lines alone: nothing for nothing, refused exactly beyond the positive capacities, else the awards in key order of those only cents |
| `Discounts.WithinOneCentIff` | src/services/bookingDiscounts.js:122-128 | every line is within one cent of its exact share precisely when each of the first leftover - 1 rows of the order has capacity * (total - requested) <= total; the order is by larger fractional part, ties by key |
| `Discounts.TwoCentsOnOneLine` | src/services/bookingDiscounts.js:122-128 | an input on which one line takes two leftover cents |
| `Checkout.BuildCanonicalDiscountLines` | src/services/bookingDiscounts.js:41-89 | the accumulating loop groups items by service, tariff and origin, counting occurrences on the way |
| `Checkout.LinesAreSound` | src/services/bookingDiscounts.js:41-89 | line keys are distinct and every line carries occurrence one |
| `Grouping.LinesAddUp` | src/services/bookingDiscounts.js:39-89 | one line for each group that has an item with a service, holding its units, the last price given, its amounts, its earlier discounts and what they leave |
| `Grouping.RowsCount` | src/services/bookingReservationService.js:78-124 | one row for each such group, counting its items at the price, time and tax of the first of them |
| `Checkout.BuildDiscountPlan` | src/services/bookingDiscounts.js:143-186 | the line map with its last-wins keys and the plan loop with its rejections, the first of which decides the outcome |
| `Checkout.PlanExact` | src/services/bookingDiscounts.js:143-186 | a plan succeeds exactly when its assignments name known lines and supported sources and fit the subtotals; then each entry holds exactly what was assigned to its line; lines with repeated keys are merged first, distinct ones are taken as they are |
| `Checkout.PlanFailure` | src/services/bookingDiscounts.js:160-180 | a plan fails on the first assignment that cannot be taken, with the reason that applies: unknown line, else unsupported source, else above the subtotal |
| `Checkout.PlanConserves` | src/services/bookingDiscounts.js:143-186 | plan totals add up to the positive cents assigned |
| `Checkout.BuildAppointmentDetailRows` | src/services/bookingReservationService.js:71-182 | grouping, discount by plan or proportionally, tax and totals of the detail rows |
| `Checkout.PriceRows` | src/services/bookingReservationService.js:143-171 | the pricing loop over grouped rows, failing exactly when a discount exceeds its row |
| `Checkout.TaxOfRow` | src/services/bookingReservationService.js:23-39 | no tax at rate zero; a contained rate takes rate / (100 + rate) out of the discounted amount to the nearest cent and leaves the total, any other rate is added to it |
| `Checkout.ShareProportionally` | src/services/bookingReservationService.js:125-142 | the proportional loop gives each row its rounded share and the last row what is left, capped |
| `Checkout.ProportionalEach` | src/services/bookingReservationService.js:131-141 | each row but the last takes its share of the request to the nearest cent, the last what is left, and none more than is left or its own subtotal |
| `Checkout.ProportionalMeetsRequestIff` | src/services/bookingReservationService.js:131-141 | without a plan pricing never fails, and the rows receive the whole request, capped by the total, exactly when it is nothing or at least the total or the rounded shares of all rows but the last leave no more than the last subtotal |
| `Checkout.ProportionalShortfall` | src/services/bookingReservationService.js:131-141 | otherwise they fall short by exactly what those shares and the last row leave unplaced |
| `Checkout.ProportionalFallsShort` | src/services/bookingReservationService.js:131-141 | rows of 2, 2, 2, 2 and 1 cents receive one of two requested cents |
| `Checkout.LinesAndRowsAgree` | src/services/bookingReservationService.js:71-121 | for plain items discount lines and detail rows have the same keys, order and subtotals |
| `Checkout.AllocationFeedsPlan` | src/services/bookingDiscounts.js:143-186 | the awards of an allocation always form a valid plan of the same lines |
| `Checkout.CheckoutComposes` | src/services/bookingReservationService.js:71-193 | an allocation fed through the plan into the rows never fails; row discounts add up to the request and with tax off totals are subtotal less discount |
| `Assignments.OptionsExact` | src/services/bookingCanonicalReservationService.js:160-187 | computed options are taken as they are; else a chosen barber is the only option; else the options are the first six distinct candidates that pass the id test, in order, or the fallback when none does |
| `Assignments.FreeOfConflicts` | src/services/bookingCanonicalReservationService.js:196-203 | the loop over occupied places accepts exactly the combinations without two members at one barber and start |
| `Assignments.AssignmentSearch.Walk` | src/services/bookingCanonicalReservationService.js:192-216 | the recursion visits the completions of its prefix in order, stopping once the limit is exceeded |
| `Assignments.KeptIsListing` | src/services/bookingCanonicalReservationService.js:192-216 | keeping the first of every signature gives the conflict-free combinations, one per signature (the lexicographically least), in lexicographic order |
| `Assignments.ListingUnique` | src/services/bookingCanonicalReservationService.js:192-216 | there is exactly one such listing |
| `Assignments.SearchKeeps` | src/services/bookingCanonicalReservationService.js:192-193 | stopping early keeps exactly the first limit + 1 of them, so it never hides one from a returned list |
| `Assignments.BuildAssignmentAttempts` | src/services/bookingCanonicalReservationService.js:160-225 | the answer is the whole listing, or the limit error exactly when it is longer than the limit |
| `Assignments.AnswerExact` | src/services/bookingCanonicalReservationService.js:192-225 | the answer is every way to give each member one option without a barber serving two members at one start, each serving (place, barber and start of every member) once; or the limit error exactly when there are more than the limit |
| `Assignments.AnswerUnique` | src/services/bookingCanonicalReservationService.js:160-225 | the answer is determined by the option groups and the limit |
| `Subscriber.Subscriber.Flush` | src/services/agendaEventDispatcher.js:104-116 | sends from the head while frames are accepted; a refusal marks draining, a throw leaves the frame queued |
| `Subscriber.EnqueuedFeed` | src/services/agendaEventDispatcher.js:123-131 | the feed, written and waiting, gains the frame at its end exactly when the subscriber is open, the frame is not stale and it is forced or there is room; an overflow gains the resync frame instead; nothing else is added, dropped or moved |
| `Subscriber.ClosesOnce` | src/services/agendaEventDispatcher.js:143-152 | whatever is called, closed is for good and onClose runs exactly when an open subscriber closes |
| `Subscriber.FlushMoves` | src/services/agendaEventDispatcher.js:104-116 | a flush moves a prefix of the queue to the log in order and sets the last sent id to that of its last event |
| `Subscriber.FlushStops` | src/services/agendaEventDispatcher.js:104-116 | exactly the frames before the first offer that is not accepted leave, each offered once; that offer is the last one, a refusal starts draining and a throw is passed on |
| `Subscriber.OverflowClosesIff` | src/services/agendaEventDispatcher.js:90-102 | overflow closes and releases the subscriber exactly unless it is not draining and, of the offers of its queue and of the resync frame, the first not accepted is a throw |
| `Subscriber.ThrowingGrows` | src/services/agendaEventDispatcher.js:90-131 | a transport that always throws grows the queue by a frame per row, past any limit |
| `Subscriber.RefusedIsOfferedAgain` | src/services/agendaEventDispatcher.js:104-121 | a refused frame is offered a second time on drain |
| `Outbox.NextRow` | src/services/agendaEventDispatcher.js:228-235 | each row of a polled or replayed window is the only one between its predecessor and itself |
| `Dispatcher.ReleaseUndoesReserveIff` | src/services/agendaEventDispatcher.js:189-200 | releasing what a connection reserved restores the counts exactly when the reserved address normalizes to itself |
| `Opening.AcceptsIff` | src/services/agendaEventDispatcher.js:182-187 | a connection is accepted exactly when the open subscribers and those of its address are both fewer than their limits |
| `Dispatcher.RegisterOrderly` | src/services/agendaEventDispatcher.js:182-193 | an accepted connection keeps counts, map and limits right |
| `Dispatcher.SettleOrderly` | src/services/agendaEventDispatcher.js:195-200 | so does every call that may close a subscriber |
| `Dispatcher.RunOrderly` | src/services/agendaEventDispatcher.js:182-200 | in every run each address is counted once per open subscriber and absent at zero, the map holds exactly the open subscribers, and the per-address and global limits hold |
| `Dispatcher.StopLeavesNothing` | src/services/agendaEventDispatcher.js:265-280 | closing every subscriber has emptied both maps before stop clears them |
| `Delivery.DeliverRowSub` | src/services/agendaEventDispatcher.js:238-246 | what a polled row does to one subscriber does not depend on the others |
| `Delivery.OwedDelivered` | src/services/agendaEventDispatcher.js:123-141 | the next polled row is kept when due and dropped when settled before |
| `Polling.PollExact` | src/services/agendaEventDispatcher.js:224-236 | a poll holds the first rows past the cursor and retention in id order: all of them, or the batch size when more wait |
| `Polling.PollAdvances` | src/services/agendaEventDispatcher.js:237-247 | a poll that found rows moves the cursor strictly forward to the last of them |
| `Polling.PollsCatchUp` | src/services/agendaEventDispatcher.js:224-256 | n undisturbed polls with n times the batch size at least the backlog bring the cursor to the last row |
| `Polling.BacklogIsDelivered` | src/services/agendaEventDispatcher.js:224-256 | then a subscriber opened without Last-Event-ID has been sent, or has waiting, every row of its branch committed since; once closed, a prefix of them |
| `Opening.StartExact` | src/services/agendaEventDispatcher.js:206-213 | a start puts the cursor at the newest stored row, or at zero |
| `Delivery.DeliveredExactly` | src/services/agendaEventDispatcher.js:224-256 | without Last-Event-ID, written and queued events are in every later state exactly the rows of the branch between the cursor at registration and now, increasing and once each; once closed, a prefix of them |
| `Delivery.KeepsBranch` | src/services/agendaEventDispatcher.js:90-152 | closed is permanent in every run, and branch and address never change |
| `Replay.Exhausted` | src/services/agendaEventDispatcher.js:316-330 | a batch that ends the replay loop leaves no row of the branch unread up to the watermark |
| `Opening.BoundsExact` | src/services/agendaEventDispatcher.js:302-333 | an id that is none or beyond the newest stored row is announced as invalid, else an id with no stored row next to it as lost history, each as the last frame of the feed; else the replay begins right after the id, up to the watermark |
| `Opening.ReplayQueryExact` | src/services/agendaEventDispatcher.js:314-327 | a replay batch holds the first stored rows of the branch after where the replay stands, up to the watermark |
| `Opening.BatchEndsIff` | src/services/agendaEventDispatcher.js:314-333 | the replay is announced as too long exactly when its rows exceed the limit; otherwise it ends with a short batch or at the watermark and goes on from the last row until then |
| `Replay.ResumesWithoutGap` | src/services/agendaEventDispatcher.js:302-368 | after a reconnect with an event id, zero included, with no poll batch during the replay and its frames accepted, written and queued events are in every later state exactly the rows after that id, once each, if the resumption is seamless: nothing of the branch after the id is purged, and the replay has a row to send or the poll has none left up to the id; if not, no later state with the poll past the id and retention has them |
| `Overflow.QueueNeverExceeds` | src/services/agendaEventDispatcher.js:90-131 | in any run no queue exceeds the buffer limit plus two plus one for every offer that threw; without throws, the limit plus two |
| `Overflow.StableIff` | src/services/agendaEventDispatcher.js:61-65 | an address normalizes to itself the second time unless it is IPv4-mapped and the rest is empty, padded or mapped again |
| `Overflow.CountLeftBehind` | src/services/agendaEventDispatcher.js:189-200 | for such an address a count stays behind without a subscriber |
| `Overflow.GapWhenPollOvertakes` | src/services/agendaEventDispatcher.js:123-131 | a poll batch landing during a replay makes an older row disappear without a resync frame |
| `Overflow.RepeatedAfterReconnect` | src/services/agendaEventDispatcher.js:335-365 | a reconnect ahead of the cursor with nothing to replay is sent an event it already has |
| `Overflow.ZeroIdMissesPurgedRows` | src/services/agendaEventDispatcher.js:302-308 | Last-Event-ID 0 with an emptied outbox goes live without a resync frame although rows are gone |
| `DispatcherObject.AgendaDispatcher.DeliverPolled` | src/services/agendaEventDispatcher.js:237-247 | rows in order, each to the subscribers still registered, then the cursor at the last row |
| `DispatcherObject.AgendaDispatcher.Stop` | src/services/agendaEventDispatcher.js:265-280 | closes every subscriber and leaves both maps empty |
| `DispatcherObject.ReplayLoop` | src/services/agendaEventDispatcher.js:323-329 | the loop over a replay batch with its limit, its exceptions and its progress |
| `EventStream.ReadsWhatWasWritten` | src/services/agendaEventDispatcher.js:53-59 | a client that follows the event-stream rules reads back every frame once, in order, with its name and data |
| `EventStream.ClientKnowsLastSent` | src/services/agendaEventDispatcher.js:104-116 | in every run a client that reads all its subscriber was written gets one message for each frame and reconnects with exactly the last sent id of the dispatcher, except after a failed opening or replay |
| `EventStream.CommentsAreSilent` | src/routes/v1/public/agendaEventos.js:189-191 | heartbeat comments dispatch nothing |
| `ClientSaga.LayersHold` | src/services/accountDeletionService.js:1903-4568 | in every run with crashes, lost and late responses and concurrent retries each stage implies the effects of all earlier ones |
| `ClientSaga.NeverBackward` | src/services/accountDeletionService.js:1903-4568 | once in procesando the request never moves backward |
| `ClientSaga.CompletedMeansGone` | src/services/accountDeletionService.js:4372-4434 | completada implies the account disabled and anonymized, every snapshot asset tombstoned with its object absent, and the Auth user absent |
| `ClientSaga.AnonymizedMeansGone` | src/services/accountDeletionService.js:2652-4434 | whatever happens before and after: once completed, every row that at the anonymization was not deleted, in any status but eliminado, and named the client, its person or its user or was the photo is a tombstone without object |
| `ClientSaga.SnapshotExact` | src/services/accountDeletionService.js:3452-3475 | an accepted anonymization snapshots exactly those rows and waits for storage exactly when there are any |
| `ClientSaga.ProcessedWasConfirmed` | src/services/accountDeletionService.js:1048-2126 | in every run a processed request was first confirmed and later executed, each time by an active, unprotected and unblocked client, and executed only with a recent reauthentication and a balance that closes at zero |
| `ClientSaga.ExternalEffectsInOrder` | src/services/accountDeletionService.js:3579-3602 | only objects of the request's own certified assets disappear, after anonymization; the identity only after all of them |
| `ClientSaga.CommitStorageAdvances` | src/services/accountDeletionService.js:3640-3795 | the commit of a storage run is never refused and advances exactly when nothing failed |
| `ClientSaga.NoAssetsUnreachable` | src/services/accountDeletionService.js:3797-3866 | the shortcut for an empty snapshot is never taken |
| `ClientSaga.ProcesandoContinuesIff` | src/services/accountDeletionService.js:2202-2252 | an account in procesando is anonymized exactly when its assets can be certified, its addresses are not shared and the redaction succeeds |
| `ClientSaga.AnonymizesIff` | src/services/accountDeletionService.js:2652-3183 | from any state: exactly when an anonymization goes through, and what it leaves of the person |
| `ClientSaga.PreparesIff` | src/services/accountDeletionService.js:3498-3557 | exactly when a storage preparation goes through: an anonymized account whose snapshot holds only live own rows and this request's tombstones and lists every row that has to go; only live snapshot rows change, into quarantine |
| `ClientSaga.FinalizedRows` | src/services/accountDeletionService.js:3640-3795 | a removed object leaves a tombstone with this request's receipt, a failure its mark, every other row stays, and the failures are counted |
| `ClientSaga.AuthBeginsIff` | src/services/accountDeletionService.js:4154-4211 | an Auth run begins exactly when every earlier stage has left its mark on every table |
| `ClientSaga.StorageContinuesIff` | src/services/accountDeletionService.js:3325-3557 | the storage preconditions follow from the earlier stages, unless a live asset appeared beside the snapshot |
| `ClientSaga.AuthContinues` | src/services/accountDeletionService.js:4028-4211 | the Auth preconditions follow from the earlier stages |
| `ClientSaga.StorageStageAdvancesIff` | src/services/accountDeletionService.js:3877-3964 | a storage stage reaches Auth exactly when no live asset appeared beside the snapshot and every object still stored goes; with such an asset it is refused and changes nothing, otherwise it stays and reports |
| `ClientSaga.AuthStageCompletesIff` | src/services/accountDeletionService.js:4454-4568 | an Auth stage completes exactly when the identity is absent at the end and every lookup it needed answered; otherwise it answers 503 |
| `ClientSaga.ResumesToTheEndIff` | src/services/accountDeletionService.js:4709-4829 | from every state a crash can leave, three stages with the providers answering complete the deletion exactly when nothing but the providers was in the way |
| `ClientSaga.OtherSessions` | src/services/accountDeletionService.js:4709-4829 | whatever other sessions do between two reads keeps the layers and the progress |
| `ClientSaga.ConfirmedThenExecutes` | src/services/accountDeletionService.js:1048-1126 | a confirmation that went through is a replay from then on, and the account is executed exactly when the reauthentication is recent, nothing blocks and the balance closes |
| `ClientStore.AccountStore.ExecuteInternal` | src/services/accountDeletionService.js:1903-2126 | the processing transaction, undone when the points balance does not close |
| `ClientStore.AccountStore.AnonymizeInternal` | src/services/accountDeletionService.js:2652-3183 | the anonymization transaction, undone when its verification fails; the snapshot it stores is exactly the rows that have to go |
| `ClientStore.AccountStore.ValidateAssets` | src/services/accountDeletionService.js:3397-3450 | certifies every asset of a list or stops at the first that fails |
| `ClientStore.AccountStore.PrepareStorage` | src/services/accountDeletionService.js:3498-3557 | when accepted, every live asset of the client is in the snapshot, the snapshot is still this request's and its rows are in its quarantine, row after row; otherwise no row changed |
| `ClientStore.AccountStore.FinalizeStorage` | src/services/accountDeletionService.js:3640-3795 | the loop of tombstones and the loop of failure marks, row after row, make the storage commit; a refusal changes nothing |
| `ClientStore.AccountStore.MarkFailed` | src/services/accountDeletionService.js:3708-3729 | the failures are counted and each failed row of the snapshot is marked, no other |
| `ClientStore.AccountStore.TombstoneDeleted` | src/services/accountDeletionService.js:3677-3706 | each removed row of the snapshot becomes a tombstone of this request, no other |
| `ClientStore.AccountStore.RunStorageCleanup` | src/services/accountDeletionService.js:3877-3964 | preparation, attempts and commit make the storage stage |
| `ClientStore.AccountStore.Orchestrate` | src/services/accountDeletionService.js:4709-4829 | at most five reads under any interference, the iteration limit is never reached, completion is only reported when true and a retry only with the state the request is in; when nothing but the providers is in the way it answers one of these two, and completes when they answer |
| `StaffDeletion.LayersHold` | src/services/accountDeletionService.js:5692-6366 | the same layers over every run, and only approved requests are processed |
| `StaffDeletion.NeverBackward` | src/services/accountDeletionService.js:5692-6366 | once in procesando the request never moves backward |
| `StaffDeletion.ObjectsInOrder` | src/services/accountDeletionService.js:6161-6260 | an object disappears only when it is a processed person's certified portrait |
| `StaffDeletion.IdentityInOrder` | src/services/accountDeletionService.js:6304-6366 | the identity disappears only after every snapshot object |
| `StaffDeletion.StorageStageAdvancesIff` | src/services/accountDeletionService.js:6115-6158 | a storage run advances exactly when no stranger appeared and every object is absent at its end |
| `StaffDeletion.AuthStageCompletesIff` | src/services/accountDeletionService.js:6304-6366 | an Auth run completes exactly when its lookup answered and the identity was absent or is verified absent |
| `StaffDeletion.ResumesToTheEndIff` | src/services/accountDeletionService.js:6398-6452 | every crash state can be finished exactly when no live asset appeared beside the snapshot |
| `StaffDeletion.ExecutionDisables` | src/services/accountDeletionService.js:5692-5833 | an execution refuses and changes nothing, or leaves the account disabled everywhere with a snapshot of exactly the rows to take along: linked, the photo, or an unmarked portrait without entity |
| `StaffDeletion.ExecutesIff` | src/services/accountDeletionService.js:5692-5740 | it is accepted exactly for an approved, unprotected account without dependencies or shared identity whose rows to take along are all its own certified portraits and whose photo is known |
| `StaffDeletion.ProcessedWasClear` | src/services/accountDeletionService.js:5515-5740 | in every run a processed request was first approved and later executed, each time with no dependency in the way and no protection in force |
| `StaffDeletion.ExecutedMeansGone` | src/services/accountDeletionService.js:5692-6366 | once completed, every row that had to go at the execution is marked and without object, and the identity is absent |
| `StaffDeletion.CommitsIff` | src/services/accountDeletionService.js:6115-6158 | a storage commit goes through exactly for an approved request with a right snapshot and reaches Auth exactly when every object is absent on the second reading |
| `StaffStore.StaffRecord.RunStorageCleanup` | src/services/accountDeletionService.js:6161-6260 | answers "processed" exactly when the stored request has passed storage, also when a commit's answer was lost |
| `StaffStore.StaffRecord.RunAuthCleanup` | src/services/accountDeletionService.js:6304-6366 | reports completion exactly when the stored request is completed, also when the commit's answer was lost |
| `StaffStore.StaffRecord.Orchestrate` | src/services/accountDeletionService.js:6398-6452 | at most five readings, no iteration limit, completion only when true, a pending state only as stored; when nothing but the providers is in the way it answers one of these two, and completes when they answer |
| `PaymentRuns.PaymentSafety` | src/services/membershipService.js:1735-2526 | in every run the provider is called at most once per intent, an order is activated at most once, a confirmed intent has stored evidence with its amount, currency and ids, and a client has at most one membership that is not ended and one intent awaiting confirmation per branch |
| `PaymentRuns.EvidenceStays` | src/services/membershipService.js:2221-2273 | stored evidence stays and its intent never becomes fallido |
| `PaymentRuns.NeverQueries` | src/services/membershipService.js:2071-2151 | the session is only stored together with evidence, so reconciliation never asks the provider |
| `PaymentRuns.RecoversIff` | src/services/membershipService.js:1963-2069 | stored evidence is recovered exactly when it came before both expiries and the account can receive the membership; a second recovery reports the duplicate |
| `PaymentRuns.ConfirmsIff` | src/services/membershipService.js:1735-1961 | a confirmation goes through exactly for an intent not yet resolved, with evidence of its amount and currency, an account that can receive the membership and a provider id not used elsewhere; then the order is paid with a new active membership |
| `PaymentRuns.StaysRecoverable` | src/services/membershipService.js:1963-2069 | in every later state the payment is confirmed or recoverable on those terms |
| `PaymentRuns.ClaimExcludesOthers` | src/services/membershipService.js:2286-2372 | a claim that goes through is the first of its intent, before any charge, and until it is resolved no attempt can claim that intent or another of the same client and branch |
| `PaymentRuns.ClaimGoesThroughIff` | src/services/membershipService.js:2286-2372 | a claim goes through exactly when the intent is the client's, still has its link, is before both expiries, alone in its scope, and the card is valid |
| `PaymentRuns.ChargedWasTimely` | src/services/membershipService.js:2286-2372 | in every run the provider is only called for an intent that was claimed on those terms, before both expiries |
| `PaymentRuns.IntentCreatedIff` | src/services/membershipService.js:1362-1480 | a payable order gets one intent with its amount, currency and expiry, thirty minutes without one; asked again it answers with the one it has; anything else is refused |
| `PaymentStore.MembershipStore.Confirm` | src/services/membershipService.js:1735-1961 | the confirmation with all its refusals, undone when the provider id belongs to another payment |
| `PaymentStore.MembershipStore.CancelActiveSubscriptionForSameBranch` | src/services/membershipService.js:1586-1617 | afterwards the client has no live membership at the branch; an ended one keeps its owner, branch and order, every other row is as it was |
| `PaymentStore.MembershipStore.PersistVerifiedEvidence` | src/services/membershipService.js:2221-2273 | afterwards the newest evidence of the intent is this one and fits it, the session is known if the intent was pending, and no state and no other intent's evidence moved |
| `PaymentStore.MembershipStore.Recover` | src/services/membershipService.js:1963-2069 | the recovery from the newest evidence with its refusals |
| `PaymentStore.MembershipStore.ProcessSale` | src/services/membershipService.js:2275-2526 | a whole sale answers "processed", with an active membership of the client, exactly when the intent may be claimed, the provider approves and the account can receive it; "rejected" exactly after a certain refusal and "pending" exactly after an uncertain one |
| `Crossing.NoMembershipUnderDeletion` | src/services/accountDeletionService.js:1966-1996 | in every interleaving of both services a client whose request is in procesando or later has no live membership |
| `Crossing.NeverGainsOne` | src/services/membershipService.js:1749-1754 | from then on no later state has one |
| `Crossing.ProcessingIsExecution` | src/services/accountDeletionService.js:1949-1996 | the only step that starts processing a client is an execution for that client while all of the client's intents are resolved or expired; it cancels exactly the client's unpaid orders and ends the client's memberships and no other client's |
| `Crossing.RecoversBesideIff` | src/services/membershipService.js:1963-2069 | beside deletions stored evidence is recovered exactly when it came in time, the order can still be served and the client's account is active with no deletion begun or holding it |
| `Crossing.PaymentAddsNone` | src/services/membershipService.js:1847-1868 | no payment step gives a membership to a client whose deletion is under way |

## Left out

- SQL text, pools, lock syntax, Fastify plugins, mail templates, environment parsing, routes and
  schema preflight: no property of their own. A transaction is one atomic step, the identity lock
  is the runner that is not idle, serialization conflicts are steps that did not happen.
- PixelPay, TodoPago, Supabase Auth and Storage and the `app_private` functions are oracles with
  the contracts stated above. The payment simulator (development only) and the writers of intents
  in other routes are not modelled, nor are subscriptions created or cancelled by hand.
- Tokens, reauthentication ages, permission tables and the decision permissions of administrators
  are boolean inputs. The administrator's retry loop for client requests is not modelled; it runs
  the same stages.
- A database connection lost without closing its session lock, and a rollback that fails.
- The points ledger: the balance before and the balance the final check reads are inputs.
- Per-column anonymization: each record's redaction is one flag.
- Checkout.BuildAppointmentDetailRows: the service's name and reference price, copied into a row for
  display, are not part of it.
- Keys joined into one string (occupied places, combination signatures, line keys) are tuples.
- JavaScript trimming, number coercion and missing-field defaults: values arrive normalized, except
  where a branch depends on them.
- `toFixed` rounds half up on exact cents; collation is an abstract rank; Intl formatting and time
  zones are local minutes.
- DispatcherObject.AgendaDispatcher.DeliverPolled: keeps subscribers as values in its map instead of
  references to `Subscriber.Subscriber` objects, so sharing of one object between closures is not captured.
- Replay.ResumesWithoutGap: a replay's query and its deliveries are one step, and what happens to a
  `drain` event that arrives before the subscription call returns (it is lost) is only visible as the
  missing step.
- Dispatcher.RunOrderly: for addresses that normalize to themselves; starting the dispatcher again
  while a stop still waits for a poll is not modelled.
- Delivery.DeliveredExactly: for transports that do not throw, runs in which the cursor is not
  initialised again, and retention that never removes rows the poll has not read.
- ClientStore.AccountStore.RunStorageCleanup: a storage call that throws is a crash of the run, which
  `ClientSaga.LayersHold` covers; the method itself sees removals that work or do not.
- PaymentStore.MembershipStore.ProcessSale: one sale without interruption; interruptions and the clock
  are steps of `Payments.Run`.
- Availability by range, curated debug output, membership display and history, alerts, admin listing:
  field mapping and single-branch checks around the parts modelled here.
