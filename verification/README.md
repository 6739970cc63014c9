# Turf booking backend: a verified model

This project models the core of a turf (sports ground) booking backend and proves what it promises: bookings and their
status machine, pricing, cancellation refunds, coupons, payments, virtual-slot availability, recurring subscriptions, and
tournament standings with their qualification rules. `dafny verify dfyconfig.toml` checks everything.

## How the model is laid out

- `Common`, `Rounding`, `StableSort`: options and results, times of day in minutes (0..1439), dates as day numbers with the
  weekday as remainder modulo 7, round-half-to-even (the default rounding of the General Decimal Arithmetic specification),
  and the stable descending sort. Money is in paise, percentages in hundredths.
- `BookingStates`, `Pricing`, `Cancellation`, `Coupons`, `TurfAvailability`: the rules and loops of one component each.
- `Store`: the rows, the shared queries and the database object that the services update in place.
- `BookingService`, `PaymentService`, `SubscriptionService`: classes whose methods follow the services statement by statement.
  Each method is proved against a function that gives the whole new database and the answer, refusals included.
- `BookingFacts`, `PaymentFacts`: what booking and cancelling, and payment calls, mean together.
- `Runs`, `CouponRuns`, `RefundRuns`, `SubscriptionRuns`, `LateSlots`, `Deliveries`: every service call is atomic; statements
  about all runs.
- `BookingProtocol`, `DeliveryInterleavings`: the same handlers cut at their database reads and commits; statements about all
  interleavings. The lock key is any function of turf and date, so truncated hashes that collide are covered.
- `Subscriptions`, `SubscriptionTerms`, `SubscriptionFacts`, `AvailabilityAgreement`: who may subscribe, and agreement between
  what is offered and what is accepted.
- `Standings`, `StandingsFacts`, `Formula`, `FormulaGrammar`, `FormulaLaws`, `Qualification`, `QualificationFacts`: tournaments. A
  formula is a list of tokens; the parser covers sums, products, prefixes, powers and parentheses of the Python Language
  Reference, sections 6.5 to 6.7 and 6.17, with every operator the walker rejects. Machine arithmetic is a parameter; only the
  laws in `FormulaLaws` assume that it is exact.

Gateway answers, signatures, the clock and the identity of callers are inputs of the calls, so every theorem holds for all of
them.

## What the proofs found

Each of these is the code's behaviour, with a run or input that shows it and the exact condition under which it does not occur.

1. Status writers (payment callback, webhook, cancellation, admin transitions) read a booking and later write it without a row
   lock. The column `version` is described as optimistic locking (app/bookings/models.py:58-59) but no write checks it. A writer
   whose row was cancelled in between revives it, and the same slot can be booked twice in spite of the advisory lock that the
   repository's README.md:120 relies on. The step system takes a guard on status writes as a parameter, and for every guard all
   interleavings are safe iff the guard rejects each stale write they come to. No guard, as in the code, is unsafe from the empty
   database; comparing the version makes every interleaving safe; so does any guard that never lets an inactive row become
   active; a guard that lets a confirmation through on a booking cancelled since it was read is unsafe.
2. Overlapping success deliveries each emit `booking.confirmed`. Settled schedules emit it once per booking read taken while the
   booking was pending, hence at most once iff no two handlers are ever between such a read and their commit. Verifying a UPI
   payment emits it again for a booking confirmed before.
3. A refund is requested from the gateway before the booking status is checked. The books record it iff the booking is cancelled
   at that moment, and over every run the requests for a booking exceed its recorded refunds by exactly the others. A late failure
   delivery, a repeated capture and a repeated request do make the gateway refund twice.
4. With capacity above one a slot is listed as available but refused iff 1 <= overlaps < capacity.
5. Price overrides are listed but not charged, and a last slot cut at 23:59 is listed but not charged.
6. The subscription scan adds minutes modulo one day and runs for ever iff the last grid time of the day is within its limit,
   for instance with opening 06:00, closing 23:59 and a duration of 15 minutes.
7. A late payment event revives a cancelled subscription; its slots collide with others iff they were taken meanwhile.
8. A subscription slot that starts at 23:00 or later is stored with an end before its start. The overlap conditions do not match
   two such rows with each other, so a second customer's request for the same hour is accepted, and activating both leaves two
   confirmed bookings of the same minutes. From the empty database no run books a minute twice iff no slot may start at 23:00 or
   later, whatever set of starting times is allowed. "Overlap" in what the conflict query sees and "a minute booked twice" are
   therefore kept apart: `NoOverlap` and `HeldOnce`, `Collide` and `Meet`; they agree when rows end after they start.
9. A percentage rule below -100% followed by a surcharge makes a dearer base price cheaper in total. For a rule that matches, some
   pipeline that begins with it and goes on with rules of at least -100% does so iff the rule is below -100%.
10. In formulas, a name that prints negative right behind an operand is read as a subtraction, so a formula that is no formula
    gets a value. This happens iff the text parses once that minus is read so.
11. Computed standings never carry hours, so an hours rule qualifies everyone or nobody, and never makes ranks collide.
12. A rule ranks the qualified teams anew and leaves the ranks of the others. Afterwards all ranks differ iff, before it, the
    teams that pass a formula stand above those that fail, or, for a top-n rule, the first n rows have enough matches and no later
    row that has enough gets a greater key. The default order meets this; a top-one rule by goals conceded makes two teams share
    rank 1 after a single match.
13. Every gateway order opens another payment of a booking. With two open ones UPI is shut out: its query expects at most one row.
14. Cancelling a booking does not give its coupon use back.
15. A failure webhook, or a callback with a bad signature, that arrives after a success marks the payment failed although the money
    arrived and the booking stays confirmed. A payment counts as paid iff some delivery said so and no such delivery came later.

## Model

| member | source | states |
|---|---|---|
| BookingStates.ChainsDescend | app/bookings/state_machine.py:24-42 | a chain of n transitions lowers the rank by at least n, so no status is revisited, chains have at most four steps, and a slot-holding status is reached only from slot-holding ones |
| BookingStates.LongestChain | app/bookings/state_machine.py:24-42 | the bound of four is met: pending, confirmed, cancelled, refund pending, refunded |
| BookingStates.HistoriesOfABooking | app/bookings/state_machine.py:24-42 | after n moves from pending a booking has one of exactly the listed statuses: confirmed or cancelled; completed, no-show, cancelled or refund pending; refund pending or refunded; refunded |
| Rounding.HalfEvenUnique | app/bookings/pricing_engine.py:172-182 | the rounding used for every price: the one nearest integer, the even one on a tie, in both directions |
| Pricing.RunPipeline | app/bookings/pricing_engine.py:97-140 | the loop with its set of used exclusive types computes the declarative breakdown, in which a rule applies iff it matches and, unless stackable, no earlier exclusive rule of its type matched; and the last override that applies decides the subtotal |
| Pricing.LedgerBalances | app/bookings/pricing_engine.py:97-140 | after any number of rules the running price is the base price plus the recorded effects |
| Pricing.OneExclusivePerType | app/bookings/pricing_engine.py:107-117 | per rule type exactly one exclusive rule takes effect when any matches, and it is the first in the loaded order |
| Pricing.OverrideForgets | app/bookings/pricing_engine.py:172-182 | once an override has applied, the price no longer depends on the base price or on the amounts of earlier rules |
| Pricing.BreakdownBounds | app/bookings/pricing_engine.py:124-140 | subtotal and tax are never negative, tax is 18% rounded half to even, and a positive subtotal equals base plus effects minus discounts |
| Pricing.EffectMeaning | app/bookings/pricing_engine.py:172-182 | how one adjustment treats any two prices: an override makes both its value, a fixed rule keeps their difference and takes nothing to its value, a percentage scales the difference up to one paisa of rounding and takes nothing to nothing, an unknown adjustment leaves every price alone |
| Pricing.RoundedSurchargeIsRoundedPriceIff | app/bookings/pricing_engine.py:172-182 | the surcharge is rounded, not the new price: the two differ iff the surcharge is an exact tie on an odd price |
| Pricing.LastOverrideDecides | app/bookings/pricing_engine.py:97-140 | once an override applies and only fixed rules apply after it, the subtotal is its value plus theirs less the discounts, or 0, whatever came before; an override after an exclusive match of its type does not apply unless it stacks |
| Pricing.OverrideChargedIff | app/bookings/pricing_engine.py:142-170 | a single override changes the subtotal to its value iff the weekday is listed, the start lies from the opening of the time range until before its end, booking and slot type agree, and the date lies in the validity, ends included; else the base price stays |
| Pricing.EffectKeepsOrderIff | app/bookings/pricing_engine.py:172-182 | a rule keeps the order of any two prices, rounding included, iff it is no percentage below -100% |
| Pricing.PipelineMonotone | app/bookings/pricing_engine.py:97-140 | without percentages below -100%, a larger base price never gives a smaller total and a larger discount never a larger total |
| Pricing.SurchargeRevealsDrop | app/bookings/pricing_engine.py:124-140 | a matching percentage below -100% followed by one fixed surcharge: the base price 100.00 gets total 0 and the base price 0 a positive one |
| Pricing.NeverCheaperIff | app/bookings/pricing_engine.py:97-140 | for a matching rule: whatever rules of at least -100% follow, a dearer base price never gives a cheaper total, iff the rule is no percentage below -100% |
| Cancellation.ComputeRefund | app/bookings/service.py:521-562 | the sorted walk with its early exit refunds the share of the best reached tier, rounded half to even; everything without a policy |
| Cancellation.SortedWalkFindsBest | app/bookings/service.py:547-554 | the first reached tier of the sorted list is the reached tier that asks for most hours, the earliest listed on a tie |
| Cancellation.BestTierIsBest | app/bookings/service.py:547-554 | there is a deciding tier iff some tier is reached; it is reached and no reached tier asks for more hours |
| Cancellation.RefundMeaning | app/bookings/service.py:521-562 | everything is refunded without a policy; otherwise the rounded share of the tier that asks for most whole hours among those asking for no more than are left, the first listed on a tie, and nothing when there is none |
| Cancellation.RefundWithinPrice | app/bookings/service.py:533-562 | with percentages from 0 to 100 a refund lies between 0 and the price |
| Cancellation.EarlierNeverRefundsLess | app/bookings/service.py:521-562 | when tiers with more hours refund at least as much, cancelling earlier never refunds less |
| Coupons.DiscountBounds | app/coupons/service.py:82-150 | a granted discount is within the amount, the cap and half a paisa of the share, non-negative for non-negative settings, and granted only in date, above the minimum and below the usage limit |
| Coupons.DiscountGrantedIff | app/coupons/service.py:82-150 | a discount is granted iff the coupon is active, in date, under its limit, and the amount, turf, sport and booking type are among those it is for; and it is the largest that the amount, its value or rounded share, and the cap on a share allow |
| CouponRuns.UsesMatchBookings | app/coupons/service.py:110-162 | over any run of atomic calls used_count grows by exactly the number of bookings created with a positive discount of the coupon, and never passes an unlowered limit |
| TurfAvailability.CellsExactlyFit | app/turfs/availability.py:170-207 | the number of grid cells is exact: cell k is generated iff it starts inside the rule window and ends by the window end |
| TurfAvailability.GridShape | app/turfs/availability.py:170-207 | cells lie in the window, in order and disjoint; a cell is shorter than the rule duration iff it is cut at 23:59, and then it is the last one of a rule ending at 23:59 |
| TurfAvailability.RuleCellsExact | app/turfs/availability.py:146-208 | a rule yields exactly its fitting cells that overlap no blocked range, in order and disjoint; a blocked cell never shifts the grid |
| TurfAvailability.OverridePriceMeaning | app/turfs/availability.py:151-200 | the first price override whose window contains a slot picks the window, the last one stored for that window sets the price; without one the slot keeps the price of its rule |
| TurfAvailability.AppendRuleSlots | app/turfs/availability.py:162-207 | the cursor loop ends and appends one fresh slot object per unblocked cell of the rule |
| TurfAvailability.GenerateSlots | app/turfs/availability.py:136-208 | the slots of a day are the open cells of all bookable rules in order, or none on a fully blocked day |
| TurfAvailability.MarkSlot | app/turfs/availability.py:210-226 | decrementing in place with early exit equals counting all overlaps: remaining capacity is max(0, capacity - overlaps) and availability holds iff there are fewer overlaps than capacity |
| TurfAvailability.MarkConflicts | app/turfs/availability.py:210-226 | every slot of a list of distinct objects is so marked, none disturbs another |
| TurfAvailability.OverlapCountIgnoresOrder | app/turfs/availability.py:210-226 | the order of the bookings changes neither count nor marking |
| AvailabilityAgreement.ComputeAvailability | app/turfs/availability.py:38-73 | generation and marking on the committed bookings: each slot shows its cell, remaining capacity and availability |
| AvailabilityAgreement.DayViewExact | app/turfs/availability.py:38-208 | the day view lists exactly the cells k of active rules of the weekday in their validity, start + k durations long, ending in the rule or at 23:59, not of a blocked or maintenance type and overlapping no blocked range; none on a fully blocked day |
| AvailabilityAgreement.DayRulesAscend | app/turfs/availability.py:38-73 | the rules of a day are taken in ascending order of their start |
| AvailabilityAgreement.NoOverlapsIffNoConflict | app/bookings/conflict_checker.py:35-52 | the availability count is zero iff the conflict query finds no row |
| AvailabilityAgreement.AvailableButRefusedIff | app/bookings/service.py:70-82 | a slot shown available is refused for a conflict iff 1 <= overlaps < capacity; with capacity one the view and the conflict query agree in both directions |
| AvailabilityAgreement.AvailableSlotCanBeBooked | app/bookings/service.py:56-87 | booking a slot listed as available, of capacity one, succeeds |
| AvailabilityAgreement.SlotsCharged | app/bookings/service.py:509-511 | a range of consecutive cells is charged one slot per full-length cell, and at least one |
| AvailabilityAgreement.ChargedEqualsListedIff | app/bookings/service.py:484-511 | for consecutive slots of the only covering rule without price overrides, the base price charged equals the sum listed iff the last slot has full length, or is the only one, or is free of charge |
| AvailabilityAgreement.OverridePriceIsNotCharged | app/bookings/service.py:484-511 | a listed override price is charged iff it equals the rule price |
| Store.OneOrNoneMeaning | app/payments/service.py:151-158 | a lookup that expects at most one row finds row i iff i alone satisfies it |
| Store.AppendKeepsNoOverlap | app/bookings/conflict_checker.py:35-52 | a row appended for a range where the conflict query finds nothing leaves no two rows that the query would match against each other |
| Store.UprightHeldOnceIff | app/bookings/conflict_checker.py:35-52 | when rows end after they start, no two rows match each other in the conflict query iff no minute of a turf is booked twice |
| Store.RefusedIffMinuteTaken | app/bookings/conflict_checker.py:35-52 | the conflict query finds a row for a range iff a pending or confirmed booking of the turf and date takes one of its minutes |
| BookingService.Service.ResolveBasePrice | app/bookings/service.py:484-511 | the first covering active rule prices the range; nothing when no rule covers it |
| BookingService.Service.CreateBooking | app/bookings/service.py:49-157 | the whole new database and outcome: phone, conflict and rule checks in order, a pending row at the computed price, the coupon counted iff it gave a positive discount, one event |
| BookingService.Service.CreateManualBooking | app/bookings/service.py:159-314 | the same for a confirmed row with its successful manual payment and optional price override that needs a reason |
| BookingService.Service.CancelBooking | app/bookings/service.py:387-426 | only owner or admin, only from cancellable statuses; status, refund amount and version change, nothing else |
| BookingFacts.CreateSucceedsIff | app/bookings/service.py:56-87 | a booking is accepted iff the customer has a phone, no active row overlaps, and some active rule for the weekday of the date (date modulo 7) opens no later and closes no earlier; each refusal has its own reason, in this order, and changes nothing |
| BookingFacts.CreateManualSucceedsIff | app/bookings/service.py:170-207 | the same for manual bookings, with a reason for an overridden price in place of the phone; each refusal has its own reason and changes nothing |
| BookingFacts.CreateAdds | app/bookings/service.py:115-141 | exactly one pending row for the requested range at the computed total is added; earlier rows, payments and subscriptions stay |
| BookingFacts.CreateManualAdds | app/bookings/service.py:233-287 | exactly one confirmed row and one successful manual transaction over exactly what the row charges: the override, or else the computed total |
| BookingFacts.OtherRulesAreIgnored | app/bookings/service.py:484-511 | adding or removing inactive rules, or rules of other weekdays, changes nothing about either way of booking: not the outcome, the prices or any row |
| BookingFacts.FirstRuleSetsPrice | app/bookings/service.py:484-511 | the first rule that serves the request sets the base price, one slot price per full duration and at least one; tax and final price are those of the turf rules on that base and discount |
| BookingFacts.DiscountIsTheCoupons | app/bookings/service.py:89-113 | the discount of a row is exactly that of its coupon, and a coupon that is unknown or fails its checks leaves everything as without one |
| BookingFacts.SecondRequestRefused | app/bookings/service.py:70-82 | of two overlapping requests at most one is accepted, whichever of the two ways of booking they take |
| BookingFacts.CancelFreesOwnRange | app/bookings/service.py:387-410 | after a cancellation a range is free iff it conflicted with at most the cancelled row |
| BookingFacts.CancelReopensSlot | app/bookings/service.py:387-410 | book, cancel, book again succeeds; other rows are as before, but the coupon stays counted |
| BookingFacts.CancelSucceedsIff | app/bookings/service.py:387-426 | a cancellation succeeds iff the booking exists, the caller owns it or is an administrator, and it is pending or confirmed; a second one is refused and changes nothing |
| BookingFacts.CancelRecordsRefund | app/bookings/service.py:397-426 | an accepted cancellation records and announces the refund of the turf policy for the hours left, and changes nothing else |
| BookingFacts.MovesAreOneWay | app/bookings/service.py:428-448 | an accepted move sets the status, raises the version by one and announces a confirmation as such; the same move and the move back are then refused, and no other booking changed |
| BookingFacts.MovableIffNotTerminal | app/bookings/service.py:428-448 | a booking can be moved somewhere iff its status is not completed, no-show or refunded |
| PaymentFacts.OrderOpensPayment | app/payments/service.py:68-126 | a gateway order opens exactly one more payment, over the booking price, iff the booking is pending and the gateway gave an order; otherwise nothing changes |
| PaymentFacts.UpiOpensOneIff | app/payments/service.py:408-468 | a UPI initiation succeeds iff UPI is set up, the booking is a pending one of the caller, and at most one payment is open; it adds one iff none is, leaves exactly one open, and changes nothing when it fails |
| PaymentFacts.UpiStepsIff | app/payments/service.py:470-565 | only the payer reports a payment that is initiated or processing, only a processing one is verified, only an initiated or processing one rejected |
| PaymentFacts.UpiAgainAddsNothing | app/payments/service.py:432-439 | a second UPI initiation reuses the open payment and changes nothing |
| PaymentFacts.TwoOrdersBlockUpi | app/payments/service.py:432-439 | after two gateway orders for one booking its UPI initiation fails: the query finds two rows |
| PaymentFacts.UpiPaysBooking | app/payments/service.py:408-536 | start, report and verify: the payment ends successful over the price of the booking, which is confirmed with one more version |
| PaymentFacts.RejectionClosesPayment | app/payments/service.py:470-565 | a report keeps a payment open and verifiable; a rejection closes it: it can be neither verified, reported nor rejected again, and if it was the only open one a new payment can be started |
| PaymentFacts.SucceedsOnlyAfterReport | app/payments/service.py:470-536 | over every run of any calls a payment without a gateway order is successful or refunded only if it was in processing at some moment |
| PaymentFacts.UpiOutcomeIsFinal | app/payments/service.py:495-565 | over every run the success or failure of a payment with no gateway order and no gateway id never changes |
| PaymentService.Service.HandleCallback | app/payments/service.py:128-250 | bad signature, unknown order, repeated success, contradicted and successful payment: the exact new tables, events and answer |
| PaymentService.Service.ProcessCaptured | app/payments/service.py:282-314 | a captured webhook confirms a still pending booking once; an unknown order or a finished payment changes nothing |
| PaymentService.Service.ProcessFailed | app/payments/service.py:381-404 | a failed webhook marks the transaction failed whatever it was and leaves the booking |
| PaymentService.Service.InitiateRefund | app/payments/service.py:316-379 | the gateway is asked before the booking status is checked; the rows change only when that check passes |
| PaymentService.Service.VerifyUpiPayment | app/payments/service.py:495-536 | only a processing payment succeeds; its pending booking is confirmed; a confirmed booking is announced again |
| Subscriptions.NextOccurrenceUnique | app/subscriptions/service.py:47-50 | d is the next occurrence iff it is the one day from today to six days ahead with the wanted weekday |
| Subscriptions.CursorClosedForm | app/subscriptions/service.py:63-65 | n wrapping steps of 30 minutes are one wrapping step of 30n minutes |
| Subscriptions.ScanEndsIff | app/subscriptions/service.py:155-188 | the candidate scan stops iff the last half-hour grid time of the day lies past its limit; otherwise it wraps round midnight for ever |
| Subscriptions.ScanEndsForLongSlots | app/subscriptions/service.py:155-188 | for 30 <= duration <= closing time the scan ends and its limit does not wrap |
| Subscriptions.ScanCanRunForever | app/subscriptions/service.py:155-188 | open 06:00, close 23:59, 15 minutes: no number of steps passes the limit |
| Subscriptions.Scan | app/subscriptions/service.py:155-190 | when the scan ends it lists every half-hour start up to its limit with the right verdict and reason |
| SubscriptionFacts.ScanListsFittingStarts | app/subscriptions/service.py:155-190 | for 30 <= duration <= closing time start open + 30k is listed iff it ends by closing time, each with its true end |
| SubscriptionFacts.OffersFillTheHours | app/subscriptions/service.py:117-190 | the hours of the weekday, 06:00 to 23:30 where there are none, narrowed to those of the plan, are offered from their opening in half-hour steps as long as the slot ends in them |
| SubscriptionFacts.OfferMatchesCheck | app/subscriptions/service.py:159-188 | a candidate is offered as available iff the same slot passes the booking and subscription checks made at initiation, and otherwise shows which of them refuses it |
| SubscriptionFacts.OffersHonoured | app/subscriptions/service.py:192-337 | a request of an eligible customer for as many listed, pairwise disjoint slots as the hours of the plan give is accepted iff every slot was listed as available |
| SubscriptionFacts.AcceptedSlotIsHourIff | app/subscriptions/service.py:192-337 | each slot of an accepted request is stored with its start, as one hour that ends after it starts iff it starts before 23:00; from then on its end wraps |
| Subscriptions.RightNumberIff | app/subscriptions/service.py:53-60 | the number of weekly slots of a plan of h hours is the n of at least one with 4n <= h < 4(n+1), or 1 when h is below 8; 1 without hours |
| SubscriptionTerms.InitiateSucceedsIff | app/subscriptions/service.py:192-337 | a request is accepted iff the customer may subscribe to the plan and turf, asks for exactly that number of slots, each ending an hour later within the plan window, free on every date of its weekday in the next 28 days and not held by a pending or active subscription, no two seeming to meet |
| SubscriptionTerms.AcceptedIsPending | app/subscriptions/service.py:263-301 | an accepted request leaves one open UPI payment over the plan price and one pending subscription of the customer that waits for it and holds the slots asked for, each one hour; nothing else changes |
| SubscriptionTerms.StartsOnFirstDate | app/subscriptions/service.py:274-287 | a subscription starts on the first date, today or later, with the weekday of one of its slots, and expires 28 days later |
| SubscriptionTerms.HoursAreWithinPlan | app/subscriptions/service.py:53-60 | an accepted request stores that number of slots, and activating it at any time books at most as many one-hour rows as the plan has hours, or four |
| SubscriptionFacts.DatesCheckedAreDatesBooked | app/subscriptions/service.py:480-528 | the dates booked at activation are the dates checked at initiation, week by week, and lie in [starts_on, expires_on) |
| SubscriptionFacts.ActivationFillsEveryCell | app/subscriptions/service.py:375-394 | activation adds at most 4 confirmed rows per slot, all of this subscription and none that the conflict query matched, leaves every (slot, week) cell that does not wrap held by an active booking, and books no minute twice when rows and slots end after they start |
| SubscriptionFacts.RedeliveryIsIgnored | app/subscriptions/service.py:380-389 | delivering the payment event again, on any day, changes nothing |
| SubscriptionFacts.CancelFreesFutureSlots | app/subscriptions/service.py:408-464 | after a cancellation no booking of the subscription dated today or later is active; other bookings, and past ones unless asked for, are untouched |
| SubscriptionFacts.CancelSucceedsIff | app/subscriptions/service.py:408-464 | a subscription is cancelled iff it exists and the caller owns it or is an administrator; a second cancellation changes nothing, and neither does a refused one |
| SubscriptionService.Service.Availability | app/subscriptions/service.py:100-190 | weekday and turf checks, the window narrowed by the plan, then the scan |
| SubscriptionService.Service.NormalizeSlots | app/subscriptions/service.py:217-244 | the first slot that has the wrong length or leaves the plan window decides; otherwise every slot with its derived end |
| SubscriptionService.Service.ValidateNoConflicts | app/subscriptions/service.py:480-514 | a booking on one of the four dates, then a live subscription; several holders make the query itself fail |
| SubscriptionService.Service.InitiateSubscription | app/subscriptions/service.py:192-337 | all checks in order; acceptance stores one payment and one pending subscription and nothing else |
| SubscriptionService.Service.CreateWeeklyBookings | app/subscriptions/service.py:516-556 | the nested loop over slots and weeks, whose conflict query sees the rows just added, books exactly the free cells |
| SubscriptionService.Service.ActivateAfterPayment | app/subscriptions/service.py:375-406 | only an already active subscription is skipped; otherwise status, bookings and event change |
| SubscriptionService.Service.CancelBookings | app/subscriptions/service.py:436-451 | the loop cancels exactly the active chosen rows, one version each |
| SubscriptionService.Service.CancelSubscription | app/subscriptions/service.py:408-464 | owner or admin; a second cancellation changes nothing |
| Runs.EveryCallSound | app/bookings/service.py:397-408 | no atomic call of any service, whatever its inputs, leaves two rows the conflict query would match, leaves the status machine, breaks a version or charge bound, or records a second refund; and none books a minute of a turf twice when every row and weekly slot ends after it starts |
| Runs.EveryRunSound | app/payments/service.py:228-236 | over every run rows only move along transitions with exactly one version each and keep what was booked and charged; no minute of a turf is ever booked twice when no weekly slot asked for starts at 23:00 or later |
| Runs.StatusNeverReturns | app/bookings/state_machine.py:24-42 | between any two moments of a run no status is revisited, a freed slot is never taken back by the same booking, and versions stay within 5 |
| Runs.EveryRunBoundsRefunds | app/bookings/service.py:521-562 | over every run under policies with percentages from 0 to 100 every computed refund lies between 0 and the price of its booking |
| SubscriptionRuns.StatusChangeKeepsDisjointIff | app/subscriptions/service.py:375-394 | changing the status of a subscription keeps the weekly minutes of live subscriptions disjoint iff it does not revive one whose slots meet another live one, or one another |
| SubscriptionRuns.CallKeepsDisjointIff | app/subscriptions/service.py:245-288 | any call keeps the weekly minutes of live subscriptions disjoint iff the subscription it stores or revives meets no live one |
| SubscriptionRuns.LiveSlotsStayDisjoint | app/subscriptions/service.py:480-514 | in runs that revive nothing and start no slot at 23:00 or later, live subscriptions of one turf never share a minute of the week |
| SubscriptionRuns.RevivalCollides | app/subscriptions/service.py:375-394 | for every hour before 23:00 a five-call run from the empty database, after which the pending success event makes two live subscriptions hold that hour |
| SubscriptionRuns.UprightMeetIff | app/subscriptions/service.py:499-511 | for slots that end after they start the overlap condition of the query holds iff they share a minute of the week |
| SubscriptionRuns.EarlyStartAvoids | app/subscriptions/service.py:245-288 | when all slots start before 23:00, a stored subscription shares no minute with any live one of its turf, nor do its own slots |
| LateSlots.LateHourIsInvisible | app/bookings/conflict_checker.py:35-52 | a slot from 23:00 on wraps, and the conflict query matches it neither against itself nor against any evening range, only against ranges that begin in its minutes after midnight and outlast its start |
| LateSlots.LateHourAccepted | app/subscriptions/service.py:192-337 | with no bookings yet, a request for such a slot passes every check of initiation while any number of live subscriptions hold that very slot |
| LateSlots.LateHourSoldTwice | app/subscriptions/service.py:499-556 | for every starting time from 23:00 on an eight-call run from the empty database after which two customers hold confirmed bookings of the same minutes, with nothing the conflict query would match |
| LateSlots.HeldOnceIffNoLateStart | app/subscriptions/service.py:217-244 | whatever set of starting times is allowed: no run from the empty database books a minute twice iff no time from 23:00 on is allowed |
| LateSlots.DisjointIffNoLateStart | app/subscriptions/service.py:499-511 | the same for the weekly minutes of live subscriptions, over the runs that revive nothing |
| RefundRuns.RefundRecordedIffCancelled | app/payments/service.py:316-366 | the gateway is asked, for exactly the refund on the booking, iff that is neither missing nor zero, one successful payment with a gateway id exists and the gateway accepts; the books record it iff the booking is cancelled, and otherwise the rows stay |
| RefundRuns.RecordedRefundIsCovered | app/payments/service.py:351-366 | over any run under policies with percentages from 0 to 100 a recorded refund lies between 0 and the amount of its transaction, and no other transaction of the booking records one |
| RefundRuns.RequestsBeyondRecords | app/payments/service.py:316-379 | over every run the requests sent to the gateway for a booking exceed the refunds recorded for it by exactly the requests that found it not cancelled |
| RefundRuns.AskedOnceWhenCancelled | app/payments/service.py:316-379 | so the gateway is asked at most once more than there are such requests, and requests equal records iff every request found the booking cancelled |
| RefundRuns.GatewayRefundsTwice | app/payments/service.py:316-366 | a seven-call run in which the gateway is asked to refund one booking twice while the books record one refund |
| Deliveries.DeliveriesConverge | app/payments/service.py:164-248 | any order and repetition of callbacks and webhooks of one initiated payment of a pending booking: it ends confirmed iff one said success, its version rises by one, one confirmation is emitted, no other booking changes |
| Deliveries.PaidIff | app/payments/service.py:282-404 | after any sequence of deliveries the transaction is successful iff one of them said so and no failure webhook or badly signed callback came after it, although the booking stays confirmed |
| Deliveries.DeliveryOrderIrrelevant | app/payments/service.py:282-314 | two delivery histories that agree on whether money arrived leave the same bookings |
| Deliveries.VerificationAnnouncesIff | app/payments/service.py:509-536 | verifying a UPI payment confirms its booking iff that was pending, and announces a confirmation also for one confirmed before |
| DeliveryInterleavings.OverlappingDeliveries | app/payments/service.py:282-314 | with reads and commits of the handlers interleaved in any way: confirmed iff a success delivery finished, with exactly one new version, and otherwise still pending |
| DeliveryInterleavings.EmittedOnceIff | app/payments/service.py:228-248 | the confirmation is emitted once per booking read of the schedule taken while the booking was pending; at most once iff no two handlers were ever between such a read and their commit at once |
| DeliveryInterleavings.ConfirmationCanBeEmittedTwice | app/payments/service.py:228-248 | an interleaving of two success deliveries that emits the confirmation twice |
| BookingProtocol.StepKeepsInv | app/bookings/service.py:63-135 | every step of every request except a stale write keeps: no overlapping active rows, locks held by exactly the requests between lock and commit, no conflict with any checked request |
| BookingProtocol.NoDoubleBooking | app/bookings/service.py:186-285 | in every interleaving without stale writes, of any number of requests, for any lock key and any guard, no minute of a turf is booked twice |
| BookingProtocol.UnchangedIsNotStale | app/bookings/models.py:58-59 | a status write on the row as it was read is never stale, follows one transition and raises the version by one |
| BookingProtocol.WriteKeepsNoOverlapIff | app/payments/service.py:228-236 | a status write keeps the table free of overlaps iff it does not activate an inactive row whose range is taken by now |
| BookingProtocol.StaleWriteDoubleBooks | app/bookings/service.py:565-568 | whenever a stale write is let through in a sound state, some continuation books a minute twice, in spite of the locks |
| BookingProtocol.SafeIffGuardRejectsStale | app/bookings/service.py:397-410 | for every guard on status writes and every key: no interleaving from a sound state ever books a minute twice iff the guard rejects every stale write an interleaving comes to |
| BookingProtocol.SafeWhenGuardNeverRevives | app/bookings/state_machine.py:24-42 | a guard that never lets an inactive row become active makes every interleaving safe |
| BookingProtocol.VersionCheckIsSafe | app/bookings/models.py:58-59 | with the version compared on every status write, no interleaving from any sound state ever books a minute twice |
| BookingProtocol.LateConfirmationIsReached | app/payments/service.py:228-236 | a guard that accepts confirming a booking cancelled since it was read does come to that stale write from the empty database: a callback reads, the cancellation commits |
| BookingProtocol.UnsafeWhenGuardRevivesCancelled | app/payments/service.py:228-236 | so every such guard is unsafe from the empty database |
| BookingProtocol.ProtocolCanDoubleBook | app/bookings/service.py:397-410 | the code has no guard: under any key function some interleaving from the empty database books a minute twice |
| StableSort.SortDescSorts | app/tournaments/standing_calculator.py:111-116 | the sort is descending, keeps every element, and never reorders elements of equal key |
| StableSort.StableOrderUnique | app/tournaments/standing_calculator.py:111-116 | descending and stable determine the result |
| Standings.AddMatch | app/tournaments/standing_calculator.py:74-105 | one match on two rows that may be the same object: each side gains its result, goals, points and bonus, both when a team meets itself |
| Standings.Accumulate | app/tournaments/standing_calculator.py:56-105 | one pass over the matches leaves in every row exactly the sums of its team, rows in the order of first appearance |
| Standings.SetDifferences | app/tournaments/standing_calculator.py:107-109 | goal difference of every row |
| Standings.Compute | app/tournaments/standing_calculator.py:20-122 | the returned rows are fresh, one per rated team, hold the team sums over the relevant matches, stand in the unique stable order of points, goal difference and goals scored, and have ranks 1..n |
| StandingsFacts.TeamAddsUp | app/tournaments/standing_calculator.py:32-105 | over the completed matches of the group with both teams and scores known, a team is credited with exactly its scores: a win for each in which it scored more, a draw for each level one, a loss otherwise, all goals, and win, draw, loss points plus a bonus for each score of at least a non-zero threshold |
| StandingsFacts.WinnerGains | app/tournaments/standing_calculator.py:77-98 | in a match of two different teams exactly the side with more goals gains a win and exactly the other a loss |
| StandingsFacts.WinsBalanceLosses | app/tournaments/standing_calculator.py:77-98 | over any duplicate-free list of teams holding all players, wins = losses and goals for = goals against |
| StandingsFacts.TableBalances | app/tournaments/standing_calculator.py:77-98 | the same over the teams of a table |
| StandingsFacts.TableLists | app/tournaments/standing_calculator.py:111-122 | the table lists exactly the rated teams, each once, in descending order of keys computed from their sums |
| StandingsFacts.UpperRowIsBetter | app/tournaments/standing_calculator.py:107-122 | of two rows the upper has more points, or equal points and the better goal difference, or both equal and no fewer goals scored; the difference shown is goals for less goals against |
| StandingsFacts.TallyIgnoresOrder | app/tournaments/standing_calculator.py:68-105 | permuting the matches changes no numbers of any team |
| StandingsFacts.TableIgnoresOrder | app/tournaments/service.py:286-308 | permuting the matches, which are loaded in no particular order, keeps the teams and the key at every place of the table: only level teams can swap |
| Formula.TextMeaning | app/tournaments/rule_engine.py:138-177 | for every formula and all numbers: parsing and walking the replaced text equals, in value and in kind of failure, evaluating the formula as read with names standing for the numbers |
| Formula.AsWrittenIff | app/tournaments/rule_engine.py:150-156 | the formula as read is the formula as written iff no name that prints negative stands right behind an operand |
| Formula.ParsedIsReadAsWritten | app/tournaments/rule_engine.py:150-156 | a formula that parses is read as written, whatever the numbers |
| Formula.ResultIsMeaningIff | app/tournaments/rule_engine.py:138-157 | the result equals the meaning of the formula iff it is not the case that a negative name follows an operand and the formula as read parses; always when the formula parses |
| Formula.ReplaceOneMore | app/tournaments/rule_engine.py:150-153 | replacing one name after others equals replacing all of them at once |
| Formula.ReplaceNames | app/tournaments/rule_engine.py:150-153 | the replacement loop, in any order of names, replaces all at once |
| Formula.SafeEval | app/tournaments/rule_engine.py:138-157 | the program returns the meaning of the formula as read, hence of the formula itself when it parses |
| FormulaGrammar.ParseShow | app/tournaments/rule_engine.py:155-177 | the parser undoes printing with minimal parentheses for every tree: products bind tighter than sums, both group to the left, powers group to the right and tighter than a prefix on their left |
| FormulaGrammar.ShownTreeKeepsItsValue | app/tournaments/rule_engine.py:138-177 | evaluating the replaced text of a printed tree gives the value or failure of the tree |
| FormulaLaws.OperandsAreTheirNumbers | app/tournaments/rule_engine.py:160-177 | a printed literal evaluates to itself, a name to the number it stands for, and an unknown name fails |
| FormulaLaws.FailuresComeInOrder | app/tournaments/rule_engine.py:160-177 | in any arithmetic the left operand fails first, then the right, then the operator, which is refused iff it is none of the four; of the prefixes only minus evaluates |
| FormulaLaws.AddingUndoesSubtracting | app/tournaments/rule_engine.py:166-174 | in exact arithmetic the printed (l - r) + r has the value of l, for all formulas with values |
| FormulaLaws.MultiplyingUndoesDividing | app/tournaments/rule_engine.py:166-174 | the printed (l / r) * r has the value of l, and fails iff r is zero |
| FormulaLaws.AddedToItselfIsDoubled | app/tournaments/rule_engine.py:166-174 | the printed l + l and 2 * l have the same value or failure |
| FormulaLaws.NegativeCancels | app/tournaments/rule_engine.py:175-176 | the printed -l + l is worth 0 |
| FormulaLaws.FormulasAreFractions | app/tournaments/rule_engine.py:138-177 | every formula of supported operators is worth the fraction that the rules for fractions give it, and fails, by dividing by zero, iff the denominator of that fraction is zero |
| FormulaGrammar.GapIsSubtracted | app/tournaments/rule_engine.py:150-156 | a number followed by a name is a syntax error as written, and the first number less the second once the name prints negative |
| Qualification.EvalTopN | app/tournaments/rule_engine.py:77-90 | the filter loop, the sort and the two slices give the top-n split, negative n included |
| Qualification.ScoreAll | app/tournaments/rule_engine.py:109-116 | teams are scored in turn and recorded until the first failure, and divided by the comparison |
| Qualification.EvalFormula | app/tournaments/rule_engine.py:94-119 | an unknown comparison, the first failing formula, or the divided teams with the qualified sorted by score |
| Qualification.EvalMinHours | app/tournaments/rule_engine.py:123-131 | teams divided by hours, the qualified sorted by hours |
| Qualification.DecisionDivides | app/tournaments/rule_engine.py:42-60 | a decision names only given teams and none twice; formula and hours rules name all of them |
| Qualification.Judge | app/tournaments/rule_engine.py:56-60 | in place: qualified rows are marked and ranked 1, 2, ...; eliminated rows are unmarked |
| Qualification.Evaluate | app/tournaments/rule_engine.py:42-69 | the decision is carried out; ranks of all but qualified rows and marks of rows not judged stay; a failing rule changes neither |
| QualificationFacts.TopNChoosesBest | app/tournaments/rule_engine.py:77-90 | top n divides exactly the teams with enough matches, min(n, eligible) qualify, and no eliminated team has a lexicographically greater key than a qualified one |
| QualificationFacts.TopNByOne | app/tournaments/rule_engine.py:77-90 | sorted by any one attribute, no eliminated team has more of it than a qualified one |
| QualificationFacts.TopNOfSorted | app/tournaments/rule_engine.py:85-90 | on rows already in order the stable sort moves nothing: the first rows qualify |
| QualificationFacts.FormulaChooses | app/tournaments/rule_engine.py:94-119 | a formula rule divides all teams: a team qualifies iff its score is at least, above, equal to, at most or below the threshold, as the operator says, and is eliminated otherwise |
| QualificationFacts.FormulaFailsWithFirst | app/tournaments/rule_engine.py:94-119 | a formula rule fails on an unknown operator, or else with the error of the first team whose formula has no value |
| QualificationFacts.ScoreIsValue | app/tournaments/rule_engine.py:138-157 | the score of a team is the value of the printed formula with the numbers of the team for its names |
| QualificationFacts.ResultNames | app/tournaments/rule_engine.py:142-146 | points, played, wins, draws and losses evaluate to the numbers of the row |
| QualificationFacts.GoalAndHourNames | app/tournaments/rule_engine.py:142-148 | goals_for, goals_against, goal_difference and hours_played evaluate to the numbers of the row, no hours to 0.001 |
| QualificationFacts.PointsPerHour | app/tournaments/rule_engine.py:147-148 | points / hours_played never fails on a team without hours and is worth a thousand times its points |
| QualificationFacts.FormulaOrders | app/tournaments/rule_engine.py:118-119 | the qualified stand in descending order of score |
| QualificationFacts.MinHoursChooses | app/tournaments/rule_engine.py:123-131 | an hours rule divides all teams: a team qualifies iff it played long enough |
| QualificationFacts.MinHoursOrders | app/tournaments/rule_engine.py:130-131 | the qualified stand in descending order of hours |
| QualificationFacts.MinHoursOnComputedRows | app/tournaments/rule_engine.py:123-131 | the calculator never sets hours, so on computed standings an hours rule qualifies everyone, unchanged, iff it asks for no hours, and nobody otherwise |
| QualificationFacts.DistinctIffFirst | app/tournaments/rule_engine.py:56-60 | when the qualified rows of a ranked table are ranked anew, all ranks differ iff they are its first rows |
| QualificationFacts.QualifiedAreFirstIff | app/tournaments/rule_engine.py:77-131 | readable before the rule is applied: it qualifies the first rows iff passing rows stand above failing ones (formula and hours rules), or the first n have enough matches and no later row with enough has a greater key (top n) |
| QualificationFacts.EvaluateRows | app/tournaments/rule_engine.py:42-69 | a rule applied to a ranked table leaves the table as computed, and all ranks distinct iff the first rows won before it |
| QualificationFacts.SharedRank | app/tournaments/rule_engine.py:56-90 | a concrete table: after one match, a top-one rule by goals conceded leaves both teams on one rank |
| QualificationFacts.ComputedRowsAreSorted | app/tournaments/standing_calculator.py:111-122 | computed rows are in the default order and every row has played at least once |
| QualificationFacts.EvaluateQualification | app/tournaments/service.py:311-330 | standings, then the rule: by default order with at most one match required the first n rows qualify and no rank changes; an hours rule never makes ranks collide; any rule leaves the table as computed |

## Left out

- Gateway, mail, cache and network code, signatures, tokens, one-time passwords and rate limits: their answers are inputs.
- Float conversions of amounts to paise (app/payments/service.py:80, app/payments/service.py:335): money is integer paise throughout, and a rate such as 18% is exact.
- Seconds within times of day, and time zones: times are minutes; a call sees one clock reading.
- Routers, request schemas, ORM models and migrations: only the bounds they enforce appear, such as start before end and non-negative override prices.
- Creating the customer record in a manual booking: the customer is an input.
- Creating, updating and deleting turfs, plans, teams, rules, coupons and tournaments, and registrations: simple existence checks.
- Subscription payment reports (app/subscriptions/service.py:339-373): the same effect as the payment service's report.
- Booking previews and listings: they change nothing.
- Rule updates that set a duration or capacity to zero or below: the bounds enforced at creation are assumed.
- Subscriptions and coupon counting with their steps interleaved: they take no lock of their own, so only atomic calls are covered.
- Queries with limit 1 and no order take the first matching row of the table; which row the database returns is not modelled.
- BookingProtocol.NoDoubleBooking: covers creation, status changes and aborts of rows that end after they start; subscription activation, which takes no lock and may store wrapped rows, is covered by Runs.EveryRunSound and LateSlots.HeldOnceIffNoLateStart with atomic calls.
- LateSlots.HeldOnceIffNoLateStart: bounds the starting times that are allowed, not the single runs; a run with one late slot may still be safe.
- Subscriptions.Scan: requires that the scan ends, since a call that never returns has no result; Subscriptions.ScanEndsIff says when it does.
- Formula: regular expressions, tokenising, keyword constants, calls, comparisons and other expressions outside the arithmetic grammar; names are whole tokens. Results that are infinite or not a number are not represented.
- Qualification: sort keys that name non-numeric attributes (names, groups, ranks, scores not yet set), and rule definitions with missing entries.
- Team names and the group shown in a standings row, match results entry, and storing the qualification result.
