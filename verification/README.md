# A model of the drink-shop backend's order engine

This project models the part of the backend where money, stock and time meet,
and proves what that part keeps over whole runs.

The centre is one state machine (`Engine`). Its state is the committed rows:
products, spec options, coupons, idempotency and guest-session keys, orders,
reservation slots, payment records, print jobs, the `order.auto_cancel` audit
rows and the queue of payment side effects. Its events are the services'
transactions: creating an order (by a customer or at the counter), the WeChat
callback, static-QR matching, activating due orders, cancelling one order or a
stale batch, guest sessions, the inventory switch, and the two half-steps and the
recovery batch of the print workers. A transaction that raises leaves the state
as it was.

Around it stand five smaller cores: the two-level menu cache, the advertisement
cache, the print-job retry machine, loyalty points, and the broadcast queues.

How it is built:

- `Tables` holds the rows and the class `Session`, through which services change
  them. Each service operation is a method on a session, written with the
  source's own loops and assignments, whose contract gives the whole new state as
  a specification function of the old one. The theorems are about those functions.
- `Invariants` says what every committed state satisfies, `Steps` that each event
  keeps it, `Engine` what follows for every run, `Outcomes` and `Ledger` what pairs
  of steps and late or repeated payments come to.  `Lifecycle` and `Charges` say what
  each transaction writes and what an order costs in terms of the request and the rows
  alone, `Refusals` which problem a refused one names.
- Money is in cents, instants in microseconds, identifiers of never-deleted rows
  are positions.

What the proofs found where code and expectation part, each with a concrete input and
the exact condition:

- a callback, or a forced match, for a cancelled order leaves it paid while its
  units are for sale again (`Outcomes.CancelledThenPaid`,
  `Outcomes.PaidWithoutStockExactly`);
- a callback for an order in production sets it back to `paid` and enqueues its side
  effects again, and the side-effect task awards points again
  (`Outcomes.NotifiedTwice`, `Outcomes.DispatchesCounted`,
  `Loyalty.BookedAgainPerCallback`);
- a callback whose transaction id is already recorded settles its order without a
  payment record (`Ledger.TransactionReused`, `Ledger.UnrecordedRunExactly`);
- a match on an unmatched record found by its transaction id keeps that record's
  old amount, because `session.refresh` discards the assignment while autoflush is
  off (`Ledger.OldAmountKept`, `Ledger.AmountsAgreeExactly`); no engine step enters
  such a record, imported rows can be;
- the preview charges delivery and deducts points, creation does neither
  (`Pricing.DeliveryNotCharged`, `Pricing.PointsNotCharged`, `Pricing.TableGap`), and
  creation would not deduct the coupon kinds the coupon table does not admit yet
  (`Pricing.PreviewGap`);
- a guest's order that names a coupon is created at full price, while its preview is
  refused (`Outcomes.GuestCouponNotQuoted`, `Outcomes.CreateChargesPreview`);
- a repeated product passes the preview's per-line check and fails at creation
  (`Deduction.RepeatedQuotedNotTaken`, `Deduction.QuotedIsTakenExactly`);
- a product switched off with stock left is on sale again after an unrelated order of
  it is cancelled (`Lifecycle.SwitchUndone`, `Lifecycle.CancelReopensExactly`);
- an opening range that runs past midnight can move a wanted time to a closed one
  (`OpenHours.OvernightRangeNotOpen`, `OpenHours.AlignLeastExactly`);
- a second open claim can take a printed job out of `done`, and so can a payment that
  read the job, without a lock, when it had failed (`PrintRuns.PrintedThenFailed`,
  `PrintRuns.PrintedTwice`, `PrintRuns.DoneIsFinal`);
- a menu call overtaken by an edit between its rebuild and its writes caches the old
  menu, in Redis under any version (`MenuRuns.OvertakenCallServesOld`,
  `MenuRuns.GetAgreesWithRebuild`);
- the menu listener invalidates before the commit, so a call in between stores the old
  menu under the new version (`MenuRuns.EarlyInvalidationServesOld`,
  `MenuRuns.EarlyInvalidationExactly`);
- a creative cached at the instant it ends is still served after it
  (`AdConfig.EndedStillServed`, `AdConfig.CachedAnswerExactly`);
- an advertisement edit invalidates before its commit, so a call in between caches the
  old configuration (`AdRuns.EarlyInvalidationServesOld`,
  `AdRuns.EarlyInvalidationExactly`), and a call overtaken by an edit between its two
  reads caches a mixture (`AdRuns.OvertakenCallServesOld`, `AdRuns.CacheAgrees`); both
  are served for up to 300 seconds;
- a request whose names hold ':' shares its cache entry with another request and is
  served that one's slots (`AdConfig.OthersEntryServed`, `AdConfig.KeyAloneExactly`).

Where the code and its documentation disagree the code is followed: readme.md:212
speaks of a 24-hour window for idempotency keys, but a replay never looks at the
key's expiry; the comment at app/services/reservations.py:285 speaks of the first
configured entry, but the loop takes the ranges of every entry.

`dafny verify dfyconfig.toml` checks the whole project.

## Model

| member | source | states |
|---|---|---|
| Engine.RunKeeps | app/services/orders.py:232-452 | over any run of events from a valid state, the invariants of every table hold at the end, nothing final was taken back, and each product's shelf stock plus the units of orders never auto-cancelled is unchanged |
| Engine.StepKeeps | app/services/payments.py:90-257 | each event, accepted or refused, keeps those invariants, finality and the stock account |
| Engine.OpeningIsValid | migrations/versions/20241008_0001_initial_schema.py:21-371 | the tables as first created: a shop before its first order, session or payment satisfies the invariants, whatever it sells |
| Engine.StockConserved | app/services/orders.py:269-289 | from a shop without orders: stock plus outstanding units equals the initial stock in every reachable state, late callbacks on cancelled orders included |
| Engine.SlotsCounted | app/services/reservations.py:190-219 | in every reachable state a slot's reserved count is the number of orders holding it and at most its capacity |
| Engine.ReleaseDecrements | app/services/reservations.py:167-188 | an order is scheduled exactly while it holds a slot, and releasing that slot never meets the already-zero branch |
| Engine.PaymentAgrees | app/services/payments.py:110-122 | payment is settled exactly when status is paid or in production; settling and leaving the waiting state are final; a settled order is never auto-cancelled afterwards and none is auto-cancelled twice |
| Engine.LedgerAgrees | app/services/payment_match.py:178-194 | in every reachable state a matched record points to a settled order and has not changed since it was matched |
| Engine.LedgerUnique | app/services/payment_match.py:255-284 | transaction ids are unique in every reachable state and no order is matched by an administrator twice |
| Engine.OneOrderPerKey | app/services/orders.py:507-577 | over any run an idempotency key inserts at most one order, and none if the key existed before |
| Engine.ReplayReturnsReceipt | app/services/orders.py:554-577 | after a committed creation and any further events, the key with another payload is refused, with the same payload it returns the stored receipt of the existing order and moves only the key's expiry |
| Engine.CreateAnswers | app/services/orders.py:425-452 | a committed creation leaves its receipt, its payload hash and the creation scope under its key, which expires a day later |
| Engine.ScopesApart | app/services/guest.py:19-41 | a key never changes scope, so a guest-session key can never be used for an order |
| Engine.CouponSpentOnce | app/services/orders.py:330-410 | a coupon redeemed by one order is refused by every later creation |
| Engine.CouponIsSpent | app/services/orders.py:337-346 | a creation that redeems a coupon found it active and leaves it used in the new order |
| Outcomes.CreateThenCancel | app/services/orders.py:936-994 | cancelling the order just created restores every product row and slot count exactly, repeated lines and sell-outs included, and does not revive the coupon |
| Outcomes.CreateChargesPreview | app/services/orders.py:73-174 | of what creation accepts, a pick-up preview without points accepts exactly the orders with a line whose coupon id, if any, names a usable coupon of the customer; it has the same items, and with fair prices the same amount exactly when the coupon is a free drink or discounts nothing |
| Outcomes.GuestCouponNotQuoted | app/services/orders.py:330-360 | a guest order of three units naming coupon 7, in a valid store: created at the full 27 yuan, its preview refused |
| Outcomes.SweepTakesOldest | app/services/orders.py:1052-1079 | a sweep cancels exactly the orders it reports, all stale, oldest first; others are untouched; a stale order stays only behind a full batch of orders created before it |
| Outcomes.CancelAllExactly | app/services/orders.py:1073-1079 | cancelling a list of distinct waiting orders cancels each of them and nothing else |
| Outcomes.PaidWithoutStockExactly | app/services/payments.py:108-122 | over any run an order becomes paid with its units back on the shelf exactly when a callback or forced match came after its cancellation |
| Outcomes.LatePaymentExactly | app/services/payment_match.py:149-192 | the same for one step: only an accepted callback or an accepted forced match of a cancelled order does it |
| Outcomes.CancelledThenPaid | app/services/payments.py:110-120 | a concrete run: cancelled, then paid by callback, stock back at five |
| Outcomes.DispatchedAgainExactly | app/services/payments.py:244-255 | a settled order's side effects are enqueued again exactly by a callback that finds it in production |
| Outcomes.DispatchesCounted | app/services/payments.py:116-120 | over any run the further dispatches of a settled order number exactly those callbacks |
| Outcomes.NotifiedTwice | app/services/reservations.py:143-149 | a concrete run: one transaction reported before and after activation enqueues the effects twice |
| Outcomes.SessionUsableExactly | app/services/guest.py:19-41 | an issued or extended session is accepted exactly until its expiry, and refused as expired after it |
| Outcomes.PaymentWakesJob | app/services/payments.py:146-213 | a callback or match leaves its order with exactly one print job, which is done, running, or pending, due now and in recovery's queue |
| Lifecycle.CreatesExactly | app/services/orders.py:232-452 | in a valid store a creation under a new key succeeds exactly when the request is admitted, its time can be planned and has room, each line is sellable and each product covers all its lines together, its coupon is the customer's own and active, and the row itself can be inserted |
| Refusals.CreateRefuses | app/services/orders.py:176-360 | a refused creation under a new key names the first stage that fails: admission, the time and its slot, the first line that cannot be sold beside those before it, the coupon, the insert |
| Lifecycle.CreatedRow | app/services/orders.py:362-452 | the inserted order names who ordered what and when, the planned time and its slot, counted once more or opened with the configured capacity, the counter's settlement and print job; the receipt repeats it and no other order changes |
| Lifecycle.PrecheckNames | app/services/orders.py:188-195 | a request is admitted exactly with a key, a customer or guest, an address for delivery, and a live session of its guest; the first thing missing is named |
| Lifecycle.SessionKept | app/services/guest.py:19-41 | a live session keeps its id, anyone else gets the fresh token unless it is taken; no other key changes |
| Lifecycle.CallbackPays | app/services/payments.py:108-137 | an accepted callback sets its order to paid and settled whatever it was, keeps a set channel or fills it with its own, changes no other order, records its transaction once, and enqueues the side effects unless the order was paid |
| Lifecycle.CallbackRefused | app/services/payments.py:54-106 | a callback that no order accepts changes nothing |
| Refusals.CallbackProblem | app/services/payments.py:54-106 | a refused callback names its signature, then its order, its currency, its amount |
| Lifecycle.MatchPays | app/services/payment_match.py:171-236 | a match sets its order, of exactly that amount, to paid by static QR and its record to matched, by hand exactly if the administrator named the order; no other order or record changes |
| Refusals.MatchProblem | app/services/payment_match.py:118-176 | a refused match names its record, or that no order fits, or lists all that fit if there are several, or that the order named is unknown, of another total or settled |
| Lifecycle.ProductionExactly | app/services/reservations.py:136-149 | over any run an order ends in production exactly if it started there and no callback paid it again, or some activation found it scheduled, its time come, paid and settled, and no callback paid it again after that |
| Lifecycle.ProductionStep | app/services/reservations.py:127-157 | the same for one step of any kind |
| Lifecycle.StartedAtItsTime | app/services/reservations.py:136-142 | such an activation is an event of the run, at or after the planned time |
| Lifecycle.CancelWithdraws | app/services/orders.py:909-996 | exactly a waiting, unpaid order is cancelled: every product regains its units, its slot one place, it is audited once, and only its status and reservation columns change |
| Lifecycle.CancelReopensExactly | app/services/inventory.py:134-143 | a cancellation puts a product back on sale exactly if it was off and the order held some of it |
| Lifecycle.SwitchUndone | app/services/inventory.py:134-143 | a concrete run: a product switched off with three left is on sale with five after an order of two is cancelled |
| Ledger.AmountsAgreeExactly | app/services/payment_match.py:275-284 | over any run every matched record's amount is its order's total exactly when no event matches a payable order with an unmatched record that has its transaction id and keeps another amount |
| Ledger.AmountsStepExactly | app/services/payment_match.py:171-184 | the same for one step, the condition being the guards of the match |
| Ledger.OldAmountKept | app/services/payment_match.py:278-284 | a concrete run: an imported record of seventeen yuan matched to an order of eighteen |
| Ledger.AmountsAgreeFromOpening | app/services/payments.py:313-344 | with no unmatched record carrying a transaction id, which no engine step enters, amounts agree in every reachable state |
| Ledger.UnrecordedExactly | app/services/payments.py:124-137 | a step leaves a settled order without a matched record exactly when it settles at the counter, or by a callback whose transaction id was already recorded |
| Ledger.UnrecordedRunExactly | app/services/payments.py:124-137 | over any run an order ends settled without a matched record exactly when an event settled it so and no later callback for it brought a new transaction id |
| Ledger.TransactionReused | app/services/payments.py:129-137 | a concrete run: one transaction id reported for two orders, the second settled without a record |
| Steps.CreateKeeps | app/services/orders.py:232-452 | a committed creation, fresh or replayed, keeps all invariants and the stock account |
| Steps.CancelKeeps | app/services/orders.py:909-996 | a cancellation keeps them: units move from the order back to the shelf, the slot count drops with the holder |
| Steps.CancelAllKeeps | app/services/orders.py:1052-1079 | so does a whole batch |
| Steps.NotifyKeeps | app/services/payments.py:90-242 | so does an accepted callback, whatever status it finds |
| Steps.MatchKeeps | app/services/payment_match.py:141-224 | so does an accepted match |
| Steps.ActivateKeeps | app/services/reservations.py:127-157 | so does activation |
| Steps.SessionKeeps | app/services/guest.py:19-41 | so does issuing or extending a guest session |
| Deduction.TakesExactly | app/services/orders.py:269-289 | the line-by-line deduction succeeds exactly when every line is sellable and each product's total demand, repeats included, is covered by its stock |
| Deduction.TakesDemand | app/services/orders.py:278-310 | afterwards each product lost its total demand, is sold out if that emptied it, and the items record that demand |
| Deduction.TakenIsQuoted | app/services/orders.py:99-119 | lines creation takes are accepted by the preview with the same items and prices |
| Deduction.DistinctQuotedIsTaken | app/services/orders.py:99-109 | with no product repeated, preview and creation accept exactly the same lines |
| Deduction.QuotedIsTakenExactly | app/services/orders.py:278-289 | lines the preview accepts are taken exactly when the stock of each product covers all its lines together |
| Deduction.RepeatedQuotedNotTaken | app/services/orders.py:107-109 | three wanted over two lines with two left: quoted, not taken |
| Deduction.RestockUndoes | app/services/inventory.py:108-143 | restocking the items of taken lines gives back every product row, stock and status |
| Orders.EnsureIdempotency | app/services/orders.py:507-577 | the key's record is inserted or checked for scope and hash, its expiry renewed, its snapshot returned |
| Refusals.KeyRefuses | app/services/orders.py:507-553 | a key is refused exactly when it belongs to another scope, or holds another payload |
| Orders.DeductLines | app/services/orders.py:269-319 | deduction, sell-out flag, option pricing and running total, line by line, with the source's errors in order |
| Orders.PlanReservation | app/services/orders.py:251-259 | only pick-up orders may reserve; the slot is reserved or the plan's error returned |
| Orders.InsertOrder | app/services/orders.py:362-450 | the order row, the spent coupon, the counter's settlement and print job, and the stored response |
| Orders.CreateOrder | app/services/orders.py:176-230 | the whole transaction; any failure leaves every table as it was |
| Orders.CancelPendingOrder | app/services/orders.py:909-996 | only a waiting, unpaid order is cancelled: restocked, audited, its slot released and cleared |
| Orders.CancelStalePendingOrders | app/services/orders.py:1052-1079 | the oldest stale orders up to the limit, each cancelled in turn |
| Orders.IssueGuestSession | app/services/guest.py:19-41 | a live session is extended, otherwise a fresh token is inserted |
| Tables.Session.Rollback | app/services/orders.py:219-228 | leaving by an exception restores every table |
| Inventories.SumDeltas | app/services/inventory.py:108-114 | the dictionary holds exactly the products of the items with their summed units |
| Inventories.RestoreFromOrderItems | app/services/inventory.py:124-143 | every product gains the units its items held, and is in stock again if it was sold out |
| Inventories.UpdateProductInventory | app/services/inventory.py:33-66 | the flag changes, the quantity does not |
| Inventories.UnitsPositive | app/services/inventory.py:108-114 | a product has units among the items exactly when some item names it |
| Inventories.RestockReopens | app/services/inventory.py:124-143 | after a restock a product has its units back and is sold out exactly if it was and the items held none of it; its other columns stay |
| Inventories.SwitchSets | app/services/inventory.py:33-66 | the switch sets the flag of one known product and nothing else |
| Reservations.PlanFits | app/services/reservations.py:44-87 | an accepted time is at least the configured lead time, never under five minutes, and at most a day away, not earlier than asked and inside its slot, for opening hours of any shape; it is in opening hours that do not run past midnight |
| Reservations.PlanExactly | app/services/reservations.py:44-87 | a time is accepted exactly when reservations are on and the time, aligned if there are opening hours, is the lead time to a day away |
| Refusals.PlanRefuses | app/services/reservations.py:44-87 | otherwise the reason is exactly that reservations are off, no configured range parses, or the aligned time is not in the future, beyond a day, or inside the lead time |
| Reservations.ReserveSlot | app/services/reservations.py:190-219 | the slot is created or found, refused when full, otherwise counted once more |
| Reservations.ReserveExactly | app/services/reservations.py:190-219 | a reservation is refused exactly when a slot of that start is full; it counts the slot once more or opens one with the configured capacity, at least one, and touches no other |
| Reservations.ReleaseSlot | app/services/reservations.py:167-188 | the count drops by one, never below zero |
| Reservations.ActivateDueOrders | app/services/reservations.py:127-157 | exactly the due, scheduled, paid orders go to production and are reported |
| OpenHours.AlignLeast | app/services/reservations.py:237-259 | "open" read off the entries alone: for ranges of any shape the result skips no open instant and lies on the wanted day or the next; with ranges that do not run past midnight it is the least open instant and aligning it again changes nothing |
| OpenHours.AlignNone | app/services/reservations.py:256-259 | no result exactly when no entry holds a parseable range |
| OpenHours.AlignLeastExactly | app/services/reservations.py:246-257 | for ranges of any shape the result is always the least open instant exactly when, on every weekday, the start of each range that can be picked is covered by some range |
| OpenHours.OvernightRangeNotOpen | app/services/reservations.py:247-251 | with one range from 22:00 to 02:00, 01:00 is moved to 22:00, which is not open |
| OpenHours.OpenExactly | app/services/reservations.py:261-296 | a time is open exactly when an entry, of its weekday or of any if the weekday has no parseable range, holds a range that contains it |
| OpenHours.ClosedAfternoonMoves | app/services/reservations.py:237-259 | open on Monday morning and on Tuesday afternoon, Monday at three becomes Tuesday at two |
| OpenHours.SlotAligned | app/services/reservations.py:298-302 | a slot starts a whole number of slot lengths after the full hour |
| OpenHours.AlignToOpenHours | app/services/reservations.py:237-259 | the loops compute the alignment |
| OpenHours.WithinOpenHoursLoop | app/services/reservations.py:227-235 | the loop decides whether some range of the weekday contains the time |
| OpenHours.IterRangesForWeekday | app/services/reservations.py:261-296 | the weekday's parseable ranges, sorted, or everybody's when it has none |
| OpenHours.SlotContains | app/services/reservations.py:298-302 | the slot starting at the floored time contains the time, for any slot length |
| Pricing.PickSpecOptions | app/services/orders.py:683-719 | the sum of the picked modifiers, or the first option that is unknown, not allowed or sold out |
| Pricing.CalculatePriceOnly | app/services/orders.py:73-174 | the preview, with its errors in order, changing nothing |
| Pricing.PreviewAddsUp | app/services/orders.py:138-154 | without negative unit prices: coupon at most the subtotal, points at most 30% of the rest, final the plain sum, no clamp ever active |
| Pricing.DiscountBelowSubtotal | app/services/orders.py:758-782 | no kind of coupon exceeds the subtotal after half-up rounding |
| Pricing.HalfUpNearest | app/services/orders.py:839-841 | quantising goes to a nearest cent, and from a half away from zero |
| Pricing.PointsAreMost | app/services/orders.py:805-820 | the points discount is the most that the request, the balance and 30% of the payable all allow |
| Pricing.SubtotalCovers | app/services/orders.py:119-121 | the subtotal is not negative and covers every unit price |
| Pricing.PreviewGap | app/services/orders.py:330-360 | the preview exceeds the charge by fee minus points minus any discount creation does not give |
| Pricing.PreviewIsCharged | app/services/orders.py:348-360 | a pick-up order without points is charged the preview's amount exactly when its coupon is a free drink or discounts nothing |
| Pricing.TableGap | app/services/orders.py:138-154 | with the one coupon kind the table admits, preview and charge differ by the delivery fee less the points; they agree exactly when no fee is due and no point can be used, or a fee is due and the points used are exactly its six yuan, both in terms of what is asked, owned and payable |
| Pricing.DeliveryNotCharged | app/services/orders.py:825-832 | two drinks of twelve yuan delivered: thirty quoted, twenty-four charged |
| Pricing.PointsNotCharged | app/services/orders.py:794-823 | nine points on the same two drinks: nine cents less quoted, twenty-four yuan charged |
| Charges.CreationCharges | app/services/orders.py:269-360 | a committed creation has one item for each requested line at base price plus modifiers, and charges each unit price as often as it is wanted; a redeemed free-drink coupon takes off one cheapest unit and no more |
| Charges.PreviewQuotesOwed | app/services/orders.py:99-121 | the preview quotes the same lines at the same prices and quantities |
| Charges.OwedConcat | app/services/orders.py:299-300 | what lines owe adds up over their concatenation |
| Charges.SingleLineCharged | app/services/orders.py:299-300 | one line of q units without options or coupon is charged q times the base price |
| Charges.SplitLinesCharged | app/services/orders.py:269-319 | two creations that differ only in how a quantity is split over lines are charged the same |
| Charges.PicksExactly | app/services/orders.py:683-719 | options are picked exactly if each is known, allowed and in stock, and cost the sum of their modifiers |
| Refusals.PickRefuses | app/services/orders.py:683-719 | otherwise the first option that cannot be picked is named with its reason |
| Refusals.TakeRefuses | app/services/orders.py:269-289 | when the lines are not taken, those before the refused one are covered together and that one is named for its own problem, sold out if the stock does not cover it with them |
| Refusals.PreviewsExactly | app/services/orders.py:73-174 | a preview is given exactly for a nonempty request with an address for delivery and a login for points or coupon, whose lines can each be sold from stock and whose coupon the customer can use |
| Refusals.PreviewRefuses | app/services/orders.py:73-119 | otherwise the first thing missing is named |
| Charges.RedeemsOwn | app/services/orders.py:336-346 | a creation that redeems a coupon found it the customer's own and active |
| Charges.PreviewsOwn | app/services/orders.py:729-743 | the preview accepts a coupon exactly if it is the customer's own and active |
| Charges.DiscountGives | app/services/orders.py:758-782 | a free drink is worth a cheapest unit; an amount at most itself and the subtotal once its minimum is reached; an unknown kind nothing |
| Charges.PercentageGives | app/services/orders.py:765-780 | a percentage takes its share rounded to a nearest cent where neither cap nor subtotal is below it, and the lower of these otherwise |
| Payments.HandleWechatNotification | app/services/payments.py:54-257 | signature, order, currency, amount, then settlement, record, print job and side effects; a refusal changes nothing |
| Payments.SettleOrder | app/services/payments.py:110-122 | payment and status become paid, the channel is filled if empty, and the status change is reported |
| Payments.EnsureJobDue | app/services/payments.py:146-213 | the order's one job is inserted or, unless running or done, made due now |
| PaymentMatch.AcquirePaymentRecord | app/services/payment_match.py:247-324 | the record of the transaction id, or the earliest eligible one, or a new one; a matched record is refused |
| PaymentMatch.FindCandidateOrders | app/services/payment_match.py:326-353 | the waiting orders of the window with exactly that total, oldest first |
| PaymentMatch.MatchPayment | app/services/payment_match.py:118-245 | the whole match; any refusal changes nothing |
| PaymentMatch.UnforcedPicksOnly | app/services/payment_match.py:153-169 | an unforced match picks an order exactly when it is the only waiting order with that total created within the window's minutes either side of the payment |
| PaymentMatch.AcquireRefusesExactly | app/services/payment_match.py:255-274 | a record is refused exactly when the named transaction is recorded and no longer unmatched |
| PaymentMatch.AcquireTakes | app/services/payment_match.py:275-324 | the record taken is the one of the named transaction, else the earliest unmatched static-QR payment of that amount, window and session; a new one is entered exactly when there is none |
| PaymentMatch.CandidatesFacts | app/services/payment_match.py:333-353 | the candidates are exactly the unpaid waiting orders of the window with that total, each once |
| PaymentMatch.CandidatesInOrder | app/services/payment_match.py:326-353 | the oldest comes first |
| PrintJobs.AcquireJob | app/workers/print_jobs.py:39-75 | missing, done and over-limit jobs are not dispatched; a dispatch counts one try |
| PrintJobs.FinishPrintJob | app/workers/print_jobs.py:94-135 | the printer's answer is written over whatever the row has become |
| PrintJobs.RecoverPrintJobs | app/workers/print_jobs.py:155-213 | the head of the queue of due jobs is postponed one interval, failed ones made pending; the ids come back ascending |
| PrintRuns.DispatchesBounded | app/workers/print_jobs.py:50-75 | in every interleaving of workers, payments and recoveries the try count is the number of dispatches and never passes the limit |
| PrintRuns.ClaimedExactly | app/workers/print_jobs.py:39-75 | a claim succeeds exactly on an unprinted job with tries left; the row is then running, with one try more, due at no time |
| PrintRuns.RunningIsNotQueued | app/workers/print_jobs.py:167-173 | a running job stays so, and out of recovery's queue at every instant, through any run in which no claim of it ends, its tries are not used up and no payment that saw it failed writes |
| PrintRuns.ExecutionLeaves | app/workers/print_jobs.py:94-135 | a printed job is done, a permanent failure leaves it failed and due at no time, a retryable one failed and due after 2^(tries - 1) seconds, 900 at most |
| PrintRuns.FailureQueuesExactly | app/workers/print_jobs.py:94-121 | after an execution recovery's queue holds the job at an instant exactly if the failure was retryable and the back-off is over |
| PrintRuns.LimitFails | app/workers/print_jobs.py:50-69 | with no tries left the job fails for good whatever the printer would say |
| PrintRuns.RetriesTakeTotal | app/workers/print_jobs.py:109-121 | a new job that fails n times, each time executed as soon as it is due, is next due 2^n - 1 seconds after its first execution for n up to ten, 1023 + 900(n - 10) after |
| PrintRuns.QueueExactly | app/workers/print_jobs.py:167-173 | recovery's queue holds exactly the pending jobs without a time or with one that has come, and the failed jobs whose time has come |
| PrintRuns.QueueInOrder | app/workers/print_jobs.py:178-188 | the queue has the jobs without a time first, then the earlier times, equal ones by id |
| PrintRuns.SelectsHead | app/workers/print_jobs.py:175-188 | a batch picks the head of the queue, as long as asked for or all of it, and asked for none or fewer changes nothing |
| PrintRuns.RecoveredRows | app/workers/print_jobs.py:190-201 | a batch makes each picked job pending for one interval of at least a second; the others are untouched |
| PrintRuns.AtRestWithinLimit | app/workers/print_jobs.py:50-135 | with recovery batches and payments anywhere between its executions, one worker brings a job to done or permanent failure within one execution more than its tries leave below the limit, a lowered limit already passed included |
| PrintRuns.LeavesDoneExactly | app/services/payments.py:203-217 | a done job leaves `done` exactly when an open claim of it reports a failure or a payment that saw it failed writes |
| PrintRuns.DoneIsFinal | app/services/payments.py:278-293 | a done job stays done through every run exactly when no claim of it is open and no payment in flight saw it failed |
| PrintRuns.PrintedThenFailed | app/workers/print_jobs.py:109-135 | two open claims, one printed and one failed: the job is failed again |
| PrintRuns.PrintedTwice | app/services/payments.py:206-217 | a concrete run: a payment reads the job as failed, a worker prints it, the payment writes, the job is dispatched again |
| PrintRuns.KickAtOnce | app/services/payment_match.py:196-200 | a payment's read and write of the row with nothing between them are its one step |
| PrintRuns.TotalDelayClosedForm | app/workers/print_jobs.py:216-219 | n failures wait 2^n - 1 seconds in total for n up to ten, 1023 + 900(n - 10) after |
| PrintRuns.SelectedAreDue | app/workers/print_jobs.py:167-173 | recovery never selects a done, running or permanently failed job, nor one before its time |
| PrintRuns.RecoveriesDisjoint | app/workers/print_jobs.py:163-201 | a second recovery less than one interval later does not pick a job nothing else touched |
| PrintRuns.RecoverTakesHead | app/workers/print_jobs.py:183-201 | a batch takes the head of the queue and leaves exactly its tail due, in the same order |
| PrintRuns.RecoveryCovers | app/workers/print_jobs.py:178-201 | n batches at one instant cover the first n times limit due jobs, each once, in null-first, time, id order |
| Loyalty.Accounts.AwardOnPayment | app/services/loyalty.py:32-98 | points booked, carried over ten into coupons, with all its early returns |
| Loyalty.Accounts.IssueCoupon | app/services/loyalty.py:121-138 | one row of minus ten and one coupon |
| Loyalty.AwardsCarry | app/services/loyalty.py:63-98 | over any awards a user who earned e from s ends with (s + e) mod 10 points and (s + e) div 10 new coupons, points equal s plus the ledger's sum, each coupon pairs with one row of minus ten; from any start, a negative one being off by the tens its first award does not make up |
| Loyalty.CupsAreUnits | app/services/loyalty.py:100-108 | an order's cups are the units of all its products together, whatever lines they came in |
| Loyalty.AwardBooksUnits | app/services/loyalty.py:48-98 | an award to a known customer, unchecked or the first, books the units of the order's products times the ratio, rounded down, in one ledger row, and carries them into points and coupons |
| Loyalty.AwardsExactly | app/services/loyalty.py:32-61 | an award changes the book exactly when its order earns a point and has a known customer for whom, unless the check is skipped, the ledger holds no payment row of the order |
| Loyalty.SplitsEarnAlike | app/services/loyalty.py:63-98 | at one point a cup, the same number of cups earns the same points, coupons and ledger sum however it is split over orders |
| Loyalty.ThreeCups | app/services/loyalty.py:100-108 | three drinks on one line at ratio one are three points |
| Loyalty.CheckedAgainIsNothing | app/services/loyalty.py:37-46 | with the check on, awarding an order again changes nothing, whatever came between, orders worth nothing included |
| Loyalty.SkippedAgainExactly | app/services/loyalty.py:48-61 | with the check skipped an award changes the book exactly when a known user earns points |
| Loyalty.EachDispatchBooks | app/workers/tasks.py:415-423 | each dispatched side effect books the order once more |
| Loyalty.BookedAgainPerCallback | app/workers/tasks.py:421-422 | engine and loyalty together: a settled order is booked again exactly once per callback that found it in production |
| MenuCache.Site.FetchRemoteVersion | app/services/menu.py:82-100 | reading a missing version creates it; a process without Redis reads none |
| MenuCache.Site.HydrateFromRemoteCache | app/services/menu.py:388-397 | the remote payload becomes the process's entry with its own version |
| MenuCache.Site.LoadFromCache | app/services/menu.py:343-370 | entry, expiry and version checks with their fallbacks |
| MenuCache.Site.StoreToCache | app/services/menu.py:372-386 | both levels are written with the version seen or fetched |
| MenuCache.StoresUntil | app/services/menu.py:125-147 | a rebuilt payload is written under the version the request saw, else the current one, in the process for the configured lifetime and in Redis for at least a second |
| MenuCache.HydratesUntil | app/services/menu.py:388-397 | a process without an entry takes the payload of Redis while its lifetime lasts, and keeps it for the configured lifetime more |
| MenuCache.Site.GetMenuPayload | app/services/menu.py:210-217 | the cached payload, or a rebuild that is stored |
| MenuCache.Site.InvalidateMenuCache | app/services/menu.py:180-199 | the calling process's entry and the remote payload go, the counter rises |
| MenuCache.InvalidateDrops | app/services/menu.py:180-199 | the entry of the process goes, and no other, whether or not it reaches Redis; if it does, the remote payload goes and the version rises by one |
| MenuRuns.AnswersExactly | app/services/menu.py:210-217 | with Redis reachable and calls, edits and invalidations interleaved step by step: every process is always answered a menu current since the last watched edit exactly when no step caches a payload from before it, in an entry under the current version or in Redis under any |
| MenuRuns.GetAgreesWithRebuild | app/models/catalog.py:133-156 | with every edit watched and invalidating in its step: every process is always answered what a rebuild returns, exactly when no step caches a payload from before an edit |
| MenuRuns.UndisturbedIsNeverLate | app/services/menu.py:210-217 | runs in which rebuilds return the menu of one moment and no watched edit falls between a rebuild and its last write are such runs |
| MenuRuns.OvertakenCallServesOld | app/services/menu.py:215-216 | a concrete run: one call overtaken by an edit, after which every process is answered the old menu |
| MenuRuns.InvalidationHeals | app/services/menu.py:180-199 | an invalidation after the commit makes all later answers current, from caches holding anything, exactly when every call in flight that has built a payload built the current one |
| MenuRuns.EarlyInvalidationExactly | app/models/catalog.py:133-138 | after an invalidation before the commit, and within a Redis lifetime, the committed menu is served exactly when no process asked in between |
| MenuRuns.EarlyInvalidationServesOld | app/models/catalog.py:133-138 | for one: a process that asks in between makes another serve the old menu |
| MenuCache.ServedWithinTwoLifetimes | app/services/menu.py:125-147 | in every interleaving no payload is served more than one Redis and one local lifetime, 2 TTL, after it was stored |
| MenuCache.TwoLifetimesReached | app/services/menu.py:388-397 | that bound is met |
| MenuCache.GetIsMoves | app/services/menu.py:210-217 | a whole call is a sequence of those interleaved steps, one of which serves or stores what it returns |
| AdConfig.CollectActive | app/services/advertisement.py:446-469 | the rows that pass every filter, slot by slot, in query order |
| AdConfig.LoadActiveCreatives | app/services/advertisement.py:432-479 | the same, each slot sorted |
| AdConfig.ConfigCache.GetConfig | app/services/advertisement.py:58-126 | the cached or recomputed answer, with the version-zero and up-to-date cases |
| AdConfig.ConfigCache.InvalidateCache | app/services/advertisement.py:485-488 | every entry goes |
| AdConfig.CachedAnswerExactly | app/services/advertisement.py:69-84 | an answer from the cache is the one computed from scratch then, exactly unless a creative was cached at the instant it ended |
| AdRuns.CacheAgrees | app/services/advertisement.py:69-122 | after any run of calls, invalidations and commits interleaved step by step: a cached answer whose entry was read since the last commit is the one computed from scratch exactly unless a creative slipped; an older entry's is exactly if the rows then give today's version and the creatives seen then are those active now |
| AdRuns.StampedCacheAgrees | app/services/advertisement.py:363-374 | when every commit stamps a row in a later second than the versions read before: a cached answer agrees exactly when its entry was read since the last commit and it hides its creatives or none slipped |
| AdRuns.CommitsMatter | app/services/advertisement.py:86-122 | an older entry read from one state of the rows, and that did not slip, agrees exactly when the commits since change no answer to the request |
| AdRuns.EarlyInvalidationExactly | app/services/advertisement.py:216-227 | after an invalidation before the commit, while nothing starts, ends or expires: a commit that changes the answer is served exactly when no call for the request was stored in between |
| AdRuns.EarlyInvalidationServesOld | app/services/advertisement.py:183-185 | a concrete run: a banner switched off is still shown |
| AdRuns.OvertakenCallServesOld | app/services/advertisement.py:86-99 | a concrete run: an edit between the version and the filter leaves an entry that never learns of a start |
| AdRuns.UndisturbedCall | app/services/advertisement.py:86-122 | a call whose steps nothing comes between leaves the cache as the whole call does |
| AdConfig.PayloadStaysExactly | app/services/advertisement.py:401-425 | before the next change the active creatives stay the same, exactly unless one slipped |
| AdConfig.VersionExactly | app/services/advertisement.py:363-425 | the version is the latest instant at which a row was stamped or a creative of the request has started or ended, in whole seconds, or zero |
| AdConfig.NextChangeExactly | app/services/advertisement.py:401-419 | the next change is the first later instant at which a creative of the request starts or ends |
| AdConfig.ShownExactly | app/services/advertisement.py:432-469 | a creative shows in a requested slot exactly if it is placed there, enabled, within its times and listed for the platform, no list meaning the mini program |
| AdConfig.ShownInOrder | app/services/advertisement.py:471-478 | a slot shows smaller priority numbers first, then smaller sort orders, then smaller ids |
| AdConfig.OldEntryRecomputed | app/services/advertisement.py:69-122 | without an entry, or with one of three hundred seconds or whose next change has come, the answer is computed from the rows and stored as of the call |
| AdConfig.YoungEntryAnswers | app/services/advertisement.py:69-84 | a younger entry answers, without slots to a request that knows its version |
| AdConfig.NoSlotsAsked | app/services/advertisement.py:58-67 | a request for no slots gets version zero and leaves the cache alone |
| AdConfig.VersionStays | app/services/advertisement.py:363-399 | before the next change the version stays the same |
| AdConfig.OrderIrrelevant | app/services/advertisement.py:471-478 | the configuration does not depend on the order the rows come back in |
| AdConfig.KeyInjective | app/services/advertisement.py:481-483 | without ':' in the platform and ',' in the slots different requests have different keys |
| AdConfig.KeyClash | app/services/advertisement.py:481-483 | a platform with ':' shares an entry with another platform |
| AdConfig.KeyAloneExactly | app/services/advertisement.py:481-483 | a request shares its key with no other request whose slots have no ',' exactly when ':' is in none of its names |
| AdConfig.OthersEntryServed | app/services/advertisement.py:69-84 | a request is served the slots of another platform's request |
| AdConfig.EndedStillServed | app/services/advertisement.py:450-453 | a banner cached at the instant it ends is served a moment later |
| Notifier.SignalQueueStop | app/ws/manager.py:214-222 | the loop ends with the stop signal last, dropping only the oldest notes |
| Notifier.MerchantNotifier.RegisterConnection | app/ws/manager.py:83-90 | the connection gets a fresh empty queue and a sender |
| Notifier.MerchantNotifier.UnregisterConnection | app/ws/manager.py:92-107 | the connection leaves all three maps, its queue ends with the stop signal |
| Notifier.MerchantNotifier.BroadcastToLocal | app/ws/manager.py:133-153 | every open connection gets the message, the oldest dropped if full; only closed or queueless connections are stale, so the put after a drop never fails |
| Notifier.MerchantNotifier.TakeNext | app/ws/manager.py:190-200 | the sender takes the oldest note |
| Notifier.RunWired | app/ws/manager.py:83-153 | after any run the three maps share their keys and each open connection's queue is a suffix, within its size, of the messages broadcast since its registration, those taken being earlier, in order, none twice |
| Notifier.BroadcastDropsOldest | app/ws/manager.py:139-153 | after any run a broadcast appends to the queue of every open connection and drops a message, the oldest, exactly from queues that hold the configured buffer |
| Notifier.BroadcastLeavesOthers | app/ws/manager.py:133-156 | a broadcast changes no queue of a closed or unregistered connection, and no registration |
| Notifier.SizeIsBuffer | app/ws/manager.py:86 | a queue holds the configured buffer, at least one |
| Notifier.StaleAreClosed | app/ws/manager.py:133-156 | after any run the stale connections are the registered ones whose socket is closed |
| Notifier.EveryMessageCounted | app/ws/manager.py:147-151 | every message since registration was taken, waits, or was dropped by a broadcast that found the queue full |
| Notifier.LosslessWithoutOverflow | app/ws/manager.py:147-151 | without overflow, taken plus waiting is exactly what was broadcast |

## Left out

- Transactions are atomic: row locks, unique keys and the orders' version column (app/models/orders.py:91) are taken to serialise them, on the PostgreSQL path; SQLAlchemy sessions, savepoints, the SQLite polling loops and isolation anomalies are not modelled. The print-job row, which payments read without a lock, is the exception: `PrintRuns` takes their read and write as two steps.
- Payments.EnsureJobDue: the row is read and written in one step here; `PrintRuns.KickAtOnce` relates it to the two half-steps.
- Outcomes.PaymentWakesJob: holds of a payment between whose read and write of the job row no worker comes.
- Loyalty.CheckedAgainIsNothing: awards come one after the other; the check reads before the user row is locked, and no caller of the service uses it.
- Orders.EnsureIdempotency: two requests racing on one key are serialised by its row; the hash is taken to be injective, so the record holds the payload itself.
- Orders.CreateOrder: pickup codes, notes in the response, waiting-time estimates and metrics are not modelled; an order number already in use is refused by its unique key; a blank key is one of spaces, tabs and line ends only; request schemas are taken to have turned empty guest ids into absent ones.
- Orders.CancelStalePendingOrders: orders created in the same microsecond are taken in id order, where the query leaves the order open.
- PaymentMatch.AcquirePaymentRecord: records paid in the same microsecond are taken in id order; `flushed` stands for what the session does before re-reading a row, with autoflush off (app/db/session.py:31) assignments are lost.
- PrintJobs.FinishPrintJob: whether a null `next_try_at` that equals the worker's own copy is written again depends on the ORM and is left open (`clears`).
- Reservations.ActivateDueOrders: `updated_at` and the reminder marks of `send_due_reminders` are not modelled.
- OpenHours.AlignToOpenHours: the zone has a fixed offset; "HH:MM" strings and weekday numbers arrive parsed, a component that does not parse being absent.
- Pricing.CalculatePriceOnly: amounts are whole cents, Numeric(10,2) overflow and the 28-digit decimal context are not modelled; the coupon table's check (app/models/accounts.py:103) admits only free drinks, the other kinds are modelled as the code handles them.
- Payments.HandleWechatNotification: the HMAC comparison is a given outcome; raw notification data is not kept.
- Loyalty.AwardsCarry: the decimal context is exact; Celery's redelivery of a task is not modelled.
- MenuRuns.GetAgreesWithRebuild: what a rebuild contains (categories, products, spec groups) is one opaque value, and what its several queries return together is left open; looking into both caches is one step, as an entry hydrated late carries an older version; deleting the payload and raising the counter are one step with the edit; an entry's lifetime counts from its writing; clocks agree between processes.
- AdRuns.CacheAgrees: platforms with ':' are excluded, AdConfig.OthersEntryServed showing what they do; slot names arrive split at ',' (app/api/routes/advertisements.py:31), trimmed and sorted; the queries behind the version see the rows of one moment; one process, another process's edits are seen when its 300 seconds are over.
- Notifier.RunWired: a connection is registered anew only after its old sender is gone; publishing through Redis and the listener are not modelled.
- Distributed locks, rate limits, JWT and administrator roles, HTTP routes beyond the counter's hook: plumbing around these operations.
- Refunds and the statuses ready_for_pickup, completed, refund_pending and refunded: no step shown reaches them.
- Audit rows other than the fact and order of `order.auto_cancel`.
- Address book, want statistics, dashboard, reconciliation, maintenance and configuration flags: they would add only easy members.
