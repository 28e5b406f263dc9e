# Verified model of the marketplace's order, payment and return protocol

The marketplace sells single, unique items. This project models how such an item goes from a cart to
a paid order, through fulfilment, to a cancellation, refund or return, and proves what holds of it
whatever the order in which requests, provider notifications and scheduled jobs interleave.

It has three layers.

- **Rows and rules.** `Domain`, `Payments` and `Database` hold the rows; `OrderSteps` says what each
  database statement or transaction does to them, and `RowLaws` what that means column by column.
  `Checkout`, `SellerFees` and `Currency` hold the money arithmetic: amounts are whole cents, unrounded
  amounts exact reals, rounding is half up. `CheckoutLaws` and `CheckoutOrders` go from the priced cart to
  its orders.
- **The protocol.** `Protocol` is a state machine. Every request is a task that runs one statement at a
  time, interleaved with all others, and may be abandoned between any two. `ProtocolInvariant` and
  `ProtocolSteps` prove the invariant of every step; `ProtocolTheorems`, `Lifecycle`, `Holds`,
  `ReturnRaces` and `SellerNets` draw the conclusions over whole runs, and `Witnesses` reaches from an
  empty marketplace the states in which the failing runs start. `Finalization`, `Refunds`,
  `SellerReversals`, `Transfers`, `CheckoutDelivery`, `LateCancellations`, `Tbi` and `Returns` do the
  same for sequences of payments, refunds, transfers, bank reports and return requests, with calls to
  Stripe that fail or whose answer is lost.
- **The services.** `OrderService`, `StripePayments`, `StripeWebhooks`, `TbiCreditService`,
  `ReturnService`, `Catalogue`, `CheckoutService` and the class in `Currency` are written with the loops
  and updates of the originals, over shared tables, and each method is proved against the functions of
  the layers below. `Refinement` shows that settlements, cancellations, status changes and reductions
  of what a seller nets that run undisturbed are runs of the protocol, and that runs are what may happen
  between two return requests. The large Stripe service is split in two, the part that only moves money
  below the order service and the part that reacts to notifications above it.

Stripe is an abstract record of money moved under idempotency keys, which are kept; it does not itself
refuse a refund. Clock readings, provider answers, rates, fee settings and what happens to a call are
parameters.

## Where the code falls short

Each of these names the members that show it, and the one with the exact condition.

- A refused settlement re-reads its order and cancels it only later. In between, the same order can be
  confirmed by another delivery (`ProtocolTheorems.RejectedYetConfirmed`,
  `ProtocolTheorems.RereadRejectsUncancelledIff`). With the two as one step it cannot
  (`ProtocolTheorems.LosersReportSettled`).
- Cancelling unpaid orders releases the holds of all orders it found, even of those it did not cancel,
  so it can drop the hold of a newer checkout (`Holds.LateReleaseDropsNewerHold`, `Holds.ReleaseAloneIff`).
- Replacing a buyer's open checkouts and opening the new one are not one step, so two checkouts at once
  leave two unpaid orders for one item (`Holds.TwoOpenOrders`, `Holds.OpenAloneIff`).
- Two overlapping deliveries of a cart can each confirm some of its orders and each spend the coupon
  (`Finalization.OvertakingSpendsTwice`, `Finalization.CouponSpentTwiceIff`).
- Return refunds of a cart are not capped by what their order still has, so more than the order's amount,
  and then more than the captured amount, can be given back (`Refunds.OrderGivenBackTwice`,
  `Refunds.ReturnWithinOrderIff`, `Refunds.CartRefundsExceedCaptured`, `Refunds.OrderRefundWithinCapturedIff`).
- If Stripe makes a cancellation's refund but its answer is lost, the order is put back while the money
  is gone (`Refunds.LostRefundIsUnrecorded`, `Refunds.FailureMovesMoneyIff`); the retry records it
  (`Refunds.RetryAfterLoss`).
- Two refunds of one payment that overlap both move money, and one overwrites the other's ledger entry
  (`Refunds.OverlappingRefunds`, `Refunds.RecordedOverIff`). A refund that overlaps a delivery erases the
  transfers it listed, which are then never taken back (`Refunds.ErasedTransferStays`).
- A delivery that dies between a transfer and the transfer ledger leaves the transfer unlisted, so a
  cancellation gives the buyer the money back and the seller keeps it (`LateCancellations.DiedThenCancelled`,
  `LateCancellations.RefundPaysTwiceIff`). And an order that an admin marked REFUNDED before its delivery
  is repeated still counts as settled, so its seller is paid (`LateCancellations.RefundedThenPaidOut`,
  `LateCancellations.DeliveryPaysTwiceIff`).
- Return updates write without a guard, so two at once can leave a rejected return refunded
  (`ReturnRaces.RejectedYetRefunded`, `ReturnRaces.ReturnWriteIff`), take a completed one back or give it
  another refund time and amount (`ReturnRaces.CompletedReturnReopens`, `ReturnRaces.CompletedTwice`,
  `ReturnRaces.FinalReturnKeptIff`).
- What a seller nets is read and written in two steps, so of two refunds that overlap only one is taken
  off (`ReturnRaces.EarningsOverwritten`, `ReturnRaces.EarningsWriteIff`), and the refund of a return that
  two updates complete is taken off twice (`ReturnRaces.RefundTakenOffTwice`).
  `SellerNets.RightThroughoutIff` has the exact condition over whole runs.
- A return update that dies after its refund is never made up for in what the seller nets
  (`Returns.DeadRequestIsNotMadeUp`, `Returns.TakenOffIff`, `Returns.TakesOffIff`).
- A refund by hand that fails puts an order back to DELIVERED whose items were all returned meanwhile
  (`ReturnRaces.FullyReturnedYetDelivered`, `ReturnRaces.FullyReturnedPutBackIff`).
- A hold that ends this very instant is over for the checkout summary and not for the statement that places
  the next one, which then refuses the cart (`CheckoutLaws.ForSaleCanBeHeld`, `CheckoutOrders.SummaryOpens`).
- A payment that was closed by the buyer's newer checkout keeps its other orders open, and a later
  approval by the bank confirms them (`Tbi.ClosedPaymentStillConfirms`, `Tbi.NothingAfterClosingIff`).
- Two reports of the bank that overlap can overwrite an approval (`Tbi.ReportsOverwrite`,
  `Tbi.ApprovalSurvivesIff`).

## Model

| member | source | states |
|---|---|---|
| ProtocolSteps.StepKeeps | src/modules/order/order.service.ts:1339-1415 | every step of every task, in any interleaving, keeps the whole invariant: paid columns, stamps, ownership of sold items, claims, returns and settlement reports |
| ProtocolTheorems.RunKeeps | src/modules/order/order.service.ts:1276-1655 | along any run no order disappears, changes what was sold to whom, becomes unpaid again, or changes its confirmation time or fee once set; an unpaid cancelled order stays so |
| ProtocolTheorems.SingleSale | src/modules/order/order.service.ts:1348-1366 | in every reachable state an item is with at most one order that is live or in the middle of its cancellation, and is then SOLD |
| ProtocolTheorems.ConfirmedExactlyOnce | src/modules/order/order.service.ts:1352-1390 | over all interleavings at most one settlement of an order reports "confirmed", and one does if and only if the order was ever confirmed |
| ProtocolTheorems.LosersReportSettled | src/modules/order/order.service.ts:1396-1413 | in runs where nobody cancels the order but its own rejections, each right behind its re-read: if some settlement confirms the order, none rejects it, so every loser of the race reports "already settled" |
| ProtocolTheorems.RejectionCancels | src/modules/order/order.service.ts:1305-1307 | a settlement that rejects an existing order leaves it cancelled, unless its re-read stands alone |
| ProtocolTheorems.RejectedYetConfirmed | src/modules/order/order.service.ts:1396-1413 | a concrete run in which the re-read alone lets one delivery reject an order that another confirms |
| ProtocolTheorems.RereadRejectsUncancelledIff | src/modules/order/order.service.ts:1396-1413 | a re-read that stands alone rejects an order that is not cancelled if and only if it still finds it unpaid |
| ProtocolTheorems.SettlesAllOrNothing | src/modules/order/order.service.ts:1351-1393 | a settlement transaction sells every item of an order that was all available and confirms it, or changes no row |
| ProtocolTheorems.DroppedForever | src/modules/order/order.service.ts:1344-1347 | an unpaid order that was cancelled is never confirmed by any later payment |
| Lifecycle.PaidSnapshot | src/modules/order/order.service.ts:1379-1388 | every reachable order past PENDING and not CANCELLED has confirmation time, fee and net: until delivery exactly the settlement net, then within it; its stamps are in order |
| Lifecycle.ForwardOnly | src/modules/order/order.service.ts:1656-1663 | apart from failed refunds putting a status back, status rank only rises along every run, and each change uses up rank, so there are at most six |
| Lifecycle.FailedRefundRestores | src/modules/order/order.service.ts:1611-1624 | whatever happens meanwhile, a failed refund puts back the claimed row, status and cancellation columns included, and touches no product |
| Lifecycle.RelistIsExact | src/modules/order/order.service.ts:1631-1636 | after a refund exactly the items of an order that had not shipped are for sale again; every other row stays |
| Lifecycle.ReturnedOrders | src/modules/return/return.service.ts:62-76 | in every reachable state an order with a return is DELIVERED or REFUNDED |
| Lifecycle.CancelledByWhom | src/modules/order/order.service.ts:336-341 | in every reachable state buyers have cancelled only orders nobody had begun to fulfil, sellers only such that were paid, the system only such that never were; a later cancellation, or a refund by hand, was an admin's |
| RowLaws.CheckoutOpens | src/modules/order/order.service.ts:1169-1198 | a checkout opens one order a draft with exactly its seller, items and total, unpaid and numbered on; its items are held until the window ends; no other row changes |
| RowLaws.OpenedThenNets | src/modules/order/order.service.ts:1379-1388 | over whole runs: the orders a checkout opened keep what their drafts asked for, and one that was paid and not delivered nets its seller that total less the fee, within half a cent |
| RowLaws.ConfirmationWrites | src/modules/order/order.service.ts:1351-1393 | every column that a confirming settlement writes, and that it writes no other |
| RowLaws.DraftNets | src/modules/order/order.service.ts:1379-1388 | an order opened for a draft and confirmed nets its seller the draft's total less the seller's fee, and its items are sold |
| RowLaws.UnpaidAreDropped | src/modules/order/order.service.ts:1531-1557 | cancelling unpaid orders makes exactly the unpaid ones among the ids cancelled by the system now, and ends exactly their buyers' holds on their items |
| RowLaws.OpenOnesAreDropped | src/modules/order/order.service.ts:1676-1689 | a newer checkout drops exactly the buyer's own unpaid orders that have one of its items |
| RowLaws.WhoMoves | src/modules/order/order.service.ts:39-47 | which changes of status a buyer, a seller and an admin may make, as conditions on the ranks of the statuses |
| RowLaws.AccountDeletion | src/modules/user/providers/admin-user.service.ts:200-225 | deleting an account is refused while its user has an order in progress; otherwise exactly the items it had for sale end it, hold included |
| ReturnRaces.ReturnWriteIff | src/modules/return/return.service.ts:247-257 | the unguarded write of a return keeps "completed exactly when refunded" if and only if it completes the return or nobody completed it since the read |
| ReturnRaces.RejectedYetRefunded | src/modules/return/return.service.ts:247-257 | two interleaved updates leave a return rejected, yet refunded |
| ReturnRaces.FinalReturnKeptIff | src/modules/return/return.service.ts:247-257 | a late write leaves the whole row of a completed or rejected return as it is if and only if it happens to say the same, refund time and amount included |
| ReturnRaces.CompletedTwice | src/modules/return/return.service.ts:768-787 | two updates complete one return, and the later one gives the final, refunded return another refund time and amount |
| ReturnRaces.CompletedReturnReopens | src/modules/return/return.service.ts:247-257 | two interleaved updates take a completed return back into progress |
| ReturnRaces.EarningsWriteIff | src/modules/return/return.service.ts:715-736 | the unguarded write of the net takes the refund off the current row if and only if the net is still the one read, or the refund exhausts both |
| ReturnRaces.EarningsOverwritten | src/modules/return/return.service.ts:715-736 | of two refunds whose updates overlap only the later one is taken off |
| ReturnRaces.RefundTakenOffTwice | src/modules/return/return.service.ts:689-736 | two updates complete one return one after the other in every write of the net, and its one refund is taken off twice |
| SellerNets.NetIsLogged | src/modules/return/return.service.ts:715-736 | whatever overlaps, along any run a settled order nets its seller what the settlement leaves after a list of refunds, each writing update adding its own behind those it read |
| SellerNets.RightThroughoutIff | src/modules/return/return.service.ts:689-736 | that list has every refund taken off so far exactly once, in every state of a run, if and only if each writing update read the net when all refunds but its own return's were off, and that was not |
| SellerNets.AloneIsRight | src/modules/return/return.service.ts:689-736 | updates that do not overlap in the net, one for each return, keep it right in every state of a run |
| SellerNets.NetIsSettlementLessRefunds | src/modules/return/return.service.ts:689-736 | put together for a settled order: the net along any run, and that it is short of each refund once while the updates are undisturbed |
| ReturnRaces.FullyReturnedPutBackIff | src/modules/return/return.service.ts:738-764 | a failed refund by hand leaves the order marked as it should be if and only if its items were not all returned meanwhile |
| ReturnRaces.FullyReturnedYetDelivered | src/modules/return/return.service.ts:738-764 | a run in which an order whose only item was returned and refunded goes back to DELIVERED |
| Holds.StepHolds | src/modules/order/order.service.ts:1531-1557 | every action but a release on its own keeps: one unpaid order a buyer and item, each holding its items until its window ends |
| Holds.RunHolds | src/modules/order/order.service.ts:1676-1725 | so in every run with atomic checkouts and cancellations |
| Holds.HeldUntilWindowEnds | src/modules/order/order.service.ts:1691-1713 | an unpaid order in its window owns the hold on every item, and no other unpaid order of that buyer has the item |
| Holds.HeldForMinutes | src/modules/order/order.service.ts:1169-1172 | over whole runs: the items of every order that a checkout opened are held for its buyer for the minutes it asked for, whatever anyone does, as long as the order is unpaid |
| Holds.NobodyElseConfirms | src/modules/order/order.service.ts:1360-1369 | no settlement of another order with one of those items commits |
| Holds.InWindowPayment | src/modules/order/order.service.ts:1352-1374 | a payment in the window is refused if and only if some item is no longer ACTIVE and VERIFIED |
| Holds.LateExpiryHarmless | src/modules/stripe/stripe.service.ts:890-896 | a late expiry of a replaced checkout leaves the newer order and its holds as they are |
| Holds.ReleaseAloneIff | src/modules/order/order.service.ts:1551-1553 | a release that comes apart from its cancellation keeps the holds if and only if the buyer has no unpaid order in its window with a released item |
| Holds.LateReleaseDropsNewerHold | src/modules/order/order.service.ts:1537-1553 | a concrete run in which such a release takes the hold of a newer checkout |
| Holds.OpenAloneIff | src/modules/order/order.service.ts:1153-1206 | a checkout that comes apart from its replacement keeps the holds if and only if it is refused or the buyer has no unpaid order with one of its items |
| Holds.TwoOpenOrders | src/modules/order/order.service.ts:1676-1689 | a concrete run in which two checkouts of one buyer leave two unpaid orders for one item |
| OrderService.OrderService.ReserveProducts | src/modules/order/order.service.ts:1691-1713 | holds every listed product for the buyer, or none |
| OrderService.OrderService.SellProducts | src/modules/order/order.service.ts:1353-1374 | sells every distinct item or none |
| OrderService.OrderService.SettleTransaction | src/modules/order/order.service.ts:1352-1393 | commits exactly when every item is available and the order is still unpaid; otherwise leaves every row |
| OrderService.OrderService.SettleOrder | src/modules/order/order.service.ts:1339-1415 | is the settlement function: rows, report, and the failure on a misconfigured fee |
| OrderService.OrderService.CancelPendingPaymentOrders | src/modules/order/order.service.ts:1531-1557 | cancels exactly the listed unpaid orders, releases their holds, and counts them |
| OrderService.OrderService.SettleOrders | src/modules/order/order.service.ts:1296-1303 | settles each order in turn and sorts them by outcome, stopping at a misconfigured fee |
| OrderService.OrderService.FinalizePaidOrders | src/modules/order/order.service.ts:1276-1336 | rows and three result lists of one call, with its error cases; the given coupon's count is one higher exactly if it succeeds and confirms something, no other count moves |
| OrderService.OrderService.ReplaceOpenCheckouts | src/modules/order/order.service.ts:1676-1689 | cancels exactly the buyer's open orders for the products, and closes exactly their unfinished payments |
| OrderService.OrderService.CreatePendingOrders | src/modules/order/order.service.ts:1153-1206 | replaces open checkouts and closes their payments, then holds everything and opens one order a seller, or nothing; each new order is unpaid, of this buyer and with exactly its draft's seller, items and total, and together they are worth what the drafts are |
| OrderService.OrderService.CancelOrderWithRefund | src/modules/order/order.service.ts:1564-1654 | when it succeeds, which error comes when, and the books after it: ends in the target status with all of the order's amount given back and exactly its items given up, or with every row as before |
| Refinement.SettlingIsARun | src/modules/order/order.service.ts:1339-1415 | an uninterrupted settlement is the protocol run read, commit, re-read |
| Refinement.DroppingIsARun | src/modules/order/order.service.ts:1531-1557 | an uninterrupted cancellation of unpaid orders is the run find, cancel, and release of their holds one after the other, in any order |
| Refinement.CancellingIsARun | src/modules/order/order.service.ts:1564-1654 | an uninterrupted cancellation with refund is the protocol run check, claim, refund, relist |
| Refinement.FailedCancellingIsARun | src/modules/order/order.service.ts:1599-1624 | one whose refund fails is the run check, claim, put back, after which nothing has changed |
| Refinement.UnpaidCancellingIsARun | src/modules/order/order.service.ts:1588-1637 | one of an unpaid order is the run check, claim with the release of its holds |
| Refinement.UnrefundedCancellingIsARun | src/modules/order/order.service.ts:1625-1636 | one of a financed order, or without a payment on record, is the run check, claim, relist |
| Refinement.CancellingRefusedIff | src/modules/order/order.service.ts:1564-1600 | a cancellation does not begin in the protocol exactly where the service refuses it, a financed order by anyone but an admin included |
| Refinement.AdvancingIsARun | src/modules/order/order.service.ts:1656-1670 | an uninterrupted status change is the protocol run check, guarded update |
| Refinement.ReducingIsARun | src/modules/return/return.service.ts:715-736 | an uninterrupted reduction of the net is the protocol run read, write |
| Refinement.UpdatingIsARun | src/modules/return/return.service.ts:223-274 | an uninterrupted return update is the protocol run of its six statements |
| Refinement.RequestingIsARun | src/modules/return/return.service.ts:42-104 | an uninterrupted return request is the run check, insert |
| Refinement.RunIsMeanwhile | src/modules/order/order.service.ts:1611-1663 | any run of the protocol that does not get to the net amounts is what the sequences of return requests allow between two requests |
| Finalization.ReportsPartition | src/modules/order/order.service.ts:1292-1303 | the three result lists partition the ids |
| Finalization.NoneLeftPending | src/modules/order/order.service.ts:1296-1307 | a completed call leaves none of its orders unpaid and rewinds none that was settled |
| Finalization.LaterCallChangesNothing | src/modules/order/order.service.ts:1270-1275 | any later call for the payment confirms nothing and changes no row, whatever the protocol did in between |
| Finalization.CouponSpentOnce | src/modules/order/order.service.ts:1319-1324 | over any number of completed calls only the first can spend the coupon |
| Finalization.CountRises | src/modules/order/order.service.ts:1318-1322 | over any calls the count of the coupon in its table rises by exactly the number of completed calls that confirmed something, and no other count moves |
| Finalization.CountedOnce | src/modules/order/order.service.ts:1318-1322 | so over any deliveries of a payment it rises by one if the first call confirms something, and else not at all |
| Finalization.RaceKeeps | src/modules/order/order.service.ts:1292-1324 | however two calls for a payment interleave, the rows are those that one call alone leaves so far, and each order is confirmed by exactly one of them |
| Finalization.CouponSpentTwiceIff | src/modules/order/order.service.ts:1292-1324 | some race of two calls spends the coupon twice if and only if a call alone would confirm two orders |
| Finalization.OvertakingSpendsTwice | src/modules/order/order.service.ts:1296-1324 | the schedule that does: the first call confirms one order, the second overtakes it with the other |
| Finalization.SettleEachEffect | src/modules/order/order.service.ts:1296-1303 | orders that were not rejected are past PENDING and not cancelled; no other row of an order changes |
| Checkout.ValidateCoupon | src/modules/order/order.service.ts:962-1009 | accepts a coupon if and only if it is active, in its dates, below its usage limit and an eligible item has a price; the discount is within the eligible subtotal, negative only for a negative value |
| CheckoutLaws.CouponTakesOff | src/modules/order/order.service.ts:994-1003 | a percentage takes off its share of the eligible items within half a cent, never more than all of them; a fixed amount itself, up to the eligible subtotal |
| CheckoutLaws.GroupsConserve | src/modules/order/order.service.ts:804-842 | grouping by seller conserves the item total and the eligible total |
| CheckoutLaws.GroupLists | src/modules/order/order.service.ts:821-887 | each group lists exactly its seller's items, once each and in cart order, each at its discounted or else original price, with domestic terms within one country and international ones otherwise |
| CheckoutLaws.RefusedIff | src/modules/order/order.service.ts:793-807 | a cart is let through if and only if every item is for sale to the buyer now |
| CheckoutLaws.FirstRefused | src/modules/order/order.service.ts:793-807 | a refused cart is refused for its first item that is not, with what is wrong with it |
| CheckoutLaws.ForSaleCanBeHeld | src/modules/order/order.service.ts:1691-1713 | the checkout can hold what the summary lets through if and only if no other's hold on it ends this very instant |
| CheckoutOrders.SummaryOpens | src/modules/order/order.service.ts:1155-1198 | the orders of a cart that is let through are one a seller, together exactly its items and the summary's total; they can be opened if and only if no other's hold on one of them ends this very instant |
| CheckoutLaws.GroupDiscountBounded | src/modules/order/order.service.ts:881-885 | a group is discounted between zero and its eligible subtotal, so its total covers its delivery |
| CheckoutLaws.CouponDistributionBound | src/modules/order/order.service.ts:876-889 | the discount is the validated coupon's; group discounts and the printed prices are off the coupon by at most half a cent a group |
| CheckoutLaws.NoCouponBalances | src/modules/order/order.service.ts:876-889 | without a coupon the printed prices balance exactly |
| CheckoutLaws.CouponDriftIsReached | src/modules/order/order.service.ts:881-885 | the bound is reached by a cart of two sellers and a coupon of one cent |
| CheckoutLaws.BuyNowRefinesCart | src/modules/order/order.service.ts:640-654 | buying one product now is a cart of that product: same groups, prices and refusals, but that an own product without payment setup is refused for its setup |
| CheckoutService.SelectItems | src/modules/order/order.service.ts:771-793 | which cart items are checked out, each once and in cart order, with the selection errors |
| CheckoutService.SelectionPicks | src/modules/order/order.service.ts:769-791 | what is selected, without naming how: exactly the named items, or those of the named sellers, or all, each once and in cart order; and when each refusal comes |
| CheckoutService.SummaryOfSelection | src/modules/order/order.service.ts:724-925 | the groups of a summary are those of exactly the selected items' sellers, so of named sellers only if sellers are named |
| CheckoutService.NamedItemsAreFound | src/modules/order/order.service.ts:771-793 | a selection by cart items goes through if and only if every named item is in the cart |
| CheckoutService.GroupBySeller | src/modules/order/order.service.ts:804-812 | the seller map has each seller's items in cart order, keyed in order of first appearance |
| CheckoutService.PriceGroups | src/modules/order/order.service.ts:813-887 | the loop that opens the groups and the one that prices them give the specified groups |
| CheckoutService.BuildCheckoutSummary | src/modules/order/order.service.ts:724-925 | the whole summary, or the first error |
| SellerFees.GetSellerFeePercent | src/config/seller-fee.ts:11-20 | the percent is within 0 to 100, and fails exactly on a setting that is not |
| SellerFees.SplitConserves | src/modules/stripe/stripe.service.ts:546-573 | fee and transfer are non-negative and together the amount; the transfer is within half a cent of the exact share |
| SellerFees.FinancedSplitAgrees | src/modules/tbi-credit/tbi-credit.service.ts:751-759 | financed and card payments are split identically |
| SellerFees.ReversalBound | src/modules/stripe/stripe.service.ts:1518-1534 | partial reversals exceed the transfer by at most half a cent a refund and a half, and fall short of it by no more once everything is refunded |
| SellerFees.FullRefundReversesExactly | src/modules/stripe/stripe.service.ts:1518-1534 | one full refund reverses exactly the transfer |
| SellerFees.SellerNetTracksRefunds | src/modules/return/return.service.ts:715-736 | the net is non-negative, never raised by a refund, and within (k+1)/2 cents of the exact share; the clamp never adds error |
| Currency.CurrencyConversionService.EnsureRatesLoaded | src/modules/currency/currency.service.ts:64-74 | keeps fresh rates, and otherwise loads: quoted positive rates over the fallbacks, or the cache when the provider fails |
| Currency.ConvertsThroughDollars | src/modules/currency/currency.service.ts:37-50 | what some dollars are worth in one currency converts to what they are worth in any other |
| Currency.ConvertedCartBound | src/modules/stripe/stripe.service.ts:235-289 | individually converted orders are off the converted total by at most (n+1)/2 cents, and not at all in dollars |
| Currency.ConvertedCartDrifts | src/modules/stripe/stripe.service.ts:272-289 | the drift is real |
| Payments.FindPaid | src/modules/payment/payment.service.ts:112-122 | the newest paid transaction of the buyer that covers the order |
| Payments.FoundIs | src/modules/payment/payment.service.ts:108-122 | what is refunded is the last payment of the buyer that concerns the order and was paid, refunded or not, and none if there is no such |
| Payments.ClosedIff | src/modules/stripe/stripe.service.ts:743-762 | exactly the buyer's unfinished payments that concern one of the orders are closed; payments for other orders stay as they are |
| Payments.Create | src/modules/stripe/stripe.service.ts:1328-1338 | an idempotency key moves money once: known keys answer as before or refuse another amount |
| Refunds.OneEntryEach | src/modules/stripe/stripe.service.ts:1187-1202 | in any run of refunds, lost answers included, one ledger entry a return and one cancellation an order, each backed by its own movement |
| Refunds.ReturnsWithinCaptured | src/modules/stripe/stripe.service.ts:1220-1233 | runs of return refunds never exceed what was captured |
| Refunds.BuyNowWithinCaptured | src/modules/stripe/stripe.service.ts:1318-1342 | for buy-now any mix stays within what was captured, and an order refund that does not fail leaves exactly all of it given back |
| Refunds.RepeatMovesNothing | src/modules/stripe/stripe.service.ts:1301-1342 | repeating a refund moves and records nothing |
| Refunds.RetryAfterLoss | src/modules/stripe/stripe.service.ts:1352-1362 | a refund made but not recorded is recorded by the retry, which moves no more money; the lost attempt had moved all of it |
| Refunds.FailureMovesMoneyIff | src/modules/stripe/stripe.service.ts:1344-1384 | a refund that fails has moved money if and only if its answer was lost and no earlier attempt had made it |
| Refunds.LostRefundIsUnrecorded | src/modules/stripe/stripe.service.ts:1352-1375 | the failing inputs: all of the rest of the order is gone and nothing is on record |
| Refunds.RecordedOverIff | src/modules/stripe/stripe.service.ts:1469-1489 | recording a refund adds it to the current ledgers if and only if no refund and no transfer was written since the payment was read; what was is erased |
| Refunds.ErasedTransferStays | src/modules/stripe/stripe.service.ts:1500-1546 | a transfer that was erased like that is never taken back by a later refund, though listed it would be |
| Refunds.OverlappingRefunds | src/modules/stripe/stripe.service.ts:1469-1489 | two overlapping refunds move both amounts and leave one on the ledger |
| Refunds.LedgerMirrorsStripe | src/modules/stripe/stripe.service.ts:1469-1489 | while no answer is lost, the ledger and Stripe's record are the same |
| Refunds.RefundIsComplete | src/modules/stripe/stripe.service.ts:1334-1342 | a refund that goes through has given back exactly the order's amount and is its cancellation on record |
| Refunds.StatusFollowsLedger | src/modules/stripe/stripe.service.ts:1469-1489 | over any run of refunds that recorded one, the payment is REFUNDED if and only if its recorded refunds have reached the captured amount, and SUCCEEDED otherwise |
| Refunds.BuyNowReversesNothing | src/modules/stripe/stripe.service.ts:1236-1244 | no run of refunds of buy-now orders reverses anything from a seller by itself; Stripe does it with the refund |
| Refunds.BuyNowIsRefunded | src/modules/stripe/stripe.service.ts:1474-1489 | an order refund of a buy-now payment that gives money back leaves it REFUNDED |
| Refunds.ReturnGivesDue | src/modules/stripe/stripe.service.ts:1195-1250 | a return refund that goes through adds one entry of that return: the dollars asked for, or else the lesser of the item's price and the order's total, and their cents as converted and rounded |
| Refunds.ReturnRefundedIff | src/modules/stripe/stripe.service.ts:1150-1233 | if Stripe answers, a return is refunded if and only if it is paid, not refunded yet, positive, within its order and within what is left of the captured amount |
| Refunds.OrderRefundedIff | src/modules/stripe/stripe.service.ts:1310-1342 | if Stripe answers, an order is refunded if and only if it is paid, has no cancellation on record and the buyer has not had all of it back |
| Refunds.AmountPaid | src/modules/stripe/stripe.service.ts:1325-1334 | what the buyer paid for an order: all of a buy-now payment, the first plan entry of a cart, or else the order's total |
| Refunds.CancellationDollars | src/modules/stripe/stripe.service.ts:1465-1467 | the dollars of a cancellation are the refund's share of the order's total within half a cent, and all of it if nothing was given back before |
| Refunds.OrderRefundWithinCapturedIff | src/modules/stripe/stripe.service.ts:1318-1342 | an order refund of a cart stays within the captured amount if and only if the other orders' refunds leave room for it |
| Refunds.CartRefundsExceedCaptured | src/modules/stripe/stripe.service.ts:1200-1233 | a concrete cart from which more is given back than was captured |
| Refunds.ReturnWithinOrderIff | src/modules/stripe/stripe.service.ts:1200-1233 | a return refund stays within its order if and only if what was given back for the order before leaves room |
| Refunds.OrderGivenBackTwice | src/modules/stripe/stripe.service.ts:1200-1233 | two returns give back 200 cents of an order of 100, within what was captured |
| SellerReversals.SellerGivesBackShares | src/modules/stripe/stripe.service.ts:1500-1543 | while every refund is answered and reversed, the reversals of an order are exactly the seller's shares of its refunds on record |
| SellerReversals.SellerGivesBackAtMostTransfer | src/modules/stripe/stripe.service.ts:1500-1543 | and so at most the transfer plus half a cent a refund and a half, while Stripe refunds no more than the order |
| SellerReversals.SellerGivesBackAtMostShares | src/modules/stripe/stripe.service.ts:1500-1543 | with answers lost and reversals failing anywhere, they are at most the shares of what Stripe refunded of the order |
| Transfers.TransferredAtMostOnce | src/modules/stripe/stripe.service.ts:980-1064 | over redeliveries failing or dying anywhere, at most one transfer an order, of the planned amount, and no order twice in the ledger |
| Transfers.ForgottenKeyPaysTwice | src/modules/stripe/stripe.service.ts:976-979 | were a key forgotten before the ledger is written, a redelivery would pay twice |
| StripePayments.StripePayments.PayRefund | src/modules/stripe/stripe.service.ts:1344-1384 | the call to Stripe, the reversal and the ledger entry, for each way the call can end |
| StripePayments.StripePayments.RefundOrderPayment | src/modules/stripe/stripe.service.ts:1301-1390 | refunds what the buyer has not had back for an order, once; the buyer then has had exactly all of it back, and the payment is REFUNDED if its refunds reach the captured amount, SUCCEEDED if not |
| StripePayments.StripePayments.RefundReturnRequestPayment | src/modules/stripe/stripe.service.ts:1135-1299 | refunds one return, with its refusals; one that goes through adds one entry, of the dollars asked for or else the lesser of price and total, and marks the payment accordingly |
| StripePayments.StripePayments.ExpireCheckoutSessions | src/modules/stripe/stripe.service.ts:743-762 | closes exactly the buyer's unfinished payments for the orders |
| StripePayments.StripePayments.TransferCartPaymentToSellers | src/modules/stripe/stripe.service.ts:942-1067 | the transfer loop: ledger, Stripe and result for a failure at any position |
| CheckoutDelivery.DeliveryConserves | src/modules/stripe/stripe.service.ts:847-876 | over any number of deliveries of a cart, each failing anywhere, no order is both paid out and refunded; once one completes, transfers, fees and refunds are together what was planned |
| CheckoutDelivery.DeliveryKeepsSound | src/modules/stripe/stripe.service.ts:821-888 | however a delivery ends, only cancelled orders were refunded and only settled ones paid, each once and as planned; one that completes leaves every order refunded or paid out |
| CheckoutDelivery.RedeliveryMovesNothing | src/modules/stripe/stripe.service.ts:821-888 | delivering again changes no order, product or coupon and moves no money |
| CheckoutDelivery.DeliveryCounts | src/modules/stripe/stripe.service.ts:847-860 | one delivery raises the count of its session's coupon by one if it confirms some order, however it ends, and no other count |
| CheckoutDelivery.CountedByOneDelivery | src/modules/stripe/stripe.service.ts:821-888 | of all deliveries of a cart, each failing anywhere, at most one raises the coupon's count |
| CheckoutDelivery.BuyNowSendsNothing | src/modules/stripe/stripe.service.ts:872-876 | a buy-now session sends no transfer, and neither does one without a charge |
| CheckoutDelivery.LinkedToFirst | src/modules/stripe/stripe.service.ts:861-863 | a delivery that gets past finalizing the orders links the payment to the first of them |
| CheckoutDelivery.ConfirmedBySession | src/modules/stripe/stripe.service.ts:852-858 | an order confirmed by a buy-now session carries the session, one of a cart does not |
| LateCancellations.RefundPaysTwiceIff | src/modules/stripe/stripe.service.ts:1344-1365 | the first refund of a cart order leaves its money with the seller and the buyer if and only if Stripe had sent the share and moves the refund, and the ledger does not list the transfer or the reversal fails |
| LateCancellations.DeliveryPaysTwiceIff | src/modules/stripe/stripe.service.ts:985-1065 | of an order the buyer has back, a delivery pays the seller too if and only if it is among the settled ones, the loop gets to it and the transfer is made |
| LateCancellations.SettledUnlessCancelled | src/modules/order/order.service.ts:1348-1351 | once decided, an order counts as settled for a delivery if and only if it is not CANCELLED, so also if it is REFUNDED |
| LateCancellations.DiedThenCancelled | src/modules/stripe/stripe.service.ts:1510-1516 | a delivery that dies before the transfer ledger is written, then a cancellation: seller and buyer both keep the money |
| LateCancellations.RefundedThenPaidOut | src/modules/stripe/stripe.service.ts:872-876 | an order refunded by an admin before its delivery is repeated: the repetition pays its seller |
| LateCancellations.PaidTwiceStays | src/modules/stripe/stripe.service.ts:1318-1323 | no later delivery or repeated refund makes up for it |
| StripeWebhooks.StripeWebhooks.HandleCheckoutSessionCompleted | src/modules/stripe/stripe.service.ts:821-888 | is the specified delivery: rows, money, coupon count and every error that stops it |
| StripeWebhooks.StripeWebhooks.HandleCheckoutSessionExpired | src/modules/stripe/stripe.service.ts:890-905 | cancels the unpaid orders and closes an awaited payment |
| Tbi.NotApprovedIsNoApproval | src/modules/tbi-credit/tbi-credit.service.ts:812-828 | a text that says "not approved" is never read as an approval |
| Tbi.ApprovalIsRead | src/modules/tbi-credit/tbi-credit.service.ts:812-828 | a text that mentions an approval and no negative outcome is read as an approval |
| Tbi.ApprovalCodes | src/modules/tbi-credit/tbi-credit.service.ts:812-828 | "approved", "paid" and "3" are approvals |
| Tbi.NegativeIsRead | src/modules/tbi-credit/tbi-credit.service.ts:812-828 | a text that mentions a negative outcome is read as one, whatever else it says |
| Tbi.ReportLeavesRows | src/modules/tbi-credit/tbi-credit.service.ts:439-520 | what a report leaves: which status the payment gets, which orders are dropped, and when nothing happens |
| Tbi.SucceededIsFinal | src/modules/tbi-credit/tbi-credit.service.ts:439-445 | an approved payment stays approved and no later report changes an order or product or counts the coupon |
| Tbi.FinalizedAtMostOnce | src/modules/tbi-credit/tbi-credit.service.ts:447-461 | repeated and reordered reports finalize the orders, and count the coupon, at most once |
| Tbi.ReportsCountOnce | src/modules/tbi-credit/tbi-credit.service.ts:447-461 | over any reports the count of the coupon rises by the number of reports that confirmed something, which is at most one |
| Tbi.NothingAfterClosing | src/modules/tbi-credit/tbi-credit.service.ts:482-488 | after a negative report on an open payment, or one without unpaid orders, no later report, an approval included, changes an order or product |
| Tbi.NothingAfterClosingIff | src/modules/tbi-credit/tbi-credit.service.ts:482-488 | that condition is exact: on a payment already closed with an order still unpaid some later report changes it |
| Tbi.ClosedPaymentStillConfirms | src/modules/order/order.service.ts:1676-1689 | a newer checkout of some of a cart's items closes the financed payment and cancels their orders; the cart's other order stays open, through a negative report too, and a later approval confirms it alone |
| Tbi.ApprovalSurvivesIff | src/modules/tbi-credit/tbi-credit.service.ts:428-517 | an approval written while another report runs survives if and only if that report is an approval too |
| Tbi.ReportsOverwrite | src/modules/tbi-credit/tbi-credit.service.ts:428-517 | an approval and a rejection that overlap leave the payment rejected with its order confirmed |
| TbiCreditService.TbiCreditService.ApplyProviderStatus | src/modules/tbi-credit/tbi-credit.service.ts:428-520 | is the specified effect of one report on rows, payment and coupon count |
| TbiCreditService.PolledIsClosed | src/modules/tbi-credit/tbi-credit.service.ts:362-388 | an application past the reservation window is closed unless asking the bank or applying its approval fails |
| TbiCreditService.PolledUndecided | src/modules/tbi-credit/tbi-credit.service.ts:362-388 | where asking the bank fails nothing changes, a decision is applied, and an undecided application stays in process while the window lasts and is then cancelled, with exactly its unpaid orders dropped |
| TbiCreditService.TbiCreditService.SelectOpenApplications | src/modules/tbi-credit/tbi-credit.service.ts:350-358 | the oldest open applications past the polling age, fifty at most, none skipped |
| TbiCreditService.TbiCreditService.ReconcileOpenApplications | src/modules/tbi-credit/tbi-credit.service.ts:345-388 | a pass polls each selected application in turn, and leaves none past the window open where nothing failed |
| TbiCreditService.PollsClose | src/modules/tbi-credit/tbi-credit.service.ts:362-388 | a pass touches no payment it did not pick, and fails only where asking the bank or applying its approval does |
| Returns.ReturnLifecycle | src/modules/return/return.service.ts:618-646 | over any requests, dying anywhere and with orders moving in between: completed exactly when refunded, final returns never change, orders with returns are delivered or refunded |
| Returns.FullyReturnedIsRefunded | src/modules/return/return.service.ts:738-764 | an order all of whose items were refunded is REFUNDED, unless a request about it dies or its refund by hand fails |
| Returns.NetFollowsDeductions | src/modules/return/return.service.ts:715-736 | the net is exactly what the settlement leaves after the dollars taken off |
| Returns.TakenOffIff | src/modules/return/return.service.ts:689-736 | those dollars are the payment ledger of the order, refund by refund, if and only if no request died between its refund and the reduction |
| Returns.NetFollowsLedger | src/modules/return/return.service.ts:689-736 | so then the net is the settlement less exactly the refunds on record |
| Returns.TakesOffIff | src/modules/return/return.service.ts:715-723 | a completing update takes its refund off if and only if it was not on record before |
| Returns.DeadRequestIsNotMadeUp | src/modules/return/return.service.ts:715-723 | a refund recorded by a request that dies is never taken off by the retry |
| Returns.ChangedIff | src/modules/return/return.service.ts:618-684 | an update of a return is accepted if and only if it comes from the order's seller or an admin, moves forward but not from the request straight to completion, and has the reason, address or amount that its status asks for |
| Returns.GivesBackDue | src/modules/return/return.service.ts:689-712 | what completing a return gives back: what was asked for or the price if the bank does it, else the dollars due, on the ledger of the payment |
| Returns.GivesBackOnce | src/modules/return/return.service.ts:689-712 | an update of a return that was refunded before, or that does not complete it, gives nothing back |
| ReturnService.ReturnService.CreateReturn | src/modules/return/return.service.ts:42-104 | one return an item of a delivered order of the buyer, with the refusals |
| ReturnService.ReturnService.MarkOrderRefundedIfFullyReturned | src/modules/return/return.service.ts:738-764 | marks an order REFUNDED when every item has a refunded return |
| ReturnService.ReturnService.RefundCompleted | src/modules/return/return.service.ts:689-712 | who refunds a completed return, what it reports and what that leaves on the ledger and at Stripe |
| ReturnService.ReturnService.UpdateReturnStatus | src/modules/return/return.service.ts:223-274 | is the request that the return theorems are about: its refusals, its refund and the rows after it |
| Catalogue.ProductService.UpdateSellerProductStatus | src/modules/product/product.service.ts:201-217 | when a seller's status change is accepted and what it is refused for; accepted, it is the protocol's edit step |
| Catalogue.ProductService.UpdateProduct | src/modules/product/product.service.ts:434-482 | when a full edit is accepted and what it is refused for: never during a checkout, never taking a sold item back |
| Catalogue.ProductService.DeleteProduct | src/modules/product/product.service.ts:484-502 | a product is removed if and only if it may be edited and was never ordered |
| Catalogue.LegitGrailsService.ApplyProductStatus | src/modules/legitgrails/legitgrails.service.ts:452-476 | a verdict writes the authentication status, then publishes or unpublishes |
| Catalogue.VerdictsLeaveSalesAlone | src/modules/legitgrails/legitgrails.service.ts:463-476 | after a verdict an unsold item is for sale if and only if it was verified and its seller is ready, or was for sale and is not found a fake; no verdict moves a sold item, a hold or another item |
| Catalogue.DeliveryCountsOnce | src/modules/legitgrails/legitgrails.service.ts:280-300 | a verdict delivered again changes nothing, whatever happened to the item in between, and a newer one counts |
| Catalogue.LegitGrailsService.HandleWebhook | src/modules/legitgrails/legitgrails.service.ts:280-300 | the first request with the order id is handled, a repeated delivery ignored |
| Witnesses.ReturnRacesStart | src/modules/return/return.service.ts:247-257 | the overlapping return updates start in a state reached from an empty marketplace |
| Witnesses.EarningsOverwrittenReached | src/modules/return/return.service.ts:715-736 | a run from an empty marketplace to a net that lacks one of two refunds |
| Witnesses.FullyReturnedYetDeliveredReached | src/modules/order/order.service.ts:1611-1624 | a run from an empty marketplace to a delivered order whose only item was returned and refunded |
| Witnesses.CouponSpentTwiceReached | src/modules/order/order.service.ts:1276-1324 | a run from an empty marketplace to a cart whose coupon two overlapping deliveries spend twice |
| Witnesses.ClosedPaymentReached | src/modules/order/order.service.ts:1676-1689 | a run from an empty marketplace to a cart whose financed payment a newer checkout closes with an order left open |

## Left out

- Lifecycle.PaidSnapshot: bounds what a seller nets after delivery by the settlement net rather than fixing it, because overlapping return updates may overwrite each other; SellerNets.NetIsLogged says what it is along any run and SellerNets.RightThroughoutIff when that is right.
- Lifecycle.FailedRefundRestores: does not restore what the seller nets, which a return may have reduced meanwhile and the code leaves reduced.
- Finalization.CouponSpentOnce: speaks of calls that follow one another; Finalization.CouponSpentTwiceIff says what two that overlap do.
- Holds.RunHolds: takes a checkout, and a cancellation of unpaid orders, as one step; Holds.OpenAloneIff and Holds.ReleaseAloneIff say when the parts on their own keep the property.
- Refunds.OneEntryEach: takes each refund as one step over the ledger, for which it is true; Refunds.OverlappingRefunds shows two that overlap.
- StripeWebhooks.StripeWebhooks.HandleCheckoutSessionCompleted: expects the session's payment row to exist; a session whose row was never written is only logged by the code.
- CheckoutDelivery.DeliveryConserves: asks for planned amounts above zero, because an amount of zero falls back to the order's dollar total, and for no refund of the payment by anyone else between its deliveries; LateCancellations says when a cancellation in between pays an order twice.
- StripePayments.StripePayments.PayRefund: takes the seller's fee as given; a fee that is misconfigured when a reversal is worked out interrupts the refund like a lost answer.
- Finalization.RaceKeeps: is about two calls that read the same clock and settings, with nobody else settling or cancelling the same orders meanwhile.
- Returns.NetFollowsLedger: is about card payments; a financed order's refunds are made by the bank and are on no ledger, so Returns.NetFollowsDeductions is all there is to say.
- LateCancellations.RefundPaysTwiceIff: is about an order's first refund, with a share due to its seller; one asked for again after a lost answer may still take the share back.
- Tbi.FinalizedAtMostOnce: takes each report of the bank as one step; Tbi.ApprovalSurvivesIff says what overlapping ones do.
- Concurrent use of a coupon beyond its limit, which is checked at checkout and counted at payment.
- Refreshing exchange rates in the middle of a summary, so that its amounts use different rates.
- Reading a seller's product and then editing it as two statements, and ordering it between the two statements of its deletion or of its seller's account's; each is one step here.
- RowLaws.AccountDeletion: models an admin's deletion; a user's own is refused for pending returns too.
- The manual payout of financed orders, its amount and its two columns.
- The cart rows deleted after a payment, addresses, delivery times, and the check that a seller delivers to the buyer.
- Photos, prices and texts of products, the rest of a full edit, and the stored rows of authentication requests beyond their last delivery.
- Lower-casing of the bank's status text, country names and the lookup of a coupon by its code.
- Reading ids and amounts out of payment metadata; the model starts from the parsed values.
- Notifications, e-mails, listings, formatting, user accounts, chat, content and the administration dashboard.
- Real calls to Stripe, the bank, the authentication provider and the rate provider, signatures and encryption.
- Binary floating point; amounts are exact and rounded half up.
