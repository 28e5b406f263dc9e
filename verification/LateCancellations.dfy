/**
 A paid order that is cancelled between two deliveries of its payment: when the seller keeps the money although the
 buyer has it back.
 */
module LateCancellations {
  import opened Wrappers
  import opened Money
  import opened Sums
  import opened SellerFees
  import opened Domain
  import opened Protocol
  import opened Finalization
  import opened Payments
  import opened Refunds
  import opened Transfers
  import opened CheckoutDelivery

  predicate SentToSeller(b: Books, id: OrderId) {
    AmountUnder(b.stripe.transfers, CartTransfer(b.t.session, id)).Some?
  }

  predicate SentToBuyer(b: Books, id: OrderId) {
    AmountUnder(b.stripe.refunds, OrderRefund(id)).Some?
  }

  predicate TakenBack(b: Books, id: OrderId) {
    AmountUnder(b.stripe.reversals, OrderReversal(id)).Some?
  }

  /** Stripe gave the money of the order to its seller and to its buyer. */
  predicate PaidTwice(b: Books, id: OrderId) {
    SentToSeller(b, id) && SentToBuyer(b, id) && !TakenBack(b, id)
  }

  lemma KnownNow(book: seq<Movement>, m: Movement)
    ensures AmountUnder(book + [m], m.key).Some?
  {
    assert (book + [m])[|book|].key == m.key;
  }

  // ----- The refund of a cancellation -----

  lemma ReversedIff(b: Books, e: RefundEntry, o: Order, fee: real, up: bool)
    requires !IsBuyNow(b.t, o) && 0 < CalculatePaymentSplit(e.amount, fee).transfer
    requires AmountUnder(b.stripe.reversals, ReversalKey(e)).None?
    ensures AmountUnder(Reversed(b, e, o, fee, up), ReversalKey(e)).Some? <==> WasTransferred(b.t, e.order) && up
  {
    hide CalculatePaymentSplit, AmountUnder;
    KnownNow(b.stripe.reversals, Movement(ReversalKey(e), CalculatePaymentSplit(e.amount, fee).transfer));
  }

  /**
   The first refund of an order pays it twice if and only if Stripe sent the seller's share, moves the refund, and
   does not take the share back. It is asked to only if the payment's ledger lists the transfer.
   */
  lemma RefundPaysTwiceIff(b: Books, id: OrderId, o: Order, fee: real, answer: Answer)
    requires b.t.intent.Some? && !IsBuyNow(b.t, o) && !HasCancellation(b.t, id)
    requires !SentToBuyer(b, id) && !TakenBack(b, id)
    requires var amount := CancellationEntry(b.t, id, o).amount;
             0 < amount && 0 < CalculatePaymentSplit(amount, fee).transfer
    ensures PaidTwice(RefundOrder(b, id, o, fee, answer).0, id)
            <==> SentToSeller(b, id) && !answer.Refuses? && !(WasTransferred(b.t, id) && answer.reversed)
  {
    hide OrderAmount, RefundedOf, Reversed, CalculatePaymentSplit, IsBuyNow, WasTransferred, AmountUnder;
    var e := CancellationEntry(b.t, id, o);
    if !answer.Refuses? {
      ReversedIff(b, e, o, fee, answer.reversed);
      KnownNow(b.stripe.refunds, Movement(RefundKey(e), e.amount));
    }
  }

  // ----- The transfers of a delivery -----

  function Share(t: Transaction, orders: map<OrderId, Order>, id: OrderId, accounts: Accounts): Cents
    requires id in orders
  {
    PlannedSplit(t, id, orders[id], accounts(orders[id].seller).fee).transfer
  }

  lemma OtherSent(p: Pass, t: Transaction, x: OrderId, o: Order, account: SellerAccount, up: bool, id: OrderId)
    requires x != id && p.till.forgotten == {}
    ensures var q := TransferOne(p, t, x, o, account, up);
            var key := CartTransfer(t.session, id);
            q.till.forgotten == {} && AmountUnder(q.till.moved, key) == AmountUnder(p.till.moved, key)
  {
    hide PlannedSplit, WasTransferred, AmountUnder;
    OtherKey(p.till.moved, Movement(CartTransfer(t.session, x), PlannedSplit(t, x, o, account.fee).transfer),
             CartTransfer(t.session, id));
  }

  /** The loop sends nothing to the seller of an order that it is not given. */
  lemma {:induction false} NotGivenNotSent(till: Till, t: Transaction, ids: seq<OrderId>, orders: map<OrderId, Order>,
                                           accounts: Accounts, failsAt: Option<nat>, id: OrderId)
    requires till.forgotten == {} && id !in ids
    ensures var p := TransferEach(till, t, ids, orders, accounts, failsAt);
            var key := CartTransfer(t.session, id);
            p.till.forgotten == {} && AmountUnder(p.till.moved, key) == AmountUnder(till.moved, key)
  {
    if ids != [] {
      hide TransferOne, AmountUnder;
      var n := |ids| - 1;
      NotGivenNotSent(till, t, ids[..n], orders, accounts, failsAt, id);
      var p := TransferEach(till, t, ids[..n], orders, accounts, failsAt);
      if !p.stopped && ids[n] in orders {
        OtherSent(p, t, ids[n], orders[ids[n]], accounts(orders[ids[n]].seller), failsAt != Some(n), id);
      }
    }
  }

  /** The loop gets to the order of this position, and Stripe makes its transfer. */
  predicate GetsThrough(till: Till, t: Transaction, ids: seq<OrderId>, k: nat, orders: map<OrderId, Order>,
                        accounts: Accounts, failsAt: Option<nat>)
    requires k < |ids| && ids[k] in orders
  {
    && !TransferEach(till, t, ids[..k], orders, accounts, failsAt).stopped
    && accounts(orders[ids[k]].seller).ready && failsAt != Some(k)
  }

  lemma {:induction false} GivenIsSentIff(till: Till, t: Transaction, ids: seq<OrderId>, k: nat,
                                          orders: map<OrderId, Order>, accounts: Accounts, failsAt: Option<nat>)
    requires till.forgotten == {} && NoRepeats(ids) && k < |ids| && ids[k] in orders && !WasTransferred(t, ids[k])
    requires AmountUnder(till.moved, CartTransfer(t.session, ids[k])).None? && 0 < Share(t, orders, ids[k], accounts)
    ensures var p := TransferEach(till, t, ids, orders, accounts, failsAt);
            && p.till.forgotten == {}
            && (AmountUnder(p.till.moved, CartTransfer(t.session, ids[k])).Some?
                <==> GetsThrough(till, t, ids, k, orders, accounts, failsAt))
    decreases |ids|
  {
    hide PlannedSplit, WasTransferred, AmountUnder;
    var n, id := |ids| - 1, ids[k];
    var p := TransferEach(till, t, ids[..n], orders, accounts, failsAt);
    if k == n {
      NotGivenNotSent(till, t, ids[..n], orders, accounts, failsAt, id);
      KnownNow(p.till.moved, Movement(CartTransfer(t.session, id), Share(t, orders, id, accounts)));
    } else {
      hide TransferOne, Share;
      assert ids[..n][..k] == ids[..k];
      GivenIsSentIff(till, t, ids[..n], k, orders, accounts, failsAt);
      if !p.stopped && ids[n] in orders {
        OtherSent(p, t, ids[n], orders[ids[n]], accounts(orders[ids[n]].seller), failsAt != Some(n), id);
      }
    }
  }

  /**
   Of an order whose money the buyer has back, a delivery pays the seller too if and only if it still takes the order
   for settled, gets to it and makes the transfer.
   */
  lemma DeliveryPaysTwiceIff(book: CardBook, i: nat, orders: map<OrderId, Order>, ids: seq<OrderId>, id: OrderId,
                             env: Environment)
    requires Matching(book) && i < |book.ts| && NoRepeats(ids) && id in orders
    requires SentToBuyer(BooksAt(book, i), id) && !TakenBack(BooksAt(book, i), id)
    requires !SentToSeller(BooksAt(book, i), id) && !WasTransferred(book.ts[i], id)
    requires 0 < Share(book.ts[i], orders, id, env.accounts)
    ensures PaidTwice(BooksAt(PaidOut(book, i, orders, ids, env).0, i), id)
            <==> exists k :: 0 <= k < |ids| && ids[k] == id
                   && GetsThrough(Till(book.records[i].transfers, {}), book.ts[i], ids, k, orders, env.accounts,
                                  env.failsAt)
  {
    hide TransferEach, WasTransferred, AmountUnder, Share, GetsThrough;
    var till := Till(book.records[i].transfers, {});
    if id in ids {
      var k :| 0 <= k < |ids| && ids[k] == id;
      GivenIsSentIff(till, book.ts[i], ids, k, orders, env.accounts, env.failsAt);
    } else {
      NotGivenNotSent(till, book.ts[i], ids, orders, env.accounts, env.failsAt, id);
    }
  }

  lemma KnownStill(book: seq<Movement>, m: Movement, key: StripeKey)
    requires AmountUnder(book, key).Some?
    ensures AmountUnder(book + [m], key).Some?
  {
    var k :| 0 <= k < |book| && book[k].key == key;
    assert (book + [m])[k].key == key;
  }

  lemma {:induction false} SentStays(till: Till, t: Transaction, ids: seq<OrderId>, orders: map<OrderId, Order>,
                                     accounts: Accounts, failsAt: Option<nat>, key: StripeKey)
    requires till.forgotten == {} && AmountUnder(till.moved, key).Some?
    ensures var p := TransferEach(till, t, ids, orders, accounts, failsAt);
            p.till.forgotten == {} && AmountUnder(p.till.moved, key).Some?
  {
    if ids != [] {
      hide PlannedSplit, WasTransferred, AmountUnder;
      var n := |ids| - 1;
      SentStays(till, t, ids[..n], orders, accounts, failsAt, key);
      var p := TransferEach(till, t, ids[..n], orders, accounts, failsAt);
      if !p.stopped && ids[n] in orders {
        KnownStill(p.till.moved, Movement(CartTransfer(t.session, ids[n]), Share(t, orders, ids[n], accounts)), key);
      }
    }
  }

  /** No later delivery, and no refund that is asked for again, makes up for an order that was paid twice. */
  lemma PaidTwiceStays(book: CardBook, i: nat, orders: map<OrderId, Order>, ids: seq<OrderId>, id: OrderId,
                       env: Environment, fee: real, answer: Answer)
    requires Matching(book) && i < |book.ts| && id in orders && PaidTwice(BooksAt(book, i), id)
    requires HasCancellation(book.ts[i], id)
    ensures PaidTwice(BooksAt(PaidOut(book, i, orders, ids, env).0, i), id)
    ensures HasCancellation(PaidOut(book, i, orders, ids, env).0.ts[i], id)
    ensures PaidTwice(RefundOrder(BooksAt(book, i), id, orders[id], fee, answer).0, id)
  {
    hide TransferEach, AmountUnder;
    var till := Till(book.records[i].transfers, {});
    SentStays(till, book.ts[i], ids, orders, env.accounts, env.failsAt, CartTransfer(book.ts[i].session, id));
  }

  /** Once its payment's orders are decided, a delivery takes an order for settled exactly if it is not CANCELLED. */
  lemma SettledUnlessCancelled(db: Db, ids: seq<OrderId>, id: OrderId, now: Time, settings: Settings)
    requires NonePending(db, ids) && id in ids
    ensures var all := SettleEach(db, ids, now, settings, None);
            all.error.None? && (id in SettledIds(ids, all.reports) <==> db.orders[id].status != Cancelled)
  {
    SettlesNothing(db, ids, now, settings, None);
    hide SettleEach;
    var k :| 0 <= k < |ids| && ids[k] == id;
    var reports := SettleEach(db, ids, now, settings, None).reports;
    assert reports[k] == AlreadySettled ==> id in Reporting(ids, reports, AlreadySettled);
  }

  // ----- The two ways to be paid twice -----

  /** A cart payment of which nothing was sent anywhere yet, with a seller who is due something for this order. */
  ghost predicate NothingSent(book: CardBook, i: nat, orders: map<OrderId, Order>, id: OrderId, env: Environment) {
    && Matching(book) && i < |book.ts| && book.ts[i].intent.Some? && id in orders && !IsBuyNow(book.ts[i], orders[id])
    && book.ts[i].refunds == [] && book.ts[i].transfers == [] && book.records[i] == StripeRecord([], [], [])
    && env.accounts(orders[id].seller).ready && env.failsAt.None? && 0 < Share(book.ts[i], orders, id, env.accounts)
  }

  lemma FirstDelivery(book: CardBook, i: nat, orders: map<OrderId, Order>, id: OrderId, env: Environment)
    requires Matching(book) && i < |book.ts| && id in orders && !WasTransferred(book.ts[i], id)
    requires !SentToSeller(BooksAt(book, i), id) && 0 < Share(book.ts[i], orders, id, env.accounts)
    requires env.accounts(orders[id].seller).ready && env.failsAt.None?
    ensures Matching(PaidOut(book, i, orders, [id], env).0) && i < |PaidOut(book, i, orders, [id], env).0.ts|
    ensures var after := BooksAt(PaidOut(book, i, orders, [id], env).0, i);
            && SentToSeller(after, id) && after.stripe.refunds == book.records[i].refunds
            && after.stripe.reversals == book.records[i].reversals
            && after.t.(transfers := book.ts[i].transfers) == book.ts[i]
            && (env.dies ==> after.t == book.ts[i])
  {
    var till := Till(book.records[i].transfers, {});
    assert [id][..0] == [];
    assert TransferEach(till, book.ts[i], [], orders, env.accounts, None) == Pass(till, book.ts[i].transfers, false);
    assert GetsThrough(till, book.ts[i], [id], 0, orders, env.accounts, None);
    hide TransferEach, GetsThrough, WasTransferred, Share;
    GivenIsSentIff(till, book.ts[i], [id], 0, orders, env.accounts, None);
  }

  /**
   A delivery dies after Stripe sent the seller's share and before the ledger lists it. The order is then cancelled:
   the refund finds no transfer to take back.
   */
  lemma DiedThenCancelled(book: CardBook, i: nat, orders: map<OrderId, Order>, id: OrderId, env: Environment, fee: real)
    requires NothingSent(book, i, orders, id, env) && env.dies
    requires var amount := CancellationEntry(book.ts[i], id, orders[id]).amount;
             0 < amount && 0 < CalculatePaymentSplit(amount, fee).transfer
    ensures var died := BooksAt(PaidOut(book, i, orders, [id], env).0, i);
            var (cancelled, result) := RefundOrder(died, id, orders[id], fee, Done(true));
            result.Success? && PaidTwice(cancelled, id) && HasCancellation(cancelled.t, id)
  {
    hide PaidOut, CalculatePaymentSplit, Share, IsBuyNow, OrderAmount, RefundedOf, Reversed;
    FirstDelivery(book, i, orders, id, env);
    var died := BooksAt(PaidOut(book, i, orders, [id], env).0, i);
    RefundPaysTwiceIff(died, id, orders[id], fee, Done(true));
    AddedEntry(died.t, CancellationEntry(died.t, id, orders[id]));
    hide HasCancellation, AmountUnder, PaidTwice;
  }

  /**
   A delivery fails before it gets to the order. An admin refunds the order, which is REFUNDED then and not CANCELLED:
   the next delivery takes it for settled and pays its seller.
   */
  lemma RefundedThenPaidOut(book: CardBook, i: nat, orders: map<OrderId, Order>, id: OrderId, env: Environment,
                            fee: real)
    requires NothingSent(book, i, orders, id, env) && 0 < CancellationEntry(book.ts[i], id, orders[id]).amount
    ensures var (refunded, result) := RefundOrder(BooksAt(book, i), id, orders[id], fee, Done(true));
            var again := BooksAt(PaidOut(WithBooks(book, i, refunded), i, orders, [id], env).0, i);
            result.Success? && PaidTwice(again, id) && HasCancellation(again.t, id)
  {
    hide CalculatePaymentSplit, IsBuyNow, OrderAmount, RefundedOf;
    var b := BooksAt(book, i);
    var e := CancellationEntry(b.t, id, orders[id]);
    PaysFresh(b, e, orders[id], fee, true);
    KnownNow([], Movement(OrderRefund(id), e.amount));
    var after := RefundOrder(b, id, orders[id], fee, Done(true)).0;
    assert after.t == Recorded(b.t, e) && after.stripe.transfers == [] && after.stripe.reversals == [];
    SameShare(b.t, after.t, orders, id, env.accounts);
    AddedEntry(b.t, e);
    hide RefundOrder, PaidOut, Share;
    FirstDelivery(WithBooks(book, i, after), i, orders, id, env);
  }

  lemma SameShare(t: Transaction, t': Transaction, orders: map<OrderId, Order>, id: OrderId, accounts: Accounts)
    requires id in orders && t'.plan == t.plan
    ensures Share(t', orders, id, accounts) == Share(t, orders, id, accounts)
  {
  }
}
