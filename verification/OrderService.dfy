/**
 The order service: the methods that hold, sell, release and relist items and move orders, statement
 by statement over the shared tables. Each is proved against the step it takes in the order protocol.
 */
module OrderService {
  import opened Wrappers
  import opened Money
  import opened SellerFees
  import opened Domain
  import opened OrderSteps
  import opened Database
  import opened Protocol
  import opened Finalization
  import opened RowLaws
  import opened Payments
  import opened Refunds
  import opened StripePayments

  /** A list without its repetitions, in the order of first appearance, as a set is iterated. */
  function Distinct(xs: seq<int>): (ys: seq<int>)
    ensures forall x :: x in ys <==> x in xs
    ensures forall i, j :: 0 <= i < j < |ys| ==> ys[i] != ys[j]
  {
    if xs == [] then []
    else
      var rest := Distinct(xs[..|xs| - 1]);
      if xs[|xs| - 1] in rest then rest else rest + [xs[|xs| - 1]]
  }

  lemma NotYetHeld(products: map<ProductId, Product>, done: seq<ProductId>, id: ProductId, buyer: UserId, until: Time)
    requires id !in done
    ensures id in HoldAll(products, done, buyer, until) <==> id in products
    ensures id in products ==> HoldAll(products, done, buyer, until)[id] == products[id]
  {
  }

  lemma NotYetSold(products: map<ProductId, Product>, done: seq<ProductId>, id: ProductId, now: Time)
    requires id !in done
    ensures id in SellAll(products, done, now) <==> id in products
    ensures id in products ==> SellAll(products, done, now)[id] == products[id]
  {
  }

  ghost function Among(orders: map<OrderId, Order>, ids: seq<OrderId>): map<OrderId, Order> {
    map id | id in orders && id in ids :: orders[id]
  }

  lemma AmongAll(orders: map<OrderId, Order>, ids: seq<OrderId>)
    requires forall id :: id in orders ==> id in ids
    ensures Among(orders, ids) == orders
  {
    forall id | id in orders
      ensures id in Among(orders, ids)
    {
      assert id in ids;
    }
  }

  lemma ReleaseNone(products: map<ProductId, Product>, orders: map<OrderId, Order>, ids: seq<OrderId>)
    requires ids == []
    ensures ReleaseFound(products, Among(orders, ids)) == products
  {
  }

  lemma ReleaseNext(products: map<ProductId, Product>, orders: map<OrderId, Order>, done: seq<OrderId>, id: OrderId)
    requires id !in done
    ensures ReleaseFound(products, Among(orders, done + [id])) ==
            if id in orders
            then ReleaseFor(ReleaseFound(products, Among(orders, done)), orders[id].items, orders[id].buyer)
            else ReleaseFound(products, Among(orders, done))
  {
    hide ReleaseFound, ReleaseFor;
    if id in orders {
      assert Among(orders, done + [id]) == Among(orders, done)[id := orders[id]];
      ReleaseOneMore(products, Among(orders, done), id, orders[id]);
    } else {
      assert Among(orders, done + [id]) == Among(orders, done);
    }
  }

  datatype FinalizeError = NoOrders | Misconfigured(fee: FeeError) | CouponGone

  datatype Outcomes = Outcomes(confirmed: seq<OrderId>, alreadySettled: seq<OrderId>, rejected: seq<OrderId>)

  function Sorted(ids: seq<OrderId>, reports: seq<Report>): Outcomes
    requires |reports| == |ids|
  {
    Outcomes(Reporting(ids, reports, ConfirmedNow), Reporting(ids, reports, AlreadySettled),
             Reporting(ids, reports, RejectedNow))
  }

  function OneSorted(before: Outcomes, id: OrderId, r: Report): Outcomes {
    match r
    case ConfirmedNow => before.(confirmed := before.confirmed + [id])
    case AlreadySettled => before.(alreadySettled := before.alreadySettled + [id])
    case RejectedNow => before.(rejected := before.rejected + [id])
  }

  lemma SortedNext(ids: seq<OrderId>, reports: seq<Report>, id: OrderId, r: Report)
    requires |reports| == |ids|
    ensures Sorted(ids + [id], reports + [r]) == OneSorted(Sorted(ids, reports), id, r)
  {
    assert (ids + [id])[..|ids|] == ids && (reports + [r])[..|ids|] == reports;
  }

  /** The first `i` orders are settled and sorted, with nothing misconfigured so far. */
  ghost predicate SettledSoFar(before: Db, ids: seq<OrderId>, i: nat, now: Time, settings: Settings,
                               session: Option<int>,
                               db: Db, reports: seq<Report>, sorted: Outcomes)
  {
    && |reports| == i <= |ids| && sorted == Sorted(ids[..i], reports)
    && SettleEach(before, ids[..i], now, settings, session) == Settlements(db, reports, None)
  }

  lemma SettledNone(before: Db, ids: seq<OrderId>, now: Time, settings: Settings, session: Option<int>)
    ensures SettledSoFar(before, ids, 0, now, settings, session, before, [], Outcomes([], [], []))
  {
  }

  lemma SettledMore(before: Db, ids: seq<OrderId>, i: nat, now: Time, settings: Settings, session: Option<int>,
                    db: Db, reports: seq<Report>, sorted: Outcomes)
    requires i < |ids| && SettledSoFar(before, ids, i, now, settings, session, db, reports, sorted)
    ensures match SettleOne(db, ids[i], now, settings, session)
            case Success(one) =>
              SettledSoFar(before, ids, i + 1, now, settings, session, one.0, reports + [one.1],
                           OneSorted(sorted, ids[i], one.1))
            case Failure(e) => SettleEach(before, ids, now, settings, session) == Settlements(db, reports, Some(e))
  {
    hide SettleEach, SettleOne, Sorted, OneSorted;
    SettleEachNext(before, ids, i, now, settings, session);
    assert ids[..i + 1] == ids[..i] + [ids[i]];
    if SettleOne(db, ids[i], now, settings, session).Success? {
      SortedNext(ids[..i], reports, ids[i], SettleOne(db, ids[i], now, settings, session).value.1);
    }
  }

  datatype CancelError =
    | OrderNotFound | NotInThatStatus | FinancedByBank | UpdatedBySomeoneElse | RefundFailed(error: RefundError)

  datatype CheckoutFailure = ItemTaken

  lemma ReplacedAreFound(db: Db, buyer: UserId, productIds: seq<ProductId>, ids: seq<OrderId>)
    requires forall id :: id in ids <==> 0 < id && id in OpenOrdersOf(db, buyer, productIds)
    requires forall id :: id in db.orders ==> 0 < id
    ensures var open := OpenOrdersOf(db, buyer, productIds);
            FindPending(db, ids) == OpenCheckouts(db, buyer, productIds) && FindPending(db, ids).Keys == open
  {
    var open := OpenOrdersOf(db, buyer, productIds);
    forall id
      ensures id in FindPending(db, ids) <==> id in open
    {
    }
    assert FindPending(db, ids).Keys == open;
  }

  lemma NothingToReplace(db: Db, buyer: UserId, productIds: seq<ProductId>, now: Time)
    requires forall id :: id !in OpenOrdersOf(db, buyer, productIds)
    ensures OpenCheckoutsReplaced(db, buyer, productIds, now) == db
  {
    assert ReleaseFound(db.products, OpenCheckouts(db, buyer, productIds)) == db.products;
    var open := OpenOrdersOf(db, buyer, productIds);
    forall id | id in db.orders
      ensures CancelFound(db.orders, open, now)[id] == db.orders[id]
    {
      assert id !in open;
    }
    assert CancelFound(db.orders, open, now) == db.orders;
  }

  lemma NothingToClose(ts: seq<Transaction>, ids: set<OrderId>, buyer: UserId)
    requires forall id :: id !in ids
    ensures Expired(ts, ids, buyer) == ts
  {
  }

  lemma NextDraft(orders: map<OrderId, Order>, next: OrderId, buyer: UserId, drafts: seq<Draft>, i: nat)
    requires i < |drafts|
    ensures WithDrafts(orders, next, buyer, drafts[..i + 1])
         == WithDrafts(orders, next, buyer, drafts[..i])[next + i := Opened(buyer, drafts[i])]
  {
    hide Opened;
    var shorter := WithDrafts(orders, next, buyer, drafts[..i]);
    var longer := WithDrafts(orders, next, buyer, drafts[..i + 1]);
    forall id | id in longer
      ensures longer[id] == shorter[next + i := Opened(buyer, drafts[i])][id]
    {
      if next <= id < next + i {
        assert DraftRow(buyer, drafts[..i], next, id) == DraftRow(buyer, drafts[..i + 1], next, id);
      } else if id == next + i {
        assert DraftRow(buyer, drafts[..i + 1], next, id) == Opened(buyer, drafts[i]);
      }
    }
  }

  /** One new order a draft, for exactly what it asks for; all other orders stay. */
  ghost predicate OrdersOpened(before: map<OrderId, Order>, after: map<OrderId, Order>, ids: seq<OrderId>,
                               buyer: UserId, drafts: seq<Draft>)
  {
    && |ids| == |drafts|
    && (forall i :: 0 <= i < |ids| ==>
          ids[i] !in before && ids[i] in after && OpenedFor(after[ids[i]], buyer, drafts[i]))
    && (forall id :: id in after && id !in before ==> id in ids)
    && (forall id :: id in before ==> id in after && after[id] == before[id])
    && Sum(TotalsOf(after, ids)) == Sum(DraftTotals(drafts))
  }

  /** The buyer holds the items of all drafts. */
  predicate DraftsHeld(products: map<ProductId, Product>, buyer: UserId, drafts: seq<Draft>, until: Time) {
    forall i, p :: 0 <= i < |drafts| && p in drafts[i].items ==>
      p in products && products[p].reservedBy == Some(buyer) && products[p].reservedUntil == Some(until)
  }

  lemma DraftsAreHeld(db: Db, buyer: UserId, drafts: seq<Draft>, until: Time, now: Time)
    requires CanCheckout(db, buyer, drafts, now)
    ensures DraftsHeld(CheckedOut(db, buyer, drafts, until).products, buyer, drafts, until)
  {
    CheckoutOpens(db, buyer, drafts, until);
    hide CheckedOut;
  }

  lemma DraftsAreOpened(db: Db, buyer: UserId, drafts: seq<Draft>, until: Time, ids: seq<OrderId>)
    requires forall id :: id in db.orders ==> id < db.nextOrder
    requires |ids| == |drafts| && forall i :: 0 <= i < |ids| ==> ids[i] == db.nextOrder + i
    ensures OrdersOpened(db.orders, CheckedOut(db, buyer, drafts, until).orders, ids, buyer, drafts)
  {
    CheckoutOpens(db, buyer, drafts, until);
    var after := CheckedOut(db, buyer, drafts, until).orders;
    hide CheckedOut, OpenedFor;
    forall id | id in after && id !in db.orders
      ensures id in ids
    {
      assert ids[id - db.nextOrder] == id;
    }
    SameTotals(after, ids, buyer, drafts);
  }

  /** Items of an order that had not shipped go back on sale, those of an unpaid one lose their hold. */
  function ItemsGivenUp(products: map<ProductId, Product>, items: seq<ProductId>, buyer: UserId, was: OrderStatus)
    : map<ProductId, Product>
  {
    if Relistable(was) then RelistAll(products, items)
    else if was == Pending then ReleaseFor(products, items, buyer)
    else products
  }

  /** The card payment that is refunded when a paid order is cancelled, if there is one. */
  function CardPayment(ts: seq<Transaction>, id: OrderId, o: Order): (found: Option<nat>)
    ensures found.Some? ==> found.value < |ts| && PaidFor(ts[found.value], id, o.buyer)
                            && ts[found.value].provider == Stripe && o.status != Pending
  {
    var found := if o.status == Pending then None else FindPaid(ts, id, o.buyer);
    if found.Some? && ts[found.value].provider == Stripe then found else None
  }

  /** The order was paid, and the bank financed it. */
  predicate IsFinanced(ts: seq<Transaction>, id: OrderId, o: Order) {
    o.status != Pending
    && var found := FindPaid(ts, id, o.buyer); found.Some? && ts[found.value].provider == TbiCredit
  }

  lemma SameRefund(b: Books, id: OrderId, o: Order, o': Order, fee: real, answer: Answer)
    requires o.total == o'.total && o.session == o'.session
    ensures RefundOrder(b, id, o, fee, answer) == RefundOrder(b, id, o', fee, answer)
  {
    assert IsBuyNow(b.t, o) == IsBuyNow(b.t, o');
    assert OrderAmount(b.t, id, o) == OrderAmount(b.t, id, o');
    hide OrderAmount, IsBuyNow, RefundedOf, HasCancellation, Create, CalculatePaymentSplit, WasTransferred, Recorded;
  }

  /** A refund depends on the total, session and buyer of its order only, and one that fails is not recorded. */
  lemma RefundsWhenClaimed(book: CardBook, orders: map<OrderId, Order>, id: OrderId, o: Order, i: nat, fee: real,
                           answer: Answer)
    requires Matching(book) && i < |book.ts| && FindPaid(book.ts, id, o.buyer) == Some(i) && id in orders
    requires orders[id].total == o.total && orders[id].session == o.session && orders[id].buyer == o.buyer
    ensures var (after, r) := RefundOrder(BooksAt(book, i), id, o, fee, answer);
            && RefundPayment(book, orders, id, fee, answer) == (WithBooks(book, i, after), r)
            && (r.Failure? ==> WithBooks(book, i, after).ts == book.ts)
  {
    var b := BooksAt(book, i);
    SameRefund(b, id, orders[id], o, fee, answer);
    hide RefundOrder, FindPaid;
    if RefundOrder(b, id, o, fee, answer).1.Failure? {
      FailureMovesMoneyIff(b, id, o, fee, answer);
    }
  }

  /**
   The order is out of sale as asked, and its items are given up: sold ones go back on sale if they had not left the
   seller, those of an unpaid order lose the buyer's hold. Every other row stays.
   */
  ghost predicate CancelledAs(db: Db, id: OrderId, to: OrderStatus, c: Cancellation, after: Db)
    requires id in db.orders
  {
    var o := db.orders[id];
    && after == db.(orders := db.orders[id := o.(status := to, cancellation := Some(c))], products := after.products)
    && after.products.Keys == db.products.Keys
    && forall p :: p in db.products ==>
         var row := db.products[p];
         after.products[p]
         == if p in o.items && o.status in {Confirmed, Processing} && row.status == Sold
            then row.(status := Active, soldAt := None)
            else if p in o.items && o.status == Pending && row.reservedBy == Some(o.buyer)
            then row.(reservedUntil := None, reservedBy := None)
            else row
  }

  lemma CancelledRows(db: Db, id: OrderId, to: OrderStatus, c: Cancellation)
    requires id in db.orders
    ensures var o := db.orders[id];
            CancelledAs(db, id, to, c, db.(orders := db.orders[id := Claimed(o, to, c)],
                                           products := ItemsGivenUp(db.products, o.items, o.buyer, o.status)))
  {
  }

  /** The buyer had all of the order's amount back, before its cancellation or with it. */
  predicate AllGivenBack(t: Transaction, id: OrderId, o: Order) {
    HasCancellation(t, id) || OrderAmount(t, id, o) <= RefundedOf(t, id)
  }

  lemma RefundGivesAllBack(b: Books, id: OrderId, o: Order, fee: real, answer: Answer)
    ensures b.t.intent.None? ==> RefundOrder(b, id, o, fee, answer) == (b, Success(NothingToRefund))
    ensures b.t.intent.Some? && RefundOrder(b, id, o, fee, answer).1.Success? ==>
              AllGivenBack(RefundOrder(b, id, o, fee, answer).0.t, id, o)
  {
    if b.t.intent.Some? && RefundOrder(b, id, o, fee, answer).1.Success? {
      RefundIsComplete(b, id, o, fee, answer);
    }
    hide OrderAmount, RefundedOf, HasCancellation;
  }

  /** The guarded update of a status: nothing happens if somebody moved the order in the meantime. */
  function AdvancedDb(db: Db, id: OrderId, from: OrderStatus, to: OrderStatus, now: Time): Db {
    if id in db.orders && db.orders[id].status == from
    then db.(orders := db.orders[id := Advanced(db.orders[id], to, now)]) else db
  }

  class OrderService {
    const prisma: PrismaService
    const stripe: StripePayments
    const settings: Settings

    constructor (prisma: PrismaService, stripe: StripePayments, settings: Settings)
      ensures this.prisma == prisma && this.stripe == stripe && this.settings == settings
    {
      this.prisma := prisma;
      this.stripe := stripe;
      this.settings := settings;
    }

    ghost predicate Valid()
      reads this, stripe, prisma
    {
      stripe.prisma == prisma && stripe.Valid()
    }

    // ----- Holds -----

    /** Runs inside a transaction: a product that cannot be held undoes the holds before it. */
    method ReserveProducts(productIds: seq<ProductId>, buyer: UserId, minutes: nat, now: Time) returns (ok: bool)
      modifies prisma`products
      ensures ok <==> AllAvailable(old(prisma.products), productIds, buyer, now)
      ensures prisma.products ==
              if ok then HoldAll(old(prisma.products), productIds, buyer, now + minutes) else old(prisma.products)
    {
      var ids := Distinct(productIds);
      var before := prisma.products;
      for i := 0 to |ids|
        invariant prisma.products == HoldAll(before, ids[..i], buyer, now + minutes)
        invariant AllAvailable(before, ids[..i], buyer, now)
      {
        assert ids[..i + 1] == ids[..i] + [ids[i]];
        NotYetHeld(before, ids[..i], ids[i], buyer, now + minutes);
        if ids[i] !in prisma.products || !Available(prisma.products[ids[i]], buyer, now) {
          assert ids[i] in productIds;
          prisma.products := before;
          return false;
        }
        prisma.products := prisma.products[ids[i] := Held(prisma.products[ids[i]], buyer, now + minutes)];
      }
      assert ids[..|ids|] == ids;
      return true;
    }

    method ReleaseReservations(productIds: seq<ProductId>, buyer: UserId)
      modifies prisma`products
      ensures prisma.products == ReleaseFor(old(prisma.products), productIds, buyer)
    {
      prisma.products := map id | id in prisma.products ::
        if id in productIds && prisma.products[id].reservedBy == Some(buyer)
        then Released(prisma.products[id]) else prisma.products[id];
    }

    // ----- Settlement -----

    /** The product part of the settlement transaction: every item is sold, or none is. */
    method SellProducts(items: seq<ProductId>, buyer: UserId, now: Time) returns (ok: bool)
      modifies prisma`products
      ensures ok <==> AllAvailable(old(prisma.products), items, buyer, now)
      ensures prisma.products == if ok then SellAll(old(prisma.products), items, now) else old(prisma.products)
    {
      var ids := Distinct(items);
      var before := prisma.products;
      for i := 0 to |ids|
        invariant prisma.products == SellAll(before, ids[..i], now)
        invariant AllAvailable(before, ids[..i], buyer, now)
      {
        assert ids[..i + 1] == ids[..i] + [ids[i]];
        NotYetSold(before, ids[..i], ids[i], now);
        if ids[i] !in prisma.products || !Available(prisma.products[ids[i]], buyer, now) {
          assert ids[i] in items;
          prisma.products := before;
          return false;
        }
        prisma.products := prisma.products[ids[i] := MarkedSold(prisma.products[ids[i]], now)];
      }
      assert ids[..|ids|] == ids;
      return true;
    }

    /**
     The settlement transaction of an order that was read as PENDING: sell each item, then claim
     the order. A conflict, on any item or on the claim, leaves every row as it was.
     */
    method SettleTransaction(id: OrderId, snapshot: Order, now: Time, fee: real, session: Option<int>)
      returns (committed: bool)
      modifies prisma`products, prisma`orders
      ensures committed <==> CanSettle(old(prisma.Rows()), id, snapshot, now)
      ensures prisma.Rows() == if committed then SettledDb(old(prisma.Rows()), id, snapshot.items, now, fee, session)
                               else old(prisma.Rows())
    {
      hide AllAvailable, SellAll, Settled;
      var before := prisma.products;
      var ok := SellProducts(snapshot.items, snapshot.buyer, now);
      if !ok {
        return false;
      }
      if id !in prisma.orders || prisma.orders[id].status != Pending {
        prisma.products := before;
        return false;
      }
      prisma.orders := prisma.orders[id := Settled(prisma.orders[id], now, fee, session)];
      return true;
    }

    method SettleOrder(id: OrderId, now: Time, session: Option<int>) returns (r: Result<Report, FeeError>)
      modifies prisma`products, prisma`orders
      ensures var one := SettleOne(old(prisma.Rows()), id, now, settings, session);
              match one
              case Success(settled) => r == Success(settled.1) && prisma.Rows() == settled.0
              case Failure(e) => r == Failure(e) && prisma.Rows() == old(prisma.Rows())
    {
      if id !in prisma.orders {
        return Success(RejectedNow);
      }
      var order := prisma.orders[id];
      if order.status != Pending {
        return Success(if order.status == Cancelled then RejectedNow else AlreadySettled);
      }
      var fee := GetSellerFeePercent(settings(order.seller));
      if fee.Failure? {
        return Failure(fee.error);
      }
      hide CanSettle, SettledDb;
      var committed := SettleTransaction(id, order, now, fee.value, session);
      if committed {
        return Success(ConfirmedNow);
      }
      var current := prisma.orders[id];
      r := Success(if current.status != Pending && current.status != Cancelled then AlreadySettled else RejectedNow);
    }

    // ----- Cancelling unpaid orders -----

    /** The holds of each of the found orders, one order after the other. */
    method ReleaseAll(found: map<OrderId, Order>, ids: seq<OrderId>)
      requires forall i, j :: 0 <= i < j < |ids| ==> ids[i] != ids[j]
      requires forall id :: id in found ==> id in ids
      modifies prisma`products
      ensures prisma.products == ReleaseFound(old(prisma.products), found)
    {
      ghost var before := prisma.products;
      ReleaseNone(before, found, ids[..0]);
      hide ReleaseFound, ReleaseFor, Among;
      for i := 0 to |ids|
        invariant prisma.products == ReleaseFound(before, Among(found, ids[..i]))
      {
        ReleaseNext(before, found, ids[..i], ids[i]);
        assert ids[..i + 1] == ids[..i] + [ids[i]];
        if ids[i] in found {
          ReleaseReservations(found[ids[i]].items, found[ids[i]].buyer);
        }
      }
      assert ids[..|ids|] == ids;
      AmongAll(found, ids);
    }

    method CancelFoundOrders(found: set<OrderId>, now: Time)
      modifies prisma`orders
      ensures prisma.orders == CancelFound(old(prisma.orders), found, now)
    {
      prisma.orders := map id | id in prisma.orders ::
        if id in found && prisma.orders[id].status == Pending
        then Claimed(prisma.orders[id], Cancelled, SystemCancellation(now)) else prisma.orders[id];
    }

    /** `count` tells how many orders the update changed. */
    method CancelPendingPaymentOrders(ids: seq<OrderId>, now: Time) returns (count: nat)
      modifies prisma`products, prisma`orders
      ensures prisma.Rows() == PendingCancelled(old(prisma.Rows()), ids, now)
      ensures count == |FindPending(old(prisma.Rows()), ids)|
    {
      ghost var before := prisma.Rows();
      var found := map id | id in prisma.orders && id in ids && 0 < id && prisma.orders[id].status == Pending
                   :: prisma.orders[id];
      assert found == FindPending(before, ids);
      hide FindPending, CancelFound, ReleaseFound;
      CancelFoundOrders(found.Keys, now);
      ReleaseAll(found, PositiveIds(ids));
      count := |found|;
    }

    // ----- A paid checkout -----

    /** Settles the orders one after the other and sorts them by what came of it. */
    method SettleOrders(ids: seq<OrderId>, now: Time, session: Option<int>) returns (r: Result<Outcomes, FeeError>)
      modifies prisma`products, prisma`orders
      ensures var all := SettleEach(old(prisma.Rows()), ids, now, settings, session);
              && prisma.Rows() == all.db
              && r == if all.error.Some? then Failure(all.error.value) else Success(Sorted(ids, all.reports))
    {
      ghost var before := prisma.Rows();
      ghost var reports: seq<Report> := [];
      var sorted := Outcomes([], [], []);
      hide SettleEach, SettleOne;
      SettledNone(before, ids, now, settings, session);
      for i := 0 to |ids|
        invariant SettledSoFar(before, ids, i, now, settings, session, prisma.Rows(), reports, sorted)
      {
        hide SettledSoFar;
        SettledMore(before, ids, i, now, settings, session, prisma.Rows(), reports, sorted);
        var outcome := SettleOrder(ids[i], now, session);
        if outcome.Failure? {
          return Failure(outcome.error);
        }
        sorted := OneSorted(sorted, ids[i], outcome.value);
        reports := reports + [outcome.value];
      }
      assert ids[..|ids|] == ids;
      return Success(sorted);
    }

    method FinalizePaidOrders(orderIds: seq<OrderId>, coupon: Option<CouponId>, session: Option<int>, now: Time)
      returns (r: Result<Outcomes, FinalizeError>)
      modifies prisma`products, prisma`orders, prisma`couponUses
      ensures PositiveIds(orderIds) == [] ==> r == Failure(NoOrders) && prisma.Rows() == old(prisma.Rows())
      ensures PositiveIds(orderIds) != [] ==>
        var ids := PositiveIds(orderIds);
        var all := SettleEach(old(prisma.Rows()), ids, now, settings, session);
        if all.error.Some? then r == Failure(Misconfigured(all.error.value)) && prisma.Rows() == all.db
        else
          && prisma.Rows() == Finalized(old(prisma.Rows()), ids, now, settings, session)
          && var outcomes := Sorted(ids, all.reports);
             r == if outcomes.confirmed != [] && CouponIsGone(old(prisma.couponUses), coupon)
                  then Failure(CouponGone) else Success(outcomes)
      ensures prisma.couponUses == if r.Success? && r.value.confirmed != []
                                   then CouponCounted(old(prisma.couponUses), coupon) else old(prisma.couponUses)
      ensures prisma.couponUses.Keys == old(prisma.couponUses).Keys
      ensures forall c :: c in prisma.couponUses ==>
        prisma.couponUses[c]
        == old(prisma.couponUses)[c] + if r.Success? && r.value.confirmed != [] && coupon == Some(c) then 1 else 0
    {
      hide SettleEach, PositiveIds, Reporting, PendingCancelled;
      var ids := PositiveIds(orderIds);
      if ids == [] {
        return Failure(NoOrders);
      }
      var settled := SettleOrders(ids, now, session);
      if settled.Failure? {
        return Failure(Misconfigured(settled.error));
      }
      var outcomes := settled.value;
      if outcomes.rejected != [] {
        var _ := CancelPendingPaymentOrders(outcomes.rejected, now);
      }
      if outcomes.confirmed != [] && coupon.Some? {
        if coupon.value !in prisma.couponUses {
          return Failure(CouponGone);
        }
        prisma.couponUses := prisma.couponUses[coupon.value := prisma.couponUses[coupon.value] + 1];
      }
      return Success(outcomes);
    }

    // ----- Checkout -----

    /** A new attempt cancels every earlier unpaid order of the buyer for one of the products. */
    method ReplaceOpenCheckouts(buyer: UserId, productIds: seq<ProductId>, now: Time)
      requires Valid() && 0 < prisma.nextOrder && forall id :: id in prisma.orders ==> 0 < id < prisma.nextOrder
      modifies prisma`products, prisma`orders, prisma`transactions
      ensures Valid() && prisma.Rows() == OpenCheckoutsReplaced(old(prisma.Rows()), buyer, productIds, now)
      ensures prisma.transactions
           == Expired(old(prisma.transactions), OpenOrdersOf(old(prisma.Rows()), buyer, productIds), buyer)
    {
      ghost var before := prisma.Rows();
      var ids: seq<OrderId> := [];
      for id := 1 to prisma.nextOrder
        modifies {}
        invariant forall x :: x in ids <==> 0 < x < id && x in OpenOrdersOf(before, buyer, productIds)
      {
        if id in prisma.orders && prisma.orders[id].buyer == buyer && prisma.orders[id].status == Pending
           && exists p | p in productIds :: p in prisma.orders[id].items {
          ids := ids + [id];
        }
      }
      if ids == [] {
        NothingToReplace(before, buyer, productIds, now);
        NothingToClose(prisma.transactions, OpenOrdersOf(before, buyer, productIds), buyer);
        return;
      }
      ReplacedAreFound(before, buyer, productIds, ids);
      assert Members(ids) == OpenOrdersOf(before, buyer, productIds);
      stripe.ExpireCheckoutSessions(ids, buyer);
      var _ := CancelPendingPaymentOrders(ids, now);
    }

    /** One order a draft, numbered on from the last. */
    method CreateOrders(buyer: UserId, drafts: seq<Draft>) returns (ids: seq<OrderId>)
      modifies prisma`orders, prisma`nextOrder
      ensures prisma.orders == WithDrafts(old(prisma.orders), old(prisma.nextOrder), buyer, drafts)
      ensures prisma.nextOrder == old(prisma.nextOrder) + |drafts|
      ensures |ids| == |drafts| && forall i :: 0 <= i < |ids| ==> ids[i] == old(prisma.nextOrder) + i
    {
      var next := prisma.nextOrder;
      ghost var before := prisma.orders;
      ids := [];
      for i := 0 to |drafts|
        invariant prisma.nextOrder == next + i
        invariant prisma.orders == WithDrafts(before, next, buyer, drafts[..i])
        invariant |ids| == i && forall k :: 0 <= k < i ==> ids[k] == next + k
      {
        NextDraft(before, next, buyer, drafts, i);
        prisma.orders := prisma.orders[next + i := Opened(buyer, drafts[i])];
        prisma.nextOrder := next + i + 1;
        ids := ids + [next + i];
      }
      assert drafts[..|drafts|] == drafts;
    }

    /** The transaction of a checkout: every item is held and one order a draft created, or nothing. */
    method OpenOrders(buyer: UserId, drafts: seq<Draft>, minutes: nat, now: Time)
      returns (r: Result<seq<OrderId>, CheckoutFailure>)
      requires forall id :: id in prisma.orders ==> id < prisma.nextOrder
      modifies prisma`products, prisma`orders, prisma`nextOrder
      ensures r.Success? <==> CanCheckout(old(prisma.Rows()), buyer, drafts, now)
      ensures prisma.Rows()
           == if r.Success? then CheckedOut(old(prisma.Rows()), buyer, drafts, now + minutes) else old(prisma.Rows())
      ensures r.Success? ==>
        && |r.value| == |drafts| && (forall i :: 0 <= i < |drafts| ==> r.value[i] == old(prisma.nextOrder) + i)
        && OrdersOpened(old(prisma.orders), prisma.orders, r.value, buyer, drafts)
        && DraftsHeld(prisma.products, buyer, drafts, now + minutes)
    {
      hide HoldAll, WithDrafts, AllAvailable, AllItems, OrdersOpened, DraftsHeld;
      ghost var before := prisma.Rows();
      var held := ReserveProducts(AllItems(drafts), buyer, minutes, now);
      if !held {
        return Failure(ItemTaken);
      }
      var ids := CreateOrders(buyer, drafts);
      DraftsAreOpened(before, buyer, drafts, now + minutes, ids);
      DraftsAreHeld(before, buyer, drafts, now + minutes, now);
      return Success(ids);
    }

    /**
     `createPendingCartOrders` and `createPendingBuyNowOrder` once the checkout is priced: replace the
     buyer's open checkouts, then hold every item and create the orders, or nothing.
     */
    method CreatePendingOrders(buyer: UserId, drafts: seq<Draft>, minutes: nat, now: Time)
      returns (r: Result<seq<OrderId>, CheckoutFailure>)
      requires Valid() && 0 < prisma.nextOrder && forall id :: id in prisma.orders ==> 0 < id < prisma.nextOrder
      modifies prisma`products, prisma`orders, prisma`nextOrder, prisma`transactions
      ensures Valid()
      ensures prisma.transactions
           == Expired(old(prisma.transactions), OpenOrdersOf(old(prisma.Rows()), buyer, AllItems(drafts)), buyer)
      ensures var replaced := OpenCheckoutsReplaced(old(prisma.Rows()), buyer, AllItems(drafts), now);
              && (r.Success? <==> CanCheckout(replaced, buyer, drafts, now))
              && prisma.Rows() == (if r.Success? then CheckedOut(replaced, buyer, drafts, now + minutes) else replaced)
              && (r.Success? ==> |r.value| == |drafts| && forall i :: 0 <= i < |drafts| ==>
                  r.value[i] == old(prisma.nextOrder) + i)
              && (r.Success? ==> OrdersOpened(replaced.orders, prisma.orders, r.value, buyer, drafts))
      ensures r.Success? ==> DraftsHeld(prisma.products, buyer, drafts, now + minutes)
    {
      hide OpenOrdersOf, Expired, AllItems, OrdersOpened, DraftsHeld, CheckedOut, CanCheckout;
      ghost var replaced := OpenCheckoutsReplaced(prisma.Rows(), buyer, AllItems(drafts), now);
      assert replaced.orders.Keys == prisma.orders.Keys && replaced.nextOrder == prisma.nextOrder;
      hide OpenCheckoutsReplaced;
      ReplaceOpenCheckouts(buyer, AllItems(drafts), now);
      assert prisma.Rows() == replaced;
      r := OpenOrders(buyer, drafts, minutes, now);
    }

    // ----- Moving an order by hand -----

    /** The guarded update: it changes the row only if nobody moved the order in the meantime. */
    method AdvanceOrderStatus(id: OrderId, from: OrderStatus, to: OrderStatus, now: Time) returns (ok: bool)
      modifies prisma`orders
      ensures ok <==> id in old(prisma.orders) && old(prisma.orders)[id].status == from
      ensures prisma.Rows() == AdvancedDb(old(prisma.Rows()), id, from, to, now)
    {
      if id !in prisma.orders || prisma.orders[id].status != from {
        return false;
      }
      prisma.orders := prisma.orders[id := Advanced(prisma.orders[id], to, now)];
      return true;
    }

    method ClaimOrder(id: OrderId, from: OrderStatus, to: OrderStatus, c: Cancellation) returns (ok: bool)
      modifies prisma`orders
      ensures ok <==> id in old(prisma.orders) && old(prisma.orders)[id].status == from
      ensures prisma.orders == if ok then old(prisma.orders)[id := Claimed(old(prisma.orders)[id], to, c)]
          else old(prisma.orders)
    {
      if id !in prisma.orders || prisma.orders[id].status != from {
        return false;
      }
      prisma.orders := prisma.orders[id := Claimed(prisma.orders[id], to, c)];
      return true;
    }

    /** What becomes of the items of an order that is out of fulfilment for good. */
    method GiveUpItems(items: seq<ProductId>, buyer: UserId, was: OrderStatus)
      modifies prisma`products
      ensures prisma.products == ItemsGivenUp(old(prisma.products), items, buyer, was)
    {
      if Relistable(was) {
        prisma.products := map id | id in prisma.products ::
          if id in items && prisma.products[id].status == Sold then Relisted(prisma.products[id])
              else prisma.products[id];
      } else if was == Pending {
        ReleaseReservations(items, buyer);
      }
    }

    /**
     Cancels an order, or refunds it as an admin. The order is claimed first. A paid order's payment
     is then refunded; if that fails the order is put back, otherwise its items are given up.
     */
    method CancelOrderWithRefund(id: OrderId, actor: Actor, user: Option<UserId>, to: OrderStatus,
                                 from: set<OrderStatus>,
                                 now: Time, fee: real, answer: Answer)
      returns (r: Result<RefundResult, CancelError>)
      requires Valid() && Terminal(to) && forall s :: s in from ==> !Terminal(s)
      requires id in prisma.orders && prisma.orders[id].status in from ==> prisma.orders[id].cancellation.None?
      modifies prisma`products, prisma`orders, prisma`transactions, stripe`records
      ensures Valid() && |prisma.transactions| == old(|prisma.transactions|)
      ensures r == Failure(OrderNotFound) <==> id !in old(prisma.orders)
      ensures r == Failure(NotInThatStatus) <==> id in old(prisma.orders) && old(prisma.orders)[id].status !in from
      ensures r == Failure(FinancedByBank) <==>
              (id in old(prisma.orders) && actor != Admin
               && old(prisma.orders)[id].status in from && old(prisma.orders)[id].status != Pending
               && var found := FindPaid(old(prisma.transactions), id, old(prisma.orders)[id].buyer);
                  found.Some? && old(prisma.transactions)[found.value].provider == TbiCredit)
      ensures r != Failure(UpdatedBySomeoneElse)
      ensures r.Failure? ==> prisma.Rows() == old(prisma.Rows()) && prisma.transactions == old(prisma.transactions)
      ensures r.Failure? && !r.error.RefundFailed? ==> stripe.records == old(stripe.records)
      ensures r.Success? || r.error.RefundFailed? ==>
        && id in old(prisma.orders)
        && var o := old(prisma.orders)[id];
           match CardPayment(old(prisma.transactions), id, o)
           case Some(i) =>
             var (after, refund) := RefundOrder(old(stripe.BooksOf(i)), id, o, fee, answer);
             && r == (match refund case Success(x) => Success(x) case Failure(e) => Failure(RefundFailed(e)))
             && prisma.transactions == old(prisma.transactions)[i := after.t]
             && stripe.records == old(stripe.records)[i := after.stripe]
           case None =>
             && r == Success(NothingToRefund) && stripe.records == old(stripe.records)
             && prisma.transactions == if o.status == Pending then Expired(old(prisma.transactions), {id}, o.buyer)
                                       else old(prisma.transactions)
      ensures r.Success? ==>
        var o := old(prisma.orders)[id];
        prisma.Rows() == old(prisma.Rows()).(
          orders := old(prisma.orders)[id := Claimed(o, to, Cancellation(now, user, actor))],
          products := ItemsGivenUp(old(prisma.products), o.items, o.buyer, o.status))
      ensures r.Success? ==> CancelledAs(old(prisma.Rows()), id, to, Cancellation(now, user, actor), prisma.Rows())
      ensures r.Success? && old(prisma.orders)[id].status != Pending ==>
        var found := FindPaid(old(prisma.transactions), id, old(prisma.orders)[id].buyer);
        if found.Some? && old(prisma.transactions)[found.value].provider == Stripe
           && old(prisma.transactions)[found.value].intent.Some?
        then AllGivenBack(prisma.transactions[found.value], id, old(prisma.orders)[id])
        else r == Success(NothingToRefund) && prisma.transactions == old(prisma.transactions)
             && stripe.records == old(stripe.records)
    {
      hide RefundOrder, ItemsGivenUp, Expired, AllGivenBack, CancelledAs;
      if id in prisma.orders {
        CancelledRows(prisma.Rows(), id, to, Cancellation(now, user, actor));
      }
      if id !in prisma.orders {
        return Failure(OrderNotFound);
      }
      var order := prisma.orders[id];
      if order.status !in from {
        return Failure(NotInThatStatus);
      }
      var wasPaid := order.status != Pending;
      var transaction := if wasPaid then FindPaid(prisma.transactions, id, order.buyer) else None;
      var financed := transaction.Some? && prisma.transactions[transaction.value].provider == TbiCredit;
      assert financed == IsFinanced(prisma.transactions, id, order);
      assert CardPayment(prisma.transactions, id, order) == if financed then None else transaction;
      hide FindPaid, IsFinanced, CardPayment;
      if financed && actor != Admin {
        return Failure(FinancedByBank);
      }
      var claimed := ClaimOrder(id, order.status, to, Cancellation(now, user, actor));
      if !claimed {
        return Failure(UpdatedBySomeoneElse);
      }
      var refund := NothingToRefund;
      if !wasPaid {
        assert Members([id]) == {id};
        stripe.ExpireCheckoutSessions([id], order.buyer);
      } else if transaction.Some? && !financed {
        RefundsWhenClaimed(stripe.Book(), prisma.orders, id, order, transaction.value, fee, answer);
        RefundGivesAllBack(stripe.BooksOf(transaction.value), id, order, fee, answer);
        hide RefundPayment;
        var refunded := stripe.RefundOrderPayment(id, fee, answer);
        if refunded.Failure? {
          prisma.orders := prisma.orders[id := Restored(prisma.orders[id], order.status)];
          return Failure(RefundFailed(refunded.error));
        }
        refund := refunded.value;
      }
      GiveUpItems(order.items, order.buyer, order.status);
      return Success(refund);
    }
  }
}
