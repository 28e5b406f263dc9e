/** The return service: requests by buyers, decisions by sellers and admins, and the refund they lead to. */
module ReturnService {
  import opened Wrappers
  import opened Domain
  import opened OrderSteps
  import opened Database
  import opened Returns
  import opened Payments
  import opened Refunds
  import Currency
  import StripePayments

  class ReturnService {
    const prisma: PrismaService
    const stripe: StripePayments.StripePayments

    constructor (prisma: PrismaService, stripe: StripePayments.StripePayments)
      ensures this.prisma == prisma && this.stripe == stripe
    {
      this.prisma := prisma;
      this.stripe := stripe;
    }

    ghost predicate Valid()
      reads this, stripe, prisma
    {
      stripe.prisma == prisma && stripe.Valid()
    }

    /** The payments with Stripe's record of each. */
    ghost function Book(): (book: CardBook)
      requires Valid()
      reads this, stripe, prisma
      ensures Matching(book)
    {
      stripe.Book()
    }

    ghost function Now(): (w: World)
      requires Valid()
      reads this, stripe, prisma
      ensures Matching(w.book)
    {
      World(prisma.Rows(), Book())
    }

    method CreateReturn(user: UserId, key: ItemKey) returns (error: Option<ReturnError>)
      requires Valid()
      modifies prisma`returnRequests
      ensures Valid() && error == CreateProblem(old(prisma.Rows()), user, key)
      ensures Now() == Handle(old(Now()), Create(user, key))
    {
      if key.order !in prisma.orders || key.index >= |prisma.orders[key.order].items| {
        return Some(NoSuchItem);
      }
      var order := prisma.orders[key.order];
      if order.buyer != user {
        return Some(NotYours);
      }
      if order.status != Delivered {
        return Some(NotDelivered);
      }
      if key in prisma.returnRequests {
        return Some(AlreadyRequested);
      }
      prisma.returnRequests := prisma.returnRequests[key := ReturnRequest(Requested, None, None)];
      return None;
    }

    /** Takes a refund off what the seller nets; orders settled before net amounts were kept have none. */
    method ReduceSellerEarnings(id: OrderId, refund: Option<MoneyBack>)
      modifies prisma`orders
      ensures prisma.Rows() == EarningsReduced(old(prisma.Rows()), id, refund)
    {
      if refund.None? || refund.value.already || refund.value.usd == 0.0 {
        return;
      }
      if id !in prisma.orders || prisma.orders[id].sellerNet.None? {
        return;
      }
      var order := prisma.orders[id];
      prisma.orders := prisma.orders[id := order.(sellerNet := Some(EarningsAfter(order, refund.value.usd)))];
    }

    method MarkOrderRefundedIfFullyReturned(id: OrderId)
      modifies prisma`orders
      ensures prisma.Rows() == MarkedIfFullyReturned(old(prisma.Rows()), id)
      ensures prisma.orders
           == if id in old(prisma.orders) && old(prisma.orders)[id].items != []
                 && forall i :: 0 <= i < |old(prisma.orders)[id].items| ==>
                      ItemKey(id, i) in prisma.returnRequests && prisma.returnRequests[ItemKey(id, i)].refundedAt.Some?
              then old(prisma.orders)[id := old(prisma.orders)[id].(status := Refunded)] else old(prisma.orders)
    {
      if id !in prisma.orders || prisma.orders[id].items == [] {
        return;
      }
      var order := prisma.orders[id];
      for i := 0 to |order.items|
        invariant prisma.orders == old(prisma.orders)
        invariant forall k :: 0 <= k < i ==>
          ItemKey(id, k) in prisma.returnRequests && prisma.returnRequests[ItemKey(id, k)].refundedAt.Some?
      {
        if ItemKey(id, i) !in prisma.returnRequests || prisma.returnRequests[ItemKey(id, i)].refundedAt.None? {
          return;
        }
      }
      if order.status != Refunded {
        prisma.orders := prisma.orders[id := order.(status := Refunded)];
      }
    }

    /**
     Refunds a return that is being completed. A financed order is refunded by the bank, which only an
     admin can confirm; a card payment is refunded through Stripe.
     */
    method RefundCompleted(key: ItemKey, byAdmin: bool, requested: Option<real>, c: Context)
      returns (r: Result<MoneyBack, ReturnError>)
      requires Valid() && key in prisma.returnRequests && prisma.returnRequests[key].refundedAt.None?
      requires key.order in prisma.orders
      modifies prisma`transactions, stripe`records
      ensures Valid() && |prisma.transactions| == old(|prisma.transactions|)
      ensures (Book(), r) == GiveBack(old(Book()), prisma.orders[key.order], key, byAdmin, requested, c)
    {
      hide RefundReturn, FindPaid;
      var o := prisma.orders[key.order];
      var found := FindPaid(prisma.transactions, key.order, o.buyer);
      if found.Some? && prisma.transactions[found.value].provider == TbiCredit {
        if !byAdmin {
          return Failure(AskTheBank);
        }
        var usd := if requested.Some? then requested.value else c.price;
        return Success(MoneyBack(usd, usd, false));
      }
      var usd := ReturnAmount(requested, c.price, o.total);
      if found.Some? {
        ghost var t := prisma.transactions[found.value];
        RefundedReturn(old(stripe.BooksOf(found.value)), key, o, usd,
                       Currency.Convert(usd, Currency.USD, t.currency, c.rates), c.fee, c.answer);
      }
      var refunded := stripe.RefundReturnRequestPayment(key, requested, c.price, c.rates, c.fee, c.answer);
      if refunded.Failure? {
        return Failure(ReturnError.RefundFailed);
      }
      if refunded.value.GivenBack? {
        return Success(MoneyBack(refunded.value.amount as real, usd, false));
      }
      var before := ReturnEntry(prisma.transactions[found.value].refunds, key);
      var amount := if before.Some? then before.value.amount as real else usd;
      return Success(MoneyBack(amount, amount, true));
    }

    /** A seller or, with no seller given, an admin moves a return on. */
    method UpdateReturnStatus(key: ItemKey, seller: Option<UserId>, update: ReturnUpdate, c: Context, now: Time)
      returns (r: Result<Option<MoneyBack>, ReturnError>)
      requires Valid() && forall k :: k in prisma.returnRequests ==> k.order in prisma.orders
      modifies prisma`returnRequests, prisma`orders, prisma`transactions, stripe`records
      ensures Valid()
      ensures r == Decide(old(prisma.Rows()), old(Book()), key, seller, update, c).1
      ensures Now() == Handle(old(Now()), Change(key, seller, update, c, now, Finishes))
      ensures r.Success? ==> key in old(prisma.returnRequests)
                             && (r.value.Some? <==> PaysBack(old(prisma.returnRequests)[key], update))
    {
      hide GiveBack, ValidateUpdate;
      if key !in prisma.returnRequests {
        return Failure(NoSuchReturn);
      }
      if seller.Some? && prisma.orders[key.order].seller != seller.value {
        return Failure(NotYours);
      }
      var row := prisma.returnRequests[key];
      var problem := ValidateUpdate(row.status, update);
      if problem.Some? {
        return Failure(problem.value);
      }
      var refund: Option<MoneyBack> := None;
      if update.status == Completed && row.refundedAt.None? {
        var made := RefundCompleted(key, seller.None?, update.amount, c);
        if made.Failure? {
          return Failure(made.error);
        }
        refund := Some(made.value);
      }
      hide EarningsReduced, MarkedIfFullyReturned;
      prisma.returnRequests :=
        prisma.returnRequests[key := UpdatedReturn(row, update.status, refund, update.amount, now)];
      ReduceSellerEarnings(key.order, refund);
      MarkOrderRefundedIfFullyReturned(key.order);
      return Success(refund);
    }
  }
}
