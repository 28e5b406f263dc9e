/** The card payment operations that move money, statement by statement over the payment's row. */
module StripePayments {
  import opened Wrappers
  import opened Money
  import opened SellerFees
  import opened Domain
  import opened Database
  import opened Payments
  import opened Refunds
  import opened Transfers
  import Currency

  datatype ReturnRefundError = RequestMissing | AtPayment(error: RefundError)

  class StripePayments {
    const prisma: PrismaService
    /** What Stripe moved for each payment transaction. */
    var records: seq<StripeRecord>

    constructor (prisma: PrismaService)
      ensures this.prisma == prisma && |records| == |prisma.transactions|
      ensures forall i :: 0 <= i < |records| ==> records[i] == StripeRecord([], [], [])
    {
      this.prisma := prisma;
      records := seq(|prisma.transactions|, _ => StripeRecord([], [], []));
    }

    ghost predicate Valid()
      reads this, prisma
    {
      |records| == |prisma.transactions|
    }

    ghost function Book(): (book: CardBook)
      requires Valid()
      reads this, prisma
      ensures Matching(book)
    {
      CardBook(prisma.transactions, records)
    }

    ghost function BooksOf(i: nat): Books
      requires Valid() && i < |records|
      reads this, prisma
    {
      Books(prisma.transactions[i], records[i])
    }

    /** The call to Stripe, the reversal from the seller and the ledger entry of one refund. */
    method PayRefund(i: nat, e: RefundEntry, o: Order, fee: real, answer: Answer)
      returns (r: Result<RefundResult, RefundError>)
      requires Valid() && i < |records|
      modifies this`records, prisma`transactions
      ensures Valid() && |records| == old(|records|)
      ensures (BooksOf(i), r) == Pay(old(BooksOf(i)), e, o, fee, answer)
      ensures prisma.transactions == old(prisma.transactions)[i := prisma.transactions[i]]
      ensures records == old(records)[i := records[i]]
    {
      var t, record := prisma.transactions[i], records[i];
      var created := Create(record.refunds, RefundKey(e), e.amount);
      if created.Failure? {
        return Failure(AtStripe(created.error));
      }
      if answer.Refuses? {
        return Failure(AtStripe(Unreachable));
      }
      records := records[i := record.(refunds := created.value)];
      if !IsBuyNow(t, o) && WasTransferred(t, e.order) && answer.reversed {
        var share := CalculatePaymentSplit(e.amount, fee).transfer;
        if 0 < share {
          var reversed := Create(record.reversals, ReversalKey(e), share);
          if reversed.Success? {
            records := records[i := records[i].(reversals := reversed.value)];
          }
        }
      }
      if answer.DoneButLost? {
        return Failure(NotRecorded);
      }
      prisma.transactions := prisma.transactions[i := Recorded(t, e)];
      return Success(GivenBack(e.amount));
    }

    /** What the buyer already had back for an order, and whether the order's cancellation was refunded. */
    method GivenBackFor(t: Transaction, id: OrderId) returns (already: Cents, cancelled: bool)
      ensures already == RefundedOf(t, id)
      ensures cancelled <==> HasCancellation(t, id)
    {
      already, cancelled := 0, false;
      for k := 0 to |t.refunds|
        invariant already == Sum(Amounts(OfOrder(t.refunds[..k], id)))
        invariant cancelled <==> exists j :: 0 <= j < k && t.refunds[j].order == id && t.refunds[j].request.None?
      {
        OfOrderSnoc(t.refunds, k, id);
        if t.refunds[k].order == id {
          already := already + t.refunds[k].amount;
          cancelled := cancelled || t.refunds[k].request.None?;
        }
      }
      assert t.refunds[..|t.refunds|] == t.refunds;
    }

    method RefundOrderPayment(id: OrderId, fee: real, answer: Answer) returns (r: Result<RefundResult, RefundError>)
      requires Valid()
      modifies this`records, prisma`transactions
      ensures Valid() && (Book(), r) == RefundPayment(old(Book()), prisma.orders, id, fee, answer)
      ensures r.Success? && r.value.GivenBack? ==>
        && id in prisma.orders
        && var found := FindPaid(old(prisma.transactions), id, prisma.orders[id].buyer);
           && found.Some? && MarkedRight(prisma.transactions[found.value])
           && RefundedOf(prisma.transactions[found.value], id)
              == OrderAmount(old(prisma.transactions)[found.value], id, prisma.orders[id])
    {
      hide Pay, RefundedOf, OrderAmount, HasCancellation, FindPaid, MarkedRight;
      if id !in prisma.orders {
        return Failure(OrderMissing);
      }
      var o := prisma.orders[id];
      var found := FindPaid(prisma.transactions, id, o.buyer);
      if found.Some? {
        SameBooks(Book(), found.value);
      }
      if found.None? || prisma.transactions[found.value].intent.None? {
        return Success(NothingToRefund);
      }
      var i := found.value;
      var t := prisma.transactions[i];
      var already, cancelled := GivenBackFor(t, id);
      if cancelled {
        return Success(AlreadyRefunded);
      }
      var amount := OrderAmount(t, id, o) - already;
      if amount <= 0 {
        return Success(AlreadyRefunded);
      }
      OrderRefundMarks(BooksOf(i), id, o, fee, answer);
      r := PayRefund(i, CancellationEntry(t, id, o), o, fee, answer);
    }

    /** What the ledger has refunded so far, and whether this return is on it. */
    method RecordedRefunds(t: Transaction, request: ItemKey) returns (previous: Cents, recorded: bool)
      ensures previous == Refundeds(t)
      ensures recorded <==> HasReturn(t, request)
    {
      previous, recorded := 0, false;
      for k := 0 to |t.refunds|
        invariant previous == Sum(Amounts(t.refunds[..k]))
        invariant recorded <==> exists j :: 0 <= j < k && t.refunds[j].request == Some(request)
      {
        assert t.refunds[..k + 1] == t.refunds[..k] + [t.refunds[k]];
        AmountsSnoc(t.refunds[..k], t.refunds[k]);
        previous := previous + t.refunds[k].amount;
        recorded := recorded || t.refunds[k].request == Some(request);
      }
      assert t.refunds[..|t.refunds|] == t.refunds;
    }

    /** `requested` and `price` are in dollars before rounding; the refund is made in the charged currency. */
    method RefundReturnRequestPayment(request: ItemKey, requested: Option<real>, price: real, rates: Currency.Rates,
                                      fee: real, answer: Answer)
      returns (r: Result<RefundResult, ReturnRefundError>)
      requires Valid() && Currency.Usable(rates)
      modifies this`records, prisma`transactions
      ensures Valid() && |records| == old(|records|)
      ensures var known := request in prisma.returnRequests && request.order in prisma.orders;
              var found := if known
                           then FindPaid(old(prisma.transactions), request.order, prisma.orders[request.order].buyer)
                           else None;
              if !known then r == Failure(RequestMissing) && records == old(records)
                 && prisma.transactions == old(prisma.transactions)
              else if prisma.returnRequests[request].refundedAt.Some? then
                r == Success(AlreadyRefunded) && records == old(records)
                   && prisma.transactions == old(prisma.transactions)
              else if found.None? then
                r == Failure(AtPayment(NothingPaid)) && records == old(records)
                   && prisma.transactions == old(prisma.transactions)
              else
                var o := prisma.orders[request.order];
                var usd := ReturnAmount(requested, price, o.total);
                var amount :=
                  Currency.Convert(usd, Currency.USD, old(prisma.transactions)[found.value].currency, rates);
                var (after, result) := RefundReturn(old(BooksOf(found.value)), request, o, usd, amount, fee, answer);
                && BooksOf(found.value) == after
                && r == (match result case Success(x) => Success(x) case Failure(e) => Failure(AtPayment(e)))
                && prisma.transactions == old(prisma.transactions)[found.value := prisma.transactions[found.value]]
                && records == old(records)[found.value := records[found.value]]
      ensures r.Success? && r.value.GivenBack? ==>
        && request in prisma.returnRequests && request.order in prisma.orders
        && var o := prisma.orders[request.order];
           var found := FindPaid(old(prisma.transactions), request.order, o.buyer);
           && found.Some?
           && var before := old(prisma.transactions)[found.value];
              RefundedAsDue(before, prisma.transactions[found.value], request, requested, price, o.total,
                            rates[before.currency], r.value.amount)
    {
      if request !in prisma.returnRequests || request.order !in prisma.orders {
        return Failure(RequestMissing);
      }
      if prisma.returnRequests[request].refundedAt.Some? {
        return Success(AlreadyRefunded);
      }
      var o := prisma.orders[request.order];
      var found := FindPaid(prisma.transactions, request.order, o.buyer);
      if found.None? || prisma.transactions[found.value].intent.None? {
        return Failure(AtPayment(NothingPaid));
      }
      var i := found.value;
      var t := prisma.transactions[i];
      var previous, recorded := RecordedRefunds(t, request);
      hide Refundeds, HasReturn, ReturnAmount, Currency.Convert, Pay, Sum, Amounts, RefundedAsDue;
      if recorded {
        return Success(AlreadyRefunded);
      }
      var usd := ReturnAmount(requested, price, o.total);
      if usd > o.total as real {
        return Failure(AtPayment(ExceedsOrder));
      }
      var amount := Currency.Convert(usd, Currency.USD, t.currency, rates);
      if amount <= 0 {
        return Failure(AtPayment(NotPositive));
      }
      if previous + amount > t.amount {
        return Failure(AtPayment(ExceedsCaptured));
      }
      ReturnGivesDue(BooksOf(i), request, o, requested, price, rates, fee, answer);
      var paid := PayRefund(i, RefundEntry(request.order, Some(request), amount, usd), o, fee, answer);
      r := match paid case Success(x) => Success(x) case Failure(e) => Failure(AtPayment(e));
    }

    /** Closes whatever could still be paid for the orders; Stripe refusing to close a session is only logged. */
    method ExpireCheckoutSessions(ids: seq<OrderId>, buyer: UserId)
      modifies prisma`transactions
      ensures prisma.transactions == Expired(old(prisma.transactions), Members(ids), buyer)
    {
      var ts := prisma.transactions;
      for i := 0 to |ts|
        invariant |prisma.transactions| == |ts|
        invariant forall k :: 0 <= k < |ts| ==>
          prisma.transactions[k]
          == if k < i && OpenFor(ts[k], Members(ids), buyer) then ts[k].(status := Voided) else ts[k]
      {
        if OpenFor(ts[i], Members(ids), buyer) {
          prisma.transactions := prisma.transactions[i := ts[i].(status := Voided)];
        }
      }
    }

    // ----- Paying the sellers -----

    /** Fails where the call number `failsAt` fails, and leaves the ledger alone if the process dies at the end. */
    method TransferCartPaymentToSellers(i: nat, ids: seq<OrderId>, accounts: Accounts, failsAt: Option<nat>, dies: bool)
      returns (ok: bool)
      requires Valid() && i < |records|
      modifies this`records, prisma`transactions
      ensures Valid() && |records| == old(|records|)
      ensures var (till, t) := Deliver(Till(old(records[i].transfers), {}), old(prisma.transactions[i]), ids,
                                       prisma.orders, accounts, failsAt, dies);
              && records == old(records)[i := old(records[i]).(transfers := till.moved)]
              && prisma.transactions == old(prisma.transactions)[i := t]
      ensures ok <==> !dies && !TransferEach(Till(old(records[i].transfers), {}), old(prisma.transactions[i]), ids,
                                             prisma.orders, accounts, failsAt).stopped
    {
      var t := prisma.transactions[i];
      var transfers := t.transfers;
      ghost var before := Till(records[i].transfers, {});
      for k := 0 to |ids|
        modifies this`records
        invariant |records| == old(|records|)
        invariant records == old(records)[i := old(records[i]).(transfers := records[i].transfers)]
        invariant TransferEach(before, t, ids[..k], prisma.orders, accounts, failsAt)
               == Pass(Till(records[i].transfers, {}), transfers, false)
        invariant |t.transfers| <= |transfers|
      {
        TransferNext(before, t, ids, k, prisma.orders, accounts, failsAt);
        if ids[k] !in prisma.orders || WasTransferred(t, ids[k]) {
          continue;
        }
        var o := prisma.orders[ids[k]];
        var account := accounts(o.seller);
        if !account.ready {
          return false;
        }
        var split := PlannedSplit(t, ids[k], o, account.fee);
        if split.transfer <= 0 {
          continue;
        }
        if failsAt == Some(k) {
          return false;
        }
        var made := Create(records[i].transfers, CartTransfer(t.session, ids[k]), split.transfer);
        if made.Failure? {
          return false;
        }
        records := records[i := records[i].(transfers := made.value)];
        transfers := transfers + [TransferEntry(ids[k], split.transfer)];
      }
      assert ids[..|ids|] == ids;
      if dies {
        return false;
      }
      if transfers != [] {
        prisma.transactions := prisma.transactions[i := t.(transfers := transfers)];
      }
      assert transfers == [] ==> t == t.(transfers := transfers);
      return true;
    }
  }
}
