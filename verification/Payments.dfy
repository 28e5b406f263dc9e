/** Payment transactions with their refund and transfer ledgers, and Stripe's own record of what moved. */
module Payments {
  import opened Wrappers
  import opened Money
  import opened SellerFees
  import opened Domain
  import Currency

  datatype Provider = Stripe | TbiCredit

  /** PENDING, PROCESSING, SUCCEEDED, FAILED, CANCELLED and REFUNDED of a payment. */
  datatype PaymentStatus = Awaited | InProcess | Succeeded | Failed | Voided | PaidBack

  datatype Mode = BuyNow | Cart

  /** What a cart payment planned for one of its orders. */
  datatype PlanEntry = PlanEntry(order: OrderId, amount: Cents, split: Split)

  /** A refund is for one returned item, or for whatever was left of a cancelled order; charged and in dollars. */
  datatype RefundEntry = RefundEntry(order: OrderId, request: Option<ItemKey>, amount: Cents, usd: real)

  datatype TransferEntry = TransferEntry(order: OrderId, amount: Cents)

  datatype Transaction = Transaction(
    buyer: UserId,
    order: Option<OrderId>,
    orderIds: seq<OrderId>,
    provider: Provider,
    status: PaymentStatus,
    amount: Cents,
    currency: Currency.Currency,
    mode: Mode,
    createdAt: Time,
    session: int,
    intent: Option<int>,
    application: Option<int>,
    coupon: Option<CouponId>,
    plan: seq<PlanEntry>,
    refunds: seq<RefundEntry>,
    transfers: seq<TransferEntry>)

  predicate CoversOrder(t: Transaction, id: OrderId) {
    t.order == Some(id) || id in t.orderIds
  }

  predicate PaidFor(t: Transaction, id: OrderId, buyer: UserId) {
    t.buyer == buyer && t.status in {Succeeded, PaidBack} && CoversOrder(t, id)
  }

  /** The newest paid transaction of the buyer that covers the order; transactions are listed oldest first. */
  function FindPaid(ts: seq<Transaction>, id: OrderId, buyer: UserId): (found: Option<nat>)
    ensures found.Some? ==> found.value < |ts| && PaidFor(ts[found.value], id, buyer)
    ensures found.Some? ==> forall i :: found.value < i < |ts| ==> !PaidFor(ts[i], id, buyer)
    ensures found.None? ==> forall i :: 0 <= i < |ts| ==> !PaidFor(ts[i], id, buyer)
  {
    if ts == [] then None
    else if PaidFor(ts[|ts| - 1], id, buyer) then Some(|ts| - 1)
    else FindPaid(ts[..|ts| - 1], id, buyer)
  }

  /** An unfinished payment of the buyer for one of the orders. */
  predicate OpenFor(t: Transaction, ids: set<OrderId>, buyer: UserId) {
    t.buyer == buyer && t.status in {Awaited, InProcess} && exists id :: id in ids && CoversOrder(t, id)
  }

  /** The unfinished payments for the orders are closed; every other one stays. */
  function Expired(ts: seq<Transaction>, ids: set<OrderId>, buyer: UserId): (expired: seq<Transaction>)
    ensures |expired| == |ts|
  {
    seq(|ts|, i requires 0 <= i < |ts| => if OpenFor(ts[i], ids, buyer) then ts[i].(status := Voided) else ts[i])
  }

  /** Linked to the order, or listing it. */
  predicate Concerns(t: Transaction, ids: set<OrderId>) {
    (t.order.Some? && t.order.value in ids) || exists k | 0 <= k < |t.orderIds| :: t.orderIds[k] in ids
  }

  /** What is refunded is the newest payment of the buyer for the order that was paid, refunded before or not. */
  lemma FoundIs(ts: seq<Transaction>, id: OrderId, buyer: UserId, i: nat)
    ensures FindPaid(ts, id, buyer) == Some(i)
            <==> && i < |ts| && ts[i].buyer == buyer && Concerns(ts[i], {id}) && ts[i].status in {Succeeded, PaidBack}
                 && forall j :: i < j < |ts| && ts[j].buyer == buyer && Concerns(ts[j], {id}) ==>
                      ts[j].status !in {Succeeded, PaidBack}
  {
    forall j | 0 <= j < |ts|
      ensures Concerns(ts[j], {id}) <==> CoversOrder(ts[j], id)
    {
      if CoversOrder(ts[j], id) && ts[j].order != Some(id) {
        var k :| 0 <= k < |ts[j].orderIds| && ts[j].orderIds[k] == id;
      }
    }
    hide Concerns;
  }

  /** Exactly the buyer's unfinished payments that concern one of the orders are closed. */
  lemma ClosedIff(ts: seq<Transaction>, ids: set<OrderId>, buyer: UserId, i: nat)
    requires i < |ts|
    ensures var closed := ts[i].buyer == buyer && ts[i].status in {Awaited, InProcess} && Concerns(ts[i], ids);
            Expired(ts, ids, buyer)[i] == if closed then ts[i].(status := Voided) else ts[i]
  {
    if Concerns(ts[i], ids) {
      if ts[i].order.Some? && ts[i].order.value in ids {
        assert CoversOrder(ts[i], ts[i].order.value);
      } else {
        var k :| 0 <= k < |ts[i].orderIds| && ts[i].orderIds[k] in ids;
        assert CoversOrder(ts[i], ts[i].orderIds[k]);
      }
    }
    if id :| id in ids && CoversOrder(ts[i], id) {
      if id in ts[i].orderIds {
        var k :| 0 <= k < |ts[i].orderIds| && ts[i].orderIds[k] == id;
      }
    }
  }

  // ----- Stripe -----

  datatype StripeKey =
    | ReturnRefund(request: ItemKey)
    | OrderRefund(order: OrderId)
    | ReturnReversal(request: ItemKey)
    | OrderReversal(order: OrderId)
    | CartTransfer(session: int, order: OrderId)

  /** Money that Stripe moved, under the idempotency key it was asked with. */
  datatype Movement = Movement(key: StripeKey, amount: Cents)

  datatype StripeError = Unreachable | KeyReused

  function AmountUnder(book: seq<Movement>, key: StripeKey): (amount: Option<Cents>)
    ensures amount.Some? <==> exists i :: 0 <= i < |book| && book[i].key == key
    ensures amount.Some? ==> Movement(key, amount.value) in book
  {
    if book == [] then None
    else if book[|book| - 1].key == key then Some(book[|book| - 1].amount)
    else AmountUnder(book[..|book| - 1], key)
  }

  /** A known key moves no more money: it answers as before, or refuses if asked for something else. */
  function Create(book: seq<Movement>, key: StripeKey, amount: Cents): (r: Result<seq<Movement>, StripeError>)
    ensures r.Success? ==> Movement(key, amount) in r.value && book <= r.value <= book + [Movement(key, amount)]
    ensures r.Success? && AmountUnder(book, key).Some? ==> r.value == book
    ensures r.Success? && AmountUnder(book, key).None? ==> r.value == book + [Movement(key, amount)]
    ensures r.Failure? <==> AmountUnder(book, key).Some? && AmountUnder(book, key) != Some(amount)
  {
    match AmountUnder(book, key)
    case None => Success(book + [Movement(key, amount)])
    case Some(before) => if before == amount then Success(book) else Failure(KeyReused)
  }

  ghost predicate DistinctKeys(book: seq<Movement>) {
    forall i, j :: 0 <= i < j < |book| ==> book[i].key != book[j].key
  }

  function Moved(book: seq<Movement>): (amounts: seq<Cents>)
    ensures |amounts| == |book|
  {
    seq(|book|, i requires 0 <= i < |book| => book[i].amount)
  }

  /** Everything at Stripe that concerns one payment. */
  datatype StripeRecord = StripeRecord(refunds: seq<Movement>, reversals: seq<Movement>, transfers: seq<Movement>)

  lemma CreateKeepsKeys(book: seq<Movement>, key: StripeKey, amount: Cents)
    requires DistinctKeys(book) && Create(book, key, amount).Success?
    ensures DistinctKeys(Create(book, key, amount).value)
  {
  }
}
