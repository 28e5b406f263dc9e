/** The rows the marketplace keeps about products, orders and returns. */
module Domain {
  import opened Wrappers
  import opened Money

  type ProductId = int
  type OrderId = int
  type UserId = int
  type CouponId = int
  type Time = int

  datatype ProductStatus = Active | Inactive | Sold

  datatype AuthStatus = NotSubmitted | UnderReview | Verified | NotVerified

  /** A single, unique item. While a checkout is open it is held for one buyer. */
  datatype Product = Product(
    seller: UserId,
    status: ProductStatus,
    auth: AuthStatus,
    soldAt: Option<Time>,
    reservedUntil: Option<Time>,
    reservedBy: Option<UserId>)

  datatype OrderStatus = Pending | Confirmed | Processing | Shipped | Delivered | Cancelled | Refunded

  datatype Actor = Buyer | Seller | Admin | System

  /** The cancellation columns of an order, which are always written and erased together. */
  datatype Cancellation = Cancellation(at: Time, byUser: Option<UserId>, actor: Actor)

  datatype Order = Order(
    buyer: UserId,
    seller: UserId,
    items: seq<ProductId>,
    total: Cents,
    status: OrderStatus,
    confirmedAt: Option<Time>,
    processingAt: Option<Time>,
    shippedAt: Option<Time>,
    deliveredAt: Option<Time>,
    cancellation: Option<Cancellation>,
    feePercent: Option<real>,
    sellerNet: Option<Cents>,
    session: Option<int>)

  datatype ReturnStatus = Requested | Approved | InProgress | Completed | Rejected

  datatype ReturnRequest = ReturnRequest(status: ReturnStatus, refundedAt: Option<Time>, refundAmount: Option<real>)

  /** An order item is addressed by its order and its position; a return belongs to one item. */
  datatype ItemKey = ItemKey(order: OrderId, index: nat)

  datatype Db = Db(
    products: map<ProductId, Product>,
    orders: map<OrderId, Order>,
    nextOrder: OrderId,
    returnRequests: map<ItemKey, ReturnRequest>)

  /** Positive ids, each once, in the order of their first appearance. */
  function PositiveIds(ids: seq<int>): (valid: seq<int>)
    ensures forall id :: id in valid <==> id in ids && 0 < id
    ensures forall i, j :: 0 <= i < j < |valid| ==> valid[i] != valid[j]
  {
    if ids == [] then []
    else
      var rest := PositiveIds(ids[..|ids| - 1]);
      var last := ids[|ids| - 1];
      if last <= 0 || last in rest then rest else rest + [last]
  }

  /** Later ids go behind earlier ones. */
  lemma {:induction false} PositiveInOrder(ids: seq<int>, k: nat)
    requires k <= |ids|
    ensures PositiveIds(ids[..k]) <= PositiveIds(ids)
    decreases |ids|
  {
    if k == |ids| {
      assert ids[..k] == ids;
    } else {
      var n := |ids| - 1;
      assert ids[..n][..k] == ids[..k];
      PositiveInOrder(ids[..n], k);
    }
  }

  function Members(ids: seq<int>): set<int> {
    set id | id in ids
  }

  /** Paid and not yet out of fulfilment: the buyer has, or is due, the items. */
  predicate Live(status: OrderStatus) {
    status in {Confirmed, Processing, Shipped, Delivered}
  }

  predicate Terminal(status: OrderStatus) {
    status in {Cancelled, Refunded}
  }

  /** A paid order that has not left the seller puts its items back on sale when cancelled. */
  predicate Relistable(status: OrderStatus) {
    status in {Confirmed, Processing}
  }

  /** What may be bought now by this buyer: listed, authenticated and not held for someone else. */
  predicate Available(p: Product, buyer: UserId, now: Time) {
    && p.status == Active
    && p.auth == Verified
    && (p.reservedUntil.None? || p.reservedUntil.value < now || p.reservedBy == Some(buyer))
  }

  predicate HeldByOther(p: Product, buyer: UserId, now: Time) {
    p.reservedUntil.Some? && now < p.reservedUntil.value && p.reservedBy != Some(buyer)
  }
}
