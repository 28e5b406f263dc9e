/** What each single database statement or transaction of the order protocol does to the rows. */
module OrderSteps {
  import opened Wrappers
  import opened Money
  import opened SellerFees
  import opened Domain

  // ----- Products -----

  function Held(p: Product, buyer: UserId, until: Time): Product {
    p.(reservedUntil := Some(until), reservedBy := Some(buyer))
  }

  function Released(p: Product): Product {
    p.(reservedUntil := None, reservedBy := None)
  }

  function MarkedSold(p: Product, now: Time): Product {
    Released(p).(status := Sold, soldAt := Some(now))
  }

  function Relisted(p: Product): Product {
    p.(status := Active, soldAt := None)
  }

  predicate AllAvailable(products: map<ProductId, Product>, ids: seq<ProductId>, buyer: UserId, now: Time) {
    forall id :: id in ids ==> id in products && Available(products[id], buyer, now)
  }

  function HoldAll(products: map<ProductId, Product>, ids: seq<ProductId>, buyer: UserId, until: Time)
    : map<ProductId, Product>
  {
    map id | id in products :: if id in ids then Held(products[id], buyer, until) else products[id]
  }

  function SellAll(products: map<ProductId, Product>, ids: seq<ProductId>, now: Time): map<ProductId, Product> {
    map id | id in products :: if id in ids then MarkedSold(products[id], now) else products[id]
  }

  /** One statement: `updateMany` over the ids of a buyer's checkout that the buyer still holds. */
  function ReleaseFor(products: map<ProductId, Product>, ids: seq<ProductId>, buyer: UserId): map<ProductId, Product> {
    map id | id in products ::
      if id in ids && products[id].reservedBy == Some(buyer) then Released(products[id]) else products[id]
  }

  /** One statement: every sold item of a cancelled order goes back on sale. */
  function RelistAll(products: map<ProductId, Product>, ids: seq<ProductId>): map<ProductId, Product> {
    map id | id in products ::
      if id in ids && products[id].status == Sold then Relisted(products[id]) else products[id]
  }

  // ----- Orders -----

  /** What a checkout asks for: one order per seller. */
  datatype Draft = Draft(seller: UserId, items: seq<ProductId>, total: Cents)

  function Opened(buyer: UserId, d: Draft): Order {
    Order(buyer, d.seller, d.items, d.total, Pending, None, None, None, None, None, None, None, None)
  }

  function DraftRow(buyer: UserId, drafts: seq<Draft>, next: OrderId, id: OrderId): Order
    requires next <= id < next + |drafts|
  {
    Opened(buyer, drafts[id - next])
  }

  function WithDrafts(orders: map<OrderId, Order>, next: OrderId, buyer: UserId, drafts: seq<Draft>)
    : map<OrderId, Order>
  {
    orders + map id: int | next <= id < next + |drafts| :: DraftRow(buyer, drafts, next, id)
  }

  function AllItems(drafts: seq<Draft>): (ids: seq<ProductId>)
    ensures forall id :: id in ids <==> exists i :: 0 <= i < |drafts| && id in drafts[i].items
  {
    if drafts == [] then []
    else AllItems(drafts[..|drafts| - 1]) + drafts[|drafts| - 1].items
  }

  function Settled(o: Order, now: Time, fee: real, session: Option<int>): Order {
    o.(status := Confirmed, confirmedAt := Some(now), feePercent := Some(fee),
       sellerNet := Some(SettlementNet(o.total, fee)),
       session := if session.Some? then session else o.session)
  }

  /** Cancelled or, by an admin, refunded: the status is claimed together with the cancellation columns. */
  function Claimed(o: Order, to: OrderStatus, c: Cancellation): Order {
    o.(status := to, cancellation := Some(c))
  }

  function Restored(o: Order, from: OrderStatus): Order {
    o.(status := from, cancellation := None)
  }

  function Advanced(o: Order, to: OrderStatus, now: Time): Order {
    match to
    case Confirmed => o.(status := to, confirmedAt := Some(now))
    case Processing => o.(status := to, processingAt := Some(now))
    case Shipped => o.(status := to, shippedAt := Some(now))
    case Delivered => o.(status := to, deliveredAt := Some(now))
    case _ => o.(status := to)
  }

  /** What the seller nets after one more refund, as `reduceSellerEarnings` works it out. */
  function EarningsAfter(o: Order, refund: real): Cents
    requires o.sellerNet.Some?
  {
    ReducedNet(o.sellerNet.value, refund, if o.feePercent.Some? then o.feePercent.value else 0.0)
  }

  function SystemCancellation(now: Time): Cancellation {
    Cancellation(now, None, System)
  }

  // ----- The transition tables -----

  function SellerTransitions(from: OrderStatus): set<OrderStatus> {
    match from
    case Confirmed => {Processing, Shipped, Cancelled}
    case Processing => {Shipped}
    case Shipped => {Delivered}
    case _ => {}
  }

  function AdminTransitions(from: OrderStatus): set<OrderStatus> {
    match from
    case Pending => {Cancelled}
    case Confirmed => {Processing, Shipped, Delivered, Cancelled, Refunded}
    case Processing => {Shipped, Delivered, Cancelled, Refunded}
    case Shipped => {Delivered, Cancelled, Refunded}
    case Delivered => {Refunded}
    case _ => {}
  }

  /** Who may take an order from one status to another by hand. */
  predicate MayMove(actor: Actor, from: OrderStatus, to: OrderStatus) {
    match actor
    case Buyer => from in {Pending, Confirmed} && to == Cancelled
    case Seller => to in SellerTransitions(from)
    case Admin => to in AdminTransitions(from)
    case System => false
  }

  // ----- Transactions and statements over the whole database -----

  /** `createPending*Orders`: hold every item or nothing, then one PENDING order per seller. */
  predicate CanCheckout(db: Db, buyer: UserId, drafts: seq<Draft>, now: Time) {
    AllAvailable(db.products, AllItems(drafts), buyer, now)
  }

  function CheckedOut(db: Db, buyer: UserId, drafts: seq<Draft>, until: Time): Db {
    db.(products := HoldAll(db.products, AllItems(drafts), buyer, until),
        orders := WithDrafts(db.orders, db.nextOrder, buyer, drafts),
        nextOrder := db.nextOrder + |drafts|)
  }

  /** The settlement transaction commits exactly when every item can be sold and the order is still unpaid. */
  predicate CanSettle(db: Db, id: OrderId, snapshot: Order, now: Time) {
    && AllAvailable(db.products, snapshot.items, snapshot.buyer, now)
    && id in db.orders && db.orders[id].status == Pending
  }

  function SettledDb(db: Db, id: OrderId, items: seq<ProductId>, now: Time, fee: real, session: Option<int>): Db
    requires id in db.orders
  {
    db.(products := SellAll(db.products, items, now),
        orders := db.orders[id := Settled(db.orders[id], now, fee, session)])
  }

  /** `findMany`: which of these orders are still unpaid. */
  function FindPending(db: Db, ids: seq<OrderId>): map<OrderId, Order> {
    map id | id in db.orders && id in ids && 0 < id && db.orders[id].status == Pending :: db.orders[id]
  }

  /** `updateMany`: the found orders that are still unpaid become cancelled. */
  function CancelFound(orders: map<OrderId, Order>, found: set<OrderId>, now: Time): map<OrderId, Order> {
    map id | id in orders ::
      if id in found && orders[id].status == Pending then Claimed(orders[id], Cancelled, SystemCancellation(now))
      else orders[id]
  }

  predicate HeldForOneOf(id: ProductId, p: Product, found: map<OrderId, Order>) {
    exists o :: o in found && id in found[o].items && p.reservedBy == Some(found[o].buyer)
  }

  /** All the release statements of the found orders, one after the other. */
  function ReleaseFound(products: map<ProductId, Product>, found: map<OrderId, Order>): map<ProductId, Product> {
    map id | id in products ::
      if HeldForOneOf(id, products[id], found) then Released(products[id]) else products[id]
  }

  /** `cancelPendingPaymentOrders` when nothing comes in between its statements. */
  function PendingCancelled(db: Db, ids: seq<OrderId>, now: Time): Db {
    var found := FindPending(db, ids);
    db.(products := ReleaseFound(db.products, found),
        orders := CancelFound(db.orders, found.Keys, now))
  }

  lemma ReleaseOneMore(products: map<ProductId, Product>, found: map<OrderId, Order>, o: OrderId, row: Order)
    requires o !in found
    ensures ReleaseFor(ReleaseFound(products, found), row.items, row.buyer) == ReleaseFound(products, found[o := row])
  {
    var more := found[o := row];
    forall id | id in products
      ensures HeldForOneOf(id, products[id], more)
          <==> HeldForOneOf(id, products[id], found) || (id in row.items && products[id].reservedBy == Some(row.buyer))
    {
      if HeldForOneOf(id, products[id], found) {
        var x :| x in found && id in found[x].items && products[id].reservedBy == Some(found[x].buyer);
        assert x in more && more[x] == found[x];
      }
      if id in row.items && products[id].reservedBy == Some(row.buyer) {
        assert o in more && more[o] == row;
      }
    }
  }

  // ----- Returns -----

  function ReturnTransitions(from: ReturnStatus): set<ReturnStatus> {
    match from
    case Requested => {Approved, InProgress, ReturnStatus.Rejected}
    case Approved => {InProgress, Completed, ReturnStatus.Rejected}
    case InProgress => {Completed, ReturnStatus.Rejected}
    case Completed => {}
    case Rejected => {}
  }

  /** What refunding a return came to: in the charged currency, in dollars, and whether it was on record before. */
  datatype MoneyBack = MoneyBack(amount: real, usd: real, already: bool)

  /**
   An update of a return. One that refunds stamps it with the time and the amount given back; otherwise an amount is
   written only if the update gives one.
   */
  function UpdatedReturn(r: ReturnRequest, to: ReturnStatus, refund: Option<MoneyBack>, given: Option<real>, now: Time)
    : ReturnRequest
  {
    var amount := if refund.Some? then Some(refund.value.amount) else given;
    r.(status := to,
       refundedAt := if refund.Some? then Some(now) else r.refundedAt,
       refundAmount := if amount.Some? then amount else r.refundAmount)
  }

  predicate FullyReturned(db: Db, id: OrderId)
    requires id in db.orders
  {
    && db.orders[id].items != []
    && forall i | 0 <= i < |db.orders[id].items| ::
         ItemKey(id, i) in db.returnRequests && db.returnRequests[ItemKey(id, i)].refundedAt.Some?
  }
}
