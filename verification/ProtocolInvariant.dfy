/** What every step of the order protocol keeps, in every interleaving. */
module ProtocolInvariant {
  import opened Wrappers
  import opened Money
  import opened SellerFees
  import opened Domain
  import opened OrderSteps
  import opened Protocol

  // ----- One order -----

  predicate InOrder(a: Option<Time>, b: Option<Time>) {
    a.Some? && b.Some? ==> a.value <= b.value
  }

  predicate StampsInOrder(o: Order, now: Time) {
    && InOrder(o.confirmedAt, o.processingAt) && InOrder(o.confirmedAt, o.shippedAt)
    && InOrder(o.confirmedAt, o.deliveredAt) && InOrder(o.processingAt, o.shippedAt)
    && InOrder(o.processingAt, o.deliveredAt) && InOrder(o.shippedAt, o.deliveredAt)
    && InOrder(o.confirmedAt, Some(now)) && InOrder(o.processingAt, Some(now))
    && InOrder(o.shippedAt, Some(now)) && InOrder(o.deliveredAt, Some(now))
  }

  /** What a seller may net: what was fixed at settlement, or less of it after refunds. */
  predicate SellerShare(net: Cents, total: Cents, fee: real) {
    net == SettlementNet(total, fee) || 0 <= net <= Max(0, SettlementNet(total, fee))
  }

  /** The payment snapshot: when it was confirmed, at which fee, and what the seller nets. */
  ghost predicate Paid(o: Order) {
    && o.confirmedAt.Some?
    && o.feePercent.Some? && Percentage(o.feePercent.value)
    && o.sellerNet.Some? && SellerShare(o.sellerNet.value, o.total, o.feePercent.value)
  }

  predicate Unpaid(o: Order) {
    o.confirmedAt.None? && o.processingAt.None? && o.shippedAt.None? && o.deliveredAt.None?
    && o.feePercent.None? && o.sellerNet.None?
  }

  /** Buyers and sellers cancel only what nobody has begun to fulfil, the system only what was never paid. */
  predicate CancelledInTime(o: Order) {
    o.cancellation.Some? ==>
      match o.cancellation.value.actor
      case Admin => true
      case System => o.status == Cancelled && o.confirmedAt.None?
      case Seller =>
        o.status == Cancelled && o.confirmedAt.Some? && o.processingAt.None? && o.shippedAt.None? && o.deliveredAt.None?
      case Buyer =>
        o.status == Cancelled && o.processingAt.None? && o.shippedAt.None? && o.deliveredAt.None?
  }

  /** Which columns an order has filled in, for each status. */
  ghost predicate OrderOk(o: Order, now: Time) {
    && StampsInOrder(o, now)
    && (Paid(o) || Unpaid(o))
    && (o.status == Pending ==> Unpaid(o))
    && (o.deliveredAt.None? && Paid(o) ==> o.sellerNet.value == SettlementNet(o.total, o.feePercent.value))
    && (o.status !in {Pending, Cancelled} ==> Paid(o))
    && (!Terminal(o.status) ==> o.cancellation.None?) && CancelledInTime(o)
    && (o.status == Confirmed ==> o.processingAt.None?)
    && (o.status in {Confirmed, Processing} ==> o.shippedAt.None?)
    && (o.status in {Confirmed, Processing, Shipped, Cancelled} ==> o.deliveredAt.None?)
    && (o.status == Processing ==> o.processingAt.Some?)
    && (o.status == Shipped ==> o.shippedAt.Some?)
    && (o.status == Delivered ==> o.deliveredAt.Some?)
  }

  /** What never changes about an order. */
  predicate SameSale(a: Order, b: Order) {
    a.buyer == b.buyer && a.seller == b.seller && a.items == b.items && a.total == b.total
  }

  // ----- The tasks in flight -----

  /** A cancellation that has claimed a paid order and has neither finished nor given it back. */
  predicate Holding(task: Task) {
    task.Refunding? || task.Relisting?
  }

  /** Only what the seller nets may differ: a return may reduce it at any time. */
  predicate SameButNet(a: Order, b: Order) {
    a.(sellerNet := b.sellerNet) == b
  }

  /** All items of the order are sold, and to this order. */
  ghost predicate Owns(s: State, id: OrderId)
    requires id in s.db.orders
  {
    forall p :: p in s.db.orders[id].items ==>
      && p in s.db.products && s.db.products[p].status == Sold
      && p in s.soldTo && s.soldTo[p] == id
  }

  predicate WasDelivered(s: State, id: OrderId) {
    id in s.db.orders && s.db.orders[id].deliveredAt.Some?
  }

  ghost predicate HoldingOk(s: State, task: Task)
    requires Holding(task)
  {
    && task.order in s.db.orders
    && Live(task.before.status) && OrderOk(task.before, s.now)
    && task.snapshot.status == task.before.status
    && task.snapshot.items == task.before.items
    && Terminal(task.to) && (task.before.status == Delivered ==> task.to == Refunded)
    && s.db.orders[task.order].status == task.to
    && SameButNet(Restored(s.db.orders[task.order], task.before.status), task.before)
    && Owns(s, task.order)
  }

  ghost predicate TaskOk(s: State, task: Task) {
    match task
    case Settling(id, snapshot, at, fee, _) =>
      id in s.db.orders && SameSale(snapshot, s.db.orders[id]) && at <= s.now && Percentage(fee)
    case Refused(id) => id in s.db.orders
    case Cancelling(id, snapshot, to, cancellation, _) =>
      && id in s.db.orders && SameSale(snapshot, s.db.orders[id]) && Terminal(to)
      && MayMove(cancellation.actor, snapshot.status, to)
      && !Terminal(snapshot.status) && (snapshot.status == Delivered ==> to == Refunded)
      && (snapshot.status == Pending ==> to == Cancelled)
    case Refunding(_, _, _, _) => HoldingOk(s, task)
    case Relisting(_, _, _, _) => HoldingOk(s, task)
    case Advancing(id, from, to) => id in s.db.orders && Live(from) && Live(to) && Rank(from) < Rank(to)
    case ReturnAllowed(key) => WasDelivered(s, key.order) && key.index < |s.db.orders[key.order].items|
    case ReturnRead(key, _, _) => key in s.db.returnRequests
    case ReturnWritten(id, refund) => WasDelivered(s, id) && (refund.Some? ==> 0.0 <= refund.value)
    case EarningsRead(id, net, read, refund) =>
      && WasDelivered(s, id) && s.db.orders[id].feePercent.Some?
      && net == ReducedNet(read, refund, s.db.orders[id].feePercent.value)
      && SellerShare(net, s.db.orders[id].total, s.db.orders[id].feePercent.value)
    case EarningsDone(id) => WasDelivered(s, id)
    case MarkingRefunded(id) => WasDelivered(s, id)
    case _ => true
  }

  function Rank(status: OrderStatus): nat {
    match status
    case Pending => 0
    case Confirmed => 1
    case Processing => 2
    case Shipped => 3
    case Delivered => 4
    case Cancelled => 5
    case Refunded => 6
  }

  // ----- The whole state -----

  ghost predicate OrdersOk(s: State) {
    forall id :: id in s.db.orders ==>
      && 0 < id < s.db.nextOrder
      && OrderOk(s.db.orders[id], s.now)
      && (forall p :: p in s.db.orders[id].items ==> p in s.db.products)
      && (Live(s.db.orders[id].status) ==> Owns(s, id))
  }

  ghost predicate TasksOk(s: State) {
    forall t :: t in s.tasks ==> TaskOk(s, s.tasks[t])
  }

  /** At most one cancellation holds an order. */
  ghost predicate HoldersDistinct(s: State) {
    forall t, u :: t in s.tasks && u in s.tasks && t != u && Holding(s.tasks[t]) && Holding(s.tasks[u])
      ==> s.tasks[t].order != s.tasks[u].order
  }

  ghost predicate ReturnsOk(s: State) {
    forall key :: key in s.db.returnRequests ==>
      WasDelivered(s, key.order) && key.index < |s.db.orders[key.order].items|
  }

  function ConfirmedReports(outcomes: seq<Outcome>, id: OrderId): nat {
    if outcomes == [] then 0
    else ConfirmedReports(outcomes[..|outcomes| - 1], id)
         + if outcomes[|outcomes| - 1] == Outcome(id, ConfirmedNow) then 1 else 0
  }

  predicate EverConfirmed(db: Db, id: OrderId) {
    id in db.orders && db.orders[id].confirmedAt.Some?
  }

  /** An order is confirmed by exactly one settlement, or by none and then it was never confirmed. */
  ghost predicate ReportsOk(s: State) {
    forall id :: ConfirmedReports(s.outcomes, id) == if EverConfirmed(s.db, id) then 1 else 0
  }

  ghost predicate Inv(s: State) {
    && 0 < s.db.nextOrder
    && OrdersOk(s) && TasksOk(s) && HoldersDistinct(s) && ReturnsOk(s) && ReportsOk(s)
  }

  // ----- What any step does to existing orders -----

  /** An unpaid order that was cancelled. */
  predicate Dropped(o: Order) {
    o.status == Cancelled && o.confirmedAt.None?
  }

  ghost predicate RowEvolves(a: Order, b: Order) {
    && SameSale(a, b)
    && (a.status != Pending ==> b.status != Pending)
    && (Dropped(a) ==> Dropped(b))
    && (a.confirmedAt.Some? ==> b.confirmedAt == a.confirmedAt)
    && (a.feePercent.Some? ==> b.feePercent == a.feePercent)
    && (a.deliveredAt.Some? ==> b.deliveredAt.Some?)
  }

  ghost predicate Evolves(db: Db, db': Db) {
    forall id :: id in db.orders ==> id in db'.orders && RowEvolves(db.orders[id], db'.orders[id])
  }

  // ----- What a step need not touch carries over -----

  /** An order that a step leaves alone, items included, but for what the seller nets. */
  ghost predicate Untouched(s: State, s': State, id: OrderId) {
    && id in s.db.orders && id in s'.db.orders
    && SameButNet(s'.db.orders[id], s.db.orders[id])
    && (Owns(s, id) ==> Owns(s', id))
  }

  lemma LaterOk(o: Order, now: Time, later: Time)
    requires OrderOk(o, now) && now <= later
    ensures OrderOk(o, later)
  {
  }

  lemma TaskCarriesOver(s: State, s': State, task: Task)
    requires TaskOk(s, task) && Evolves(s.db, s'.db) && s.now <= s'.now
    requires s.db.returnRequests.Keys <= s'.db.returnRequests.Keys
    requires Holding(task) ==> Untouched(s, s', task.order)
    ensures TaskOk(s', task)
  {
    if Holding(task) {
      LaterOk(task.before, s.now, s'.now);
      hide OrderOk, Owns;
      assert HoldingOk(s', task);
    } else {
      hide OrderOk, Owns;
    }
  }

  lemma TasksCarryOver(s: State, s': State)
    requires TasksOk(s) && Evolves(s.db, s'.db) && s.now <= s'.now
    requires s.db.returnRequests.Keys <= s'.db.returnRequests.Keys
    requires forall t :: t in s'.tasks ==> t in s.tasks && s'.tasks[t] == s.tasks[t]
    requires forall t :: t in s'.tasks && Holding(s'.tasks[t]) ==> Untouched(s, s', s'.tasks[t].order)
    ensures TasksOk(s')
  {
    hide Untouched, Evolves, TaskOk;
    forall t | t in s'.tasks
      ensures TaskOk(s', s'.tasks[t])
    {
      TaskCarriesOver(s, s', s'.tasks[t]);
    }
  }

  /** Every order's items stay in the catalogue, and every owner that stays live keeps its items. */
  lemma OrdersCarryOver(s: State, s': State)
    requires OrdersOk(s) && Evolves(s.db, s'.db)
    requires s'.db.orders.Keys == s.db.orders.Keys && s'.db.nextOrder == s.db.nextOrder
    requires forall id, p :: id in s.db.orders && p in s.db.orders[id].items ==> p in s'.db.products
    requires forall id :: id in s.db.orders ==> OrderOk(s'.db.orders[id], s'.now)
    requires forall id :: id in s.db.orders && Live(s'.db.orders[id].status) ==> Owns(s', id)
    ensures OrdersOk(s')
  {
    hide OrderOk, Owns;
  }

  lemma RestCarriesOver(s: State, s': State)
    requires ReturnsOk(s) && ReportsOk(s) && Evolves(s.db, s'.db)
    requires s'.db.returnRequests == s.db.returnRequests && s'.outcomes == s.outcomes
    requires forall id :: EverConfirmed(s'.db, id) ==> EverConfirmed(s.db, id)
    ensures ReturnsOk(s') && ReportsOk(s')
  {
  }

  // ----- Steps that only touch products -----

  /** Items of an order stay in the catalogue, and stay sold once sold. */
  ghost predicate KeepsSold(db: Db, products: map<ProductId, Product>) {
    forall id, p :: id in db.orders && p in db.orders[id].items ==>
      p in products && (p in db.products && db.products[p].status == Sold ==> products[p].status == Sold)
  }

  lemma ProductsOnly(s: State, products: map<ProductId, Product>)
    requires Inv(s) && KeepsSold(s.db, products)
    ensures Inv(s.(db := s.db.(products := products)))
  {
    var s' := s.(db := s.db.(products := products));
    assert forall id :: id in s.db.orders ==> Untouched(s, s', id);
    hide OrderOk, Owns, TaskOk;
    forall t | t in s'.tasks && Holding(s'.tasks[t])
      ensures s'.tasks[t].order in s.db.orders
    {
      HolderKnown(s, t);
    }
    TasksCarryOver(s, s');
    OrdersCarryOver(s, s');
    hide Untouched, Holding;
    assert HoldersDistinct(s');
    RestCarriesOver(s, s');
  }

  lemma HolderKnown(s: State, t: TaskId)
    requires TasksOk(s) && t in s.tasks && Holding(s.tasks[t])
    ensures HoldingOk(s, s.tasks[t])
  {
    assert TaskOk(s, s.tasks[t]);
  }

  predicate InCatalogue(db: Db) {
    forall id, p :: id in db.orders && p in db.orders[id].items ==> p in db.products
  }

  lemma ProductStepOnly(s: State, a: Action)
    requires InCatalogue(s.db)
    ensures var s' := ProductStep(s, a);
            s' == s.(db := s.db.(products := s'.db.products)) && KeepsSold(s.db, s'.db.products)
  {
    hide AccountPulled;
    var s' := ProductStep(s, a);
    match a
    case DeleteProduct(p) =>
      if s' != s {
        assert forall id :: id in s.db.orders ==> p !in s.db.orders[id].items;
      }
    case DeleteAccount(owner) => AccountKeepsSold(s.db, owner);
    case _ =>
  }

  lemma AccountKeepsSold(db: Db, owner: UserId)
    requires InCatalogue(db)
    ensures KeepsSold(db, AccountPulled(db.products, owner)) && KeepsSold(db, db.products)
  {
  }

  lemma ProductStepKeeps(s: State, a: Action)
    requires Inv(s)
    ensures Inv(ProductStep(s, a))
    ensures ProductStep(s, a).db.orders == s.db.orders
  {
    hide OrderOk, TasksOk, HoldersDistinct, ReturnsOk, ReportsOk, Owns, ProductStep, KeepsSold;
    ProductStepOnly(s, a);
    hide Inv;
    ProductsOnly(s, ProductStep(s, a).db.products);
  }

  // ----- Building blocks: one task, one order -----

  ghost predicate NobodyHolds(s: State, id: OrderId) {
    forall u :: u in s.tasks && Holding(s.tasks[u]) ==> s.tasks[u].order != id
  }

  lemma EndKeeps(s: State, t: TaskId)
    requires Inv(s)
    ensures Inv(End(s, t))
  {
    var s' := End(s, t);
    forall u | u in s'.tasks
      ensures TaskOk(s', s'.tasks[u])
    {
      assert TaskOk(s, s.tasks[u]);
    }
  }

  lemma PutKeeps(s: State, t: TaskId, task: Task)
    requires Inv(s) && TaskOk(s, task)
    requires Holding(task) ==> NobodyHolds(End(s, t), task.order)
    ensures Inv(s.(tasks := s.tasks[t := task]))
  {
    var s' := s.(tasks := s.tasks[t := task]);
    forall u | u in s'.tasks
      ensures TaskOk(s', s'.tasks[u])
    {
      assert u != t ==> TaskOk(s, s.tasks[u]);
      assert TaskOk(s, s'.tasks[u]);
    }
    forall u, v | u in s'.tasks && v in s'.tasks && u != v && Holding(s'.tasks[u]) && Holding(s'.tasks[v])
      ensures s'.tasks[u].order != s'.tasks[v].order
    {
      assert u != t ==> u in End(s, t).tasks;
      assert v != t ==> v in End(s, t).tasks;
    }
  }

  lemma ReportKeeps(s: State, id: OrderId, report: Report)
    requires Inv(s) && report != ConfirmedNow
    ensures Inv(Reported(s, id, report))
  {
    var s' := Reported(s, id, report);
    assert forall x :: x in s.db.orders ==> Untouched(s, s', x);
    hide OrderOk, Owns, TaskOk;
    forall t | t in s'.tasks && Holding(s'.tasks[t])
      ensures s'.tasks[t].order in s.db.orders
    {
      HolderKnown(s, t);
    }
    TasksCarryOver(s, s');
    OrdersCarryOver(s, s');
    forall x
      ensures ConfirmedReports(s'.outcomes, x) == ConfirmedReports(s.outcomes, x)
    {
      assert s'.outcomes[..|s.outcomes|] == s.outcomes;
    }
  }

  lemma OrderKeeps(s: State, id: OrderId, row: Order)
    requires Inv(s) && id in s.db.orders && NobodyHolds(s, id)
    requires RowEvolves(s.db.orders[id], row) && OrderOk(row, s.now)
    requires row.confirmedAt == s.db.orders[id].confirmedAt
    requires Live(row.status) ==> Owns(s, id)
    ensures Inv(SetOrder(s, id, row)) && Evolves(s.db, SetOrder(s, id, row).db)
  {
    hide OrderOk, TaskOk;
    var s' := SetOrder(s, id, row);
    assert forall x :: x in s.db.orders && x != id ==> Untouched(s, s', x);
    assert Owns(s, id) ==> Owns(s', id);
    hide Owns;
    forall t | t in s'.tasks && Holding(s'.tasks[t])
      ensures s'.tasks[t].order in s.db.orders
    {
      HolderKnown(s, t);
    }
    TasksCarryOver(s, s');
    OrdersCarryOver(s, s');
    hide Untouched, Holding;
    assert HoldersDistinct(s');
    RestCarriesOver(s, s');
  }

  lemma HeldOrderIsTerminal(s: State, id: OrderId)
    requires Inv(s) && id in s.db.orders && !Terminal(s.db.orders[id].status)
    ensures NobodyHolds(s, id)
  {
    forall u | u in s.tasks && Holding(s.tasks[u])
      ensures s.tasks[u].order != id
    {
      assert TaskOk(s, s.tasks[u]);
    }
  }
}
