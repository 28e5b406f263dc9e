/**
 The order protocol as a state machine. Every request, webhook and cron job is a task that runs
 one database statement or transaction at a time, in any interleaving with all the others, and may
 be abandoned between any two of them.
 */
module Protocol {
  import opened Wrappers
  import opened Money
  import opened Domain
  import opened OrderSteps

  type TaskId = int

  /** How an order was paid, as found when a cancellation looks up its payment. */
  datatype Funding = Untracked | ByCard | Financed

  datatype Task =
    // settleOrder: the order was read as PENDING; or its transaction was refused
    | Settling(order: OrderId, snapshot: Order, at: Time, fee: real, session: Option<int>)
    | Refused(order: OrderId)
    // cancelPendingPaymentOrders: after findMany; after updateMany
    | FoundUnpaid(found: map<OrderId, Order>)
    | ReleasingHolds(found: map<OrderId, Order>)
    // cancelOrderWithRefund: after the checks; after the claim; after the refund.
    // `before` is the row that was claimed, kept as history only.
    | Cancelling(order: OrderId, snapshot: Order, to: OrderStatus, cancellation: Cancellation, funding: Funding)
    | Refunding(order: OrderId, snapshot: Order, to: OrderStatus, before: Order)
    | Relisting(order: OrderId, snapshot: Order, to: OrderStatus, before: Order)
    // advanceOrderStatus: the transition was validated
    | Advancing(order: OrderId, from: OrderStatus, to: OrderStatus)
    // createReturn: validated; a return update: read; written; the seller's earnings read and what is
    // left of them worked out; reduced; the order found fully returned
    | ReturnAllowed(key: ItemKey)
    | ReturnRead(key: ItemKey, newStatus: ReturnStatus, refundedAt: Option<Time>)
    | ReturnWritten(order: OrderId, refund: Option<real>)
    | EarningsRead(order: OrderId, net: Cents, read: Cents, taken: real)
    | EarningsDone(order: OrderId)
    | MarkingRefunded(order: OrderId)

  datatype Report = ConfirmedNow | AlreadySettled | RejectedNow

  datatype Outcome = Outcome(order: OrderId, report: Report)

  /** `soldTo` and `window` are history: who an item was last sold to, and until when a checkout holds. */
  datatype State = State(
    db: Db,
    now: Time,
    tasks: map<TaskId, Task>,
    outcomes: seq<Outcome>,
    soldTo: map<ProductId, OrderId>,
    window: map<OrderId, Time>)

  datatype Action =
    | Tick
    // products
    | AddProduct(p: ProductId, seller: UserId)
    | EditStatus(p: ProductId, newStatus: ProductStatus, fullEdit: bool, sellerReady: bool)
    | SetAuthentication(p: ProductId, auth: AuthStatus)
    | PublishVerified(p: ProductId)
    | Unpublish(p: ProductId)
    | DeleteProduct(p: ProductId)
    | DeleteAccount(owner: UserId)
    // checkout and payment
    | OpenOrders(buyer: UserId, drafts: seq<Draft>, minutes: nat)
    | BeginSettle(t: TaskId, order: OrderId, fee: real, session: Option<int>)
    | CommitSettle(t: TaskId)
    | Reread(t: TaskId)
    | FindUnpaid(t: TaskId, ids: seq<OrderId>)
    | CancelUnpaid(t: TaskId)
    | ReleaseHolds(t: TaskId, order: OrderId)
    // cancellation with refund
    | BeginCancel(t: TaskId, order: OrderId, actor: Actor, user: Option<UserId>, to: OrderStatus, funding: Funding)
    | Claim(t: TaskId)
    | RefundSucceeds(t: TaskId)
    | RefundFails(t: TaskId)
    | Relist(t: TaskId)
    // fulfilment
    | BeginAdvance(t: TaskId, order: OrderId, actor: Actor, to: OrderStatus)
    | Advance(t: TaskId)
    // returns
    | BeginReturn(t: TaskId, key: ItemKey)
    | InsertReturn(t: TaskId)
    | ReadReturn(t: TaskId, key: ItemKey, newReturnStatus: ReturnStatus)
    | WriteReturn(t: TaskId, given: Option<real>, made: MoneyBack)
    | ReadEarnings(t: TaskId)
    | WriteEarnings(t: TaskId)
    | ReadFullyReturned(t: TaskId)
    | MarkRefunded(t: TaskId)
    // a request dies between two statements
    | Abandon(t: TaskId)
    // the same requests with nothing in between their statements
    | CancelUnpaidAtOnce(ids: seq<OrderId>)
    | CheckoutAtOnce(buyer: UserId, drafts: seq<Draft>, minutes: nat)
    | RejectAtOnce(t: TaskId)
    | ClaimUnpaidAtOnce(t: TaskId)

  // ----- One step -----

  function Begin(s: State, t: TaskId, task: Task): State {
    if t in s.tasks then s else s.(tasks := s.tasks[t := task])
  }

  function End(s: State, t: TaskId): State {
    s.(tasks := s.tasks - {t})
  }

  function Reported(s: State, id: OrderId, report: Report): State {
    s.(outcomes := s.outcomes + [Outcome(id, report)])
  }

  function SetProduct(s: State, p: ProductId, row: Product): State {
    s.(db := s.db.(products := s.db.products[p := row]))
  }

  function SetOrder(s: State, id: OrderId, row: Order): State {
    s.(db := s.db.(orders := s.db.orders[id := row]))
  }

  /** Products of one seller go to one order, and nobody buys their own. */
  predicate ValidDrafts(db: Db, buyer: UserId, drafts: seq<Draft>) {
    && (forall i | 0 <= i < |drafts| ::
          drafts[i].seller != buyer
          && forall p | p in drafts[i].items :: p in db.products && db.products[p].seller == drafts[i].seller)
    && (forall i, j | 0 <= i < j < |drafts| :: drafts[i].seller != drafts[j].seller)
  }

  function ProductStep(s: State, a: Action): State {
    match a
    case AddProduct(p, seller) =>
      if p in s.db.products then s
      else SetProduct(s, p, Product(seller, Inactive, NotSubmitted, None, None, None))
    case EditStatus(p, newStatus, fullEdit, sellerReady) =>
      if p !in s.db.products then s
      else
        var row := s.db.products[p];
        if row.status == Sold && newStatus != Sold then s
        else if fullEdit && row.reservedUntil.Some? && s.now < row.reservedUntil.value then s
        else if newStatus == Active && !(sellerReady && row.auth == Verified) then s
        else SetProduct(s, p, row.(status := newStatus))
    case SetAuthentication(p, auth) =>
      if p !in s.db.products then s else SetProduct(s, p, s.db.products[p].(auth := auth))
    case PublishVerified(p) =>
      if p !in s.db.products || s.db.products[p].status == Sold then s
      else SetProduct(s, p, s.db.products[p].(status := Active))
    case Unpublish(p) =>
      if p !in s.db.products || s.db.products[p].status != Active then s
      else SetProduct(s, p, s.db.products[p].(status := Inactive))
    case DeleteProduct(p) =>
      if exists id | id in s.db.orders :: p in s.db.orders[id].items then s
      else s.(db := s.db.(products := s.db.products - {p}))
    case DeleteAccount(owner) =>
      if exists id | id in s.db.orders ::
           (s.db.orders[id].buyer == owner || s.db.orders[id].seller == owner)
           && s.db.orders[id].status in {Pending, Confirmed, Processing, Shipped}
      then s
      else s.(db := s.db.(products := AccountPulled(s.db.products, owner)))
    case _ => s
  }

  function AccountPulled(products: map<ProductId, Product>, user: UserId): map<ProductId, Product> {
    map p | p in products ::
      if products[p].seller == user && products[p].status == Active
      then Released(products[p]).(status := Inactive) else products[p]
  }

  function CheckoutStep(s: State, buyer: UserId, drafts: seq<Draft>, minutes: nat): State {
    if ValidDrafts(s.db, buyer, drafts) && CanCheckout(s.db, buyer, drafts, s.now) then
      var until := s.now + minutes;
      s.(db := CheckedOut(s.db, buyer, drafts, until),
         window := s.window + map id: int | s.db.nextOrder <= id < s.db.nextOrder + |drafts| :: WindowOf(id, until))
    else s
  }

  function WindowOf(id: OrderId, until: Time): Time { until }

  function BeginSettleStep(s: State, t: TaskId, id: OrderId, fee: real, session: Option<int>): State {
    if t in s.tasks || fee < 0.0 || fee > 100.0 then s
    else if id !in s.db.orders then Reported(s, id, RejectedNow)
    else if s.db.orders[id].status == Cancelled then Reported(s, id, RejectedNow)
    else if s.db.orders[id].status != Pending then Reported(s, id, AlreadySettled)
    else Begin(s, t, Settling(id, s.db.orders[id], s.now, fee, session))
  }

  function CommitSettleStep(s: State, t: TaskId): State {
    if t !in s.tasks || !s.tasks[t].Settling? then s
    else
      var task := s.tasks[t];
      if CanSettle(s.db, task.order, task.snapshot, task.at) then
        SettledState(End(s, t), task.order, task.snapshot.items, task.at, task.fee, task.session)
      else s.(tasks := s.tasks[t := Refused(task.order)])
  }

  /** The committed settlement: items sold to this order, order confirmed, outcome reported. */
  function SettledState(s: State, id: OrderId, items: seq<ProductId>, at: Time, fee: real, session: Option<int>): State
    requires id in s.db.orders
  {
    Reported(s.(db := SettledDb(s.db, id, items, at, fee, session),
                soldTo := s.soldTo + map p | p in items :: id), id, ConfirmedNow)
  }

  function RereadReport(db: Db, id: OrderId): Report {
    if id in db.orders && db.orders[id].status !in {Pending, Cancelled} then AlreadySettled else RejectedNow
  }

  function RereadStep(s: State, t: TaskId): State {
    if t !in s.tasks || !s.tasks[t].Refused? then s
    else Reported(End(s, t), s.tasks[t].order, RereadReport(s.db, s.tasks[t].order))
  }

  /** The re-read of a refused settlement, with the cancellation of a rejected order right behind it. */
  function RejectStep(s: State, t: TaskId): State {
    if t !in s.tasks || !s.tasks[t].Refused? then s
    else
      var id := s.tasks[t].order;
      var reread := RereadStep(s, t);
      if RereadReport(s.db, id) == RejectedNow then reread.(db := PendingCancelled(s.db, [id], s.now)) else reread
  }

  function TickStep(s: State): State {
    s.(now := s.now + 1)
  }

  function FindUnpaidStep(s: State, t: TaskId, ids: seq<OrderId>): State {
    Begin(s, t, FoundUnpaid(FindPending(s.db, ids)))
  }

  function CancelAtOnceStep(s: State, ids: seq<OrderId>): State {
    s.(db := PendingCancelled(s.db, ids, s.now))
  }

  function CancelUnpaidStep(s: State, t: TaskId): State {
    if t !in s.tasks || !s.tasks[t].FoundUnpaid? then s
    else
      s.(db := s.db.(orders := CancelFound(s.db.orders, s.tasks[t].found.Keys, s.now)),
         tasks := s.tasks[t := ReleasingHolds(s.tasks[t].found)])
  }

  function ReleaseStep(s: State, t: TaskId, id: OrderId): State {
    if t !in s.tasks || !s.tasks[t].ReleasingHolds? || id !in s.tasks[t].found then s
    else
      var row := s.tasks[t].found[id];
      s.(db := s.db.(products := ReleaseFor(s.db.products, row.items, row.buyer)),
         tasks := s.tasks[t := ReleasingHolds(s.tasks[t].found - {id})])
  }

  function ClaimStep(s: State, t: TaskId): State {
    if t !in s.tasks || !s.tasks[t].Cancelling? then s
    else
      var task := s.tasks[t];
      if task.order !in s.db.orders || s.db.orders[task.order].status != task.snapshot.status then End(s, t)
      else
        var before := s.db.orders[task.order];
        SetOrder(s, task.order, Claimed(before, task.to, task.cancellation))
          .(tasks := s.tasks[t := AfterClaim(task, before)])
  }

  function AfterClaim(task: Task, before: Order): Task
    requires task.Cancelling?
  {
    if task.snapshot.status == Pending then ReleasingHolds(map[task.order := task.snapshot])
    else if task.funding == ByCard then Refunding(task.order, task.snapshot, task.to, before)
    else Relisting(task.order, task.snapshot, task.to, before)
  }

  /** Cancelling an unpaid order by hand, with the release of its holds right behind the claim. */
  function ClaimUnpaidStep(s: State, t: TaskId): State {
    if t in s.tasks && s.tasks[t].Cancelling? && s.tasks[t].snapshot.status == Pending
    then End(ReleaseStep(ClaimStep(s, t), t, s.tasks[t].order), t)
    else s
  }

  function RefundSucceedsStep(s: State, t: TaskId): State {
    if t !in s.tasks || !s.tasks[t].Refunding? then s
    else
      var task := s.tasks[t];
      s.(tasks := s.tasks[t := Relisting(task.order, task.snapshot, task.to, task.before)])
  }

  function RefundFailsStep(s: State, t: TaskId): State {
    if t !in s.tasks || !s.tasks[t].Refunding? || s.tasks[t].order !in s.db.orders then s
    else
      var task := s.tasks[t];
      SetOrder(End(s, t), task.order, Restored(s.db.orders[task.order], task.snapshot.status))
  }

  function RelistStep(s: State, t: TaskId): State {
    if t !in s.tasks || !s.tasks[t].Relisting? then s
    else
      var task := s.tasks[t];
      if Relistable(task.snapshot.status)
      then End(s, t).(db := s.db.(products := RelistAll(s.db.products, task.snapshot.items)))
      else End(s, t)
  }

  function AdvanceStep(s: State, t: TaskId): State {
    if t !in s.tasks || !s.tasks[t].Advancing? then s
    else
      var task := s.tasks[t];
      if task.order in s.db.orders && s.db.orders[task.order].status == task.from
      then SetOrder(End(s, t), task.order, Advanced(s.db.orders[task.order], task.to, s.now))
      else End(s, t)
  }

  function InsertReturnStep(s: State, t: TaskId): State {
    if t !in s.tasks || !s.tasks[t].ReturnAllowed? then s
    else if s.tasks[t].key in s.db.returnRequests then End(s, t)
    else SetReturn(End(s, t), s.tasks[t].key, ReturnRequest(Requested, None, None))
  }

  function SetReturn(s: State, key: ItemKey, row: ReturnRequest): State {
    s.(db := s.db.(returnRequests := s.db.returnRequests[key := row]))
  }

  /** What an update that read the return like this gives back. */
  function RefundOf(task: Task, made: MoneyBack): Option<MoneyBack>
    requires task.ReturnRead?
  {
    if task.newStatus == Completed && task.refundedAt.None? then Some(made) else None
  }

  /** `made` is what the payment answered, whatever that is; a refund that was on record is not taken off again. */
  function WriteReturnStep(s: State, t: TaskId, given: Option<real>, made: MoneyBack): State {
    if t !in s.tasks || !s.tasks[t].ReturnRead? || s.tasks[t].key !in s.db.returnRequests || made.usd < 0.0 then s
    else
      var task := s.tasks[t];
      var refund := RefundOf(task, made);
      SetReturn(s, task.key, UpdatedReturn(s.db.returnRequests[task.key], task.newStatus, refund, given, s.now))
        .(tasks := s.tasks[t := ReturnWritten(task.key.order,
                                              if refund.Some? && !made.already then Some(made.usd) else None)])
  }

  function ReadEarningsStep(s: State, t: TaskId): State {
    if t !in s.tasks || !s.tasks[t].ReturnWritten? then s
    else
      var task := s.tasks[t];
      if task.refund.Some? && task.refund.value != 0.0 && task.order in s.db.orders
         && s.db.orders[task.order].sellerNet.Some?
      then
        var o := s.db.orders[task.order];
        var read := EarningsRead(task.order, EarningsAfter(o, task.refund.value), o.sellerNet.value, task.refund.value);
        s.(tasks := s.tasks[t := read])
      else s.(tasks := s.tasks[t := EarningsDone(task.order)])
  }

  function WriteEarningsStep(s: State, t: TaskId): State {
    if t !in s.tasks || !s.tasks[t].EarningsRead? || s.tasks[t].order !in s.db.orders then s
    else
      var task := s.tasks[t];
      SetOrder(s, task.order, s.db.orders[task.order].(sellerNet := Some(task.net)))
        .(tasks := s.tasks[t := EarningsDone(task.order)])
  }

  function ReadFullyReturnedStep(s: State, t: TaskId): State {
    if t !in s.tasks || !s.tasks[t].EarningsDone? then s
    else
      var id := s.tasks[t].order;
      if id in s.db.orders && FullyReturned(s.db, id) && s.db.orders[id].status != Refunded
      then s.(tasks := s.tasks[t := MarkingRefunded(id)])
      else End(s, t)
  }

  function MarkRefundedStep(s: State, t: TaskId): State {
    if t !in s.tasks || !s.tasks[t].MarkingRefunded? || s.tasks[t].order !in s.db.orders then s
    else SetOrder(End(s, t), s.tasks[t].order, s.db.orders[s.tasks[t].order].(status := Refunded))
  }

  function OpenOrdersOf(db: Db, buyer: UserId, ids: seq<ProductId>): set<OrderId> {
    set id | id in db.orders && db.orders[id].buyer == buyer && db.orders[id].status == Pending
             && exists p | p in ids :: p in db.orders[id].items
  }

  function OpenCheckouts(db: Db, buyer: UserId, ids: seq<ProductId>): map<OrderId, Order> {
    map id | id in db.orders && id in OpenOrdersOf(db, buyer, ids) :: db.orders[id]
  }

  /** `replaceOpenCheckouts`: every open order of the buyer for one of these products is cancelled. */
  function OpenCheckoutsReplaced(db: Db, buyer: UserId, ids: seq<ProductId>, now: Time): Db {
    db.(products := ReleaseFound(db.products, OpenCheckouts(db, buyer, ids)),
        orders := CancelFound(db.orders, OpenOrdersOf(db, buyer, ids), now))
  }

  function ReplaceAndCheckoutStep(s: State, buyer: UserId, drafts: seq<Draft>, minutes: nat): State {
    CheckoutStep(s.(db := OpenCheckoutsReplaced(s.db, buyer, AllItems(drafts), s.now)), buyer, drafts, minutes)
  }

  function BeginCancelStep(s: State, t: TaskId, id: OrderId, actor: Actor, user: Option<UserId>, to: OrderStatus,
                           funding: Funding): State
  {
    if id in s.db.orders && Terminal(to) && MayMove(actor, s.db.orders[id].status, to)
       && (funding == Financed ==> actor == Admin)
    then Begin(s, t, Cancelling(id, s.db.orders[id], to, Cancellation(s.now, user, actor), funding))
    else s
  }

  function BeginAdvanceStep(s: State, t: TaskId, id: OrderId, actor: Actor, to: OrderStatus): State {
    if id in s.db.orders && !Terminal(to) && MayMove(actor, s.db.orders[id].status, to)
    then Begin(s, t, Advancing(id, s.db.orders[id].status, to))
    else s
  }

  function BeginReturnStep(s: State, t: TaskId, key: ItemKey): State {
    if key.order in s.db.orders && key.index < |s.db.orders[key.order].items|
       && s.db.orders[key.order].status == Delivered && key !in s.db.returnRequests
    then Begin(s, t, ReturnAllowed(key))
    else s
  }

  function ReadReturnStep(s: State, t: TaskId, key: ItemKey, newStatus: ReturnStatus): State {
    if key in s.db.returnRequests && newStatus in ReturnTransitions(s.db.returnRequests[key].status)
    then Begin(s, t, ReturnRead(key, newStatus, s.db.returnRequests[key].refundedAt))
    else s
  }

  function ReturnStep(s: State, a: Action): State {
    match a
    case BeginReturn(t, key) => BeginReturnStep(s, t, key)
    case InsertReturn(t) => InsertReturnStep(s, t)
    case ReadReturn(t, key, newStatus) => ReadReturnStep(s, t, key, newStatus)
    case WriteReturn(t, given, made) => WriteReturnStep(s, t, given, made)
    case ReadEarnings(t) => ReadEarningsStep(s, t)
    case WriteEarnings(t) => WriteEarningsStep(s, t)
    case ReadFullyReturned(t) => ReadFullyReturnedStep(s, t)
    case MarkRefunded(t) => MarkRefundedStep(s, t)
    case _ => ProductStep(s, a)
  }

  function FulfilmentStep(s: State, a: Action): State {
    match a
    case BeginCancel(t, id, actor, user, to, funding) => BeginCancelStep(s, t, id, actor, user, to, funding)
    case Claim(t) => ClaimStep(s, t)
    case RefundSucceeds(t) => RefundSucceedsStep(s, t)
    case RefundFails(t) => RefundFailsStep(s, t)
    case Relist(t) => RelistStep(s, t)
    case BeginAdvance(t, id, actor, to) => BeginAdvanceStep(s, t, id, actor, to)
    case Advance(t) => AdvanceStep(s, t)
    case _ => ReturnStep(s, a)
  }

  function UnpaidStep(s: State, a: Action): State {
    match a
    case FindUnpaid(t, ids) => FindUnpaidStep(s, t, ids)
    case CancelUnpaid(t) => CancelUnpaidStep(s, t)
    case ReleaseHolds(t, id) => ReleaseStep(s, t, id)
    case CancelUnpaidAtOnce(ids) => CancelAtOnceStep(s, ids)
    case ClaimUnpaidAtOnce(t) => ClaimUnpaidStep(s, t)
    case Abandon(t) => End(s, t)
    case _ => FulfilmentStep(s, a)
  }

  function Step(s: State, a: Action): State {
    match a
    case Tick => TickStep(s)
    case OpenOrders(buyer, drafts, minutes) => CheckoutStep(s, buyer, drafts, minutes)
    case CheckoutAtOnce(buyer, drafts, minutes) => ReplaceAndCheckoutStep(s, buyer, drafts, minutes)
    case BeginSettle(t, id, fee, session) => BeginSettleStep(s, t, id, fee, session)
    case CommitSettle(t) => CommitSettleStep(s, t)
    case Reread(t) => RereadStep(s, t)
    case RejectAtOnce(t) => RejectStep(s, t)
    case _ => UnpaidStep(s, a)
  }

  function Run(s: State, actions: seq<Action>): State
    decreases |actions|
  {
    if actions == [] then s else Step(Run(s, actions[..|actions| - 1]), actions[|actions| - 1])
  }

  function Initial(now: Time): State {
    State(Db(map[], map[], 1, map[]), now, map[], [], map[], map[])
  }
}
