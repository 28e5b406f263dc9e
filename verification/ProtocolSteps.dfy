/** Every action of the protocol keeps the invariant, and only moves existing orders forward. */
module ProtocolSteps {
  import opened Wrappers
  import opened Money
  import opened SellerFees
  import opened Domain
  import opened OrderSteps
  import opened Protocol
  import opened ProtocolInvariant

  lemma TickKeeps(s: State)
    requires Inv(s)
    ensures Inv(TickStep(s))
  {
    var s' := TickStep(s);
    assert forall x :: x in s.db.orders ==> Untouched(s, s', x);
    forall x | x in s.db.orders
      ensures OrderOk(s.db.orders[x], s'.now)
    {
      LaterOk(s.db.orders[x], s.now, s'.now);
    }
    hide OrderOk, Owns, TaskOk;
    forall t | t in s'.tasks && Holding(s'.tasks[t])
      ensures s'.tasks[t].order in s.db.orders
    {
      HolderKnown(s, t);
    }
    TasksCarryOver(s, s');
    OrdersCarryOver(s, s');
  }

  // ----- Checkout -----

  lemma CheckoutKeeps(s: State, buyer: UserId, drafts: seq<Draft>, minutes: nat)
    requires Inv(s)
    ensures Inv(CheckoutStep(s, buyer, drafts, minutes))
    ensures Evolves(s.db, CheckoutStep(s, buyer, drafts, minutes).db)
  {
    hide OrderOk, Owns, TasksOk, HoldersDistinct, ReturnsOk, ReportsOk, ValidDrafts, AllItems, WithDrafts;
    var s' := CheckoutStep(s, buyer, drafts, minutes);
    if ValidDrafts(s.db, buyer, drafts) && CanCheckout(s.db, buyer, drafts, s.now) {
      var held := HoldAll(s.db.products, AllItems(drafts), buyer, s.now + minutes);
      var s1 := s.(db := s.db.(products := held));
      assert KeepsSold(s.db, held);
      hide Inv, KeepsSold;
      ProductsOnly(s, held);
      OpenedKeeps(s1, buyer, drafts, s'.window);
    }
  }

  lemma OpenedKeeps(s: State, buyer: UserId, drafts: seq<Draft>, window: map<OrderId, Time>)
    requires Inv(s)
    requires forall p :: p in AllItems(drafts) ==> p in s.db.products
    ensures var orders := WithDrafts(s.db.orders, s.db.nextOrder, buyer, drafts);
            var s' := s.(db := s.db.(orders := orders, nextOrder := s.db.nextOrder + |drafts|), window := window);
            Inv(s') && Evolves(s.db, s'.db)
  {
    hide WithDrafts, AllItems, TasksOk, HoldersDistinct, OrdersOk, ReturnsOk, ReportsOk, OnlyOpens, Evolves;
    var orders := WithDrafts(s.db.orders, s.db.nextOrder, buyer, drafts);
    var s' := s.(db := s.db.(orders := orders, nextOrder := s.db.nextOrder + |drafts|), window := window);
    RowsOnlyOpen(s, buyer, drafts, window);
    OldOrdersKeepOwners(s, s');
    OldOrdersKeepTasks(s, s');
    OldOrdersKeepRest(s, s');
  }

  /** The orders that were there stay as they are; any others are new and unpaid. */
  ghost predicate OnlyOpens(s: State, s': State) {
    && s'.tasks == s.tasks && s'.now == s.now && s'.soldTo == s.soldTo && s'.outcomes == s.outcomes
    && s'.db.products == s.db.products && s'.db.returnRequests == s.db.returnRequests
    && 0 < s.db.nextOrder <= s'.db.nextOrder
    && (forall id :: id in s.db.orders ==> id in s'.db.orders && s'.db.orders[id] == s.db.orders[id])
    && (forall id :: id in s'.db.orders ==>
          && 0 < id < s'.db.nextOrder
          && OrderOk(s'.db.orders[id], s.now)
          && (forall p :: p in s'.db.orders[id].items ==> p in s.db.products)
          && (id !in s.db.orders ==> s'.db.orders[id].status == Pending && s'.db.orders[id].confirmedAt.None?))
  }

  lemma OldOrdersKeepOwners(s: State, s': State)
    requires OrdersOk(s) && OnlyOpens(s, s')
    ensures OrdersOk(s') && Evolves(s.db, s'.db) && 0 < s'.db.nextOrder
  {
    hide OrderOk;
    forall id | id in s'.db.orders && Live(s'.db.orders[id].status)
      ensures Owns(s', id)
    {
      assert Owns(s, id);
    }
  }

  /** Tasks only look at orders that were there before. */
  lemma OldOrdersKeepTasks(s: State, s': State)
    requires TasksOk(s) && HoldersDistinct(s) && OnlyOpens(s, s')
    ensures TasksOk(s') && HoldersDistinct(s')
  {
    hide OrderOk;
    forall t | t in s.tasks
      ensures TaskOk(s', s.tasks[t])
    {
      assert TaskOk(s, s.tasks[t]);
    }
  }

  lemma OldOrdersKeepRest(s: State, s': State)
    requires ReturnsOk(s) && ReportsOk(s) && OnlyOpens(s, s')
    ensures ReturnsOk(s') && ReportsOk(s')
  {
    hide OrderOk;
  }

  lemma RowsOnlyOpen(s: State, buyer: UserId, drafts: seq<Draft>, window: map<OrderId, Time>)
    requires Inv(s)
    requires forall p :: p in AllItems(drafts) ==> p in s.db.products
    ensures var orders := WithDrafts(s.db.orders, s.db.nextOrder, buyer, drafts);
            OnlyOpens(s, s.(db := s.db.(orders := orders, nextOrder := s.db.nextOrder + |drafts|), window := window))
  {
    hide OrderOk, WithDrafts, AllItems, TasksOk, HoldersDistinct, OrdersOk, ReturnsOk, ReportsOk;
    OpenedRows(s, buyer, drafts);
  }

  lemma OpenedRows(s: State, buyer: UserId, drafts: seq<Draft>)
    requires OrdersOk(s) && 0 < s.db.nextOrder
    requires forall p :: p in AllItems(drafts) ==> p in s.db.products
    ensures var orders := WithDrafts(s.db.orders, s.db.nextOrder, buyer, drafts);
            && s.db.orders.Keys <= orders.Keys
            && forall id :: id in orders ==>
                 && 0 < id < s.db.nextOrder + |drafts|
                 && OrderOk(orders[id], s.now)
                 && (forall p :: p in orders[id].items ==> p in s.db.products)
                 && (id in s.db.orders ==> orders[id] == s.db.orders[id])
                 && (id !in s.db.orders ==> orders[id].status == Pending && orders[id].confirmedAt.None?)
  {
    hide OrderOk, Owns, AllItems, WithDrafts, Opened;
    var orders := WithDrafts(s.db.orders, s.db.nextOrder, buyer, drafts);
    forall id | id in orders
      ensures id in s.db.orders || s.db.nextOrder <= id < s.db.nextOrder + |drafts|
      ensures id in s.db.orders ==> orders[id] == s.db.orders[id]
      ensures id !in s.db.orders ==> OrderOk(orders[id], s.now) && orders[id].status == Pending
      ensures id !in s.db.orders ==> orders[id].confirmedAt.None?
      ensures forall p :: p in orders[id].items ==> p in s.db.products
    {
      OpenedRow(s, buyer, drafts, id);
    }
    OldRowsStay(s, buyer, drafts);
  }

  lemma OldRowsStay(s: State, buyer: UserId, drafts: seq<Draft>)
    ensures s.db.orders.Keys <= WithDrafts(s.db.orders, s.db.nextOrder, buyer, drafts).Keys
  {
  }

  lemma OpenedRow(s: State, buyer: UserId, drafts: seq<Draft>, id: OrderId)
    requires OrdersOk(s) && 0 < s.db.nextOrder
    requires forall p :: p in AllItems(drafts) ==> p in s.db.products
    requires id in WithDrafts(s.db.orders, s.db.nextOrder, buyer, drafts)
    ensures var row := WithDrafts(s.db.orders, s.db.nextOrder, buyer, drafts)[id];
            && (forall p :: p in row.items ==> p in s.db.products)
            && if id in s.db.orders then row == s.db.orders[id]
               else s.db.nextOrder <= id < s.db.nextOrder + |drafts|
                    && OrderOk(row, s.now) && row.status == Pending && row.confirmedAt.None?
  {
    hide OrderOk, Owns, AllItems, WithDrafts, Opened;
    WithDraftsAt(s.db.orders, s.db.nextOrder, buyer, drafts, id);
    if id in s.db.orders {
    } else {
      NewRowOk(buyer, drafts[id - s.db.nextOrder], s.now);
      DraftItems(drafts, id - s.db.nextOrder);
    }
  }

  lemma WithDraftsAt(orders: map<OrderId, Order>, next: OrderId, buyer: UserId, drafts: seq<Draft>, id: OrderId)
    requires forall x :: x in orders ==> x < next
    requires id in WithDrafts(orders, next, buyer, drafts)
    ensures var row := WithDrafts(orders, next, buyer, drafts)[id];
            if id in orders then row == orders[id]
            else next <= id < next + |drafts| && row == Opened(buyer, drafts[id - next])
  {
    hide Opened;
    if id !in orders {
      assert WithDrafts(orders, next, buyer, drafts)[id] == DraftRow(buyer, drafts, next, id);
    }
  }

  lemma NewRowOk(buyer: UserId, d: Draft, now: Time)
    ensures OrderOk(Opened(buyer, d), now) && Opened(buyer, d).items == d.items
    ensures Opened(buyer, d).status == Pending && Opened(buyer, d).confirmedAt.None?
  {
  }

  lemma DraftItems(drafts: seq<Draft>, i: nat)
    requires i < |drafts|
    ensures forall p :: p in drafts[i].items ==> p in AllItems(drafts)
  {
  }

  // ----- Settlement -----

  lemma BeginSettleKeeps(s: State, t: TaskId, id: OrderId, fee: real, session: Option<int>)
    requires Inv(s)
    ensures Inv(BeginSettleStep(s, t, id, fee, session))
    ensures BeginSettleStep(s, t, id, fee, session).db == s.db
  {
    if t !in s.tasks && 0.0 <= fee <= 100.0 {
      if id in s.db.orders && s.db.orders[id].status == Pending {
        PutKeeps(s, t, Settling(id, s.db.orders[id], s.now, fee, session));
      } else {
        ReportKeeps(s, id, RejectedNow);
        ReportKeeps(s, id, AlreadySettled);
      }
    }
  }

  lemma SettledRowOk(o: Order, now: Time, at: Time, fee: real, session: Option<int>)
    requires OrderOk(o, now) && o.status == Pending && at <= now && Percentage(fee)
    ensures OrderOk(Settled(o, at, fee, session), now) && o.confirmedAt.None? && o.feePercent.None?
  {
  }

  lemma CancelledRowOk(o: Order, now: Time, c: Cancellation)
    requires OrderOk(o, now) && o.status == Pending && c.actor != Seller
    ensures OrderOk(Claimed(o, Cancelled, c), now)
  {
  }

  lemma OneMoreReport(s: State, id: OrderId, s': State)
    requires ReportsOk(s) && id in s.db.orders && s.db.orders[id].confirmedAt.None?
    requires EverConfirmed(s'.db, id)
    requires forall x :: x != id ==> (EverConfirmed(s'.db, x) <==> EverConfirmed(s.db, x))
    requires s'.outcomes == s.outcomes + [Outcome(id, ConfirmedNow)]
    ensures ReportsOk(s')
  {
    assert s'.outcomes[..|s.outcomes|] == s.outcomes;
    forall x
      ensures ConfirmedReports(s'.outcomes, x) == ConfirmedReports(s.outcomes, x) + if x == id then 1 else 0
    {
    }
  }

  /** The order's items were for sale, so nobody else owned them; now the order does. */
  lemma CommitKeeps(s: State, id: OrderId, at: Time, fee: real, session: Option<int>)
    requires Inv(s) && id in s.db.orders && s.db.orders[id].status == Pending
    requires at <= s.now && Percentage(fee)
    requires AllAvailable(s.db.products, s.db.orders[id].items, s.db.orders[id].buyer, at)
    ensures var items := s.db.orders[id].items;
            var s' := SettledState(s, id, items, at, fee, session);
            Inv(s') && Evolves(s.db, s'.db)
  {
    hide OrderOk, ReportsOk, TaskOk;
    var items := s.db.orders[id].items;
    var s' := SettledState(s, id, items, at, fee, session);
    SettledRowOk(s.db.orders[id], s.now, at, fee, session);
    CommitOwners(s, id, at, fee, session);
    hide Owns;
    HeldOrderIsTerminal(s, id);
    forall t | t in s'.tasks && Holding(s'.tasks[t])
      ensures s'.tasks[t].order in s.db.orders
    {
      HolderKnown(s, t);
    }
    TasksCarryOver(s, s');
    OrdersCarryOver(s, s');
    OneMoreReport(s, id, s');
  }

  lemma CommitOwners(s: State, id: OrderId, at: Time, fee: real, session: Option<int>)
    requires id in s.db.orders
    requires AllAvailable(s.db.products, s.db.orders[id].items, s.db.orders[id].buyer, at)
    ensures var s' := SettledState(s, id, s.db.orders[id].items, at, fee, session);
            && Owns(s', id)
            && forall x :: x in s.db.orders && x != id ==> Untouched(s, s', x)
  {
    hide SettlementNet;
  }

  lemma CommitSettleKeeps(s: State, t: TaskId)
    requires Inv(s)
    ensures Inv(CommitSettleStep(s, t)) && Evolves(s.db, CommitSettleStep(s, t).db)
  {
    hide OrderOk, SettledState, HoldersDistinct, ReturnsOk, ReportsOk;
    if t in s.tasks && s.tasks[t].Settling? {
      var task := s.tasks[t];
      assert TaskOk(s, task);
      if CanSettle(s.db, task.order, task.snapshot, task.at) {
        EndKeeps(s, t);
        CommitKeeps(End(s, t), task.order, task.at, task.fee, task.session);
      } else {
        PutKeeps(s, t, Refused(task.order));
      }
    }
  }

  lemma RereadKeeps(s: State, t: TaskId)
    requires Inv(s)
    ensures Inv(RereadStep(s, t)) && RereadStep(s, t).db == s.db
  {
    hide Inv;
    if t in s.tasks && s.tasks[t].Refused? {
      EndKeeps(s, t);
      ReportKeeps(End(s, t), s.tasks[t].order, RereadReport(s.db, s.tasks[t].order));
    }
  }

  lemma RejectKeeps(s: State, t: TaskId)
    requires Inv(s)
    ensures Inv(RejectStep(s, t)) && Evolves(s.db, RejectStep(s, t).db)
  {
    hide Inv;
    RereadKeeps(s, t);
    if t in s.tasks && s.tasks[t].Refused? {
      CancelAtOnceKeeps(RereadStep(s, t), FindPending(s.db, [s.tasks[t].order]));
    }
  }

  // ----- Cancelling unpaid orders -----

  lemma CancelFoundKeeps(s: State, found: set<OrderId>)
    requires Inv(s)
    ensures var s' := s.(db := s.db.(orders := CancelFound(s.db.orders, found, s.now)));
            Inv(s') && Evolves(s.db, s'.db)
  {
    var s' := s.(db := s.db.(orders := CancelFound(s.db.orders, found, s.now)));
    hide OrderOk, TaskOk;
    forall id | id in s.db.orders
      ensures OrderOk(s'.db.orders[id], s.now)
    {
      if s.db.orders[id].status == Pending {
        CancelledRowOk(s.db.orders[id], s.now, SystemCancellation(s.now));
      }
    }
    assert forall id :: id in s.db.orders && s.db.orders[id].status != Pending ==> Untouched(s, s', id);
    hide Owns;
    forall t | t in s'.tasks && Holding(s'.tasks[t])
      ensures Untouched(s, s', s'.tasks[t].order)
    {
      HolderKnown(s, t);
    }
    TasksCarryOver(s, s');
    OrdersCarryOver(s, s');
    hide Untouched, Holding, CancelFound;
    assert HoldersDistinct(s');
    RestCarriesOver(s, s');
  }

  lemma CancelUnpaidKeeps(s: State, t: TaskId)
    requires Inv(s)
    ensures Inv(CancelUnpaidStep(s, t)) && Evolves(s.db, CancelUnpaidStep(s, t).db)
  {
    hide Inv;
    if t in s.tasks && s.tasks[t].FoundUnpaid? {
      CancelFoundKeeps(s, s.tasks[t].found.Keys);
      PutKeeps(s.(db := CancelUnpaidStep(s, t).db), t, ReleasingHolds(s.tasks[t].found));
    }
  }

  lemma ReleaseKeeps(s: State, t: TaskId, id: OrderId)
    requires Inv(s)
    ensures Inv(ReleaseStep(s, t, id)) && ReleaseStep(s, t, id).db.orders == s.db.orders
  {
    if t in s.tasks && s.tasks[t].ReleasingHolds? && id in s.tasks[t].found {
      var row := s.tasks[t].found[id];
      assert KeepsSold(s.db, ReleaseFor(s.db.products, row.items, row.buyer));
      hide Inv;
      ProductsOnly(s, ReleaseFor(s.db.products, row.items, row.buyer));
      PutKeeps(s.(db := ReleaseStep(s, t, id).db), t, ReleasingHolds(s.tasks[t].found - {id}));
    }
  }

  /** The find, update and release statements with nothing in between. */
  lemma CancelAtOnceKeeps(s: State, found: map<OrderId, Order>)
    requires Inv(s)
    ensures var db := s.db.(products := ReleaseFound(s.db.products, found),
                            orders := CancelFound(s.db.orders, found.Keys, s.now));
            Inv(s.(db := db)) && Evolves(s.db, db)
  {
    CancelFoundKeeps(s, found.Keys);
    var s1 := s.(db := s.db.(orders := CancelFound(s.db.orders, found.Keys, s.now)));
    assert KeepsSold(s1.db, ReleaseFound(s1.db.products, found));
    ProductsOnly(s1, ReleaseFound(s1.db.products, found));
  }

  // ----- Cancellation with refund -----

  lemma ClaimedRowOk(o: Order, now: Time, to: OrderStatus, c: Cancellation)
    requires OrderOk(o, now) && !Terminal(o.status) && Terminal(to)
    requires MayMove(c.actor, o.status, to) && (o.status == Delivered ==> to == Refunded)
    requires o.status == Pending ==> to == Cancelled
    ensures OrderOk(Claimed(o, to, c), now)
    ensures Restored(Claimed(o, to, c), o.status) == o
  {
  }

  lemma ClaimKeeps(s: State, t: TaskId)
    requires Inv(s)
    ensures Inv(ClaimStep(s, t)) && Evolves(s.db, ClaimStep(s, t).db)
  {
    hide OrderOk, Owns, HoldersDistinct, ReturnsOk, ReportsOk;
    EndKeeps(s, t);
    if t in s.tasks && s.tasks[t].Cancelling? {
      var task := s.tasks[t];
      assert TaskOk(s, task);
      if s.db.orders[task.order].status == task.snapshot.status {
        ClaimedKeeps(End(s, t), t, task);
        var before := s.db.orders[task.order];
        assert End(s, t).tasks[t := AfterClaim(task, before)] == s.tasks[t := AfterClaim(task, before)];
      }
    }
  }

  lemma ClaimedKeeps(s: State, t: TaskId, task: Task)
    requires Inv(s) && t !in s.tasks && task.Cancelling? && TaskOk(s, task)
    requires s.db.orders[task.order].status == task.snapshot.status
    ensures var before := s.db.orders[task.order];
            var s1 := SetOrder(s, task.order, Claimed(before, task.to, task.cancellation));
            Inv(s1.(tasks := s1.tasks[t := AfterClaim(task, before)])) && Evolves(s.db, s1.db)
  {
    hide OrderOk, TasksOk, HoldersDistinct, ReturnsOk, ReportsOk;
    var before := s.db.orders[task.order];
    var row := Claimed(before, task.to, task.cancellation);
    var s1 := SetOrder(s, task.order, row);
    ClaimedRowOk(before, s.now, task.to, task.cancellation);
    HeldOrderIsTerminal(s, task.order);
    assert Live(before.status) ==> Owns(s, task.order) && Owns(s1, task.order);
    hide Owns;
    OrderKeeps(s, task.order, row);
    assert TaskOk(s1, AfterClaim(task, before));
    hide Inv;
    PutKeeps(s1, t, AfterClaim(task, before));
  }

  lemma RefundSucceedsKeeps(s: State, t: TaskId)
    requires Inv(s)
    ensures Inv(RefundSucceedsStep(s, t)) && RefundSucceedsStep(s, t).db == s.db
  {
    if t in s.tasks && s.tasks[t].Refunding? {
      var task := s.tasks[t];
      assert TaskOk(s, task);
      hide OrderOk;
      PutKeeps(s, t, Relisting(task.order, task.snapshot, task.to, task.before));
    }
  }

  lemma RestoredRowOk(o: Order, before: Order, now: Time)
    requires OrderOk(o, now) && OrderOk(before, now) && Live(before.status) && Terminal(o.status)
    requires SameButNet(Restored(o, before.status), before)
    ensures OrderOk(Restored(o, before.status), now) && RowEvolves(o, Restored(o, before.status))
  {
    hide SellerShare;
  }

  /** A failed refund puts back the row that was claimed, except for what the seller nets. */
  lemma RefundFailsKeeps(s: State, t: TaskId)
    requires Inv(s)
    ensures Inv(RefundFailsStep(s, t)) && Evolves(s.db, RefundFailsStep(s, t).db)
    ensures t in s.tasks && s.tasks[t].Refunding? ==>
              var task := s.tasks[t];
              && task.order in s.db.orders
              && var row := Restored(s.db.orders[task.order], task.before.status);
                 SameButNet(row, task.before) && RefundFailsStep(s, t) == SetOrder(End(s, t), task.order, row)
  {
    EndKeeps(s, t);
    if t in s.tasks && s.tasks[t].Refunding? {
      var task := s.tasks[t];
      HolderKnown(s, t);
      hide OrderOk;
      RestoredRowOk(s.db.orders[task.order], task.before, s.now);
      OrderKeeps(End(s, t), task.order, Restored(s.db.orders[task.order], task.before.status));
    }
  }

  lemma RelistKeeps(s: State, t: TaskId)
    requires Inv(s)
    ensures Inv(RelistStep(s, t)) && RelistStep(s, t).db.orders == s.db.orders
  {
    EndKeeps(s, t);
    if t in s.tasks && s.tasks[t].Relisting? && Relistable(s.tasks[t].snapshot.status) {
      var task := s.tasks[t];
      HolderKnown(s, t);
      hide OrderOk, TaskOk;
      var s' := RelistStep(s, t);
      RelistOwners(s, task.order, task.snapshot.items, s');
      hide Owns;
      forall u | u in s'.tasks && Holding(s'.tasks[u])
        ensures Untouched(s, s', s'.tasks[u].order)
      {
        HolderKnown(s, u);
      }
      TasksCarryOver(s, s');
      OrdersCarryOver(s, s');
    }
  }

  /** Giving up the items of one order touches no other owner. */
  lemma RelistOwners(s: State, id: OrderId, items: seq<ProductId>, s': State)
    requires id in s.db.orders && Owns(s, id) && items == s.db.orders[id].items
    requires s'.db.orders == s.db.orders && s'.soldTo == s.soldTo
    requires s'.db.products == RelistAll(s.db.products, items)
    ensures forall x :: x in s.db.orders && x != id ==> Untouched(s, s', x)
  {
  }

  // ----- Fulfilment -----

  lemma AdvancedRowOk(o: Order, now: Time, to: OrderStatus)
    requires OrderOk(o, now) && Live(o.status) && Live(to) && Rank(o.status) < Rank(to)
    ensures OrderOk(Advanced(o, to, now), now)
  {
  }

  lemma AdvanceKeeps(s: State, t: TaskId)
    requires Inv(s)
    ensures Inv(AdvanceStep(s, t)) && Evolves(s.db, AdvanceStep(s, t).db)
  {
    EndKeeps(s, t);
    if t in s.tasks && s.tasks[t].Advancing? {
      var task := s.tasks[t];
      assert TaskOk(s, task);
      if s.db.orders[task.order].status == task.from {
        hide OrderOk;
        HeldOrderIsTerminal(End(s, t), task.order);
        assert Owns(s, task.order);
        AdvancedRowOk(s.db.orders[task.order], s.now, task.to);
        OrderKeeps(End(s, t), task.order, Advanced(s.db.orders[task.order], task.to, s.now));
      }
    }
  }

  // ----- Returns -----

  lemma ReturnKeeps(s: State, key: ItemKey, row: ReturnRequest)
    requires Inv(s) && WasDelivered(s, key.order) && key.index < |s.db.orders[key.order].items|
    ensures Inv(SetReturn(s, key, row))
  {
    var s' := SetReturn(s, key, row);
    assert forall x :: x in s.db.orders ==> Untouched(s, s', x);
    hide OrderOk, Owns, TaskOk, ReportsOk;
    forall t | t in s'.tasks && Holding(s'.tasks[t])
      ensures s'.tasks[t].order in s.db.orders
    {
      HolderKnown(s, t);
    }
    TasksCarryOver(s, s');
    OrdersCarryOver(s, s');
    hide OrdersOk, TasksOk, Untouched;
    assert HoldersDistinct(s') && ReturnsOk(s');
    assert ReportsOk(s') by { SameReports(s, s'); }
  }

  lemma SameReports(s: State, s': State)
    requires ReportsOk(s) && s'.outcomes == s.outcomes && s'.db.orders == s.db.orders
    ensures ReportsOk(s')
  {
  }

  lemma InsertReturnKeeps(s: State, t: TaskId)
    requires Inv(s)
    ensures Inv(InsertReturnStep(s, t)) && InsertReturnStep(s, t).db.orders == s.db.orders
  {
    EndKeeps(s, t);
    if t in s.tasks && s.tasks[t].ReturnAllowed? {
      assert TaskOk(s, s.tasks[t]);
      hide Inv;
      ReturnKeeps(End(s, t), s.tasks[t].key, ReturnRequest(Requested, None, None));
    }
  }

  lemma WriteReturnKeeps(s: State, t: TaskId, given: Option<real>, made: MoneyBack)
    requires Inv(s)
    ensures Inv(WriteReturnStep(s, t, given, made))
    ensures WriteReturnStep(s, t, given, made).db.orders == s.db.orders
  {
    if t in s.tasks && s.tasks[t].ReturnRead? && s.tasks[t].key in s.db.returnRequests && 0.0 <= made.usd {
      var key := s.tasks[t].key;
      var s' := WriteReturnStep(s, t, given, made);
      var row := s'.db.returnRequests[key];
      assert WasDelivered(s, key.order);
      ReturnKeeps(s, key, row);
      hide Inv;
      PutKeeps(SetReturn(s, key, row), t, s'.tasks[t]);
    }
  }

  lemma EarningsWithin(o: Order, refund: real)
    requires Paid(o) && 0.0 <= refund
    ensures SellerShare(EarningsAfter(o, refund), o.total, o.feePercent.value)
  {
    hide Kept, SettlementNet;
    KeptShare(refund, o.feePercent.value);
    RoundAtMost(o.sellerNet.value as real - Kept(refund, o.feePercent.value), o.sellerNet.value);
  }

  lemma ReadEarningsKeeps(s: State, t: TaskId)
    requires Inv(s)
    ensures Inv(ReadEarningsStep(s, t)) && ReadEarningsStep(s, t).db == s.db
  {
    if t in s.tasks && s.tasks[t].ReturnWritten? {
      var task := s.tasks[t];
      assert TaskOk(s, task);
      var o := s.db.orders[task.order];
      assert OrderOk(o, s.now);
      if task.refund.Some? {
        EarningsWithin(o, task.refund.value);
      }
      hide Inv, OrderOk;
      PutKeeps(s, t, ReadEarningsStep(s, t).tasks[t]);
    }
  }

  lemma ReducedRowOk(o: Order, now: Time, net: Cents)
    requires OrderOk(o, now) && o.deliveredAt.Some? && o.feePercent.Some?
    requires SellerShare(net, o.total, o.feePercent.value)
    ensures OrderOk(o.(sellerNet := Some(net)), now)
  {
    hide SellerShare;
  }

  /** Reducing what the seller nets disturbs nobody, not even a cancellation that holds the order. */
  lemma NetKeeps(s: State, id: OrderId, net: Cents)
    requires Inv(s) && id in s.db.orders && OrderOk(s.db.orders[id].(sellerNet := Some(net)), s.now)
    ensures var s' := SetOrder(s, id, s.db.orders[id].(sellerNet := Some(net)));
            Inv(s') && Evolves(s.db, s'.db)
  {
    hide OrderOk, TaskOk;
    var s' := SetOrder(s, id, s.db.orders[id].(sellerNet := Some(net)));
    assert forall x :: x in s.db.orders ==> Untouched(s, s', x) && (Owns(s, x) ==> Owns(s', x));
    hide Owns;
    forall u | u in s'.tasks && Holding(s'.tasks[u])
      ensures s'.tasks[u].order in s.db.orders
    {
      HolderKnown(s, u);
    }
    TasksCarryOver(s, s');
    OrdersCarryOver(s, s');
    hide Untouched, Holding;
    assert HoldersDistinct(s');
    RestCarriesOver(s, s');
  }

  lemma WriteEarningsKeeps(s: State, t: TaskId)
    requires Inv(s)
    ensures Inv(WriteEarningsStep(s, t)) && Evolves(s.db, WriteEarningsStep(s, t).db)
  {
    if t in s.tasks && s.tasks[t].EarningsRead? {
      var task := s.tasks[t];
      assert TaskOk(s, task);
      ReducedRowOk(s.db.orders[task.order], s.now, task.net);
      hide Inv, OrderOk;
      NetKeeps(s, task.order, task.net);
      var s1 := SetOrder(s, task.order, s.db.orders[task.order].(sellerNet := Some(task.net)));
      DoneOk(s1, task.order);
      PutKeeps(s1, t, EarningsDone(task.order));
    }
  }

  lemma DoneOk(s: State, id: OrderId)
    requires WasDelivered(s, id)
    ensures TaskOk(s, EarningsDone(id)) && !Holding(EarningsDone(id))
  {
  }

  lemma ReadFullyReturnedKeeps(s: State, t: TaskId)
    requires Inv(s)
    ensures Inv(ReadFullyReturnedStep(s, t)) && ReadFullyReturnedStep(s, t).db == s.db
  {
    EndKeeps(s, t);
    if t in s.tasks && s.tasks[t].EarningsDone? {
      assert TaskOk(s, s.tasks[t]);
      hide Inv;
      PutKeeps(s, t, MarkingRefunded(s.tasks[t].order));
    }
  }

  lemma RefundedRowOk(o: Order, now: Time)
    requires OrderOk(o, now) && o.deliveredAt.Some?
    ensures OrderOk(o.(status := Refunded), now)
    ensures o.status in {Delivered, Refunded}
  {
  }

  lemma MarkRefundedKeeps(s: State, t: TaskId)
    requires Inv(s)
    ensures Inv(MarkRefundedStep(s, t)) && Evolves(s.db, MarkRefundedStep(s, t).db)
  {
    EndKeeps(s, t);
    if t in s.tasks && s.tasks[t].MarkingRefunded? {
      var id := s.tasks[t].order;
      assert TaskOk(s, s.tasks[t]);
      hide OrderOk;
      RefundedRowOk(s.db.orders[id], s.now);
      if s.db.orders[id].status == Refunded {
        assert MarkRefundedStep(s, t) == End(s, t);
      } else {
        HeldOrderIsTerminal(End(s, t), id);
        OrderKeeps(End(s, t), id, s.db.orders[id].(status := Refunded));
      }
    }
  }

  // ----- Tasks that begin -----

  lemma BeginKeeps(s: State, t: TaskId, task: Task)
    requires Inv(s) && TaskOk(s, task) && !Holding(task)
    ensures Inv(Begin(s, t, task))
  {
    hide Inv;
    if t !in s.tasks {
      PutKeeps(s, t, task);
    }
  }

  lemma BeginCancelKeeps(s: State, t: TaskId, id: OrderId, actor: Actor, user: Option<UserId>, to: OrderStatus,
                         funding: Funding)
    requires Inv(s)
    ensures Inv(BeginCancelStep(s, t, id, actor, user, to, funding))
    ensures BeginCancelStep(s, t, id, actor, user, to, funding).db == s.db
  {
    hide Inv;
    if id in s.db.orders && Terminal(to) && MayMove(actor, s.db.orders[id].status, to) {
      BeginKeeps(s, t, Cancelling(id, s.db.orders[id], to, Cancellation(s.now, user, actor), funding));
    }
  }

  lemma BeginAdvanceKeeps(s: State, t: TaskId, id: OrderId, actor: Actor, to: OrderStatus)
    requires Inv(s)
    ensures Inv(BeginAdvanceStep(s, t, id, actor, to)) && BeginAdvanceStep(s, t, id, actor, to).db == s.db
  {
    hide Inv;
    if id in s.db.orders && !Terminal(to) && MayMove(actor, s.db.orders[id].status, to) {
      BeginKeeps(s, t, Advancing(id, s.db.orders[id].status, to));
    }
  }

  lemma BeginReturnKeeps(s: State, t: TaskId, key: ItemKey)
    requires Inv(s)
    ensures Inv(BeginReturnStep(s, t, key)) && BeginReturnStep(s, t, key).db == s.db
  {
    if BeginReturnStep(s, t, key) != s {
      assert OrderOk(s.db.orders[key.order], s.now);
      hide Inv;
      BeginKeeps(s, t, ReturnAllowed(key));
    }
  }

  lemma ReadReturnKeeps(s: State, t: TaskId, key: ItemKey, newStatus: ReturnStatus)
    requires Inv(s)
    ensures Inv(ReadReturnStep(s, t, key, newStatus)) && ReadReturnStep(s, t, key, newStatus).db == s.db
  {
    hide Inv;
    if key in s.db.returnRequests {
      BeginKeeps(s, t, ReturnRead(key, newStatus, s.db.returnRequests[key].refundedAt));
    }
  }

  // ----- Any step, any run -----

  lemma ReplacedKeeps(s: State, buyer: UserId, ids: seq<ProductId>)
    requires Inv(s)
    ensures var db := OpenCheckoutsReplaced(s.db, buyer, ids, s.now);
            Inv(s.(db := db)) && Evolves(s.db, db)
  {
    hide Inv, ReleaseFound, CancelFound;
    var open := OpenOrdersOf(s.db, buyer, ids);
    var found := OpenCheckouts(s.db, buyer, ids);
    assert found.Keys == open;
    CancelAtOnceKeeps(s, found);
  }

  lemma ReplaceAndCheckoutKeeps(s: State, buyer: UserId, drafts: seq<Draft>, minutes: nat)
    requires Inv(s)
    ensures Inv(ReplaceAndCheckoutStep(s, buyer, drafts, minutes))
    ensures Evolves(s.db, ReplaceAndCheckoutStep(s, buyer, drafts, minutes).db)
  {
    hide Inv, CheckoutStep, OpenCheckoutsReplaced, AllItems;
    ReplacedKeeps(s, buyer, AllItems(drafts));
    CheckoutKeeps(s.(db := OpenCheckoutsReplaced(s.db, buyer, AllItems(drafts), s.now)), buyer, drafts, minutes);
  }

  lemma SameOrdersEvolve(db: Db, db': Db)
    requires db'.orders == db.orders
    ensures Evolves(db, db')
  {
  }

  lemma FindUnpaidKeeps(s: State, t: TaskId, ids: seq<OrderId>)
    requires Inv(s)
    ensures Inv(FindUnpaidStep(s, t, ids)) && FindUnpaidStep(s, t, ids).db == s.db
  {
    hide Inv;
    BeginKeeps(s, t, FoundUnpaid(FindPending(s.db, ids)));
  }

  lemma EarningsStepKeeps(s: State, a: Action)
    requires Inv(s) && (a.ReadEarnings? || a.WriteEarnings? || a.ReadFullyReturned? || a.MarkRefunded?)
    ensures Inv(ReturnStep(s, a)) && Evolves(s.db, ReturnStep(s, a).db)
  {
    hide Inv, Evolves, ReadEarningsStep, WriteEarningsStep, ReadFullyReturnedStep, MarkRefundedStep;
    match a
    case ReadEarnings(t) => ReadEarningsKeeps(s, t); SameOrdersEvolve(s.db, ReadEarningsStep(s, t).db);
    case WriteEarnings(t) => WriteEarningsKeeps(s, t);
    case ReadFullyReturned(t) => ReadFullyReturnedKeeps(s, t); SameOrdersEvolve(s.db, ReadFullyReturnedStep(s, t).db);
    case MarkRefunded(t) => MarkRefundedKeeps(s, t);
  }

  lemma ReturnStepKeeps(s: State, a: Action)
    requires Inv(s)
    ensures Inv(ReturnStep(s, a)) && Evolves(s.db, ReturnStep(s, a).db)
  {
    hide Inv, Evolves, BeginReturnStep, InsertReturnStep, ReadReturnStep, WriteReturnStep, ProductStep;
    if a.ReadEarnings? || a.WriteEarnings? || a.ReadFullyReturned? || a.MarkRefunded? {
      hide ReturnStep;
      EarningsStepKeeps(s, a);
    } else {
      match a
      case BeginReturn(t, key) =>
        BeginReturnKeeps(s, t, key); SameOrdersEvolve(s.db, BeginReturnStep(s, t, key).db);
      case InsertReturn(t) => InsertReturnKeeps(s, t); SameOrdersEvolve(s.db, InsertReturnStep(s, t).db);
      case ReadReturn(t, key, newStatus) =>
        ReadReturnKeeps(s, t, key, newStatus); SameOrdersEvolve(s.db, ReadReturnStep(s, t, key, newStatus).db);
      case WriteReturn(t, given, made) =>
        WriteReturnKeeps(s, t, given, made); SameOrdersEvolve(s.db, WriteReturnStep(s, t, given, made).db);
      case _ => ProductStepKeeps(s, a); SameOrdersEvolve(s.db, ProductStep(s, a).db);
    }
  }

  lemma FulfilmentStepKeeps(s: State, a: Action)
    requires Inv(s)
    ensures Inv(FulfilmentStep(s, a)) && Evolves(s.db, FulfilmentStep(s, a).db)
  {
    hide Inv, Evolves, BeginCancelStep, ClaimStep, RefundSucceedsStep, RefundFailsStep, RelistStep, BeginAdvanceStep,
         AdvanceStep, ReturnStep;
    var db' := FulfilmentStep(s, a).db;
    match a
    case BeginCancel(t, id, actor, user, to, funding) =>
      BeginCancelKeeps(s, t, id, actor, user, to, funding); SameOrdersEvolve(s.db, db');
    case Claim(t) => ClaimKeeps(s, t);
    case RefundSucceeds(t) => RefundSucceedsKeeps(s, t); SameOrdersEvolve(s.db, db');
    case RefundFails(t) => RefundFailsKeeps(s, t);
    case Relist(t) => RelistKeeps(s, t); SameOrdersEvolve(s.db, db');
    case BeginAdvance(t, id, actor, to) => BeginAdvanceKeeps(s, t, id, actor, to); SameOrdersEvolve(s.db, db');
    case Advance(t) => AdvanceKeeps(s, t);
    case _ => ReturnStepKeeps(s, a);
  }

  lemma EvolvesTransitively(a: Db, b: Db, c: Db)
    requires Evolves(a, b) && Evolves(b, c)
    ensures Evolves(a, c)
  {
  }

  lemma ClaimUnpaidKeeps(s: State, t: TaskId)
    requires Inv(s)
    ensures Inv(ClaimUnpaidStep(s, t)) && Evolves(s.db, ClaimUnpaidStep(s, t).db)
  {
    hide Inv, Evolves, ClaimStep, ReleaseStep;
    SameOrdersEvolve(s.db, s.db);
    if t in s.tasks && s.tasks[t].Cancelling? {
      var claimed := ClaimStep(s, t);
      var released := ReleaseStep(claimed, t, s.tasks[t].order);
      ClaimKeeps(s, t);
      ReleaseKeeps(claimed, t, s.tasks[t].order);
      EndKeeps(released, t);
      SameOrdersEvolve(claimed.db, released.db);
      EvolvesTransitively(s.db, claimed.db, released.db);
    }
  }

  lemma FoundStepKeeps(s: State, a: Action)
    requires Inv(s) && (a.FindUnpaid? || a.CancelUnpaid? || a.ReleaseHolds?)
    ensures Inv(UnpaidStep(s, a)) && Evolves(s.db, UnpaidStep(s, a).db)
  {
    hide Inv, Evolves, CancelUnpaidStep, ReleaseStep, FindPending;
    var db' := UnpaidStep(s, a).db;
    match a
    case FindUnpaid(t, ids) => FindUnpaidKeeps(s, t, ids); SameOrdersEvolve(s.db, db');
    case CancelUnpaid(t) => CancelUnpaidKeeps(s, t);
    case ReleaseHolds(t, id) => ReleaseKeeps(s, t, id); SameOrdersEvolve(s.db, db');
  }

  lemma UnpaidStepKeeps(s: State, a: Action)
    requires Inv(s)
    ensures Inv(UnpaidStep(s, a)) && Evolves(s.db, UnpaidStep(s, a).db)
  {
    hide Inv, Evolves, CancelUnpaidStep, ReleaseStep, ClaimUnpaidStep, FulfilmentStep, FindPending, ReleaseFound,
         CancelFound;
    match a
    case FindUnpaid(_, _) => FoundStepKeeps(s, a);
    case CancelUnpaid(_) => FoundStepKeeps(s, a);
    case ReleaseHolds(_, _) => FoundStepKeeps(s, a);
    case CancelUnpaidAtOnce(ids) => CancelAtOnceKeeps(s, FindPending(s.db, ids));
    case ClaimUnpaidAtOnce(t) => ClaimUnpaidKeeps(s, t);
    case Abandon(t) => EndKeeps(s, t); SameOrdersEvolve(s.db, UnpaidStep(s, a).db);
    case _ => FulfilmentStepKeeps(s, a);
  }

  /** Every step of every task keeps the invariant and only moves existing orders forward. */
  lemma StepKeeps(s: State, a: Action)
    requires Inv(s)
    ensures Inv(Step(s, a))
    ensures Evolves(s.db, Step(s, a).db)
  {
    hide Inv, Evolves, CheckoutStep, ReplaceAndCheckoutStep, BeginSettleStep, CommitSettleStep, RereadStep, RejectStep,
         UnpaidStep;
    var db' := Step(s, a).db;
    match a
    case Tick => TickKeeps(s); SameOrdersEvolve(s.db, db');
    case OpenOrders(buyer, drafts, minutes) => CheckoutKeeps(s, buyer, drafts, minutes);
    case CheckoutAtOnce(buyer, drafts, minutes) => ReplaceAndCheckoutKeeps(s, buyer, drafts, minutes);
    case BeginSettle(t, id, fee, session) => BeginSettleKeeps(s, t, id, fee, session); SameOrdersEvolve(s.db, db');
    case CommitSettle(t) => CommitSettleKeeps(s, t);
    case Reread(t) => RereadKeeps(s, t); SameOrdersEvolve(s.db, db');
    case RejectAtOnce(t) => RejectKeeps(s, t);
    case _ => UnpaidStepKeeps(s, a);
  }
}
