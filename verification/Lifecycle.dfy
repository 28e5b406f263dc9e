/** Orders only move forward: status, timeline and payment snapshot along every run. */
module Lifecycle {
  import opened Wrappers
  import opened SellerFees
  import opened Domain
  import opened OrderSteps
  import opened Protocol
  import opened ProtocolInvariant
  import opened ProtocolSteps
  import opened ProtocolTheorems

  // ----- What a reachable order has filled in -----

  /**
   A reachable order past PENDING that is not cancelled has its confirmation time, its fee and the seller's net
   amount. Until it is delivered that is what the settlement worked out, and then, after returns, it is within
   that. Its timeline stamps are in order and past.
   */
  lemma PaidSnapshot(now: Time, actions: seq<Action>, id: OrderId)
    requires id in Reached(now, actions).db.orders
    ensures var s := Reached(now, actions);
            var o := s.db.orders[id];
            && (o.status !in {Pending, Cancelled} ==> Paid(o))
            && (o.status == Pending ==> Unpaid(o))
            && (Paid(o) && o.deliveredAt.None? ==>
                  o.sellerNet == Some(SettlementNet(o.total, o.feePercent.value)))
            && StampsInOrder(o, s.now)
  {
    ReachedOk(now, actions);
  }

  // ----- Status only rises -----

  ghost predicate UnderRefund(s: State, t: TaskId, id: OrderId) {
    t in s.tasks && s.tasks[t].Refunding? && s.tasks[t].order == id
  }

  /** The status of an order, not counting a cancellation whose refund is still undecided. */
  ghost function Effective(s: State, id: OrderId): OrderStatus
    requires id in s.db.orders
  {
    if exists t :: UnderRefund(s, t, id)
    then var t :| UnderRefund(s, t, id); s.tasks[t].before.status
    else s.db.orders[id].status
  }

  lemma EffectiveIs(s: State, t: TaskId, id: OrderId)
    requires Inv(s) && UnderRefund(s, t, id)
    ensures id in s.db.orders && Effective(s, id) == s.tasks[t].before.status
    ensures Rank(Effective(s, id)) < Rank(s.db.orders[id].status)
  {
    HolderKnown(s, t);
    forall u | UnderRefund(s, u, id)
      ensures u == t
    {
      assert Holding(s.tasks[t]) && Holding(s.tasks[u]);
    }
  }

  ghost predicate SameRefunds(before: map<TaskId, Task>, after: map<TaskId, Task>) {
    && (forall t :: t in before && before[t].Refunding? ==> t in after && after[t] == before[t])
    && (forall t :: t in after && after[t].Refunding? ==> t in before && after[t] == before[t])
  }

  predicate Rises(from: OrderStatus, to: OrderStatus) {
    from == to || (!Terminal(from) && Rank(from) < Rank(to))
  }

  /** A status is left alone, or it rises from one that is not terminal. */
  ghost predicate StatusRises(before: map<OrderId, Order>, after: map<OrderId, Order>) {
    forall id :: id in before ==> id in after && Rises(before[id].status, after[id].status)
  }

  ghost predicate OnlyRises(s: State, s': State) {
    SameRefunds(s.tasks, s'.tasks) && StatusRises(s.db.orders, s'.db.orders)
  }

  predicate DecidesRefund(a: Action) {
    a.Claim? || a.RefundSucceeds? || a.RefundFails? || a.Abandon?
  }

  lemma NothingMoves(tasks: map<TaskId, Task>, orders: map<OrderId, Order>)
    ensures SameRefunds(tasks, tasks) && StatusRises(orders, orders)
  {
  }

  lemma TaskMoves(tasks: map<TaskId, Task>, t: TaskId, task: Task)
    requires (t in tasks ==> !tasks[t].Refunding?) && !task.Refunding?
    ensures SameRefunds(tasks, tasks[t := task]) && SameRefunds(tasks, tasks - {t})
  {
  }

  lemma OrderMoves(orders: map<OrderId, Order>, id: OrderId, row: Order)
    requires id in orders && Rises(orders[id].status, row.status)
    ensures StatusRises(orders, orders[id := row])
  {
    hide Rank;
  }

  lemma UnpaidDropped(orders: map<OrderId, Order>, found: set<OrderId>, now: Time)
    ensures StatusRises(orders, CancelFound(orders, found, now))
  {
  }

  lemma NewOrders(orders: map<OrderId, Order>, next: OrderId, buyer: UserId, drafts: seq<Draft>)
    requires forall id :: id in orders ==> id < next
    ensures StatusRises(orders, WithDrafts(orders, next, buyer, drafts))
  {
    hide Rank;
  }

  lemma DeliveredOrRefunded(s: State, id: OrderId)
    requires OrdersOk(s) && WasDelivered(s, id)
    ensures s.db.orders[id].status in {Delivered, Refunded}
  {
    assert OrderOk(s.db.orders[id], s.now);
  }

  lemma MarkRefundedRises(s: State, t: TaskId)
    requires Inv(s)
    ensures OnlyRises(s, MarkRefundedStep(s, t))
  {
    hide OrdersOk, HoldersDistinct, ReturnsOk, ReportsOk, OrderOk, Owns, SameRefunds, StatusRises;
    NothingMoves(s.tasks, s.db.orders);
    if t in s.tasks && s.tasks[t].MarkingRefunded? {
      var id := s.tasks[t].order;
      assert TaskOk(s, s.tasks[t]);
      DeliveredOrRefunded(s, id);
      TaskMoves(s.tasks, t, s.tasks[t]);
      OrderMoves(s.db.orders, id, s.db.orders[id].(status := Refunded));
    }
  }

  lemma AdvanceRises(s: State, t: TaskId)
    requires Inv(s)
    ensures OnlyRises(s, AdvanceStep(s, t))
  {
    hide OrdersOk, HoldersDistinct, ReturnsOk, ReportsOk, OrderOk, Owns, SameRefunds, StatusRises;
    NothingMoves(s.tasks, s.db.orders);
    if t in s.tasks && s.tasks[t].Advancing? {
      var id := s.tasks[t].order;
      assert TaskOk(s, s.tasks[t]);
      TaskMoves(s.tasks, t, s.tasks[t]);
      if s.db.orders[id].status == s.tasks[t].from {
        OrderMoves(s.db.orders, id, Advanced(s.db.orders[id], s.tasks[t].to, s.now));
      }
    }
  }

  lemma BeginRises(s: State, t: TaskId, task: Task)
    requires !task.Refunding?
    ensures OnlyRises(s, Begin(s, t, task))
  {
    hide SameRefunds, StatusRises;
    NothingMoves(s.tasks, s.db.orders);
    if t !in s.tasks {
      TaskMoves(s.tasks, t, task);
    }
  }

  lemma MayEnd(s: State, t: TaskId)
    requires t in s.tasks && !s.tasks[t].Refunding?
    ensures SameRefunds(s.tasks, End(s, t).tasks)
  {
  }

  lemma BeginReturnRises(s: State, t: TaskId, key: ItemKey)
    ensures OnlyRises(s, BeginReturnStep(s, t, key))
  {
    hide SameRefunds, StatusRises;
    NothingMoves(s.tasks, s.db.orders);
    BeginRises(s, t, ReturnAllowed(key));
  }

  lemma ReadReturnRises(s: State, t: TaskId, key: ItemKey, newStatus: ReturnStatus)
    ensures OnlyRises(s, ReadReturnStep(s, t, key, newStatus))
  {
    hide SameRefunds, StatusRises, ReturnTransitions;
    NothingMoves(s.tasks, s.db.orders);
    if key in s.db.returnRequests {
      BeginRises(s, t, ReturnRead(key, newStatus, s.db.returnRequests[key].refundedAt));
    }
  }

  lemma InsertReturnRises(s: State, t: TaskId)
    ensures OnlyRises(s, InsertReturnStep(s, t))
  {
    hide SameRefunds, StatusRises;
    NothingMoves(s.tasks, s.db.orders);
    if t in s.tasks && s.tasks[t].ReturnAllowed? {
      MayEnd(s, t);
    }
  }

  lemma WriteReturnRises(s: State, t: TaskId, given: Option<real>, made: MoneyBack)
    ensures OnlyRises(s, WriteReturnStep(s, t, given, made))
  {
    hide SameRefunds, StatusRises, UpdatedReturn;
    NothingMoves(s.tasks, s.db.orders);
    var s' := WriteReturnStep(s, t, given, made);
    if s' != s {
      TaskMoves(s.tasks, t, s'.tasks[t]);
    }
  }

  lemma EarningsRise(s: State, t: TaskId)
    ensures OnlyRises(s, ReadEarningsStep(s, t)) && OnlyRises(s, WriteEarningsStep(s, t))
  {
    hide SameRefunds, StatusRises, EarningsAfter;
    NothingMoves(s.tasks, s.db.orders);
    if t in s.tasks && s.tasks[t].ReturnWritten? {
      TaskMoves(s.tasks, t, ReadEarningsStep(s, t).tasks[t]);
    }
    if t in s.tasks && s.tasks[t].EarningsRead? && s.tasks[t].order in s.db.orders {
      var task := s.tasks[t];
      TaskMoves(s.tasks, t, EarningsDone(task.order));
      OrderMoves(s.db.orders, task.order, s.db.orders[task.order].(sellerNet := Some(task.net)));
    }
  }

  lemma ReadFullyReturnedRises(s: State, t: TaskId)
    ensures OnlyRises(s, ReadFullyReturnedStep(s, t))
  {
    hide SameRefunds, StatusRises, FullyReturned;
    NothingMoves(s.tasks, s.db.orders);
    if t in s.tasks && s.tasks[t].EarningsDone? {
      MayEnd(s, t);
      TaskMoves(s.tasks, t, MarkingRefunded(s.tasks[t].order));
    }
  }

  lemma ProductsRise(s: State, a: Action)
    ensures OnlyRises(s, ProductStep(s, a))
  {
    hide SameRefunds, StatusRises, AccountPulled;
    NothingMoves(s.tasks, s.db.orders);
  }

  lemma ReturnRises(s: State, a: Action)
    requires Inv(s)
    ensures OnlyRises(s, ReturnStep(s, a))
  {
    hide Inv, OnlyRises, BeginReturnStep, ReadReturnStep, InsertReturnStep, WriteReturnStep, ReadEarningsStep,
         WriteEarningsStep, ReadFullyReturnedStep, MarkRefundedStep, ProductStep, FullyReturned;
    NothingMoves(s.tasks, s.db.orders);
    match a
    case BeginReturn(t, key) => BeginReturnRises(s, t, key);
    case InsertReturn(t) => InsertReturnRises(s, t);
    case ReadReturn(t, key, newStatus) => ReadReturnRises(s, t, key, newStatus);
    case WriteReturn(t, given, made) => WriteReturnRises(s, t, given, made);
    case ReadEarnings(t) => EarningsRise(s, t);
    case WriteEarnings(t) => EarningsRise(s, t);
    case ReadFullyReturned(t) => ReadFullyReturnedRises(s, t);
    case MarkRefunded(t) => MarkRefundedRises(s, t);
    case _ => ProductsRise(s, a);
  }

  lemma RelistRises(s: State, t: TaskId)
    ensures OnlyRises(s, RelistStep(s, t))
  {
    hide SameRefunds, StatusRises, RelistAll;
    NothingMoves(s.tasks, s.db.orders);
    if t in s.tasks && s.tasks[t].Relisting? {
      MayEnd(s, t);
    }
  }

  lemma FulfilmentRises(s: State, a: Action)
    requires Inv(s) && !DecidesRefund(a)
    ensures OnlyRises(s, FulfilmentStep(s, a))
  {
    hide MayMove, ReturnStep, AdvanceStep, RelistStep, Inv, SameRefunds, StatusRises;
    NothingMoves(s.tasks, s.db.orders);
    match a
    case BeginCancel(t, id, actor, user, to, funding) =>
      if id in s.db.orders {
        BeginRises(s, t, Cancelling(id, s.db.orders[id], to, Cancellation(s.now, user, actor), funding));
      }
    case Relist(t) => RelistRises(s, t);
    case BeginAdvance(t, id, actor, to) =>
      if id in s.db.orders {
        BeginRises(s, t, Advancing(id, s.db.orders[id].status, to));
      }
    case Advance(t) => AdvanceRises(s, t);
    case _ => ReturnRises(s, a);
  }

  lemma ClaimUnpaidRises(s: State, t: TaskId)
    requires Inv(s)
    ensures OnlyRises(s, ClaimUnpaidStep(s, t))
  {
    hide OrdersOk, HoldersDistinct, ReturnsOk, ReportsOk, OrderOk, Owns, SameRefunds, StatusRises, ReleaseFor;
    NothingMoves(s.tasks, s.db.orders);
    if t in s.tasks && s.tasks[t].Cancelling? && s.tasks[t].snapshot.status == Pending {
      var task := s.tasks[t];
      assert TaskOk(s, task);
      MayEnd(s, t);
      assert ClaimUnpaidStep(s, t).tasks == End(s, t).tasks;
      if s.db.orders[task.order].status == Pending {
        OrderMoves(s.db.orders, task.order, Claimed(s.db.orders[task.order], task.to, task.cancellation));
      }
    }
  }

  lemma UnpaidRises(s: State, a: Action)
    requires Inv(s) && !DecidesRefund(a)
    ensures OnlyRises(s, UnpaidStep(s, a))
  {
    hide FindPending, ReleaseFound, CancelFound, FulfilmentStep, ClaimUnpaidStep, Inv, SameRefunds, StatusRises;
    NothingMoves(s.tasks, s.db.orders);
    match a
    case FindUnpaid(t, ids) => BeginRises(s, t, FoundUnpaid(FindPending(s.db, ids)));
    case CancelUnpaid(t) =>
      if t in s.tasks && s.tasks[t].FoundUnpaid? {
        UnpaidDropped(s.db.orders, s.tasks[t].found.Keys, s.now);
        TaskMoves(s.tasks, t, ReleasingHolds(s.tasks[t].found));
      }
    case ReleaseHolds(t, id) =>
      if t in s.tasks && s.tasks[t].ReleasingHolds? {
        TaskMoves(s.tasks, t, ReleasingHolds(s.tasks[t].found - {id}));
      }
    case CancelUnpaidAtOnce(ids) => UnpaidDropped(s.db.orders, FindPending(s.db, ids).Keys, s.now);
    case ClaimUnpaidAtOnce(t) => ClaimUnpaidRises(s, t);
    case _ => FulfilmentRises(s, a);
  }

  lemma CheckoutRises(s: State, buyer: UserId, drafts: seq<Draft>, minutes: nat)
    requires forall id :: id in s.db.orders ==> id < s.db.nextOrder
    ensures OnlyRises(s, CheckoutStep(s, buyer, drafts, minutes))
  {
    hide AllItems, CanCheckout, ValidDrafts, HoldAll, WithDrafts, SameRefunds, StatusRises;
    NothingMoves(s.tasks, s.db.orders);
    NewOrders(s.db.orders, s.db.nextOrder, buyer, drafts);
  }

  lemma RisesTransitively(a: map<OrderId, Order>, b: map<OrderId, Order>, c: map<OrderId, Order>)
    requires StatusRises(a, b) && StatusRises(b, c)
    ensures StatusRises(a, c)
  {
    hide Rank;
  }

  lemma ReplaceRises(s: State, buyer: UserId, drafts: seq<Draft>, minutes: nat)
    requires forall id :: id in s.db.orders ==> id < s.db.nextOrder
    ensures OnlyRises(s, ReplaceAndCheckoutStep(s, buyer, drafts, minutes))
  {
    hide AllItems, CheckoutStep, ReleaseFound, StatusRises, SameRefunds;
    var s1 := s.(db := OpenCheckoutsReplaced(s.db, buyer, AllItems(drafts), s.now));
    UnpaidDropped(s.db.orders, OpenOrdersOf(s.db, buyer, AllItems(drafts)), s.now);
    CheckoutRises(s1, buyer, drafts, minutes);
    RisesTransitively(s.db.orders, s1.db.orders, ReplaceAndCheckoutStep(s, buyer, drafts, minutes).db.orders);
  }

  lemma CommitRises(s: State, t: TaskId)
    ensures OnlyRises(s, CommitSettleStep(s, t))
  {
    hide SellAll, AllAvailable, SettlementNet, SameRefunds, StatusRises;
    NothingMoves(s.tasks, s.db.orders);
    if t in s.tasks && s.tasks[t].Settling? {
      var task := s.tasks[t];
      TaskMoves(s.tasks, t, Refused(task.order));
      if CanSettle(s.db, task.order, task.snapshot, task.at) {
        OrderMoves(s.db.orders, task.order, Settled(s.db.orders[task.order], task.at, task.fee, task.session));
      }
    }
  }

  lemma RejectRises(s: State, t: TaskId)
    ensures OnlyRises(s, RereadStep(s, t)) && OnlyRises(s, RejectStep(s, t))
  {
    hide ReleaseFound, FindPending, CancelFound, RereadReport, SameRefunds, StatusRises;
    NothingMoves(s.tasks, s.db.orders);
    if t in s.tasks && s.tasks[t].Refused? {
      MayEnd(s, t);
      UnpaidDropped(s.db.orders, FindPending(s.db, [s.tasks[t].order]).Keys, s.now);
    }
  }

  lemma BeginSettleRises(s: State, t: TaskId, id: OrderId, fee: real, session: Option<int>)
    ensures OnlyRises(s, BeginSettleStep(s, t, id, fee, session))
  {
    hide SameRefunds, StatusRises;
    NothingMoves(s.tasks, s.db.orders);
    if id in s.db.orders {
      BeginRises(s, t, Settling(id, s.db.orders[id], s.now, fee, session));
    }
  }

  lemma TickRises(s: State)
    ensures OnlyRises(s, TickStep(s))
  {
    NothingMoves(s.tasks, s.db.orders);
  }

  lemma OtherwiseRises(s: State, a: Action)
    requires Inv(s) && !DecidesRefund(a)
    ensures OnlyRises(s, Step(s, a))
  {
    hide UnpaidStep, TickStep, CheckoutStep, ReplaceAndCheckoutStep, BeginSettleStep, CommitSettleStep, RereadStep,
         RejectStep, OnlyRises, OrderOk, Owns;
    match a
    case Tick => TickRises(s);
    case OpenOrders(buyer, drafts, minutes) => CheckoutRises(s, buyer, drafts, minutes);
    case CheckoutAtOnce(buyer, drafts, minutes) => ReplaceRises(s, buyer, drafts, minutes);
    case BeginSettle(t, id, fee, session) => BeginSettleRises(s, t, id, fee, session);
    case CommitSettle(t) => CommitRises(s, t);
    case Reread(t) => RejectRises(s, t);
    case RejectAtOnce(t) => RejectRises(s, t);
    case _ => UnpaidRises(s, a);
  }

  lemma RaisedEffective(s: State, s': State, id: OrderId)
    requires Inv(s) && Inv(s') && OnlyRises(s, s') && id in s.db.orders
    ensures id in s'.db.orders && Rank(Effective(s, id)) <= Rank(Effective(s', id))
  {
    hide Effective;
    if t :| UnderRefund(s, t, id) {
      EffectiveIs(s, t, id);
      EffectiveIs(s', t, id);
    } else {
      forall t
        ensures !UnderRefund(s', t, id)
      {
        assert !UnderRefund(s, t, id);
      }
      NotUnderRefund(s, id);
      NotUnderRefund(s', id);
    }
  }

  lemma NotUnderRefund(s: State, id: OrderId)
    requires id in s.db.orders && forall t :: !UnderRefund(s, t, id)
    ensures Effective(s, id) == s.db.orders[id].status
  {
  }

  /** What may happen to a refund: its claim, its success, its failure, or nobody ever hearing of it. */
  datatype RefundVerdict = Begins | Succeeds | Fails | IsLost

  function VerdictOf(a: Action): RefundVerdict
    requires DecidesRefund(a)
  {
    match a
    case Claim(_) => Begins
    case RefundSucceeds(_) => Succeeds
    case RefundFails(_) => Fails
    case Abandon(_) => IsLost
  }

  function Decided(s: State, t: TaskId, v: RefundVerdict): State {
    match v
    case Begins => ClaimStep(s, t)
    case Succeeds => RefundSucceedsStep(s, t)
    case Fails => RefundFailsStep(s, t)
    case IsLost => End(s, t)
  }

  lemma DecidesStep(s: State, a: Action)
    requires DecidesRefund(a)
    ensures Step(s, a) == Decided(s, a.t, VerdictOf(a))
  {
    hide ClaimStep, RefundSucceedsStep, RefundFailsStep;
  }

  /** Only the claim that begins a refund puts an order under refund; it remembers the row it claimed. */
  lemma ClaimRemembers(s: State, t: TaskId, v: RefundVerdict, id: OrderId, u: TaskId)
    requires id in s.db.orders && UnderRefund(Decided(s, t, v), u, id) && !UnderRefund(s, u, id)
    ensures v == Begins && u == t && Decided(s, t, v).tasks[u].before == s.db.orders[id]
  {
    hide Claimed, Restored;
  }

  lemma OthersUndecided(s: State, t: TaskId, v: RefundVerdict, id: OrderId, u: TaskId)
    requires UnderRefund(s, u, id) && (u != t || v == Begins)
    ensures UnderRefund(Decided(s, t, v), u, id) && Decided(s, t, v).tasks[u] == s.tasks[u]
  {
    hide Claimed, Restored;
  }

  /** The verdict on a refund ends it: the cancellation stands, or the claimed row is put back. */
  lemma VerdictRises(s: State, t: TaskId, v: RefundVerdict, id: OrderId)
    requires Inv(s) && v != Begins && UnderRefund(s, t, id)
    ensures var s' := Decided(s, t, v);
            && id in s'.db.orders && Rank(s.tasks[t].before.status) <= Rank(s'.db.orders[id].status)
            && !UnderRefund(s', t, id)
  {
    hide OrderOk, Owns;
    HolderKnown(s, t);
  }

  lemma OnlyOneRefund(s: State, id: OrderId, t: TaskId, u: TaskId)
    requires HoldersDistinct(s) && UnderRefund(s, t, id) && UnderRefund(s, u, id)
    ensures t == u
  {
    assert Holding(s.tasks[t]) && Holding(s.tasks[u]);
  }

  lemma ClaimRises(s: State, t: TaskId, id: OrderId)
    requires Inv(s) && id in s.db.orders
    ensures var s' := ClaimStep(s, t);
            id in s'.db.orders && Rank(s.db.orders[id].status) <= Rank(s'.db.orders[id].status)
  {
    hide OrderOk, OrdersOk, HoldersDistinct, ReturnsOk, ReportsOk, Owns, AfterClaim;
    if t in s.tasks && s.tasks[t].Cancelling? {
      assert TaskOk(s, s.tasks[t]);
    }
  }

  lemma ClaimOrRise(s: State, t: TaskId, v: RefundVerdict, id: OrderId)
    requires Inv(s) && id in s.db.orders && !UnderRefund(s, t, id)
    ensures var s' := Decided(s, t, v);
            id in s'.db.orders && Rank(s.db.orders[id].status) <= Rank(s'.db.orders[id].status)
  {
    hide ClaimStep, Inv, Restored;
    ClaimRises(s, t, id);
  }

  /** A claim, and the verdict on its refund, either leave the effective status or complete the cancellation. */
  lemma DecidedEffective(s: State, t: TaskId, v: RefundVerdict, id: OrderId)
    requires Inv(s) && Inv(Decided(s, t, v)) && id in s.db.orders
    ensures var s' := Decided(s, t, v);
            id in s'.db.orders && Rank(Effective(s, id)) <= Rank(Effective(s', id))
  {
    var s' := Decided(s, t, v);
    hide Effective, OrdersOk, TasksOk, ReturnsOk, ReportsOk, HoldersDistinct, Decided, UnderRefund;
    if u :| UnderRefund(s, u, id) {
      EffectiveIs(s, u, id);
      if u == t && v != Begins {
        VerdictRises(s, t, v, id);
        forall w
          ensures !UnderRefund(s', w, id)
        {
          if UnderRefund(s', w, id) && UnderRefund(s, w, id) {
            OnlyOneRefund(s, id, u, w);
          } else if UnderRefund(s', w, id) {
            ClaimRemembers(s, t, v, id, w);
          }
        }
        NotUnderRefund(s', id);
      } else {
        OthersUndecided(s, t, v, id, u);
        EffectiveIs(s', u, id);
      }
    } else {
      NotUnderRefund(s, id);
      ClaimOrRise(s, t, v, id);
      if u :| UnderRefund(s', u, id) {
        ClaimRemembers(s, t, v, id, u);
        EffectiveIs(s', u, id);
      } else {
        NotUnderRefund(s', id);
      }
    }
  }

  lemma StepRises(s: State, a: Action, id: OrderId)
    requires Inv(s) && id in s.db.orders
    ensures id in Step(s, a).db.orders && Rank(Effective(s, id)) <= Rank(Effective(Step(s, a), id))
  {
    hide Inv, Step, Effective, Rank, OnlyRises, Decided;
    StepKeeps(s, a);
    if DecidesRefund(a) {
      DecidesStep(s, a);
      DecidedEffective(s, a.t, VerdictOf(a), id);
    } else {
      OtherwiseRises(s, a);
      RaisedEffective(s, Step(s, a), id);
    }
  }

  /** How often the effective status of an order changed along a run. */
  ghost function Changes(s: State, actions: seq<Action>, id: OrderId): nat
    requires Inv(s) && id in s.db.orders
    decreases |actions|
  {
    if actions == [] then 0
    else
      var n := |actions| - 1;
      RunKeeps(s, actions[..n]);
      StepKeeps(Run(s, actions[..n]), actions[n]);
      Changes(s, actions[..n], id)
      + if Effective(Run(s, actions[..n]), id) == Effective(Run(s, actions), id) then 0 else 1
  }

  /**
   Along any run the effective status of an order only moves forward, and each of its changes uses
   up rank: there are never more than six. So apart from failed refunds putting a status back, no
   order ever goes back.
   */
  lemma {:induction false} ForwardOnly(s: State, actions: seq<Action>, id: OrderId)
    requires Inv(s) && id in s.db.orders
    ensures id in Run(s, actions).db.orders
    ensures Rank(Effective(s, id)) + Changes(s, actions, id) <= Rank(Effective(Run(s, actions), id)) <= 6
  {
    hide Inv, Step, Effective;
    if actions != [] {
      var n := |actions| - 1;
      ForwardOnly(s, actions[..n], id);
      RunKeeps(s, actions[..n]);
      StepRises(Run(s, actions[..n]), actions[n], id);
    }
  }

  // ----- Cancelling with a refund -----

  lemma {:induction false} RefundStaysOpen(s: State, actions: seq<Action>, t: TaskId, id: OrderId)
    requires Inv(s) && UnderRefund(s, t, id)
    requires forall i :: 0 <= i < |actions| ==> !(DecidesRefund(actions[i]) && actions[i].t == t)
    ensures UnderRefund(Run(s, actions), t, id) && Run(s, actions).tasks[t] == s.tasks[t]
  {
    hide Inv, Step;
    if actions != [] {
      var n := |actions| - 1;
      RefundStaysOpen(s, actions[..n], t, id);
      RunKeeps(s, actions[..n]);
      if DecidesRefund(actions[n]) {
        DecidesStep(Run(s, actions[..n]), actions[n]);
        OthersUndecided(Run(s, actions[..n]), actions[n].t, VerdictOf(actions[n]), id, t);
      } else {
        OtherwiseRises(Run(s, actions[..n]), actions[n]);
      }
    }
  }

  /**
   A cancellation claims a paid order; whatever everybody else does meanwhile, if its refund then
   fails the order row is what it was before the claim, status and cancellation columns included,
   and no product was touched. Only what the seller nets may have been reduced by a return since.
   */
  lemma FailedRefundRestores(s: State, t: TaskId, id: OrderId, meanwhile: seq<Action>)
    requires Inv(s) && id in s.db.orders && !UnderRefund(s, t, id) && UnderRefund(Step(s, Claim(t)), t, id)
    requires forall i :: 0 <= i < |meanwhile| ==> !(DecidesRefund(meanwhile[i]) && meanwhile[i].t == t)
    ensures var undecided := Run(Step(s, Claim(t)), meanwhile);
            var failed := Step(undecided, RefundFails(t));
            && id in undecided.db.orders
            && var row := s.db.orders[id].(sellerNet := undecided.db.orders[id].sellerNet);
               failed.db == undecided.db.(orders := undecided.db.orders[id := row])
  {
    hide Inv, Run, ClaimStep, RefundFailsStep;
    DecidesStep(s, Claim(t));
    ClaimRemembers(s, t, Begins, id, t);
    var claimed := Step(s, Claim(t));
    StepKeeps(s, Claim(t));
    RefundStaysOpen(claimed, meanwhile, t, id);
    RunKeeps(claimed, meanwhile);
    var undecided := Run(claimed, meanwhile);
    RefundFailsKeeps(undecided, t);
    assert Step(undecided, RefundFails(t)) == RefundFailsStep(undecided, t);
  }

  /** After a refund that went through, exactly the items of an order that had not shipped are for sale again. */
  lemma RelistIsExact(s: State, t: TaskId)
    requires Inv(s) && t in s.tasks && s.tasks[t].Relisting?
    ensures var before := s.tasks[t].before;
            var s' := Step(s, Relist(t));
            && s'.db.orders == s.db.orders && s'.db.products.Keys == s.db.products.Keys
            && s.db.orders[s.tasks[t].order].status == s.tasks[t].to
            && (forall p :: p in before.items ==> p in s.db.products && s.db.products[p].status == Sold)
            && forall p :: p in s.db.products ==>
                 s'.db.products[p] == if Relistable(before.status) && p in before.items
                                      then s.db.products[p].(status := Active, soldAt := None) else s.db.products[p]
  {
    hide OrderOk;
    HolderKnown(s, t);
  }

  // ----- Who cancels what -----

  /**
   In every reachable state a buyer has cancelled only orders that nobody had begun to fulfil, a seller only such that
   were paid, and the system only such that never were. An order that was cancelled later, or refunded by hand, was by
   an admin.
   */
  lemma CancelledByWhom(now: Time, actions: seq<Action>, id: OrderId)
    requires id in Reached(now, actions).db.orders && Reached(now, actions).db.orders[id].cancellation.Some?
    ensures var o := Reached(now, actions).db.orders[id];
            var actor := o.cancellation.value.actor;
            && Terminal(o.status)
            && (o.processingAt.Some? || o.shippedAt.Some? || o.deliveredAt.Some? || o.status == Refunded ==>
                  actor == Admin)
            && (actor == Seller ==> o.confirmedAt.Some?) && (actor == System ==> o.confirmedAt.None?)
  {
    var s := Reached(now, actions);
    ReachedOk(now, actions);
    assert OrderOk(s.db.orders[id], s.now);
  }

  // ----- Returns -----

  /** In a reachable state only delivered orders have returns, so such an order is delivered or refunded. */
  lemma ReturnedOrders(now: Time, actions: seq<Action>, key: ItemKey)
    requires key in Reached(now, actions).db.returnRequests
    ensures var s := Reached(now, actions);
            && key.order in s.db.orders && key.index < |s.db.orders[key.order].items|
            && s.db.orders[key.order].status in {Delivered, Refunded}
  {
    ReachedOk(now, actions);
    DeliveredOrRefunded(Reached(now, actions), key.order);
  }
}
