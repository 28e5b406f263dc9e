/**
 Checkout holds. When a checkout replaces the buyer's earlier ones in one go, and a cancellation
 releases holds right when it cancels, an unpaid order owns the hold on its items until its window
 ends. A release that comes later than its cancellation can break this.
 */
module Holds {
  import opened Wrappers
  import opened SellerFees
  import opened Domain
  import opened OrderSteps
  import opened Protocol
  import opened ProtocolInvariant
  import opened ProtocolSteps
  import opened ProtocolTheorems
  import opened RowLaws

  // ----- The invariant -----

  predicate IsPending(s: State, id: OrderId) {
    id in s.db.orders && s.db.orders[id].status == Pending
  }

  predicate InWindow(s: State, id: OrderId) {
    id in s.window && s.now <= s.window[id]
  }

  predicate HeldFor(p: Product, buyer: UserId, until: Time) {
    p.reservedBy == Some(buyer) && p.reservedUntil == Some(until)
  }

  /** The order's window is known, and until it ends each of its items is held for its buyer. */
  ghost predicate HoldsItems(s: State, id: OrderId)
    requires id in s.db.orders
  {
    && id in s.window
    && forall p :: p in s.db.orders[id].items ==>
         && p in s.db.products && s.db.products[p].seller == s.db.orders[id].seller
         && (s.now <= s.window[id] ==> HeldFor(s.db.products[p], s.db.orders[id].buyer, s.window[id]))
  }

  predicate Overlap(a: Order, b: Order) {
    a.buyer == b.buyer && exists p :: p in a.items && p in b.items
  }

  /** One unpaid order a buyer and item. */
  ghost predicate OnePending(s: State) {
    forall a, b :: IsPending(s, a) && IsPending(s, b) && Overlap(s.db.orders[a], s.db.orders[b]) ==> a == b
  }

  ghost predicate HoldInv(s: State) {
    && OnePending(s)
    && forall id :: IsPending(s, id) ==> HoldsItems(s, id)
  }

  /** Every action but a checkout that replaces nothing, and a release apart from its cancellation. */
  predicate Coarse(a: Action) {
    !a.OpenOrders? && !a.ReleaseHolds?
  }

  // ----- Steps that leave holds alone -----

  predicate SameHold(a: Product, b: Product) {
    a.seller == b.seller && a.reservedBy == b.reservedBy && a.reservedUntil == b.reservedUntil
  }

  /** No order is opened, and what an unpaid order holds in its window stays held. */
  ghost predicate HoldsStand(s: State, s': State) {
    && s'.window == s.window && s.now <= s'.now
    && s'.db.orders.Keys <= s.db.orders.Keys
    && forall id, p :: IsPending(s', id) && p in s'.db.orders[id].items && p in s.db.products ==>
         && p in s'.db.products && s'.db.products[p].seller == s.db.products[p].seller
         && (InWindow(s', id) ==> SameHold(s.db.products[p], s'.db.products[p]))
  }

  lemma StandingHolds(s: State, s': State)
    requires HoldInv(s) && HoldsStand(s, s') && Evolves(s.db, s'.db)
    ensures HoldInv(s')
  {
    forall id | IsPending(s', id)
      ensures IsPending(s, id) && HoldsItems(s', id) && SameSale(s.db.orders[id], s'.db.orders[id])
    {
      assert HoldsItems(s, id);
    }
    assert OnePending(s');
  }

  ghost predicate NoHoldChanges(s: State, s': State) {
    && s'.window == s.window && s.now <= s'.now && s'.db.orders.Keys == s.db.orders.Keys
    && forall p :: p in s.db.products ==> p in s'.db.products && SameHold(s.db.products[p], s'.db.products[p])
  }

  predicate Removes(a: Action) {
    a.DeleteProduct? || a.DeleteAccount?
  }

  lemma ProductLeavesHolds(s: State, a: Action)
    requires !Removes(a)
    ensures NoHoldChanges(s, ProductStep(s, a))
  {
  }

  lemma ReturnLeavesHolds(s: State, a: Action)
    requires !Removes(a)
    ensures NoHoldChanges(s, ReturnStep(s, a))
  {
    hide FullyReturned, ProductStep, UpdatedReturn;
    ProductLeavesHolds(s, a);
  }

  lemma RelistLeavesHolds(s: State, t: TaskId)
    ensures NoHoldChanges(s, RelistStep(s, t))
  {
  }

  lemma FulfilmentLeavesHolds(s: State, a: Action)
    requires !Removes(a)
    ensures NoHoldChanges(s, FulfilmentStep(s, a))
  {
    hide ReturnStep, RelistStep, MayMove, Claimed, Restored, Advanced, AfterClaim, Terminal;
    ReturnLeavesHolds(s, a);
    if a.Relist? {
      RelistLeavesHolds(s, a.t);
    }
  }

  lemma RemovalStands(s: State, a: Action)
    requires HoldInv(s) && Removes(a)
    ensures HoldsStand(s, FulfilmentStep(s, a))
  {
    hide OnePending;
    var s' := FulfilmentStep(s, a);
    assert s' == ProductStep(s, a);
    forall id, p | IsPending(s', id) && p in s.db.orders[id].items && p in s.db.products
      ensures p in s'.db.products && s'.db.products[p] == s.db.products[p]
    {
      assert HoldsItems(s, id);
    }
  }

  // ----- Settlement and cancellation -----

  /** What an unpaid order holds, nobody else can settle: not for another buyer, nor with another order. */
  lemma HeldExcludes(s: State, y: OrderId, o: Order, at: Time, p: ProductId)
    requires HoldInv(s) && IsPending(s, y) && InWindow(s, y) && at <= s.now
    requires p in s.db.orders[y].items && p in o.items && p in s.db.products
    requires Available(s.db.products[p], o.buyer, at)
    ensures Overlap(o, s.db.orders[y])
  {
    assert HoldsItems(s, y);
  }

  lemma SettleStands(s: State, t: TaskId)
    requires Inv(s) && HoldInv(s)
    ensures HoldsStand(s, CommitSettleStep(s, t))
  {
    hide OrdersOk, OrderOk, HoldersDistinct, ReturnsOk, ReportsOk, SettlementNet, Overlap;
    if t in s.tasks && s.tasks[t].Settling? {
      var task := s.tasks[t];
      assert TaskOk(s, task);
      if CanSettle(s.db, task.order, task.snapshot, task.at) {
        SameBuyerOverlap(task.snapshot, s.db.orders[task.order]);
        var s' := CommitSettleStep(s, t);
        forall id, p | IsPending(s', id) && p in s.db.orders[id].items && p in task.snapshot.items
                       && InWindow(s, id)
          ensures false
        {
          HeldExcludes(s, id, task.snapshot, task.at, p);
        }
      }
    }
  }

  lemma SameBuyerOverlap(a: Order, b: Order)
    requires SameSale(a, b)
    ensures forall o: Order :: Overlap(a, o) ==> Overlap(b, o)
  {
  }

  lemma HeldForOneOnly(s: State, a: OrderId, b: OrderId, p: ProductId)
    requires HoldInv(s) && IsPending(s, a) && IsPending(s, b) && a != b
    requires InWindow(s, b)
    requires p in s.db.orders[a].items && p in s.db.orders[b].items
    ensures p in s.db.products && s.db.products[p].reservedBy != Some(s.db.orders[a].buyer)
  {
    assert HoldsItems(s, b);
    if s.db.orders[a].buyer == s.db.orders[b].buyer {
      assert Overlap(s.db.orders[a], s.db.orders[b]);
    }
  }

  /** Cancelling unpaid orders and releasing their holds in one go takes nothing from any other unpaid order. */
  lemma DroppingStands(s: State, found: map<OrderId, Order>, s': State)
    requires HoldInv(s)
    requires forall o :: o in found ==> IsPending(s, o) && found[o] == s.db.orders[o]
    requires s'.db.orders == CancelFound(s.db.orders, found.Keys, s.now)
    requires s'.db.products == ReleaseFound(s.db.products, found)
    requires s'.window == s.window && s'.now == s.now
    ensures HoldsStand(s, s')
  {
    forall id, p | IsPending(s', id) && p in s'.db.orders[id].items && p in s.db.products
                   && InWindow(s, id)
      ensures s'.db.products[p] == s.db.products[p]
    {
      forall o | o in found && p in found[o].items
        ensures s.db.products[p].reservedBy != Some(found[o].buyer)
      {
        HeldForOneOnly(s, o, id, p);
      }
    }
  }

  lemma ClaimUnpaidStands(s: State, t: TaskId)
    requires Inv(s) && HoldInv(s)
    ensures HoldsStand(s, ClaimUnpaidStep(s, t))
  {
    hide OrdersOk, OrderOk, HoldersDistinct, ReturnsOk, ReportsOk;
    if t in s.tasks && s.tasks[t].Cancelling? && s.tasks[t].snapshot.status == Pending {
      var task := s.tasks[t];
      assert TaskOk(s, task);
      var s' := ClaimUnpaidStep(s, t);
      if s.db.orders[task.order].status == Pending {
        forall id, p | IsPending(s', id) && p in s.db.orders[id].items && p in task.snapshot.items
                       && InWindow(s, id) && p in s.db.products
          ensures s'.db.products[p] == s.db.products[p]
        {
          HeldForOneOnly(s, task.order, id, p);
        }
      }
    }
  }

  // ----- Checkout -----

  /** After replacing, no unpaid order of the buyer has any of the items. */
  lemma ReplacedClears(s: State, buyer: UserId, ids: seq<ProductId>, s': State)
    requires HoldInv(s) && s' == s.(db := OpenCheckoutsReplaced(s.db, buyer, ids, s.now))
    ensures HoldsStand(s, s')
    ensures forall id, p :: IsPending(s', id) && s'.db.orders[id].buyer == buyer && p in ids ==>
        p !in s'.db.orders[id].items
  {
    var open := OpenOrdersOf(s.db, buyer, ids);
    var found := OpenCheckouts(s.db, buyer, ids);
    assert found.Keys == open;
    DroppingStands(s, found, s');
  }

  /** An order that was there before a checkout keeps its hold: its items were not available to the buyer. */
  lemma OldHoldsStand(s: State, buyer: UserId, ids: seq<ProductId>, until: Time, id: OrderId)
    requires HoldInv(s) && IsPending(s, id) && AllAvailable(s.db.products, ids, buyer, s.now)
    requires forall p :: s.db.orders[id].buyer == buyer && p in ids ==> p !in s.db.orders[id].items
    ensures HoldsItems(s.(db := s.db.(products := HoldAll(s.db.products, ids, buyer, until))), id)
  {
    assert HoldsItems(s, id);
  }

  lemma NewHolds(s: State, buyer: UserId, drafts: seq<Draft>, i: nat, until: Time)
    requires i < |drafts| && ValidDrafts(s.db, buyer, drafts) && CanCheckout(s.db, buyer, drafts, s.now)
    ensures forall p :: p in drafts[i].items ==>
              && p in s.db.products && p in HoldAll(s.db.products, AllItems(drafts), buyer, until)
              && s.db.products[p].seller == drafts[i].seller
              && HeldFor(HoldAll(s.db.products, AllItems(drafts), buyer, until)[p], buyer, until)
              && HoldAll(s.db.products, AllItems(drafts), buyer, until)[p].seller == drafts[i].seller
  {
    DraftItems(drafts, i);
    hide AllItems;
  }

  lemma DraftsDisjoint(s: State, buyer: UserId, drafts: seq<Draft>, i: nat, j: nat, p: ProductId)
    requires ValidDrafts(s.db, buyer, drafts) && i < |drafts| && j < |drafts|
    requires p in drafts[i].items && p in drafts[j].items
    ensures i == j
  {
  }

  /** No unpaid order of the buyer has an item that the buyer is about to check out. */
  ghost predicate Clear(s: State, buyer: UserId, drafts: seq<Draft>) {
    forall id, p :: IsPending(s, id) && s.db.orders[id].buyer == buyer && p in AllItems(drafts) ==>
        p !in s.db.orders[id].items
  }

  lemma OpenedHolds(s: State, buyer: UserId, drafts: seq<Draft>, minutes: nat, id: OrderId)
    requires OrdersOk(s) && HoldInv(s) && Clear(s, buyer, drafts)
    requires ValidDrafts(s.db, buyer, drafts) && CanCheckout(s.db, buyer, drafts, s.now)
    requires IsPending(CheckoutStep(s, buyer, drafts, minutes), id)
    ensures HoldsItems(CheckoutStep(s, buyer, drafts, minutes), id)
  {
    hide OrderOk, Owns, AllItems, HoldAll, WithDrafts, ValidDrafts, AllAvailable;
    var s' := CheckoutStep(s, buyer, drafts, minutes);
    WithDraftsAt(s.db.orders, s.db.nextOrder, buyer, drafts, id);
    if id in s.db.orders {
      OldHoldsStand(s, buyer, AllItems(drafts), s.now + minutes, id);
    } else {
      var i := id - s.db.nextOrder;
      NewHolds(s, buyer, drafts, i, s.now + minutes);
      assert s'.window[id] == WindowOf(id, s.now + minutes);
    }
  }

  lemma OpenedOnce(s: State, buyer: UserId, drafts: seq<Draft>, minutes: nat, a: OrderId, b: OrderId)
    requires OrdersOk(s) && HoldInv(s) && Clear(s, buyer, drafts)
    requires ValidDrafts(s.db, buyer, drafts) && CanCheckout(s.db, buyer, drafts, s.now)
    requires var s' := CheckoutStep(s, buyer, drafts, minutes);
             IsPending(s', a) && IsPending(s', b) && Overlap(s'.db.orders[a], s'.db.orders[b])
    ensures a == b
  {
    hide OrderOk, Owns, AllItems, HoldAll, WithDrafts, ValidDrafts, AllAvailable, HoldsItems;
    var s' := CheckoutStep(s, buyer, drafts, minutes);
    WithDraftsAt(s.db.orders, s.db.nextOrder, buyer, drafts, a);
    WithDraftsAt(s.db.orders, s.db.nextOrder, buyer, drafts, b);
    var p :| p in s'.db.orders[a].items && p in s'.db.orders[b].items;
    if a !in s.db.orders {
      DraftItems(drafts, a - s.db.nextOrder);
    }
    if b !in s.db.orders {
      DraftItems(drafts, b - s.db.nextOrder);
    }
    if a !in s.db.orders && b !in s.db.orders {
      DraftsDisjoint(s, buyer, drafts, a - s.db.nextOrder, b - s.db.nextOrder, p);
    }
  }

  lemma CheckoutHolds(s: State, buyer: UserId, drafts: seq<Draft>, minutes: nat)
    requires OrdersOk(s) && HoldInv(s) && Clear(s, buyer, drafts)
    ensures HoldInv(CheckoutStep(s, buyer, drafts, minutes))
  {
    var s' := CheckoutStep(s, buyer, drafts, minutes);
    if ValidDrafts(s.db, buyer, drafts) && CanCheckout(s.db, buyer, drafts, s.now) {
      hide CheckoutStep, HoldsItems, Overlap, OrdersOk;
      forall id | IsPending(s', id)
        ensures HoldsItems(s', id)
      {
        OpenedHolds(s, buyer, drafts, minutes, id);
      }
      forall a, b | IsPending(s', a) && IsPending(s', b) && Overlap(s'.db.orders[a], s'.db.orders[b])
        ensures a == b
      {
        OpenedOnce(s, buyer, drafts, minutes, a, b);
      }
    }
  }

  lemma ReplaceHolds(s: State, buyer: UserId, drafts: seq<Draft>, minutes: nat)
    requires Inv(s) && HoldInv(s)
    ensures HoldInv(ReplaceAndCheckoutStep(s, buyer, drafts, minutes))
  {
    hide Inv, HoldInv, CheckoutStep, OpenCheckoutsReplaced, AllItems;
    var s1 := s.(db := OpenCheckoutsReplaced(s.db, buyer, AllItems(drafts), s.now));
    ReplacedClears(s, buyer, AllItems(drafts), s1);
    ReplacedKeeps(s, buyer, AllItems(drafts));
    StandingHolds(s, s1);
    assert OrdersOk(s1) by { assert Inv(s1); InvHasOrders(s1); }
    CheckoutHolds(s1, buyer, drafts, minutes);
  }

  lemma InvHasOrders(s: State)
    requires Inv(s)
    ensures OrdersOk(s)
  {
  }

  // ----- Any step, any run -----

  lemma RejectionStands(s: State, t: TaskId)
    requires HoldInv(s)
    ensures HoldsStand(s, RejectStep(s, t))
  {
    hide HoldInv, FindPending, ReleaseFound, CancelFound, HoldsStand, RereadReport;
    if t in s.tasks && s.tasks[t].Refused? && RereadReport(s.db, s.tasks[t].order) == RejectedNow {
      PendingFound(s, [s.tasks[t].order]);
      DroppingStands(s, FindPending(s.db, [s.tasks[t].order]), RejectStep(s, t));
    } else {
      NoChangeStands(s, RejectStep(s, t));
    }
  }

  lemma SettlementHolds(s: State, a: Action)
    requires Inv(s) && HoldInv(s) && (a.BeginSettle? || a.CommitSettle? || a.Reread? || a.RejectAtOnce?)
    ensures HoldsStand(s, Step(s, a))
  {
    hide Inv, HoldInv, CommitSettleStep, RejectStep, HoldsStand, RereadReport;
    if a.CommitSettle? {
      SettleStands(s, a.t);
    } else if a.RejectAtOnce? {
      RejectionStands(s, a.t);
    } else {
      NoChangeStands(s, Step(s, a));
    }
  }

  lemma PendingFound(s: State, ids: seq<OrderId>)
    ensures forall o :: o in FindPending(s.db, ids) ==> IsPending(s, o) && FindPending(s.db, ids)[o] == s.db.orders[o]
  {
  }

  lemma NoChangeStands(s: State, s': State)
    requires NoHoldChanges(s, s')
    ensures HoldsStand(s, s')
  {
  }

  lemma UnpaidLeavesHolds(s: State, t: TaskId, ids: seq<OrderId>)
    ensures NoHoldChanges(s, FindUnpaidStep(s, t, ids)) && NoHoldChanges(s, CancelUnpaidStep(s, t))
       && NoHoldChanges(s, End(s, t))
  {
    hide FindPending;
  }

  lemma CancelAtOnceStands(s: State, ids: seq<OrderId>)
    requires HoldInv(s)
    ensures HoldsStand(s, CancelAtOnceStep(s, ids))
  {
    hide HoldInv, HoldsStand, FindPending, ReleaseFound, CancelFound;
    PendingFound(s, ids);
    DroppingStands(s, FindPending(s.db, ids), CancelAtOnceStep(s, ids));
  }

  lemma UnpaidHolds(s: State, a: Action)
    requires Inv(s) && HoldInv(s) && Coarse(a)
    ensures HoldsStand(s, UnpaidStep(s, a))
  {
    hide Inv, HoldInv, FulfilmentStep, FindUnpaidStep, CancelUnpaidStep, CancelAtOnceStep, ClaimUnpaidStep,
         ReleaseStep, End, HoldsStand, NoHoldChanges;
    match a
    case FindUnpaid(t, ids) => UnpaidLeavesHolds(s, t, ids); NoChangeStands(s, UnpaidStep(s, a));
    case CancelUnpaid(t) => UnpaidLeavesHolds(s, t, []); NoChangeStands(s, UnpaidStep(s, a));
    case CancelUnpaidAtOnce(ids) => CancelAtOnceStands(s, ids);
    case ClaimUnpaidAtOnce(t) => ClaimUnpaidStands(s, t);
    case Abandon(t) => UnpaidLeavesHolds(s, t, []); NoChangeStands(s, UnpaidStep(s, a));
    case _ =>
      if Removes(a) {
        RemovalStands(s, a);
      } else {
        FulfilmentLeavesHolds(s, a);
        NoChangeStands(s, FulfilmentStep(s, a));
      }
  }

  lemma StepHolds(s: State, a: Action)
    requires Inv(s) && HoldInv(s) && Coarse(a)
    ensures HoldInv(Step(s, a))
  {
    hide Inv, HoldInv, HoldsStand, ReplaceAndCheckoutStep, BeginSettleStep, CommitSettleStep, RereadStep, RejectStep,
         UnpaidStep;
    StepKeeps(s, a);
    match a
    case CheckoutAtOnce(buyer, drafts, minutes) => ReplaceHolds(s, buyer, drafts, minutes);
    case Tick => NoChangeStands(s, Step(s, a)); StandingHolds(s, Step(s, a));
    case BeginSettle(_, _, _, _) => SettlementHolds(s, a); StandingHolds(s, Step(s, a));
    case CommitSettle(_) => SettlementHolds(s, a); StandingHolds(s, Step(s, a));
    case Reread(_) => SettlementHolds(s, a); StandingHolds(s, Step(s, a));
    case RejectAtOnce(_) => SettlementHolds(s, a); StandingHolds(s, Step(s, a));
    case _ => UnpaidHolds(s, a); StandingHolds(s, Step(s, a));
  }

  /** Along every run whose checkouts and releases are atomic, every unpaid order owns its holds. */
  lemma {:induction false} RunHolds(now: Time, actions: seq<Action>)
    requires forall i :: 0 <= i < |actions| ==> Coarse(actions[i])
    ensures HoldInv(Reached(now, actions))
    decreases |actions|
  {
    hide Inv, Step;
    if actions != [] {
      var n := |actions| - 1;
      RunHolds(now, actions[..n]);
      ReachedOk(now, actions[..n]);
      StepHolds(Reached(now, actions[..n]), actions[n]);
    }
  }

  // ----- What the holds are for -----

  /**
   In such a run every unpaid order whose window has not ended holds each of its items for its
   buyer until then, and no other unpaid order of that buyer has the item.
   */
  lemma HeldUntilWindowEnds(now: Time, actions: seq<Action>, id: OrderId, p: ProductId)
    requires forall i :: 0 <= i < |actions| ==> Coarse(actions[i])
    requires IsPending(Reached(now, actions), id) && p in Reached(now, actions).db.orders[id].items
    ensures var s := Reached(now, actions);
            && id in s.window && p in s.db.products
            && (s.now <= s.window[id] ==> HeldFor(s.db.products[p], s.db.orders[id].buyer, s.window[id]))
            && forall other :: IsPending(s, other) && other != id && p in s.db.orders[other].items
                 ==> s.db.orders[other].buyer != s.db.orders[id].buyer
  {
    hide Run;
    var s := Reached(now, actions);
    RunHolds(now, actions);
    assert HoldsItems(s, id);
    forall other | IsPending(s, other) && p in s.db.orders[other].items
       && s.db.orders[other].buyer == s.db.orders[id].buyer
      ensures other == id
    {
      assert Overlap(s.db.orders[other], s.db.orders[id]);
    }
  }

  // ----- How long a checkout holds -----

  /** Windows stay as they were opened, and order numbers only go up. */
  ghost predicate WindowsStay(s: State, s': State) {
    && s.db.nextOrder <= s'.db.nextOrder
    && forall id :: id in s.window && id < s.db.nextOrder ==> id in s'.window && s'.window[id] == s.window[id]
  }

  lemma ProductKeepsWindows(s: State, a: Action)
    ensures ProductStep(s, a).window == s.window && ProductStep(s, a).db.nextOrder == s.db.nextOrder
  {
  }

  lemma ReturnKeepsWindows(s: State, a: Action)
    ensures ReturnStep(s, a).window == s.window && ReturnStep(s, a).db.nextOrder == s.db.nextOrder
  {
    hide ProductStep, UpdatedReturn, RefundOf, EarningsAfter, FullyReturned, ReturnTransitions;
    ProductKeepsWindows(s, a);
  }

  lemma FulfilmentKeepsWindows(s: State, a: Action)
    ensures FulfilmentStep(s, a).window == s.window && FulfilmentStep(s, a).db.nextOrder == s.db.nextOrder
  {
    hide ReturnStep;
    ReturnKeepsWindows(s, a);
  }

  lemma UnpaidKeepsWindows(s: State, a: Action)
    ensures UnpaidStep(s, a).window == s.window && UnpaidStep(s, a).db.nextOrder == s.db.nextOrder
  {
    hide FulfilmentStep;
    FulfilmentKeepsWindows(s, a);
  }

  lemma StepKeepsWindows(s: State, a: Action)
    ensures WindowsStay(s, Step(s, a))
  {
    hide UnpaidStep, ValidDrafts, CanCheckout, CanSettle, AllItems, FindPending, CancelFound, ReleaseFound,
         OpenCheckouts, OpenOrdersOf, HoldAll, WithDrafts, SellAll;
    UnpaidKeepsWindows(s, a);
  }

  lemma {:induction false} RunKeepsWindows(s: State, actions: seq<Action>)
    ensures WindowsStay(s, Run(s, actions))
  {
    hide Step;
    if actions != [] {
      var n := |actions| - 1;
      RunKeepsWindows(s, actions[..n]);
      StepKeepsWindows(Run(s, actions[..n]), actions[n]);
    }
  }

  lemma OpenedInWindow(s: State, buyer: UserId, drafts: seq<Draft>, minutes: nat, i: nat)
    requires i < |drafts| && s.db.nextOrder < CheckoutStep(s, buyer, drafts, minutes).db.nextOrder
    ensures var begun, id := CheckoutStep(s, buyer, drafts, minutes), s.db.nextOrder + i;
            && id in begun.window && begun.window[id] == s.now + minutes && id < begun.db.nextOrder
            && id in begun.db.orders && OpenedFor(begun.db.orders[id], buyer, drafts[i])
  {
    CheckoutOpens(s.db, buyer, drafts, s.now + minutes);
    hide CheckedOut, ValidDrafts, CanCheckout, OpenedFor;
  }

  lemma ReplacedInWindow(s: State, buyer: UserId, drafts: seq<Draft>, minutes: nat, i: nat)
    requires i < |drafts|
    requires s.db.nextOrder < Step(s, CheckoutAtOnce(buyer, drafts, minutes)).db.nextOrder
    ensures var begun, id := Step(s, CheckoutAtOnce(buyer, drafts, minutes)), s.db.nextOrder + i;
            && id in begun.window && begun.window[id] == s.now + minutes && id < begun.db.nextOrder
            && id in begun.db.orders && OpenedFor(begun.db.orders[id], buyer, drafts[i])
  {
    hide Step, CheckoutStep, OpenedFor, AllItems;
    RetryStep(s, CheckoutAtOnce(buyer, drafts, minutes));
    var replaced := s.(db := OpenCheckoutsReplaced(s.db, buyer, AllItems(drafts), s.now));
    OpenedInWindow(replaced, buyer, drafts, minutes, i);
  }

  /** Until then the items are held for the buyer, as long as the order is unpaid. */
  ghost predicate HeldWhileUnpaid(s: State, id: OrderId, buyer: UserId, items: seq<ProductId>, until: Time) {
    && id in s.db.orders
    && (s.db.orders[id].status == Pending && s.now <= until ==>
          forall p :: p in items ==> p in s.db.products && HeldFor(s.db.products[p], buyer, until))
  }

  /**
   Over whole runs: the items of every order that a checkout opened are held for its buyer for the minutes that the
   checkout asked for, whatever anyone does, as long as the order is unpaid.
   */
  lemma HeldForMinutes(now: Time, before: seq<Action>, s: State, buyer: UserId, drafts: seq<Draft>, minutes: nat,
                       i: nat, after: seq<Action>)
    requires s == Reached(now, before) && forall k :: 0 <= k < |before| ==> Coarse(before[k])
    requires forall k :: 0 <= k < |after| ==> Coarse(after[k])
    requires s.db.nextOrder < Step(s, CheckoutAtOnce(buyer, drafts, minutes)).db.nextOrder && i < |drafts|
    ensures HeldWhileUnpaid(Run(Step(s, CheckoutAtOnce(buyer, drafts, minutes)), after), s.db.nextOrder + i, buyer,
                            drafts[i].items, s.now + minutes)
  {
    var checkout := CheckoutAtOnce(buyer, drafts, minutes);
    assert Coarse(checkout);
    hide *;
    InvariantsAfter(now, before, checkout, after);
    HeldLater(s, buyer, drafts, minutes, i, after);
  }

  lemma InvariantsAfter(now: Time, before: seq<Action>, a: Action, after: seq<Action>)
    requires Coarse(a) && (forall k :: 0 <= k < |before| ==> Coarse(before[k]))
    requires forall k :: 0 <= k < |after| ==> Coarse(after[k])
    ensures Inv(Step(Reached(now, before), a)) && HoldInv(Run(Step(Reached(now, before), a), after))
  {
    hide Run, Step, HoldInv, Inv, Coarse;
    RunSnoc(Initial(now), before, a);
    RunConcat(Initial(now), before + [a], after);
    CoarseTogether(before, a, after);
    RunHolds(now, before + [a] + after);
    ReachedOk(now, before + [a]);
  }

  lemma HeldLater(s: State, buyer: UserId, drafts: seq<Draft>, minutes: nat, i: nat, after: seq<Action>)
    requires var begun := Step(s, CheckoutAtOnce(buyer, drafts, minutes));
             Inv(begun) && HoldInv(Run(begun, after)) && s.db.nextOrder < begun.db.nextOrder && i < |drafts|
    ensures HeldWhileUnpaid(Run(Step(s, CheckoutAtOnce(buyer, drafts, minutes)), after), s.db.nextOrder + i, buyer,
                            drafts[i].items, s.now + minutes)
  {
    hide Run, Step, HoldInv, Inv, Evolves, WindowsStay, OpenedFor, HeldFor;
    var begun := Step(s, CheckoutAtOnce(buyer, drafts, minutes));
    ReplacedInWindow(s, buyer, drafts, minutes, i);
    RunKeeps(begun, after);
    RunKeepsWindows(begun, after);
    HeldInWindow(begun, Run(begun, after), s.db.nextOrder + i, buyer, drafts[i], s.now + minutes);
  }

  lemma CoarseTogether(before: seq<Action>, a: Action, after: seq<Action>)
    requires Coarse(a) && (forall k :: 0 <= k < |before| ==> Coarse(before[k]))
    requires forall k :: 0 <= k < |after| ==> Coarse(after[k])
    ensures forall k :: 0 <= k < |before + [a] + after| ==> Coarse((before + [a] + after)[k])
  {
  }

  lemma HeldInWindow(s: State, later: State, id: OrderId, buyer: UserId, d: Draft, until: Time)
    requires id in s.db.orders && OpenedFor(s.db.orders[id], buyer, d) && Evolves(s.db, later.db)
    requires id in s.window && s.window[id] == until && id < s.db.nextOrder && WindowsStay(s, later) && HoldInv(later)
    ensures HeldWhileUnpaid(later, id, buyer, d.items, until)
  {
    if later.db.orders[id].status == Pending {
      assert IsPending(later, id);
      assert HoldsItems(later, id);
    }
    hide OnePending;
  }

  /** While an unpaid order is in its window, no settlement of any other order that has one of its items commits. */
  lemma NobodyElseConfirms(now: Time, actions: seq<Action>, id: OrderId, p: ProductId, t: TaskId)
    requires forall i :: 0 <= i < |actions| ==> Coarse(actions[i])
    requires var s := Reached(now, actions);
             && IsPending(s, id) && p in s.db.orders[id].items && InWindow(s, id)
             && t in s.tasks && s.tasks[t].Settling? && s.tasks[t].order != id && p in s.tasks[t].snapshot.items
    ensures var s := Reached(now, actions); Step(s, CommitSettle(t)).db == s.db
  {
    var s := Reached(now, actions);
    ReachedOk(now, actions);
    RunHolds(now, actions);
    var task := s.tasks[t];
    assert TaskOk(s, task);
    hide Run, OrderOk, OrdersOk, HoldersDistinct, ReturnsOk, ReportsOk;
    SameBuyerOverlap(task.snapshot, s.db.orders[task.order]);
    if CanSettle(s.db, task.order, task.snapshot, task.at) {
      HeldExcludes(s, id, task.snapshot, task.at, p);
    }
  }

  /** A payment that arrives in the window is refused exactly when some item is no longer for sale. */
  lemma InWindowPayment(now: Time, actions: seq<Action>, t: TaskId)
    requires forall i :: 0 <= i < |actions| ==> Coarse(actions[i])
    requires var s := Reached(now, actions);
             && t in s.tasks && s.tasks[t].Settling?
             && IsPending(s, s.tasks[t].order) && InWindow(s, s.tasks[t].order)
    ensures var s := Reached(now, actions);
            var id := s.tasks[t].order;
            var s' := Step(s, CommitSettle(t));
            IsPending(s', id)
            <==> exists p ::
                   p in s.db.orders[id].items && p in s.db.products
                   && (s.db.products[p].status != Active || s.db.products[p].auth != Verified)
  {
    var s := Reached(now, actions);
    ReachedOk(now, actions);
    RunHolds(now, actions);
    hide Run, OrderOk, OrdersOk, HoldersDistinct, ReturnsOk, ReportsOk, OnePending, SettlementNet;
    var task := s.tasks[t];
    assert TaskOk(s, task);
    assert HoldsItems(s, task.order);
    assert CanSettle(s.db, task.order, task.snapshot, task.at) <==>
           forall p :: p in task.snapshot.items ==>
               s.db.products[p].status == Active && s.db.products[p].auth == Verified;
  }

  /** However late the session of a replaced checkout expires, the newer order and its items stay as they are. */
  lemma LateExpiryHarmless(now: Time, actions: seq<Action>, expired: seq<OrderId>, newer: OrderId)
    requires forall i :: 0 <= i < |actions| ==> Coarse(actions[i])
    requires var s := Reached(now, actions);
             IsPending(s, newer) && InWindow(s, newer) && newer !in expired
    ensures var s := Reached(now, actions);
            var s' := Step(s, CancelUnpaidAtOnce(expired));
            && newer in s'.db.orders && s'.db.orders[newer] == s.db.orders[newer]
            && forall p :: p in s.db.orders[newer].items ==>
                 p in s'.db.products && HeldFor(s'.db.products[p], s.db.orders[newer].buyer, s.window[newer])
  {
    var s := Reached(now, actions);
    hide Run, HoldInv;
    RunHolds(now, actions);
    RunHolds(now, actions + [CancelUnpaidAtOnce(expired)]);
    RunSnoc(Initial(now), actions, CancelUnpaidAtOnce(expired));
    var s' := Step(s, CancelUnpaidAtOnce(expired));
    assert IsPending(s', newer);
    PendingHolds(s', newer);
  }

  lemma PendingHolds(s: State, id: OrderId)
    requires HoldInv(s) && IsPending(s, id)
    ensures HoldsItems(s, id)
  {
  }

  // ----- A release on its own -----

  /**
   A release that comes apart from its cancellation keeps the holds exactly when the buyer has no
   unpaid order in its window with one of the released items.
   */
  lemma ReleaseAloneIff(s: State, t: TaskId, id: OrderId)
    requires HoldInv(s) && t in s.tasks && s.tasks[t].ReleasingHolds? && id in s.tasks[t].found
    ensures var row := s.tasks[t].found[id];
            HoldInv(Step(s, ReleaseHolds(t, id))) <==>
            forall o, p ::
              IsPending(s, o) && s.db.orders[o].buyer == row.buyer && InWindow(s, o) && p in s.db.orders[o].items
              ==> p !in row.items
  {
    var row := s.tasks[t].found[id];
    var s' := Step(s, ReleaseHolds(t, id));
    assert s'.db.orders == s.db.orders && s'.db.products == ReleaseFor(s.db.products, row.items, row.buyer);
    forall o | IsPending(s, o)
      ensures HoldsItems(s, o)
      ensures HoldsItems(s', o) <==> (s.db.orders[o].buyer == row.buyer && InWindow(s, o)
                                      ==> forall p :: p in s.db.orders[o].items ==> p !in row.items)
    {
      assert HoldsItems(s, o);
    }
  }

  // ----- A checkout on its own -----

  lemma DraftListed(orders: map<OrderId, Order>, next: OrderId, buyer: UserId, drafts: seq<Draft>, id: OrderId)
    ensures id in WithDrafts(orders, next, buyer, drafts) <==> id in orders || next <= id < next + |drafts|
  {
  }

  lemma OpenedTwice(s: State, buyer: UserId, drafts: seq<Draft>, minutes: nat)
    requires OrdersOk(s) && !Clear(s, buyer, drafts)
    requires ValidDrafts(s.db, buyer, drafts) && CanCheckout(s.db, buyer, drafts, s.now)
    ensures !OnePending(CheckoutStep(s, buyer, drafts, minutes))
  {
    hide OrderOk, Owns, HoldAll, WithDrafts, ValidDrafts, AllAvailable, AllItems;
    var s' := CheckoutStep(s, buyer, drafts, minutes);
    var id, p :| IsPending(s, id) && s.db.orders[id].buyer == buyer && p in AllItems(drafts)
                 && p in s.db.orders[id].items;
    var i :| 0 <= i < |drafts| && p in drafts[i].items;
    var newer := s.db.nextOrder + i;
    DraftListed(s.db.orders, s.db.nextOrder, buyer, drafts, id);
    DraftListed(s.db.orders, s.db.nextOrder, buyer, drafts, newer);
    WithDraftsAt(s.db.orders, s.db.nextOrder, buyer, drafts, id);
    WithDraftsAt(s.db.orders, s.db.nextOrder, buyer, drafts, newer);
    assert Overlap(s'.db.orders[id], s'.db.orders[newer]);
  }

  /**
   A checkout that comes apart from the replacement before it keeps the holds exactly when it is refused or the
   buyer has no unpaid order with one of its items.
   */
  lemma OpenAloneIff(s: State, buyer: UserId, drafts: seq<Draft>, minutes: nat)
    requires Inv(s) && HoldInv(s)
    ensures HoldInv(Step(s, OpenOrders(buyer, drafts, minutes)))
        <==> !ValidDrafts(s.db, buyer, drafts) || !CanCheckout(s.db, buyer, drafts, s.now) || Clear(s, buyer, drafts)
  {
    hide Clear, ValidDrafts, CanCheckout, OnePending, OrdersOk;
    assert Step(s, OpenOrders(buyer, drafts, minutes)) == CheckoutStep(s, buyer, drafts, minutes);
    if Clear(s, buyer, drafts) {
      CheckoutHolds(s, buyer, drafts, minutes);
    } else if ValidDrafts(s.db, buyer, drafts) && CanCheckout(s.db, buyer, drafts, s.now) {
      OpenedTwice(s, buyer, drafts, minutes);
    }
  }

  /** Two checkouts of a buyer that both found nothing to replace leave two unpaid orders for the one item. */
  lemma TwoOpenOrders()
    ensures var s := Reached(0, GAP_LISTING + [GAP_CHECKOUT] + [GAP_CHECKOUT]);
            && IsPending(s, 1) && IsPending(s, 2) && s.db.orders[1].buyer == s.db.orders[2].buyer
            && s.db.orders[1].items == s.db.orders[2].items == [7]
  {
    var drafts := [Draft(1, [7], 1000)];
    RunSnoc(Initial(0), GAP_LISTING + [GAP_CHECKOUT], GAP_CHECKOUT);
    GapOpened();
    hide Run, CheckoutStep;
    var s := GapState(Active, map[], []);
    RetryChecksOut(s);
    OldOrderStays(s, 2, drafts, 30, 1);
    assert Step(s, GAP_CHECKOUT) == CheckoutStep(s, 2, drafts, 30);
  }

  lemma OldOrderStays(s: State, buyer: UserId, drafts: seq<Draft>, minutes: nat, id: OrderId)
    requires id in s.db.orders && id < s.db.nextOrder
    ensures id in CheckoutStep(s, buyer, drafts, minutes).db.orders
    ensures CheckoutStep(s, buyer, drafts, minutes).db.orders[id] == s.db.orders[id]
  {
    hide AllItems, ValidDrafts, CanCheckout, HoldAll;
  }

  const RETRY: Action := CheckoutAtOnce(2, [Draft(1, [7], 1000)], 30)

  const GAP_FOUND: map<OrderId, Order> := map[1 := GAP_ORDER]

  lemma RetryReplaces(db: Db)
    requires db == GapState(Active, map[], []).db
    ensures var db' := OpenCheckoutsReplaced(db, 2, [7], 0);
            && db'.orders.Keys == {1} && db'.orders[1].status == Cancelled
            && db'.products.Keys == {7} && Available(db'.products[7], 2, 0) && db'.products[7].seller == 1
            && db'.nextOrder == 2
  {
    assert 7 in GAP_ORDER.items;
    assert 1 in OpenOrdersOf(db, 2, [7]) by {
      assert 7 in [7];
    }
  }

  /** The buyer's unpaid order, found by a pass that cancels expired checkouts, is replaced by a retry. */
  lemma RetryOpensNewer(s: State, buyer: UserId, drafts: seq<Draft>, minutes: nat)
    requires s == GapState(Active, map[1 := FoundUnpaid(GAP_FOUND)], [])
    requires RETRY == CheckoutAtOnce(buyer, drafts, minutes)
    ensures var s' := ReplaceAndCheckoutStep(s, buyer, drafts, minutes);
            && s'.tasks == s.tasks && s'.now == 0
            && IsPending(s', 2) && s'.db.orders[2].items == [7] && InWindow(s', 2)
            && 7 in s'.db.products
  {
    GapDrafts();
    RetryReplaces(s.db);
    hide OpenCheckoutsReplaced, AllItems, CheckoutStep;
    RetryChecksOut(s.(db := OpenCheckoutsReplaced(s.db, 2, [7], 0)));
  }

  lemma RetryChecksOut(s: State)
    requires s.now == 0 && s.db.nextOrder == 2 && s.db.orders.Keys == {1}
    requires s.db.products.Keys == {7} && Available(s.db.products[7], 2, 0) && s.db.products[7].seller == 1
    ensures var s' := CheckoutStep(s, 2, [Draft(1, [7], 1000)], 30);
            && s'.tasks == s.tasks && s'.now == 0
            && IsPending(s', 2) && s'.db.orders[2].items == [7] && s'.db.orders[2].buyer == 2 && InWindow(s', 2)
            && 7 in s'.db.products
  {
    var drafts := [Draft(1, [7], 1000)];
    GapDrafts();
    hide AllItems;
    assert ValidDrafts(s.db, 2, drafts) && CanCheckout(s.db, 2, drafts, 0);
    var s' := CheckoutStep(s, 2, drafts, 30);
    assert s'.window[2] == WindowOf(2, 30);
    assert s'.db.orders[2] == DraftRow(2, drafts, 2, 2);
  }

  lemma LateRelease(s: State)
    requires 1 in s.tasks && s.tasks[1] == FoundUnpaid(GAP_FOUND) && 7 in s.db.products
    requires IsPending(s, 2) && s.db.orders[2].items == [7] && InWindow(s, 2)
    ensures var s' := Step(Step(s, CancelUnpaid(1)), ReleaseHolds(1, 1));
            && IsPending(s', 2) && InWindow(s', 2) && s'.db.orders[2].items == [7]
            && 7 in s'.db.products && s'.db.products[7].reservedBy != Some(2)
  {
    var s1 := Step(s, CancelUnpaid(1));
    assert s1.db.orders[2] == s.db.orders[2];
    assert s1.tasks[1] == ReleasingHolds(GAP_FOUND);
    assert 7 in GAP_ORDER.items;
  }

  /**
   The pass then cancels nothing, for its order is cancelled already, but still releases what it
   found: the newer order is unpaid and in its window, and its item is no longer held for its buyer.
   */
  lemma LateReleaseDropsNewerHold()
    ensures var opening := GAP_LISTING + [GAP_CHECKOUT];
            var s := Reached(0, opening + [FindUnpaid(1, [1]), RETRY, CancelUnpaid(1)] + [ReleaseHolds(1, 1)]);
            && IsPending(s, 2) && InWindow(s, 2) && s.db.orders[2].items == [7]
            && 7 in s.db.products && s.db.products[7].reservedBy != Some(2)
  {
    var opening := GAP_LISTING + [GAP_CHECKOUT];
    var race := [FindUnpaid(1, [1]), RETRY, CancelUnpaid(1)];
    RunSnoc(Initial(0), opening + race, ReleaseHolds(1, 1));
    RunConcat(Initial(0), opening, race);
    GapOpened();
    var s0 := GapState(Active, map[], []);
    RunThree(s0, FindUnpaid(1, [1]), RETRY, CancelUnpaid(1));
    hide Run;
    RetryFinds(s0);
    hide Step, ReplaceAndCheckoutStep;
    var s1 := Step(s0, FindUnpaid(1, [1]));
    RetryStep(s1, RETRY);
    RetryOpensNewer(s1, RETRY.buyer, RETRY.drafts, RETRY.minutes);
    LateRelease(Step(s1, RETRY));
  }

  lemma RetryFinds(s: State)
    requires s == GapState(Active, map[], [])
    ensures Step(s, FindUnpaid(1, [1])) == GapState(Active, map[1 := FoundUnpaid(GAP_FOUND)], [])
  {
    assert FindPending(s.db, [1]) == GAP_FOUND;
  }

  lemma RetryStep(s: State, a: Action)
    requires a.CheckoutAtOnce?
    ensures Step(s, a) == ReplaceAndCheckoutStep(s, a.buyer, a.drafts, a.minutes)
  {
  }
}
