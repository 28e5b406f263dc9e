/** States reached from an empty marketplace in which the failing runs of the other modules start. */
module Witnesses {
  import opened Wrappers
  import opened SellerFees
  import opened Domain
  import opened OrderSteps
  import opened Protocol
  import opened ProtocolInvariant
  import opened ProtocolTheorems
  import opened Lifecycle
  import opened ReturnRaces
  import opened Finalization
  import opened Payments
  import Tbi

  // ----- What a few requests come to when nothing interrupts them -----

  /** An item of this seller, listed and authenticated, and held for nobody. */
  function ListedItem(seller: UserId): Product {
    Product(seller, Active, Verified, None, None, None)
  }

  function Listing(p: ProductId, seller: UserId): seq<Action> {
    [AddProduct(p, seller), SetAuthentication(p, Verified), PublishVerified(p)]
  }

  lemma ListingSteps(s: State, p: ProductId, seller: UserId)
    ensures Run(s, Listing(p, seller))
         == ProductStep(ProductStep(ProductStep(s, AddProduct(p, seller)), SetAuthentication(p, Verified)),
                        PublishVerified(p))
  {
    hide Run, ProductStep;
    RunThree(s, AddProduct(p, seller), SetAuthentication(p, Verified), PublishVerified(p));
  }

  lemma Lists(s: State, p: ProductId, seller: UserId)
    requires p !in s.db.products
    ensures Run(s, Listing(p, seller)) == SetProduct(s, p, ListedItem(seller))
  {
    hide Run;
    ListingSteps(s, p, seller);
    assert ProductStep(s, AddProduct(p, seller))
        == SetProduct(s, p, Product(seller, Inactive, NotSubmitted, None, None, None));
  }

  function Payment(id: OrderId): seq<Action> {
    [BeginSettle(1, id, 10.0, None), CommitSettle(1)]
  }

  lemma Pays(s: State, id: OrderId)
    requires 1 !in s.tasks && id in s.db.orders && CanSettle(s.db, id, s.db.orders[id], s.now)
    ensures Run(s, Payment(id)) == SettledState(s, id, s.db.orders[id].items, s.now, 10.0, None)
  {
    hide Run, AllAvailable, SettledDb;
    RunTwo(s, Payment(id)[0], Payment(id)[1]);
    var begun := Begin(s, 1, Settling(id, s.db.orders[id], s.now, 10.0, None));
    assert Step(s, Payment(id)[0]) == begun;
    assert begun.tasks - {1} == s.tasks && End(begun, 1) == s;
    assert Step(begun, Payment(id)[1]) == CommitSettleStep(begun, 1);
  }

  function Move(id: OrderId, to: OrderStatus): seq<Action> {
    [BeginAdvance(1, id, Seller, to), Protocol.Advance(1)]
  }

  lemma Ended(s: State, t: TaskId, task: Task)
    requires t !in s.tasks
    ensures End(Begin(s, t, task), t) == s
  {
    assert Begin(s, t, task).tasks - {t} == s.tasks;
  }

  lemma MoveSteps(s: State, id: OrderId, to: OrderStatus)
    ensures Run(s, Move(id, to)) == AdvanceStep(BeginAdvanceStep(s, 1, id, Seller, to), 1)
  {
    hide Run, AdvanceStep, BeginAdvanceStep;
    RunTwo(s, Move(id, to)[0], Move(id, to)[1]);
  }

  lemma Moves(s: State, id: OrderId, to: OrderStatus)
    requires 1 !in s.tasks && id in s.db.orders && !Terminal(to) && MayMove(Seller, s.db.orders[id].status, to)
    ensures Run(s, Move(id, to)) == SetOrder(s, id, Advanced(s.db.orders[id], to, s.now))
  {
    MoveSteps(s, id, to);
    Ended(s, 1, Advancing(id, s.db.orders[id].status, to));
    hide Run, MayMove, Advanced, End;
  }

  /** The order is paid, shipped and delivered. */
  function Sale(id: OrderId): seq<Action> {
    Payment(id) + Move(id, Shipped) + Move(id, Delivered)
  }

  predicate Sold(s: State, id: OrderId, items: nat) {
    && id in s.db.orders && |s.db.orders[id].items| == items
    && s.db.orders[id].status == Delivered && s.db.orders[id].sellerNet.Some?
  }

  lemma Sells(s: State, id: OrderId)
    requires s.tasks == map[] && s.db.returnRequests == map[]
    requires id in s.db.orders && CanSettle(s.db, id, s.db.orders[id], s.now)
    ensures var s' := Run(s, Sale(id));
            s'.tasks == map[] && s'.db.returnRequests == map[] && Sold(s', id, |s.db.orders[id].items|)
  {
    RunConcat(s, Payment(id) + Move(id, Shipped), Move(id, Delivered));
    RunConcat(s, Payment(id), Move(id, Shipped));
    hide Run, SellAll, CanSettle, SettlementNet;
    Pays(s, id);
    var paid := Run(s, Payment(id));
    Moves(paid, id, Shipped);
    Moves(Run(paid, Move(id, Shipped)), id, Delivered);
  }

  function Ask(key: ItemKey): seq<Action> {
    [BeginReturn(1, key), InsertReturn(1)]
  }

  lemma AskSteps(s: State, key: ItemKey)
    ensures Run(s, Ask(key)) == InsertReturnStep(BeginReturnStep(s, 1, key), 1)
  {
    hide Run, InsertReturnStep, BeginReturnStep;
    RunTwo(s, Ask(key)[0], Ask(key)[1]);
  }

  lemma Asks(s: State, key: ItemKey)
    requires 1 !in s.tasks && key !in s.db.returnRequests && key.order in s.db.orders
    requires key.index < |s.db.orders[key.order].items| && s.db.orders[key.order].status == Delivered
    ensures Run(s, Ask(key)) == SetReturn(s, key, ReturnRequest(Requested, None, None))
  {
    AskSteps(s, key);
    Ended(s, 1, ReturnAllowed(key));
    hide Run, End;
  }

  function Approval(key: ItemKey): seq<Action> {
    [ReadReturn(1, key, Approved), WriteReturn(1, None, Fresh(0.0))]
  }

  /** The seller approves; nothing is refunded, so that nothing else changes. */
  function Ending(t: TaskId): seq<Action> {
    [ReadEarnings(t), ReadFullyReturned(t)]
  }

  lemma ReturnSteps(s: State, t: TaskId, key: ItemKey, newStatus: ReturnStatus, made: MoneyBack)
    ensures Run(s, [ReadReturn(t, key, newStatus), WriteReturn(t, None, made)])
         == WriteReturnStep(ReadReturnStep(s, t, key, newStatus), t, None, made)
  {
    hide Run, ReadReturnStep, WriteReturnStep;
    RunTwo(s, ReadReturn(t, key, newStatus), WriteReturn(t, None, made));
  }

  lemma Approves(s: State, key: ItemKey)
    requires 1 !in s.tasks && key in s.db.returnRequests
    requires s.db.returnRequests[key] == ReturnRequest(Requested, None, None)
    ensures var s' := SetReturn(s, key, ReturnRequest(Approved, None, None));
            Run(s, Approval(key)) == s'.(tasks := s.tasks[1 := ReturnWritten(key.order, None)])
  {
    hide Run;
    ReturnSteps(s, 1, key, Approved, Fresh(0.0));
    assert ReadReturnStep(s, 1, key, Approved) == Begin(s, 1, ReturnRead(key, Approved, None));
  }

  lemma EndingSteps(s: State, t: TaskId)
    ensures Run(s, Ending(t)) == ReadFullyReturnedStep(ReadEarningsStep(s, t), t)
  {
    hide Run, ReadFullyReturnedStep, ReadEarningsStep;
    RunTwo(s, ReadEarnings(t), ReadFullyReturned(t));
  }

  lemma Ends(s: State, id: OrderId)
    requires 1 in s.tasks && s.tasks[1] == ReturnWritten(id, None)
    requires id in s.db.orders && !FullyReturned(s.db, id)
    ensures Run(s, Ending(1)) == End(s, 1)
  {
    hide Run, FullyReturned;
    EndingSteps(s, 1);
    var done := ReadEarningsStep(s, 1);
    assert done == s.(tasks := s.tasks[1 := EarningsDone(id)]);
    assert done.tasks - {1} == s.tasks - {1};
  }

  /** A return is asked for and approved. */
  function Return(key: ItemKey): seq<Action> {
    Ask(key) + Approval(key) + Ending(1)
  }

  lemma SetTwice(s: State, key: ItemKey, a: ReturnRequest, b: ReturnRequest)
    ensures SetReturn(SetReturn(s, key, a), key, b) == SetReturn(s, key, b)
  {
    assert s.db.returnRequests[key := a][key := b] == s.db.returnRequests[key := b];
  }

  lemma Returns(s: State, key: ItemKey)
    requires 1 !in s.tasks && key !in s.db.returnRequests && key.order in s.db.orders
    requires key.index < |s.db.orders[key.order].items| && s.db.orders[key.order].status == Delivered
    ensures Run(s, Return(key)) == SetReturn(s, key, ReturnRequest(Approved, None, None))
  {
    RunConcat(s, Ask(key) + Approval(key), Ending(1));
    RunConcat(s, Ask(key), Approval(key));
    hide Run, Ask, Approval, Ending, FullyReturned, End;
    Asks(s, key);
    Approves(SetReturn(s, key, ReturnRequest(Requested, None, None)), key);
    SetTwice(s, key, ReturnRequest(Requested, None, None), ReturnRequest(Approved, None, None));
    NotYetReturned(s, key);
    var approved := SetReturn(s, key, ReturnRequest(Approved, None, None));
    Ends(Begin(approved, 1, ReturnWritten(key.order, None)), key.order);
    Ended(approved, 1, ReturnWritten(key.order, None));
  }

  lemma NotYetReturned(s: State, key: ItemKey)
    requires key.order in s.db.orders && key.index < |s.db.orders[key.order].items|
    ensures !FullyReturned(SetReturn(s, key, ReturnRequest(Approved, None, None)).db, key.order)
  {
    assert ItemKey(key.order, key.index) == key;
  }

  /** An update completes an approved return and writes that. */
  function Completion(t: TaskId, key: ItemKey, refund: MoneyBack): seq<Action> {
    [ReadReturn(t, key, Completed), WriteReturn(t, None, refund)]
  }

  lemma Completes(s: State, t: TaskId, key: ItemKey, refund: MoneyBack)
    requires t !in s.tasks && key in s.db.returnRequests && 0.0 <= refund.usd && !refund.already
    requires s.db.returnRequests[key] == ReturnRequest(Approved, None, None)
    ensures var s' := Run(s, Completion(t, key, refund));
            && s'.db.orders == s.db.orders && s'.tasks == s.tasks[t := ReturnWritten(key.order, Some(refund.usd))]
            && key in s'.db.returnRequests && s'.db.returnRequests - {key} == s.db.returnRequests - {key}
  {
    hide Run;
    ReturnSteps(s, t, key, Completed, refund);
    assert ReadReturnStep(s, t, key, Completed) == Begin(s, t, ReturnRead(key, Completed, None));
  }

  // ----- A cart of two sellers -----

  const CART: seq<Draft> := [Draft(1, [7, 9], 1000), Draft(3, [8], 2000)]

  const TO_CART: seq<Action> := Listing(7, 1) + Listing(9, 1) + Listing(8, 3) + [CheckoutAtOnce(2, CART, 30)]

  const LISTED: Db := Db(map[7 := ListedItem(1), 9 := ListedItem(1), 8 := ListedItem(3)], map[], 1, map[])

  const ORDERED: Db :=
    LISTED.(products := HoldAll(LISTED.products, [7, 9, 8], 2, 30),
            orders := map[1 := Opened(2, CART[0]), 2 := Opened(2, CART[1])], nextOrder := 3)

  lemma CartListed()
    ensures Reached(0, Listing(7, 1) + Listing(9, 1) + Listing(8, 3)) == Initial(0).(db := LISTED)
  {
    RunConcat(Initial(0), Listing(7, 1) + Listing(9, 1), Listing(8, 3));
    RunConcat(Initial(0), Listing(7, 1), Listing(9, 1));
    hide Run;
    Lists(Initial(0), 7, 1);
    Lists(SetProduct(Initial(0), 7, ListedItem(1)), 9, 1);
    Lists(SetProduct(SetProduct(Initial(0), 7, ListedItem(1)), 9, ListedItem(1)), 8, 3);
  }

  lemma CartDrafts()
    ensures AllItems(CART) == [7, 9, 8]
    ensures WithDrafts(map[], 1, 2, CART) == ORDERED.orders
  {
    assert CART[..1] == [CART[0]] && CART[..1][..0] == [];
    assert AllItems(CART[..1]) == AllItems([]) + [7, 9];
    assert DraftRow(2, CART, 1, 1) == Opened(2, CART[0]);
    assert DraftRow(2, CART, 1, 2) == Opened(2, CART[1]);
  }

  lemma NothingReplaced(buyer: UserId, ids: seq<ProductId>, now: Time)
    ensures OpenCheckoutsReplaced(LISTED, buyer, ids, now) == LISTED
  {
    assert OpenOrdersOf(LISTED, buyer, ids) == {};
    assert OpenCheckouts(LISTED, buyer, ids) == map[];
    assert ReleaseFound(LISTED.products, map[]) == LISTED.products;
  }

  lemma CartChecksOut(s: State)
    requires s.db == LISTED && s.now == 0
    ensures CheckoutStep(s, 2, CART, 30).db == ORDERED
    ensures CheckoutStep(s, 2, CART, 30).tasks == s.tasks && CheckoutStep(s, 2, CART, 30).now == 0
  {
    CartDrafts();
    hide AllItems, WithDrafts, HoldAll;
    assert ValidDrafts(s.db, 2, CART) && CanCheckout(s.db, 2, CART, 0);
  }

  lemma CartOrdered()
    ensures var s := Reached(0, TO_CART); s.db == ORDERED && s.tasks == map[] && s.now == 0
  {
    hide Run, Listing, AllItems, OpenCheckoutsReplaced, CheckoutStep, HoldAll;
    CartListed();
    var s := Initial(0).(db := LISTED);
    RunSnoc(Initial(0), Listing(7, 1) + Listing(9, 1) + Listing(8, 3), CheckoutAtOnce(2, CART, 30));
    NothingReplaced(2, AllItems(CART), 0);
    CartChecksOut(s);
    assert Step(s, CheckoutAtOnce(2, CART, 30)) == ReplaceAndCheckoutStep(s, 2, CART, 30);
  }

  lemma CartPayable()
    ensures CanSettle(ORDERED, 1, ORDERED.orders[1], 0) && CanSettle(ORDERED, 2, ORDERED.orders[2], 0)
  {
  }

  // ----- One payment for two orders that can both be settled -----

  const FIRST_SETTLED: Db := SettledDb(ORDERED, 1, [7, 9], 0, 10.0, None)

  lemma SecondPayable()
    ensures 2 in FIRST_SETTLED.orders && FIRST_SETTLED.orders[2] == ORDERED.orders[2]
    ensures CanSettle(FIRST_SETTLED, 2, ORDERED.orders[2], 0)
  {
    hide SettlementNet;
  }

  lemma CartConfirmed(settings: Settings)
    requires settings(1) == Unset && settings(3) == Unset
    ensures var r := SettleEach(ORDERED, [1, 2], 0, settings, None);
            r.error.None? && r.reports == [ConfirmedNow, ConfirmedNow]
  {
    CartPayable();
    SecondPayable();
    hide SettledDb, CanSettle, HoldAll;
    var both := SettledDb(FIRST_SETTLED, 2, [8], 0, 10.0, None);
    assert SettleOne(ORDERED, 1, 0, settings, None) == Success((FIRST_SETTLED, ConfirmedNow));
    assert SettleOne(FIRST_SETTLED, 2, 0, settings, None) == Success((both, ConfirmedNow));
    hide SettleOne;
    assert [1, 2][..1] == [1] && [1][..0] == [];
    assert SettleEach(ORDERED, [1], 0, settings, None) == Settlements(FIRST_SETTLED, [ConfirmedNow], None);
  }

  /** A cart of two sellers, paid once and delivered twice at the same time, spends its coupon twice. */
  lemma CouponSpentTwiceReached(settings: Settings)
    requires settings(1) == Unset && settings(3) == Unset
    ensures var db := Reached(0, TO_CART).db;
            RaceSpends(RaceRun(db, [1, 2], Overtaking(1), 0, settings, None)) == 2
  {
    CartOrdered();
    CartConfirmed(settings);
    hide SettleEach, RaceRun, Run;
    OvertakingSpendsTwice(ORDERED, [1, 2], 0, 1, 0, settings, None);
  }

  // ----- A financed cart of which one item is checked out again -----

  const RETRIED: seq<Draft> := [Draft(1, [7], 500)]

  /** The buyer's unfinished payment of the cart: a newer checkout closes it, and one of its orders stays open. */
  lemma ClosedPaymentReached(t: Transaction)
    requires t.buyer == 2 && t.orderIds == [1, 2] && t.status == InProcess
    ensures var db := Reached(0, TO_CART).db;
            && Tbi.LeftOpen(db, 2, RETRIED, 0) && db.orders[2].buyer == t.buyer && Tbi.OthersReplaced(db, t, 2, RETRIED)
            && OpenFor(t, OpenOrdersOf(db, t.buyer, AllItems(RETRIED)), t.buyer)
  {
    CartOrdered();
    CartPayable();
    assert RETRIED[..0] == [];
    assert AllItems(RETRIED) == [7];
    hide AllItems, Run, CanSettle, HoldAll;
    assert 1 in OpenOrdersOf(ORDERED, 2, [7]) by {
      assert 7 in [7];
    }
    assert CoversOrder(t, 1);
  }

  // ----- Approved returns of a delivered order -----

  /** The order of one item is delivered, and the return of its item is approved. */
  const TO_APPROVED_RETURN: seq<Action> := TO_CART + Sale(2) + Return(ItemKey(2, 0))

  lemma ApprovedReturnReached()
    ensures var s := Reached(0, TO_APPROVED_RETURN);
            && s.tasks == map[] && Sold(s, 2, 1)
            && s.db.returnRequests == map[ItemKey(2, 0) := ReturnRequest(Approved, None, None)]
  {
    RunConcat(Initial(0), TO_CART + Sale(2), Return(ItemKey(2, 0)));
    RunConcat(Initial(0), TO_CART, Sale(2));
    CartOrdered();
    CartPayable();
    hide Run, CanSettle;
    Sells(Reached(0, TO_CART), 2);
    Returns(Reached(0, TO_CART + Sale(2)), ItemKey(2, 0));
  }

  /** The races over one return start in a state that is reached: its order delivered, with a net amount. */
  lemma ReturnRacesStart(t: TaskId, u: TaskId)
    requires t != u
    ensures var s := Reached(0, TO_APPROVED_RETURN);
            ApprovedFor(s, ItemKey(2, 0), t, u) && 2 in s.db.orders && s.db.orders[2].sellerNet.Some?
  {
    ApprovedReturnReached();
    hide Run;
  }

  /** Both items of the other order are returned, and both refunds are to be taken off what its seller nets. */
  function ToTwoRefunds(a: MoneyBack, b: MoneyBack): seq<Action> {
    TO_CART + Sale(1) + Return(ItemKey(1, 0)) + Return(ItemKey(1, 1))
    + Completion(1, ItemKey(1, 0), a) + Completion(2, ItemKey(1, 1), b)
  }

  /** From an empty marketplace to a net amount that lacks only one of two refunds. */
  lemma EarningsOverwrittenReached(a: MoneyBack, b: MoneyBack)
    requires 0.0 < a.usd && 0.0 < b.usd && !a.already && !b.already
    ensures var s := Reached(0, ToTwoRefunds(a, b));
            var read := Step(Step(s, ReadEarnings(1)), ReadEarnings(2));
            var written := Step(Step(read, WriteEarnings(1)), WriteEarnings(2));
            && 1 in s.db.orders && s.db.orders[1].sellerNet.Some? && 1 in written.db.orders
            && written.db.orders[1].sellerNet == Some(EarningsAfter(s.db.orders[1], b.usd))
  {
    TwoRefundsReached(a, b);
    hide Run, Step, ToTwoRefunds;
    EarningsOverwritten(Reached(0, ToTwoRefunds(a, b)), 1, 2, 1, a.usd, b.usd);
  }

  lemma TwoRefundsReached(a: MoneyBack, b: MoneyBack)
    requires 0.0 <= a.usd && 0.0 <= b.usd && !a.already && !b.already
    ensures var s := Reached(0, ToTwoRefunds(a, b));
            && s.tasks == map[1 := ReturnWritten(1, Some(a.usd)), 2 := ReturnWritten(1, Some(b.usd))] && Sold(s, 1, 2)
  {
    TwoReturnsReached();
    var returned := TO_CART + Sale(1) + Return(ItemKey(1, 0)) + Return(ItemKey(1, 1));
    var s := Reached(0, returned);
    var first := Completion(1, ItemKey(1, 0), a);
    var second := Completion(2, ItemKey(1, 1), b);
    assert ToTwoRefunds(a, b) == returned + first + second;
    RunConcat(Initial(0), returned + first, second);
    RunConcat(Initial(0), returned, first);
    Completes(s, 1, ItemKey(1, 0), a);
    hide Run, Completion, Return, Sale;
    var one := Run(s, first);
    assert ItemKey(1, 1) in s.db.returnRequests - {ItemKey(1, 0)};
    assert one.db.returnRequests[ItemKey(1, 1)] == (one.db.returnRequests - {ItemKey(1, 0)})[ItemKey(1, 1)];
    Completes(one, 2, ItemKey(1, 1), b);
  }

  lemma TwoReturnsReached()
    ensures var s := Reached(0, TO_CART + Sale(1) + Return(ItemKey(1, 0)) + Return(ItemKey(1, 1)));
            && s.tasks == map[] && Sold(s, 1, 2)
            && s.db.returnRequests == map[ItemKey(1, 0) := ReturnRequest(Approved, None, None),
                                          ItemKey(1, 1) := ReturnRequest(Approved, None, None)]
  {
    RunConcat(Initial(0), TO_CART + Sale(1) + Return(ItemKey(1, 0)), Return(ItemKey(1, 1)));
    RunConcat(Initial(0), TO_CART + Sale(1), Return(ItemKey(1, 0)));
    RunConcat(Initial(0), TO_CART, Sale(1));
    CartOrdered();
    CartPayable();
    hide Run, CanSettle;
    Sells(Reached(0, TO_CART), 1);
    Returns(Reached(0, TO_CART + Sale(1)), ItemKey(1, 0));
    Returns(Reached(0, TO_CART + Sale(1) + Return(ItemKey(1, 0))), ItemKey(1, 1));
  }

  // ----- A delivered order being refunded by hand while its return is completed -----

  const REFUND_BY_HAND: seq<Action> := [BeginCancel(1, 2, Admin, None, Refunded, ByCard), Claim(1)]

  lemma RefundByHandSteps(s: State)
    ensures Run(s, REFUND_BY_HAND) == ClaimStep(BeginCancelStep(s, 1, 2, Admin, None, Refunded, ByCard), 1)
  {
    hide Run, ClaimStep, BeginCancelStep;
    RunTwo(s, REFUND_BY_HAND[0], REFUND_BY_HAND[1]);
  }

  lemma RefundByHandBegins(s: State)
    requires 1 !in s.tasks && Sold(s, 2, 1)
    ensures var s' := Run(s, REFUND_BY_HAND);
            && UnderRefund(s', 1, 2) && s'.tasks[1].before == s.db.orders[2]
            && s'.tasks - {1} == s.tasks && s'.db.returnRequests == s.db.returnRequests
  {
    hide Run;
    RefundByHandSteps(s);
    var c := Cancellation(s.now, None, Admin);
    assert BeginCancelStep(s, 1, 2, Admin, None, Refunded, ByCard)
        == Begin(s, 1, Cancelling(2, s.db.orders[2], Refunded, c, ByCard));
  }

  const TO_REFUND_BY_HAND: seq<Action> :=
    TO_APPROVED_RETURN + [ReadReturn(2, ItemKey(2, 0), Completed)] + REFUND_BY_HAND

  lemma RefundByHandReached()
    ensures var s := Reached(0, TO_REFUND_BY_HAND);
            && UnderRefund(s, 1, 2) && s.tasks[1].before.status == Delivered && |s.tasks[1].before.items| == 1
            && 2 in s.tasks && s.tasks[2] == ReturnRead(ItemKey(2, 0), Completed, None)
            && ItemKey(2, 0) in s.db.returnRequests
  {
    var key := ItemKey(2, 0);
    var read := ReadReturn(2, key, Completed);
    RunConcat(Initial(0), TO_APPROVED_RETURN + [read], REFUND_BY_HAND);
    RunSnoc(Initial(0), TO_APPROVED_RETURN, read);
    ApprovedReturnReached();
    var s := Reached(0, TO_APPROVED_RETURN);
    hide Run, Step;
    ReadsApproved(s, 2, key, Completed);
    RefundByHandBegins(Step(s, read));
    assert 2 in Reached(0, TO_REFUND_BY_HAND).tasks - {1};
  }

  /** From an empty marketplace to a delivered order whose only item was returned and refunded. */
  lemma FullyReturnedYetDeliveredReached()
    ensures var s := Reached(0, TO_REFUND_BY_HAND + Finishing(2, Fresh(500.0)) + [RefundFails(1)]);
            2 in s.db.orders && FullyReturned(s.db, 2) && s.db.orders[2].status == Delivered
  {
    RunSnoc(Initial(0), TO_REFUND_BY_HAND + Finishing(2, Fresh(500.0)), RefundFails(1));
    RunConcat(Initial(0), TO_REFUND_BY_HAND, Finishing(2, Fresh(500.0)));
    RefundByHandReached();
    ReachedOk(0, TO_REFUND_BY_HAND);
    hide Run, Step, Inv, UnderRefund, FullyReturned;
    FullyReturnedYetDelivered(Reached(0, TO_REFUND_BY_HAND), 1, 2, 2, Fresh(500.0));
  }
}
