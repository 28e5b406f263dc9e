/** Paying the sellers of a cart: the transfers of one delivery, and of any number of redeliveries. */
module Transfers {
  import opened Wrappers
  import opened Money
  import opened Sums
  import opened SellerFees
  import opened Domain
  import opened Payments
  import opened Refunds

  /** Whether a seller can be paid, and at which fee an order without a plan is split. */
  datatype SellerAccount = SellerAccount(ready: bool, fee: real)

  type Accounts = UserId -> SellerAccount

  function PlannedSplit(t: Transaction, id: OrderId, o: Order, fee: real): Split {
    match Planned(t.plan, id)
    case Some(plan) => plan.split
    case None => CalculatePaymentSplit(o.total, fee)
  }

  /** An order that the payment has no plan for is split by its seller's fee, like any other amount. */
  lemma UnplannedSplit(t: Transaction, id: OrderId, o: Order, fee: real)
    requires Planned(t.plan, id).None? && 0 <= o.total && Percentage(fee)
    ensures var split := PlannedSplit(t, id, o, fee);
            && split.fee + split.transfer == o.total
            && Kept(o.total as real, fee) - 0.5 <= split.transfer as real <= Kept(o.total as real, fee) + 0.5
  {
    SplitConserves(o.total, fee);
  }

  /** The Stripe side: what was transferred, and the idempotency keys that Stripe no longer remembers. */
  datatype Till = Till(moved: seq<Movement>, forgotten: set<StripeKey>)

  function Transfer(till: Till, key: StripeKey, amount: Cents): Result<Till, StripeError> {
    if key in till.forgotten then Success(Till(till.moved + [Movement(key, amount)], till.forgotten - {key}))
    else
      match Create(till.moved, key, amount)
      case Success(moved) => Success(till.(moved := moved))
      case Failure(e) => Failure(e)
  }

  datatype Pass = Pass(till: Till, entries: seq<TransferEntry>, stopped: bool)

  /** One order of the loop; the ledger consulted is the one read before the loop. */
  function TransferOne(p: Pass, t: Transaction, id: OrderId, o: Order, account: SellerAccount, up: bool): Pass {
    var share := PlannedSplit(t, id, o, account.fee).transfer;
    if WasTransferred(t, id) then p
    else if !account.ready then p.(stopped := true)
    else if share <= 0 then p
    else if !up then p.(stopped := true)
    else
      match Transfer(p.till, CartTransfer(t.session, id), share)
      case Failure(_) => p.(stopped := true)
      case Success(till) => Pass(till, p.entries + [TransferEntry(id, share)], false)
  }

  /** An order that was never paid out is now, if its seller is ready and it has a share; else the loop may stop. */
  lemma TransferredIff(p: Pass, t: Transaction, id: OrderId, o: Order, account: SellerAccount, up: bool)
    requires !p.stopped && AmountUnder(p.till.moved, CartTransfer(t.session, id)).None? && p.till.forgotten == {}
    ensures var share := PlannedSplit(t, id, o, account.fee).transfer;
            var due := (forall i :: 0 <= i < |t.transfers| ==> t.transfers[i].order != id) && 0 < share;
            var q := TransferOne(p, t, id, o, account, up);
            if due && account.ready && up then
              && q.till.moved == p.till.moved + [Movement(CartTransfer(t.session, id), share)]
              && q.entries == p.entries + [TransferEntry(id, share)] && !q.stopped
            else
              && q == p.(stopped := q.stopped)
              && (due ==> q.stopped) && (WasTransferred(t, id) || (account.ready && share <= 0) ==> !q.stopped)
  {
    hide PlannedSplit, AmountUnder;
  }

  /** The loop over the orders; `failsAt` is the position whose call to Stripe fails, if it gets there. */
  function TransferEach(till: Till, t: Transaction, ids: seq<OrderId>, orders: map<OrderId, Order>, accounts: Accounts,
                        failsAt: Option<nat>): Pass
  {
    if ids == [] then Pass(till, t.transfers, false)
    else
      var n := |ids| - 1;
      var p := TransferEach(till, t, ids[..n], orders, accounts, failsAt);
      if p.stopped || ids[n] !in orders then p
      else TransferOne(p, t, ids[n], orders[ids[n]], accounts(orders[ids[n]].seller), failsAt != Some(n))
  }

  /** One order further; where the loop stops, it stops for good. */
  lemma TransferNext(till: Till, t: Transaction, ids: seq<OrderId>, k: nat, orders: map<OrderId, Order>,
                     accounts: Accounts, failsAt: Option<nat>)
    requires k < |ids| && !TransferEach(till, t, ids[..k], orders, accounts, failsAt).stopped
    ensures var p := TransferEach(till, t, ids[..k], orders, accounts, failsAt);
            var q := TransferEach(till, t, ids[..k + 1], orders, accounts, failsAt);
            && q == (if ids[k] !in orders then p
                     else
                       TransferOne(p, t, ids[k], orders[ids[k]], accounts(orders[ids[k]].seller), failsAt != Some(k)))
            && (q.stopped ==> TransferEach(till, t, ids, orders, accounts, failsAt) == q)
  {
    hide TransferOne;
    assert ids[..k + 1][..k] == ids[..k];
    if TransferEach(till, t, ids[..k + 1], orders, accounts, failsAt).stopped {
      TransferEnds(till, t, ids, k + 1, orders, accounts, failsAt);
    }
  }

  lemma {:induction false} TransferEnds(till: Till, t: Transaction, ids: seq<OrderId>, k: nat,
                                        orders: map<OrderId, Order>, accounts: Accounts, failsAt: Option<nat>)
    requires k <= |ids| && TransferEach(till, t, ids[..k], orders, accounts, failsAt).stopped
    ensures TransferEach(till, t, ids, orders, accounts, failsAt)
         == TransferEach(till, t, ids[..k], orders, accounts, failsAt)
    decreases |ids|
  {
    hide TransferOne;
    if k == |ids| {
      assert ids[..k] == ids;
    } else {
      var n := |ids| - 1;
      assert ids[..n][..k] == ids[..k];
      TransferEnds(till, t, ids[..n], k, orders, accounts, failsAt);
    }
  }

  /** A delivery writes the ledger once, after the loop, unless it stopped or died before. */
  function Deliver(till: Till, t: Transaction, ids: seq<OrderId>, orders: map<OrderId, Order>, accounts: Accounts,
                   failsAt: Option<nat>, dies: bool): (Till, Transaction)
  {
    var p := TransferEach(till, t, ids, orders, accounts, failsAt);
    (p.till, if p.stopped || dies then t else t.(transfers := p.entries))
  }

  datatype Event =
    | Delivery(ids: seq<OrderId>, accounts: Accounts, failsAt: Option<nat>, dies: bool)
    | Forget(keys: set<StripeKey>)

  function Happens(till: Till, t: Transaction, orders: map<OrderId, Order>, e: Event): (Till, Transaction) {
    match e
    case Delivery(ids, accounts, failsAt, dies) => Deliver(till, t, ids, orders, accounts, failsAt, dies)
    case Forget(keys) => (till.(forgotten := till.forgotten + keys), t)
  }

  function AllHappen(till: Till, t: Transaction, orders: map<OrderId, Order>, es: seq<Event>): (Till, Transaction) {
    if es == [] then (till, t)
    else
      var before := AllHappen(till, t, orders, es[..|es| - 1]);
      Happens(before.0, before.1, orders, es[|es| - 1])
  }

  /** A key is only forgotten once its transfer is in the ledger. */
  predicate MayForget(t: Transaction, keys: set<StripeKey>) {
    forall key :: key in keys ==> key.CartTransfer? && WasTransferred(t, key.order)
  }

  /** The orders of a delivery are listed once each, and Stripe forgets no key too early. */
  ghost predicate Orderly(till: Till, t: Transaction, orders: map<OrderId, Order>, es: seq<Event>) {
    forall k :: 0 <= k < |es| ==>
      match es[k]
      case Delivery(ids, _, _, _) => NoRepeats(ids)
      case Forget(keys) => MayForget(AllHappen(till, t, orders, es[..k]).1, keys)
  }

  ghost predicate EntriesDistinct(entries: seq<TransferEntry>) {
    forall i, j :: 0 <= i < j < |entries| ==> entries[i].order != entries[j].order
  }

  /** A planned order is paid what was planned for it. */
  ghost predicate AsPlanned(t: Transaction, m: Movement) {
    && m.key.CartTransfer? && m.key.session == t.session
    && (Planned(t.plan, m.key.order).Some? ==> m.amount == Planned(t.plan, m.key.order).value.split.transfer)
  }

  ghost predicate TillOk(till: Till, t: Transaction) {
    && DistinctKeys(till.moved)
    && (forall i :: 0 <= i < |till.moved| ==> AsPlanned(t, till.moved[i]))
  }

  ghost predicate EntriesBacked(till: Till, t: Transaction, entries: seq<TransferEntry>) {
    && EntriesDistinct(entries)
    && forall i :: 0 <= i < |entries| ==>
        Movement(CartTransfer(t.session, entries[i].order), entries[i].amount) in till.moved
  }

  ghost predicate TransfersOk(till: Till, t: Transaction) {
    && TillOk(till, t) && EntriesBacked(till, t, t.transfers) && MayForget(t, till.forgotten)
  }

  lemma TransferKeeps(till: Till, t: Transaction, id: OrderId, amount: Cents)
    requires TillOk(till, t) && AsPlanned(t, Movement(CartTransfer(t.session, id), amount))
    requires CartTransfer(t.session, id) !in till.forgotten
    ensures var r := Transfer(till, CartTransfer(t.session, id), amount);
            r.Success? ==>
              && TillOk(r.value, t) && r.value.forgotten == till.forgotten
              && till.moved <= r.value.moved && Movement(CartTransfer(t.session, id), amount) in r.value.moved
  {
    if Create(till.moved, CartTransfer(t.session, id), amount).Success? {
      CreateKeepsKeys(till.moved, CartTransfer(t.session, id), amount);
    }
  }

  lemma BackedStill(till: Till, till': Till, t: Transaction, entries: seq<TransferEntry>)
    requires EntriesBacked(till, t, entries) && till.moved <= till'.moved
    ensures EntriesBacked(till', t, entries)
  {
  }

  /** The loop adds at most one entry and one transfer for each order that had neither. */
  lemma {:induction false} TransferEachKeeps(till: Till, t: Transaction, ids: seq<OrderId>, orders: map<OrderId, Order>,
                                             accounts: Accounts, failsAt: Option<nat>)
    requires TransfersOk(till, t) && NoRepeats(ids)
    ensures var p := TransferEach(till, t, ids, orders, accounts, failsAt);
            && TillOk(p.till, t) && p.till.forgotten == till.forgotten && EntriesBacked(p.till, t, p.entries)
            && till.moved <= p.till.moved && t.transfers <= p.entries
            && forall i :: |t.transfers| <= i < |p.entries| ==> p.entries[i].order in ids
  {
    if ids != [] {
      var n := |ids| - 1;
      TransferEachKeeps(till, t, ids[..n], orders, accounts, failsAt);
      var p := TransferEach(till, t, ids[..n], orders, accounts, failsAt);
      if !p.stopped && ids[n] in orders {
        TransferOneKeeps(p, t, ids[..n], ids[n], orders[ids[n]], accounts(orders[ids[n]].seller), failsAt != Some(n));
      }
    }
  }

  lemma TransferOneKeeps(p: Pass, t: Transaction, done: seq<OrderId>, id: OrderId, o: Order, account: SellerAccount,
                         up: bool)
    requires TillOk(p.till, t) && MayForget(t, p.till.forgotten) && EntriesBacked(p.till, t, p.entries)
    requires t.transfers <= p.entries && id !in done
    requires forall i :: |t.transfers| <= i < |p.entries| ==> p.entries[i].order in done
    ensures var q := TransferOne(p, t, id, o, account, up);
            && TillOk(q.till, t) && q.till.forgotten == p.till.forgotten && EntriesBacked(q.till, t, q.entries)
            && p.till.moved <= q.till.moved && t.transfers <= q.entries
            && forall i :: |t.transfers| <= i < |q.entries| ==> q.entries[i].order in done || q.entries[i].order == id
  {
    hide CalculatePaymentSplit, TillOk;
    var key := CartTransfer(t.session, id);
    var share := PlannedSplit(t, id, o, account.fee).transfer;
    if !WasTransferred(t, id) {
      assert key !in p.till.forgotten;
      TransferKeeps(p.till, t, id, share);
      if Transfer(p.till, key, share).Success? {
        BackedStill(p.till, Transfer(p.till, key, share).value, t, p.entries);
        forall i | 0 <= i < |p.entries|
          ensures p.entries[i].order != id
        {
          assert i < |t.transfers| ==> p.entries[i] == t.transfers[i];
        }
      }
    }
  }

  lemma DeliverKeeps(till: Till, t: Transaction, ids: seq<OrderId>, orders: map<OrderId, Order>, accounts: Accounts,
                     failsAt: Option<nat>, dies: bool)
    requires TransfersOk(till, t) && NoRepeats(ids)
    ensures var (till', t') := Deliver(till, t, ids, orders, accounts, failsAt, dies);
            TransfersOk(till', t') && t'.session == t.session && t'.plan == t.plan && till.moved <= till'.moved
  {
    hide TransferEach;
    TransferEachKeeps(till, t, ids, orders, accounts, failsAt);
    var p := TransferEach(till, t, ids, orders, accounts, failsAt);
    BackedStill(till, p.till, t, t.transfers);
    var (till', t') := Deliver(till, t, ids, orders, accounts, failsAt, dies);
    forall id | WasTransferred(t, id)
      ensures WasTransferred(t', id)
    {
      var i :| 0 <= i < |t.transfers| && t.transfers[i].order == id;
      assert t'.transfers[i].order == id;
    }
    assert forall m: Movement :: AsPlanned(t, m) == AsPlanned(t', m);
  }

  /**
   Over any redeliveries, each failing or dying wherever it may before the ledger is written, every
   order of the cart is paid at most one transfer at Stripe, of the planned amount; the ledger never
   lists an order twice and lists only what Stripe moved.
   */
  lemma {:induction false} TransferredAtMostOnce(till: Till, t: Transaction, orders: map<OrderId, Order>,
                                                 es: seq<Event>)
    requires TransfersOk(till, t) && Orderly(till, t, orders, es)
    ensures var (till', t') := AllHappen(till, t, orders, es);
            && t'.session == t.session && t'.plan == t.plan && TransfersOk(till', t')
            && (forall i, j :: 0 <= i < j < |till'.moved| ==> till'.moved[i].key != till'.moved[j].key)
            && (forall i :: 0 <= i < |till'.moved| ==>
                  var id := till'.moved[i].key.order;
                  Planned(t.plan, id).Some? ==> till'.moved[i].amount == Planned(t.plan, id).value.split.transfer)
            && (forall i, j :: 0 <= i < j < |t'.transfers| ==> t'.transfers[i].order != t'.transfers[j].order)
  {
    if es != [] {
      var n := |es| - 1;
      assert forall k :: 0 <= k <= n ==> es[..n][..k] == es[..k];
      TransferredAtMostOnce(till, t, orders, es[..n]);
      var (till1, t1) := AllHappen(till, t, orders, es[..n]);
      match es[n]
      case Delivery(ids, accounts, failsAt, dies) => DeliverKeeps(till1, t1, ids, orders, accounts, failsAt, dies);
      case Forget(keys) =>
    }
  }

  lemma OneDelivery(till: Till, t: Transaction, id: OrderId, orders: map<OrderId, Order>, accounts: Accounts,
                    dies: bool)
    requires id in orders && accounts(orders[id].seller).ready && !WasTransferred(t, id)
    requires 0 < PlannedSplit(t, id, orders[id], accounts(orders[id].seller).fee).transfer
    requires CartTransfer(t.session, id) in till.forgotten || AmountUnder(till.moved, CartTransfer(t.session, id)).None?
    ensures var share := PlannedSplit(t, id, orders[id], accounts(orders[id].seller).fee).transfer;
            var key := CartTransfer(t.session, id);
            Deliver(till, t, [id], orders, accounts, None, dies)
            == (Till(till.moved + [Movement(key, share)], till.forgotten - {key}),
                if dies then t else t.(transfers := t.transfers + [TransferEntry(id, share)]))
  {
    hide PlannedSplit;
    var start := Pass(till, t.transfers, false);
    assert [id][..0] == [];
    assert TransferEach(till, t, [], orders, accounts, None) == start;
    var account := accounts(orders[id].seller);
    assert TransferEach(till, t, [id], orders, accounts, None) == TransferOne(start, t, id, orders[id], account, true);
    assert till.forgotten - {CartTransfer(t.session, id)} == till.forgotten
        || CartTransfer(t.session, id) in till.forgotten;
  }

  lemma ThreeHappen(till: Till, t: Transaction, orders: map<OrderId, Order>, x: Event, y: Event, z: Event)
    ensures var one := Happens(till, t, orders, x);
            var two := Happens(one.0, one.1, orders, y);
            AllHappen(till, t, orders, [x, y, z]) == Happens(two.0, two.1, orders, z)
  {
    hide Happens;
    assert [x, y, z][..2] == [x, y] && [x, y][..1] == [x] && [x][..0] == [];
    assert AllHappen(till, t, orders, []) == (till, t);
    assert AllHappen(till, t, orders, [x]) == Happens(till, t, orders, x);
  }

  /** Were a key forgotten before its transfer is in the ledger, the next delivery would pay the seller again. */
  lemma ForgottenKeyPaysTwice(till: Till, t: Transaction, id: OrderId, orders: map<OrderId, Order>, accounts: Accounts,
                              lost: Event, forget: Event, again: Event)
    requires id in orders && accounts(orders[id].seller).ready && till == Till([], {}) && t.transfers == []
    requires 0 < PlannedSplit(t, id, orders[id], accounts(orders[id].seller).fee).transfer
    requires lost == Delivery([id], accounts, None, true) && again == Delivery([id], accounts, None, false)
    requires forget == Forget({CartTransfer(t.session, id)})
    ensures var moved := AllHappen(till, t, orders, [lost, forget, again]).0.moved;
            |moved| == 2 && moved[0].key == moved[1].key == CartTransfer(t.session, id)
  {
    var key := CartTransfer(t.session, id);
    var share := PlannedSplit(t, id, orders[id], accounts(orders[id].seller).fee).transfer;
    var paid, forgotten := Till([Movement(key, share)], {}), Till([Movement(key, share)], {key});
    ThreeHappen(till, t, orders, lost, forget, again);
    hide PlannedSplit, AllHappen;
    OneDelivery(till, t, id, orders, accounts, true);
    hide Deliver;
    assert till.moved + [Movement(key, share)] == paid.moved && till.forgotten - {key} == paid.forgotten;
    assert Happens(till, t, orders, lost) == (paid, t);
    assert paid.forgotten + {key} == forgotten.forgotten;
    assert Happens(paid, t, orders, forget) == (forgotten, t);
    OneDelivery(forgotten, t, id, orders, accounts, false);
    assert Happens(forgotten, t, orders, again).0.moved == [Movement(key, share)] + [Movement(key, share)];
  }
}
