/** What the statements of a checkout, a settlement and a cancellation write, row by row and column by column. */
module RowLaws {
  import opened Wrappers
  import opened Money
  import opened SellerFees
  import opened Domain
  import opened OrderSteps
  import opened Protocol
  import opened ProtocolInvariant
  import opened ProtocolSteps
  import opened ProtocolTheorems
  import opened Finalization

  // ----- Opening orders -----

  /** An unpaid order as its checkout opened it: this buyer's, with what the draft asks for. */
  predicate OpenedFor(o: Order, buyer: UserId, d: Draft) {
    && o.buyer == buyer && o.seller == d.seller && o.items == d.items && o.total == d.total
    && o.status == Pending && Unpaid(o) && o.cancellation.None? && o.session.None?
  }

  function DraftTotals(drafts: seq<Draft>): (totals: seq<Cents>)
    ensures |totals| == |drafts|
  {
    seq(|drafts|, i requires 0 <= i < |drafts| => drafts[i].total)
  }

  function TotalsOf(orders: map<OrderId, Order>, ids: seq<OrderId>): (totals: seq<Cents>)
    requires forall i :: 0 <= i < |ids| ==> ids[i] in orders
    ensures |totals| == |ids|
  {
    seq(|ids|, i requires 0 <= i < |ids| => orders[ids[i]].total)
  }

  /**
   A checkout opens one order a draft, numbered on from the last, for what the draft asks for. All other orders stay,
   and so do all items but those of the drafts, which are held for the buyer.
   */
  lemma CheckoutOpens(db: Db, buyer: UserId, drafts: seq<Draft>, until: Time)
    ensures var after := CheckedOut(db, buyer, drafts, until);
            && after.nextOrder == db.nextOrder + |drafts| && after.returnRequests == db.returnRequests
            && (forall id :: id in after.orders <==> id in db.orders || db.nextOrder <= id < after.nextOrder)
            && (forall id :: id in db.orders && !(db.nextOrder <= id < after.nextOrder) ==>
                  after.orders[id] == db.orders[id])
            && (forall i :: 0 <= i < |drafts| ==> OpenedFor(after.orders[db.nextOrder + i], buyer, drafts[i]))
            && after.products.Keys == db.products.Keys
            && forall p :: p in db.products ==>
                 after.products[p] == if exists i :: 0 <= i < |drafts| && p in drafts[i].items
                                      then db.products[p].(reservedUntil := Some(until), reservedBy := Some(buyer))
                                      else db.products[p]
  {
    var after := CheckedOut(db, buyer, drafts, until);
    hide AllItems;
    forall i | 0 <= i < |drafts|
      ensures OpenedFor(after.orders[db.nextOrder + i], buyer, drafts[i])
    {
      assert after.orders[db.nextOrder + i] == DraftRow(buyer, drafts, db.nextOrder, db.nextOrder + i);
    }
    hide Opened;
  }

  lemma SameTotals(orders: map<OrderId, Order>, ids: seq<OrderId>, buyer: UserId, drafts: seq<Draft>)
    requires |ids| == |drafts|
    requires forall i :: 0 <= i < |ids| ==> ids[i] in orders && OpenedFor(orders[ids[i]], buyer, drafts[i])
    ensures TotalsOf(orders, ids) == DraftTotals(drafts)
  {
  }

  // ----- Settling -----

  /** The seller's part of an amount, within half a cent. */
  ghost predicate NetOf(net: Cents, total: Cents, fee: real) {
    Kept(total as real, fee) - 0.5 <= net as real <= Kept(total as real, fee) + 0.5
  }

  /**
   A settlement that confirms: the order was unpaid and each of its items for sale to its buyer. The order gets its
   confirmation time, the fee of its seller, what that leaves of its total and the session; its items are sold and no
   longer held; nothing else changes.
   */
  lemma ConfirmationWrites(db: Db, id: OrderId, now: Time, settings: Settings, session: Option<int>)
    requires SettleOne(db, id, now, settings, session).Success?
    requires SettleOne(db, id, now, settings, session).value.1 == ConfirmedNow
    ensures id in db.orders && db.orders[id].status == Pending
    ensures forall p :: p in db.orders[id].items ==>
              p in db.products && Available(db.products[p], db.orders[id].buyer, now)
    ensures var o, after := db.orders[id], SettleOne(db, id, now, settings, session).value.0;
            && id in after.orders && after.orders[id].sellerNet.Some? && after.orders[id].feePercent.Some?
            && GetSellerFeePercent(settings(o.seller)) == Success(after.orders[id].feePercent.value)
            && NetOf(after.orders[id].sellerNet.value, o.total, after.orders[id].feePercent.value)
            && after == db.(orders := after.orders, products := after.products)
            && after.orders == db.orders[id := o.(status := Confirmed, confirmedAt := Some(now),
                                                  feePercent := after.orders[id].feePercent,
                                                  sellerNet := after.orders[id].sellerNet,
                                                  session := if session.Some? then session else o.session)]
            && after.products.Keys == db.products.Keys
            && forall p :: p in db.products ==>
                 after.products[p] == if p in o.items
                                      then db.products[p].(status := Sold, soldAt := Some(now), reservedUntil := None,
                                                           reservedBy := None)
                                      else db.products[p]
  {
    hide Kept;
  }

  /** So an order that a checkout opened for a draft nets its seller the draft's total less the seller's fee. */
  lemma DraftNets(db: Db, id: OrderId, buyer: UserId, d: Draft, now: Time, settings: Settings, session: Option<int>)
    requires id in db.orders && OpenedFor(db.orders[id], buyer, d)
    requires SettleOne(db, id, now, settings, session).Success?
    requires SettleOne(db, id, now, settings, session).value.1 == ConfirmedNow
    ensures var after := SettleOne(db, id, now, settings, session).value.0;
            && id in after.orders && after.orders[id].sellerNet.Some? && after.orders[id].feePercent.Some?
            && GetSellerFeePercent(settings(d.seller)) == Success(after.orders[id].feePercent.value)
            && NetOf(after.orders[id].sellerNet.value, d.total, after.orders[id].feePercent.value)
            && (forall p :: p in d.items ==> p in after.products && after.products[p].status == Sold)
  {
    ConfirmationWrites(db, id, now, settings, session);
    hide SettleOne, NetOf;
  }

  /**
   Over whole runs: whatever happens after a checkout, its orders stay with their buyers, sellers, items and totals,
   and one that was paid and not delivered yet nets its seller the draft's total less the fee.
   */
  lemma OpenedThenNets(s: State, buyer: UserId, drafts: seq<Draft>, minutes: nat, i: nat, actions: seq<Action>)
    requires Inv(s) && ValidDrafts(s.db, buyer, drafts) && CanCheckout(s.db, buyer, drafts, s.now) && i < |drafts|
    ensures var id := s.db.nextOrder + i;
            var later := Run(CheckoutStep(s, buyer, drafts, minutes), actions);
            && id in later.db.orders
            && var o := later.db.orders[id];
               && o.buyer == buyer && o.seller == drafts[i].seller && o.items == drafts[i].items
               && o.total == drafts[i].total
               && (o.confirmedAt.Some? && o.deliveredAt.None? ==>
                     o.sellerNet.Some? && o.feePercent.Some?
                     && NetOf(o.sellerNet.value, drafts[i].total, o.feePercent.value))
  {
    hide CheckoutStep, ValidDrafts, CanCheckout, OpenedFor, Inv, Run, Unpaid;
    OpenedInOrder(s, buyer, drafts, minutes, i);
    var begun := CheckoutStep(s, buyer, drafts, minutes);
    RunKeeps(begun, actions);
    OpenedNets(Run(begun, actions), s.db.nextOrder + i);
  }

  lemma OpenedInOrder(s: State, buyer: UserId, drafts: seq<Draft>, minutes: nat, i: nat)
    requires Inv(s) && ValidDrafts(s.db, buyer, drafts) && CanCheckout(s.db, buyer, drafts, s.now) && i < |drafts|
    ensures var begun := CheckoutStep(s, buyer, drafts, minutes);
            var id := s.db.nextOrder + i;
            && Inv(begun) && id in begun.db.orders
            && begun.db.orders[id].buyer == buyer && begun.db.orders[id].seller == drafts[i].seller
            && begun.db.orders[id].items == drafts[i].items && begun.db.orders[id].total == drafts[i].total
  {
    CheckoutKeeps(s, buyer, drafts, minutes);
    CheckoutOpens(s.db, buyer, drafts, s.now + minutes);
    hide CheckedOut, ValidDrafts, CanCheckout, Inv;
    assert OpenedFor(CheckoutStep(s, buyer, drafts, minutes).db.orders[s.db.nextOrder + i], buyer, drafts[i]);
  }

  lemma OpenedNets(s: State, id: OrderId)
    requires Inv(s) && id in s.db.orders
    ensures var o := s.db.orders[id];
            o.confirmedAt.Some? && o.deliveredAt.None? ==>
              o.sellerNet.Some? && o.feePercent.Some? && NetOf(o.sellerNet.value, o.total, o.feePercent.value)
  {
    assert OrderOk(s.db.orders[id], s.now);
    hide Kept;
  }

  // ----- Cancelling unpaid orders -----

  /** Some of these orders is unpaid, has the item, and its buyer holds it. */
  predicate HeldForUnpaid(db: Db, ids: set<OrderId>, p: ProductId)
    requires p in db.products
  {
    exists id | id in ids ::
      id in db.orders && db.orders[id].status == Pending && p in db.orders[id].items
      && db.products[p].reservedBy == Some(db.orders[id].buyer)
  }

  /** These unpaid orders become cancelled by the system, and their buyers' holds on their items end; all else stays. */
  ghost predicate Drops(db: Db, ids: set<OrderId>, now: Time, after: Db) {
    && after == db.(orders := after.orders, products := after.products)
    && after.orders.Keys == db.orders.Keys && after.products.Keys == db.products.Keys
    && (forall id :: id in db.orders ==>
          after.orders[id] == if id in ids && db.orders[id].status == Pending
                              then db.orders[id].(status := Cancelled,
                                                  cancellation := Some(Cancellation(now, None, System)))
                              else db.orders[id])
    && forall p :: p in db.products ==>
         after.products[p] == if HeldForUnpaid(db, ids, p)
                              then db.products[p].(reservedUntil := None, reservedBy := None) else db.products[p]
  }

  function Positive(ids: seq<OrderId>): set<OrderId> {
    set id | id in ids && 0 < id
  }

  lemma UnpaidAreDropped(db: Db, ids: seq<OrderId>, now: Time)
    ensures Drops(db, Positive(ids), now, PendingCancelled(db, ids, now))
  {
    var found := FindPending(db, ids);
    var given := Positive(ids);
    forall p | p in db.products
      ensures HeldForOneOf(p, db.products[p], found) <==> HeldForUnpaid(db, given, p)
    {
      if HeldForOneOf(p, db.products[p], found) {
        var id :| id in found && p in found[id].items && db.products[p].reservedBy == Some(found[id].buyer);
        assert id in given;
      }
      if HeldForUnpaid(db, given, p) {
        var id :| id in given && id in db.orders && db.orders[id].status == Pending && p in db.orders[id].items
                  && db.products[p].reservedBy == Some(db.orders[id].buyer);
        assert id in found;
      }
    }
    hide HeldForOneOf, HeldForUnpaid;
  }

  /** The buyer's own orders that have one of these items. */
  ghost function OwnWith(db: Db, buyer: UserId, items: seq<ProductId>): set<OrderId> {
    set id | id in db.orders && db.orders[id].buyer == buyer && exists p :: p in items && p in db.orders[id].items
  }

  /** A newer checkout drops exactly the buyer's own unpaid orders that have one of its items. */
  lemma OpenOnesAreDropped(db: Db, buyer: UserId, items: seq<ProductId>, now: Time)
    ensures Drops(db, OwnWith(db, buyer, items), now, OpenCheckoutsReplaced(db, buyer, items, now))
  {
    var own := OwnWith(db, buyer, items);
    var open := OpenCheckouts(db, buyer, items);
    forall id
      ensures id in OpenOrdersOf(db, buyer, items) <==> id in own && db.orders[id].status == Pending
    {
    }
    forall p | p in db.products
      ensures HeldForOneOf(p, db.products[p], open) <==> HeldForUnpaid(db, own, p)
    {
      if HeldForOneOf(p, db.products[p], open) {
        var id :| id in open && p in open[id].items && db.products[p].reservedBy == Some(open[id].buyer);
        assert id in own;
      }
      if HeldForUnpaid(db, own, p) {
        var id :| id in own && id in db.orders && db.orders[id].status == Pending && p in db.orders[id].items
                  && db.products[p].reservedBy == Some(db.orders[id].buyer);
        assert id in open;
      }
    }
    hide HeldForOneOf, HeldForUnpaid, OpenOrdersOf;
  }

  // ----- Moving an order on -----

  /** A status change stamps its own time only. */
  lemma AdvanceStamps(o: Order, to: OrderStatus, now: Time)
    requires Live(to)
    ensures var a := Advanced(o, to, now);
            && a.confirmedAt == (if to == Confirmed then Some(now) else o.confirmedAt)
            && a.processingAt == (if to == Processing then Some(now) else o.processingAt)
            && a.shippedAt == (if to == Shipped then Some(now) else o.shippedAt)
            && a.deliveredAt == (if to == Delivered then Some(now) else o.deliveredAt)
            && a == o.(status := to, confirmedAt := a.confirmedAt, processingAt := a.processingAt,
                       shippedAt := a.shippedAt, deliveredAt := a.deliveredAt)
  {
  }

  /**
   Who moves what: buyers only cancel, before anything was begun; sellers fulfil step by step, deliver only what they
   shipped, and cancel only what they have not begun; admins fulfil in any forward step, cancel what is not delivered,
   and refund what was paid.
   */
  lemma WhoMoves(actor: Actor, from: OrderStatus, to: OrderStatus)
    ensures MayMove(actor, from, to)
            <==> match actor
                 case Buyer => to == Cancelled && Rank(from) <= Rank(Confirmed)
                 case Seller =>
                   (Live(from) && Live(to) && Rank(from) < Rank(to) && (to == Delivered ==> from == Shipped))
                   || (from == Confirmed && to == Cancelled)
                 case Admin =>
                   (Live(from) && Live(to) && Rank(from) < Rank(to))
                   || (to == Cancelled && Rank(from) < Rank(Delivered)) || (to == Refunded && Live(from))
                 case System => false
  {
  }

  // ----- An account is deleted -----

  /** The user has an order in progress, as a buyer or a seller. */
  ghost predicate Busy(db: Db, user: UserId) {
    exists id :: id in db.orders && user in {db.orders[id].buyer, db.orders[id].seller}
                 && (db.orders[id].status == Pending
                     || (Live(db.orders[id].status) && db.orders[id].status != Delivered))
  }

  lemma OnlyIfIdle(s: State, user: UserId)
    ensures ProductStep(s, DeleteAccount(user))
         == if Busy(s.db, user) then s else s.(db := s.db.(products := AccountPulled(s.db.products, user)))
  {
    hide AccountPulled;
  }

  /**
   An account is deleted only if its user has no order in progress. Exactly the user's items that were for sale then
   end it, hold included; every other row stays.
   */
  lemma AccountDeletion(s: State, user: UserId)
    ensures var s' := ProductStep(s, DeleteAccount(user));
            && s' == s.(db := s.db.(products := s'.db.products))
            && (Busy(s.db, user) ==> s' == s)
            && (!Busy(s.db, user) ==> s'.db.products.Keys == s.db.products.Keys && forall p :: p in s.db.products ==>
                  s'.db.products[p] == if s.db.products[p].seller == user && s.db.products[p].status == Active
                                       then s.db.products[p].(status := Inactive, reservedUntil := None,
                                                              reservedBy := None)
                                       else s.db.products[p])
  {
    hide ProductStep, Busy;
    OnlyIfIdle(s, user);
  }
}
