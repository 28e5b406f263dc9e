/** Applying a payment to its orders: what one call does, and why calling again changes nothing. */
module Finalization {
  import opened Wrappers
  import opened Money
  import opened SellerFees
  import opened Domain
  import opened OrderSteps
  import opened Protocol
  import opened ProtocolInvariant

  type Settings = UserId -> Setting

  /** `settleOrder` with nothing in between its statements; a misconfigured fee aborts before the transaction. */
  function SettleOne(db: Db, id: OrderId, now: Time, settings: Settings, session: Option<int>)
    : Result<(Db, Report), FeeError>
  {
    if id !in db.orders then Success((db, RejectedNow))
    else
      var o := db.orders[id];
      if o.status != Pending then Success((db, if o.status == Cancelled then RejectedNow else AlreadySettled))
      else
        match GetSellerFeePercent(settings(o.seller))
        case Failure(e) => Failure(e)
        case Success(fee) =>
          if CanSettle(db, id, o, now) then Success((SettledDb(db, id, o.items, now, fee, session), ConfirmedNow))
          else Success((db, RereadReport(db, id)))
  }

  datatype Settlements = Settlements(db: Db, reports: seq<Report>, error: Option<FeeError>)

  /** The orders of a payment one after the other; the first error ends it and keeps what was done. */
  function SettleEach(db: Db, ids: seq<OrderId>, now: Time, settings: Settings, session: Option<int>): (r: Settlements)
    ensures r.error.None? ==> |r.reports| == |ids|
    ensures |r.reports| <= |ids|
  {
    if ids == [] then Settlements(db, [], None)
    else
      var before := SettleEach(db, ids[..|ids| - 1], now, settings, session);
      if before.error.Some? then before
      else
        match SettleOne(before.db, ids[|ids| - 1], now, settings, session)
        case Failure(e) => before.(error := Some(e))
        case Success(one) => Settlements(one.0, before.reports + [one.1], None)
  }

  /** One order further; a misconfigured fee on the way ends the whole pass there. */
  lemma SettleEachNext(db: Db, ids: seq<OrderId>, k: nat, now: Time, settings: Settings, session: Option<int>)
    requires k < |ids| && SettleEach(db, ids[..k], now, settings, session).error.None?
    ensures var before := SettleEach(db, ids[..k], now, settings, session);
            match SettleOne(before.db, ids[k], now, settings, session)
            case Success(one) =>
              SettleEach(db, ids[..k + 1], now, settings, session) == Settlements(one.0, before.reports + [one.1], None)
            case Failure(e) => SettleEach(db, ids, now, settings, session) == before.(error := Some(e))
  {
    hide SettleOne;
    assert ids[..k + 1][..k] == ids[..k];
    if SettleEach(db, ids[..k + 1], now, settings, session).error.Some? {
      SettleEachEnds(db, ids, k + 1, now, settings, session);
    }
  }

  lemma {:induction false} SettleEachEnds(db: Db, ids: seq<OrderId>, k: nat, now: Time, settings: Settings,
                                          session: Option<int>)
    requires k <= |ids| && SettleEach(db, ids[..k], now, settings, session).error.Some?
    ensures SettleEach(db, ids, now, settings, session) == SettleEach(db, ids[..k], now, settings, session)
    decreases |ids|
  {
    hide SettleOne;
    if k == |ids| {
      assert ids[..k] == ids;
    } else {
      var n := |ids| - 1;
      assert ids[..n][..k] == ids[..k];
      SettleEachEnds(db, ids[..n], k, now, settings, session);
    }
  }

  /** The ids that got one kind of report, in order. */
  function Reporting(ids: seq<OrderId>, reports: seq<Report>, r: Report): (picked: seq<OrderId>)
    requires |reports| == |ids|
    ensures forall id :: id in picked <==> exists i :: 0 <= i < |ids| && ids[i] == id && reports[i] == r
  {
    if ids == [] then []
    else
      var n := |ids| - 1;
      Reporting(ids[..n], reports[..n], r) + if reports[n] == r then [ids[n]] else []
  }

  /** All of a completed `finalizePaidOrders`, without the coupon: settle each, then cancel the rejected ones. */
  function Finalized(db: Db, ids: seq<OrderId>, now: Time, settings: Settings, session: Option<int>): Db
    requires SettleEach(db, ids, now, settings, session).error.None?
  {
    var settled := SettleEach(db, ids, now, settings, session);
    var rejected := Reporting(ids, settled.reports, RejectedNow);
    if rejected == [] then settled.db else PendingCancelled(settled.db, rejected, now)
  }

  function ConfirmedBy(db: Db, ids: seq<OrderId>, now: Time, settings: Settings, session: Option<int>): seq<OrderId>
    requires SettleEach(db, ids, now, settings, session).error.None?
  {
    Reporting(ids, SettleEach(db, ids, now, settings, session).reports, ConfirmedNow)
  }

  // ----- The three lists -----

  lemma OneMorePicked(ids: seq<OrderId>, reports: seq<Report>, r: Report)
    requires |reports| == |ids| > 0
    ensures var n := |ids| - 1;
            multiset(Reporting(ids, reports, r)) == multiset(Reporting(ids[..n], reports[..n], r))
                                                  + if reports[n] == r then multiset{ids[n]} else multiset{}
  {
  }

  lemma OneMoreMember(xs: seq<int>)
    requires xs != []
    ensures multiset(xs) == multiset(xs[..|xs| - 1]) + multiset{xs[|xs| - 1]}
  {
    assert xs == xs[..|xs| - 1] + [xs[|xs| - 1]];
  }

  /** What was reported first comes first in its list. */
  lemma {:induction false} ReportingInOrder(ids: seq<OrderId>, reports: seq<Report>, r: Report, k: nat)
    requires |reports| == |ids| && k <= |ids|
    ensures Reporting(ids[..k], reports[..k], r) <= Reporting(ids, reports, r)
    decreases |ids|
  {
    if k == |ids| {
      assert ids[..k] == ids && reports[..k] == reports;
    } else {
      var n := |ids| - 1;
      assert ids[..n][..k] == ids[..k] && reports[..n][..k] == reports[..k];
      ReportingInOrder(ids[..n], reports[..n], r, k);
    }
  }

  /** The three result lists partition the ids: nothing is lost, nothing is in two of them. */
  lemma {:induction false} ReportsPartition(ids: seq<OrderId>, reports: seq<Report>)
    requires |reports| == |ids|
    ensures multiset(Reporting(ids, reports, ConfirmedNow)) + multiset(Reporting(ids, reports, AlreadySettled))
          + multiset(Reporting(ids, reports, RejectedNow)) == multiset(ids)
  {
    if ids != [] {
      var n := |ids| - 1;
      ReportsPartition(ids[..n], reports[..n]);
      OneMorePicked(ids, reports, ConfirmedNow);
      OneMorePicked(ids, reports, AlreadySettled);
      OneMorePicked(ids, reports, RejectedNow);
      OneMoreMember(ids);
      hide *;
      Redistribute(multiset(Reporting(ids[..n], reports[..n], ConfirmedNow)),
                   multiset(Reporting(ids[..n], reports[..n], AlreadySettled)),
                   multiset(Reporting(ids[..n], reports[..n], RejectedNow)), ids[n]);
    }
  }

  lemma Redistribute(a: multiset<int>, b: multiset<int>, c: multiset<int>, x: int)
    ensures a + multiset{x} + b + c == a + b + c + multiset{x}
    ensures a + (b + multiset{x}) + c == a + b + c + multiset{x}
    ensures a + b + (c + multiset{x}) == a + b + c + multiset{x}
    ensures a + multiset{} == a && b + multiset{} == b && c + multiset{} == c
  {
  }

  // ----- What settling does to the orders -----

  ghost predicate PendingStays(before: Db, after: Db) {
    && before.orders.Keys == after.orders.Keys
    && forall id :: id in before.orders && before.orders[id].status != Pending ==> after.orders[id] == before.orders[id]
  }

  lemma SettleOneEffect(db: Db, id: OrderId, now: Time, settings: Settings, session: Option<int>)
    ensures var r := SettleOne(db, id, now, settings, session);
            r.Success? ==>
              && PendingStays(db, r.value.0)
              && (r.value.1 != RejectedNow ==>
                  id in r.value.0.orders && r.value.0.orders[id].status !in {Pending, Cancelled})
              && (forall x :: x in db.orders && x != id ==> r.value.0.orders[x] == db.orders[x])
              && (r.value.1 == ConfirmedNow ==> id in db.orders && db.orders[id].status == Pending)
              && (r.value.1 != ConfirmedNow ==> r.value.0 == db)
  {
    hide SellAll, AllAvailable, SettlementNet;
  }

  lemma RejectedIsUnpaid(db: Db, id: OrderId, now: Time, settings: Settings, session: Option<int>)
    ensures var r := SettleOne(db, id, now, settings, session);
            r.Success? && r.value.1 == RejectedNow && id in db.orders ==> db.orders[id].status in {Pending, Cancelled}
  {
    hide SettledDb, CanSettle;
  }

  /** Every order that was not rejected is past PENDING afterwards, and paid orders are not touched again. */
  lemma {:induction false} SettleEachEffect(db: Db, ids: seq<OrderId>, now: Time, settings: Settings,
                                            session: Option<int>)
    ensures var r := SettleEach(db, ids, now, settings, session);
            && PendingStays(db, r.db)
            && (forall i :: 0 <= i < |r.reports| && r.reports[i] != RejectedNow ==>
                  ids[i] in r.db.orders && r.db.orders[ids[i]].status !in {Pending, Cancelled})
            && (forall x :: x in db.orders && x !in ids ==> r.db.orders[x] == db.orders[x])
  {
    if ids != [] {
      hide SettleOne;
      var n := |ids| - 1;
      SettleEachEffect(db, ids[..n], now, settings, session);
      var before := SettleEach(db, ids[..n], now, settings, session);
      SettleOneEffect(before.db, ids[n], now, settings, session);
    }
  }

  /** An order whose settlement is rejected is left as it was, for the cancellation that follows. */
  lemma {:induction false} RejectedLeftUnpaid(db: Db, ids: seq<OrderId>, k: nat, now: Time, settings: Settings,
                                              session: Option<int>)
    requires forall i, j :: 0 <= i < j < |ids| ==> ids[i] != ids[j]
    requires k < |ids| && ids[k] in db.orders
    requires var r := SettleEach(db, ids, now, settings, session); r.error.None? && r.reports[k] == RejectedNow
    ensures ids[k] in SettleEach(db, ids, now, settings, session).db.orders
    ensures SettleEach(db, ids, now, settings, session).db.orders[ids[k]] == db.orders[ids[k]]
    ensures db.orders[ids[k]].status in {Pending, Cancelled}
    decreases |ids|
  {
    hide SettleOne;
    var n := |ids| - 1;
    SettleEachEffect(db, ids[..n], now, settings, session);
    var before := SettleEach(db, ids[..n], now, settings, session);
    SettleOneEffect(before.db, ids[n], now, settings, session);
    RejectedIsUnpaid(before.db, ids[n], now, settings, session);
    if k < n {
      RejectedLeftUnpaid(db, ids[..n], k, now, settings, session);
    }
  }

  /** After a completed call none of the payment's orders is left unpaid, whatever happened to each. */
  lemma NoneLeftPending(db: Db, ids: seq<OrderId>, now: Time, settings: Settings, session: Option<int>)
    requires SettleEach(db, ids, now, settings, session).error.None?
    requires forall id :: id in ids ==> 0 < id
    ensures var after := Finalized(db, ids, now, settings, session);
            && PendingStays(db, after)
            && forall id :: id in ids && id in after.orders ==> after.orders[id].status != Pending
  {
    hide SettleEach, ReleaseFound, SettleOne;
    SettleEachEffect(db, ids, now, settings, session);
    var settled := SettleEach(db, ids, now, settings, session);
    var rejected := Reporting(ids, settled.reports, RejectedNow);
    var after := Finalized(db, ids, now, settings, session);
    forall id | id in ids && id in after.orders
      ensures after.orders[id].status != Pending
    {
      var i :| 0 <= i < |ids| && ids[i] == id;
      if settled.reports[i] == RejectedNow {
        assert id in rejected;
      }
    }
  }

  // ----- Calling again -----

  ghost predicate NonePending(db: Db, ids: seq<OrderId>) {
    forall id :: id in ids ==> id in db.orders && db.orders[id].status != Pending
  }

  lemma {:induction false} SettlesNothing(db: Db, ids: seq<OrderId>, now: Time, settings: Settings,
                                          session: Option<int>)
    requires NonePending(db, ids)
    ensures var r := SettleEach(db, ids, now, settings, session);
            && r.error.None? && r.db == db
            && forall i :: 0 <= i < |ids| ==>
                 ids[i] in db.orders
                 && r.reports[i] == if db.orders[ids[i]].status == Cancelled then RejectedNow else AlreadySettled
  {
    if ids != [] {
      SettlesNothing(db, ids[..|ids| - 1], now, settings, session);
    }
  }

  lemma NothingToCancel(db: Db, ids: seq<OrderId>, now: Time)
    requires forall id :: id in ids && id in db.orders ==> db.orders[id].status != Pending
    ensures PendingCancelled(db, ids, now) == db
  {
    assert FindPending(db, ids) == map[];
    assert ReleaseFound(db.products, map[]) == db.products;
    assert CancelFound(db.orders, {}, now) == db.orders;
  }

  lemma {:induction false} NobodyPicked(ids: seq<OrderId>, reports: seq<Report>, r: Report)
    requires |reports| == |ids| && forall i :: 0 <= i < |ids| ==> reports[i] != r
    ensures Reporting(ids, reports, r) == []
  {
    if ids != [] {
      NobodyPicked(ids[..|ids| - 1], reports[..|ids| - 1], r);
    }
  }

  /**
   Once a payment's orders were finalized, any later call for it confirms nothing and changes no row,
   whatever the protocol did to the orders in between: no order ever becomes unpaid again.
   */
  lemma LaterCallChangesNothing(finalized: Db, later: Db, ids: seq<OrderId>, now: Time, settings: Settings,
                                session: Option<int>)
    requires NonePending(finalized, ids) && Evolves(finalized, later)
    ensures NonePending(later, ids)
    ensures SettleEach(later, ids, now, settings, session).error.None?
    ensures Finalized(later, ids, now, settings, session) == later
    ensures ConfirmedBy(later, ids, now, settings, session) == []
  {
    SettlesNothing(later, ids, now, settings, session);
    hide SettleEach;
    var reports := SettleEach(later, ids, now, settings, session).reports;
    NothingToCancel(later, Reporting(ids, reports, RejectedNow), now);
    NobodyPicked(ids, reports, ConfirmedNow);
  }

  lemma SelfEvolves(db: Db)
    ensures Evolves(db, db)
  {
  }

  // ----- The coupon -----

  datatype Call = Call(db: Db, now: Time, settings: Settings, session: Option<int>)

  /** Completed calls for one payment, with any steps of the protocol in between them. */
  ghost predicate Deliveries(ids: seq<OrderId>, calls: seq<Call>) {
    && (forall i :: 0 <= i < |calls| ==>
          SettleEach(calls[i].db, ids, calls[i].now, calls[i].settings, calls[i].session).error.None?)
    && (forall i :: 0 < i < |calls| ==> Evolves(After(ids, calls[i - 1]), calls[i].db))
  }

  function After(ids: seq<OrderId>, c: Call): Db {
    if SettleEach(c.db, ids, c.now, c.settings, c.session).error.None?
    then Finalized(c.db, ids, c.now, c.settings, c.session) else c.db
  }

  /** A call spends the coupon if it confirmed some order. */
  function CouponSpends(ids: seq<OrderId>, calls: seq<Call>): nat {
    if calls == [] then 0
    else
      var c := calls[|calls| - 1];
      CouponSpends(ids, calls[..|calls| - 1])
      + if SettleEach(c.db, ids, c.now, c.settings, c.session).error.None?
           && ConfirmedBy(c.db, ids, c.now, c.settings, c.session) != [] then 1 else 0
  }

  /** However often the payment is delivered, only the first completed call can spend its coupon. */
  lemma {:induction false} CouponSpentOnce(ids: seq<OrderId>, calls: seq<Call>)
    requires Deliveries(ids, calls) && calls != []
    requires forall id :: id in ids ==> 0 < id && id in calls[0].db.orders
    ensures NonePending(After(ids, calls[|calls| - 1]), ids)
    ensures CouponSpends(ids, calls) == CouponSpends(ids, calls[..1]) <= 1
  {
    hide SettleEach, Evolves, Finalized, ConfirmedBy;
    var n := |calls| - 1;
    var c := calls[n];
    if n == 0 {
      NoneLeftPending(c.db, ids, c.now, c.settings, c.session);
      assert calls[..0] == [] && calls[..1] == calls;
    } else {
      CouponSpentOnce(ids, calls[..n]);
      assert calls[..n][..1] == calls[..1];
      LaterCallChangesNothing(After(ids, calls[n - 1]), c.db, ids, c.now, c.settings, c.session);
    }
  }

  /** The coupon's use is counted; one whose row is gone cannot be. */
  function CouponCounted(uses: map<CouponId, int>, coupon: Option<CouponId>): (after: map<CouponId, int>)
    ensures after.Keys == uses.Keys
  {
    if coupon.Some? && coupon.value in uses then uses[coupon.value := uses[coupon.value] + 1] else uses
  }

  predicate CouponIsGone(uses: map<CouponId, int>, coupon: Option<CouponId>) {
    coupon.Some? && coupon.value !in uses
  }

  /** A call confirms some of the payment's orders. */
  predicate Confirms(ids: seq<OrderId>, c: Call) {
    SettleEach(c.db, ids, c.now, c.settings, c.session).error.None?
    && ConfirmedBy(c.db, ids, c.now, c.settings, c.session) != []
  }

  /** The table of coupons after these calls, each of which counts the payment's coupon if it confirms some order. */
  function UsesAfter(ids: seq<OrderId>, calls: seq<Call>, coupon: Option<CouponId>, uses: map<CouponId, int>)
    : map<CouponId, int>
  {
    if calls == [] then uses
    else
      var before := UsesAfter(ids, calls[..|calls| - 1], coupon, uses);
      if Confirms(ids, calls[|calls| - 1]) then CouponCounted(before, coupon) else before
  }

  /** The count of the payment's coupon rises by the number of calls that confirm some order, no other count moves. */
  lemma {:induction false} CountRises(ids: seq<OrderId>, calls: seq<Call>, coupon: Option<CouponId>,
                                      uses: map<CouponId, int>)
    ensures UsesAfter(ids, calls, coupon, uses).Keys == uses.Keys
    ensures forall c :: c in uses ==>
              UsesAfter(ids, calls, coupon, uses)[c]
              == uses[c] + if coupon == Some(c) then CouponSpends(ids, calls) else 0
  {
    if calls != [] {
      CountRises(ids, calls[..|calls| - 1], coupon, uses);
      hide SettleEach, ConfirmedBy;
    }
  }

  /** So a payment that is delivered again and again counts its coupon once, and only if its first call confirms. */
  lemma CountedOnce(ids: seq<OrderId>, calls: seq<Call>, coupon: Option<CouponId>, uses: map<CouponId, int>)
    requires Deliveries(ids, calls) && calls != []
    requires forall id :: id in ids ==> 0 < id && id in calls[0].db.orders
    ensures UsesAfter(ids, calls, coupon, uses).Keys == uses.Keys
    ensures forall c :: c in uses ==>
              UsesAfter(ids, calls, coupon, uses)[c]
              == uses[c] + if coupon == Some(c) && Confirms(ids, calls[0]) then 1 else 0
  {
    CouponSpentOnce(ids, calls);
    CountRises(ids, calls, coupon, uses);
    assert calls[..1][..0] == [] && calls[..1][0] == calls[0];
    hide SettleEach, ConfirmedBy, Deliveries;
  }

  // ----- Two deliveries at the same time -----

  /** Two calls for one payment that run side by side, each with the reports on its orders so far. */
  datatype Race = Race(db: Db, first: seq<Report>, second: seq<Report>)

  /** One of the two settles its next order or, once it went through all, cancels the rejected ones. */
  function RaceStep(r: Race, ids: seq<OrderId>, firstMoves: bool, now: Time, settings: Settings, session: Option<int>)
    : Race
  {
    var done := if firstMoves then r.first else r.second;
    if |done| < |ids| then
      match SettleOne(r.db, ids[|done|], now, settings, session)
      case Failure(_) => r
      case Success(one) =>
        if firstMoves then Race(one.0, r.first + [one.1], r.second) else Race(one.0, r.first, r.second + [one.1])
    else if |done| == |ids| then r.(db := PendingCancelled(r.db, Reporting(ids, done, RejectedNow), now))
    else r
  }

  function RaceRun(db: Db, ids: seq<OrderId>, schedule: seq<bool>, now: Time, settings: Settings, session: Option<int>)
    : Race
  {
    if schedule == [] then Race(db, [], [])
    else
      var n := |schedule| - 1;
      RaceStep(RaceRun(db, ids, schedule[..n], now, settings, session), ids, schedule[n], now, settings, session)
  }

  /** How often the coupon is spent: once for each call that confirmed some order. */
  function RaceSpends(r: Race): nat {
    (if ConfirmedNow in r.first then 1 else 0) + if ConfirmedNow in r.second then 1 else 0
  }

  /** Settling the order changes nothing, and is reported like this. */
  ghost predicate SettlesAgain(db: Db, id: OrderId, r: Report, now: Time, settings: Settings, session: Option<int>) {
    SettleOne(db, id, now, settings, session) == Success((db, r))
  }

  /** What a second attempt at an order reports after the first. */
  function Second(r: Report): Report {
    if r == ConfirmedNow then AlreadySettled else r
  }

  lemma SettlesAgainAtOnce(db: Db, id: OrderId, now: Time, settings: Settings, session: Option<int>)
    ensures var one := SettleOne(db, id, now, settings, session);
            one.Success? ==> SettlesAgain(one.value.0, id, Second(one.value.1), now, settings, session)
  {
    hide SellAll, AllAvailable, SettlementNet;
  }

  /** Selling items makes no other item available. */
  lemma LessAvailable(db: Db, id: OrderId, items: seq<ProductId>, now: Time, fee: real, session: Option<int>, o: Order)
    requires id in db.orders
    requires AllAvailable(SettledDb(db, id, items, now, fee, session).products, o.items, o.buyer, now)
    ensures AllAvailable(db.products, o.items, o.buyer, now)
  {
    var after := SettledDb(db, id, items, now, fee, session);
    forall p | p in o.items
      ensures p in db.products && Available(db.products[p], o.buyer, now)
    {
      assert p in after.products;
    }
  }

  lemma SettlesAgainStill(db: Db, id: OrderId, r: Report, other: OrderId, now: Time, settings: Settings,
                     session: Option<int>)
    requires SettlesAgain(db, id, r, now, settings, session) && other != id
    requires SettleOne(db, other, now, settings, session).Success?
    ensures SettlesAgain(SettleOne(db, other, now, settings, session).value.0, id, r, now, settings, session)
  {
    var one := SettleOne(db, other, now, settings, session).value;
    if one.1 == ConfirmedNow && id in db.orders && db.orders[id].status == Pending {
      var fee := GetSellerFeePercent(settings(db.orders[other].seller)).value;
      assert one.0 == SettledDb(db, other, db.orders[other].items, now, fee, session);
      assert one.0.orders[id] == db.orders[id];
      NoLongerPending(db, id, now, settings, session);
      if AllAvailable(one.0.products, db.orders[id].items, db.orders[id].buyer, now) {
        LessAvailable(db, other, db.orders[other].items, now, fee, session, db.orders[id]);
      }
    } else {
      hide SettleOne;
      SettleOneEffect(db, other, now, settings, session);
      SettlesAgainWhenSettled(db, one.0, id, r, now, settings, session);
    }
  }

  /** Settling an order that can be settled leaves it settled, so it does not repeat. */
  lemma NoLongerPending(db: Db, id: OrderId, now: Time, settings: Settings, session: Option<int>)
    requires id in db.orders && db.orders[id].status == Pending
    requires SettleOne(db, id, now, settings, session).Success?
       && SettleOne(db, id, now, settings, session).value.0 == db
    ensures !CanSettle(db, id, db.orders[id], now)
  {
    if CanSettle(db, id, db.orders[id], now) {
      SettleOneEffect(db, id, now, settings, session);
    }
  }

  lemma SettlesAgainWhenSettled(db: Db, db': Db, id: OrderId, r: Report, now: Time, settings: Settings,
                           session: Option<int>)
    requires SettlesAgain(db, id, r, now, settings, session) && db.orders.Keys == db'.orders.Keys
    requires db' == db || (id in db.orders ==> db.orders[id].status != Pending && db'.orders[id] == db.orders[id])
    ensures SettlesAgain(db', id, r, now, settings, session)
  {
    hide CanSettle, SettledDb;
  }

  /** The rows after the first `k` orders, as if settled by one call alone. */
  function RowsAfter(db: Db, ids: seq<OrderId>, k: nat, now: Time, settings: Settings, session: Option<int>): Db
    requires k <= |ids|
  {
    SettleEach(db, ids[..k], now, settings, session).db
  }

  lemma {:induction false} SettleEachPrefix(db: Db, ids: seq<OrderId>, k: nat, now: Time, settings: Settings,
                                            session: Option<int>)
    requires k <= |ids| && SettleEach(db, ids, now, settings, session).error.None?
    ensures var front := SettleEach(db, ids[..k], now, settings, session);
            front.error.None? && front.reports == SettleEach(db, ids, now, settings, session).reports[..k]
    decreases |ids|
  {
    if k == |ids| {
      assert ids[..k] == ids;
    } else {
      hide SettleOne;
      var n := |ids| - 1;
      SettleEachPrefix(db, ids[..n], k, now, settings, session);
      assert ids[..n][..k] == ids[..k];
    }
  }

  /** The first attempt at the order of position `k`, in whichever call. */
  lemma FirstAttempt(db: Db, ids: seq<OrderId>, k: nat, now: Time, settings: Settings, session: Option<int>)
    requires k < |ids| && SettleEach(db, ids, now, settings, session).error.None?
    ensures SettleOne(RowsAfter(db, ids, k, now, settings, session), ids[k], now, settings, session)
         == Success((RowsAfter(db, ids, k + 1, now, settings, session),
                     SettleEach(db, ids, now, settings, session).reports[k]))
  {
    hide SettleOne;
    SettleEachPrefix(db, ids, k, now, settings, session);
    SettleEachPrefix(db, ids, k + 1, now, settings, session);
    SettleEachNext(db, ids, k, now, settings, session);
  }

  /** Any later attempt at it, once `m` orders are settled. */
  lemma {:induction false} LaterAttempt(db: Db, ids: seq<OrderId>, k: nat, m: nat, now: Time, settings: Settings,
                                        session: Option<int>)
    requires k < m <= |ids| && SettleEach(db, ids, now, settings, session).error.None?
    requires forall i, j :: 0 <= i < j < |ids| ==> ids[i] != ids[j]
    ensures SettlesAgain(RowsAfter(db, ids, m, now, settings, session), ids[k],
                    Second(SettleEach(db, ids, now, settings, session).reports[k]), now, settings, session)
    decreases m
  {
    hide SettleOne, SettlesAgain, SettleEach, RowsAfter;
    FirstAttempt(db, ids, m - 1, now, settings, session);
    if m == k + 1 {
      SettlesAgainAtOnce(RowsAfter(db, ids, k, now, settings, session), ids[k], now, settings, session);
    } else {
      LaterAttempt(db, ids, k, m - 1, now, settings, session);
      SettlesAgainStill(RowsAfter(db, ids, m - 1, now, settings, session), ids[k],
                   Second(SettleEach(db, ids, now, settings, session).reports[k]), ids[m - 1], now, settings, session);
    }
  }

  lemma CancelledSettlesAgain(db: Db, ids: seq<OrderId>, id: OrderId, r: Report, now: Time, settings: Settings,
                         session: Option<int>)
    requires SettlesAgain(db, id, r, now, settings, session) && 0 < id
    requires id in ids <==> r == RejectedNow
    ensures SettlesAgain(PendingCancelled(db, ids, now), id, r, now, settings, session)
  {
    hide ReleaseFound;
  }

  /** A call's reports: what it would report alone, but for orders that the other call confirmed before it. */
  ghost predicate ReportsLike(mine: seq<Report>, alone: seq<Report>) {
    && |mine| <= |alone|
    && forall k :: 0 <= k < |mine| ==> mine[k] == alone[k] || mine[k] == Second(alone[k])
  }

  predicate ConfirmedAt(reports: seq<Report>, k: nat) {
    k < |reports| && reports[k] == ConfirmedNow
  }

  /** Each order that a call alone would confirm is confirmed by exactly one of the two, once either got to it. */
  ghost predicate ConfirmedApart(first: seq<Report>, second: seq<Report>, alone: seq<Report>) {
    && ReportsLike(first, alone) && ReportsLike(second, alone)
    && (forall k :: 0 <= k < |first| || 0 <= k < |second| ==>
          (alone[k] == ConfirmedNow <==> ConfirmedAt(first, k) || ConfirmedAt(second, k)))
    && (forall k :: !ConfirmedAt(first, k) || !ConfirmedAt(second, k))
  }

  lemma OneMoreAttempt(mine: seq<Report>, other: seq<Report>, alone: seq<Report>, r: Report)
    requires ConfirmedApart(mine, other, alone) && |mine| < |alone|
    requires r == if |mine| < |other| then Second(alone[|mine|]) else alone[|mine|]
    ensures ConfirmedApart(mine + [r], other, alone) && ConfirmedApart(other, mine + [r], alone)
  {
    var more := mine + [r];
    forall k | 0 <= k < |more| || 0 <= k < |other|
      ensures alone[k] == ConfirmedNow <==> ConfirmedAt(more, k) || ConfirmedAt(other, k)
    {
      assert k < |mine| ==> more[k] == mine[k];
      if k == |mine| < |other| {
        assert alone[k] == ConfirmedNow <==> ConfirmedAt(mine, k) || ConfirmedAt(other, k);
      }
    }
    forall k
      ensures !ConfirmedAt(more, k) || !ConfirmedAt(other, k)
    {
      assert !ConfirmedAt(mine, k) || !ConfirmedAt(other, k);
    }
  }

  /** The rows are those of one call that got as far as the faster of the two. */
  ghost predicate RaceOk(db: Db, ids: seq<OrderId>, r: Race, now: Time, settings: Settings, session: Option<int>)
    requires SettleEach(db, ids, now, settings, session).error.None?
  {
    var m := Max(|r.first|, |r.second|);
    && ConfirmedApart(r.first, r.second, SettleEach(db, ids, now, settings, session).reports)
    && (r.db == RowsAfter(db, ids, m, now, settings, session)
        || (m == |ids| && r.db == Finalized(db, ids, now, settings, session)))
  }

  lemma {:induction false} SameRejected(ids: seq<OrderId>, mine: seq<Report>, alone: seq<Report>)
    requires |mine| == |alone| == |ids| && ReportsLike(mine, alone)
    ensures Reporting(ids, mine, RejectedNow) == Reporting(ids, alone, RejectedNow)
  {
    if ids != [] {
      var n := |ids| - 1;
      SameRejected(ids[..n], mine[..n], alone[..n]);
    }
  }

  /** The orders of a payment as a call sees them: positive ids, each once. */
  predicate PaymentOrders(ids: seq<OrderId>) {
    && (forall i, j :: 0 <= i < j < |ids| ==> ids[i] != ids[j])
    && (forall i :: 0 <= i < |ids| ==> 0 < ids[i])
  }

  lemma PaymentOrdersAre(orderIds: seq<OrderId>)
    ensures PaymentOrders(PositiveIds(orderIds))
  {
    var ids := PositiveIds(orderIds);
    forall i | 0 <= i < |ids|
      ensures 0 < ids[i]
    {
      assert ids[i] in ids;
    }
  }

  lemma RaceCancels(db: Db, ids: seq<OrderId>, r: Race, mine: seq<Report>, now: Time, settings: Settings,
                    session: Option<int>)
    requires SettleEach(db, ids, now, settings, session).error.None? && PaymentOrders(ids)
    requires RaceOk(db, ids, r, now, settings, session) && |mine| == |ids| && (mine == r.first || mine == r.second)
    ensures PendingCancelled(r.db, Reporting(ids, mine, RejectedNow), now) == Finalized(db, ids, now, settings, session)
  {
    var all := SettleEach(db, ids, now, settings, session);
    assert Max(|r.first|, |r.second|) == |ids| && ReportsLike(mine, all.reports);
    hide PendingCancelled, SettleEach, ConfirmedApart, ReportsLike;
    assert ids[..|ids|] == ids;
    SameRejected(ids, mine, all.reports);
    var rejected := Reporting(ids, all.reports, RejectedNow);
    NoneLeftPending(db, ids, now, settings, session);
    NothingToCancel(Finalized(db, ids, now, settings, session), rejected, now);
    if rejected == [] {
      NothingToCancel(all.db, rejected, now);
    }
  }

  /** The rows before the cancellation of the rejected orders, and after it, answer a late attempt the same way. */
  lemma LateAttempt(db: Db, ids: seq<OrderId>, r: Race, k: nat, now: Time, settings: Settings, session: Option<int>)
    requires SettleEach(db, ids, now, settings, session).error.None? && PaymentOrders(ids)
    requires RaceOk(db, ids, r, now, settings, session) && k < Max(|r.first|, |r.second|)
    ensures SettlesAgain(r.db, ids[k], Second(SettleEach(db, ids, now, settings, session).reports[k]), now, settings,
                    session)
  {
    hide PendingCancelled, SettleEach, SettlesAgain;
    var all := SettleEach(db, ids, now, settings, session);
    var m := Max(|r.first|, |r.second|);
    LaterAttempt(db, ids, k, m, now, settings, session);
    if r.db != RowsAfter(db, ids, m, now, settings, session) {
      assert ids[..|ids|] == ids;
      var rejected := Reporting(ids, all.reports, RejectedNow);
      if rejected != [] {
        CancelledSettlesAgain(all.db, rejected, ids[k], Second(all.reports[k]), now, settings, session);
      }
    }
  }

  /** One more report on the faster call's side settles its order; on the slower one's it changes nothing. */
  lemma RaceSettles(db: Db, ids: seq<OrderId>, r: Race, k: nat, now: Time, settings: Settings, session: Option<int>)
    requires SettleEach(db, ids, now, settings, session).error.None? && PaymentOrders(ids)
    requires RaceOk(db, ids, r, now, settings, session) && k < |ids| && (k == |r.first| || k == |r.second|)
    ensures var m := Max(|r.first|, |r.second|);
            var alone := SettleEach(db, ids, now, settings, session).reports;
            SettleOne(r.db, ids[k], now, settings, session)
            == if k < m then Success((r.db, Second(alone[k])))
               else Success((RowsAfter(db, ids, m + 1, now, settings, session), alone[k]))
  {
    var m := Max(|r.first|, |r.second|);
    var alone := SettleEach(db, ids, now, settings, session).reports;
    assert |r.first| <= |ids| && |r.second| <= |ids|;
    hide SettleEach, SettlesAgain, RowsAfter, Finalized, SettleOne, PendingCancelled, ConfirmedApart;
    if k < m {
      LateAttempt(db, ids, r, k, now, settings, session);
      SettlesAgainMeans(r.db, ids[k], Second(alone[k]), now, settings, session);
    } else {
      FirstAttempt(db, ids, k, now, settings, session);
    }
  }

  lemma FirstSettles(db: Db, ids: seq<OrderId>, r: Race, now: Time, settings: Settings, session: Option<int>)
    requires SettleEach(db, ids, now, settings, session).error.None? && PaymentOrders(ids)
    requires RaceOk(db, ids, r, now, settings, session) && |r.first| < |ids|
    ensures var r' := RaceStep(r, ids, true, now, settings, session);
            && RaceOk(db, ids, r', now, settings, session)
            && |r'.first| == |r.first| + 1 && r'.second == r.second && r.first <= r'.first
  {
    var alone := SettleEach(db, ids, now, settings, session).reports;
    hide SettleEach, RowsAfter, Finalized, SettleOne, PendingCancelled, ConfirmedApart;
    RaceSettles(db, ids, r, |r.first|, now, settings, session);
    OneMoreAttempt(r.first, r.second, alone,
                   if |r.first| < |r.second| then Second(alone[|r.first|]) else alone[|r.first|]);
  }

  lemma SecondSettles(db: Db, ids: seq<OrderId>, r: Race, now: Time, settings: Settings, session: Option<int>)
    requires SettleEach(db, ids, now, settings, session).error.None? && PaymentOrders(ids)
    requires RaceOk(db, ids, r, now, settings, session) && |r.second| < |ids|
    ensures var r' := RaceStep(r, ids, false, now, settings, session);
            && RaceOk(db, ids, r', now, settings, session)
            && |r'.second| == |r.second| + 1 && r'.first == r.first && r.second <= r'.second
  {
    var alone := SettleEach(db, ids, now, settings, session).reports;
    OtherWayRound(r.first, r.second, alone);
    hide SettleEach, RowsAfter, Finalized, SettleOne, PendingCancelled, ConfirmedApart;
    RaceSettles(db, ids, r, |r.second|, now, settings, session);
    OneMoreAttempt(r.second, r.first, alone,
                   if |r.second| < |r.first| then Second(alone[|r.second|]) else alone[|r.second|]);
  }

  lemma OtherWayRound(first: seq<Report>, second: seq<Report>, alone: seq<Report>)
    requires ConfirmedApart(first, second, alone)
    ensures ConfirmedApart(second, first, alone)
  {
  }

  lemma OneIsThrough(db: Db, ids: seq<OrderId>, r: Race, firstMoves: bool, now: Time, settings: Settings,
                     session: Option<int>)
    requires SettleEach(db, ids, now, settings, session).error.None? && PaymentOrders(ids)
    requires RaceOk(db, ids, r, now, settings, session) && |if firstMoves then r.first else r.second| == |ids|
    ensures var r' := RaceStep(r, ids, firstMoves, now, settings, session);
            RaceOk(db, ids, r', now, settings, session) && r'.first == r.first && r'.second == r.second
  {
    assert |r.first| <= |ids| && |r.second| <= |ids|;
    hide SettleEach, RowsAfter, Finalized, SettleOne, PendingCancelled, ConfirmedApart;
    RaceCancels(db, ids, r, if firstMoves then r.first else r.second, now, settings, session);
  }

  lemma RaceStepKeeps(db: Db, ids: seq<OrderId>, r: Race, firstMoves: bool, now: Time, settings: Settings,
                      session: Option<int>)
    requires SettleEach(db, ids, now, settings, session).error.None? && PaymentOrders(ids)
    requires RaceOk(db, ids, r, now, settings, session)
    ensures var r' := RaceStep(r, ids, firstMoves, now, settings, session);
            && RaceOk(db, ids, r', now, settings, session)
            && |r'.first| == (if firstMoves && |r.first| < |ids| then |r.first| + 1 else |r.first|)
            && |r'.second| == (if !firstMoves && |r.second| < |ids| then |r.second| + 1 else |r.second|)
            && r.first <= r'.first && r.second <= r'.second
  {
    assert |r.first| <= |ids| && |r.second| <= |ids|;
    hide RaceOk, RaceStep, SettleEach;
    if |if firstMoves then r.first else r.second| == |ids| {
      OneIsThrough(db, ids, r, firstMoves, now, settings, session);
    } else if firstMoves {
      FirstSettles(db, ids, r, now, settings, session);
    } else {
      SecondSettles(db, ids, r, now, settings, session);
    }
  }

  lemma SettlesAgainMeans(db: Db, id: OrderId, r: Report, now: Time, settings: Settings, session: Option<int>)
    requires SettlesAgain(db, id, r, now, settings, session)
    ensures SettleOne(db, id, now, settings, session) == Success((db, r))
  {
  }

  /**
   However two calls interleave, the rows are always those that one call alone leaves so far: the race changes
   nothing about the orders, only about which call reports them as confirmed.
   */
  lemma {:induction false} RaceKeeps(db: Db, ids: seq<OrderId>, schedule: seq<bool>, now: Time, settings: Settings,
                                     session: Option<int>)
    requires SettleEach(db, ids, now, settings, session).error.None? && PaymentOrders(ids)
    ensures RaceOk(db, ids, RaceRun(db, ids, schedule, now, settings, session), now, settings, session)
  {
    if schedule == [] {
      assert ids[..0] == [];
    } else {
      hide RaceOk, RaceStep;
      var n := |schedule| - 1;
      RaceKeeps(db, ids, schedule[..n], now, settings, session);
      RaceStepKeeps(db, ids, RaceRun(db, ids, schedule[..n], now, settings, session), schedule[n], now, settings,
                    session);
    }
  }

  // ----- How often a race spends the coupon -----

  lemma {:induction false} PickedCount(ids: seq<OrderId>, reports: seq<Report>, r: Report, a: nat, b: nat)
    requires |reports| == |ids| && a < b < |ids| && reports[a] == reports[b] == r
    ensures 2 <= |Reporting(ids, reports, r)|
  {
    var n := |ids| - 1;
    if b < n {
      PickedCount(ids[..n], reports[..n], r, a, b);
    } else {
      assert ids[a] in Reporting(ids[..n], reports[..n], r) by {
        assert ids[..n][a] == ids[a] && reports[..n][a] == r;
      }
    }
  }

  lemma {:induction false} PickedTwo(ids: seq<OrderId>, reports: seq<Report>, r: Report) returns (a: nat, b: nat)
    requires |reports| == |ids| && 2 <= |Reporting(ids, reports, r)|
    ensures a < b < |ids| && reports[a] == reports[b] == r
  {
    var n := |ids| - 1;
    var front := Reporting(ids[..n], reports[..n], r);
    if reports[n] == r && |front| == 1 {
      assert front[0] in front;
      var k :| 0 <= k < n && ids[..n][k] == front[0] && reports[..n][k] == r;
      return k, n;
    }
    a, b := PickedTwo(ids[..n], reports[..n], r);
  }

  function Moves(firstMoves: bool, n: nat): (moves: seq<bool>)
    ensures |moves| == n
  {
    seq(n, _ => firstMoves)
  }

  /** The first call settles `n` orders, then the second one overtakes it by one. */
  function Overtaking(n: nat): seq<bool> {
    Moves(true, n) + Moves(false, n + 1)
  }

  /** One more move, seen from the lengths of the reports. */
  lemma OneMoreMove(db: Db, ids: seq<OrderId>, before: seq<bool>, firstMoves: bool, now: Time, settings: Settings,
                    session: Option<int>)
    requires SettleEach(db, ids, now, settings, session).error.None? && PaymentOrders(ids)
    ensures var r := RaceRun(db, ids, before, now, settings, session);
            var r' := RaceRun(db, ids, before + [firstMoves], now, settings, session);
            && (firstMoves && |r.first| < |ids| ==> |r'.first| == |r.first| + 1 && r'.second == r.second)
            && (!firstMoves && |r.second| < |ids| ==> |r'.second| == |r.second| + 1 && r'.first == r.first)
  {
    hide RaceOk, SettleEach, SettleOne;
    assert (before + [firstMoves])[..|before|] == before;
    RaceKeeps(db, ids, before, now, settings, session);
    RaceStepKeeps(db, ids, RaceRun(db, ids, before, now, settings, session), firstMoves, now, settings, session);
  }

  lemma {:induction false} FirstAhead(db: Db, ids: seq<OrderId>, n: nat, now: Time, settings: Settings,
                                      session: Option<int>)
    requires SettleEach(db, ids, now, settings, session).error.None? && PaymentOrders(ids) && n <= |ids|
    ensures var r := RaceRun(db, ids, Moves(true, n), now, settings, session); |r.first| == n && r.second == []
  {
    if n == 0 {
      assert Moves(true, 0) == [];
    } else {
      hide RaceRun, SettleEach;
      assert Moves(true, n) == Moves(true, n - 1) + [true];
      FirstAhead(db, ids, n - 1, now, settings, session);
      OneMoreMove(db, ids, Moves(true, n - 1), true, now, settings, session);
    }
  }

  lemma {:induction false} SecondCatchesUp(db: Db, ids: seq<OrderId>, n: nat, j: nat, now: Time, settings: Settings,
                                           session: Option<int>)
    requires SettleEach(db, ids, now, settings, session).error.None? && PaymentOrders(ids) && n <= |ids| && j <= |ids|
    ensures var r := RaceRun(db, ids, Moves(true, n) + Moves(false, j), now, settings, session);
            |r.second| == j && r.first == RaceRun(db, ids, Moves(true, n), now, settings, session).first
  {
    hide RaceRun, SettleEach;
    if j == 0 {
      assert Moves(true, n) + Moves(false, 0) == Moves(true, n);
      FirstAhead(db, ids, n, now, settings, session);
    } else {
      var before := Moves(true, n) + Moves(false, j - 1);
      assert Moves(true, n) + Moves(false, j) == before + [false];
      SecondCatchesUp(db, ids, n, j - 1, now, settings, session);
      OneMoreMove(db, ids, before, false, now, settings, session);
    }
  }

  /** Of two orders that can be confirmed the first call confirms one, and the second overtakes it with the other. */
  lemma OvertakingSpendsTwice(db: Db, ids: seq<OrderId>, a: nat, b: nat, now: Time, settings: Settings,
                              session: Option<int>)
    requires SettleEach(db, ids, now, settings, session).error.None? && PaymentOrders(ids) && a < b < |ids|
    requires var alone := SettleEach(db, ids, now, settings, session).reports;
             alone[a] == alone[b] == ConfirmedNow
    ensures RaceSpends(RaceRun(db, ids, Overtaking(b), now, settings, session)) == 2
  {
    hide SettleEach, RaceRun, RowsAfter, Finalized, ReportsLike;
    FirstAhead(db, ids, b, now, settings, session);
    SecondCatchesUp(db, ids, b, b + 1, now, settings, session);
    RaceKeeps(db, ids, Moves(true, b), now, settings, session);
    RaceKeeps(db, ids, Overtaking(b), now, settings, session);
    var ahead := RaceRun(db, ids, Moves(true, b), now, settings, session);
    var r := RaceRun(db, ids, Overtaking(b), now, settings, session);
    assert ConfirmedAt(ahead.first, a);
    assert r.first[a] == ConfirmedNow && !ConfirmedAt(r.first, b);
    assert ConfirmedAt(r.second, b);
  }

  /**
   The coupon is spent twice by some race of two calls for a payment if and only if a call alone would confirm
   two of its orders; so never for a payment of a single order.
   */
  lemma CouponSpentTwiceIff(db: Db, ids: seq<OrderId>, now: Time, settings: Settings, session: Option<int>)
    requires SettleEach(db, ids, now, settings, session).error.None? && PaymentOrders(ids)
    ensures (exists schedule :: RaceSpends(RaceRun(db, ids, schedule, now, settings, session)) == 2)
        <==> 2 <= |ConfirmedBy(db, ids, now, settings, session)|
  {
    hide SettleEach, RaceRun, RowsAfter, Finalized;
    var alone := SettleEach(db, ids, now, settings, session).reports;
    if schedule :| RaceSpends(RaceRun(db, ids, schedule, now, settings, session)) == 2 {
      RaceKeeps(db, ids, schedule, now, settings, session);
      var r := RaceRun(db, ids, schedule, now, settings, session);
      var a :| 0 <= a < |r.first| && r.first[a] == ConfirmedNow;
      var b :| 0 <= b < |r.second| && r.second[b] == ConfirmedNow;
      assert ConfirmedAt(r.first, a) && ConfirmedAt(r.second, b) && a != b;
      assert alone[a] == alone[b] == ConfirmedNow;
      PickedCount(ids, alone, ConfirmedNow, Min(a, b), Max(a, b));
    }
    if 2 <= |ConfirmedBy(db, ids, now, settings, session)| {
      var a, b := PickedTwo(ids, alone, ConfirmedNow);
      OvertakingSpendsTwice(db, ids, a, b, now, settings, session);
    }
  }
}
