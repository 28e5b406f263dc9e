/**
 The two layers agree: a service method that runs without interruption is a run of the order protocol that takes the
 method's own steps. What comes in between those steps is the protocol's business.
 */
module Refinement {
  import opened Wrappers
  import opened SellerFees
  import opened Domain
  import opened OrderSteps
  import opened Protocol
  import opened ProtocolInvariant
  import opened ProtocolTheorems
  import opened Lifecycle
  import opened SellerNets
  import opened Finalization
  import OrderService
  import Returns

  lemma IdleTask(s: State, t: TaskId)
    requires t !in s.tasks
    ensures CommitSettleStep(s, t) == s && RereadStep(s, t) == s
  {
  }

  lemma PutAndEnd(s: State, t: TaskId, task: Task)
    requires t !in s.tasks
    ensures End(s.(tasks := s.tasks[t := task]), t) == s
  {
    assert s.tasks[t := task] - {t} == s.tasks;
  }

  lemma SettledRun(s: State, t: TaskId, id: OrderId, fee: real, session: Option<int>)
    requires t !in s.tasks && Percentage(fee) && id in s.db.orders && s.db.orders[id].status == Pending
    ensures var o := s.db.orders[id];
            var run := RereadStep(CommitSettleStep(BeginSettleStep(s, t, id, fee, session), t), t);
            run == if CanSettle(s.db, id, o, s.now) then SettledState(s, id, o.items, s.now, fee, session)
                   else Reported(s, id, RereadReport(s.db, id))
  {
    hide AllAvailable, SettledDb, RereadReport;
    var o := s.db.orders[id];
    var task := Settling(id, o, s.now, fee, session);
    var begun := s.(tasks := s.tasks[t := task]);
    assert BeginSettleStep(s, t, id, fee, session) == begun;
    PutAndEnd(s, t, task);
    if CanSettle(s.db, id, o, s.now) {
      assert CommitSettleStep(begun, t) == SettledState(s, id, o.items, s.now, fee, session);
      IdleTask(SettledState(s, id, o.items, s.now, fee, session), t);
    } else {
      var refused := s.(tasks := s.tasks[t := Refused(id)]);
      assert begun.tasks[t := Refused(id)] == refused.tasks;
      assert CommitSettleStep(begun, t) == refused;
      PutAndEnd(s, t, Refused(id));
    }
  }

  /** Settling one order is reading it, committing or not, and reading it again if refused. */
  lemma SettlingSteps(s: State, t: TaskId, id: OrderId, fee: real, session: Option<int>)
    ensures Run(s, [BeginSettle(t, id, fee, session), CommitSettle(t), Reread(t)])
         == RereadStep(CommitSettleStep(BeginSettleStep(s, t, id, fee, session), t), t)
  {
    hide Run, BeginSettleStep, CommitSettleStep, RereadStep;
    RunThree(s, BeginSettle(t, id, fee, session), CommitSettle(t), Reread(t));
  }

  lemma SettlingIsARun(s: State, t: TaskId, id: OrderId, fee: real, settings: Settings, session: Option<int>)
    requires t !in s.tasks && Percentage(fee)
    requires id in s.db.orders ==> GetSellerFeePercent(settings(s.db.orders[id].seller)) == Success(fee)
    ensures var one := SettleOne(s.db, id, s.now, settings, session);
            var run := Run(s, [BeginSettle(t, id, fee, session), CommitSettle(t), Reread(t)]);
            && one.Success? && run.db == one.value.0 && run.tasks == s.tasks && run.now == s.now
            && run.outcomes == s.outcomes + [Outcome(id, one.value.1)]
  {
    hide Run, SettledDb, GetSellerFeePercent, CanSettle, CommitSettleStep, RereadStep, RereadReport;
    SettlingSteps(s, t, id, fee, session);
    if id in s.db.orders && s.db.orders[id].status == Pending {
      SettledRun(s, t, id, fee, session);
    } else {
      IdleTask(BeginSettleStep(s, t, id, fee, session), t);
    }
  }

  /** What `cancelOrderWithRefund` does to the rows of a paid order whose refund goes through. */
  function CancelledDb(db: Db, id: OrderId, to: OrderStatus, c: Cancellation): Db
    requires id in db.orders
  {
    var o := db.orders[id];
    db.(orders := db.orders[id := Claimed(o, to, c)],
        products := OrderService.ItemsGivenUp(db.products, o.items, o.buyer, o.status))
  }

  lemma ClaimedRun(s: State, t: TaskId, id: OrderId, to: OrderStatus, c: Cancellation)
    requires t !in s.tasks && id in s.db.orders && s.db.orders[id].status != Pending
    ensures var o := s.db.orders[id];
            ClaimStep(s.(tasks := s.tasks[t := Cancelling(id, o, to, c, ByCard)]), t)
            == SetOrder(s, id, Claimed(o, to, c)).(tasks := s.tasks[t := Refunding(id, o, to, o)])
  {
    var o := s.db.orders[id];
    var begun := s.(tasks := s.tasks[t := Cancelling(id, o, to, c, ByCard)]);
    assert begun.tasks[t := Refunding(id, o, to, o)] == s.tasks[t := Refunding(id, o, to, o)];
  }

  lemma PaidBackRun(s: State, t: TaskId, id: OrderId, o: Order, to: OrderStatus)
    requires t !in s.tasks && id in s.db.orders && o.status != Pending
    ensures RelistStep(RefundSucceedsStep(s.(tasks := s.tasks[t := Refunding(id, o, to, o)]), t), t)
         == s.(db := s.db.(products := OrderService.ItemsGivenUp(s.db.products, o.items, o.buyer, o.status)))
  {
    hide RelistAll;
    var relisting := s.(tasks := s.tasks[t := Relisting(id, o, to, o)]);
    assert s.tasks[t := Refunding(id, o, to, o)][t := Relisting(id, o, to, o)] == relisting.tasks;
    assert RefundSucceedsStep(s.(tasks := s.tasks[t := Refunding(id, o, to, o)]), t) == relisting;
    PutAndEnd(s, t, Relisting(id, o, to, o));
  }

  lemma RunFour(s: State, a: Action, b: Action, c: Action, d: Action)
    ensures Run(s, [a, b, c, d]) == Step(Step(Step(Step(s, a), b), c), d)
  {
    hide Step;
    RunThree(s, a, b, c);
    RunSnoc(s, [a, b, c], d);
    assert [a, b, c] + [d] == [a, b, c, d];
  }

  lemma BegunAndClaimed(s: State, t: TaskId, id: OrderId, actor: Actor, user: Option<UserId>, to: OrderStatus)
    requires t !in s.tasks && id in s.db.orders && s.db.orders[id].status != Pending
    requires Terminal(to) && MayMove(actor, s.db.orders[id].status, to)
    ensures var o := s.db.orders[id];
            Step(Step(s, BeginCancel(t, id, actor, user, to, ByCard)), Claim(t))
            == SetOrder(s, id, Claimed(o, to, Cancellation(s.now, user, actor)))
                 .(tasks := s.tasks[t := Refunding(id, o, to, o)])
  {
    hide MayMove, ClaimStep, Claimed;
    var o, c := s.db.orders[id], Cancellation(s.now, user, actor);
    var begun := BeginCancelStep(s, t, id, actor, user, to, ByCard);
    assert Step(s, BeginCancel(t, id, actor, user, to, ByCard)) == begun;
    assert begun == s.(tasks := s.tasks[t := Cancelling(id, o, to, c, ByCard)]);
    ClaimedRun(s, t, id, to, c);
    assert Step(begun, Claim(t)) == ClaimStep(begun, t);
  }

  lemma RefundedAndRelisted(s: State, t: TaskId)
    ensures Step(Step(s, RefundSucceeds(t)), Relist(t)) == RelistStep(RefundSucceedsStep(s, t), t)
  {
    hide RefundSucceedsStep, RelistStep;
    assert Step(s, RefundSucceeds(t)) == RefundSucceedsStep(s, t);
  }

  /** Cancelling a paid order with a refund that goes through is checking, claiming, refunding and relisting. */
  lemma CancellingIsARun(s: State, t: TaskId, id: OrderId, actor: Actor, user: Option<UserId>, to: OrderStatus)
    requires t !in s.tasks && id in s.db.orders && s.db.orders[id].status != Pending
    requires Terminal(to) && MayMove(actor, s.db.orders[id].status, to)
    ensures Run(s, [BeginCancel(t, id, actor, user, to, ByCard), Claim(t), RefundSucceeds(t), Relist(t)])
         == s.(db := CancelledDb(s.db, id, to, Cancellation(s.now, user, actor)))
  {
    RunFour(s, BeginCancel(t, id, actor, user, to, ByCard), Claim(t), RefundSucceeds(t), Relist(t));
    hide Run, Step, MayMove, RefundSucceedsStep, RelistStep, OrderService.ItemsGivenUp, Claimed;
    var o := s.db.orders[id];
    BegunAndClaimed(s, t, id, actor, user, to);
    var claimed := SetOrder(s, id, Claimed(o, to, Cancellation(s.now, user, actor)));
    RefundedAndRelisted(claimed.(tasks := s.tasks[t := Refunding(id, o, to, o)]), t);
    PaidBackRun(claimed, t, id, o, to);
  }

  // ----- The other ways a cancellation can go -----

  lemma RefundFailedRun(s: State, t: TaskId, id: OrderId, o: Order, to: OrderStatus, c: Cancellation)
    requires t !in s.tasks && id in s.db.orders && s.db.orders[id] == o && o.cancellation.None?
    ensures RefundFailsStep(SetOrder(s, id, Claimed(o, to, c)).(tasks := s.tasks[t := Refunding(id, o, to, o)]), t) == s
  {
    PutAndEnd(s, t, Refunding(id, o, to, o));
    assert Restored(Claimed(o, to, c), o.status) == o;
    assert s.db.orders[id := Claimed(o, to, c)][id := o] == s.db.orders;
  }

  /** Cancelling a paid order whose refund fails is checking, claiming and putting back: nothing has changed. */
  lemma FailedCancellingIsARun(s: State, t: TaskId, id: OrderId, actor: Actor, user: Option<UserId>, to: OrderStatus)
    requires t !in s.tasks && id in s.db.orders && s.db.orders[id].status != Pending
    requires s.db.orders[id].cancellation.None? && Terminal(to) && MayMove(actor, s.db.orders[id].status, to)
    ensures Run(s, [BeginCancel(t, id, actor, user, to, ByCard), Claim(t), RefundFails(t)]) == s
  {
    RunThree(s, BeginCancel(t, id, actor, user, to, ByCard), Claim(t), RefundFails(t));
    hide Run, MayMove, Claimed, RefundFailsStep;
    var o, c := s.db.orders[id], Cancellation(s.now, user, actor);
    BegunAndClaimed(s, t, id, actor, user, to);
    var claimed := SetOrder(s, id, Claimed(o, to, c)).(tasks := s.tasks[t := Refunding(id, o, to, o)]);
    RefundFailedRun(s, t, id, o, to, c);
    assert Step(claimed, RefundFails(t)) == RefundFailsStep(claimed, t);
  }

  lemma UnpaidClaimedRun(s: State, t: TaskId, id: OrderId, to: OrderStatus, c: Cancellation, funding: Funding)
    requires t !in s.tasks && id in s.db.orders && s.db.orders[id].status == Pending
    ensures ClaimUnpaidStep(s.(tasks := s.tasks[t := Cancelling(id, s.db.orders[id], to, c, funding)]), t)
         == s.(db := CancelledDb(s.db, id, to, c))
  {
    hide ReleaseFor, Claimed;
    var o := s.db.orders[id];
    var begun := s.(tasks := s.tasks[t := Cancelling(id, o, to, c, funding)]);
    var claimed := ClaimStep(begun, t);
    assert claimed == SetOrder(begun, id, Claimed(o, to, c)).(tasks := begun.tasks[t := ReleasingHolds(map[id := o])]);
    var released := ReleaseStep(claimed, t, id);
    assert released.db == CancelledDb(s.db, id, to, c);
    assert released.tasks - {t} == s.tasks;
  }

  /** Cancelling an unpaid order is checking it and claiming it, with the release of its holds right behind. */
  lemma ClaimsUnpaid(s: State, t: TaskId)
    ensures Step(s, ClaimUnpaidAtOnce(t)) == ClaimUnpaidStep(s, t)
  {
    hide ClaimUnpaidStep;
  }

  lemma UnpaidCancellingIsARun(s: State, t: TaskId, id: OrderId, actor: Actor, user: Option<UserId>, to: OrderStatus)
    requires t !in s.tasks && id in s.db.orders && s.db.orders[id].status == Pending
    requires Terminal(to) && MayMove(actor, Pending, to)
    ensures Run(s, [BeginCancel(t, id, actor, user, to, Untracked), ClaimUnpaidAtOnce(t)])
         == s.(db := CancelledDb(s.db, id, to, Cancellation(s.now, user, actor)))
  {
    hide Run, Step, MayMove, ClaimUnpaidStep, CancelledDb;
    var c := Cancellation(s.now, user, actor);
    RunTwo(s, BeginCancel(t, id, actor, user, to, Untracked), ClaimUnpaidAtOnce(t));
    BeginsCancelling(s, t, id, actor, user, to, Untracked);
    UnpaidClaimedRun(s, t, id, to, c, Untracked);
    ClaimsUnpaid(s.(tasks := s.tasks[t := Cancelling(id, s.db.orders[id], to, c, Untracked)]), t);
  }

  lemma BeginsCancelling(s: State, t: TaskId, id: OrderId, actor: Actor, user: Option<UserId>, to: OrderStatus,
                         funding: Funding)
    requires t !in s.tasks && id in s.db.orders && Terminal(to) && MayMove(actor, s.db.orders[id].status, to)
    requires funding == Financed ==> actor == Admin
    ensures Step(s, BeginCancel(t, id, actor, user, to, funding))
         == s.(tasks := s.tasks[t := Cancelling(id, s.db.orders[id], to, Cancellation(s.now, user, actor), funding)])
  {
    hide MayMove;
    assert Step(s, BeginCancel(t, id, actor, user, to, funding)) == BeginCancelStep(s, t, id, actor, user, to, funding);
  }

  lemma ClaimsAndRelists(s: State, t: TaskId)
    ensures Step(Step(s, Claim(t)), Relist(t)) == RelistStep(ClaimStep(s, t), t)
  {
    hide ClaimStep, RelistStep;
    assert Step(s, Claim(t)) == ClaimStep(s, t);
  }

  lemma UnrefundedRun(s: State, t: TaskId, id: OrderId, to: OrderStatus, c: Cancellation, funding: Funding)
    requires t !in s.tasks && id in s.db.orders && s.db.orders[id].status != Pending && funding != ByCard
    ensures RelistStep(ClaimStep(s.(tasks := s.tasks[t := Cancelling(id, s.db.orders[id], to, c, funding)]), t), t)
         == s.(db := CancelledDb(s.db, id, to, c))
  {
    hide RelistAll, Claimed;
    var o := s.db.orders[id];
    var begun := s.(tasks := s.tasks[t := Cancelling(id, o, to, c, funding)]);
    var claimed := ClaimStep(begun, t);
    assert claimed == SetOrder(begun, id, Claimed(o, to, c)).(tasks := begun.tasks[t := Relisting(id, o, to, o)]);
    assert claimed.tasks - {t} == s.tasks;
  }

  /** Cancelling a paid order that the bank financed, or whose payment is not on record, goes without a refund. */
  lemma UnrefundedCancellingIsARun(s: State, t: TaskId, id: OrderId, actor: Actor, user: Option<UserId>,
                                   to: OrderStatus, funding: Funding)
    requires t !in s.tasks && id in s.db.orders && s.db.orders[id].status != Pending && funding != ByCard
    requires Terminal(to) && MayMove(actor, s.db.orders[id].status, to) && (funding == Financed ==> actor == Admin)
    ensures Run(s, [BeginCancel(t, id, actor, user, to, funding), Claim(t), Relist(t)])
         == s.(db := CancelledDb(s.db, id, to, Cancellation(s.now, user, actor)))
  {
    RunThree(s, BeginCancel(t, id, actor, user, to, funding), Claim(t), Relist(t));
    hide Run, Step, MayMove, ClaimStep, RelistStep, CancelledDb;
    var c := Cancellation(s.now, user, actor);
    BeginsCancelling(s, t, id, actor, user, to, funding);
    UnrefundedRun(s, t, id, to, c, funding);
    ClaimsAndRelists(s.(tasks := s.tasks[t := Cancelling(id, s.db.orders[id], to, c, funding)]), t);
  }

  /**
   A cancellation does not begin exactly where the service refuses it: there is no such order, the actor may not move
   it there, or the bank financed it and the actor is not an admin.
   */
  lemma CancellingRefusedIff(s: State, t: TaskId, id: OrderId, actor: Actor, user: Option<UserId>, to: OrderStatus,
                             funding: Funding)
    requires t !in s.tasks && Terminal(to)
    ensures Step(s, BeginCancel(t, id, actor, user, to, funding)) == s
            <==> id !in s.db.orders || !MayMove(actor, s.db.orders[id].status, to)
                 || (funding == Financed && actor != Admin)
  {
    hide Step, MayMove;
    BeginCancels(s, BeginCancel(t, id, actor, user, to, funding));
    if id in s.db.orders && MayMove(actor, s.db.orders[id].status, to) && (funding == Financed ==> actor == Admin) {
      BeginsCancelling(s, t, id, actor, user, to, funding);
    }
  }

  lemma BeginCancels(s: State, a: Action)
    requires a.BeginCancel?
    ensures Step(s, a) == BeginCancelStep(s, a.t, a.order, a.actor, a.user, a.to, a.funding)
  {
    hide BeginCancelStep;
  }

  // ----- The single statements -----

  lemma AdvancedRun(s: State, t: TaskId, id: OrderId, from: OrderStatus, to: OrderStatus)
    requires t !in s.tasks && id in s.db.orders && s.db.orders[id].status == from
    ensures AdvanceStep(s.(tasks := s.tasks[t := Advancing(id, from, to)]), t)
         == SetOrder(s, id, Advanced(s.db.orders[id], to, s.now))
  {
    hide Advanced;
    PutAndEnd(s, t, Advancing(id, from, to));
  }

  /** Moving an order on is checking the transition and updating the row. */
  lemma AdvancingIsARun(s: State, t: TaskId, id: OrderId, actor: Actor, to: OrderStatus)
    requires t !in s.tasks && id in s.db.orders && !Terminal(to) && MayMove(actor, s.db.orders[id].status, to)
    ensures Run(s, [BeginAdvance(t, id, actor, to), Advance(t)])
         == s.(db := OrderService.AdvancedDb(s.db, id, s.db.orders[id].status, to, s.now))
  {
    hide Run, MayMove, AdvanceStep, Advanced;
    RunTwo(s, BeginAdvance(t, id, actor, to), Advance(t));
    var from := s.db.orders[id].status;
    var begun := BeginAdvanceStep(s, t, id, actor, to);
    assert Step(s, BeginAdvance(t, id, actor, to)) == begun;
    assert begun == s.(tasks := s.tasks[t := Advancing(id, from, to)]);
    AdvancedRun(s, t, id, from, to);
    assert Step(begun, Advance(t)) == AdvanceStep(begun, t);
  }

  /** Whatever came between the check and the update, the update is the guarded one of the service. */
  lemma AdvancesGuarded(s: State, t: TaskId)
    requires t in s.tasks && s.tasks[t].Advancing?
    ensures var task := s.tasks[t];
            Step(s, Advance(t))
            == End(s, t).(db := OrderService.AdvancedDb(s.db, task.order, task.from, task.to, s.now))
  {
    hide Advanced;
    assert Step(s, Advance(t)) == AdvanceStep(s, t);
  }

  lemma ReducedRun(s: State, t: TaskId, id: OrderId, refund: MoneyBack)
    requires t in s.tasks && !refund.already && s.tasks[t] == ReturnWritten(id, Some(refund.usd))
    ensures WriteEarningsStep(ReadEarningsStep(s, t), t).db == Returns.EarningsReduced(s.db, id, Some(refund))
  {
    hide EarningsAfter;
    var read := ReadEarningsStep(s, t);
    if refund.usd != 0.0 && id in s.db.orders && s.db.orders[id].sellerNet.Some? {
      assert read.tasks[t].EarningsRead? && read.db == s.db;
    } else {
      assert read.tasks[t] == EarningsDone(id);
    }
  }

  lemma ReadsAndWrites(s: State, t: TaskId)
    ensures Step(Step(s, ReadEarnings(t)), WriteEarnings(t)) == WriteEarningsStep(ReadEarningsStep(s, t), t)
  {
    hide ReadEarningsStep, WriteEarningsStep;
    assert Step(s, ReadEarnings(t)) == ReadEarningsStep(s, t);
  }

  /** Reducing the seller's earnings is reading them and writing what is left. */
  lemma ReducingIsARun(s: State, t: TaskId, id: OrderId, refund: MoneyBack)
    requires t in s.tasks && !refund.already && s.tasks[t] == ReturnWritten(id, Some(refund.usd))
    ensures Run(s, [ReadEarnings(t), WriteEarnings(t)]).db == Returns.EarningsReduced(s.db, id, Some(refund))
  {
    RunTwo(s, ReadEarnings(t), WriteEarnings(t));
    ReducedRun(s, t, id, refund);
    ReadsAndWrites(s, t);
    hide *;
  }

  // ----- Cancelling unpaid orders -----

  function Releases(t: TaskId, ids: seq<OrderId>): (actions: seq<Action>)
    ensures |actions| == |ids|
  {
    seq(|ids|, i requires 0 <= i < |ids| => ReleaseHolds(t, ids[i]))
  }

  function Only(found: map<OrderId, Order>, ids: seq<OrderId>): map<OrderId, Order> {
    map id | id in found && id in ids :: found[id]
  }

  lemma OneMoreRelease(s: State, t: TaskId, found: map<OrderId, Order>, ids: seq<OrderId>, id: OrderId)
    requires id in found && id !in ids && t in s.tasks
    requires s.tasks[t] == ReleasingHolds(found - Members(ids))
    ensures var before := s.(db := s.db.(products := ReleaseFound(s.db.products, Only(found, ids))));
            Step(before, ReleaseHolds(t, id))
            == s.(db := s.db.(products := ReleaseFound(s.db.products, Only(found, ids + [id]))),
                  tasks := s.tasks[t := ReleasingHolds(found - Members(ids + [id]))])
  {
    ReleaseOneMore(s.db.products, Only(found, ids), id, found[id]);
    assert Only(found, ids + [id]) == Only(found, ids)[id := found[id]];
    assert found - Members(ids) - {id} == found - Members(ids + [id]);
    hide ReleaseFound, ReleaseFor;
  }

  /** The loop over the found orders releases the holds of each. */
  lemma {:induction false} ReleasingRun(s: State, t: TaskId, found: map<OrderId, Order>, ids: seq<OrderId>)
    requires t in s.tasks && s.tasks[t] == ReleasingHolds(found) && forall id :: id in ids ==> id in found
    requires forall i, j :: 0 <= i < j < |ids| ==> ids[i] != ids[j]
    ensures Run(s, Releases(t, ids))
         == s.(db := s.db.(products := ReleaseFound(s.db.products, Only(found, ids))),
               tasks := s.tasks[t := ReleasingHolds(found - Members(ids))])
  {
    if ids == [] {
      assert found - Members([]) == found && ReleaseFound(s.db.products, map[]) == s.db.products;
      assert Only(found, []) == map[] && s.tasks[t := ReleasingHolds(found)] == s.tasks;
    } else {
      var n := |ids| - 1;
      assert Releases(t, ids) == Releases(t, ids[..n]) + [ReleaseHolds(t, ids[n])] && ids == ids[..n] + [ids[n]];
      ReleasingRun(s, t, found, ids[..n]);
      RunSnoc(s, Releases(t, ids[..n]), ReleaseHolds(t, ids[n]));
      hide Run, Step, ReleaseFound, Releases;
      var later := s.(tasks := s.tasks[t := ReleasingHolds(found - Members(ids[..n]))]);
      OneMoreRelease(later, t, found, ids[..n], ids[n]);
      assert later.tasks[t := ReleasingHolds(found - Members(ids))]
          == s.tasks[t := ReleasingHolds(found - Members(ids))];
    }
  }

  lemma FoundAndCancelled(s: State, t: TaskId, ids: seq<OrderId>)
    requires t !in s.tasks
    ensures var found := FindPending(s.db, ids);
            Run(s, [FindUnpaid(t, ids), CancelUnpaid(t)])
            == s.(db := s.db.(orders := CancelFound(s.db.orders, found.Keys, s.now)),
                  tasks := s.tasks[t := ReleasingHolds(found)])
  {
    var found := FindPending(s.db, ids);
    RunTwo(s, FindUnpaid(t, ids), CancelUnpaid(t));
    hide Run, FindPending, CancelFound;
    assert s.tasks[t := FoundUnpaid(found)][t := ReleasingHolds(found)] == s.tasks[t := ReleasingHolds(found)];
  }

  lemma AllOfThem(found: map<OrderId, Order>, ids: seq<OrderId>)
    requires Members(ids) == found.Keys
    ensures (forall id :: id in ids ==> id in found) && Only(found, ids) == found && found - Members(ids) == map[]
  {
    forall id | id in found
      ensures id in ids
    {
      assert id in Members(ids);
    }
    forall id | id in ids
      ensures id in found
    {
      assert id in Members(ids);
    }
  }

  /**
   Cancelling unpaid orders with nothing in between is finding them, cancelling them, and releasing their holds one
   after the other, in any order.
   */
  lemma DroppingIsARun(s: State, t: TaskId, ids: seq<OrderId>, loop: seq<OrderId>)
    requires t !in s.tasks && Members(loop) == FindPending(s.db, ids).Keys
    requires forall i, j :: 0 <= i < j < |loop| ==> loop[i] != loop[j]
    ensures Run(s, [FindUnpaid(t, ids), CancelUnpaid(t)] + Releases(t, loop))
         == s.(db := PendingCancelled(s.db, ids, s.now), tasks := s.tasks[t := ReleasingHolds(map[])])
  {
    hide *;
    var found := FindPending(s.db, ids);
    AllOfThem(found, loop);
    FoundAndCancelled(s, t, ids);
    RunConcat(s, [FindUnpaid(t, ids), CancelUnpaid(t)], Releases(t, loop));
    var cancelled := s.(db := s.db.(orders := CancelFound(s.db.orders, found.Keys, s.now)),
                        tasks := s.tasks[t := ReleasingHolds(found)]);
    ReleasingRun(cancelled, t, found, loop);
    assert cancelled.tasks[t := ReleasingHolds(map[])] == s.tasks[t := ReleasingHolds(map[])];
    CancelledTogether(s.db, ids, s.now);
  }

  lemma CancelledTogether(db: Db, ids: seq<OrderId>, now: Time)
    ensures var found := FindPending(db, ids);
            db.(orders := CancelFound(db.orders, found.Keys, now), products := ReleaseFound(db.products, found))
            == PendingCancelled(db, ids, now)
  {
  }

  // ----- A whole return update -----

  /** What an update that gave this back has still to take off what the seller nets. */
  function ToTakeOff(refund: Option<MoneyBack>): Option<real> {
    if refund.Some? && !refund.value.already then Some(refund.value.usd) else None
  }

  lemma UpdateWrites(s: State, t: TaskId, key: ItemKey, update: Returns.ReturnUpdate, made: MoneyBack)
    requires t !in s.tasks && key in s.db.returnRequests && 0.0 <= made.usd
    requires update.status in ReturnTransitions(s.db.returnRequests[key].status)
    ensures var refund := if Returns.PaysBack(s.db.returnRequests[key], update) then Some(made) else None;
            WriteReturnStep(ReadReturnStep(s, t, key, update.status), t, update.amount, made)
            == s.(db := Returns.Written(s.db, key, update, refund, s.now),
                  tasks := s.tasks[t := ReturnWritten(key.order, ToTakeOff(refund))])
  {
    var read := ReturnRead(key, update.status, s.db.returnRequests[key].refundedAt);
    assert ReadReturnStep(s, t, key, update.status) == s.(tasks := s.tasks[t := read]);
    hide ReturnTransitions, UpdatedReturn;
  }

  lemma EarningsTakenOff(s: State, t: TaskId, id: OrderId, refund: Option<MoneyBack>)
    requires t in s.tasks && s.tasks[t] == ReturnWritten(id, ToTakeOff(refund))
    ensures WriteEarningsStep(ReadEarningsStep(s, t), t)
         == s.(db := Returns.EarningsReduced(s.db, id, refund), tasks := s.tasks[t := EarningsDone(id)])
  {
    hide EarningsAfter;
    var read := ReadEarningsStep(s, t);
    if read.tasks[t].EarningsRead? {
      assert read.tasks[t := EarningsDone(id)] == s.tasks[t := EarningsDone(id)];
    }
  }

  lemma OrderMarked(s: State, t: TaskId, id: OrderId)
    requires t in s.tasks && s.tasks[t] == EarningsDone(id)
    ensures MarkRefundedStep(ReadFullyReturnedStep(s, t), t)
         == End(s, t).(db := Returns.MarkedIfFullyReturned(s.db, id))
  {
    hide FullyReturned;
    if id in s.db.orders && FullyReturned(s.db, id) && s.db.orders[id].status != Refunded {
      assert s.tasks[t := MarkingRefunded(id)] - {t} == s.tasks - {t};
    } else {
      assert t !in (s.tasks - {t});
    }
  }

  function UpdateActions(t: TaskId, key: ItemKey, update: Returns.ReturnUpdate, made: MoneyBack): seq<Action> {
    [ReadReturn(t, key, update.status), WriteReturn(t, update.amount, made)] + [ReadEarnings(t), WriteEarnings(t)]
    + [ReadFullyReturned(t), MarkRefunded(t)]
  }

  lemma UpdateSteps(s: State, t: TaskId, key: ItemKey, update: Returns.ReturnUpdate, made: MoneyBack)
    ensures var written := WriteReturnStep(ReadReturnStep(s, t, key, update.status), t, update.amount, made);
            Run(s, UpdateActions(t, key, update, made))
            == MarkRefundedStep(ReadFullyReturnedStep(WriteEarningsStep(ReadEarningsStep(written, t), t), t), t)
  {
    hide Run, Step, ReadReturnStep, WriteReturnStep, ReadEarningsStep, WriteEarningsStep, ReadFullyReturnedStep,
         MarkRefundedStep;
    var writes := [ReadReturn(t, key, update.status), WriteReturn(t, update.amount, made)];
    var reduces, marks := [ReadEarnings(t), WriteEarnings(t)], [ReadFullyReturned(t), MarkRefunded(t)];
    RunConcat(s, writes + reduces, marks);
    RunConcat(s, writes, reduces);
    RunTwo(s, writes[0], writes[1]);
    RunTwo(Run(s, writes), reduces[0], reduces[1]);
    RunTwo(Run(s, writes + reduces), marks[0], marks[1]);
    ReturnIsWritten(s, t, key, update.status, update.amount, made);
    ReadsAndWrites(Run(s, writes), t);
    ReadsAndMarks(Run(s, writes + reduces), t);
  }

  lemma ReturnIsWritten(s: State, t: TaskId, key: ItemKey, newStatus: ReturnStatus, given: Option<real>,
                        made: MoneyBack)
    ensures Step(Step(s, ReadReturn(t, key, newStatus)), WriteReturn(t, given, made))
         == WriteReturnStep(ReadReturnStep(s, t, key, newStatus), t, given, made)
  {
    hide ReadReturnStep, WriteReturnStep;
  }

  lemma ReadsAndMarks(s: State, t: TaskId)
    ensures Step(Step(s, ReadFullyReturned(t)), MarkRefunded(t)) == MarkRefundedStep(ReadFullyReturnedStep(s, t), t)
  {
    hide ReadFullyReturnedStep, MarkRefundedStep;
  }

  /**
   A return update that nothing interrupts is its six statements: read, write, and the same for what the seller nets
   and for the order once it is fully returned.
   */
  lemma UpdatingIsARun(s: State, t: TaskId, key: ItemKey, update: Returns.ReturnUpdate, made: MoneyBack)
    requires t !in s.tasks && key in s.db.returnRequests && 0.0 <= made.usd
    requires update.status in ReturnTransitions(s.db.returnRequests[key].status)
    ensures var refund := if Returns.PaysBack(s.db.returnRequests[key], update) then Some(made) else None;
            Run(s, UpdateActions(t, key, update, made))
            == s.(db := Returns.ReturnUpdated(s.db, key, update, refund, s.now))
  {
    hide Run, UpdateActions, ReadReturnStep, WriteReturnStep, ReadEarningsStep, WriteEarningsStep,
         ReadFullyReturnedStep, MarkRefundedStep, Returns.Written, Returns.EarningsReduced,
         Returns.MarkedIfFullyReturned, Returns.PaysBack, ToTakeOff;
    var refund := if Returns.PaysBack(s.db.returnRequests[key], update) then Some(made) else None;
    UpdateSteps(s, t, key, update, made);
    UpdateWrites(s, t, key, update, made);
    var written := s.(db := Returns.Written(s.db, key, update, refund, s.now),
                      tasks := s.tasks[t := ReturnWritten(key.order, ToTakeOff(refund))]);
    EarningsTakenOff(written, t, key.order, refund);
    var reduced := s.(db := Returns.EarningsReduced(written.db, key.order, refund),
                      tasks := s.tasks[t := EarningsDone(key.order)]);
    assert written.tasks[t := EarningsDone(key.order)] == reduced.tasks;
    OrderMarked(reduced, t, key.order);
    assert reduced.tasks - {t} == s.tasks;
  }

  lemma RequestSteps(s: State, t: TaskId, key: ItemKey)
    ensures Run(s, [BeginReturn(t, key), InsertReturn(t)]) == InsertReturnStep(BeginReturnStep(s, t, key), t)
  {
    hide Run, BeginReturnStep, InsertReturnStep;
    RunTwo(s, BeginReturn(t, key), InsertReturn(t));
  }

  /** A return request of the order's buyer is its check and its insert; one that is refused changes nothing. */
  lemma RequestingIsARun(s: State, t: TaskId, key: ItemKey)
    requires t !in s.tasks && key.order in s.db.orders
    ensures Run(s, [BeginReturn(t, key), InsertReturn(t)])
         == if Returns.CreateProblem(s.db, s.db.orders[key.order].buyer, key).None?
            then s.(db := Returns.WithReturn(s.db, key, ReturnRequest(Requested, None, None))) else s
  {
    hide Run;
    RequestSteps(s, t, key);
    assert s.tasks[t := ReturnAllowed(key)] - {t} == s.tasks;
  }

  // ----- What goes on between two return requests -----

  /**
   Any run that does not get to the amounts which sellers net is, seen from the returns, what may happen between two
   requests: what was sold stays, nets stay, and orders with a return stay delivered or refunded.
   */
  lemma RunIsMeanwhile(s: State, actions: seq<Action>)
    requires Inv(s) && forall i :: 0 <= i < |actions| ==> !ForEarnings(actions[i])
    ensures Returns.Elsewhere(s.db, Run(s, actions).db.orders)
  {
    hide Run, Returns.Elsewhere;
    RunLeavesNets(s, actions);
    RunKeeps(s, actions);
    LeavesIsElsewhere(s, Run(s, actions));
  }

  lemma {:induction false} RunLeavesNets(s: State, actions: seq<Action>)
    requires Inv(s) && forall i :: 0 <= i < |actions| ==> !ForEarnings(actions[i])
    ensures LeavesNets(s, Run(s, actions))
  {
    if actions == [] {
      assert LeavesNets(s, s);
    } else {
      hide Inv, Step, LeavesNets, Evolves;
      var n := |actions| - 1;
      RunLeavesNets(s, actions[..n]);
      RunKeeps(s, actions[..n]);
      OthersLeaveNets(Run(s, actions[..n]), actions[n]);
      LeavesTwice(s, Run(s, actions[..n]), Run(s, actions));
    }
  }

  lemma LeavesIsElsewhere(s: State, s': State)
    requires Inv(s) && Inv(s') && Evolves(s.db, s'.db) && LeavesNets(s, s')
    ensures Returns.Elsewhere(s.db, s'.db.orders)
  {
    hide OrdersOk, TasksOk, HoldersDistinct, ReportsOk;
    forall key | key in s.db.returnRequests
      ensures key.order in s'.db.orders && s'.db.orders[key.order].status in {Delivered, Refunded}
    {
      assert WasDelivered(s, key.order);
      DeliveredOrRefunded(s', key.order);
    }
  }
}
