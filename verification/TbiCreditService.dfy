/** The bank financing service: applying a status report, and polling what is still open. */
module TbiCreditService {
  import opened Wrappers
  import opened Domain
  import opened OrderSteps
  import opened Database
  import opened Finalization
  import opened RowLaws
  import opened Payments
  import opened Tbi
  import OrderService

  /** Applications older than this many minutes are polled, at most so many in one pass. */
  const POLL_AFTER: nat := 15
  const POLL_LIMIT: nat := 50

  predicate Open(t: Transaction) {
    t.status in {Awaited, InProcess}
  }

  predicate Selectable(t: Transaction, now: Time) {
    t.provider == TbiCredit && Open(t) && t.createdAt < now - POLL_AFTER
  }

  /** What one application in a polling pass leaves, and whether it failed. */
  datatype Poll = Poll(db: Db, t: Transaction, uses: map<CouponId, int>, broken: bool)

  function Polled(db: Db, t: Transaction, uses: map<CouponId, int>, answer: Option<PaymentState>, now: Time,
                  window: nat, settings: Settings): Poll
  {
    if t.application.Some? && answer.None? then Poll(db, t, uses, true)
    else
      var r := if t.application.Some? then ApplyStatus(db, t, uses, answer.value, now, settings)
               else Aftermath(db, t, uses, None);
      if r.error.Some? then Poll(r.db, r.t, r.uses, true)
      else if (t.application.None? || r.t.status == InProcess) && t.createdAt < now - window then
        var closed := ApplyStatus(r.db, r.t, r.uses, IsCancelled, now, settings);
        Poll(closed.db, closed.t, closed.uses, false)
      else Poll(r.db, r.t, r.uses, false)
  }

  lemma ReportLeaves(db: Db, t: Transaction, uses: map<CouponId, int>, state: PaymentState, now: Time,
                     settings: Settings)
    ensures var r := ApplyStatus(db, t, uses, state, now, settings);
            && r.t.(status := t.status) == t
            && (r.error.Some? ==> state == IsApproved)
            && (r.error.None? && Open(r.t) ==> r.t.status == InProcess && !Negative(state))
  {
    hide SettleEach, Finalized, PendingCancelled, PositiveIds, ConfirmedBy;
  }

  /**
   An application past the reservation window does not stay open, unless asking the bank or applying its
   answer fails.
   */
  lemma PolledIsClosed(db: Db, t: Transaction, uses: map<CouponId, int>, answer: Option<PaymentState>, now: Time,
                       window: nat, settings: Settings)
    ensures var after := Polled(db, t, uses, answer, now, window, settings);
            && after.t.(status := t.status) == t
            && (after.broken ==> t.application.Some? && (answer.None? || answer.value == IsApproved))
            && (!after.broken && t.createdAt < now - window && Open(t) ==> !Open(after.t))
  {
    hide ApplyStatus;
    var r := if t.application.Some? && answer.Some? then ApplyStatus(db, t, uses, answer.value, now, settings)
             else Aftermath(db, t, uses, None);
    if t.application.Some? && answer.Some? {
      ReportLeaves(db, t, uses, answer.value, now, settings);
    }
    ReportLeaves(r.db, r.t, r.uses, IsCancelled, now, settings);
  }

  /**
   Where asking the bank fails, nothing changes; a decision is applied. An undecided application is left in process
   while the reservation window lasts, and its unpaid orders are dropped once it is over.
   */
  lemma PolledUndecided(db: Db, t: Transaction, uses: map<CouponId, int>, answer: Option<PaymentState>, now: Time,
                        window: nat, settings: Settings)
    requires Open(t)
    ensures var after := Polled(db, t, uses, answer, now, window, settings);
            if t.application.Some? && answer.None? then after == Poll(db, t, uses, true)
            else if t.application.Some? && answer.value != IsPending then
              var r := ApplyStatus(db, t, uses, answer.value, now, settings);
              after.broken == r.error.Some?
              && (r.error.Some? || !Open(r.t) ==> after == Poll(r.db, r.t, r.uses, r.error.Some?))
            else
              && !after.broken && after.uses == uses
              && if t.createdAt < now - window then
                   after.t == t.(status := Voided) && Drops(db, Positive(t.orderIds), now, after.db)
                 else
                   after.db == db && after.t == if t.application.Some? then t.(status := InProcess) else t
  {
    UnpaidAreDropped(db, t.orderIds, now);
    hide PendingCancelled, Drops, Tbi.Approved;
  }

  /** Polled are the unfinished applications at the bank that are older than a quarter of an hour. */
  lemma SelectableIff(t: Transaction, now: Time)
    ensures Selectable(t, now)
            <==> t.provider == TbiCredit && t.status in {Awaited, InProcess} && t.createdAt + 15 < now
  {
  }

  /** A whole pass over the picked applications: the tables after it, and those that failed. */
  datatype Polls = Polls(db: Db, ts: seq<Transaction>, uses: map<CouponId, int>, failed: set<nat>)

  function PollEach(db: Db, ts: seq<Transaction>, uses: map<CouponId, int>, picked: seq<nat>,
                    answers: nat -> Option<PaymentState>, now: Time, window: nat, settings: Settings): (r: Polls)
    requires forall k :: 0 <= k < |picked| ==> picked[k] < |ts|
    ensures |r.ts| == |ts|
  {
    if picked == [] then Polls(db, ts, uses, {})
    else
      var n := |picked| - 1;
      var before := PollEach(db, ts, uses, picked[..n], answers, now, window, settings);
      var i := picked[n];
      var one := Polled(before.db, before.ts[i], before.uses, answers(i), now, window, settings);
      Polls(one.db, before.ts[i := one.t], one.uses, if one.broken then before.failed + {i} else before.failed)
  }

  /**
   The pass closed every application past the window that did not fail, touched no payment that was not picked, and
   failed only where asking the bank or applying its approval did.
   */
  ghost predicate PollsOk(ts: seq<Transaction>, after: Polls, picked: seq<nat>, answers: nat -> Option<PaymentState>,
                         now: Time, window: nat)
  {
    && |after.ts| == |ts|
    && (forall i :: 0 <= i < |ts| && i !in picked ==> after.ts[i] == ts[i])
    && (forall i :: i in after.failed ==>
          i in picked && i < |ts| && ts[i].application.Some? && (answers(i).None? || answers(i).value == IsApproved))
    && (forall i :: i in picked && i < |ts| && i !in after.failed && ts[i].createdAt < now - window ==>
          !Open(after.ts[i]))
  }

  lemma OneMorePolled(ts: seq<Transaction>, before: Polls, done: seq<nat>, i: nat, one: Poll,
                      answers: nat -> Option<PaymentState>, now: Time, window: nat)
    requires PollsOk(ts, before, done, answers, now, window) && i < |ts| && i !in done
    requires one.broken ==> ts[i].application.Some? && (answers(i).None? || answers(i).value == IsApproved)
    requires !one.broken && ts[i].createdAt < now - window ==> !Open(one.t)
    ensures PollsOk(ts, Polls(one.db, before.ts[i := one.t], one.uses,
                            if one.broken then before.failed + {i} else before.failed),
                   done + [i], answers, now, window)
  {
  }

  lemma {:induction false} PollsClose(db: Db, ts: seq<Transaction>, uses: map<CouponId, int>, picked: seq<nat>,
                                      answers: nat -> Option<PaymentState>, now: Time, window: nat,
                                      settings: Settings)
    requires forall k :: 0 <= k < |picked| ==> picked[k] < |ts| && Selectable(ts[picked[k]], now)
    requires forall k, l :: 0 <= k < l < |picked| ==> picked[k] != picked[l]
    ensures PollsOk(ts, PollEach(db, ts, uses, picked, answers, now, window, settings), picked, answers, now, window)
  {
    if picked != [] {
      hide Polled, Open, PollsOk, Selectable;
      var n := |picked| - 1;
      var i := picked[n];
      PollsClose(db, ts, uses, picked[..n], answers, now, window, settings);
      var before := PollEach(db, ts, uses, picked[..n], answers, now, window, settings);
      assert before.ts[i] == ts[i] && i !in picked[..n] by {
        Unpicked(ts, before, picked[..n], i, answers, now, window);
      }
      SelectableIsOpen(ts[i], now);
      PolledIsClosed(before.db, ts[i], before.uses, answers(i), now, window, settings);
      var one := Polled(before.db, ts[i], before.uses, answers(i), now, window, settings);
      OneMorePolled(ts, before, picked[..n], i, one, answers, now, window);
      assert picked == picked[..n] + [i];
    }
  }

  lemma Unpicked(ts: seq<Transaction>, after: Polls, picked: seq<nat>, i: nat, answers: nat -> Option<PaymentState>,
                 now: Time, window: nat)
    requires PollsOk(ts, after, picked, answers, now, window) && i < |ts|
    requires forall k :: 0 <= k < |picked| ==> picked[k] != i
    ensures i !in picked && after.ts[i] == ts[i]
  {
  }

  lemma SelectableIsOpen(t: Transaction, now: Time)
    requires Selectable(t, now)
    ensures Open(t)
  {
  }

  class TbiCreditService {
    const prisma: PrismaService
    const orderService: OrderService.OrderService
    const reservationMinutes: nat

    constructor (prisma: PrismaService, orderService: OrderService.OrderService, reservationMinutes: nat)
      ensures this.prisma == prisma && this.orderService == orderService
         && this.reservationMinutes == reservationMinutes
    {
      this.prisma := prisma;
      this.orderService := orderService;
      this.reservationMinutes := reservationMinutes;
    }

    ghost predicate Valid()
      reads this, orderService
    {
      orderService.prisma == prisma
    }

    method ApplyProviderStatus(i: nat, state: PaymentState, now: Time) returns (error: Option<ReportError>)
      requires Valid() && i < |prisma.transactions|
      modifies prisma`products, prisma`orders, prisma`couponUses, prisma`transactions
      ensures var r := ApplyStatus(old(prisma.Rows()), old(prisma.transactions)[i], old(prisma.couponUses), state, now,
                                   orderService.settings);
              && prisma.Rows() == r.db && prisma.couponUses == r.uses && error == r.error
              && prisma.transactions == old(prisma.transactions)[i := r.t]
    {
      hide SettleEach, Finalized, PendingCancelled, PositiveIds;
      var t := prisma.transactions[i];
      if t.status == Succeeded && state != IsApproved {
        return None;
      }
      if state == IsApproved {
        if t.status != Succeeded {
          var finalized := orderService.FinalizePaidOrders(t.orderIds, t.coupon, None, now);
          if finalized.Failure? {
            match finalized.error
            case Misconfigured(fee) => return Some(ReportError.Misconfigured(fee));
            case NoOrders => return Some(ReportError.NoOrders);
            case CouponGone => return Some(ReportError.CouponGone);
          }
        }
        prisma.transactions := prisma.transactions[i := t.(status := Succeeded)];
        return None;
      }
      if state == IsCancelled || state == IsRejected || state == HasFailed {
        if t.status != Voided && t.status != Failed {
          var _ := orderService.CancelPendingPaymentOrders(t.orderIds, now);
        }
        var status := if state == IsRejected || state == HasFailed then Failed else Voided;
        prisma.transactions := prisma.transactions[i := t.(status := status)];
        return None;
      }
      prisma.transactions := prisma.transactions[i := t.(status := InProcess)];
      return None;
    }

    /** The oldest open applications past the polling age, oldest first. */
    method SelectOpenApplications(now: Time) returns (picked: seq<nat>)
      ensures |picked| <= POLL_LIMIT == 50
      ensures forall k :: 0 <= k < |picked| ==>
          picked[k] < |prisma.transactions| && Selectable(prisma.transactions[picked[k]], now)
      ensures forall k, l :: 0 <= k < l < |picked| ==> picked[k] < picked[l]
      ensures forall i :: 0 <= i < |prisma.transactions| && Selectable(prisma.transactions[i], now) ==>
                i in picked || (|picked| == POLL_LIMIT && forall k :: 0 <= k < |picked| ==> picked[k] < i)
    {
      picked := [];
      for i := 0 to |prisma.transactions|
        invariant |picked| <= POLL_LIMIT
        invariant forall k :: 0 <= k < |picked| ==> picked[k] < i && Selectable(prisma.transactions[picked[k]], now)
        invariant forall k, l :: 0 <= k < l < |picked| ==> picked[k] < picked[l]
        invariant forall x :: 0 <= x < i && Selectable(prisma.transactions[x], now) ==>
                    x in picked || (|picked| == POLL_LIMIT && forall k :: 0 <= k < |picked| ==> picked[k] < x)
      {
        if Selectable(prisma.transactions[i], now) && |picked| < POLL_LIMIT {
          ghost var before := picked;
          picked := picked + [i];
          assert forall x :: x in before ==> x in picked;
        }
      }
    }

    /**
     Asks the bank about one application; `answer` is its report, None when asking failed. Without a
     bank reference there is nobody to ask. What is still undecided after the reservation window is
     cancelled.
     */
    method ReconcileOne(i: nat, answer: Option<PaymentState>, now: Time) returns (broken: bool)
      requires Valid() && i < |prisma.transactions|
      modifies prisma`products, prisma`orders, prisma`couponUses, prisma`transactions
      ensures |prisma.transactions| == old(|prisma.transactions|)
      ensures prisma.transactions == old(prisma.transactions)[i := prisma.transactions[i]]
      ensures Poll(prisma.Rows(), prisma.transactions[i], prisma.couponUses, broken)
           == Polled(old(prisma.Rows()), old(prisma.transactions)[i], old(prisma.couponUses), answer, now,
                     reservationMinutes, orderService.settings)
    {
      hide ApplyStatus;
      var t := prisma.transactions[i];
      var stillOpen := true;
      if t.application.Some? {
        if answer.None? {
          return true;
        }
        var error := ApplyProviderStatus(i, answer.value, now);
        if error.Some? {
          return true;
        }
        stillOpen := prisma.transactions[i].status == InProcess;
      }
      if stillOpen && t.createdAt < now - reservationMinutes {
        var _ := ApplyProviderStatus(i, IsCancelled, now);
      }
      return false;
    }

    /** One polling pass: a failure with one application is logged, and the pass goes on with the next. */
    method ReconcileOpenApplications(now: Time, answers: nat -> Option<PaymentState>)
      returns (picked: seq<nat>, failed: set<nat>)
      requires Valid()
      modifies prisma`products, prisma`orders, prisma`couponUses, prisma`transactions
      ensures forall k :: 0 <= k < |picked| ==>
                picked[k] < |old(prisma.transactions)| && Selectable(old(prisma.transactions)[picked[k]], now)
      ensures forall k, l :: 0 <= k < l < |picked| ==> picked[k] < picked[l]
      ensures forall i :: 0 <= i < |old(prisma.transactions)| && Selectable(old(prisma.transactions)[i], now)
                          && i !in picked ==>
                |picked| == POLL_LIMIT && forall k :: 0 <= k < |picked| ==> picked[k] < i
      ensures Polls(prisma.Rows(), prisma.transactions, prisma.couponUses, failed)
           == PollEach(old(prisma.Rows()), old(prisma.transactions), old(prisma.couponUses), picked, answers, now,
                       reservationMinutes, orderService.settings)
      ensures |prisma.transactions| == |old(prisma.transactions)|
      ensures forall i :: i in picked && i !in failed
                          && old(prisma.transactions)[i].createdAt < now - reservationMinutes ==>
                !Open(prisma.transactions[i])
    {
      picked := SelectOpenApplications(now);
      failed := {};
      ghost var db, ts, uses := prisma.Rows(), prisma.transactions, prisma.couponUses;
      hide Polled;
      for k := 0 to |picked|
        invariant Polls(prisma.Rows(), prisma.transactions, prisma.couponUses, failed)
               == PollEach(db, ts, uses, picked[..k], answers, now, reservationMinutes, orderService.settings)
      {
        var i := picked[k];
        assert picked[..k + 1][..k] == picked[..k];
        var broken := ReconcileOne(i, answers(i), now);
        if broken {
          failed := failed + {i};
        }
      }
      assert picked[..|picked|] == picked;
      PollsClose(db, ts, uses, picked, answers, now, reservationMinutes, orderService.settings);
    }
  }
}
