/** What the card provider's notifications set off. */
module StripeWebhooks {
  import opened Wrappers
  import opened Domain
  import opened OrderSteps
  import opened Database
  import opened Finalization
  import opened Payments
  import opened Transfers
  import opened CheckoutDelivery
  import OrderService
  import StripePayments

  class StripeWebhooks {
    const prisma: PrismaService
    const orderService: OrderService.OrderService
    const stripe: StripePayments.StripePayments

    constructor (prisma: PrismaService, orderService: OrderService.OrderService, stripe: StripePayments.StripePayments)
      ensures this.prisma == prisma && this.orderService == orderService && this.stripe == stripe
    {
      this.prisma := prisma;
      this.orderService := orderService;
      this.stripe := stripe;
    }

    ghost predicate Valid()
      reads this, orderService, stripe, prisma
    {
      && orderService.prisma == prisma && orderService.stripe == stripe && stripe.prisma == prisma
      && orderService.Valid()
    }

    method MarkSucceeded(i: nat, intent: Option<int>)
      requires i < |prisma.transactions|
      modifies prisma`transactions
      ensures prisma.transactions == old(prisma.transactions)[i := MarkedPaid(old(prisma.transactions)[i], intent)]
      ensures var t := old(prisma.transactions)[i];
              && prisma.transactions[i] == t.(status := Succeeded, intent := prisma.transactions[i].intent)
              && (intent.Some? ==> prisma.transactions[i].intent == intent)
              && (intent.None? ==> prisma.transactions[i].intent == t.intent)
    {
      var t := prisma.transactions[i];
      var kept := if intent.Some? then intent else t.intent;
      prisma.transactions := prisma.transactions[i := t.(status := Succeeded, intent := kept)];
    }

    method LinkOrderToSession(i: nat, order: OrderId)
      requires i < |prisma.transactions|
      modifies prisma`transactions
      ensures prisma.transactions == old(prisma.transactions)[i := old(prisma.transactions)[i].(order := Some(order))]
    {
      prisma.transactions := prisma.transactions[i := prisma.transactions[i].(order := Some(order))];
    }

    /** The buyer paid for something that cannot be delivered: returns that money, order by order. */
    method RefundRejectedOrders(ids: seq<OrderId>, env: Environment) returns (error: Option<DeliveryError>)
      requires Valid()
      modifies prisma`transactions, stripe`records
      ensures Valid() && |prisma.transactions| == old(|prisma.transactions|)
      ensures (stripe.Book(), error) == RefundRejected(old(stripe.Book()), prisma.orders, ids, env)
    {
      ghost var before := stripe.Book();
      for k := 0 to |ids|
        invariant Valid() && |prisma.transactions| == |before.ts|
        invariant (stripe.Book(), None) == RefundRejected(before, prisma.orders, ids[..k], env)
      {
        RejectedNext(before, prisma.orders, ids, k, env);
        var fee := if ids[k] in prisma.orders then env.fees(prisma.orders[ids[k]].seller) else 0.0;
        var refund := stripe.RefundOrderPayment(ids[k], fee, env.answers(ids[k]));
        if refund.Failure? {
          return Some(RefundOf(ids[k], refund.error));
        }
      }
      assert ids[..|ids|] == ids;
      return None;
    }

    /**
     A session that completed, whose payment is transaction `i`. A retry after any error runs all of it
     again, so every part must be safe to repeat.
     */
    method HandleCheckoutSessionCompleted(i: nat, s: CheckoutSession, now: Time, env: Environment)
      returns (error: Option<DeliveryError>)
      requires Valid() && i < |prisma.transactions| && env.settings == orderService.settings
      modifies prisma`products, prisma`orders, prisma`transactions, prisma`couponUses, stripe`records
      ensures Valid() && |prisma.transactions| == old(|prisma.transactions|)
      ensures !s.paid ==> error.None? && prisma.Rows() == old(prisma.Rows()) && stripe.Book() == old(stripe.Book())
                          && prisma.couponUses == old(prisma.couponUses)
      ensures s.paid ==>
        Processed(prisma.Rows(), stripe.Book(), prisma.couponUses, error)
        == SessionCompleted(old(prisma.Rows()), old(stripe.Book()), old(prisma.couponUses), i, s, now, env)
    {
      if !s.paid {
        return None;
      }
      hide SettleEach, Finalized, RefundRejected, Deliver, TransferEach, PositiveIds, Reporting;
      MarkSucceeded(i, s.intent);
      var ids := PositiveIds(s.orderIds);
      if ids == [] {
        return None;
      }
      var finalized := orderService.FinalizePaidOrders(s.orderIds, s.coupon, SessionOf(s), now);
      if finalized.Failure? {
        return Some(if finalized.error.Misconfigured? then Misconfigured(finalized.error.fee) else CouponGone);
      }
      var outcome := finalized.value;
      LinkOrderToSession(i, ids[0]);
      var refunds := RefundRejectedOrders(outcome.rejected, env);
      if refunds.Some? {
        return refunds;
      }
      var settled := outcome.confirmed + outcome.alreadySettled;
      if !s.buyNow && settled != [] && s.intent.Some? {
        var ok := stripe.TransferCartPaymentToSellers(i, settled, env.accounts, env.failsAt, env.dies);
        if !ok {
          return Some(TransfersStopped);
        }
      }
      return None;
    }

    /** A session that expired unpaid: its orders are cancelled, and a payment still awaited is closed. */
    method HandleCheckoutSessionExpired(i: nat, s: CheckoutSession, now: Time)
      requires Valid() && i < |prisma.transactions|
      modifies prisma`products, prisma`orders, prisma`transactions
      ensures Valid() && prisma.Rows() == PendingCancelled(old(prisma.Rows()), s.orderIds, now)
      ensures prisma.transactions ==
              if old(prisma.transactions)[i].status == Awaited
              then old(prisma.transactions)[i := old(prisma.transactions)[i].(status := Voided)]
              else old(prisma.transactions)
    {
      var _ := orderService.CancelPendingPaymentOrders(s.orderIds, now);
      if prisma.transactions[i].status == Awaited {
        prisma.transactions := prisma.transactions[i := prisma.transactions[i].(status := Voided)];
      }
    }
  }
}
