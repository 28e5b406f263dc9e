/** A completed checkout session, as Stripe delivers it: finalize its orders, refund the rejected, pay the sellers. */
module CheckoutDelivery {
  import opened Wrappers
  import opened Money
  import opened Sums
  import opened SellerFees
  import opened Domain
  import opened OrderSteps
  import opened Protocol
  import opened ProtocolInvariant
  import opened Finalization
  import opened RowLaws
  import opened Payments
  import opened Refunds
  import opened Transfers
  import OrderService

  datatype CheckoutSession = CheckoutSession(
    id: int, paid: bool, intent: Option<int>, buyNow: bool, coupon: Option<CouponId>, orderIds: seq<OrderId>)

  /** How everything outside the database answers during one delivery. */
  datatype Environment = Environment(
    settings: Settings, fees: UserId -> real, answers: OrderId -> Answer, accounts: Accounts, failsAt: Option<nat>,
    dies: bool)

  datatype DeliveryError =
    | Misconfigured(fee: FeeError) | CouponGone | RefundOf(order: OrderId, error: RefundError) | TransfersStopped

  function MarkedPaid(t: Transaction, intent: Option<int>): Transaction {
    t.(status := Succeeded, intent := if intent.Some? then intent else t.intent)
  }

  function WithRow(book: CardBook, i: nat, t: Transaction): CardBook
    requires Matching(book) && i < |book.ts|
  {
    book.(ts := book.ts[i := t])
  }

  /** The rejected orders one after the other; the first refund that fails ends it. */
  function RefundRejected(book: CardBook, orders: map<OrderId, Order>, ids: seq<OrderId>, env: Environment)
    : (r: (CardBook, Option<DeliveryError>))
    requires Matching(book)
    ensures Matching(r.0) && |r.0.ts| == |book.ts|
  {
    if ids == [] then (book, None)
    else
      var n := |ids| - 1;
      var before := RefundRejected(book, orders, ids[..n], env);
      if before.1.Some? then before
      else
        var fee := if ids[n] in orders then env.fees(orders[ids[n]].seller) else 0.0;
        var (after, result) := RefundPayment(before.0, orders, ids[n], fee, env.answers(ids[n]));
        (after, match result case Success(_) => None case Failure(e) => Some(RefundOf(ids[n], e)))
  }

  /** One rejected order further; the first refund that fails ends it. */
  lemma RejectedNext(book: CardBook, orders: map<OrderId, Order>, ids: seq<OrderId>, k: nat, env: Environment)
    requires Matching(book) && k < |ids| && RefundRejected(book, orders, ids[..k], env).1.None?
    ensures var before := RefundRejected(book, orders, ids[..k], env).0;
            var fee := if ids[k] in orders then env.fees(orders[ids[k]].seller) else 0.0;
            var (after, result) := RefundPayment(before, orders, ids[k], fee, env.answers(ids[k]));
            match result
            case Success(_) => RefundRejected(book, orders, ids[..k + 1], env) == (after, None)
            case Failure(e) => RefundRejected(book, orders, ids, env) == (after, Some(RefundOf(ids[k], e)))
  {
    hide RefundPayment;
    assert ids[..k + 1][..k] == ids[..k];
    if RefundRejected(book, orders, ids[..k + 1], env).1.Some? {
      RejectedEnds(book, orders, ids, k + 1, env);
    }
  }

  lemma {:induction false} RejectedEnds(book: CardBook, orders: map<OrderId, Order>, ids: seq<OrderId>, k: nat,
                                        env: Environment)
    requires Matching(book) && k <= |ids| && RefundRejected(book, orders, ids[..k], env).1.Some?
    ensures RefundRejected(book, orders, ids, env) == RefundRejected(book, orders, ids[..k], env)
    decreases |ids|
  {
    hide RefundPayment;
    if k == |ids| {
      assert ids[..k] == ids;
    } else {
      var n := |ids| - 1;
      assert ids[..n][..k] == ids[..k];
      RejectedEnds(book, orders, ids[..n], k, env);
    }
  }

  function PaidOut(book: CardBook, i: nat, orders: map<OrderId, Order>, ids: seq<OrderId>, env: Environment)
    : (CardBook, Option<DeliveryError>)
    requires Matching(book) && i < |book.ts|
  {
    var till := Till(book.records[i].transfers, {});
    var (after, t) := Deliver(till, book.ts[i], ids, orders, env.accounts, env.failsAt, env.dies);
    (CardBook(book.ts[i := t], book.records[i := book.records[i].(transfers := after.moved)]),
     if env.dies || TransferEach(till, book.ts[i], ids, orders, env.accounts, env.failsAt).stopped
     then Some(TransfersStopped) else None)
  }

  function SessionOf(s: CheckoutSession): Option<int> {
    if s.buyNow then Some(s.id) else None
  }

  /** What a delivery leaves behind, and the error that stopped it, if any. */
  datatype Processed = Processed(db: Db, book: CardBook, uses: map<CouponId, int>, error: Option<DeliveryError>)

  /** One delivery of a paid session whose payment is transaction `i`. */
  function SessionCompleted(db: Db, book: CardBook, uses: map<CouponId, int>, i: nat, s: CheckoutSession, now: Time,
                            env: Environment): Processed
    requires Matching(book) && i < |book.ts|
  {
    var marked := WithRow(book, i, MarkedPaid(book.ts[i], s.intent));
    var ids := PositiveIds(s.orderIds);
    if ids == [] then Processed(db, marked, uses, None)
    else
      var all := SettleEach(db, ids, now, env.settings, SessionOf(s));
      if all.error.Some? then Processed(all.db, marked, uses, Some(Misconfigured(all.error.value)))
      else
        var db' := Finalized(db, ids, now, env.settings, SessionOf(s));
        var sorted := OrderService.Sorted(ids, all.reports);
        if sorted.confirmed != [] && CouponIsGone(uses, s.coupon) then Processed(db', marked, uses, Some(CouponGone))
        else
          var counted := if sorted.confirmed != [] then CouponCounted(uses, s.coupon) else uses;
          var linked := WithRow(marked, i, marked.ts[i].(order := Some(ids[0])));
          var (refunded, error) := RefundRejected(linked, db'.orders, sorted.rejected, env);
          var settled := sorted.confirmed + sorted.alreadySettled;
          if error.Some? || s.buyNow || settled == [] || s.intent.None? then Processed(db', refunded, counted, error)
          else
            var (paid, stopped) := PaidOut(refunded, i, db'.orders, settled, env);
            Processed(db', paid, counted, stopped)
  }

  // ----- The plan of a cart payment -----

  function PlanAmounts(plan: seq<PlanEntry>): OrderId -> Cents {
    (id: OrderId) => if Planned(plan, id).Some? then Planned(plan, id).value.amount else 0
  }

  function PlanFees(plan: seq<PlanEntry>): OrderId -> Cents {
    (id: OrderId) => if Planned(plan, id).Some? then Planned(plan, id).value.split.fee else 0
  }

  function PlanTransfers(plan: seq<PlanEntry>): OrderId -> Cents {
    (id: OrderId) => if Planned(plan, id).Some? then Planned(plan, id).value.split.transfer else 0
  }

  /** Each order has a plan with an amount, split by the fee it names. */
  ghost predicate FullyPlanned(t: Transaction, ids: seq<OrderId>) {
    forall id :: id in ids ==>
      var plan := Planned(t.plan, id);
      && plan.Some? && 0 < plan.value.amount && Percentage(plan.value.split.feePercent)
      && plan.value.split == CalculatePaymentSplit(plan.value.amount, plan.value.split.feePercent)
  }

  /** The planned transfers and fees of orders are together their planned amounts. */
  lemma PlansAddUp(t: Transaction, ids: seq<OrderId>)
    requires FullyPlanned(t, ids)
    ensures SumOver(ids, PlanTransfers(t.plan)) + SumOver(ids, PlanFees(t.plan)) == SumOver(ids, PlanAmounts(t.plan))
  {
    forall k | 0 <= k < |ids|
      ensures PlanTransfers(t.plan)(ids[k]) + PlanFees(t.plan)(ids[k]) == PlanAmounts(t.plan)(ids[k])
    {
      hide CalculatePaymentSplit, Planned;
      assert ids[k] in ids;
      var plan := Planned(t.plan, ids[k]).value;
      SplitConserves(plan.amount, plan.split.feePercent);
    }
    SumOverAdds(ids, PlanTransfers(t.plan), PlanFees(t.plan), PlanAmounts(t.plan));
  }

  lemma PartOfPlan(t: Transaction, ids: seq<OrderId>, part: seq<OrderId>)
    requires FullyPlanned(t, ids) && forall id :: id in part ==> id in ids
    ensures FullyPlanned(t, part)
  {
  }

  lemma SamePlan(t: Transaction, t': Transaction, ids: seq<OrderId>)
    requires FullyPlanned(t, ids) && t'.plan == t.plan
    ensures FullyPlanned(t', ids)
  {
  }

  // ----- What every delivery keeps of a cart payment -----

  /** A payment of the buyer for these orders, which carry no session of their own. */
  ghost predicate CartOf(db: Db, t: Transaction, ids: seq<OrderId>) {
    && t.mode == Cart && NoRepeats(ids) && FullyPlanned(t, ids)
    && forall id :: id in ids ==>
         id in db.orders && db.orders[id].session.None? && db.orders[id].buyer == t.buyer && id in t.orderIds
  }

  predicate OutOfSale(db: Db, id: OrderId) { id in db.orders && db.orders[id].status == Cancelled }

  predicate SoldTo(db: Db, id: OrderId) { id in db.orders && db.orders[id].status !in {Pending, Cancelled} }

  /** Only cancelled orders were refunded, each once and all of its planned amount. */
  ghost predicate RefundsSound(db: Db, t: Transaction, ids: seq<OrderId>) {
    && (forall k, l :: 0 <= k < l < |t.refunds| ==> t.refunds[k].order != t.refunds[l].order)
    && forall k :: 0 <= k < |t.refunds| ==>
         && t.refunds[k].request.None? && t.refunds[k].order in ids && OutOfSale(db, t.refunds[k].order)
         && t.refunds[k].amount == PlanAmounts(t.plan)(t.refunds[k].order)
  }

  /** What Stripe refunded under an order's key is its planned amount, on record or not. */
  ghost predicate StripeRefundsSound(plan: seq<PlanEntry>, moved: seq<Movement>) {
    forall k :: 0 <= k < |moved| ==>
      moved[k].key.OrderRefund? && moved[k].amount == PlanAmounts(plan)(moved[k].key.order)
  }

  /** Only settled orders were paid out, each once and its planned share. */
  ghost predicate TransfersSound(db: Db, t: Transaction, entries: seq<TransferEntry>, ids: seq<OrderId>) {
    && EntriesDistinct(entries)
    && forall k :: 0 <= k < |entries| ==>
         && entries[k].order in ids && SoldTo(db, entries[k].order)
         && entries[k].amount == PlanTransfers(t.plan)(entries[k].order)
  }

  ghost predicate StripeTransfersSound(t: Transaction, moved: seq<Movement>) {
    forall k :: 0 <= k < |moved| ==>
      && moved[k].key.CartTransfer? && moved[k].key.session == t.session
      && moved[k].amount == PlanTransfers(t.plan)(moved[k].key.order)
  }

  ghost predicate CartSound(db: Db, book: CardBook, i: nat, ids: seq<OrderId>) {
    && Matching(book) && i < |book.ts| && CartOf(db, book.ts[i], ids)
    && RefundsSound(db, book.ts[i], ids) && StripeRefundsSound(book.ts[i].plan, book.records[i].refunds)
    && TransfersSound(db, book.ts[i], book.ts[i].transfers, ids)
    && StripeTransfersSound(book.ts[i], book.records[i].transfers)
  }

  /** No newer payment of the buyer covers one of the orders. */
  ghost predicate NewestPayment(ts: seq<Transaction>, i: nat, ids: seq<OrderId>)
    requires i < |ts|
  {
    forall j, id :: i < j < |ts| && id in ids ==> !PaidFor(ts[j], id, ts[i].buyer)
  }

  /** Of the payment only the two ledgers, the status, the intent and the link to its first order may change. */
  ghost predicate OnlyLedgers(before: Transaction, t: Transaction) {
    t.(refunds := before.refunds, transfers := before.transfers, status := before.status, intent := before.intent,
       order := before.order) == before
  }

  ghost predicate OnlyRow(before: CardBook, after: CardBook, i: nat)
    requires i < |before.ts|
  {
    && |after.ts| == |before.ts| && OnlyLedgers(before.ts[i], after.ts[i])
    && forall j :: 0 <= j < |before.ts| && j != i ==> after.ts[j] == before.ts[j]
  }

  lemma StillNewest(before: CardBook, after: CardBook, i: nat, ids: seq<OrderId>)
    requires i < |before.ts| && OnlyRow(before, after, i) && NewestPayment(before.ts, i, ids)
    ensures NewestPayment(after.ts, i, ids)
  {
  }

  lemma {:induction false} NewestFound(ts: seq<Transaction>, i: nat, id: OrderId, buyer: UserId)
    requires i < |ts| && PaidFor(ts[i], id, buyer)
    requires forall j :: i < j < |ts| ==> !PaidFor(ts[j], id, buyer)
    ensures FindPaid(ts, id, buyer) == Some(i)
  {
    if i < |ts| - 1 {
      NewestFound(ts[..|ts| - 1], i, id, buyer);
    }
  }

  lemma {:induction false} NoneOfOrder(refunds: seq<RefundEntry>, id: OrderId)
    requires forall k :: 0 <= k < |refunds| ==> refunds[k].order != id
    ensures OfOrder(refunds, id) == []
  {
    if refunds != [] {
      NoneOfOrder(refunds[..|refunds| - 1], id);
    }
  }

  // ----- The refunds of one delivery -----

  lemma RefundDue(db: Db, b: Books, ids: seq<OrderId>, id: OrderId)
    requires CartOf(db, b.t, ids) && RefundsSound(db, b.t, ids) && id in ids && !HasCancellation(b.t, id)
    ensures forall k :: 0 <= k < |b.t.refunds| ==> b.t.refunds[k].order != id
    ensures CancellationEntry(b.t, id, db.orders[id]).amount == PlanAmounts(b.t.plan)(id) > 0
  {
    hide CalculatePaymentSplit;
    assert forall k :: 0 <= k < |b.t.refunds| ==> b.t.refunds[k].order != id;
    NoneOfOrder(b.t.refunds, id);
  }

  /** All of an order's planned amount is refunded, unless it was before, however the call to Stripe ends. */
  lemma OneRefund(db: Db, b: Books, ids: seq<OrderId>, id: OrderId, fee: real, answer: Answer)
    requires b.t.intent.Some? && CartOf(db, b.t, ids) && RefundsSound(db, b.t, ids)
    requires StripeRefundsSound(b.t.plan, b.stripe.refunds) && id in ids && OutOfSale(db, id)
    ensures var (after, result) := RefundOrder(b, id, db.orders[id], fee, answer);
            && RefundsSound(db, after.t, ids) && StripeRefundsSound(after.t.plan, after.stripe.refunds)
            && after.stripe.transfers == b.stripe.transfers && after.t.intent == b.t.intent
            && after.t.transfers == b.t.transfers && b.t.refunds <= after.t.refunds && OnlyLedgers(b.t, after.t)
            && (after.t.status == b.t.status || after.t.status in {Succeeded, PaidBack})
            && (result.Success? ==> HasCancellation(after.t, id))
  {
    if !HasCancellation(b.t, id) {
      RefundDue(db, b, ids, id);
      AddedEntry(b.t, CancellationEntry(b.t, id, db.orders[id]));
    }
    hide RefundedOf, Reversed, OrderAmount, CartOf, HasCancellation, PlanAmounts;
  }

  /** The payment that a refund finds is this one. */
  lemma FindsThis(db: Db, book: CardBook, i: nat, ids: seq<OrderId>, id: OrderId)
    requires CartSound(db, book, i, ids) && NewestPayment(book.ts, i, ids) && id in ids
    requires book.ts[i].status in {Succeeded, PaidBack}
    ensures FindPaid(book.ts, id, db.orders[id].buyer) == Some(i)
  {
    hide FullyPlanned;
    NewestFound(book.ts, i, id, db.orders[id].buyer);
  }

  /** What the refunds of a delivery keep while these orders' have gone through. */
  ghost predicate RefundsKept(db: Db, before: CardBook, after: CardBook, i: nat, ids: seq<OrderId>, done: seq<OrderId>)
    requires i < |before.ts|
  {
    && CartSound(db, after, i, ids) && NewestPayment(after.ts, i, ids) && OnlyRow(before, after, i)
    && after.ts[i].status in {Succeeded, PaidBack} && after.ts[i].intent == before.ts[i].intent
    && after.ts[i].transfers == before.ts[i].transfers
    && forall id :: id in done ==> HasCancellation(after.ts[i], id)
  }

  lemma {:induction false} RefundsKeepSound(db: Db, book: CardBook, i: nat, ids: seq<OrderId>,
                                            rejected: seq<OrderId>, env: Environment)
    requires CartSound(db, book, i, ids) && NewestPayment(book.ts, i, ids)
    requires book.ts[i].status in {Succeeded, PaidBack} && book.ts[i].intent.Some?
    requires forall id :: id in rejected ==> id in ids && OutOfSale(db, id)
    ensures var (after, error) := RefundRejected(book, db.orders, rejected, env);
            RefundsKept(db, book, after, i, ids, if error.None? then rejected else [])
    decreases |rejected|
  {
    SoundIsCart(db, book, i, ids);
    if rejected == [] {
      OnlyRowSelf(book, i);
    } else {
      hide CartSound, NewestPayment, RefundPayment, CartOf, RefundsKept, OutOfSale;
      var n := |rejected| - 1;
      var id := rejected[n];
      assert id in rejected && rejected == rejected[..n] + [id];
      RefundsKeepSound(db, book, i, ids, rejected[..n], env);
      var (before, error) := RefundRejected(book, db.orders, rejected[..n], env);
      if error.None? {
        OneMoreRefund(db, book, before, i, ids, rejected[..n], id, env.fees(db.orders[id].seller), env.answers(id));
      }
    }
  }

  lemma OnlyRowSelf(book: CardBook, i: nat)
    requires i < |book.ts|
    ensures OnlyRow(book, book, i)
  {
  }

  lemma OnlyRowTwice(a: CardBook, b: CardBook, c: CardBook, i: nat)
    requires i < |a.ts| && OnlyRow(a, b, i) && OnlyRow(b, c, i)
    ensures OnlyRow(a, c, i)
  {
  }

  lemma OneMoreRefund(db: Db, book: CardBook, before: CardBook, i: nat, ids: seq<OrderId>, done: seq<OrderId>,
                      id: OrderId, fee: real, answer: Answer)
    requires i < |book.ts| && book.ts[i].intent.Some? && RefundsKept(db, book, before, i, ids, done)
    requires id in ids && OutOfSale(db, id)
    ensures Matching(before)
    ensures var (after, result) := RefundPayment(before, db.orders, id, fee, answer);
            RefundsKept(db, book, after, i, ids, if result.Success? then done + [id] else [])
  {
    FindsThis(db, before, i, ids, id);
    OneRefund(db, BooksAt(before, i), ids, id, fee, answer);
    hide FindPaid, RefundOrder, RefundsSound, StripeRefundsSound, FullyPlanned, HasCancellation;
    var after := RefundPayment(before, db.orders, id, fee, answer).0;
    SamePlan(before.ts[i], after.ts[i], ids);
    StillNewest(before, after, i, ids);
    OnlyRowTwice(book, before, after, i);
    StillCancelled(before.ts[i], after.ts[i], done);
  }

  lemma StillCancelled(t: Transaction, t': Transaction, done: seq<OrderId>)
    requires t.refunds <= t'.refunds && forall id :: id in done ==> HasCancellation(t, id)
    ensures forall id :: id in done ==> HasCancellation(t', id)
  {
    forall id | id in done
      ensures HasCancellation(t', id)
    {
      var k :| 0 <= k < |t.refunds| && t.refunds[k].order == id && t.refunds[k].request.None?;
      assert t'.refunds[k] == t.refunds[k];
    }
  }

  // ----- The transfers of one delivery -----

  predicate HasEntry(entries: seq<TransferEntry>, id: OrderId) {
    exists k :: 0 <= k < |entries| && entries[k].order == id
  }

  /** The seller was paid, or could be but gets nothing. */
  predicate NothingDue(t: Transaction, entries: seq<TransferEntry>, id: OrderId, account: SellerAccount) {
    HasEntry(entries, id) || (account.ready && PlanTransfers(t.plan)(id) <= 0)
  }

  lemma OneTransfer(db: Db, p: Pass, t: Transaction, ids: seq<OrderId>, done: seq<OrderId>, id: OrderId,
                    account: SellerAccount, up: bool)
    requires p.till.forgotten == {} && TransfersSound(db, t, p.entries, ids) && StripeTransfersSound(t, p.till.moved)
    requires t.transfers <= p.entries && !p.stopped && FullyPlanned(t, ids)
    requires id in ids && id !in done && SoldTo(db, id)
    requires forall k :: |t.transfers| <= k < |p.entries| ==> p.entries[k].order in done
    ensures var q := TransferOne(p, t, id, db.orders[id], account, up);
            && q.till.forgotten == {} && TransfersSound(db, t, q.entries, ids) && StripeTransfersSound(t, q.till.moved)
            && p.entries <= q.entries
            && (forall k :: |t.transfers| <= k < |q.entries| ==> q.entries[k].order in done + [id])
            && (!q.stopped ==> NothingDue(t, q.entries, id, account))
  {
    hide CalculatePaymentSplit;
    var share := PlannedSplit(t, id, db.orders[id], account.fee).transfer;
    assert share == PlanTransfers(t.plan)(id);
    var q := TransferOne(p, t, id, db.orders[id], account, up);
    if WasTransferred(t, id) {
      var k :| 0 <= k < |t.transfers| && t.transfers[k].order == id;
      assert p.entries[k].order == id;
    } else {
      forall k | 0 <= k < |p.entries|
        ensures p.entries[k].order != id
      {
        assert k < |t.transfers| ==> p.entries[k] == t.transfers[k];
      }
      if |q.entries| > |p.entries| {
        assert q.entries[|p.entries|].order == id;
      }
    }
  }

  lemma StillPaid(entries: seq<TransferEntry>, more: seq<TransferEntry>, id: OrderId)
    requires entries <= more && HasEntry(entries, id)
    ensures HasEntry(more, id)
  {
    var k :| 0 <= k < |entries| && entries[k].order == id;
    assert more[k] == entries[k];
  }

  lemma {:induction false} TransfersKeepSound(db: Db, till: Till, t: Transaction, ids: seq<OrderId>,
                                              settled: seq<OrderId>, accounts: Accounts, failsAt: Option<nat>)
    requires till.forgotten == {} && TransfersSound(db, t, t.transfers, ids) && StripeTransfersSound(t, till.moved)
    requires FullyPlanned(t, ids) && NoRepeats(settled)
    requires forall id :: id in settled ==> id in ids && id in db.orders && SoldTo(db, id)
    ensures var p := TransferEach(till, t, settled, db.orders, accounts, failsAt);
            && p.till.forgotten == {} && TransfersSound(db, t, p.entries, ids) && StripeTransfersSound(t, p.till.moved)
            && t.transfers <= p.entries
            && (forall k :: |t.transfers| <= k < |p.entries| ==> p.entries[k].order in settled)
            && (!p.stopped ==> forall id :: id in settled ==>
                  NothingDue(t, p.entries, id, accounts(db.orders[id].seller)))
  {
    if settled != [] {
      hide TransfersSound, StripeTransfersSound, FullyPlanned, HasEntry;
      var n := |settled| - 1;
      var id := settled[n];
      TransfersKeepSound(db, till, t, ids, settled[..n], accounts, failsAt);
      var p := TransferEach(till, t, settled[..n], db.orders, accounts, failsAt);
      if !p.stopped {
        assert id in settled && id !in settled[..n];
        OneTransfer(db, p, t, ids, settled[..n], id, accounts(db.orders[id].seller), failsAt != Some(n));
        assert settled == settled[..n] + [id];
        var q := TransferEach(till, t, settled, db.orders, accounts, failsAt);
        forall x | x in settled && !q.stopped
          ensures NothingDue(t, q.entries, x, accounts(db.orders[x].seller))
        {
          if x in settled[..n] && HasEntry(p.entries, x) {
            StillPaid(p.entries, q.entries, x);
          }
        }
      }
    }
  }

  lemma PayOutKeepsSound(db: Db, book: CardBook, i: nat, ids: seq<OrderId>, settled: seq<OrderId>, env: Environment)
    requires CartSound(db, book, i, ids) && NewestPayment(book.ts, i, ids)
    requires NoRepeats(settled) && forall id :: id in settled ==> id in ids && SoldTo(db, id)
    ensures var (after, stopped) := PaidOut(book, i, db.orders, settled, env);
            && CartSound(db, after, i, ids) && NewestPayment(after.ts, i, ids) && OnlyRow(book, after, i)
            && after.ts[i].refunds == book.ts[i].refunds && after.ts[i].status == book.ts[i].status
            && after.ts[i].intent == book.ts[i].intent
            && (stopped.None? ==> forall id :: id in settled ==>
                  NothingDue(after.ts[i], after.ts[i].transfers, id, env.accounts(db.orders[id].seller)))
  {
    hide FullyPlanned, TransferEach;
    var t := book.ts[i];
    TransfersKeepSound(db, Till(book.records[i].transfers, {}), t, ids, settled, env.accounts, env.failsAt);
    var after := PaidOut(book, i, db.orders, settled, env).0;
    SamePlan(t, after.ts[i], ids);
    StillNewest(book, after, i, ids);
  }

  // ----- One delivery, failing anywhere -----

  ghost predicate SalesStay(before: Db, after: Db) {
    forall id :: id in before.orders ==>
      id in after.orders && SameSale(before.orders[id], after.orders[id])
         && after.orders[id].session == before.orders[id].session
  }

  /** Sales stay, orders that are out of sale stay so, and so do those that were settled. */
  ghost predicate Continues(before: Db, after: Db, ids: seq<OrderId>) {
    && SalesStay(before, after)
    && forall id :: id in ids ==>
         (OutOfSale(before, id) ==> OutOfSale(after, id)) && (SoldTo(before, id) ==> SoldTo(after, id))
  }

  lemma StillSound(db: Db, db': Db, book: CardBook, i: nat, ids: seq<OrderId>)
    requires CartSound(db, book, i, ids) && Continues(db, db', ids)
    ensures CartSound(db', book, i, ids)
  {
    hide FullyPlanned;
  }

  lemma SettleOneStays(db: Db, id: OrderId, now: Time, settings: Settings)
    ensures var r := SettleOne(db, id, now, settings, None); r.Success? ==> SalesStay(db, r.value.0)
  {
    hide SellAll, AllAvailable, SettlementNet;
  }

  lemma {:induction false} SettleEachStays(db: Db, ids: seq<OrderId>, now: Time, settings: Settings)
    ensures SalesStay(db, SettleEach(db, ids, now, settings, None).db)
  {
    if ids != [] {
      hide SettleOne;
      var n := |ids| - 1;
      SettleEachStays(db, ids[..n], now, settings);
      SettleOneStays(SettleEach(db, ids[..n], now, settings, None).db, ids[n], now, settings);
    }
  }

  lemma SettlingContinues(db: Db, ids: seq<OrderId>, now: Time, settings: Settings)
    ensures Continues(db, SettleEach(db, ids, now, settings, None).db, ids)
  {
    SettleEachStays(db, ids, now, settings);
    SettleEachEffect(db, ids, now, settings, None);
    hide SettleEach;
  }

  lemma FinalizingContinues(db: Db, ids: seq<OrderId>, now: Time, settings: Settings)
    requires SettleEach(db, ids, now, settings, None).error.None?
    ensures Continues(db, Finalized(db, ids, now, settings, None), ids)
  {
    SettlingContinues(db, ids, now, settings);
    hide SettleEach, ReleaseFound, Reporting;
  }

  lemma {:induction false} PickedNoRepeats(ids: seq<OrderId>, reports: seq<Report>, r: Report)
    requires |reports| == |ids| && NoRepeats(ids)
    ensures NoRepeats(Reporting(ids, reports, r))
    ensures forall id :: id in Reporting(ids, reports, r) ==> id in ids
  {
    if ids != [] {
      var n := |ids| - 1;
      PickedNoRepeats(ids[..n], reports[..n], r);
      var before := Reporting(ids[..n], reports[..n], r);
      assert ids[n] !in ids[..n];
      assert forall k :: 0 <= k < |before| ==> before[k] in before && before[k] != ids[n];
    }
  }

  lemma PickedApart(ids: seq<OrderId>, reports: seq<Report>, r: Report, q: Report)
    requires |reports| == |ids| && NoRepeats(ids) && r != q
    ensures forall id :: id in Reporting(ids, reports, r) ==> id !in Reporting(ids, reports, q)
  {
    forall id | id in Reporting(ids, reports, r)
      ensures id !in Reporting(ids, reports, q)
    {
      var a :| 0 <= a < |ids| && ids[a] == id && reports[a] == r;
      assert forall b :: 0 <= b < |ids| && ids[b] == id ==> b == a;
    }
  }

  lemma JoinedNoRepeats(a: seq<OrderId>, b: seq<OrderId>)
    requires NoRepeats(a) && NoRepeats(b) && forall id :: id in a ==> id !in b
    ensures NoRepeats(a + b)
  {
    forall i, j | 0 <= i < j < |a + b|
      ensures (a + b)[i] != (a + b)[j]
    {
      if i < |a| <= j {
        assert a[i] in a && b[j - |a|] in b;
      }
    }
  }

  /** The orders that come out settled, those confirmed now first. */
  function SettledIds(ids: seq<OrderId>, reports: seq<Report>): seq<OrderId>
    requires |reports| == |ids|
  {
    Reporting(ids, reports, ConfirmedNow) + Reporting(ids, reports, AlreadySettled)
  }

  /** Exactly the rejected orders come out cancelled, all others settled. */
  lemma OutcomeOf(db: Db, ids: seq<OrderId>, id: OrderId, now: Time, settings: Settings)
    requires SettleEach(db, ids, now, settings, None).error.None? && PaymentOrders(ids) && id in ids && id in db.orders
    ensures var all := SettleEach(db, ids, now, settings, None);
            var db' := Finalized(db, ids, now, settings, None);
            if id in Reporting(ids, all.reports, RejectedNow) then OutOfSale(db', id)
            else SoldTo(db', id) && id in SettledIds(ids, all.reports)
  {
    hide SettleEach, ReleaseFound;
    var all := SettleEach(db, ids, now, settings, None);
    SettleEachEffect(db, ids, now, settings, None);
    var k :| 0 <= k < |ids| && ids[k] == id;
    if all.reports[k] == RejectedNow {
      RejectedLeftUnpaid(db, ids, k, now, settings, None);
      assert id in Reporting(ids, all.reports, RejectedNow);
    } else {
      assert id in Reporting(ids, all.reports, all.reports[k]);
      forall j | 0 <= j < |ids| && ids[j] == id
        ensures j == k
      {
      }
      assert id !in Reporting(ids, all.reports, RejectedNow);
    }
  }

  lemma SettledApart(ids: seq<OrderId>, reports: seq<Report>)
    requires |reports| == |ids| && NoRepeats(ids)
    ensures NoRepeats(SettledIds(ids, reports))
    ensures forall id :: id in SettledIds(ids, reports) ==> id in ids && id !in Reporting(ids, reports, RejectedNow)
    ensures forall id :: id in Reporting(ids, reports, RejectedNow) ==> id in ids
  {
    PickedNoRepeats(ids, reports, ConfirmedNow);
    PickedNoRepeats(ids, reports, AlreadySettled);
    PickedNoRepeats(ids, reports, RejectedNow);
    PickedApart(ids, reports, ConfirmedNow, AlreadySettled);
    PickedApart(ids, reports, ConfirmedNow, RejectedNow);
    PickedApart(ids, reports, AlreadySettled, RejectedNow);
    hide Reporting, NoRepeats;
    JoinedNoRepeats(Reporting(ids, reports, ConfirmedNow), Reporting(ids, reports, AlreadySettled));
  }

  lemma MarkedSound(db: Db, book: CardBook, i: nat, ids: seq<OrderId>, t: Transaction)
    requires CartSound(db, book, i, ids) && NewestPayment(book.ts, i, ids) && OnlyLedgers(book.ts[i], t)
    requires t.refunds == book.ts[i].refunds && t.transfers == book.ts[i].transfers
    ensures var marked := WithRow(book, i, t);
            CartSound(db, marked, i, ids) && NewestPayment(marked.ts, i, ids) && OnlyRow(book, marked, i)
  {
    hide FullyPlanned;
    SamePlan(book.ts[i], t, ids);
  }

  /** What a completed delivery leaves behind: rejected orders refunded, the others paid out. */
  ghost predicate FullyServed(db: Db, t: Transaction, ids: seq<OrderId>, env: Environment) {
    forall id :: id in ids ==>
      if OutOfSale(db, id) then HasCancellation(t, id)
      else SoldTo(db, id) && NothingDue(t, t.transfers, id, env.accounts(db.orders[id].seller))
  }

  /** The money part of a delivery, once its orders are decided: refund the rejected, pay the sellers of the others. */
  ghost predicate MoneySound(db: Db, book: CardBook, linked: CardBook, i: nat, ids: seq<OrderId>,
                             rejected: seq<OrderId>, settled: seq<OrderId>, env: Environment)
    requires i < |book.ts| == |linked.ts| && Matching(linked)
  {
    var (refunded, error) := RefundRejected(linked, db.orders, rejected, env);
    && CartSound(db, refunded, i, ids) && NewestPayment(refunded.ts, i, ids) && OnlyRow(book, refunded, i)
    && (error.None? && settled == [] ==> FullyServed(db, refunded.ts[i], ids, env))
    && (error.None? ==>
          var (paid, stopped) := PaidOut(refunded, i, db.orders, settled, env);
          && CartSound(db, paid, i, ids) && NewestPayment(paid.ts, i, ids) && OnlyRow(book, paid, i)
          && (stopped.None? ==> FullyServed(db, paid.ts[i], ids, env)))
  }

  lemma MoneyKeepsSound(db: Db, linked: CardBook, i: nat, ids: seq<OrderId>, rejected: seq<OrderId>,
                        settled: seq<OrderId>, env: Environment)
    requires CartSound(db, linked, i, ids) && NewestPayment(linked.ts, i, ids)
    requires linked.ts[i].status in {Succeeded, PaidBack} && linked.ts[i].intent.Some? && NoRepeats(settled)
    requires forall id :: id in rejected ==> id in ids && OutOfSale(db, id)
    requires forall id :: id in settled ==> id in ids && SoldTo(db, id)
    requires forall id :: id in ids ==> id in rejected || id in settled
    ensures MoneySound(db, linked, linked, i, ids, rejected, settled, env)
  {
    RefundsKeepSound(db, linked, i, ids, rejected, env);
    var (refunded, error) := RefundRejected(linked, db.orders, rejected, env);
    hide RefundRejected, PaidOut, CartSound, NewestPayment, OnlyRow, NothingDue, HasCancellation;
    if error.None? {
      PayOutKeepsSound(db, refunded, i, ids, settled, env);
      var (paid, stopped) := PaidOut(refunded, i, db.orders, settled, env);
      OnlyRowTwice(linked, refunded, paid, i);
      SameCancellations(refunded.ts[i], paid.ts[i]);
    }
  }

  lemma LinkedMoneySound(db: Db, book: CardBook, linked: CardBook, i: nat, ids: seq<OrderId>, rejected: seq<OrderId>,
                         settled: seq<OrderId>, env: Environment)
    requires i < |book.ts| && Matching(linked) && OnlyRow(book, linked, i)
    requires MoneySound(db, linked, linked, i, ids, rejected, settled, env)
    ensures MoneySound(db, book, linked, i, ids, rejected, settled, env)
  {
    var (refunded, error) := RefundRejected(linked, db.orders, rejected, env);
    hide RefundRejected, PaidOut, FullyServed, CartSound, NewestPayment;
    OnlyRowTwice(book, linked, refunded, i);
    if error.None? {
      OnlyRowTwice(book, linked, PaidOut(refunded, i, db.orders, settled, env).0, i);
    }
    hide OnlyRow;
  }

  lemma SameCancellations(t: Transaction, t': Transaction)
    requires t'.refunds == t.refunds
    ensures forall id :: HasCancellation(t', id) <==> HasCancellation(t, id)
  {
  }

  /** What a delivery keeps, and what it has done if it completes. */
  ghost predicate KeptSound(db: Db, book: CardBook, i: nat, ids: seq<OrderId>, r: Processed, env: Environment)
    requires i < |book.ts|
  {
    && Continues(db, r.db, ids) && CartSound(r.db, r.book, i, ids) && NewestPayment(r.book.ts, i, ids)
    && OnlyRow(book, r.book, i)
    && (r.error.None? ==> FullyServed(r.db, r.book.ts[i], ids, env))
  }

  /** Marking the payment as paid, and then deciding its orders. */
  lemma StoppedKeepsSound(db: Db, book: CardBook, i: nat, ids: seq<OrderId>, t: Transaction, db': Db)
    requires CartSound(db, book, i, ids) && NewestPayment(book.ts, i, ids) && Continues(db, db', ids)
    requires OnlyLedgers(book.ts[i], t) && t.refunds == book.ts[i].refunds && t.transfers == book.ts[i].transfers
    ensures var marked := WithRow(book, i, t);
            CartSound(db', marked, i, ids) && NewestPayment(marked.ts, i, ids) && OnlyRow(book, marked, i)
  {
    hide CartSound, NewestPayment, Continues, OnlyLedgers;
    SoundIsCart(db, book, i, ids);
    MarkedSound(db, book, i, ids, t);
    StillSound(db, db', WithRow(book, i, t), i, ids);
  }

  /** A delivery that decides its orders and gets to the money. */
  lemma ServedKeepsSound(db: Db, book: CardBook, i: nat, ids: seq<OrderId>, linked: CardBook, now: Time,
                         env: Environment)
    requires PaymentOrders(ids) && SettleEach(db, ids, now, env.settings, None).error.None?
    requires forall id :: id in ids ==> id in db.orders
    requires var db' := Finalized(db, ids, now, env.settings, None);
             CartSound(db', linked, i, ids) && NewestPayment(linked.ts, i, ids)
    requires i < |book.ts| && OnlyRow(book, linked, i)
    requires linked.ts[i].status in {Succeeded, PaidBack} && linked.ts[i].intent.Some?
    ensures var reports := SettleEach(db, ids, now, env.settings, None).reports;
            MoneySound(Finalized(db, ids, now, env.settings, None), book, linked, i, ids,
                       Reporting(ids, reports, RejectedNow), SettledIds(ids, reports), env)
  {
    DecidedOrders(db, ids, now, env.settings);
    hide SettleEach, Finalized, RefundRejected, PaidOut, CartSound, NewestPayment, Reporting, FullyServed, SettledIds,
         MoneySound;
    var db' := Finalized(db, ids, now, env.settings, None);
    var reports := SettleEach(db, ids, now, env.settings, None).reports;
    var rejected, settled := Reporting(ids, reports, RejectedNow), SettledIds(ids, reports);
    MoneyKeepsSound(db', linked, i, ids, rejected, settled, env);
    LinkedMoneySound(db', book, linked, i, ids, rejected, settled, env);
  }

  /** Whether the delivery stops at the coupon or goes on, what it has written by then is sound. */
  lemma FinalizedSound(db: Db, book: CardBook, i: nat, s: CheckoutSession, now: Time, env: Environment)
    requires CartSound(db, book, i, PositiveIds(s.orderIds)) && NewestPayment(book.ts, i, PositiveIds(s.orderIds))
    requires s.intent.Some? && PositiveIds(s.orderIds) != []
    requires SettleEach(db, PositiveIds(s.orderIds), now, env.settings, None).error.None?
    ensures var ids := PositiveIds(s.orderIds);
            var marked := MarkedPaid(book.ts[i], s.intent);
            var db' := Finalized(db, ids, now, env.settings, None);
            var stopped := WithRow(book, i, marked);
            var reports := SettleEach(db, ids, now, env.settings, None).reports;
            && Continues(db, db', ids)
            && CartSound(db', stopped, i, ids) && NewestPayment(stopped.ts, i, ids) && OnlyRow(book, stopped, i)
            && MoneySound(db', book, WithRow(book, i, marked.(order := Some(ids[0]))), i, ids,
                          Reporting(ids, reports, RejectedNow), SettledIds(ids, reports), env)
  {
    var ids := PositiveIds(s.orderIds);
    PaymentOrdersAre(s.orderIds);
    SoundIsCart(db, book, i, ids);
    FinalizingContinues(db, ids, now, env.settings);
    hide SettleEach, Finalized, CartSound, NewestPayment, Reporting, SettledIds, Continues, PositiveIds, MoneySound;
    var db' := Finalized(db, ids, now, env.settings, None);
    var marked := MarkedPaid(book.ts[i], s.intent);
    var linked := marked.(order := Some(ids[0]));
    StoppedKeepsSound(db, book, i, ids, marked, db');
    StoppedKeepsSound(db, book, i, ids, linked, db');
    ServedKeepsSound(db, book, i, ids, WithRow(book, i, linked), now, env);
  }

  /** From there on a delivery either finds the coupon gone, or moves the money. */
  lemma FinalizedKeepsSound(db: Db, book: CardBook, uses: map<CouponId, int>, i: nat, s: CheckoutSession, now: Time,
                            env: Environment)
    requires CartSound(db, book, i, PositiveIds(s.orderIds)) && NewestPayment(book.ts, i, PositiveIds(s.orderIds))
    requires s.intent.Some? && !s.buyNow && PositiveIds(s.orderIds) != []
    requires SettleEach(db, PositiveIds(s.orderIds), now, env.settings, None).error.None?
    ensures KeptSound(db, book, i, PositiveIds(s.orderIds), SessionCompleted(db, book, uses, i, s, now, env), env)
  {
    hide RefundRejected, PaidOut, CartSound, NewestPayment, Reporting, FullyServed, PositiveIds, SettleEach;
    var ids := PositiveIds(s.orderIds);
    SoundIsCart(db, book, i, ids);
    var marked := MarkedPaid(book.ts[i], s.intent);
    var linked := marked.(order := Some(ids[0]));
    FinalizedSound(db, book, i, s, now, env);
    hide Finalized, Continues, CartOf, OnlyRow, CouponCounted;
    assert WithRow(WithRow(book, i, marked), i, linked) == WithRow(book, i, linked);
  }

  /** However a delivery ends, it keeps the payment sound; one that completes has decided and paid for every order. */
  lemma DeliveryKeepsSound(db: Db, book: CardBook, uses: map<CouponId, int>, i: nat, s: CheckoutSession, now: Time,
                           env: Environment)
    requires CartSound(db, book, i, PositiveIds(s.orderIds)) && NewestPayment(book.ts, i, PositiveIds(s.orderIds))
    requires s.intent.Some? && !s.buyNow
    ensures KeptSound(db, book, i, PositiveIds(s.orderIds), SessionCompleted(db, book, uses, i, s, now, env), env)
  {
    var ids := PositiveIds(s.orderIds);
    hide SettleEach, Finalized, RefundRejected, PaidOut, CartSound, NewestPayment, Reporting, FullyServed, Continues,
         PositiveIds;
    SoundIsCart(db, book, i, ids);
    var marked := MarkedPaid(book.ts[i], s.intent);
    SettlingContinues(db, ids, now, env.settings);
    if ids == [] {
      NothingToDeliver(db, WithRow(book, i, marked), i, ids, env);
      StoppedKeepsSound(db, book, i, ids, marked, db);
    } else if SettleEach(db, ids, now, env.settings, None).error.Some? {
      StoppedKeepsSound(db, book, i, ids, marked, SettleEach(db, ids, now, env.settings, None).db);
    } else {
      hide SessionCompleted;
      FinalizedKeepsSound(db, book, uses, i, s, now, env);
    }
  }

  /** Every order is either rejected and cancelled, or settled and sold. */
  lemma DecidedOrders(db: Db, ids: seq<OrderId>, now: Time, settings: Settings)
    requires SettleEach(db, ids, now, settings, None).error.None? && PaymentOrders(ids)
    requires forall id :: id in ids ==> id in db.orders
    ensures var reports := SettleEach(db, ids, now, settings, None).reports;
            var rejected, settled := Reporting(ids, reports, RejectedNow), SettledIds(ids, reports);
            var db' := Finalized(db, ids, now, settings, None);
            && NoRepeats(settled)
            && (forall id :: id in rejected ==> id in ids && OutOfSale(db', id))
            && (forall id :: id in settled ==> id in ids && SoldTo(db', id))
            && forall id :: id in ids ==> id in rejected || id in settled
  {
    var reports := SettleEach(db, ids, now, settings, None).reports;
    SettledApart(ids, reports);
    hide SettleEach, Finalized, Reporting, SettledIds, OutOfSale, SoldTo;
    forall id | id in ids
      ensures var db' := Finalized(db, ids, now, settings, None);
              if id in Reporting(ids, reports, RejectedNow) then OutOfSale(db', id)
              else SoldTo(db', id) && id in SettledIds(ids, reports)
    {
      OutcomeOf(db, ids, id, now, settings);
    }
  }

  lemma SoundIsCart(db: Db, book: CardBook, i: nat, ids: seq<OrderId>)
    requires CartSound(db, book, i, ids)
    ensures CartOf(db, book.ts[i], ids) && Matching(book) && i < |book.ts|
  {
  }

  lemma NothingToDeliver(db: Db, book: CardBook, i: nat, ids: seq<OrderId>, env: Environment)
    requires ids == [] && i < |book.ts|
    ensures FullyServed(db, book.ts[i], ids, env) && Continues(db, db, ids)
  {
  }

  // ----- A completed delivery spends the payment exactly -----

  function OrdersOf(refunds: seq<RefundEntry>): (ids: seq<OrderId>)
    ensures |ids| == |refunds|
  {
    seq(|refunds|, k requires 0 <= k < |refunds| => refunds[k].order)
  }

  lemma {:induction false} RefundsAdd(refunds: seq<RefundEntry>, f: OrderId -> Cents)
    requires forall k :: 0 <= k < |refunds| ==> refunds[k].amount == f(refunds[k].order)
    ensures Sum(Amounts(refunds)) == SumOver(OrdersOf(refunds), f)
  {
    if refunds != [] {
      var n := |refunds| - 1;
      RefundsAdd(refunds[..n], f);
      assert OrdersOf(refunds)[..n] == OrdersOf(refunds[..n]);
      assert Amounts(refunds)[..n] == Amounts(refunds[..n]);
    }
  }

  function TransferAmounts(entries: seq<TransferEntry>): (amounts: seq<Cents>)
    ensures |amounts| == |entries|
  {
    seq(|entries|, k requires 0 <= k < |entries| => entries[k].amount)
  }

  function PaidOrders(entries: seq<TransferEntry>): (ids: seq<OrderId>)
    ensures |ids| == |entries|
  {
    seq(|entries|, k requires 0 <= k < |entries| => entries[k].order)
  }

  lemma {:induction false} TransfersAdd(entries: seq<TransferEntry>, f: OrderId -> Cents)
    requires forall k :: 0 <= k < |entries| ==> entries[k].amount == f(entries[k].order)
    ensures Sum(TransferAmounts(entries)) == SumOver(PaidOrders(entries), f)
  {
    if entries != [] {
      var n := |entries| - 1;
      TransfersAdd(entries[..n], f);
      assert PaidOrders(entries)[..n] == PaidOrders(entries[..n]);
      assert TransferAmounts(entries)[..n] == TransferAmounts(entries[..n]);
    }
  }

  /** Those of the orders that are cancelled, or those that are not. */
  function ByOutcome(db: Db, ids: seq<OrderId>, cancelled: bool): (some: seq<OrderId>)
    ensures forall id :: id in some <==> id in ids && OutOfSale(db, id) == cancelled
  {
    if ids == [] then []
    else
      var n := |ids| - 1;
      ByOutcome(db, ids[..n], cancelled) + if OutOfSale(db, ids[n]) == cancelled then [ids[n]] else []
  }

  lemma {:induction false} ByOutcomeOnce(db: Db, ids: seq<OrderId>, cancelled: bool)
    requires NoRepeats(ids)
    ensures NoRepeats(ByOutcome(db, ids, cancelled))
  {
    if ids != [] {
      var n := |ids| - 1;
      ByOutcomeOnce(db, ids[..n], cancelled);
      var before := ByOutcome(db, ids[..n], cancelled);
      assert ids[n] !in ids[..n];
      assert forall k :: 0 <= k < |before| ==> before[k] in before && before[k] != ids[n];
    }
  }

  lemma OneMoreByOutcome(db: Db, ids: seq<OrderId>, id: OrderId, cancelled: bool, f: OrderId -> Cents)
    ensures SumOver(ByOutcome(db, ids + [id], cancelled), f)
         == SumOver(ByOutcome(db, ids, cancelled), f) + if OutOfSale(db, id) == cancelled then f(id) else 0
  {
    assert (ids + [id])[..|ids|] == ids;
    var some := ByOutcome(db, ids, cancelled);
    SumOverSnoc(some, id, f);
    assert some + [] == some;
    hide SumOver, OutOfSale;
  }

  lemma OneMoreAdds(db: Db, ids: seq<OrderId>, id: OrderId, f: OrderId -> Cents)
    ensures SumOver(ByOutcome(db, ids + [id], true), f) + SumOver(ByOutcome(db, ids + [id], false), f)
         == SumOver(ByOutcome(db, ids, true), f) + SumOver(ByOutcome(db, ids, false), f) + f(id)
  {
    hide SumOver, OutOfSale, ByOutcome;
    OneMoreByOutcome(db, ids, id, true, f);
    OneMoreByOutcome(db, ids, id, false, f);
  }

  lemma {:induction false} ByOutcomeAdds(db: Db, ids: seq<OrderId>, f: OrderId -> Cents)
    ensures SumOver(ByOutcome(db, ids, true), f) + SumOver(ByOutcome(db, ids, false), f) == SumOver(ids, f)
    decreases |ids|
  {
    if ids != [] {
      var rest, last := ids[..|ids| - 1], ids[|ids| - 1];
      assert ids == rest + [last];
      hide *;
      ByOutcomeAdds(db, rest, f);
      OneMoreAdds(db, rest, last, f);
      SumOverSnoc(rest, last, f);
    }
  }

  lemma RefundedAre(db: Db, t: Transaction, ids: seq<OrderId>, env: Environment)
    requires RefundsSound(db, t, ids) && FullyServed(db, t, ids, env)
    ensures NoRepeats(OrdersOf(t.refunds))
    ensures forall id :: id in OrdersOf(t.refunds) <==> id in ByOutcome(db, ids, true)
  {
    hide ByOutcome, NothingDue;
    forall id | id in ByOutcome(db, ids, true)
      ensures id in OrdersOf(t.refunds)
    {
      var k :| 0 <= k < |t.refunds| && t.refunds[k].order == id;
      assert OrdersOf(t.refunds)[k] == id;
    }
  }

  lemma RefundsCoverRejected(db: Db, t: Transaction, ids: seq<OrderId>, env: Environment)
    requires NoRepeats(ids) && RefundsSound(db, t, ids) && FullyServed(db, t, ids, env)
    ensures Refundeds(t) == SumOver(ByOutcome(db, ids, true), PlanAmounts(t.plan))
  {
    RefundsAdd(t.refunds, PlanAmounts(t.plan));
    hide Sum, SumOver, PlanAmounts, FullyServed, NoRepeats, OrdersOf, ByOutcome;
    ByOutcomeOnce(db, ids, true);
    RefundedAre(db, t, ids, env);
    hide RefundsSound;
    SubSum(OrdersOf(t.refunds), ByOutcome(db, ids, true), PlanAmounts(t.plan));
  }

  lemma EntryIsPaid(entries: seq<TransferEntry>, id: OrderId)
    ensures HasEntry(entries, id) <==> id in PaidOrders(entries)
  {
    if HasEntry(entries, id) {
      var k :| 0 <= k < |entries| && entries[k].order == id;
      assert PaidOrders(entries)[k] == id;
    }
  }

  lemma TransfersCoverSettled(db: Db, t: Transaction, ids: seq<OrderId>, env: Environment)
    requires NoRepeats(ids) && FullyPlanned(t, ids) && TransfersSound(db, t, t.transfers, ids)
    requires FullyServed(db, t, ids, env)
    ensures Sum(TransferAmounts(t.transfers)) == SumOver(ByOutcome(db, ids, false), PlanTransfers(t.plan))
  {
    TransfersAdd(t.transfers, PlanTransfers(t.plan));
    ByOutcomeOnce(db, ids, false);
    forall id | id in ByOutcome(db, ids, false) && id !in PaidOrders(t.transfers)
      ensures PlanTransfers(t.plan)(id) == 0
    {
      assert !HasEntry(t.transfers, id) by {
        EntryIsPaid(t.transfers, id);
      }
      var plan := Planned(t.plan, id).value;
      SplitConserves(plan.amount, plan.split.feePercent);
    }
    hide Sum, SumOver, PlanTransfers, FullyPlanned, NothingDue;
    SubSum(PaidOrders(t.transfers), ByOutcome(db, ids, false), PlanTransfers(t.plan));
  }

  /**
   What the sellers of the settled orders were sent, the platform's fees on them and what the buyer got back for
   the cancelled ones.
   */
  function Spending(db: Db, t: Transaction, ids: seq<OrderId>): Cents {
    Sum(TransferAmounts(t.transfers)) + SumOver(ByOutcome(db, ids, false), PlanFees(t.plan)) + Refundeds(t)
  }

  lemma SpentExactly(db: Db, book: CardBook, i: nat, ids: seq<OrderId>, env: Environment)
    requires CartSound(db, book, i, ids) && FullyServed(db, book.ts[i], ids, env)
    ensures Spending(db, book.ts[i], ids) == SumOver(ids, PlanAmounts(book.ts[i].plan))
  {
    var t := book.ts[i];
    RefundsCoverRejected(db, t, ids, env);
    TransfersCoverSettled(db, t, ids, env);
    PartOfPlan(t, ids, ByOutcome(db, ids, false));
    PlansAddUp(t, ByOutcome(db, ids, false));
    ByOutcomeAdds(db, ids, PlanAmounts(t.plan));
  }

  lemma NeverBoth(db: Db, book: CardBook, i: nat, ids: seq<OrderId>)
    requires CartSound(db, book, i, ids)
    ensures forall id :: WasTransferred(book.ts[i], id) ==> !HasCancellation(book.ts[i], id)
  {
  }

  /** One delivery of a session, with whatever it met outside the database. */
  datatype Attempted = Attempted(db: Db, book: CardBook, uses: map<CouponId, int>, now: Time, env: Environment)

  function Ended(d: Attempted, i: nat, s: CheckoutSession): Processed
    requires Matching(d.book) && i < |d.book.ts|
  {
    SessionCompleted(d.db, d.book, d.uses, i, s, d.now, d.env)
  }

  /** Deliveries of one session, failing anywhere; in between nothing is refunded and orders only move forward. */
  ghost predicate Redeliveries(ds: seq<Attempted>, i: nat, s: CheckoutSession) {
    && (forall k :: 0 <= k < |ds| ==> Matching(ds[k].book) && i < |ds[k].book.ts|)
    && forall k :: 0 < k < |ds| ==>
         var before := Ended(ds[k - 1], i, s);
         ds[k].book == before.book && Continues(before.db, ds[k].db, PositiveIds(s.orderIds))
  }

  /** The payment of a cart before any delivery. */
  ghost predicate FreshCart(db: Db, book: CardBook, i: nat, ids: seq<OrderId>) {
    && Matching(book) && i < |book.ts| && CartOf(db, book.ts[i], ids) && NewestPayment(book.ts, i, ids)
    && book.ts[i].refunds == [] && book.ts[i].transfers == [] && book.records[i] == StripeRecord([], [], [])
  }

  lemma {:induction false} DeliveriesKeepSound(ds: seq<Attempted>, i: nat, s: CheckoutSession)
    requires ds != [] && Redeliveries(ds, i, s) && s.intent.Some? && !s.buyNow
    requires FreshCart(ds[0].db, ds[0].book, i, PositiveIds(s.orderIds))
    ensures var ids := PositiveIds(s.orderIds);
            var d := ds[|ds| - 1];
            var r := Ended(d, i, s);
            && CartSound(r.db, r.book, i, ids) && NewestPayment(r.book.ts, i, ids) && OnlyRow(ds[0].book, r.book, i)
            && (r.error.None? ==> FullyServed(r.db, r.book.ts[i], ids, d.env))
  {
    hide SessionCompleted, FullyServed, PositiveIds, CartOf, OnlyRow, Continues;
    var n := |ds| - 1;
    var d := ds[n];
    var ids := PositiveIds(s.orderIds);
    if n > 0 {
      DeliveriesKeepSound(ds[..n], i, s);
      hide CartSound, NewestPayment;
      var before := Ended(ds[n - 1], i, s);
      StillSound(before.db, d.db, before.book, i, ids);
    }
    DeliveryKeepsSound(d.db, d.book, d.uses, i, s, d.now, d.env);
    if n > 0 {
      OnlyRowTwice(ds[0].book, d.book, Ended(d, i, s).book, i);
    }
  }

  /**
   A paid cart, delivered any number of times, each delivery failing wherever it may: never is an order both paid
   out and refunded. And once a delivery completes, the payment is spent exactly: what the sellers were sent, the
   platform's fees and what the buyer got back are together what was planned for all its orders.
   */
  lemma DeliveryConserves(ds: seq<Attempted>, i: nat, s: CheckoutSession)
    requires ds != [] && Redeliveries(ds, i, s) && s.intent.Some? && !s.buyNow
    requires FreshCart(ds[0].db, ds[0].book, i, PositiveIds(s.orderIds))
    ensures var ids := PositiveIds(s.orderIds);
            var r := Ended(ds[|ds| - 1], i, s);
            && |r.book.ts| == |ds[0].book.ts|
            && (forall id :: WasTransferred(r.book.ts[i], id) ==> !HasCancellation(r.book.ts[i], id))
            && (r.error.None? ==>
                  && (forall id :: id in ids ==> id in r.db.orders && r.db.orders[id].status != Pending)
                  && Spending(r.db, r.book.ts[i], ids) == SumOver(ids, PlanAmounts(ds[0].book.ts[i].plan)))
  {
    DeliveriesKeepSound(ds, i, s);
    hide SessionCompleted, Sum, SumOver, PlanAmounts, Redeliveries, NewestPayment, Spending, HasCancellation,
         WasTransferred, NothingDue;
    var ids := PositiveIds(s.orderIds);
    var d := ds[|ds| - 1];
    var r := Ended(d, i, s);
    NeverBoth(r.db, r.book, i, ids);
    if r.error.None? {
      SpentExactly(r.db, r.book, i, ids, d.env);
    }
  }

  // ----- Delivering again -----

  lemma {:induction false} RefundsNothingAgain(db: Db, book: CardBook, i: nat, ids: seq<OrderId>,
                                               rejected: seq<OrderId>, env: Environment)
    requires CartSound(db, book, i, ids) && NewestPayment(book.ts, i, ids)
    requires book.ts[i].status in {Succeeded, PaidBack} && book.ts[i].intent.Some?
    requires forall id :: id in rejected ==> id in ids && HasCancellation(book.ts[i], id)
    ensures RefundRejected(book, db.orders, rejected, env) == (book, None)
  {
    if rejected != [] {
      var n := |rejected| - 1;
      RefundsNothingAgain(db, book, i, ids, rejected[..n], env);
      assert rejected[n] in rejected;
      SoundIsCart(db, book, i, ids);
      FindsThis(db, book, i, ids, rejected[n]);
      hide CartSound, NewestPayment, FindPaid, FullyPlanned, HasCancellation;
      SameBooks(book, i);
    }
  }

  lemma {:induction false} PaysNothingAgain(till: Till, t: Transaction, ids: seq<OrderId>, settled: seq<OrderId>,
                                            orders: map<OrderId, Order>, accounts: Accounts, failsAt: Option<nat>)
    requires FullyPlanned(t, ids)
    requires forall id :: id in settled ==>
               id in ids && id in orders && NothingDue(t, t.transfers, id, accounts(orders[id].seller))
    ensures TransferEach(till, t, settled, orders, accounts, failsAt) == Pass(till, t.transfers, false)
  {
    hide CalculatePaymentSplit;
    if settled != [] {
      var n := |settled| - 1;
      PaysNothingAgain(till, t, ids, settled[..n], orders, accounts, failsAt);
      assert settled[n] in settled;
    }
  }

  lemma NoMoneyAgain(db: Db, linked: CardBook, i: nat, ids: seq<OrderId>, rejected: seq<OrderId>,
                     settled: seq<OrderId>, env: Environment)
    requires CartSound(db, linked, i, ids) && NewestPayment(linked.ts, i, ids)
    requires FullyServed(db, linked.ts[i], ids, env)
    requires linked.ts[i].status == Succeeded && linked.ts[i].intent.Some? && !env.dies
    requires forall id :: id in rejected ==> id in ids && OutOfSale(db, id)
    requires forall id :: id in settled ==> id in ids && SoldTo(db, id)
    ensures RefundRejected(linked, db.orders, rejected, env) == (linked, None)
    ensures PaidOut(linked, i, db.orders, settled, env) == (linked, None)
  {
    hide RefundRejected, FullyPlanned, HasCancellation;
    RefundsNothingAgain(db, linked, i, ids, rejected, env);
    SoundIsCart(db, linked, i, ids);
    var t := linked.ts[i];
    var till := Till(linked.records[i].transfers, {});
    PaysNothingAgain(till, t, ids, settled, db.orders, env.accounts, env.failsAt);
    hide CartSound, TransferEach;
    assert t.(transfers := t.transfers) == t;
    assert linked.records[i].(transfers := till.moved) == linked.records[i];
    assert linked.ts[i := t] == linked.ts && linked.records[i := linked.records[i]] == linked.records;
  }

  lemma DecidedAgain(db: Db, ids: seq<OrderId>, reports: seq<Report>)
    requires |reports| == |ids| && NonePending(db, ids)
    requires forall k :: 0 <= k < |ids| ==>
               ids[k] in db.orders
               && reports[k] == if db.orders[ids[k]].status == Cancelled then RejectedNow else AlreadySettled
    ensures forall id :: id in Reporting(ids, reports, RejectedNow) ==> id in ids && OutOfSale(db, id)
    ensures forall id :: id in SettledIds(ids, reports) ==> id in ids && SoldTo(db, id)
  {
  }

  /**
   Delivering a session again once it was delivered changes no order and no product, counts no coupon and moves no
   money: the payment is only marked as paid and linked once more.
   */
  lemma RedeliveryMovesNothing(db: Db, book: CardBook, uses: map<CouponId, int>, i: nat, s: CheckoutSession, now: Time,
                               env: Environment)
    requires CartSound(db, book, i, PositiveIds(s.orderIds)) && NewestPayment(book.ts, i, PositiveIds(s.orderIds))
    requires FullyServed(db, book.ts[i], PositiveIds(s.orderIds), env) && PositiveIds(s.orderIds) != []
    requires s.intent.Some? && !s.buyNow && !env.dies
    ensures var marked := MarkedPaid(book.ts[i], s.intent).(order := Some(PositiveIds(s.orderIds)[0]));
            SessionCompleted(db, book, uses, i, s, now, env) == Processed(db, WithRow(book, i, marked), uses, None)
  {
    var ids := PositiveIds(s.orderIds);
    SoundIsCart(db, book, i, ids);
    var marked := MarkedPaid(book.ts[i], s.intent).(order := Some(ids[0]));
    var linked := WithRow(book, i, marked);
    assert WithRow(WithRow(book, i, MarkedPaid(book.ts[i], s.intent)), i, marked) == linked;
    DecidedStays(db, book.ts[i], ids, now, env);
    var reports := SettleEach(db, ids, now, env.settings, None).reports;
    hide SettleEach, Finalized, RefundRejected, PaidOut, Reporting, CartSound, NewestPayment, CartOf, PositiveIds;
    MarkedSound(db, book, i, ids, marked);
    SameServed(db, book.ts[i], marked, ids, env);
    hide FullyServed;
    NoMoneyAgain(db, linked, i, ids, Reporting(ids, reports, RejectedNow), SettledIds(ids, reports), env);
  }

  /** Settling the orders again decides nothing anew. */
  lemma DecidedStays(db: Db, t: Transaction, ids: seq<OrderId>, now: Time, env: Environment)
    requires FullyServed(db, t, ids, env)
    ensures var all := SettleEach(db, ids, now, env.settings, None);
            && all.error.None? && Finalized(db, ids, now, env.settings, None) == db
            && Reporting(ids, all.reports, ConfirmedNow) == []
            && (forall id :: id in Reporting(ids, all.reports, RejectedNow) ==> id in ids && OutOfSale(db, id))
            && forall id :: id in SettledIds(ids, all.reports) ==> id in ids && SoldTo(db, id)
  {
    ServedIsSettled(db, t, ids, env);
    hide FullyServed, SettleEach, Finalized, NonePending;
    SettlesNothing(db, ids, now, env.settings, None);
    SelfEvolves(db);
    hide Evolves;
    LaterCallChangesNothing(db, db, ids, now, env.settings, None);
    DecidedAgain(db, ids, SettleEach(db, ids, now, env.settings, None).reports);
  }

  lemma ServedIsSettled(db: Db, t: Transaction, ids: seq<OrderId>, env: Environment)
    requires FullyServed(db, t, ids, env)
    ensures NonePending(db, ids)
  {
    hide HasCancellation, NothingDue;
  }

  lemma SameServed(db: Db, t: Transaction, t': Transaction, ids: seq<OrderId>, env: Environment)
    requires t'.refunds == t.refunds && t'.transfers == t.transfers && t'.plan == t.plan
    requires FullyServed(db, t, ids, env)
    ensures FullyServed(db, t', ids, env)
  {
  }

  // ----- The coupon of a delivered payment -----

  /** The delivery confirms some order of the payment. */
  predicate Confirming(d: Attempted, s: CheckoutSession) {
    Confirms(PositiveIds(s.orderIds), Call(d.db, d.now, d.env.settings, SessionOf(s)))
  }

  /** A delivery counts the session's coupon once if it confirms some order, however it ends; no other count moves. */
  lemma DeliveryCounts(d: Attempted, i: nat, s: CheckoutSession)
    requires Matching(d.book) && i < |d.book.ts|
    ensures Ended(d, i, s).uses.Keys == d.uses.Keys
    ensures forall c :: c in d.uses ==>
              Ended(d, i, s).uses[c] == d.uses[c] + if s.coupon == Some(c) && Confirming(d, s) then 1 else 0
  {
    var ids := PositiveIds(s.orderIds);
    if ids == [] {
      assert SettleEach(d.db, [], d.now, d.env.settings, SessionOf(s)).reports == [];
    }
    hide SettleEach, Finalized, RefundRejected, PaidOut, PositiveIds, Reporting;
  }

  lemma DecidedByDelivery(d: Attempted, i: nat, s: CheckoutSession)
    requires Matching(d.book) && i < |d.book.ts| && !s.buyNow && Confirming(d, s)
    requires forall id :: id in PositiveIds(s.orderIds) ==> id in d.db.orders
    ensures NonePending(Ended(d, i, s).db, PositiveIds(s.orderIds))
  {
    var ids := PositiveIds(s.orderIds);
    NoneLeftPending(d.db, ids, d.now, d.env.settings, None);
    assert ids != [] by {
      assert SettleEach(d.db, [], d.now, d.env.settings, None).reports == [];
    }
    hide SettleEach, Finalized, RefundRejected, PaidOut, PositiveIds, Reporting;
  }

  lemma StillDecided(before: Db, after: Db, ids: seq<OrderId>)
    requires NonePending(before, ids) && Continues(before, after, ids)
    ensures NonePending(after, ids)
  {
    hide SalesStay;
  }

  lemma DecidedConfirmsNothing(d: Attempted, s: CheckoutSession)
    requires NonePending(d.db, PositiveIds(s.orderIds))
    ensures !Confirming(d, s)
  {
    SelfEvolves(d.db);
    hide Evolves, NonePending, SettleEach, Finalized, PositiveIds;
    LaterCallChangesNothing(d.db, d.db, PositiveIds(s.orderIds), d.now, d.env.settings, SessionOf(s));
  }

  lemma {:induction false} DecidedSince(ds: seq<Attempted>, i: nat, s: CheckoutSession, k: nat, l: nat)
    requires Redeliveries(ds, i, s) && !s.buyNow && k < l < |ds| && Confirming(ds[k], s)
    requires forall id :: id in PositiveIds(s.orderIds) ==> id in ds[k].db.orders
    ensures NonePending(ds[l].db, PositiveIds(s.orderIds))
    decreases l
  {
    hide SessionCompleted, NonePending, Continues, Confirming, PositiveIds;
    var ids := PositiveIds(s.orderIds);
    if k == l - 1 {
      DecidedByDelivery(ds[k], i, s);
    } else {
      DecidedSince(ds, i, s, k, l - 1);
      DecidedStaysSo(ds[l - 1], i, s);
    }
    StillDecided(Ended(ds[l - 1], i, s).db, ds[l].db, ids);
  }

  /** The rows that a delivery leaves are those of its finalization, whatever becomes of the money. */
  lemma RowsOfDelivery(d: Attempted, i: nat, s: CheckoutSession)
    requires Matching(d.book) && i < |d.book.ts|
    ensures var ids := PositiveIds(s.orderIds);
            var all := SettleEach(d.db, ids, d.now, d.env.settings, SessionOf(s));
            Ended(d, i, s).db == if ids == [] then d.db
                                 else if all.error.Some? then all.db
                                 else Finalized(d.db, ids, d.now, d.env.settings, SessionOf(s))
  {
    hide SettleEach, Finalized, RefundRejected, PaidOut, PositiveIds, Reporting;
  }

  lemma DecidedStaysSo(d: Attempted, i: nat, s: CheckoutSession)
    requires Matching(d.book) && i < |d.book.ts| && !s.buyNow && NonePending(d.db, PositiveIds(s.orderIds))
    ensures NonePending(Ended(d, i, s).db, PositiveIds(s.orderIds))
  {
    hide Evolves, NonePending, SettleEach, Finalized, PositiveIds, Ended;
    var ids := PositiveIds(s.orderIds);
    RowsOfDelivery(d, i, s);
    SettlesNothing(d.db, ids, d.now, d.env.settings, None);
    SelfEvolves(d.db);
    LaterCallChangesNothing(d.db, d.db, ids, d.now, d.env.settings, None);
  }

  /** By how much the delivery raises the count. */
  function RisesBy(d: Attempted, i: nat, s: CheckoutSession, c: CouponId): (rise: int)
    requires Matching(d.book) && i < |d.book.ts| && c in d.uses
    ensures rise == if s.coupon == Some(c) && Confirming(d, s) then 1 else 0
  {
    DeliveryCounts(d, i, s);
    Ended(d, i, s).uses[c] - d.uses[c]
  }

  /**
   Of all the deliveries of a cart's payment, each failing wherever it may and whoever else counts the coupon in
   between, at most one raises its count, by one.
   */
  lemma CountedByOneDelivery(ds: seq<Attempted>, i: nat, s: CheckoutSession, k: nat, l: nat, c: CouponId)
    requires Redeliveries(ds, i, s) && !s.buyNow && k < l < |ds| && c in ds[k].uses && c in ds[l].uses
    requires forall id :: id in PositiveIds(s.orderIds) ==> id in ds[k].db.orders
    ensures 0 <= RisesBy(ds[k], i, s, c) + RisesBy(ds[l], i, s, c) <= 1
  {
    hide SessionCompleted, Confirming, PositiveIds, Continues;
    if Confirming(ds[k], s) {
      DecidedSince(ds, i, s, k, l);
      DecidedConfirmsNothing(ds[l], s);
    }
  }

  // ----- A payment for one order -----

  lemma {:induction false} RefundsLeaveTransfers(book: CardBook, orders: map<OrderId, Order>, ids: seq<OrderId>,
                                                 env: Environment, j: nat)
    requires Matching(book) && j < |book.ts|
    ensures var after := RefundRejected(book, orders, ids, env).0;
            && after.records[j].transfers == book.records[j].transfers
            && after.ts[j].transfers == book.ts[j].transfers && after.ts[j].order == book.ts[j].order
  {
    if ids != [] {
      hide OrderAmount, RefundedOf, Reversed, FindPaid, HasCancellation, Create;
      RefundsLeaveTransfers(book, orders, ids[..|ids| - 1], env, j);
    }
  }

  /** A delivery that gets past finalizing the orders links the payment to the first of them. */
  lemma LinkedToFirst(d: Attempted, i: nat, s: CheckoutSession)
    requires Matching(d.book) && i < |d.book.ts| && PositiveIds(s.orderIds) != []
    ensures var r := Ended(d, i, s);
            && Matching(r.book) && |r.book.ts| == |d.book.ts|
            && (r.error.None? || r.error.value.RefundOf? || r.error.value.TransfersStopped? ==>
                  r.book.ts[i].order == Some(PositiveIds(s.orderIds)[0]))
  {
    hide SettleEach, Finalized, RefundRejected, Deliver, TransferEach, PositiveIds, Reporting;
    var ids := PositiveIds(s.orderIds);
    var marked := WithRow(d.book, i, MarkedPaid(d.book.ts[i], s.intent));
    var linked := WithRow(marked, i, marked.ts[i].(order := Some(ids[0])));
    var all := SettleEach(d.db, ids, d.now, d.env.settings, SessionOf(s));
    if all.error.None? {
      var orders := Finalized(d.db, ids, d.now, d.env.settings, SessionOf(s)).orders;
      var rejected := Reporting(ids, all.reports, RejectedNow);
      RefundsLeaveTransfers(linked, orders, rejected, d.env, i);
      var refunded := RefundRejected(linked, orders, rejected, d.env).0;
      var settled := Reporting(ids, all.reports, ConfirmedNow) + Reporting(ids, all.reports, AlreadySettled);
      PaidOutKeepsLink(refunded, i, orders, settled, d.env);
    }
  }

  lemma PaidOutKeepsLink(book: CardBook, i: nat, orders: map<OrderId, Order>, ids: seq<OrderId>, env: Environment)
    requires Matching(book) && i < |book.ts|
    ensures var paid := PaidOut(book, i, orders, ids, env).0;
            Matching(paid) && |paid.ts| == |book.ts| && paid.ts[i].order == book.ts[i].order
  {
    hide TransferEach;
  }

  /** A buy-now session sends no transfer, as Stripe pays its seller with the charge; nor does an uncharged one. */
  lemma BuyNowSendsNothing(d: Attempted, i: nat, s: CheckoutSession, j: nat)
    requires Matching(d.book) && i < |d.book.ts| && j < |d.book.ts| && (s.buyNow || s.intent.None?)
    ensures var r := Ended(d, i, s);
            && Matching(r.book) && |r.book.ts| == |d.book.ts|
            && r.book.records[j].transfers == d.book.records[j].transfers
            && r.book.ts[j].transfers == d.book.ts[j].transfers
  {
    hide SettleEach, Finalized, RefundRejected, PaidOut, PositiveIds, Reporting;
    var ids := PositiveIds(s.orderIds);
    var marked := WithRow(d.book, i, MarkedPaid(d.book.ts[i], s.intent));
    if ids != [] {
      var linked := WithRow(marked, i, marked.ts[i].(order := Some(ids[0])));
      var all := SettleEach(d.db, ids, d.now, d.env.settings, SessionOf(s));
      if all.error.None? {
        var db' := Finalized(d.db, ids, d.now, d.env.settings, SessionOf(s));
        RefundsLeaveTransfers(linked, db'.orders, Reporting(ids, all.reports, RejectedNow), d.env, j);
      }
    }
  }

  /** An order that a buy-now session confirms carries the session; that of a cart does not. */
  lemma ConfirmedBySession(d: Attempted, i: nat, s: CheckoutSession, id: OrderId)
    requires Matching(d.book) && i < |d.book.ts| && PositiveIds(s.orderIds) == [id] && Confirming(d, s)
    ensures id in d.db.orders && id in Ended(d, i, s).db.orders && Ended(d, i, s).db.orders[id].status == Confirmed
    ensures Ended(d, i, s).db.orders[id].session == if s.buyNow then Some(s.id) else d.db.orders[id].session
  {
    OneIsSettled(d.db, id, d.now, d.env.settings, SessionOf(s));
    hide SettleEach, RefundRejected, PaidOut, PositiveIds, ConfirmedBy;
    var reports := SettleEach(d.db, [id], d.now, d.env.settings, SessionOf(s)).reports;
    assert Reporting([id], reports, RejectedNow) == [];
  }

  lemma OneIsSettled(db: Db, id: OrderId, now: Time, settings: Settings, session: Option<int>)
    requires Confirms([id], Call(db, now, settings, session))
    ensures var all := SettleEach(db, [id], now, settings, session);
            && all.error.None? && all.reports == [ConfirmedNow] && Reporting([id], all.reports, RejectedNow) == []
            && id in db.orders && id in all.db.orders && all.db.orders[id].status == Confirmed
            && all.db.orders[id].session == if session.Some? then session else db.orders[id].session
  {
    assert [id][..0] == [];
    assert SettleEach(db, [], now, settings, session) == Settlements(db, [], None);
    hide SettledDb, CanSettle;
    var all := SettleEach(db, [id], now, settings, session);
    var one := SettleOne(db, id, now, settings, session);
    assert one.Success? && all == Settlements(one.value.0, [one.value.1], None);
    assert all.reports[..0] == [];
    assert Reporting([], [], ConfirmedNow) == [] && Reporting([], [], RejectedNow) == [];
    ConfirmationWrites(db, id, now, settings, session);
  }
}
