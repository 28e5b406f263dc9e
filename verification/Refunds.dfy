/**
 Refunds of a card payment: what one refund does to the payment's ledger and to Stripe's record,
 and what any sequence of them keeps, failures between the two included.
 */
module Refunds {
  import opened Wrappers
  import opened Money
  import opened SellerFees
  import opened Domain
  import opened Payments
  import Currency

  /**
   How a refund ends: refused by Stripe, made but the process dies before recording it, or made. The
   seller's part may be taken back on the way, or not.
   */
  datatype Answer = Refuses | DoneButLost(reversed: bool) | Done(reversed: bool)

  datatype RefundError =
    | NothingPaid | OrderMissing | ExceedsOrder | NotPositive | ExceedsCaptured | AtStripe(error: StripeError)
    | NotRecorded

  datatype RefundResult = NothingToRefund | AlreadyRefunded | GivenBack(amount: Cents)

  datatype Books = Books(t: Transaction, stripe: StripeRecord)

  // ----- The ledger of one payment -----

  function Amounts(refunds: seq<RefundEntry>): (amounts: seq<Cents>)
    ensures |amounts| == |refunds|
  {
    seq(|refunds|, i requires 0 <= i < |refunds| => refunds[i].amount)
  }

  function Refundeds(t: Transaction): Cents { Sum(Amounts(t.refunds)) }

  function OfOrder(refunds: seq<RefundEntry>, id: OrderId): seq<RefundEntry> {
    if refunds == [] then []
    else
      var n := |refunds| - 1;
      OfOrder(refunds[..n], id) + if refunds[n].order == id then [refunds[n]] else []
  }

  function RefundedOf(t: Transaction, id: OrderId): Cents {
    Sum(Amounts(OfOrder(t.refunds, id)))
  }

  predicate HasReturn(t: Transaction, request: ItemKey) {
    exists i :: 0 <= i < |t.refunds| && t.refunds[i].request == Some(request)
  }

  predicate HasCancellation(t: Transaction, id: OrderId) {
    exists i :: 0 <= i < |t.refunds| && t.refunds[i].order == id && t.refunds[i].request.None?
  }

  predicate IsBuyNow(t: Transaction, o: Order) {
    t.mode == BuyNow || o.session.Some?
  }

  function Planned(plan: seq<PlanEntry>, id: OrderId): Option<PlanEntry> {
    if plan == [] then None
    else if plan[0].order == id then Some(plan[0])
    else Planned(plan[1..], id)
  }

  /** What the buyer paid for an order; a plan without an amount falls back to the order's total. */
  function OrderAmount(t: Transaction, id: OrderId, o: Order): Cents {
    if IsBuyNow(t, o) then t.amount
    else
      var plan := Planned(t.plan, id);
      if plan.Some? && plan.value.amount != 0 then plan.value.amount else o.total
  }

  /**
   A payment for one order paid all of it, a cart's what its first plan entry for the order says. Where there is none,
   or it says nothing, that is the order's total.
   */
  lemma {:induction false} AmountPaid(t: Transaction, id: OrderId, o: Order, k: nat)
    requires k <= |t.plan| && forall i :: 0 <= i < k ==> t.plan[i].order != id
    ensures t.mode == BuyNow || o.session.Some? ==> OrderAmount(t, id, o) == t.amount
    ensures t.mode != BuyNow && o.session.None? && k == |t.plan| ==> OrderAmount(t, id, o) == o.total
    ensures t.mode != BuyNow && o.session.None? && k < |t.plan| && t.plan[k].order == id ==>
              OrderAmount(t, id, o) == if t.plan[k].amount == 0 then o.total else t.plan[k].amount
    decreases k
  {
    if 0 < k {
      AmountPaid(t.(plan := t.plan[1..]), id, o, k - 1);
    }
  }

  function RefundKey(e: RefundEntry): StripeKey {
    if e.request.Some? then ReturnRefund(e.request.value) else OrderRefund(e.order)
  }

  function ReversalKey(e: RefundEntry): StripeKey {
    if e.request.Some? then ReturnReversal(e.request.value) else OrderReversal(e.order)
  }

  function Recorded(t: Transaction, e: RefundEntry): Transaction {
    var refunds := t.refunds + [e];
    t.(refunds := refunds, status := if t.amount <= Sum(Amounts(refunds)) then PaidBack else Succeeded)
  }

  predicate WasTransferred(t: Transaction, id: OrderId) {
    exists i :: 0 <= i < |t.transfers| && t.transfers[i].order == id
  }

  /** Taking back the seller's part; the buyer has been refunded, so a reversal that fails is only logged. */
  function Reversed(b: Books, e: RefundEntry, o: Order, fee: real, up: bool): seq<Movement> {
    var share := CalculatePaymentSplit(e.amount, fee).transfer;
    if IsBuyNow(b.t, o) || !WasTransferred(b.t, e.order) || share <= 0 || !up then b.stripe.reversals
    else
      match Create(b.stripe.reversals, ReversalKey(e), share)
      case Success(reversals) => reversals
      case Failure(_) => b.stripe.reversals
  }

  /** Moves the money of one refund and records it. */
  function Pay(b: Books, e: RefundEntry, o: Order, fee: real, answer: Answer)
    : (Books, Result<RefundResult, RefundError>)
  {
    match Create(b.stripe.refunds, RefundKey(e), e.amount)
    case Failure(error) => (b, Failure(AtStripe(error)))
    case Success(refunds) =>
      match answer
      case Refuses => (b, Failure(AtStripe(Unreachable)))
      case DoneButLost(up) =>
        (b.(stripe := b.stripe.(refunds := refunds, reversals := Reversed(b, e, o, fee, up))), Failure(NotRecorded))
      case Done(up) =>
        (Books(Recorded(b.t, e), b.stripe.(refunds := refunds, reversals := Reversed(b, e, o, fee, up))),
         Success(GivenBack(e.amount)))
  }

  /** What a return gives back, in dollars: as requested, or the item's price but no more than the order. */
  function ReturnAmount(requested: Option<real>, price: real, total: Cents): real {
    match requested
    case Some(usd) => usd
    case None => if price < total as real then price else total as real
  }

  /** Refunding one return: `usd` is the amount in dollars, `amount` the same in the charged currency. */
  function RefundReturn(b: Books, request: ItemKey, o: Order, usd: real, amount: Cents, fee: real, answer: Answer)
    : (Books, Result<RefundResult, RefundError>)
  {
    if b.t.intent.None? then (b, Failure(NothingPaid))
    else if HasReturn(b.t, request) then (b, Success(AlreadyRefunded))
    else if usd > o.total as real then (b, Failure(ExceedsOrder))
    else if amount <= 0 then (b, Failure(NotPositive))
    else if Refundeds(b.t) + amount > b.t.amount then (b, Failure(ExceedsCaptured))
    else Pay(b, RefundEntry(request.order, Some(request), amount, usd), o, fee, answer)
  }

  /** The dollars of a refund in the charged currency, in proportion to the order's total. */
  function OrderRefundUsd(total: Cents, orderAmount: Cents, refund: Cents): real {
    if orderAmount == 0 then 0.0 else Round(total as real * refund as real / orderAmount as real) as real
  }

  /** What a cancellation gives back: all of the order's amount that the buyer has not had back yet. */
  function CancellationEntry(t: Transaction, id: OrderId, o: Order): RefundEntry {
    var all := OrderAmount(t, id, o);
    var amount := all - RefundedOf(t, id);
    RefundEntry(id, None, amount, OrderRefundUsd(o.total, all, amount))
  }

  /** Refunding whatever the buyer has not had back for an order. */
  function RefundOrder(b: Books, id: OrderId, o: Order, fee: real, answer: Answer)
    : (Books, Result<RefundResult, RefundError>)
  {
    if b.t.intent.None? then (b, Success(NothingToRefund))
    else if HasCancellation(b.t, id) then (b, Success(AlreadyRefunded))
    else
      var e := CancellationEntry(b.t, id, o);
      if e.amount <= 0 then (b, Success(AlreadyRefunded)) else Pay(b, e, o, fee, answer)
  }

  lemma OfOrderSnoc(refunds: seq<RefundEntry>, k: nat, id: OrderId)
    requires k < |refunds|
    ensures Sum(Amounts(OfOrder(refunds[..k + 1], id)))
         == Sum(Amounts(OfOrder(refunds[..k], id))) + if refunds[k].order == id then refunds[k].amount else 0
  {
    assert refunds[..k + 1][..k] == refunds[..k];
    var own := OfOrder(refunds[..k], id);
    AmountsSnoc(own, refunds[k]);
    assert own + [] == own;
  }

  /**
   A refund that fails leaves the payment's row as it was. Yet Stripe has moved the money of it exactly when its
   answer was lost and the refund had not been made by an earlier attempt.
   */
  lemma FailureMovesMoneyIff(b: Books, id: OrderId, o: Order, fee: real, answer: Answer)
    requires RefundOrder(b, id, o, fee, answer).1.Failure?
    ensures var (after, result) := RefundOrder(b, id, o, fee, answer);
            && after.t == b.t
            && (result.error != NotRecorded ==> after == b)
            && (after.stripe.refunds != b.stripe.refunds
                <==> answer.DoneButLost? && AmountUnder(b.stripe.refunds, OrderRefund(id)).None?)
  {
    hide OrderAmount, RefundedOf, Reversed;
  }

  /** The family of failing inputs: the whole remainder of the order is gone, and nothing on record says so. */
  lemma LostRefundIsUnrecorded(b: Books, id: OrderId, o: Order, fee: real, up: bool)
    requires b.t.intent.Some? && !HasCancellation(b.t, id) && RefundedOf(b.t, id) < OrderAmount(b.t, id, o)
    requires AmountUnder(b.stripe.refunds, OrderRefund(id)).None?
    ensures var (after, result) := RefundOrder(b, id, o, fee, DoneButLost(up));
            && result == Failure(NotRecorded) && after.t == b.t
            && after.stripe.refunds
               == b.stripe.refunds + [Movement(OrderRefund(id), OrderAmount(b.t, id, o) - RefundedOf(b.t, id))]
  {
    hide OrderAmount, RefundedOf, Reversed;
  }

  /**
   A refund that goes through has given back exactly all of the order's amount, and is on record as its
   cancellation.
   */
  lemma RefundIsComplete(b: Books, id: OrderId, o: Order, fee: real, answer: Answer)
    requires RefundOrder(b, id, o, fee, answer).1.Success?
    ensures var (after, result) := RefundOrder(b, id, o, fee, answer);
            match result.value
            case NothingToRefund => after == b && b.t.intent.None?
            case AlreadyRefunded => after == b
               && (HasCancellation(b.t, id) || OrderAmount(b.t, id, o) <= RefundedOf(b.t, id))
            case GivenBack(amount) =>
              && amount == OrderAmount(b.t, id, o) - RefundedOf(b.t, id) && 0 < amount
              && RefundedOf(after.t, id) == OrderAmount(after.t, id, o) && HasCancellation(after.t, id)
  {
    hide OrderAmount, Reversed;
    var e := CancellationEntry(b.t, id, o);
    AddedEntry(b.t, e);
    AddedOfOrder(b.t, e);
    SameOrderAmount(b.t, Recorded(b.t, e), id, o);
  }

  lemma AddedOfOrder(t: Transaction, e: RefundEntry)
    ensures RefundedOf(Recorded(t, e), e.order) == RefundedOf(t, e.order) + e.amount
  {
    assert (t.refunds + [e])[..|t.refunds|] == t.refunds;
    AmountsSnoc(OfOrder(t.refunds, e.order), e);
  }

  function ReturnEntry(refunds: seq<RefundEntry>, request: ItemKey): Option<RefundEntry> {
    if refunds == [] then None
    else if refunds[0].request == Some(request) then Some(refunds[0])
    else ReturnEntry(refunds[1..], request)
  }

  /** A return refund that goes through is on record; one that is already on record moves nothing. */
  lemma RefundedReturn(b: Books, request: ItemKey, o: Order, usd: real, amount: Cents, fee: real, answer: Answer)
    ensures var (after, result) := RefundReturn(b, request, o, usd, amount, fee, answer);
            && (result.Success? ==> HasReturn(after.t, request) && !result.value.NothingToRefund?)
            && (result == Success(AlreadyRefunded) ==> after == b && HasReturn(b.t, request))
            && (result.Success? && result.value.GivenBack? ==> !HasReturn(b.t, request))
            && after.t.provider == b.t.provider
  {
    hide Reversed, Refundeds;
    AddedEntry(b.t, RefundEntry(request.order, Some(request), amount, usd));
  }

  // ----- All payments -----

  /** Every payment transaction with Stripe's record of it. */
  datatype CardBook = CardBook(ts: seq<Transaction>, records: seq<StripeRecord>)

  predicate Matching(book: CardBook) { |book.records| == |book.ts| }

  function BooksAt(book: CardBook, i: nat): Books
    requires Matching(book) && i < |book.ts|
  {
    Books(book.ts[i], book.records[i])
  }

  function WithBooks(book: CardBook, i: nat, b: Books): CardBook
    requires Matching(book) && i < |book.ts|
  {
    CardBook(book.ts[i := b.t], book.records[i := b.stripe])
  }

  lemma SameBooks(book: CardBook, i: nat)
    requires Matching(book) && i < |book.ts|
    ensures WithBooks(book, i, BooksAt(book, i)) == book
  {
  }

  /** `refundOrderPayment`: the refund is made from the newest paid transaction of the order's buyer that covers it. */
  function RefundPayment(book: CardBook, orders: map<OrderId, Order>, id: OrderId, fee: real, answer: Answer)
    : (CardBook, Result<RefundResult, RefundError>)
    requires Matching(book)
  {
    if id !in orders then (book, Failure(OrderMissing))
    else
      match FindPaid(book.ts, id, orders[id].buyer)
      case None => (book, Success(NothingToRefund))
      case Some(i) =>
        var (b, result) := RefundOrder(BooksAt(book, i), id, orders[id], fee, answer);
        (WithBooks(book, i, b), result)
  }

  // ----- Runs of refunds -----

  datatype Refund =
    | ForReturn(request: ItemKey, usd: real, amount: Cents, fee: real, answer: Answer)
    | ForOrder(order: OrderId, fee: real, answer: Answer)

  function OrderOf(r: Refund): OrderId {
    match r
    case ForReturn(request, _, _, _, _) => request.order
    case ForOrder(id, _, _) => id
  }

  function Attempt(b: Books, orders: map<OrderId, Order>, r: Refund): (Books, Result<RefundResult, RefundError>) {
    if OrderOf(r) !in orders then (b, Failure(OrderMissing))
    else
      match r
      case ForReturn(request, usd, amount, fee, answer) =>
        RefundReturn(b, request, orders[request.order], usd, amount, fee, answer)
      case ForOrder(id, fee, answer) => RefundOrder(b, id, orders[id], fee, answer)
  }

  function RefundAll(b: Books, orders: map<OrderId, Order>, rs: seq<Refund>): Books {
    if rs == [] then b
    else Attempt(RefundAll(b, orders, rs[..|rs| - 1]), orders, rs[|rs| - 1]).0
  }

  // ----- What every run keeps -----

  predicate SameClaim(a: RefundEntry, b: RefundEntry) {
    RefundKey(a) == RefundKey(b)
  }

  /**
   One entry a return and one cancellation an order; every entry is positive and backed by its own
   movement at Stripe, which moves no key twice.
   */
  ghost predicate LedgerOk(b: Books) {
    && (forall i, j :: 0 <= i < j < |b.t.refunds| ==> !SameClaim(b.t.refunds[i], b.t.refunds[j]))
    && (forall i :: 0 <= i < |b.t.refunds| ==>
          && 0 < b.t.refunds[i].amount
          && Movement(RefundKey(b.t.refunds[i]), b.t.refunds[i].amount) in b.stripe.refunds
          && (b.t.refunds[i].request.Some? ==> b.t.refunds[i].request.value.order == b.t.refunds[i].order))
    && DistinctKeys(b.stripe.refunds) && DistinctKeys(b.stripe.reversals)
  }

  lemma PayKeeps(b: Books, e: RefundEntry, o: Order, fee: real, answer: Answer)
    requires LedgerOk(b) && 0 < e.amount && (e.request.Some? ==> e.request.value.order == e.order)
    requires forall i :: 0 <= i < |b.t.refunds| ==> !SameClaim(b.t.refunds[i], e)
    ensures LedgerOk(Pay(b, e, o, fee, answer).0)
  {
    if Create(b.stripe.refunds, RefundKey(e), e.amount).Success? {
      CreateKeepsKeys(b.stripe.refunds, RefundKey(e), e.amount);
      var share := CalculatePaymentSplit(e.amount, fee).transfer;
      if Create(b.stripe.reversals, ReversalKey(e), share).Success? {
        CreateKeepsKeys(b.stripe.reversals, ReversalKey(e), share);
      }
      hide DistinctKeys, CalculatePaymentSplit;
    }
  }

  lemma AttemptKeeps(b: Books, orders: map<OrderId, Order>, r: Refund)
    requires LedgerOk(b)
    ensures LedgerOk(Attempt(b, orders, r).0)
  {
    hide Pay, LedgerOk;
    if OrderOf(r) in orders {
      var o := orders[OrderOf(r)];
      match r
      case ForReturn(request, usd, amount, fee, answer) =>
        if !HasReturn(b.t, request) && 0 < amount {
          PayKeeps(b, RefundEntry(request.order, Some(request), amount, usd), o, fee, answer);
        }
      case ForOrder(id, fee, answer) =>
        if !HasCancellation(b.t, id) && 0 < CancellationEntry(b.t, id, o).amount {
          PayKeeps(b, CancellationEntry(b.t, id, o), o, fee, answer);
        }
    }
  }

  /** At most one entry a return and one cancellation an order, in any run, whatever was lost on the way. */
  lemma {:induction false} OneEntryEach(b: Books, orders: map<OrderId, Order>, rs: seq<Refund>)
    requires LedgerOk(b)
    ensures LedgerOk(RefundAll(b, orders, rs))
  {
    if rs != [] {
      OneEntryEach(b, orders, rs[..|rs| - 1]);
      AttemptKeeps(RefundAll(b, orders, rs[..|rs| - 1]), orders, rs[|rs| - 1]);
    }
  }

  lemma RecordedSum(t: Transaction, e: RefundEntry)
    ensures Refundeds(Recorded(t, e)) == Refundeds(t) + e.amount
  {
    assert Amounts(t.refunds + [e]) == Amounts(t.refunds) + [e.amount];
    SumSnoc(Amounts(t.refunds), e.amount);
  }

  /** A return is only refunded from what was captured and not given back yet. */
  lemma {:induction false} ReturnsWithinCaptured(b: Books, orders: map<OrderId, Order>, rs: seq<Refund>)
    requires Refundeds(b.t) <= b.t.amount
    requires forall i :: 0 <= i < |rs| ==> rs[i].ForReturn?
    ensures var after := RefundAll(b, orders, rs);
            after.t.amount == b.t.amount && Refundeds(b.t) <= Refundeds(after.t) <= after.t.amount
  {
    if rs != [] {
      var n := |rs| - 1;
      ReturnsWithinCaptured(b, orders, rs[..n]);
      hide Refundeds, Recorded;
      var before := RefundAll(b, orders, rs[..n]);
      RecordedSum(before.t, RefundEntry(rs[n].request.order, Some(rs[n].request), rs[n].amount, rs[n].usd));
      AmountStays(before.t, RefundEntry(rs[n].request.order, Some(rs[n].request), rs[n].amount, rs[n].usd));
    }
  }

  lemma AmountStays(t: Transaction, e: RefundEntry)
    ensures Recorded(t, e).amount == t.amount && Recorded(t, e).refunds == t.refunds + [e]
    ensures Recorded(t, e).mode == t.mode && Recorded(t, e).plan == t.plan && Recorded(t, e).intent == t.intent
  {
  }

  // ----- The status of a refunded payment -----

  /** The payment is marked as refunded exactly when its refunds have reached what was captured. */
  predicate MarkedRight(t: Transaction) {
    t.status == if t.amount <= Refundeds(t) then PaidBack else Succeeded
  }

  lemma AttemptMarks(b: Books, orders: map<OrderId, Order>, r: Refund)
    ensures var t := Attempt(b, orders, r).0.t;
            && t.amount == b.t.amount
            && if t.refunds == b.t.refunds then t == b.t
               else |t.refunds| == |b.t.refunds| + 1 && b.t.refunds <= t.refunds && MarkedRight(t)
  {
    hide OrderAmount, RefundedOf, Reversed, Sum, Amounts, HasReturn, HasCancellation;
  }

  lemma OrderRefundMarks(b: Books, id: OrderId, o: Order, fee: real, answer: Answer)
    ensures var (after, r) := RefundOrder(b, id, o, fee, answer);
            r.Success? && r.value.GivenBack? ==>
              MarkedRight(after.t) && RefundedOf(after.t, id) == OrderAmount(b.t, id, o)
  {
    AttemptMarks(b, map[id := o], ForOrder(id, fee, answer));
    var (after, r) := RefundOrder(b, id, o, fee, answer);
    if r.Success? && r.value.GivenBack? {
      RefundIsComplete(b, id, o, fee, answer);
      MoreOnLedger(b, map[id := o], ForOrder(id, fee, answer));
      SameOrderAmount(b.t, after.t, id, o) by {
        assert after.t == Recorded(b.t, CancellationEntry(b.t, id, o));
      }
    }
    hide RefundOrder, OrderAmount, RefundedOf, MarkedRight;
  }

  lemma ReturnMarks(b: Books, request: ItemKey, o: Order, usd: real, amount: Cents, fee: real, answer: Answer)
    ensures var (after, r) := RefundReturn(b, request, o, usd, amount, fee, answer);
            r.Success? && r.value.GivenBack? ==> MarkedRight(after.t) && after.t.currency == b.t.currency
  {
    hide Reversed, HasReturn;
  }

  /**
   In any run of refunds: once one was recorded, the payment is REFUNDED if its recorded refunds have reached the
   captured amount and SUCCEEDED otherwise; until then its status stays.
   */
  lemma {:induction false} StatusFollowsLedger(b: Books, orders: map<OrderId, Order>, rs: seq<Refund>)
    ensures var t := RefundAll(b, orders, rs).t;
            && t.amount == b.t.amount && b.t.refunds <= t.refunds
            && if t.refunds == b.t.refunds then t.status == b.t.status else MarkedRight(t)
  {
    if rs != [] {
      hide Attempt, MarkedRight;
      var n := |rs| - 1;
      StatusFollowsLedger(b, orders, rs[..n]);
      AttemptMarks(RefundAll(b, orders, rs[..n]), orders, rs[n]);
    }
  }

  /** An order refund of a buy-now payment that gives money back leaves the payment REFUNDED. */
  lemma BuyNowIsRefunded(b: Books, orders: map<OrderId, Order>, r: Refund, id: OrderId)
    requires ForOneOrder(b.t, id) && r.ForOrder? && r.order == id
    requires Attempt(b, orders, r).1.Success? && Attempt(b, orders, r).1.value.GivenBack?
    ensures Attempt(b, orders, r).0.t.status == PaidBack
  {
    OneOrderStep(b, orders, r, id);
    AttemptMarks(b, orders, r);
    MoreOnLedger(b, orders, r);
    hide Attempt;
  }

  lemma MoreOnLedger(b: Books, orders: map<OrderId, Order>, r: Refund)
    requires Attempt(b, orders, r).1.Success? && Attempt(b, orders, r).1.value.GivenBack?
    ensures Attempt(b, orders, r).0.t.refunds != b.t.refunds
  {
    hide OrderAmount, RefundedOf, Reversed, Refundeds, HasReturn, HasCancellation;
    assert |Attempt(b, orders, r).0.t.refunds| == |b.t.refunds| + 1;
  }

  // ----- What a refund gives back -----

  /** The dollars due for a return: what was asked for, else the item's price but no more than the order. */
  predicate DollarsDue(usd: real, requested: Option<real>, price: real, total: Cents) {
    && usd <= total as real
    && (requested.Some? ==> usd == requested.value)
    && (requested.None? ==> usd <= price && (usd == price || usd == total as real))
  }

  /** An entry of this return: the dollars due, and a positive amount that is theirs within half a cent. */
  predicate DueEntry(e: RefundEntry, request: ItemKey, requested: Option<real>, price: real, total: Cents, rate: real) {
    && e.order == request.order && e.request == Some(request) && DollarsDue(e.usd, requested, price, total)
    && 0 < e.amount && e.usd * rate - 0.5 < e.amount as real <= e.usd * rate + 0.5
  }

  /** One more entry, of this return and of the dollars due for it; the payment is marked accordingly. */
  predicate RefundedAsDue(before: Transaction, t: Transaction, request: ItemKey, requested: Option<real>, price: real,
                          total: Cents, rate: real, amount: Cents)
  {
    && |t.refunds| == |before.refunds| + 1 && before.refunds <= t.refunds && MarkedRight(t)
    && DueEntry(t.refunds[|before.refunds|], request, requested, price, total, rate)
    && amount == t.refunds[|before.refunds|].amount
  }

  /**
   A return refund that goes through adds one entry of this return to the ledger, of the dollars due for it and of
   what that comes to in the charged currency.
   */
  lemma ReturnGivesDue(b: Books, request: ItemKey, o: Order, requested: Option<real>, price: real,
                       rates: Currency.Rates, fee: real, answer: Answer)
    requires Currency.Usable(rates)
    ensures var usd := ReturnAmount(requested, price, o.total);
            var amount := Currency.Convert(usd, Currency.USD, b.t.currency, rates);
            var (after, r) := RefundReturn(b, request, o, usd, amount, fee, answer);
            r.Success? && r.value.GivenBack? ==>
              && DollarsDue(usd, requested, price, o.total)
              && RefundedAsDue(b.t, after.t, request, requested, price, o.total, rates[b.t.currency], r.value.amount)
  {
    hide Reversed, Refundeds, HasReturn;
    var usd := ReturnAmount(requested, price, o.total);
    var amount := Currency.Convert(usd, Currency.USD, b.t.currency, rates);
    assert usd / 1.0 * rates[b.t.currency] == usd * rates[b.t.currency];
    ReturnMarks(b, request, o, usd, amount, fee, answer);
  }

  /**
   If Stripe answers, a return is refunded exactly if the payment was made, the return has no refund on record, and its
   amount is positive, within the order in dollars and within what is left of the captured amount.
   */
  lemma ReturnRefundedIff(b: Books, request: ItemKey, o: Order, usd: real, amount: Cents, fee: real, up: bool)
    requires AmountUnder(b.stripe.refunds, ReturnRefund(request)) in {None, Some(amount)}
    ensures RefundReturn(b, request, o, usd, amount, fee, Done(up)).1 == Success(GivenBack(amount))
            <==> && b.t.intent.Some? && (forall i :: 0 <= i < |b.t.refunds| ==> b.t.refunds[i].request != Some(request))
                 && 0 < amount <= b.t.amount - Refundeds(b.t) && usd <= o.total as real
  {
    hide Reversed, Refundeds;
  }

  /**
   If Stripe answers, an order is refunded exactly if the payment was made, the order has no cancellation on record,
   and the buyer has not had all of it back.
   */
  lemma OrderRefundedIff(b: Books, id: OrderId, o: Order, fee: real, up: bool)
    requires AmountUnder(b.stripe.refunds, OrderRefund(id))
          in {None, Some(OrderAmount(b.t, id, o) - RefundedOf(b.t, id))}
    ensures var r := RefundOrder(b, id, o, fee, Done(up)).1;
            r.Success? && r.value.GivenBack?
            <==> && b.t.intent.Some? && RefundedOf(b.t, id) < OrderAmount(b.t, id, o)
                 && forall i :: 0 <= i < |b.t.refunds| && b.t.refunds[i].order == id ==> b.t.refunds[i].request.Some?
  {
    hide Reversed, RefundedOf, OrderAmount, OrderRefundUsd;
  }

  /** The part of the order's dollars that the refund is of its charged amount, within half a cent. */
  predicate DollarShare(usd: real, total: Cents, refund: Cents, all: Cents)
    requires all != 0
  {
    -0.5 <= usd - total as real * refund as real / all as real <= 0.5
  }

  /**
   The dollars of a cancellation's refund are its share of the order's dollars, within half a cent: all of them if
   the buyer had nothing back before.
   */
  lemma CancellationDollars(b: Books, id: OrderId, o: Order, fee: real, answer: Answer)
    requires RefundOrder(b, id, o, fee, answer).1.Success? && RefundOrder(b, id, o, fee, answer).1.value.GivenBack?
    requires 0 < OrderAmount(b.t, id, o)
    ensures var (after, r) := RefundOrder(b, id, o, fee, answer);
            var all := OrderAmount(b.t, id, o);
            && |after.t.refunds| == |b.t.refunds| + 1 && b.t.refunds <= after.t.refunds
            && var e := after.t.refunds[|b.t.refunds|];
               && e.order == id && e.request.None? && e.amount == r.value.amount
               && DollarShare(e.usd, o.total, e.amount, all)
               && (RefundedOf(b.t, id) == 0 ==> e.amount == all && e.usd == o.total as real)
  {
    hide OrderAmount, RefundedOf, Reversed, HasCancellation, OrderRefundUsd, DollarShare;
    var all := OrderAmount(b.t, id, o);
    ShareOfDollars(o.total, all, all - RefundedOf(b.t, id));
  }

  lemma ShareOfDollars(total: Cents, all: Cents, refund: Cents)
    requires 0 < all
    ensures DollarShare(OrderRefundUsd(total, all, refund), total, refund, all)
    ensures OrderRefundUsd(total, all, all) == total as real
  {
    RoundInteger(total);
    assert total as real * all as real / all as real == total as real;
  }

  // ----- A payment for one order -----

  /**
   Refunds of buy-now orders take nothing back from a seller by themselves: Stripe does, with the refund. So in any run
   of refunds of such orders the reversals stay as they are.
   */
  lemma {:induction false} BuyNowReversesNothing(b: Books, orders: map<OrderId, Order>, rs: seq<Refund>)
    requires forall id :: id in orders ==> b.t.mode == BuyNow || orders[id].session.Some?
    ensures var after := RefundAll(b, orders, rs);
            after.stripe.reversals == b.stripe.reversals && after.t.mode == b.t.mode
  {
    if rs != [] {
      hide OrderAmount, RefundedOf, Refundeds, HasReturn, HasCancellation, Create;
      BuyNowReversesNothing(b, orders, rs[..|rs| - 1]);
    }
  }

  /** Everything recorded is for the one order; once it was cancelled, everything captured was given back. */
  ghost predicate ForOneOrder(t: Transaction, id: OrderId) {
    && t.mode == BuyNow && t.intent.Some?
    && (forall i :: 0 <= i < |t.refunds| ==> t.refunds[i].order == id)
    && Refundeds(t) <= t.amount
    && (HasCancellation(t, id) ==> Refundeds(t) == t.amount)
  }

  lemma {:induction false} AllOfOrder(refunds: seq<RefundEntry>, id: OrderId)
    requires forall i :: 0 <= i < |refunds| ==> refunds[i].order == id
    ensures OfOrder(refunds, id) == refunds
  {
    if refunds != [] {
      AllOfOrder(refunds[..|refunds| - 1], id);
    }
  }

  lemma OneOrderRecorded(t: Transaction, e: RefundEntry, id: OrderId)
    requires ForOneOrder(t, id) && !HasCancellation(t, id) && e.order == id
    requires Refundeds(t) + e.amount <= t.amount && (e.request.None? ==> Refundeds(t) + e.amount == t.amount)
    ensures ForOneOrder(Recorded(t, e), id) && Refundeds(Recorded(t, e)) == Refundeds(t) + e.amount
  {
    RecordedSum(t, e);
    hide Refundeds;
    OldOrNew(t, e, id);
  }

  /** A cancellation on record was there before, or it is the new entry. */
  lemma OldOrNew(t: Transaction, e: RefundEntry, id: OrderId)
    ensures HasCancellation(Recorded(t, e), id) ==> HasCancellation(t, id) || (e.order == id && e.request.None?)
  {
    var t' := Recorded(t, e);
    if HasCancellation(t', id) {
      var i :| 0 <= i < |t'.refunds| && t'.refunds[i].order == id && t'.refunds[i].request.None?;
      if i < |t.refunds| {
        assert t.refunds[i] == t'.refunds[i];
      }
    }
  }

  lemma OneOrderStep(b: Books, orders: map<OrderId, Order>, r: Refund, id: OrderId)
    requires ForOneOrder(b.t, id) && OrderOf(r) == id
    ensures var (after, result) := Attempt(b, orders, r);
            && ForOneOrder(after.t, id) && after.t.amount == b.t.amount
            && (r.ForOrder? && result.Success? ==> Refundeds(after.t) == b.t.amount)
  {
    AllOfOrder(b.t.refunds, id);
    WholeLedger(b.t, id);
    hide Refundeds, RefundedOf, Reversed, Create;
    if id in orders {
      match r
      case ForReturn(request, usd, amount, fee, answer) =>
        var e := RefundEntry(id, Some(request), amount, usd);
        AmountStays(b.t, e);
        if !HasCancellation(b.t, id) && 0 < amount && Refundeds(b.t) + amount <= b.t.amount {
          OneOrderRecorded(b.t, e, id);
        }
      case ForOrder(_, fee, answer) =>
        var e := CancellationEntry(b.t, id, orders[id]);
        AmountStays(b.t, e);
        if !HasCancellation(b.t, id) {
          OneOrderRecorded(b.t, e, id);
        }
    }
  }

  lemma WholeLedger(t: Transaction, id: OrderId)
    requires OfOrder(t.refunds, id) == t.refunds
    ensures RefundedOf(t, id) == Refundeds(t)
  {
  }

  /**
   For a buy-now payment any mix of return refunds and order refunds stays within what was captured,
   and an order refund that does not fail leaves exactly all of it given back.
   */
  lemma {:induction false} BuyNowWithinCaptured(b: Books, orders: map<OrderId, Order>, rs: seq<Refund>, id: OrderId)
    requires ForOneOrder(b.t, id) && forall i :: 0 <= i < |rs| ==> OrderOf(rs[i]) == id
    ensures var after := RefundAll(b, orders, rs);
            && ForOneOrder(after.t, id) && after.t.amount == b.t.amount && Refundeds(after.t) <= b.t.amount
            && (rs != [] && rs[|rs| - 1].ForOrder?
                && Attempt(RefundAll(b, orders, rs[..|rs| - 1]), orders, rs[|rs| - 1]).1.Success?
                ==> Refundeds(after.t) == b.t.amount)
  {
    if rs != [] {
      BuyNowWithinCaptured(b, orders, rs[..|rs| - 1], id);
      OneOrderStep(RefundAll(b, orders, rs[..|rs| - 1]), orders, rs[|rs| - 1], id);
    }
  }

  // ----- Repeating a refund -----

  lemma AddedEntry(t: Transaction, e: RefundEntry)
    ensures var after := Recorded(t, e);
            && (e.request.Some? ==> HasReturn(after, e.request.value))
            && (e.request.None? ==> HasCancellation(after, e.order))
  {
    var after := Recorded(t, e);
    assert after.refunds[|t.refunds|] == e;
  }

  /** The same refund again, whatever the answers, moves no money and records nothing once it went through. */
  lemma RepeatMovesNothing(b: Books, orders: map<OrderId, Order>, r: Refund, again: Refund)
    requires b.t.intent.Some? && Attempt(b, orders, r).1.Success?
    requires match r
             case ForReturn(request, _, _, _, _) => again.ForReturn? && again.request == request
             case ForOrder(id, _, _) => again.ForOrder? && again.order == id
    ensures var (after, _) := Attempt(b, orders, r);
            Attempt(after, orders, again) == (after, Success(AlreadyRefunded))
  {
    hide OrderAmount, RefundedOf, Reversed, Refundeds;
    match r
    case ForReturn(request, usd, amount, fee, answer) =>
      AddedEntry(b.t, RefundEntry(request.order, Some(request), amount, usd));
    case ForOrder(id, fee, answer) =>
      AddedEntry(b.t, CancellationEntry(b.t, id, orders[id]));
  }

  function EntryFor(t: Transaction, orders: map<OrderId, Order>, r: Refund): RefundEntry
    requires OrderOf(r) in orders
  {
    match r
    case ForReturn(request, usd, amount, _, _) => RefundEntry(request.order, Some(request), amount, usd)
    case ForOrder(id, _, _) => CancellationEntry(t, id, orders[id])
  }

  /** An attempt that gets as far as Stripe pays its entry, and so does the same one again over the same row. */
  lemma LostIsPaid(b: Books, b': Books, orders: map<OrderId, Order>, r: Refund, again: Refund)
    requires Attempt(b, orders, r).1 == Failure(NotRecorded) && b'.t == b.t && again == r.(answer := again.answer)
    ensures OrderOf(r) in orders && EntryFor(b.t, orders, r).order == OrderOf(r)
    ensures Attempt(b', orders, again)
         == Pay(b', EntryFor(b.t, orders, r), orders[OrderOf(r)], r.fee, again.answer)
  {
    hide Pay, OrderAmount, RefundedOf, Refundeds;
  }

  lemma PaysAgain(b: Books, e: RefundEntry, o: Order, fee: real, answer: Answer, retry: Answer)
    requires Pay(b, e, o, fee, answer).1 == Failure(NotRecorded) && retry.Done?
    ensures var lost := Pay(b, e, o, fee, answer).0;
            var (after, result) := Pay(lost, e, o, fee, retry);
            && lost.t == b.t && result == Success(GivenBack(e.amount)) && after.t.refunds == b.t.refunds + [e]
            && after.stripe.refunds == lost.stripe.refunds && Movement(RefundKey(e), e.amount) in lost.stripe.refunds
            && (AmountUnder(b.stripe.refunds, RefundKey(e)).None? ==>
                  lost.stripe.refunds == b.stripe.refunds + [Movement(RefundKey(e), e.amount)])
  {
    hide Reversed, AmountUnder, Sum;
    CreateTwice(b.stripe.refunds);
  }

  /**
   A refund that Stripe made but nobody recorded is recorded by the retry, and Stripe moves nothing
   for it a second time.
   */
  lemma RetryAfterLoss(b: Books, orders: map<OrderId, Order>, r: Refund, retry: Refund)
    requires Attempt(b, orders, r).1 == Failure(NotRecorded)
    requires retry == r.(answer := retry.answer) && retry.answer.Done?
    ensures var lost := Attempt(b, orders, r).0;
            var (after, result) := Attempt(lost, orders, retry);
            && lost.t == b.t && result.Success? && result.value.GivenBack?
            && after.stripe.refunds == lost.stripe.refunds
            && |after.t.refunds| == |b.t.refunds| + 1
            && var e := after.t.refunds[|b.t.refunds|];
               && e.order == OrderOf(r) && e.amount == result.value.amount
               && Movement(RefundKey(e), e.amount) in lost.stripe.refunds
               && (AmountUnder(b.stripe.refunds, RefundKey(e)).None? ==>
                     lost.stripe.refunds == b.stripe.refunds + [Movement(RefundKey(e), e.amount)])
  {
    hide Attempt, Pay, EntryFor, RefundKey;
    LostIsPaid(b, b, orders, r, r);
    PaysAgain(b, EntryFor(b.t, orders, r), orders[OrderOf(r)], r.fee, r.answer, retry.answer);
    LostIsPaid(b, Attempt(b, orders, r).0, orders, r, retry);
  }

  lemma CreateTwice(book: seq<Movement>)
    ensures forall key, amount :: Create(book, key, amount).Success? ==>
              var once := Create(book, key, amount).value;
              AmountUnder(once, key) == Some(amount) && Create(once, key, amount) == Success(once)
  {
    forall key, amount | Create(book, key, amount).Success?
      ensures var once := Create(book, key, amount).value;
              AmountUnder(once, key) == Some(amount) && Create(once, key, amount) == Success(once)
    {
    }
  }

  // ----- The ledger and Stripe agree when nothing is lost -----

  predicate Agree(b: Books) {
    Sum(Moved(b.stripe.refunds)) == Refundeds(b.t)
  }

  /** Every recorded refund is a movement at Stripe and the other way round. */
  ghost predicate Mirrored(b: Books) {
    |b.stripe.refunds| == |b.t.refunds|
    && forall i :: 0 <= i < |b.t.refunds| ==>
         b.stripe.refunds[i] == Movement(RefundKey(b.t.refunds[i]), b.t.refunds[i].amount)
  }

  lemma MirrorAgrees(b: Books)
    requires Mirrored(b)
    ensures Agree(b)
  {
    assert Moved(b.stripe.refunds) == Amounts(b.t.refunds);
  }

  lemma MirrorStep(b: Books, orders: map<OrderId, Order>, r: Refund)
    requires Mirrored(b) && LedgerOk(b) && !r.answer.DoneButLost?
    ensures Mirrored(Attempt(b, orders, r).0)
  {
    hide Reversed, Refundeds, RefundedOf, OrderAmount;
    if OrderOf(r) in orders {
      var e := match r
        case ForReturn(request, usd, amount, _, _) => RefundEntry(request.order, Some(request), amount, usd)
        case ForOrder(id, _, _) => CancellationEntry(b.t, id, orders[id]);
      if AmountUnder(b.stripe.refunds, RefundKey(e)).Some? {
        var i :| 0 <= i < |b.stripe.refunds| && b.stripe.refunds[i].key == RefundKey(e);
        assert RefundKey(b.t.refunds[i]) == RefundKey(e);
      }
    }
  }

  /** While no answer of Stripe is lost, its record of refunds and the payment's ledger are the same. */
  lemma {:induction false} LedgerMirrorsStripe(b: Books, orders: map<OrderId, Order>, rs: seq<Refund>)
    requires Mirrored(b) && LedgerOk(b) && forall i :: 0 <= i < |rs| ==> !rs[i].answer.DoneButLost?
    ensures var after := RefundAll(b, orders, rs);
            Mirrored(after) && Sum(Moved(after.stripe.refunds)) == Refundeds(after.t)
  {
    if rs != [] {
      var n := |rs| - 1;
      LedgerMirrorsStripe(b, orders, rs[..n]);
      OneEntryEach(b, orders, rs[..n]);
      MirrorStep(RefundAll(b, orders, rs[..n]), orders, rs[n]);
    }
    MirrorAgrees(RefundAll(b, orders, rs));
  }

  // ----- A payment for several orders -----

  function OfOthers(refunds: seq<RefundEntry>, id: OrderId): seq<RefundEntry> {
    if refunds == [] then []
    else
      var n := |refunds| - 1;
      OfOthers(refunds[..n], id) + if refunds[n].order != id then [refunds[n]] else []
  }

  lemma AmountsSnoc(refunds: seq<RefundEntry>, e: RefundEntry)
    ensures Sum(Amounts(refunds + [e])) == Sum(Amounts(refunds)) + e.amount
  {
    assert Amounts(refunds + [e]) == Amounts(refunds) + [e.amount];
    SumSnoc(Amounts(refunds), e.amount);
  }

  lemma {:induction false} SplitLedger(refunds: seq<RefundEntry>, id: OrderId)
    ensures Sum(Amounts(refunds)) == Sum(Amounts(OfOrder(refunds, id))) + Sum(Amounts(OfOthers(refunds, id)))
  {
    if refunds == [] {
      assert Amounts([]) == [];
    } else {
      hide Sum, Amounts;
      var n := |refunds| - 1;
      SplitLedger(refunds[..n], id);
      assert refunds == refunds[..n] + [refunds[n]];
      AmountsSnoc(refunds[..n], refunds[n]);
      var own, others := OfOrder(refunds[..n], id), OfOthers(refunds[..n], id);
      if refunds[n].order == id {
        AmountsSnoc(own, refunds[n]);
        assert OfOthers(refunds, id) == others;
      } else {
        AmountsSnoc(others, refunds[n]);
        assert OfOrder(refunds, id) == own;
      }
    }
  }

  /**
   Refunding an order of a cart payment looks only at that order's own refunds. It keeps the ledger
   within what was captured exactly when the refunds of the other orders leave room for all of this
   order's amount.
   */
  lemma OrderRefundWithinCapturedIff(b: Books, orders: map<OrderId, Order>, id: OrderId, fee: real, answer: Answer)
    requires id in orders
    requires Attempt(b, orders, ForOrder(id, fee, answer)).1 ==
             Success(GivenBack(OrderAmount(b.t, id, orders[id]) - RefundedOf(b.t, id)))
    ensures var after := Attempt(b, orders, ForOrder(id, fee, answer)).0;
            Refundeds(after.t) <= b.t.amount
            <==> OrderAmount(b.t, id, orders[id]) <= b.t.amount - Sum(Amounts(OfOthers(b.t.refunds, id)))
  {
    hide OrderAmount, Reversed;
    SplitLedger(b.t.refunds, id);
    hide Refundeds;
    RecordedSum(b.t, CancellationEntry(b.t, id, orders[id]));
    WholeAmount(b.t);
  }

  lemma WholeAmount(t: Transaction)
    ensures Refundeds(t) == Sum(Amounts(t.refunds))
  {
  }

  lemma AttemptThree(b: Books, orders: map<OrderId, Order>, x: Refund, y: Refund, z: Refund)
    ensures RefundAll(b, orders, [x, y, z])
         == Attempt(Attempt(Attempt(b, orders, x).0, orders, y).0, orders, z).0
  {
    hide Attempt;
    assert [x, y, z][..2] == [x, y] && [x, y][..1] == [x] && [x][..0] == [];
    assert RefundAll(b, orders, []) == b;
    assert RefundAll(b, orders, [x]) == Attempt(b, orders, x).0;
    assert RefundAll(b, orders, [x, y]) == Attempt(RefundAll(b, orders, [x]), orders, y).0;
  }

  /** A refund of a hundred cents that nothing stands in the way of. */
  lemma HundredGoesThrough(b: Books, orders: map<OrderId, Order>, r: Refund, e: RefundEntry)
    requires b.t.intent.Some? && r.answer == Done(false) && OrderOf(r) in orders && e.order == OrderOf(r)
       && e.amount == 100
    requires AmountUnder(b.stripe.refunds, RefundKey(e)).None?
    requires match r
             case ForReturn(request, usd, amount, _, _) =>
               e.request == Some(request) && e.usd == usd && usd <= orders[request.order].total as real && amount == 100
               && !HasReturn(b.t, request) && Refundeds(b.t) + 100 <= b.t.amount
             case ForOrder(id, _, _) =>
               e == CancellationEntry(b.t, id, orders[id]) && !HasCancellation(b.t, id)
    ensures var after := Attempt(b, orders, r).0;
            && after.t == Recorded(b.t, e) && after.t.refunds == b.t.refunds + [e]
            && after.stripe.refunds == b.stripe.refunds + [Movement(RefundKey(e), 100)]
            && Refundeds(after.t) == Refundeds(b.t) + 100
  {
    hide OrderAmount, RefundedOf, Refundeds;
    RecordedSum(b.t, e);
  }

  const FIRST: RefundEntry := RefundEntry(1, Some(ItemKey(1, 0)), 100, 100.0)
  const SECOND: RefundEntry := RefundEntry(1, Some(ItemKey(1, 1)), 100, 100.0)

  lemma NothingForSecondOrder(t: Transaction)
    requires t.refunds == [FIRST, SECOND]
    ensures RefundedOf(t, 2) == 0 && !HasCancellation(t, 2)
  {
    assert t.refunds[..1] == [FIRST] && [FIRST][..0] == [];
    assert OfOrder([], 2) == [];
    assert OfOrder([FIRST], 2) == [];
    assert OfOrder(t.refunds, 2) == [];
  }

  /**
   The room is not always there. A return refund is capped by its order's total and by the whole
   payment, not by what its order still has. Of a payment of 200 cents for two orders of 100 cents,
   two returns on the first order and the cancellation of the second give back 300 cents.
   */
  lemma CartRefundsExceedCaptured(b: Books, orders: map<OrderId, Order>, x: Refund, y: Refund, z: Refund)
    requires b.t.mode == Cart && b.t.intent.Some? && b.t.amount == 200 && b.t.refunds == [] && b.stripe.refunds == []
    requires 1 in orders && 2 in orders && orders[1].total == orders[2].total == 100
    requires OrderAmount(b.t, 1, orders[1]) == OrderAmount(b.t, 2, orders[2]) == 100
    requires x == ForReturn(ItemKey(1, 0), 100.0, 100, 10.0, Done(false))
    requires y == ForReturn(ItemKey(1, 1), 100.0, 100, 10.0, Done(false))
    requires z == ForOrder(2, 10.0, Done(false))
    ensures Refundeds(RefundAll(b, orders, [x, y, z]).t) == 300
  {
    AttemptThree(b, orders, x, y, z);
    hide Refundeds, Attempt, RefundAll;
    TwoReturnsGoThrough(b, orders, x, y);
    OrderAfterReturnsGoesThrough(Attempt(Attempt(b, orders, x).0, orders, y).0, orders, z);
  }

  lemma TwoReturnsGoThrough(b: Books, orders: map<OrderId, Order>, x: Refund, y: Refund)
    requires b.t.mode == Cart && b.t.intent.Some? && b.t.amount == 200 && b.t.refunds == [] && b.stripe.refunds == []
    requires 1 in orders && 2 in orders && orders[1].total == 100 && OrderAmount(b.t, 2, orders[2]) == 100
    requires x == ForReturn(ItemKey(1, 0), 100.0, 100, 10.0, Done(false))
    requires y == ForReturn(ItemKey(1, 1), 100.0, 100, 10.0, Done(false))
    ensures var after := Attempt(Attempt(b, orders, x).0, orders, y).0;
            && after.t.refunds == [FIRST, SECOND] && Refundeds(after.t) == 200
            && after.stripe.refunds == [Movement(RefundKey(FIRST), 100), Movement(RefundKey(SECOND), 100)]
            && after.t.intent.Some? && OrderAmount(after.t, 2, orders[2]) == 100
  {
    assert Refundeds(b.t) == 0;
    hide Refundeds, Attempt, AmountUnder, OrderAmount;
    HundredGoesThrough(b, orders, x, FIRST);
    var b1 := Attempt(b, orders, x).0;
    assert b1.t.refunds == [FIRST];
    HundredGoesThrough(b1, orders, y, SECOND);
    SameOrderAmount(b.t, Attempt(b1, orders, y).0.t, 2, orders[2]);
  }

  lemma OrderAfterReturnsGoesThrough(b: Books, orders: map<OrderId, Order>, z: Refund)
    requires b.t.refunds == [FIRST, SECOND] && b.t.intent.Some? && Refundeds(b.t) == 200
    requires b.stripe.refunds == [Movement(RefundKey(FIRST), 100), Movement(RefundKey(SECOND), 100)]
    requires 2 in orders && OrderAmount(b.t, 2, orders[2]) == 100 && z == ForOrder(2, 10.0, Done(false))
    ensures Refundeds(Attempt(b, orders, z).0.t) == 300
  {
    hide Refundeds, Attempt, AmountUnder, OrderAmount;
    NothingForSecondOrder(b.t);
    HundredGoesThrough(b, orders, z, CancellationEntry(b.t, 2, orders[2]));
  }

  // ----- Two refunds at the same time -----

  lemma {:induction false} LedgerTail(t: Transaction, more: seq<RefundEntry>)
    requires forall i :: 0 <= i < |more| ==> 0 < more[i].amount
    ensures Sum(Amounts(t.refunds)) <= Sum(Amounts(t.refunds + more))
    ensures more != [] ==> Sum(Amounts(t.refunds)) < Sum(Amounts(t.refunds + more))
  {
    if more == [] {
      assert t.refunds + more == t.refunds;
    } else {
      var n := |more| - 1;
      LedgerTail(t, more[..n]);
      assert t.refunds + more == (t.refunds + more[..n]) + [more[n]];
      AmountsSnoc(t.refunds + more[..n], more[n]);
    }
  }

  /** The payment as others have written it since it was read: more refunds, more transfers. */
  function WrittenSince(read: Transaction, more: seq<RefundEntry>, paid: seq<TransferEntry>): Transaction {
    read.(refunds := read.refunds + more, transfers := read.transfers + paid)
  }

  /**
   A refund is recorded over both ledgers as they were read before Stripe was asked. It is added to what they say by
   then exactly when nothing was written in between; otherwise the refunds and the transfers since are erased.
   */
  lemma RecordedOverIff(read: Transaction, more: seq<RefundEntry>, paid: seq<TransferEntry>, e: RefundEntry)
    requires forall i :: 0 <= i < |more| ==> 0 < more[i].amount
    ensures var now := WrittenSince(read, more, paid);
            && (Refundeds(Recorded(read, e)) == Refundeds(now) + e.amount <==> more == [])
            && (Recorded(read, e).transfers == now.transfers <==> paid == [])
            && (Recorded(read, e) == Recorded(now, e) <==> more == [] && paid == [])
  {
    var now := WrittenSince(read, more, paid);
    RecordedSum(read, e);
    LedgerTail(read, more);
    assert more == [] ==> read.refunds + more == read.refunds;
    assert paid == [] ==> read.transfers + paid == read.transfers;
    hide Sum;
    assert |Recorded(now, e).refunds| == |Recorded(read, e).refunds| + |more|;
    assert |now.transfers| == |read.transfers| + |paid|;
  }

  /**
   A transfer that such a refund erased is never taken back: every later refund of that order leaves the reversals
   as they are, though with its entry on the ledger it would have asked for the seller's share.
   */
  lemma ErasedTransferStays(read: Transaction, more: seq<RefundEntry>, paid: seq<TransferEntry>, e: RefundEntry,
                            stripe: StripeRecord, x: RefundEntry, o: Order, fee: real)
    requires WasTransferred(WrittenSince(read, more, paid), x.order) && !WasTransferred(read, x.order)
    requires !IsBuyNow(read, o) && 0 < CalculatePaymentSplit(x.amount, fee).transfer
    requires AmountUnder(stripe.reversals, ReversalKey(x)).None?
    ensures Reversed(Books(Recorded(read, e), stripe), x, o, fee, true) == stripe.reversals
    ensures Reversed(Books(Recorded(WrittenSince(read, more, paid), e), stripe), x, o, fee, true)
         == stripe.reversals + [Movement(ReversalKey(x), CalculatePaymentSplit(x.amount, fee).transfer)]
  {
    hide CalculatePaymentSplit, AmountUnder, Sum;
  }

  lemma PaysFresh(b: Books, e: RefundEntry, o: Order, fee: real, up: bool)
    requires AmountUnder(b.stripe.refunds, RefundKey(e)).None?
    ensures var after := Pay(b, e, o, fee, Done(up)).0;
            && after.t == Recorded(b.t, e) && after.stripe.transfers == b.stripe.transfers
            && after.stripe.refunds == b.stripe.refunds + [Movement(RefundKey(e), e.amount)]
            && after.stripe.reversals == Reversed(b, e, o, fee, up)
  {
    hide Reversed, Recorded;
  }

  lemma OtherKey(book: seq<Movement>, m: Movement, key: StripeKey)
    requires m.key != key
    ensures AmountUnder(book + [m], key) == AmountUnder(book, key)
  {
    assert (book + [m])[..|book|] == book;
  }

  /** Two refunds that read the payment before either is recorded both move their money; only one is on the ledger. */
  lemma OverlappingRefunds(b: Books, x: RefundEntry, y: RefundEntry, o: Order, fee: real)
    requires RefundKey(x) != RefundKey(y)
    requires AmountUnder(b.stripe.refunds, RefundKey(x)).None? && AmountUnder(b.stripe.refunds, RefundKey(y)).None?
    ensures var one := Pay(b, x, o, fee, Done(false)).0;
            var two := Pay(Books(b.t, one.stripe), y, o, fee, Done(false)).0;
            && two.t.refunds == b.t.refunds + [y]
            && two.stripe.refunds
               == b.stripe.refunds + [Movement(RefundKey(x), x.amount)] + [Movement(RefundKey(y), y.amount)]
  {
    hide Pay, AmountUnder, Reversed;
    PaysFresh(b, x, o, fee, false);
    OtherKey(b.stripe.refunds, Movement(RefundKey(x), x.amount), RefundKey(y));
    PaysFresh(Books(b.t, Pay(b, x, o, fee, Done(false)).0.stripe), y, o, fee, false);
  }

  // ----- Returns of one order -----

  /**
   A return refund is not capped by what its order still has: it keeps the order's refunds within the order's
   amount exactly when what was given back for the order before leaves room for it.
   */
  lemma ReturnWithinOrderIff(b: Books, request: ItemKey, o: Order, usd: real, amount: Cents, fee: real, answer: Answer)
    requires RefundReturn(b, request, o, usd, amount, fee, answer).1 == Success(GivenBack(amount))
    ensures var after := RefundReturn(b, request, o, usd, amount, fee, answer).0;
            RefundedOf(after.t, request.order) <= OrderAmount(after.t, request.order, o)
            <==> amount <= OrderAmount(b.t, request.order, o) - RefundedOf(b.t, request.order)
  {
    hide OrderAmount, Reversed, Refundeds, RefundedOf;
    var e := RefundEntry(request.order, Some(request), amount, usd);
    AddedOfOrder(b.t, e);
    SameOrderAmount(b.t, Recorded(b.t, e), request.order, o);
  }

  /** Two returns on an order of 100 cents give back 200 cents of it, out of the money paid for another order. */
  lemma OrderGivenBackTwice(b: Books, orders: map<OrderId, Order>, x: Refund, y: Refund)
    requires b.t.mode == Cart && b.t.intent.Some? && b.t.amount == 200 && b.t.refunds == [] && b.stripe.refunds == []
    requires 1 in orders && 2 in orders && orders[1].total == 100
    requires OrderAmount(b.t, 1, orders[1]) == OrderAmount(b.t, 2, orders[2]) == 100
    requires x == ForReturn(ItemKey(1, 0), 100.0, 100, 10.0, Done(false))
    requires y == ForReturn(ItemKey(1, 1), 100.0, 100, 10.0, Done(false))
    ensures var after := Attempt(Attempt(b, orders, x).0, orders, y).0;
            RefundedOf(after.t, 1) == 200 && Refundeds(after.t) == b.t.amount
  {
    TwoReturnsGoThrough(b, orders, x, y);
    AllOfOrder([FIRST, SECOND], 1);
    hide Attempt, OrderAmount;
  }

  lemma SameOrderAmount(t: Transaction, t': Transaction, id: OrderId, o: Order)
    requires t'.mode == t.mode && t'.amount == t.amount && t'.plan == t.plan
    ensures OrderAmount(t', id, o) == OrderAmount(t, id, o)
  {
  }
}
