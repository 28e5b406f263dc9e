/** What is taken back from the seller of a cart order, over any run of refunds. */
module SellerReversals {
  import opened Wrappers
  import opened Money
  import opened Sums
  import opened SellerFees
  import opened Domain
  import opened Payments
  import opened Refunds

  function ReversalOrder(key: StripeKey): Option<OrderId> {
    match key
    case ReturnReversal(request) => Some(request.order)
    case OrderReversal(id) => Some(id)
    case _ => None
  }

  /** The reversals that Stripe made for one order. */
  function ReversedFor(book: seq<Movement>, id: OrderId): seq<Cents> {
    if book == [] then []
    else
      var n := |book| - 1;
      ReversedFor(book[..n], id) + if ReversalOrder(book[n].key) == Some(id) then [book[n].amount] else []
  }

  /** Every reversal belongs to a recorded refund. */
  ghost predicate ReversalsRecorded(b: Books) {
    forall k :: 0 <= k < |b.stripe.reversals| ==> Explained(b.t, b.stripe.reversals[k].key)
  }

  predicate Explained(t: Transaction, key: StripeKey) {
    exists j :: 0 <= j < |t.refunds| && ReversalKey(t.refunds[j]) == key
  }

  /** What was taken back for the order is the seller's share of each of its refunds. */
  ghost predicate SharesReversed(b: Books, id: OrderId, fee: real) {
    Sum(ReversedFor(b.stripe.reversals, id)) == Sum(Reversals(Amounts(OfOrder(b.t.refunds, id)), fee))
  }

  /** The order's refunds are made at one fee and answered in full; those of other orders do not matter. */
  predicate InFull(r: Refund, id: OrderId, fee: real) {
    !r.answer.DoneButLost? && (OrderOf(r) == id ==> r.fee == fee && (r.answer.Done? ==> r.answer.reversed))
  }

  lemma SameKeySameClaim(a: RefundEntry, b: RefundEntry)
    requires ReversalKey(a) == ReversalKey(b)
    ensures SameClaim(a, b)
  {
  }

  lemma ReversedForSnoc(book: seq<Movement>, m: Movement, id: OrderId)
    ensures Sum(ReversedFor(book + [m], id))
         == Sum(ReversedFor(book, id)) + if ReversalOrder(m.key) == Some(id) then m.amount else 0
  {
    assert (book + [m])[..|book|] == book;
    var before := ReversedFor(book, id);
    SumSnoc(before, m.amount);
    assert before + [] == before;
  }

  lemma ReversalsSnoc(refunds: seq<Cents>, amount: Cents, fee: real)
    ensures Sum(Reversals(refunds + [amount], fee))
         == Sum(Reversals(refunds, fee)) + CalculatePaymentSplit(amount, fee).transfer
  {
    hide CalculatePaymentSplit;
    var share := CalculatePaymentSplit(amount, fee).transfer;
    assert Reversals(refunds + [amount], fee) == Reversals(refunds, fee) + [share];
    SumSnoc(Reversals(refunds, fee), share);
  }

  lemma OfOrderMore(t: Transaction, e: RefundEntry, id: OrderId, fee: real)
    ensures Sum(Reversals(Amounts(OfOrder(Recorded(t, e).refunds, id)), fee))
         == Sum(Reversals(Amounts(OfOrder(t.refunds, id)), fee))
            + if e.order == id then CalculatePaymentSplit(e.amount, fee).transfer else 0
  {
    hide Sum, Reversals, CalculatePaymentSplit;
    assert (t.refunds + [e])[..|t.refunds|] == t.refunds;
    var own := OfOrder(t.refunds, id);
    if e.order == id {
      assert OfOrder(t.refunds + [e], id) == own + [e];
      assert Amounts(own + [e]) == Amounts(own) + [e.amount];
      ReversalsSnoc(Amounts(own), e.amount, fee);
    } else {
      assert OfOrder(t.refunds + [e], id) == own;
    }
  }

  lemma ExplainedStill(t: Transaction, e: RefundEntry, key: StripeKey)
    ensures Explained(t, key) || key == ReversalKey(e) ==> Explained(Recorded(t, e), key)
  {
    var t' := Recorded(t, e);
    assert t'.refunds[|t.refunds|] == e;
    if Explained(t, key) {
      var j :| 0 <= j < |t.refunds| && ReversalKey(t.refunds[j]) == key;
      assert t'.refunds[j] == t.refunds[j];
    }
  }

  lemma FreshReversal(b: Books, e: RefundEntry)
    requires ReversalsRecorded(b) && forall i :: 0 <= i < |b.t.refunds| ==> !SameClaim(b.t.refunds[i], e)
    ensures AmountUnder(b.stripe.reversals, ReversalKey(e)).None?
  {
    forall k | 0 <= k < |b.stripe.reversals|
      ensures b.stripe.reversals[k].key != ReversalKey(e)
    {
      assert Explained(b.t, b.stripe.reversals[k].key);
      var j :| 0 <= j < |b.t.refunds| && ReversalKey(b.t.refunds[j]) == b.stripe.reversals[k].key;
      if ReversalKey(b.t.refunds[j]) == ReversalKey(e) {
        SameKeySameClaim(b.t.refunds[j], e);
      }
    }
  }

  lemma PayReverses(b: Books, e: RefundEntry, o: Order, paidFee: real, answer: Answer, id: OrderId, fee: real)
    requires ReversalsRecorded(b) && SharesReversed(b, id, fee) && !answer.DoneButLost?
    requires forall i :: 0 <= i < |b.t.refunds| ==> !SameClaim(b.t.refunds[i], e)
    requires e.request.Some? ==> e.request.value.order == e.order
    requires e.order == id ==>
               paidFee == fee && !IsBuyNow(b.t, o) && WasTransferred(b.t, id) && (answer.Done? ==> answer.reversed)
    ensures var after := Pay(b, e, o, paidFee, answer).0;
            ReversalsRecorded(after) && SharesReversed(after, id, fee) && after.t.transfers == b.t.transfers
               && after.t.mode == b.t.mode
  {
    hide Sum, Reversals, OfOrder, ReversedFor, CalculatePaymentSplit;
    var after := Pay(b, e, o, paidFee, answer).0;
    if after.t != b.t {
      FreshReversal(b, e);
      OfOrderMore(b.t, e, id, fee);
      var share := CalculatePaymentSplit(e.amount, paidFee).transfer;
      assert 0 <= share by { ShareNotNegative(e.amount, paidFee); }
      ReversedForSnoc(b.stripe.reversals, Movement(ReversalKey(e), share), id);
      forall k | 0 <= k < |after.stripe.reversals|
        ensures Explained(after.t, after.stripe.reversals[k].key)
      {
        ExplainedStill(b.t, e, after.stripe.reversals[k].key);
      }
    }
  }

  lemma ShareNotNegative(amount: Cents, fee: real)
    ensures 0 <= CalculatePaymentSplit(amount, fee).transfer
  {
  }

  lemma AttemptReverses(b: Books, orders: map<OrderId, Order>, r: Refund, id: OrderId, fee: real)
    requires LedgerOk(b) && ReversalsRecorded(b) && SharesReversed(b, id, fee) && InFull(r, id, fee)
    requires id in orders && orders[id].session.None? && b.t.mode == Cart && WasTransferred(b.t, id)
    ensures var after := Attempt(b, orders, r).0;
            ReversalsRecorded(after) && SharesReversed(after, id, fee) && after.t.mode == Cart
               && WasTransferred(after.t, id)
  {
    hide Pay, SharesReversed, ReversalsRecorded, OrderAmount, Refundeds, RefundedOf;
    if OrderOf(r) in orders {
      var o := orders[OrderOf(r)];
      match r
      case ForReturn(request, usd, amount, paidFee, answer) =>
        if !HasReturn(b.t, request) {
          PayReverses(b, RefundEntry(request.order, Some(request), amount, usd), o, paidFee, answer, id, fee);
        }
      case ForOrder(order, paidFee, answer) =>
        if !HasCancellation(b.t, order) {
          PayReverses(b, CancellationEntry(b.t, order, o), o, paidFee, answer, id, fee);
        }
    }
  }

  /**
   Over any run of refunds of a paid-out cart, the seller of an order gives back exactly the share of each of
   its refunds.
   */
  lemma {:induction false} SellerGivesBackShares(b: Books, orders: map<OrderId, Order>, rs: seq<Refund>, id: OrderId,
                                                 fee: real)
    requires LedgerOk(b) && ReversalsRecorded(b) && SharesReversed(b, id, fee)
    requires id in orders && orders[id].session.None? && b.t.mode == Cart && WasTransferred(b.t, id)
    requires forall i :: 0 <= i < |rs| ==> InFull(rs[i], id, fee)
    ensures var after := RefundAll(b, orders, rs);
            ReversalsRecorded(after) && SharesReversed(after, id, fee) && after.t.mode == Cart
               && WasTransferred(after.t, id)
  {
    hide SharesReversed, ReversalsRecorded, LedgerOk, Attempt;
    if rs != [] {
      var n := |rs| - 1;
      SellerGivesBackShares(b, orders, rs[..n], id, fee);
      OneEntryEach(b, orders, rs[..n]);
      AttemptReverses(RefundAll(b, orders, rs[..n]), orders, rs[n], id, fee);
    }
  }

  // ----- With lost answers and failed reversals -----

  /** The refund that a reversal goes with. */
  function RefundBehind(key: StripeKey): StripeKey {
    match key
    case ReturnReversal(request) => ReturnRefund(request)
    case OrderReversal(id) => OrderRefund(id)
    case _ => key
  }

  function RefundOrderOf(key: StripeKey): Option<OrderId> {
    match key
    case ReturnRefund(request) => Some(request.order)
    case OrderRefund(id) => Some(id)
    case _ => None
  }

  /** The keys under which Stripe refunded something of an order. */
  function RefundKeys(book: seq<Movement>, id: OrderId): seq<StripeKey> {
    if book == [] then []
    else
      var n := |book| - 1;
      RefundKeys(book[..n], id) + if RefundOrderOf(book[n].key) == Some(id) then [book[n].key] else []
  }

  /** The refunds whose share was taken back from the seller of an order. */
  function ReversedKeys(book: seq<Movement>, id: OrderId): seq<StripeKey> {
    if book == [] then []
    else
      var n := |book| - 1;
      ReversedKeys(book[..n], id) + if ReversalOrder(book[n].key) == Some(id) then [RefundBehind(book[n].key)] else []
  }

  /** What Stripe refunded of an order, recorded or not. */
  function RefundsFor(book: seq<Movement>, id: OrderId): seq<Cents> {
    if book == [] then []
    else
      var n := |book| - 1;
      RefundsFor(book[..n], id) + if RefundOrderOf(book[n].key) == Some(id) then [book[n].amount] else []
  }

  /** The seller's share of what was refunded under a key. */
  function ShareUnder(book: seq<Movement>, fee: real): StripeKey -> Cents {
    (key: StripeKey) =>
      CalculatePaymentSplit(match AmountUnder(book, key) case Some(a) => a case None => 0, fee).transfer
  }

  /** Every reversal of the order goes with a refund that Stripe made, and is its share. */
  ghost predicate EachBacked(refunds: seq<Movement>, reversals: seq<Movement>, id: OrderId, fee: real) {
    forall k :: 0 <= k < |reversals| && ReversalOrder(reversals[k].key) == Some(id) ==>
      && AmountUnder(refunds, RefundBehind(reversals[k].key)).Some?
      && reversals[k].amount == ShareUnder(refunds, fee)(RefundBehind(reversals[k].key))
  }

  ghost predicate Backed(b: Books, id: OrderId, fee: real) {
    && DistinctKeys(b.stripe.refunds) && DistinctKeys(b.stripe.reversals)
    && EachBacked(b.stripe.refunds, b.stripe.reversals, id, fee)
  }

  lemma StillBacked(refunds: seq<Movement>, reversals: seq<Movement>, key: StripeKey, amount: Cents, id: OrderId,
                    fee: real)
    requires EachBacked(refunds, reversals, id, fee) && Create(refunds, key, amount).Success?
    ensures EachBacked(Create(refunds, key, amount).value, reversals, id, fee)
  {
    KnownStays(refunds, key, amount);
    hide AmountUnder, CalculatePaymentSplit, Create;
  }

  lemma OneMoreBacked(refunds: seq<Movement>, reversals: seq<Movement>, e: RefundEntry, id: OrderId, fee: real)
    requires EachBacked(refunds, reversals, id, fee) && AmountUnder(refunds, RefundKey(e)) == Some(e.amount)
    ensures EachBacked(refunds, reversals + [Movement(ReversalKey(e), CalculatePaymentSplit(e.amount, fee).transfer)],
                       id, fee)
  {
    assert RefundBehind(ReversalKey(e)) == RefundKey(e);
    hide AmountUnder, CalculatePaymentSplit;
  }

  lemma ReversalBacks(b: Books, refunds: seq<Movement>, e: RefundEntry, o: Order, paidFee: real, up: bool, id: OrderId,
                      fee: real)
    requires DistinctKeys(b.stripe.reversals) && EachBacked(refunds, b.stripe.reversals, id, fee)
    requires AmountUnder(refunds, RefundKey(e)) == Some(e.amount) && (e.order == id ==> paidFee == fee)
    requires e.request.Some? ==> e.request.value.order == e.order
    ensures DistinctKeys(Reversed(b, e, o, paidFee, up)) && EachBacked(refunds, Reversed(b, e, o, paidFee, up), id, fee)
  {
    var share := CalculatePaymentSplit(e.amount, paidFee).transfer;
    if Create(b.stripe.reversals, ReversalKey(e), share).Success? {
      CreateKeepsKeys(b.stripe.reversals, ReversalKey(e), share);
      if e.order == id {
        OneMoreBacked(refunds, b.stripe.reversals, e, id, fee);
      } else {
        OthersBacked(refunds, b.stripe.reversals, Movement(ReversalKey(e), share), id, fee);
      }
    }
    hide DistinctKeys, AmountUnder, EachBacked, CalculatePaymentSplit, WasTransferred, IsBuyNow;
  }

  lemma PayBacks(b: Books, e: RefundEntry, o: Order, paidFee: real, answer: Answer, id: OrderId, fee: real)
    requires Backed(b, id, fee) && (e.request.Some? ==> e.request.value.order == e.order)
    requires e.order == id ==> paidFee == fee
    ensures Backed(Pay(b, e, o, paidFee, answer).0, id, fee)
  {
    var created := Create(b.stripe.refunds, RefundKey(e), e.amount);
    if created.Success? && !answer.Refuses? {
      CreateKeepsKeys(b.stripe.refunds, RefundKey(e), e.amount);
      KnownStays(b.stripe.refunds, RefundKey(e), e.amount);
      StillBacked(b.stripe.refunds, b.stripe.reversals, RefundKey(e), e.amount, id, fee);
      hide DistinctKeys, AmountUnder, EachBacked, Create, Reversed, Recorded;
      ReversalBacks(b, created.value, e, o, paidFee, answer.reversed, id, fee);
    }
  }

  lemma OthersBacked(refunds: seq<Movement>, reversals: seq<Movement>, m: Movement, id: OrderId, fee: real)
    requires EachBacked(refunds, reversals, id, fee) && ReversalOrder(m.key) != Some(id)
    ensures EachBacked(refunds, reversals + [m], id, fee)
  {
    hide AmountUnder, CalculatePaymentSplit;
  }

  lemma KnownStays(book: seq<Movement>, key: StripeKey, amount: Cents)
    requires Create(book, key, amount).Success?
    ensures var more := Create(book, key, amount).value;
            AmountUnder(more, key) == Some(amount)
            && forall k :: AmountUnder(book, k).Some? ==> AmountUnder(more, k) == AmountUnder(book, k)
  {
    var more := Create(book, key, amount).value;
    if more != book {
      assert more[..|book|] == book;
    }
  }

  lemma AttemptBacks(b: Books, orders: map<OrderId, Order>, r: Refund, id: OrderId, fee: real)
    requires Backed(b, id, fee) && (OrderOf(r) == id ==> r.fee == fee)
    ensures Backed(Attempt(b, orders, r).0, id, fee)
  {
    hide Pay, Backed, OrderAmount, Refundeds, RefundedOf;
    if OrderOf(r) in orders {
      var o := orders[OrderOf(r)];
      match r
      case ForReturn(request, usd, amount, paidFee, answer) =>
        PayBacks(b, RefundEntry(request.order, Some(request), amount, usd), o, paidFee, answer, id, fee);
      case ForOrder(order, paidFee, answer) =>
        PayBacks(b, CancellationEntry(b.t, order, o), o, paidFee, answer, id, fee);
    }
  }

  lemma {:induction false} RunBacks(b: Books, orders: map<OrderId, Order>, rs: seq<Refund>, id: OrderId, fee: real)
    requires Backed(b, id, fee) && forall i :: 0 <= i < |rs| && OrderOf(rs[i]) == id ==> rs[i].fee == fee
    ensures Backed(RefundAll(b, orders, rs), id, fee)
  {
    hide Backed, Attempt;
    if rs != [] {
      var n := |rs| - 1;
      RunBacks(b, orders, rs[..n], id, fee);
      AttemptBacks(RefundAll(b, orders, rs[..n]), orders, rs[n], id, fee);
    }
  }

  lemma {:induction false} KnownAmount(book: seq<Movement>, k: nat)
    requires DistinctKeys(book) && k < |book|
    ensures AmountUnder(book, book[k].key) == Some(book[k].amount)
  {
    if k < |book| - 1 {
      KnownAmount(book[..|book| - 1], k);
    }
  }

  lemma {:induction false} SharesAdd(book: seq<Movement>, n: nat, id: OrderId, fee: real)
    requires DistinctKeys(book) && n <= |book|
    ensures Sum(Reversals(RefundsFor(book[..n], id), fee)) == SumOver(RefundKeys(book[..n], id), ShareUnder(book, fee))
  {
    if n == 0 {
      assert Reversals([], fee) == [];
    } else {
      SharesAdd(book, n - 1, id, fee);
      assert book[..n][..n - 1] == book[..n - 1];
      var m := book[n - 1];
      KnownAmount(book, n - 1);
      var before, keys := RefundsFor(book[..n - 1], id), RefundKeys(book[..n - 1], id);
      hide CalculatePaymentSplit, Reversals, Sum, SumOver, AmountUnder, DistinctKeys;
      ReversalsSnoc(before, m.amount, fee);
      SumOverSnoc(keys, m.key, ShareUnder(book, fee));
      assert before + [] == before && keys + [] == keys;
    }
  }

  lemma {:induction false} RefundKeysAre(book: seq<Movement>, id: OrderId)
    requires DistinctKeys(book)
    ensures NoRepeats(RefundKeys(book, id))
    ensures forall key :: key in RefundKeys(book, id) <==>
              RefundOrderOf(key) == Some(id) && exists k :: 0 <= k < |book| && book[k].key == key
  {
    if book != [] {
      var n := |book| - 1;
      RefundKeysAre(book[..n], id);
      var keys := RefundKeys(book[..n], id);
      assert forall k :: 0 <= k < n ==> book[..n][k] == book[k];
      assert keys + [] == keys;
      if RefundOrderOf(book[n].key) == Some(id) {
        NoRepeatsSnoc(keys, book[n].key);
      }
      hide NoRepeats, RefundOrderOf;
    }
  }

  lemma {:induction false} ReversalsAdd(refunds: seq<Movement>, book: seq<Movement>, id: OrderId, fee: real)
    requires EachBacked(refunds, book, id, fee)
    ensures Sum(ReversedFor(book, id)) == SumOver(ReversedKeys(book, id), ShareUnder(refunds, fee))
  {
    hide CalculatePaymentSplit, AmountUnder;
    if book != [] {
      var n := |book| - 1;
      ReversalsAdd(refunds, book[..n], id, fee);
      var m := book[n];
      var before, keys := ReversedFor(book[..n], id), ReversedKeys(book[..n], id);
      SumSnoc(before, m.amount);
      SumOverSnoc(keys, RefundBehind(m.key), ShareUnder(refunds, fee));
      assert before + [] == before && keys + [] == keys;
    }
  }

  lemma {:induction false} ReversedKeysAre(book: seq<Movement>, id: OrderId)
    requires DistinctKeys(book)
    ensures NoRepeats(ReversedKeys(book, id))
    ensures forall key :: key in ReversedKeys(book, id) ==>
              exists k :: 0 <= k < |book| && ReversalOrder(book[k].key) == Some(id) && RefundBehind(book[k].key) == key
  {
    if book != [] {
      var n := |book| - 1;
      ReversedKeysAre(book[..n], id);
      var keys := ReversedKeys(book[..n], id);
      if ReversalOrder(book[n].key) == Some(id) {
        forall key | key in keys
          ensures key != RefundBehind(book[n].key)
        {
          var k :| 0 <= k < n && ReversalOrder(book[..n][k].key) == Some(id) && RefundBehind(book[..n][k].key) == key;
          assert book[k].key != book[n].key;
        }
        NoRepeatsSnoc(keys, RefundBehind(book[n].key));
      } else {
        assert keys + [] == keys;
      }
      forall key | key in ReversedKeys(book, id)
        ensures exists k :: 0 <= k < |book| && ReversalOrder(book[k].key) == Some(id)
                            && RefundBehind(book[k].key) == key
      {
        if key in keys {
          var k :| 0 <= k < n && ReversalOrder(book[..n][k].key) == Some(id) && RefundBehind(book[..n][k].key) == key;
          assert book[k] == book[..n][k];
        } else {
          assert RefundBehind(book[n].key) == key;
        }
      }
    }
  }

  /** The refunds whose share was taken back are among those that Stripe made. */
  lemma ReversedAmongRefunds(b: Books, id: OrderId, fee: real)
    requires Backed(b, id, fee)
    ensures var some, all := ReversedKeys(b.stripe.reversals, id), RefundKeys(b.stripe.refunds, id);
            NoRepeats(some) && NoRepeats(all) && forall key :: key in some ==> key in all
  {
    var refunds, reversals := b.stripe.refunds, b.stripe.reversals;
    ReversedKeysAre(reversals, id);
    RefundKeysAre(refunds, id);
    hide ReversedKeys, RefundKeys, CalculatePaymentSplit, SumOver, Sum;
    forall key | key in ReversedKeys(reversals, id)
      ensures key in RefundKeys(refunds, id)
    {
      var k :| 0 <= k < |reversals| && ReversalOrder(reversals[k].key) == Some(id)
               && RefundBehind(reversals[k].key) == key;
      assert AmountUnder(refunds, key).Some?;
    }
  }

  /**
   Over any run of refunds, answers lost and reversals failing wherever they may, the seller of an order gives back
   no more than the shares of what Stripe refunded of it, recorded or not.
   */
  lemma SellerGivesBackAtMostShares(b: Books, orders: map<OrderId, Order>, rs: seq<Refund>, id: OrderId, fee: real)
    requires Backed(b, id, fee) && forall i :: 0 <= i < |rs| && OrderOf(rs[i]) == id ==> rs[i].fee == fee
    ensures var after := RefundAll(b, orders, rs);
            Sum(ReversedFor(after.stripe.reversals, id)) <= Sum(Reversals(RefundsFor(after.stripe.refunds, id), fee))
  {
    RunBacks(b, orders, rs, id, fee);
    var after := RefundAll(b, orders, rs);
    var reversals, refunds := after.stripe.reversals, after.stripe.refunds;
    assert refunds[..|refunds|] == refunds;
    SharesAdd(refunds, |refunds|, id, fee);
    ReversalsAdd(refunds, reversals, id, fee);
    ReversedAmongRefunds(after, id, fee);
    hide CalculatePaymentSplit, RefundAll, ReversedKeys, RefundKeys, NoRepeats;
    var some, all := ReversedKeys(reversals, id), RefundKeys(refunds, id);
    forall key | key in all && key !in some
      ensures 0 <= ShareUnder(refunds, fee)(key)
    {
      ShareNotNegative(match AmountUnder(refunds, key) case Some(a) => a case None => 0, fee);
    }
    SubSum(some, all, ShareUnder(refunds, fee));
  }

  /**
   So while Stripe refunds no more of an order than its amount, the seller gives back at most the transfer received,
   plus half a cent a refund and a half.
   */
  lemma SellerGivesBackAtMostTransfer(b: Books, orders: map<OrderId, Order>, rs: seq<Refund>, id: OrderId, fee: real,
                                      amount: Cents)
    requires Backed(b, id, fee) && Percentage(fee)
    requires forall i :: 0 <= i < |rs| && OrderOf(rs[i]) == id ==> rs[i].fee == fee
    requires var refunds := RefundsFor(RefundAll(b, orders, rs).stripe.refunds, id);
             Sum(refunds) <= amount && forall i :: 0 <= i < |refunds| ==> 0 <= refunds[i]
    ensures var after := RefundAll(b, orders, rs);
            Sum(ReversedFor(after.stripe.reversals, id)) as real
            <= CalculatePaymentSplit(amount, fee).transfer as real
               + (|RefundsFor(after.stripe.refunds, id)| + 1) as real / 2.0
  {
    SellerGivesBackAtMostShares(b, orders, rs, id, fee);
    hide RefundAll, ReversedFor, RefundsFor, CalculatePaymentSplit, Backed;
    ReversalBound(amount, RefundsFor(RefundAll(b, orders, rs).stripe.refunds, id), fee);
  }
}
