/** Returns: what creating and updating one does to the rows and payments, and what any sequence of these keeps. */
module Returns {
  import opened Wrappers
  import opened Money
  import opened SellerFees
  import opened Domain
  import opened OrderSteps
  import opened Payments
  import opened Refunds
  import opened ProtocolInvariant
  import Currency

  /** What an update asks for; whether a rejection reason and a return address came with it. */
  datatype ReturnUpdate = ReturnUpdate(status: ReturnStatus, amount: Option<real>, hasReason: bool, hasAddress: bool)

  datatype ReturnError =
    | NoSuchItem | NoSuchReturn | NotYours | NotDelivered | AlreadyRequested
    | InvalidTransition | ReasonRequired | AddressRequired | AmountNotPositive | AskTheBank | RefundFailed

  function ValidateUpdate(current: ReturnStatus, update: ReturnUpdate): Option<ReturnError> {
    if update.status !in ReturnTransitions(current) then Some(InvalidTransition)
    else if update.status == ReturnStatus.Rejected && !update.hasReason then Some(ReasonRequired)
    else if update.status in {Approved, InProgress} && !update.hasAddress then Some(AddressRequired)
    else if update.status == Completed && update.amount.Some? && update.amount.value <= 0.0 then Some(AmountNotPositive)
    else None
  }

  function CreateProblem(db: Db, user: UserId, key: ItemKey): Option<ReturnError> {
    if key.order !in db.orders || key.index >= |db.orders[key.order].items| then Some(NoSuchItem)
    else if db.orders[key.order].buyer != user then Some(NotYours)
    else if db.orders[key.order].status != Delivered then Some(NotDelivered)
    else if key in db.returnRequests then Some(AlreadyRequested)
    else None
  }

  function WithReturn(db: Db, key: ItemKey, row: ReturnRequest): Db {
    db.(returnRequests := db.returnRequests[key := row])
  }

  function Written(db: Db, key: ItemKey, update: ReturnUpdate, refund: Option<MoneyBack>, now: Time): Db
    requires key in db.returnRequests
  {
    WithReturn(db, key, UpdatedReturn(db.returnRequests[key], update.status, refund, update.amount, now))
  }

  function EarningsReduced(db: Db, id: OrderId, refund: Option<MoneyBack>): Db {
    if refund.Some? && !refund.value.already && refund.value.usd != 0.0 && id in db.orders
       && db.orders[id].sellerNet.Some?
    then
      var o := db.orders[id];
      db.(orders := db.orders[id := o.(sellerNet := Some(EarningsAfter(o, refund.value.usd)))])
    else db
  }

  function MarkedIfFullyReturned(db: Db, id: OrderId): Db {
    if id in db.orders && FullyReturned(db, id) && db.orders[id].status != Refunded
    then db.(orders := db.orders[id := db.orders[id].(status := Refunded)])
    else db
  }

  /** An update that went through: the return is written, the seller's earnings reduced, the order marked. */
  function ReturnUpdated(db: Db, key: ItemKey, update: ReturnUpdate, refund: Option<MoneyBack>, now: Time): Db
    requires key in db.returnRequests
  {
    MarkedIfFullyReturned(EarningsReduced(Written(db, key, update, refund, now), key.order, refund), key.order)
  }

  // ----- Refunding a completed return -----

  /** The item's price, the exchange rates, the seller's fee and how Stripe answers while an update runs. */
  datatype Context = Context(price: real, rates: Currency.UsableRates, fee: real, answer: Answer)

  /** A refund is made exactly when a return that was not refunded before is completed. */
  predicate PaysBack(row: ReturnRequest, update: ReturnUpdate) {
    update.status == Completed && row.refundedAt.None?
  }

  /** What an update reports of a refund by Stripe; one that is already on record is reported as recorded. */
  function AsMoneyBack(book: CardBook, i: nat, key: ItemKey, usd: real, r: Result<RefundResult, RefundError>)
    : Result<MoneyBack, ReturnError>
    requires i < |book.ts|
  {
    match r
    case Failure(_) => Failure(ReturnError.RefundFailed)
    case Success(GivenBack(cents)) => Success(MoneyBack(cents as real, usd, false))
    case Success(_) =>
      var before := ReturnEntry(book.ts[i].refunds, key);
      var amount := if before.Some? then before.value.amount as real else usd;
      Success(MoneyBack(amount, amount, true))
  }

  /**
   The refund of a completed return. A financed order is refunded by the bank, which only an admin can confirm; a
   card payment is refunded through Stripe.
   */
  function GiveBack(book: CardBook, o: Order, key: ItemKey, byAdmin: bool, requested: Option<real>, c: Context)
    : (r: (CardBook, Result<MoneyBack, ReturnError>))
    requires Matching(book)
    ensures Matching(r.0) && |r.0.ts| == |book.ts|
  {
    match FindPaid(book.ts, key.order, o.buyer)
    case None => (book, Failure(ReturnError.RefundFailed))
    case Some(i) =>
      if book.ts[i].provider == TbiCredit then
        var usd := if requested.Some? then requested.value else c.price;
        (book, if byAdmin then Success(MoneyBack(usd, usd, false)) else Failure(AskTheBank))
      else
        var usd := ReturnAmount(requested, c.price, o.total);
        var amount := Currency.Convert(usd, Currency.USD, book.ts[i].currency, c.rates);
        var (after, r) := RefundReturn(BooksAt(book, i), key, o, usd, amount, c.fee, c.answer);
        (WithBooks(book, i, after), AsMoneyBack(book, i, key, usd, r))
  }

  function UpdateProblem(db: Db, key: ItemKey, seller: Option<UserId>, update: ReturnUpdate): Option<ReturnError> {
    if key !in db.returnRequests || key.order !in db.orders then Some(NoSuchReturn)
    else if seller.Some? && db.orders[key.order].seller != seller.value then Some(NotYours)
    else ValidateUpdate(db.returnRequests[key].status, update)
  }

  /** An update up to its refund: what is refused, and what was given back. */
  function Decide(db: Db, book: CardBook, key: ItemKey, seller: Option<UserId>, update: ReturnUpdate, c: Context)
    : (r: (CardBook, Result<Option<MoneyBack>, ReturnError>))
    requires Matching(book)
    ensures Matching(r.0) && |r.0.ts| == |book.ts|
  {
    var problem := UpdateProblem(db, key, seller, update);
    if problem.Some? then (book, Failure(problem.value))
    else if !PaysBack(db.returnRequests[key], update) then (book, Success(None))
    else
      var (after, r) := GiveBack(book, db.orders[key.order], key, seller.None?, update.amount, c);
      (after, match r case Success(m) => Success(Some(m)) case Failure(e) => Failure(e))
  }

  // ----- What is accepted, given back and written -----

  /** A buyer asks for an item of an own order that was delivered, once. */
  lemma CreatedIff(db: Db, user: UserId, key: ItemKey)
    ensures CreateProblem(db, user, key).None?
            <==> && key.order in db.orders && key.index < |db.orders[key.order].items|
                 && db.orders[key.order].buyer == user && db.orders[key.order].status == Delivered
                 && key !in db.returnRequests
  {
  }

  /**
   An update is accepted from the order's seller or an admin, forward to a later status but not from the request
   straight to completion, with a reason for a rejection, an address to send the item to, and no amount of nothing.
   */
  lemma ChangedIff(db: Db, key: ItemKey, seller: Option<UserId>, update: ReturnUpdate)
    ensures UpdateProblem(db, key, seller, update).None?
            <==> && key in db.returnRequests && key.order in db.orders
                 && (seller.Some? ==> db.orders[key.order].seller == seller.value)
                 && var from := db.returnRequests[key].status;
                    && ReturnRank(from) < ReturnRank(update.status)
                    && (from == Requested ==> update.status != Completed)
                    && (update.status == ReturnStatus.Rejected ==> update.hasReason)
                    && (update.status in {Approved, InProgress} ==> update.hasAddress)
                    && (update.status == Completed && update.amount.Some? ==> 0.0 < update.amount.value)
  {
  }

  /** An update of a return that was refunded before, or that does not complete it, gives nothing back. */
  lemma GivesBackOnce(db: Db, book: CardBook, key: ItemKey, seller: Option<UserId>, update: ReturnUpdate, c: Context)
    requires Matching(book) && key in db.returnRequests
    requires db.returnRequests[key].refundedAt.Some? || update.status != Completed
    ensures var (after, r) := Decide(db, book, key, seller, update, c);
            after == book && (r.Success? ==> r.value.None?)
  {
    hide ValidateUpdate, GiveBack;
  }

  lemma {:induction false} FoundEntry(refunds: seq<RefundEntry>, key: ItemKey)
    requires exists i :: 0 <= i < |refunds| && refunds[i].request == Some(key)
    ensures ReturnEntry(refunds, key).Some?
    ensures exists k :: 0 <= k < |refunds| && refunds[k].request == Some(key)
                        && ReturnEntry(refunds, key).value == refunds[k]
  {
    if refunds[0].request != Some(key) {
      var i :| 0 <= i < |refunds| && refunds[i].request == Some(key);
      assert refunds[1..][i - 1] == refunds[i];
      FoundEntry(refunds[1..], key);
      var k :| 0 <= k < |refunds[1..]| && refunds[1..][k].request == Some(key)
               && ReturnEntry(refunds[1..], key).value == refunds[1..][k];
      assert refunds[k + 1] == refunds[1..][k];
    }
  }

  /**
   What completing a return gives back. The bank gives back what was asked for or else the price, and only an admin
   says so; a card payment gives back the dollars due, in its own currency and on its ledger, or what is on record.
   */
  lemma GivesBackDue(book: CardBook, o: Order, key: ItemKey, byAdmin: bool, requested: Option<real>, c: Context)
    requires Matching(book) && GiveBack(book, o, key, byAdmin, requested, c).1.Success?
    ensures var (after, r) := GiveBack(book, o, key, byAdmin, requested, c);
            var found := FindPaid(book.ts, key.order, o.buyer);
            && found.Some?
            && var t, m := book.ts[found.value], r.value;
               if t.provider == TbiCredit then
                 && byAdmin && after == book && !m.already && m.amount == m.usd
                 && m.usd == if requested.Some? then requested.value else c.price
               else if m.already then
                 && after == book && HasReturn(t, key)
                 && exists k :: 0 <= k < |t.refunds| && t.refunds[k].request == Some(key)
                                && m.amount == m.usd == t.refunds[k].amount as real
               else
                 && DollarsDue(m.usd, requested, c.price, o.total)
                 && m.amount == m.amount.Floor as real
                 && RefundedAsDue(t, after.ts[found.value], key, requested, c.price, o.total, c.rates[t.currency],
                                  m.amount.Floor)
  {
    var found := FindPaid(book.ts, key.order, o.buyer);
    var t := book.ts[found.value];
    if t.provider != TbiCredit {
      var b := BooksAt(book, found.value);
      var usd := ReturnAmount(requested, c.price, o.total);
      var amount := Currency.Convert(usd, Currency.USD, t.currency, c.rates);
      ReturnGivesDue(b, key, o, requested, c.price, c.rates, c.fee, c.answer);
      RefundedReturn(b, key, o, usd, amount, c.fee, c.answer);
      SameBooks(book, found.value);
      var r := RefundReturn(b, key, o, usd, amount, c.fee, c.answer).1;
      if r.value.AlreadyRefunded? {
        FoundEntry(t.refunds, key);
      } else {
        assert (r.value.amount as real).Floor == r.value.amount;
      }
      hide RefundReturn, RefundedAsDue, DollarsDue, FindPaid, ReturnAmount, Currency.Convert, ReturnEntry, HasReturn;
    }
  }

  // ----- Any sequence of requests -----

  /** A request that dies writes no more after its refund, after its return, or after the seller's earnings. */
  datatype Fate = Finishes | DiesRefunded | DiesWritten | DiesReduced

  /** `Meanwhile` is what everybody else does to the orders between two requests. */
  datatype Request =
    | Create(user: UserId, key: ItemKey)
    | Change(key: ItemKey, seller: Option<UserId>, update: ReturnUpdate, c: Context, now: Time, fate: Fate)
    | Meanwhile(orders: map<OrderId, Order>)

  datatype World = World(db: Db, book: CardBook)

  /** The rows after an update that was accepted and, if it had to, refunded. */
  function UpdatedRows(db: Db, key: ItemKey, update: ReturnUpdate, refund: Option<MoneyBack>, now: Time, fate: Fate): Db
    requires key in db.returnRequests
  {
    match fate
    case Finishes => ReturnUpdated(db, key, update, refund, now)
    case DiesRefunded => db
    case DiesWritten => Written(db, key, update, refund, now)
    case DiesReduced => EarningsReduced(Written(db, key, update, refund, now), key.order, refund)
  }

  /**
   What was sold and its fee stay, and so does what the seller of a settled order nets; orders with a return stay
   delivered or refunded.
   */
  ghost predicate Elsewhere(before: Db, after: map<OrderId, Order>) {
    && (forall id :: id in before.orders ==>
          && id in after && SameSale(before.orders[id], after[id])
          && (before.orders[id].feePercent.Some? ==> after[id].feePercent == before.orders[id].feePercent)
          && (before.orders[id].status != Pending ==>
                after[id].status != Pending && after[id].sellerNet == before.orders[id].sellerNet))
    && forall key :: key in before.returnRequests && key.order in before.orders ==>
         before.orders[key.order].status in {Delivered, Refunded} ==> after[key.order].status in {Delivered, Refunded}
  }

  ghost function Handle(w: World, r: Request): (after: World)
    requires Matching(w.book)
    ensures Matching(after.book) && |after.book.ts| == |w.book.ts|
  {
    match r
    case Create(user, key) =>
      if CreateProblem(w.db, user, key).Some? then w
      else w.(db := WithReturn(w.db, key, ReturnRequest(Requested, None, None)))
    case Change(key, seller, update, c, now, fate) =>
      var (book, refund) := Decide(w.db, w.book, key, seller, update, c);
      World(if refund.Success? then UpdatedRows(w.db, key, update, refund.value, now, fate) else w.db, book)
    case Meanwhile(orders) => if Elsewhere(w.db, orders) then w.(db := w.db.(orders := orders)) else w
  }

  ghost function HandleAll(w: World, rs: seq<Request>): (after: World)
    requires Matching(w.book)
    ensures Matching(after.book) && |after.book.ts| == |w.book.ts|
  {
    if rs == [] then w else Handle(HandleAll(w, rs[..|rs| - 1]), rs[|rs| - 1])
  }

  predicate Final(status: ReturnStatus) {
    status == Completed || status == ReturnStatus.Rejected
  }

  /** A return is completed exactly when it was refunded, and belongs to an item of a delivered order. */
  ghost predicate ReturnOk(db: Db, key: ItemKey)
    requires key in db.returnRequests
  {
    && (db.returnRequests[key].status == Completed <==> db.returnRequests[key].refundedAt.Some?)
    && key.order in db.orders && key.index < |db.orders[key.order].items|
    && db.orders[key.order].status in {Delivered, Refunded}
  }

  ghost predicate ReturnsSound(db: Db) {
    forall key :: key in db.returnRequests ==> ReturnOk(db, key)
  }

  /** The order is refunded if all of its items were. */
  ghost predicate Marked(db: Db, id: OrderId) {
    id in db.orders && FullyReturned(db, id) ==> db.orders[id].status == Refunded
  }

  function ReturnRank(status: ReturnStatus): nat {
    match status
    case Requested => 0
    case Approved => 1
    case InProgress => 2
    case Completed => 3
    case Rejected => 3
  }

  /** Returns never disappear; a final one never changes, any other only moves forward. */
  ghost predicate ReturnsAdvance(a: Db, b: Db) {
    && (forall id :: id in a.orders ==> id in b.orders)
    && forall key :: key in a.returnRequests ==>
         && key in b.returnRequests
         && (Final(a.returnRequests[key].status) ==> b.returnRequests[key] == a.returnRequests[key])
         && (b.returnRequests[key] == a.returnRequests[key]
             || ReturnRank(a.returnRequests[key].status) < ReturnRank(b.returnRequests[key].status))
  }

  /** A request leaves the mark of an order alone: it finishes, and it does not take a refunded order back. */
  predicate KeepsMark(w: World, r: Request, id: OrderId) {
    match r
    case Create(_, _) => true
    case Change(key, _, _, _, _, fate) => key.order == id ==> fate == Finishes
    case Meanwhile(orders) =>
      id in w.db.orders && id in orders && w.db.orders[id].status == Refunded ==> orders[id].status == Refunded
  }

  lemma FullyReturnedOnly(db: Db, db': Db, key: ItemKey, id: OrderId)
    requires id in db.orders && id in db'.orders && db'.orders[id].items == db.orders[id].items && id != key.order
    requires db'.returnRequests - {key} == db.returnRequests - {key}
    ensures FullyReturned(db', id) <==> FullyReturned(db, id)
  {
    forall i | 0 <= i < |db.orders[id].items|
      ensures ItemKey(id, i) in db'.returnRequests <==> ItemKey(id, i) in db.returnRequests
      ensures ItemKey(id, i) in db.returnRequests
              ==> db'.returnRequests[ItemKey(id, i)] == db.returnRequests[ItemKey(id, i)]
    {
      var k := ItemKey(id, i);
      assert k in db.returnRequests - {key} <==> k in db.returnRequests;
      assert k in db'.returnRequests - {key} <==> k in db'.returnRequests;
      if k in db.returnRequests {
        assert (db'.returnRequests - {key})[k] == (db.returnRequests - {key})[k];
      }
    }
  }

  lemma CreateKeeps(w: World, user: UserId, key: ItemKey, id: OrderId)
    requires Matching(w.book) && ReturnsSound(w.db)
    ensures var w' := Handle(w, Create(user, key));
            ReturnsSound(w'.db) && ReturnsAdvance(w.db, w'.db) && (Marked(w.db, id) ==> Marked(w'.db, id))
  {
    var db, db' := w.db, Handle(w, Create(user, key)).db;
    if CreateProblem(db, user, key).None? {
      assert db'.returnRequests - {key} == db.returnRequests - {key};
      assert !FullyReturned(db', key.order) by {
        assert ItemKey(key.order, key.index) == key;
      }
      if id in db.orders && id != key.order {
        FullyReturnedOnly(db, db', key, id);
      }
    }
  }

  lemma WrittenKeeps(db: Db, key: ItemKey, update: ReturnUpdate, refund: Option<MoneyBack>, now: Time, id: OrderId)
    requires ReturnsSound(db) && key in db.returnRequests
    requires ValidateUpdate(db.returnRequests[key].status, update).None?
    requires refund.Some? <==> PaysBack(db.returnRequests[key], update)
    ensures var db' := Written(db, key, update, refund, now);
            && ReturnsSound(db') && ReturnsAdvance(db, db') && db'.orders == db.orders
            && (id != key.order && Marked(db, id) ==> Marked(db', id))
  {
    var db' := Written(db, key, update, refund, now);
    assert ReturnOk(db, key);
    assert db'.returnRequests - {key} == db.returnRequests - {key};
    if id in db.orders && id != key.order {
      FullyReturnedOnly(db, db', key, id);
    }
    forall k | k in db'.returnRequests
      ensures ReturnOk(db', k)
    {
      assert k != key ==> ReturnOk(db, k);
    }
  }

  /** Orders may change in other columns, and be marked as refunded, without disturbing a return or a mark. */
  lemma OrdersOnly(db: Db, db': Db, id: OrderId)
    requires ReturnsSound(db) && db' == db.(orders := db'.orders)
    requires forall x :: x in db.orders ==> x in db'.orders && db'.orders[x].items == db.orders[x].items
    requires forall key :: key in db.returnRequests && key.order in db.orders ==>
               db.orders[key.order].status in {Delivered, Refunded}
               ==> db'.orders[key.order].status in {Delivered, Refunded}
    ensures ReturnsSound(db') && ReturnsAdvance(db, db')
    ensures (id in db.orders && (db.orders[id].status == Refunded ==> db'.orders[id].status == Refunded)
             && Marked(db, id)) ==> Marked(db', id)
  {
    forall k | k in db'.returnRequests
      ensures ReturnOk(db', k)
    {
      assert ReturnOk(db, k);
    }
    if id in db.orders {
      assert FullyReturned(db', id) <==> FullyReturned(db, id);
    }
  }

  lemma AdvanceTwice(a: Db, b: Db, c: Db)
    requires ReturnsAdvance(a, b) && ReturnsAdvance(b, c)
    ensures ReturnsAdvance(a, c)
  {
    hide ReturnRank;
  }

  lemma EarningsOnly(db: Db, id: OrderId, refund: Option<MoneyBack>)
    ensures var db' := EarningsReduced(db, id, refund);
            && db' == db.(orders := db'.orders) && db'.orders.Keys == db.orders.Keys
            && forall x :: x in db.orders ==>
                 db'.orders[x].items == db.orders[x].items && db'.orders[x].status == db.orders[x].status
  {
    hide EarningsAfter;
  }

  lemma MarkingOnly(db: Db, id: OrderId)
    requires ReturnsSound(db)
    ensures var db' := MarkedIfFullyReturned(db, id);
            && db' == db.(orders := db'.orders) && db'.orders.Keys == db.orders.Keys
            && Marked(db', id)
            && forall x :: x in db.orders ==>
                 db'.orders[x].items == db.orders[x].items
                 && (db'.orders[x].status == db.orders[x].status || db'.orders[x].status == Refunded)
  {
    var db' := MarkedIfFullyReturned(db, id);
    if id in db.orders {
      assert FullyReturned(db', id) <==> FullyReturned(db, id);
    }
  }

  lemma ReducedKeeps(db: Db, key: ItemKey, refund: Option<MoneyBack>, id: OrderId)
    requires ReturnsSound(db)
    ensures var db' := EarningsReduced(db, key.order, refund);
            && ReturnsSound(db') && ReturnsAdvance(db, db') && (id in db.orders && Marked(db, id) ==> Marked(db', id))
  {
    EarningsOnly(db, key.order, refund);
    OrdersOnly(db, EarningsReduced(db, key.order, refund), id);
  }

  lemma MarkingKeeps(db: Db, at: OrderId, id: OrderId)
    requires ReturnsSound(db)
    ensures var db' := MarkedIfFullyReturned(db, at);
            && ReturnsSound(db') && ReturnsAdvance(db, db') && Marked(db', at)
            && (id in db.orders && Marked(db, id) ==> Marked(db', id))
  {
    MarkingOnly(db, at);
    OrdersOnly(db, MarkedIfFullyReturned(db, at), id);
  }

  lemma UpdatedRowsKeep(db: Db, key: ItemKey, update: ReturnUpdate, refund: Option<MoneyBack>, now: Time, fate: Fate,
                 id: OrderId)
    requires ReturnsSound(db) && key in db.returnRequests
    requires ValidateUpdate(db.returnRequests[key].status, update).None?
    requires refund.Some? <==> PaysBack(db.returnRequests[key], update)
    ensures var db' := UpdatedRows(db, key, update, refund, now, fate);
            && ReturnsSound(db') && ReturnsAdvance(db, db')
            && (id in db.orders && Marked(db, id) && (id != key.order || fate == Finishes) ==> Marked(db', id))
  {
    hide ValidateUpdate, Written, EarningsReduced, MarkedIfFullyReturned, Marked, ReturnsSound, ReturnsAdvance;
    WrittenKeeps(db, key, update, refund, now, id);
    var written := Written(db, key, update, refund, now);
    ReducedKeeps(written, key, refund, id);
    EarningsOnly(written, key.order, refund);
    var reduced := EarningsReduced(written, key.order, refund);
    MarkingKeeps(reduced, key.order, id);
    AdvanceTwice(db, written, reduced);
    AdvanceTwice(db, reduced, MarkedIfFullyReturned(reduced, key.order));
    NothingAdvances(db);
  }

  lemma NothingAdvances(db: Db)
    ensures ReturnsAdvance(db, db)
  {
  }

  lemma HandleKeeps(w: World, r: Request, id: OrderId)
    requires Matching(w.book) && ReturnsSound(w.db)
    ensures var w' := Handle(w, r);
            && ReturnsSound(w'.db) && ReturnsAdvance(w.db, w'.db)
            && (id in w.db.orders && KeepsMark(w, r, id) && Marked(w.db, id) ==> Marked(w'.db, id))
  {
    hide UpdatedRows, GiveBack, ValidateUpdate, Marked, ReturnsSound, ReturnsAdvance;
    NothingAdvances(w.db);
    match r
    case Create(user, key) => CreateKeeps(w, user, key, id);
    case Change(key, seller, update, c, now, fate) =>
      var refund := Decide(w.db, w.book, key, seller, update, c).1;
      if refund.Success? {
        UpdatedRowsKeep(w.db, key, update, refund.value, now, fate, id);
      }
    case Meanwhile(orders) =>
      if Elsewhere(w.db, orders) {
        OrdersOnly(w.db, w.db.(orders := orders), id);
      }
  }

  /**
   Over any sequence of requests, with anything else happening to the orders in between and each request dying
   where it may: a return is completed exactly when it was refunded, final returns never change, and an order with
   a return is delivered or refunded.
   */
  lemma {:induction false} ReturnLifecycle(w: World, rs: seq<Request>)
    requires Matching(w.book) && ReturnsSound(w.db)
    ensures ReturnsSound(HandleAll(w, rs).db) && ReturnsAdvance(w.db, HandleAll(w, rs).db)
  {
    hide ReturnsSound, ReturnsAdvance, Handle, Marked;
    NothingAdvances(w.db);
    if rs != [] {
      var n := |rs| - 1;
      ReturnLifecycle(w, rs[..n]);
      var before := HandleAll(w, rs[..n]);
      HandleKeeps(before, rs[n], 0);
      AdvanceTwice(w.db, before.db, HandleAll(w, rs).db);
    }
  }

  lemma OrdersRemain(a: Db, b: Db, id: OrderId)
    requires ReturnsAdvance(a, b) && id in a.orders
    ensures id in b.orders
  {
  }

  /**
   And an order all of whose items were refunded is itself refunded, as long as no request about it dies on the
   way and nobody takes it back from being refunded.
   */
  lemma {:induction false} FullyReturnedIsRefunded(w: World, rs: seq<Request>, id: OrderId)
    requires Matching(w.book) && ReturnsSound(w.db) && id in w.db.orders && Marked(w.db, id)
    requires forall k :: 0 <= k < |rs| ==> KeepsMark(HandleAll(w, rs[..k]), rs[k], id)
    ensures id in HandleAll(w, rs).db.orders && Marked(HandleAll(w, rs).db, id)
  {
    hide ReturnsSound, ReturnsAdvance, Handle, Marked, KeepsMark;
    ReturnLifecycle(w, rs);
    OrdersRemain(w.db, HandleAll(w, rs).db, id);
    if rs != [] {
      var n := |rs| - 1;
      assert forall k :: 0 <= k <= n ==> rs[..n][..k] == rs[..k];
      FullyReturnedIsRefunded(w, rs[..n], id);
      ReturnLifecycle(w, rs[..n]);
      OrdersRemain(w.db, HandleAll(w, rs[..n]).db, id);
      HandleKeeps(HandleAll(w, rs[..n]), rs[n], id);
    }
  }

  // ----- What the seller nets -----

  /** The refund in dollars that a request puts on record for a return of the order, if any. */
  function RefundMade(w: World, r: Request, id: OrderId): Option<real>
    requires Matching(w.book)
  {
    if !r.Change? || r.key.order != id then None
    else
      match Decide(w.db, w.book, r.key, r.seller, r.update, r.c).1
      case Success(Some(m)) => if m.already then None else Some(m.usd)
      case _ => None
  }

  /** The request dies after its refund and before it reduces what the seller nets. */
  predicate CutShort(w: World, r: Request, id: OrderId)
    requires Matching(w.book)
  {
    RefundMade(w, r, id).Some? && (r.fate.DiesRefunded? || r.fate.DiesWritten?)
  }

  /** The dollars that a request takes off what the seller of the order nets, if any. */
  function DollarsOff(w: World, r: Request, id: OrderId): Option<real>
    requires Matching(w.book)
  {
    if CutShort(w, r, id) || RefundMade(w, r, id) == Some(0.0) then None else RefundMade(w, r, id)
  }

  function Listed(x: Option<real>): seq<real> {
    if x.Some? then [x.value] else []
  }

  ghost function AllDollarsOff(w: World, rs: seq<Request>, id: OrderId): seq<real>
    requires Matching(w.book)
  {
    if rs == [] then []
    else
      var n := |rs| - 1;
      AllDollarsOff(w, rs[..n], id) + Listed(DollarsOff(HandleAll(w, rs[..n]), rs[n], id))
  }

  lemma UpdatedRowsNet(db: Db, key: ItemKey, update: ReturnUpdate, refund: Option<MoneyBack>, now: Time, fate: Fate,
                id: OrderId)
    requires key in db.returnRequests && id in db.orders
    requires db.orders[id].sellerNet.Some? && db.orders[id].feePercent.Some? && db.orders[id].status != Pending
    ensures var db' := UpdatedRows(db, key, update, refund, now, fate);
            var o := db.orders[id];
            var off := key.order == id && refund.Some? && !refund.value.already && refund.value.usd != 0.0
                       && (fate.Finishes? || fate.DiesReduced?);
            && id in db'.orders && db'.orders[id].feePercent == o.feePercent && SameSale(o, db'.orders[id])
            && db'.orders[id].status != Pending
            && db'.orders[id].sellerNet
               == if off then Some(ReducedNet(o.sellerNet.value, refund.value.usd, o.feePercent.value)) else o.sellerNet
  {
    hide ReducedNet, FullyReturned, UpdatedReturn;
  }

  lemma HandleNet(w: World, r: Request, id: OrderId)
    requires Matching(w.book) && id in w.db.orders && w.db.orders[id].status != Pending
    requires w.db.orders[id].sellerNet.Some? && w.db.orders[id].feePercent.Some?
    ensures var db' := Handle(w, r).db;
            var off := DollarsOff(w, r, id);
            var o := w.db.orders[id];
            && id in db'.orders && db'.orders[id].feePercent == o.feePercent && SameSale(o, db'.orders[id])
            && db'.orders[id].status != Pending
            && db'.orders[id].sellerNet
               == if off.Some? then Some(ReducedNet(o.sellerNet.value, off.value, o.feePercent.value)) else o.sellerNet
  {
    hide ReducedNet, UpdatedRows, GiveBack, ValidateUpdate;
    if r.Change? {
      var refund := Decide(w.db, w.book, r.key, r.seller, r.update, r.c).1;
      if refund.Success? {
        assert Handle(w, r).db == UpdatedRows(w.db, r.key, r.update, refund.value, r.now, r.fate);
        UpdatedRowsNet(w.db, r.key, r.update, refund.value, r.now, r.fate, id);
      }
    }
  }

  /** The order is settled, and nothing was taken off what its seller nets. */
  predicate JustSettled(o: Order) {
    && o.status != Pending && o.feePercent.Some?
    && o.sellerNet == Some(SettlementNet(o.total, o.feePercent.value))
  }

  /** Whatever the requests, a settled order nets its seller what the settlement leaves after the dollars taken off. */
  lemma {:induction false} NetFollowsDeductions(w: World, rs: seq<Request>, id: OrderId)
    requires Matching(w.book) && id in w.db.orders && JustSettled(w.db.orders[id])
    ensures var db' := HandleAll(w, rs).db;
            var o := w.db.orders[id];
            && id in db'.orders && db'.orders[id].feePercent == o.feePercent && db'.orders[id].total == o.total
            && db'.orders[id].status != Pending
            && db'.orders[id].sellerNet
               == Some(NetAfterRefunds(o.total, o.feePercent.value, AllDollarsOff(w, rs, id)))
  {
    hide ReducedNet, SettlementNet, Handle, DollarsOff;
    if rs != [] {
      var n := |rs| - 1;
      NetFollowsDeductions(w, rs[..n], id);
      var before := HandleAll(w, rs[..n]);
      HandleNet(before, rs[n], id);
      var offs := AllDollarsOff(w, rs[..n], id);
      var off := DollarsOff(before, rs[n], id);
      if off.Some? {
        assert (offs + [off.value])[..|offs|] == offs;
      } else {
        assert offs + [] == offs;
      }
    }
  }

  // ----- The seller's net and the payment's ledger -----

  /** The dollars of the returns of an order that are on the payment's ledger. */
  function ReturnDollars(refunds: seq<RefundEntry>, id: OrderId): seq<real> {
    if refunds == [] then []
    else
      var n := |refunds| - 1;
      ReturnDollars(refunds[..n], id)
      + if refunds[n].order == id && refunds[n].request.Some? then [refunds[n].usd] else []
  }

  function Ledger(w: World, i: nat, id: OrderId): seq<real>
    requires i < |w.book.ts|
  {
    ReturnDollars(w.book.ts[i].refunds, id)
  }

  /** Transaction `i` is the card payment of the order. */
  ghost predicate CardPaid(w: World, i: nat, id: OrderId) {
    && Matching(w.book) && i < |w.book.ts| && id in w.db.orders
    && FindPaid(w.book.ts, id, w.db.orders[id].buyer) == Some(i) && w.book.ts[i].provider == Stripe
  }

  lemma {:induction false} SameFound(ts: seq<Transaction>, ts': seq<Transaction>, id: OrderId, buyer: UserId)
    requires |ts'| == |ts| && forall j :: 0 <= j < |ts| ==> (PaidFor(ts[j], id, buyer) <==> PaidFor(ts'[j], id, buyer))
    ensures FindPaid(ts', id, buyer) == FindPaid(ts, id, buyer)
  {
    if ts != [] {
      SameFound(ts[..|ts| - 1], ts'[..|ts| - 1], id, buyer);
    }
  }

  /** A return refund that goes through is one more entry; any other leaves the payment's row. */
  lemma OneMoreEntry(b: Books, key: ItemKey, o: Order, usd: real, amount: Cents, fee: real, answer: Answer)
    ensures var (after, r) := RefundReturn(b, key, o, usd, amount, fee, answer);
            if r.Success? && r.value.GivenBack? then
              && after.t == Recorded(b.t, RefundEntry(key.order, Some(key), amount, usd)) && 0 < amount
              && !HasReturn(b.t, key) && HasReturn(after.t, key)
            else after.t == b.t && (r.Success? ==> r.value.AlreadyRefunded? && after == b && HasReturn(b.t, key))
  {
    hide Reversed, Refundeds;
    AddedEntry(b.t, RefundEntry(key.order, Some(key), amount, usd));
  }

  lemma NothingForNoDollars(c: Currency.Currency, rates: Currency.UsableRates)
    ensures Currency.Convert(0.0, Currency.USD, c, rates) == 0
  {
    RoundInteger(0);
  }

  /** The dollars of a refund of a card payment come with one more entry, exactly when it was not on record. */
  lemma GiveBackRecords(book: CardBook, o: Order, key: ItemKey, byAdmin: bool, requested: Option<real>, c: Context,
                        i: nat, id: OrderId, buyer: UserId)
    requires Matching(book) && i < |book.ts|
    requires key.order == id ==>
               FindPaid(book.ts, id, o.buyer) == Some(i) && book.ts[i].provider == Stripe && o.buyer == buyer
    ensures var (after, r) := GiveBack(book, o, key, byAdmin, requested, c);
            && after.ts[i].provider == book.ts[i].provider
            && FindPaid(after.ts, id, buyer) == FindPaid(book.ts, id, buyer)
            && ReturnDollars(after.ts[i].refunds, id) == ReturnDollars(book.ts[i].refunds, id)
                 + (if key.order == id && r.Success? && !r.value.already then [r.value.usd] else [])
            && (key.order == id && r.Success? ==>
                  && HasReturn(after.ts[i], key)
                  && (r.value.already <==> HasReturn(book.ts[i], key)) && (r.value.already ==> after == book)
                  && (!r.value.already ==> r.value.usd != 0.0))
  {
    var found := FindPaid(book.ts, key.order, o.buyer);
    if found.Some? && book.ts[found.value].provider == Stripe {
      var j := found.value;
      var usd := ReturnAmount(requested, c.price, o.total);
      var amount := Currency.Convert(usd, Currency.USD, book.ts[j].currency, c.rates);
      OneMoreEntry(BooksAt(book, j), key, o, usd, amount, c.fee, c.answer);
      NothingForNoDollars(book.ts[j].currency, c.rates);
      SameBooks(book, j);
      hide RefundReturn, FindPaid, Currency.Convert, HasReturn, ReturnAmount;
      var after := GiveBack(book, o, key, byAdmin, requested, c).0;
      if after.ts[j] != book.ts[j] {
        var e := RefundEntry(key.order, Some(key), amount, usd);
        assert (book.ts[j].refunds + [e])[..|book.ts[j].refunds|] == book.ts[j].refunds;
      }
      assert ReturnDollars(book.ts[i].refunds, id) + [] == ReturnDollars(book.ts[i].refunds, id);
      SameFound(book.ts, after.ts, id, buyer);
    } else {
      assert ReturnDollars(book.ts[i].refunds, id) + [] == ReturnDollars(book.ts[i].refunds, id);
    }
  }

  /** A request adds exactly the refund it makes for the order to the ledger. */
  lemma HandleRecords(w: World, r: Request, i: nat, id: OrderId)
    requires CardPaid(w, i, id)
    ensures var w' := Handle(w, r);
            && CardPaid(w', i, id) && Ledger(w', i, id) == Ledger(w, i, id) + Listed(RefundMade(w, r, id))
            && RefundMade(w, r, id) != Some(0.0)
  {
    hide GiveBack, ValidateUpdate, UpdatedRows, ReturnDollars, FindPaid;
    var nothing := Ledger(w, i, id) + [];
    assert nothing == Ledger(w, i, id);
    if r.Change? && UpdateProblem(w.db, r.key, r.seller, r.update).None? {
      if PaysBack(w.db.returnRequests[r.key], r.update) {
        GiveBackRecords(w.book, w.db.orders[r.key.order], r.key, r.seller.None?, r.update.amount, r.c, i, id,
                        w.db.orders[id].buyer);
      }
      var refund := Decide(w.db, w.book, r.key, r.seller, r.update, r.c).1;
      if refund.Success? {
        UpdatedRowsSale(w.db, r.key, r.update, refund.value, r.now, r.fate, id);
      }
    }
  }

  lemma UpdatedRowsSale(db: Db, key: ItemKey, update: ReturnUpdate, refund: Option<MoneyBack>, now: Time, fate: Fate,
                 id: OrderId)
    requires key in db.returnRequests && id in db.orders
    ensures var db' := UpdatedRows(db, key, update, refund, now, fate);
            id in db'.orders && SameSale(db.orders[id], db'.orders[id])
  {
    hide ReducedNet, FullyReturned, UpdatedReturn;
  }

  /** Some request died between recording a refund for the order and reducing the seller's net. */
  ghost predicate SomeCutShort(w: World, rs: seq<Request>, id: OrderId)
    requires Matching(w.book)
  {
    rs != []
    && var n := |rs| - 1;
       SomeCutShort(w, rs[..n], id) || CutShort(HandleAll(w, rs[..n]), rs[n], id)
  }

  lemma OneMoreOff(offs: seq<real>, ledger: seq<real>, made: Option<real>, cut: bool, before: bool)
    requires |offs| <= |ledger| && (offs == ledger <==> !before) && (before ==> |offs| < |ledger|)
    ensures var more := ledger + Listed(made);
            var off := offs + Listed(if made.Some? && cut then None else made);
            && |off| <= |more|
            && (off == more <==> !(before || (made.Some? && cut)))
            && (before || (made.Some? && cut) ==> |off| < |more|)
  {
  }

  /**
   What is taken off the seller's net is what is on the payment's ledger for the order, refund by refund, exactly
   when no request died between recording its refund and reducing the net.
   */
  lemma {:induction false} TakenOffIff(w: World, rs: seq<Request>, i: nat, id: OrderId)
    requires CardPaid(w, i, id) && Ledger(w, i, id) == []
    ensures var w' := HandleAll(w, rs);
            && CardPaid(w', i, id) && |AllDollarsOff(w, rs, id)| <= |Ledger(w', i, id)|
            && (AllDollarsOff(w, rs, id) == Ledger(w', i, id) <==> !SomeCutShort(w, rs, id))
            && (SomeCutShort(w, rs, id) ==> |AllDollarsOff(w, rs, id)| < |Ledger(w', i, id)|)
  {
    if rs != [] {
      var n := |rs| - 1;
      TakenOffIff(w, rs[..n], i, id);
      var before := HandleAll(w, rs[..n]);
      HandleRecords(before, rs[n], i, id);
      var cut := rs[n].Change? && (rs[n].fate.DiesRefunded? || rs[n].fate.DiesWritten?);
      var made := RefundMade(before, rs[n], id);
      MadeByChange(before, rs[n], id);
      hide CardPaid, Ledger, RefundMade, Handle, Listed;
      OneMoreOff(AllDollarsOff(w, rs[..n], id), Ledger(before, i, id), made, cut, SomeCutShort(w, rs[..n], id));
    }
  }

  lemma MadeByChange(w: World, r: Request, id: OrderId)
    requires Matching(w.book)
    ensures RefundMade(w, r, id).Some? ==> r.Change?
  {
  }

  /**
   So the seller's net follows the payment's ledger: it is what the settlement leaves after exactly the refunds that
   are on record for the order, as long as no request died in between.
   */
  lemma NetFollowsLedger(w: World, rs: seq<Request>, i: nat, id: OrderId)
    requires CardPaid(w, i, id) && Ledger(w, i, id) == [] && JustSettled(w.db.orders[id])
    requires !SomeCutShort(w, rs, id)
    ensures var w' := HandleAll(w, rs);
            && id in w'.db.orders
            && w'.db.orders[id].sellerNet
               == Some(NetAfterRefunds(w.db.orders[id].total, w.db.orders[id].feePercent.value, Ledger(w', i, id)))
  {
    hide NetAfterRefunds, SettlementNet, HandleAll, AllDollarsOff, Ledger, SomeCutShort;
    TakenOffIff(w, rs, i, id);
    NetFollowsDeductions(w, rs, id);
  }

  /** A completing update that goes through takes its refund off the net exactly when it was not on record before. */
  lemma TakesOffIff(w: World, r: Request, i: nat, id: OrderId)
    requires CardPaid(w, i, id) && r.Change? && r.key.order == id && r.fate == Finishes
    requires UpdateProblem(w.db, r.key, r.seller, r.update).None? && PaysBack(w.db.returnRequests[r.key], r.update)
    requires Decide(w.db, w.book, r.key, r.seller, r.update, r.c).1.Success?
    ensures DollarsOff(w, r, id).Some? <==> !HasReturn(w.book.ts[i], r.key)
  {
    hide ValidateUpdate;
    GiveBackRecords(w.book, w.db.orders[id], r.key, r.seller.None?, r.update.amount, r.c, i, id, w.db.orders[id].buyer);
    hide GiveBack;
  }

  /**
   A request records its refund and dies; the retry completes the return and finds the refund on record. The refund
   stays on the ledger and is never taken off what the seller nets.
   */
  lemma DeadRequestIsNotMadeUp(w: World, dead: Request, retry: Request, i: nat, id: OrderId)
    requires CardPaid(w, i, id) && w.db.orders[id].sellerNet.Some? && w.db.orders[id].feePercent.Some?
    requires w.db.orders[id].status != Pending
    requires dead.Change? && dead.key.order == id && dead.fate == DiesRefunded && RefundMade(w, dead, id).Some?
    requires retry.Change? && retry == dead.(fate := Finishes, c := retry.c, now := retry.now)
    ensures var w' := Handle(Handle(w, dead), retry);
            && dead.key in w'.db.returnRequests && w'.db.returnRequests[dead.key].status == Completed
            && id in w'.db.orders && w'.db.orders[id].sellerNet == w.db.orders[id].sellerNet
            && CardPaid(w', i, id) && Ledger(w', i, id) == Ledger(w, i, id) + [RefundMade(w, dead, id).value]
  {
    HandleRecords(w, dead, i, id);
    var died := Handle(w, dead);
    HandleRecords(died, retry, i, id);
    HandleNet(died, retry, id);
    DeadRecords(w, dead, i, id);
    RetryCompletes(died, retry, i, id);
    hide Handle, CardPaid, Ledger, RefundMade, DollarsOff;
  }

  lemma DeadRecords(w: World, dead: Request, i: nat, id: OrderId)
    requires CardPaid(w, i, id) && dead.Change? && dead.key.order == id && dead.fate == DiesRefunded
    requires RefundMade(w, dead, id).Some?
    ensures var died := Handle(w, dead);
            && died.db == w.db && HasReturn(died.book.ts[i], dead.key) && died.book.ts[i].intent.Some?
            && UpdateProblem(w.db, dead.key, dead.seller, dead.update).None?
            && PaysBack(w.db.returnRequests[dead.key], dead.update)
  {
    hide ValidateUpdate, FindPaid;
    if UpdateProblem(w.db, dead.key, dead.seller, dead.update).None? {
      GiveBackRecords(w.book, w.db.orders[id], dead.key, dead.seller.None?, dead.update.amount, dead.c, i, id,
                      w.db.orders[id].buyer);
      KeepsIntent(w.book, w.db.orders[id], dead.key, dead.seller.None?, dead.update.amount, dead.c, i);
      hide GiveBack, HasReturn;
    }
  }

  lemma KeepsIntent(book: CardBook, o: Order, key: ItemKey, byAdmin: bool, requested: Option<real>, c: Context, i: nat)
    requires Matching(book) && i < |book.ts| && FindPaid(book.ts, key.order, o.buyer) == Some(i)
    requires book.ts[i].provider == Stripe
    ensures var (after, r) := GiveBack(book, o, key, byAdmin, requested, c);
            r.Success? ==> book.ts[i].intent.Some? && after.ts[i].intent == book.ts[i].intent
  {
    hide FindPaid, Reversed, Refundeds, HasReturn;
  }

  lemma RetryCompletes(w: World, retry: Request, i: nat, id: OrderId)
    requires CardPaid(w, i, id) && retry.Change? && retry.key.order == id && retry.fate == Finishes
    requires UpdateProblem(w.db, retry.key, retry.seller, retry.update).None?
    requires PaysBack(w.db.returnRequests[retry.key], retry.update)
    requires HasReturn(w.book.ts[i], retry.key) && w.book.ts[i].intent.Some?
    ensures RefundMade(w, retry, id).None?
    ensures var w' := Handle(w, retry);
            retry.key in w'.db.returnRequests && w'.db.returnRequests[retry.key].status == Completed
  {
    RecordedIsFound(w.book, w.db.orders[id], retry.key, retry.seller.None?, retry.update.amount, retry.c, i);
    hide GiveBack, ValidateUpdate, HasReturn, FullyReturned, EarningsAfter;
  }

  lemma RecordedIsFound(book: CardBook, o: Order, key: ItemKey, byAdmin: bool, requested: Option<real>, c: Context,
                        i: nat)
    requires Matching(book) && i < |book.ts| && FindPaid(book.ts, key.order, o.buyer) == Some(i)
    requires book.ts[i].provider == Stripe && book.ts[i].intent.Some? && HasReturn(book.ts[i], key)
    ensures var r := GiveBack(book, o, key, byAdmin, requested, c).1; r.Success? && r.value.already
  {
    hide FindPaid, HasReturn;
  }
}
