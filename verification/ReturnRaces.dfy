/** Return updates that overlap: what their unguarded writes keep, exactly, and runs in which they go wrong. */
module ReturnRaces {
  import opened Wrappers
  import opened Money
  import opened SellerFees
  import opened Domain
  import opened OrderSteps
  import opened Protocol
  import opened ProtocolInvariant
  import opened ProtocolTheorems
  import opened Lifecycle

  /** A refund that was not on record before, of the same amount in dollars and in the charged currency. */
  function Fresh(amount: real): MoneyBack {
    MoneyBack(amount, amount, false)
  }

  // ----- The write of the return -----

  predicate CompletedIffRefunded(r: ReturnRequest) {
    r.status == Completed <==> r.refundedAt.Some?
  }

  /**
   The write of a return update is not guarded by what it read. A return that was not refunded when it was read
   stays completed exactly when refunded if and only if the update completes it or nobody completed it since.
   */
  lemma ReturnWriteIff(s: State, t: TaskId, given: Option<real>, made: MoneyBack)
    requires t in s.tasks && s.tasks[t].ReturnRead? && s.tasks[t].refundedAt.None? && 0.0 <= made.usd
    requires s.tasks[t].key in s.db.returnRequests && CompletedIffRefunded(s.db.returnRequests[s.tasks[t].key])
    ensures var task := s.tasks[t];
            var s' := Step(s, WriteReturn(t, given, made));
            && task.key in s'.db.returnRequests
            && (CompletedIffRefunded(s'.db.returnRequests[task.key])
                <==> task.newStatus == Completed || s.db.returnRequests[task.key].status != Completed)
  {
    assert Step(s, WriteReturn(t, given, made)) == WriteReturnStep(s, t, given, made);
  }

  /** The update would write again what the row says already. */
  predicate SaysTheSame(row: ReturnRequest, task: Task, given: Option<real>, made: MoneyBack, now: Time)
    requires task.ReturnRead?
  {
    var refund := RefundOf(task, made);
    && task.newStatus == row.status
    && (refund.Some? ==> row.refundedAt == Some(now) && row.refundAmount == Some(made.amount))
    && (refund.None? && given.Some? ==> row.refundAmount == given)
  }

  /**
   Nor does the write look whether the return is final by then: a completed or rejected return keeps its row, status,
   refund time and amount, if and only if the late update happens to say the same.
   */
  lemma FinalReturnKeptIff(s: State, t: TaskId, given: Option<real>, made: MoneyBack)
    requires t in s.tasks && s.tasks[t].ReturnRead? && 0.0 <= made.usd && s.tasks[t].key in s.db.returnRequests
    requires s.db.returnRequests[s.tasks[t].key].status in {Completed, ReturnStatus.Rejected}
    ensures var key := s.tasks[t].key;
            var s' := Step(s, WriteReturn(t, given, made));
            && key in s'.db.returnRequests
            && (s'.db.returnRequests[key] == s.db.returnRequests[key]
                <==> SaysTheSame(s.db.returnRequests[key], s.tasks[t], given, made, s.now))
  {
    assert Step(s, WriteReturn(t, given, made)) == WriteReturnStep(s, t, given, made);
  }

  lemma ReadsApproved(s: State, t: TaskId, key: ItemKey, newStatus: ReturnStatus)
    requires t !in s.tasks && key in s.db.returnRequests
    requires s.db.returnRequests[key] == ReturnRequest(Approved, None, None)
    requires newStatus in ReturnTransitions(Approved)
    ensures Step(s, ReadReturn(t, key, newStatus)) == s.(tasks := s.tasks[t := ReturnRead(key, newStatus, None)])
  {
    assert Step(s, ReadReturn(t, key, newStatus)) == ReadReturnStep(s, t, key, newStatus);
  }

  lemma WritesAnyway(s: State, t: TaskId, key: ItemKey, newStatus: ReturnStatus, made: MoneyBack)
    requires t in s.tasks && s.tasks[t] == ReturnRead(key, newStatus, None) && key in s.db.returnRequests
    requires 0.0 <= made.usd
    ensures var s' := Step(s, WriteReturn(t, None, made));
            var row := s.db.returnRequests[key];
            && s'.db == s.db.(returnRequests := s.db.returnRequests[key :=
                 if newStatus == Completed then ReturnRequest(Completed, Some(s.now), Some(made.amount))
                 else row.(status := newStatus)])
            && s'.now == s.now && t in s'.tasks
            && s'.tasks[t] == ReturnWritten(key.order, if newStatus == Completed && !made.already then Some(made.usd)
                                                       else None)
            && forall u :: u != t && u in s.tasks ==> u in s'.tasks && s'.tasks[u] == s.tasks[u]
  {
    assert Step(s, WriteReturn(t, None, made)) == WriteReturnStep(s, t, None, made);
  }

  /** A return as its seller approved it, with nothing refunded and no update of it under way as these two tasks. */
  predicate ApprovedFor(s: State, key: ItemKey, t: TaskId, u: TaskId) {
    && t !in s.tasks && u !in s.tasks && t != u
    && key in s.db.returnRequests && s.db.returnRequests[key] == ReturnRequest(Approved, None, None)
  }

  /** Both updates read the approved return before either writes. */
  function BothRead(s: State, t: TaskId, u: TaskId, key: ItemKey, first: ReturnStatus, second: ReturnStatus): State {
    Step(Step(s, ReadReturn(t, key, first)), ReadReturn(u, key, second))
  }

  lemma ReadTwice(s: State, t: TaskId, u: TaskId, key: ItemKey, first: ReturnStatus, second: ReturnStatus)
    requires ApprovedFor(s, key, t, u)
    requires first in ReturnTransitions(Approved) && second in ReturnTransitions(Approved)
    ensures BothRead(s, t, u, key, first, second)
         == s.(tasks := s.tasks[t := ReturnRead(key, first, None)][u := ReturnRead(key, second, None)])
  {
    hide Step;
    ReadsApproved(s, t, key, first);
    ReadsApproved(Step(s, ReadReturn(t, key, first)), u, key, second);
  }

  /** Two updates that read an approved return before either writes can leave it rejected, yet refunded. */
  lemma RejectedYetRefunded(s: State, t: TaskId, u: TaskId, key: ItemKey)
    requires ApprovedFor(s, key, t, u)
    ensures var read := BothRead(s, t, u, key, Completed, ReturnStatus.Rejected);
            var written := Step(Step(read, WriteReturn(t, None, Fresh(500.0))), WriteReturn(u, None, Fresh(0.0)));
            && key in written.db.returnRequests
            && written.db.returnRequests[key] == ReturnRequest(ReturnStatus.Rejected, Some(s.now), Some(500.0))
  {
    hide Step, BothRead;
    ReadTwice(s, t, u, key, Completed, ReturnStatus.Rejected);
    var read := BothRead(s, t, u, key, Completed, ReturnStatus.Rejected);
    WritesAnyway(read, t, key, Completed, Fresh(500.0));
    WritesAnyway(Step(read, WriteReturn(t, None, Fresh(500.0))), u, key, ReturnStatus.Rejected, Fresh(0.0));
  }

  /** One update completes a return that it read as approved; one that read it too takes it back into progress. */
  lemma CompletedReturnReopens(s: State, t: TaskId, u: TaskId, key: ItemKey)
    requires ApprovedFor(s, key, t, u)
    ensures var read := BothRead(s, t, u, key, Completed, InProgress);
            var completed := Step(read, WriteReturn(t, None, Fresh(500.0)));
            var reopened := Step(completed, WriteReturn(u, None, Fresh(0.0)));
            && key in completed.db.returnRequests && completed.db.returnRequests[key].status == Completed
            && key in reopened.db.returnRequests && reopened.db.returnRequests[key].status == InProgress
  {
    hide Step, BothRead;
    ReadTwice(s, t, u, key, Completed, InProgress);
    var read := BothRead(s, t, u, key, Completed, InProgress);
    WritesAnyway(read, t, key, Completed, Fresh(500.0));
    WritesAnyway(Step(read, WriteReturn(t, None, Fresh(500.0))), u, key, InProgress, Fresh(0.0));
  }

  lemma CompletesLater(s: State, u: TaskId, key: ItemKey, made: MoneyBack)
    requires u in s.tasks && s.tasks[u] == ReturnRead(key, Completed, None) && key in s.db.returnRequests
    requires 0.0 <= made.usd
    ensures var s' := Step(Step(s, Tick), WriteReturn(u, None, made));
            && key in s'.db.returnRequests
            && s'.db.returnRequests[key] == ReturnRequest(Completed, Some(s.now + 1), Some(made.amount))
  {
    assert Step(s, Tick) == s.(now := s.now + 1);
    hide Step;
    WritesAnyway(Step(s, Tick), u, key, Completed, made);
  }

  /** Two updates complete one return: the later one gives the final, refunded return another refund time and amount. */
  lemma CompletedTwice(s: State, t: TaskId, u: TaskId, key: ItemKey)
    requires ApprovedFor(s, key, t, u)
    ensures var read := BothRead(s, t, u, key, Completed, Completed);
            var completed := Step(read, WriteReturn(t, None, Fresh(500.0)));
            var again := Step(Step(completed, Tick), WriteReturn(u, None, MoneyBack(300.0, 300.0, true)));
            && key in completed.db.returnRequests && key in again.db.returnRequests
            && completed.db.returnRequests[key] == ReturnRequest(Completed, Some(s.now), Some(500.0))
            && again.db.returnRequests[key] == ReturnRequest(Completed, Some(s.now + 1), Some(300.0))
  {
    hide Step, BothRead;
    ReadTwice(s, t, u, key, Completed, Completed);
    var read := BothRead(s, t, u, key, Completed, Completed);
    WritesAnyway(read, t, key, Completed, Fresh(500.0));
    CompletesLater(Step(read, WriteReturn(t, None, Fresh(500.0))), u, key, MoneyBack(300.0, 300.0, true));
  }

  // ----- The write of what the seller nets -----

  lemma RoundShifts(net: int, x: real)
    ensures Round(net as real - x) == net + Round(-x)
  {
    RoundUnique(net as real - x, net + Round(-x));
  }

  /** A refund leaves nothing of this net amount. */
  predicate Exhausts(net: Cents, refund: real, fee: real) {
    Round(net as real - Kept(refund, fee)) <= 0
  }

  lemma SameReductionIff(a: Cents, b: Cents, refund: real, fee: real)
    ensures ReducedNet(a, refund, fee) == ReducedNet(b, refund, fee)
            <==> a == b || (Exhausts(a, refund, fee) && Exhausts(b, refund, fee))
  {
    RoundShifts(a, Kept(refund, fee));
    RoundShifts(b, Kept(refund, fee));
    hide Kept;
  }

  /**
   The write of what a seller nets is not guarded by what it read. It takes the refund off the row as it is now if
   and only if the net amount is still the one that was read, or the refund exhausts both.
   */
  lemma EarningsWriteIff(s: State, t: TaskId)
    requires Inv(s) && t in s.tasks && s.tasks[t].EarningsRead?
    requires s.tasks[t].order in s.db.orders && s.db.orders[s.tasks[t].order].sellerNet.Some?
    ensures var task := s.tasks[t];
            var o := s.db.orders[task.order];
            var s' := Step(s, WriteEarnings(t));
            && task.order in s'.db.orders && o.feePercent.Some?
            && (s'.db.orders[task.order].sellerNet == Some(EarningsAfter(o, task.taken))
                <==> o.sellerNet.value == task.read
                     || (Exhausts(o.sellerNet.value, task.taken, o.feePercent.value)
                         && Exhausts(task.read, task.taken, o.feePercent.value)))
  {
    hide OrdersOk, HoldersDistinct, ReturnsOk, ReportsOk;
    var task := s.tasks[t];
    assert TaskOk(s, task);
    assert Step(s, WriteEarnings(t)) == WriteEarningsStep(s, t);
    var o := s.db.orders[task.order];
    SameReductionIff(o.sellerNet.value, task.read, task.taken, o.feePercent.value);
    hide ReducedNet, Exhausts;
  }

  lemma ReadsEarnings(s: State, t: TaskId, id: OrderId, refund: real)
    requires t in s.tasks && s.tasks[t] == ReturnWritten(id, Some(refund)) && refund != 0.0
    requires id in s.db.orders && s.db.orders[id].sellerNet.Some?
    ensures var o := s.db.orders[id];
            Step(s, ReadEarnings(t))
            == s.(tasks := s.tasks[t := EarningsRead(id, EarningsAfter(o, refund), o.sellerNet.value, refund)])
  {
    assert Step(s, ReadEarnings(t)) == ReadEarningsStep(s, t);
  }

  lemma WritesEarnings(s: State, t: TaskId)
    requires t in s.tasks && s.tasks[t].EarningsRead? && s.tasks[t].order in s.db.orders
    ensures var s' := Step(s, WriteEarnings(t));
            var id := s.tasks[t].order;
            && s'.db.orders == s.db.orders[id := s.db.orders[id].(sellerNet := Some(s.tasks[t].net))]
            && forall u :: u != t && u in s.tasks ==> u in s'.tasks && s'.tasks[u] == s.tasks[u]
  {
    assert Step(s, WriteEarnings(t)) == WriteEarningsStep(s, t);
  }

  /** Of two refunds whose updates both read what the seller nets before either writes, only the later one counts. */
  lemma EarningsOverwritten(s: State, t: TaskId, u: TaskId, id: OrderId, a: real, b: real)
    requires t != u && t in s.tasks && u in s.tasks && a != 0.0 && b != 0.0
    requires s.tasks[t] == ReturnWritten(id, Some(a)) && s.tasks[u] == ReturnWritten(id, Some(b))
    requires id in s.db.orders && s.db.orders[id].sellerNet.Some?
    ensures var read := Step(Step(s, ReadEarnings(t)), ReadEarnings(u));
            var written := Step(Step(read, WriteEarnings(t)), WriteEarnings(u));
            && id in written.db.orders
            && written.db.orders[id].sellerNet == Some(EarningsAfter(s.db.orders[id], b))
  {
    hide Step, EarningsAfter;
    ReadsEarnings(s, t, id, a);
    var one := Step(s, ReadEarnings(t));
    ReadsEarnings(one, u, id, b);
    var read := Step(one, ReadEarnings(u));
    WritesEarnings(read, t);
    WritesEarnings(Step(read, WriteEarnings(t)), u);
  }

  lemma ReducesEarnings(s: State, t: TaskId, id: OrderId, refund: real)
    requires t in s.tasks && s.tasks[t] == ReturnWritten(id, Some(refund)) && refund != 0.0
    requires id in s.db.orders && s.db.orders[id].sellerNet.Some?
    ensures var s' := Step(Step(s, ReadEarnings(t)), WriteEarnings(t));
            var o := s.db.orders[id];
            && s'.db.orders == s.db.orders[id := o.(sellerNet := Some(EarningsAfter(o, refund)))]
            && forall u :: u != t && u in s.tasks ==> u in s'.tasks && s'.tasks[u] == s.tasks[u]
  {
    hide Step, EarningsAfter;
    ReadsEarnings(s, t, id, refund);
    WritesEarnings(Step(s, ReadEarnings(t)), t);
  }

  /**
   Two updates complete one return, and both refund it under the one key before either is recorded. Each then takes
   the refund off what the seller nets, one after the other, so that each finds the net it read; yet the one refund is
   taken off twice.
   */
  lemma RefundTakenOffTwice(s: State, t: TaskId, u: TaskId, key: ItemKey, refund: MoneyBack)
    requires ApprovedFor(s, key, t, u) && 0.0 < refund.usd && !refund.already
    requires key.order in s.db.orders && s.db.orders[key.order].sellerNet.Some?
    ensures var read := BothRead(s, t, u, key, Completed, Completed);
            var written := Step(Step(read, WriteReturn(t, None, refund)), WriteReturn(u, None, refund));
            var once := Step(Step(written, ReadEarnings(t)), WriteEarnings(t));
            var twice := Step(Step(once, ReadEarnings(u)), WriteEarnings(u));
            var o := s.db.orders[key.order];
            && key.order in once.db.orders && key.order in twice.db.orders
            && once.db.orders[key.order] == o.(sellerNet := Some(EarningsAfter(o, refund.usd)))
            && twice.db.orders[key.order].sellerNet == Some(EarningsAfter(once.db.orders[key.order], refund.usd))
  {
    hide Step, BothRead, EarningsAfter;
    ReadTwice(s, t, u, key, Completed, Completed);
    var read := BothRead(s, t, u, key, Completed, Completed);
    WritesAnyway(read, t, key, Completed, refund);
    var one := Step(read, WriteReturn(t, None, refund));
    WritesAnyway(one, u, key, Completed, refund);
    var written := Step(one, WriteReturn(u, None, refund));
    ReducesEarnings(written, t, key.order, refund.usd);
    ReducesEarnings(Step(Step(written, ReadEarnings(t)), WriteEarnings(t)), u, key.order, refund.usd);
  }

  // ----- A refund by hand that fails while the last item is returned -----

  /**
   A failed refund puts an order back whose items were all returned and refunded meanwhile. The order is then
   marked as it should be if and only if they were not.
   */
  lemma FullyReturnedPutBackIff(s: State, t: TaskId, id: OrderId)
    requires Inv(s) && UnderRefund(s, t, id)
    ensures var s' := Step(s, RefundFails(t));
            && id in s'.db.orders
            && ((FullyReturned(s'.db, id) ==> s'.db.orders[id].status == Refunded) <==> !FullyReturned(s.db, id))
  {
    hide OrderOk, Owns, OrdersOk, HoldersDistinct, ReturnsOk, ReportsOk;
    HolderKnown(s, t);
    assert Step(s, RefundFails(t)) == RefundFailsStep(s, t);
    SameReturnsDone(s.db, RefundFailsStep(s, t).db, id);
  }

  lemma SameReturnsDone(db: Db, db': Db, id: OrderId)
    requires id in db.orders && id in db'.orders && db'.orders[id].items == db.orders[id].items
    requires db'.returnRequests == db.returnRequests
    ensures FullyReturned(db', id) <==> FullyReturned(db, id)
  {
  }

  /** An update that completes the last return of an order whose refund by hand is under way finds nothing to mark. */
  lemma LastItemReturned(s: State, u: TaskId, key: ItemKey, made: MoneyBack)
    requires u in s.tasks && s.tasks[u] == ReturnRead(key, Completed, None) && 0.0 <= made.usd
    requires key in s.db.returnRequests && key.order in s.db.orders && s.db.orders[key.order].status == Refunded
    ensures var written := WriteReturnStep(s, u, None, made);
            var done := ReadFullyReturnedStep(WriteEarningsStep(ReadEarningsStep(written, u), u), u);
            && u !in done.tasks && done.db.returnRequests.Keys == s.db.returnRequests.Keys
            && done.db.returnRequests[key].refundedAt.Some?
  {
    hide EarningsAfter, FullyReturned;
    var written := WriteReturnStep(s, u, None, made);
    var read := ReadEarningsStep(written, u);
    assert read.tasks[u].EarningsRead? || read.tasks[u] == EarningsDone(key.order);
    var reduced := WriteEarningsStep(read, u);
    assert reduced.tasks[u] == EarningsDone(key.order) && reduced.db.orders[key.order].status == Refunded;
  }

  /** One update from its write to its end. */
  function Finishing(u: TaskId, made: MoneyBack): seq<Action> {
    [WriteReturn(u, None, made), ReadEarnings(u), WriteEarnings(u), ReadFullyReturned(u)]
  }

  lemma FinishingRun(s: State, u: TaskId, made: MoneyBack)
    ensures var written := WriteReturnStep(s, u, None, made);
            Run(s, Finishing(u, made))
            == ReadFullyReturnedStep(WriteEarningsStep(ReadEarningsStep(written, u), u), u)
  {
    hide Step, WriteReturnStep, ReadEarningsStep, WriteEarningsStep, ReadFullyReturnedStep;
    var front, back := [WriteReturn(u, None, made), ReadEarnings(u)], [WriteEarnings(u), ReadFullyReturned(u)];
    assert Finishing(u, made) == front + back;
    RunConcat(s, front, back);
    RunTwo(s, front[0], front[1]);
    FinishingSteps(s, u, made);
    RunTwo(Run(s, front), back[0], back[1]);
    LastSteps(Run(s, front), u);
  }

  lemma FinishingSteps(s: State, u: TaskId, made: MoneyBack)
    ensures Step(Step(s, WriteReturn(u, None, made)), ReadEarnings(u))
         == ReadEarningsStep(WriteReturnStep(s, u, None, made), u)
  {
    hide WriteReturnStep, ReadEarningsStep;
  }

  lemma LastSteps(s: State, u: TaskId)
    ensures Step(Step(s, WriteEarnings(u)), ReadFullyReturned(u)) == ReadFullyReturnedStep(WriteEarningsStep(s, u), u)
  {
    hide WriteEarningsStep, ReadFullyReturnedStep;
  }

  /**
   An admin refunds a delivered order of one item by hand, and while Stripe is asked its return is completed. The
   refund fails, so the order goes back to DELIVERED, with its item returned and refunded.
   */
  lemma FullyReturnedYetDelivered(s: State, t: TaskId, u: TaskId, id: OrderId, made: MoneyBack)
    requires Inv(s) && UnderRefund(s, t, id) && s.tasks[t].before.status == Delivered && |s.tasks[t].before.items| == 1
    requires u in s.tasks && s.tasks[u] == ReturnRead(ItemKey(id, 0), Completed, None) && 0.0 <= made.usd
    requires ItemKey(id, 0) in s.db.returnRequests
    ensures var returned := Run(s, Finishing(u, made));
            var failed := Step(returned, RefundFails(t));
            && u !in returned.tasks && id in failed.db.orders
            && FullyReturned(failed.db, id) && failed.db.orders[id].status == Delivered
  {
    hide Inv, Run, UnderRefund, FullyReturned, RefundFailsStep;
    var returned := Run(s, Finishing(u, made));
    ClaimedAsRefunded(s, t, id);
    FinishingRun(s, u, made);
    RefundStaysOpen(s, Finishing(u, made), t, id);
    RunKeeps(s, Finishing(u, made));
    LastItemReturned(s, u, ItemKey(id, 0), made);
    FailedPutsBack(returned, t, id);
    OneItemReturned(Step(returned, RefundFails(t)).db, id);
  }

  lemma ClaimedAsRefunded(s: State, t: TaskId, id: OrderId)
    requires Inv(s) && UnderRefund(s, t, id) && s.tasks[t].before.status == Delivered
    ensures id in s.db.orders && s.db.orders[id].status == Refunded
  {
    hide OrderOk, Owns;
    HolderKnown(s, t);
  }

  lemma FailedPutsBack(s: State, t: TaskId, id: OrderId)
    requires Inv(s) && UnderRefund(s, t, id)
    ensures var s' := Step(s, RefundFails(t));
            && id in s'.db.orders && s'.db.orders[id].status == s.tasks[t].before.status
            && s'.db.orders[id].items == s.tasks[t].before.items && s'.db.returnRequests == s.db.returnRequests
  {
    hide OrderOk, Owns;
    HolderKnown(s, t);
    assert Step(s, RefundFails(t)) == RefundFailsStep(s, t);
  }

  lemma OneItemReturned(db: Db, id: OrderId)
    requires id in db.orders && |db.orders[id].items| == 1
    requires ItemKey(id, 0) in db.returnRequests && db.returnRequests[ItemKey(id, 0)].refundedAt.Some?
    ensures FullyReturned(db, id)
  {
  }
}
