/**
 What a seller nets along any run, return updates overlapping in every way: always the settlement less a list of
 refunds, and exactly when that list has each refund once.
 */
module SellerNets {
  import opened Wrappers
  import opened Money
  import opened Sums
  import opened SellerFees
  import opened Domain
  import opened OrderSteps
  import opened Protocol
  import opened ProtocolInvariant
  import opened ProtocolSteps
  import opened ProtocolTheorems

  /** A refund of one return, in dollars, as taken off what the seller of its order nets. */
  datatype Deduction = Deduction(key: ItemKey, usd: real)

  /**
   History of one order along a run: which refunds its net amount is short of; what that was when an update read the
   net; which refund an update is to take off; and the returns whose refund any update ever took off.
   */
  datatype Log = Log(
    net: seq<Deduction>,
    read: map<TaskId, seq<Deduction>>,
    owed: map<TaskId, Deduction>,
    taken: set<ItemKey>)

  function Dollars(ds: seq<Deduction>): (usd: seq<real>)
    ensures |usd| == |ds|
  {
    seq(|ds|, i requires 0 <= i < |ds| => ds[i].usd)
  }

  function Keys(ds: seq<Deduction>): (keys: seq<ItemKey>)
    ensures |keys| == |ds|
  {
    seq(|ds|, i requires 0 <= i < |ds| => ds[i].key)
  }

  /** This action writes what the seller of the order nets. */
  predicate Writes(s: State, l: Log, a: Action, id: OrderId) {
    a.WriteEarnings? && a.t in s.tasks && s.tasks[a.t].EarningsRead? && s.tasks[a.t].order == id
    && a.t in l.read && a.t in l.owed
  }

  function TakenOff(l: Log, t: TaskId): Log
    requires t in l.read && t in l.owed
  {
    l.(net := l.read[t] + [l.owed[t]], taken := l.taken + {l.owed[t].key})
  }

  function Logged(s: State, l: Log, a: Action, id: OrderId): Log {
    if a.WriteReturn? && a.t in s.tasks && s.tasks[a.t].ReturnRead? then
      l.(owed := l.owed[a.t := Deduction(s.tasks[a.t].key, a.made.usd)])
    else if a.ReadEarnings? && a.t in s.tasks && s.tasks[a.t].ReturnWritten? then l.(read := l.read[a.t := l.net])
    else if Writes(s, l, a, id) then TakenOff(l, a.t)
    else l
  }

  function LogAfter(s: State, l: Log, actions: seq<Action>, id: OrderId): Log {
    if actions == [] then l
    else
      var n := |actions| - 1;
      Logged(Run(s, actions[..n]), LogAfter(s, l, actions[..n], id), actions[n], id)
  }

  // ----- The net is always the settlement less the logged refunds -----

  predicate TaskLogged(task: Task, t: TaskId, l: Log, id: OrderId, total: Cents, fee: real) {
    match task
    case ReturnWritten(order, refund) =>
      order == id && refund.Some? ==> t in l.owed && l.owed[t].usd == refund.value
    case EarningsRead(order, net, read, taken) =>
      order == id ==>
        && t in l.owed && t in l.read && taken == l.owed[t].usd
        && read == NetAfterRefunds(total, fee, Dollars(l.read[t])) && net == ReducedNet(read, taken, fee)
    case _ => true
  }

  ghost predicate LogOk(s: State, l: Log, id: OrderId, total: Cents, fee: real) {
    && id in s.db.orders && s.db.orders[id].status != Pending
    && s.db.orders[id].total == total && s.db.orders[id].feePercent == Some(fee)
    && s.db.orders[id].sellerNet == Some(NetAfterRefunds(total, fee, Dollars(l.net)))
    && forall t :: t in s.tasks ==> TaskLogged(s.tasks[t], t, l, id, total, fee)
  }

  predicate OfEarnings(task: Task) {
    task.ReturnWritten? || task.EarningsRead?
  }

  /** A step that leaves the net amounts of settled orders, and every update on its way to one, alone. */
  ghost predicate LeavesNets(s: State, s': State) {
    && (forall id :: id in s.db.orders && s.db.orders[id].status != Pending ==>
          id in s'.db.orders && s'.db.orders[id].sellerNet == s.db.orders[id].sellerNet)
    && forall t :: t in s'.tasks && OfEarnings(s'.tasks[t]) ==> t in s.tasks && s'.tasks[t] == s.tasks[t]
  }

  predicate ForEarnings(a: Action) {
    a.WriteReturn? || a.ReadEarnings? || a.WriteEarnings?
  }

  lemma SameNets(s: State, s': State)
    requires s'.db.orders == s.db.orders && s'.tasks == s.tasks
    ensures LeavesNets(s, s')
  {
  }

  lemma ProductLeavesNets(s: State, a: Action)
    ensures LeavesNets(s, ProductStep(s, a))
  {
    hide AccountPulled, LeavesNets;
    SameNets(s, ProductStep(s, a));
  }

  lemma ReturnLeavesNets(s: State, a: Action)
    requires !ForEarnings(a)
    ensures LeavesNets(s, ReturnStep(s, a))
  {
    hide ProductStep, FullyReturned, ReturnTransitions;
    ProductLeavesNets(s, a);
  }

  lemma ClaimLeavesNets(s: State, t: TaskId)
    ensures LeavesNets(s, ClaimStep(s, t)) && LeavesNets(s, ClaimUnpaidStep(s, t))
  {
    hide ReleaseFor;
  }

  lemma RefundLeavesNets(s: State, t: TaskId)
    ensures LeavesNets(s, RefundSucceedsStep(s, t)) && LeavesNets(s, RefundFailsStep(s, t))
    ensures LeavesNets(s, RelistStep(s, t))
  {
    hide RelistAll;
  }

  lemma AdvanceLeavesNets(s: State, t: TaskId)
    ensures LeavesNets(s, AdvanceStep(s, t))
  {
  }

  lemma BeginLeavesNets(s: State, t: TaskId, task: Task)
    requires !OfEarnings(task)
    ensures LeavesNets(s, s) && LeavesNets(s, Begin(s, t, task))
  {
  }

  lemma FulfilmentLeavesNets(s: State, a: Action)
    requires !ForEarnings(a)
    ensures LeavesNets(s, FulfilmentStep(s, a))
  {
    hide LeavesNets, ReturnStep, MayMove, ClaimStep, RefundSucceedsStep, RefundFailsStep, RelistStep, AdvanceStep,
         Begin;
    match a
    case BeginCancel(t, id, actor, user, to, funding) =>
      BeginLeavesNets(s, t, if id in s.db.orders
                            then Cancelling(id, s.db.orders[id], to, Cancellation(s.now, user, actor), funding)
                            else Refused(id));
    case Claim(t) => ClaimLeavesNets(s, t);
    case RefundSucceeds(t) => RefundLeavesNets(s, t);
    case RefundFails(t) => RefundLeavesNets(s, t);
    case Relist(t) => RefundLeavesNets(s, t);
    case BeginAdvance(t, id, actor, to) =>
      BeginLeavesNets(s, t, if id in s.db.orders then Advancing(id, s.db.orders[id].status, to) else Refused(id));
    case Advance(t) => AdvanceLeavesNets(s, t);
    case _ => ReturnLeavesNets(s, a);
  }

  lemma CancelUnpaidLeavesNets(s: State, t: TaskId)
    ensures LeavesNets(s, CancelUnpaidStep(s, t))
  {
  }

  lemma ReleaseLeavesNets(s: State, t: TaskId, id: OrderId)
    ensures LeavesNets(s, ReleaseStep(s, t, id)) && LeavesNets(s, End(s, t))
  {
    hide ReleaseFor;
  }

  lemma CancelAtOnceLeavesNets(s: State, ids: seq<OrderId>)
    ensures LeavesNets(s, CancelAtOnceStep(s, ids))
  {
    hide ReleaseFound, FindPending;
  }

  lemma UnpaidLeavesNets(s: State, a: Action)
    requires !ForEarnings(a)
    ensures LeavesNets(s, UnpaidStep(s, a))
  {
    hide LeavesNets, FulfilmentStep, CancelUnpaidStep, ReleaseStep, CancelAtOnceStep, ClaimUnpaidStep, FindPending, End,
         Begin;
    match a
    case FindUnpaid(t, ids) => BeginLeavesNets(s, t, FoundUnpaid(FindPending(s.db, ids)));
    case CancelUnpaid(t) => CancelUnpaidLeavesNets(s, t);
    case ReleaseHolds(t, id) => ReleaseLeavesNets(s, t, id);
    case CancelUnpaidAtOnce(ids) => CancelAtOnceLeavesNets(s, ids);
    case ClaimUnpaidAtOnce(t) => ClaimLeavesNets(s, t);
    case Abandon(t) => ReleaseLeavesNets(s, t, 0);
    case _ => FulfilmentLeavesNets(s, a);
  }

  lemma CheckoutLeavesNets(s: State, buyer: UserId, drafts: seq<Draft>, minutes: nat)
    requires forall id :: id in s.db.orders ==> id < s.db.nextOrder
    ensures LeavesNets(s, CheckoutStep(s, buyer, drafts, minutes))
  {
    hide AllItems, CanCheckout, ValidDrafts, HoldAll;
  }

  lemma LeavesTwice(a: State, b: State, c: State)
    requires LeavesNets(a, b) && LeavesNets(b, c) && Evolves(a.db, b.db)
    ensures LeavesNets(a, c)
  {
  }

  lemma ReplaceLeavesNets(s: State, buyer: UserId, drafts: seq<Draft>, minutes: nat)
    requires Inv(s)
    ensures LeavesNets(s, ReplaceAndCheckoutStep(s, buyer, drafts, minutes))
  {
    hide CheckoutStep, ReleaseFound, AllItems, Inv, OpenCheckouts;
    var s1 := s.(db := OpenCheckoutsReplaced(s.db, buyer, AllItems(drafts), s.now));
    assert LeavesNets(s, s1);
    ReplacedKeeps(s, buyer, AllItems(drafts));
    assert forall id :: id in s1.db.orders ==> id < s1.db.nextOrder by { NumberedBelow(s1); }
    CheckoutLeavesNets(s1, buyer, drafts, minutes);
    hide OpenCheckoutsReplaced, LeavesNets, Evolves;
    LeavesTwice(s, s1, ReplaceAndCheckoutStep(s, buyer, drafts, minutes));
  }

  lemma NumberedBelow(s: State)
    requires Inv(s)
    ensures forall id :: id in s.db.orders ==> id < s.db.nextOrder
  {
    hide OrderOk, Owns;
  }

  lemma BeginSettleLeavesNets(s: State, t: TaskId, id: OrderId, fee: real, session: Option<int>)
    ensures LeavesNets(s, BeginSettleStep(s, t, id, fee, session))
  {
  }

  lemma CommitLeavesNets(s: State, t: TaskId)
    ensures LeavesNets(s, CommitSettleStep(s, t))
  {
    hide SellAll, AllAvailable, SettlementNet;
  }

  lemma RejectLeavesNets(s: State, t: TaskId)
    ensures LeavesNets(s, RereadStep(s, t)) && LeavesNets(s, RejectStep(s, t))
  {
    hide ReleaseFound, FindPending, RereadReport;
  }

  lemma SettlementLeavesNets(s: State, a: Action)
    requires a.BeginSettle? || a.CommitSettle? || a.Reread? || a.RejectAtOnce?
    ensures LeavesNets(s, Step(s, a))
  {
    hide LeavesNets, BeginSettleStep, CommitSettleStep, RereadStep, RejectStep;
    if a.BeginSettle? {
      BeginSettleLeavesNets(s, a.t, a.order, a.fee, a.session);
    } else if a.CommitSettle? {
      CommitLeavesNets(s, a.t);
    } else {
      RejectLeavesNets(s, a.t);
    }
  }

  lemma OthersLeaveNets(s: State, a: Action)
    requires Inv(s) && !ForEarnings(a)
    ensures LeavesNets(s, Step(s, a))
  {
    NumberedBelow(s);
    if a.BeginSettle? || a.CommitSettle? || a.Reread? || a.RejectAtOnce? {
      SettlementLeavesNets(s, a);
    } else if a.OpenOrders? {
      CheckoutLeavesNets(s, a.buyer, a.drafts, a.minutes);
      assert Step(s, a) == CheckoutStep(s, a.buyer, a.drafts, a.minutes);
    } else if a.CheckoutAtOnce? {
      ReplaceLeavesNets(s, a.buyer, a.drafts, a.minutes);
      assert Step(s, a) == ReplaceAndCheckoutStep(s, a.buyer, a.drafts, a.minutes);
    } else {
      hide Inv, UnpaidStep;
      UnpaidLeavesNets(s, a);
    }
  }

  /** Any step but one on the way to the net amount. */
  lemma OthersLog(s: State, l: Log, a: Action, id: OrderId, total: Cents, fee: real)
    requires Inv(s) && LogOk(s, l, id, total, fee) && !ForEarnings(a)
    ensures LogOk(Step(s, a), Logged(s, l, a, id), id, total, fee)
  {
    hide Inv, Step, NetAfterRefunds, ReducedNet;
    OthersLeaveNets(s, a);
    StepKeeps(s, a);
  }

  lemma DollarsSnoc(ds: seq<Deduction>, d: Deduction)
    ensures Dollars(ds + [d]) == Dollars(ds) + [d.usd]
  {
  }

  lemma NetSnoc(total: Cents, fee: real, refunds: seq<real>, refund: real)
    ensures NetAfterRefunds(total, fee, refunds + [refund])
         == ReducedNet(NetAfterRefunds(total, fee, refunds), refund, fee)
  {
    assert (refunds + [refund])[..|refunds|] == refunds;
  }

  lemma WriteReturnLogs(s: State, l: Log, a: Action, id: OrderId, total: Cents, fee: real)
    requires LogOk(s, l, id, total, fee) && a.WriteReturn?
    ensures LogOk(Step(s, a), Logged(s, l, a, id), id, total, fee)
  {
    hide NetAfterRefunds, ReducedNet, UpdatedReturn;
    assert Step(s, a) == WriteReturnStep(s, a.t, a.given, a.made);
  }

  lemma ReadEarningsLogs(s: State, l: Log, a: Action, id: OrderId, total: Cents, fee: real)
    requires LogOk(s, l, id, total, fee) && a.ReadEarnings?
    ensures LogOk(Step(s, a), Logged(s, l, a, id), id, total, fee)
  {
    hide NetAfterRefunds, ReducedNet;
    assert Step(s, a) == ReadEarningsStep(s, a.t);
  }

  lemma WriteEarningsLogs(s: State, l: Log, a: Action, id: OrderId, total: Cents, fee: real)
    requires LogOk(s, l, id, total, fee) && a.WriteEarnings?
    ensures LogOk(Step(s, a), Logged(s, l, a, id), id, total, fee)
  {
    assert Step(s, a) == WriteEarningsStep(s, a.t);
    if Writes(s, l, a, id) {
      DollarsSnoc(l.read[a.t], l.owed[a.t]);
      NetSnoc(total, fee, Dollars(l.read[a.t]), l.owed[a.t].usd);
    }
    hide NetAfterRefunds, ReducedNet, Dollars;
  }

  /**
   Whatever overlaps, a settled order nets its seller what the settlement leaves after some of its refunds, those of
   the log: each update that writes the net puts its own refund behind those that were off when it read.
   */
  lemma {:induction false} NetIsLogged(s: State, l: Log, actions: seq<Action>, id: OrderId, total: Cents, fee: real)
    requires Inv(s) && LogOk(s, l, id, total, fee)
    ensures LogOk(Run(s, actions), LogAfter(s, l, actions, id), id, total, fee)
  {
    hide Inv, LogOk, Step, Logged;
    if actions != [] {
      var n := |actions| - 1;
      var a := actions[n];
      NetIsLogged(s, l, actions[..n], id, total, fee);
      RunKeeps(s, actions[..n]);
      var before, log := Run(s, actions[..n]), LogAfter(s, l, actions[..n], id);
      if a.WriteReturn? {
        WriteReturnLogs(before, log, a, id, total, fee);
      } else if a.ReadEarnings? {
        ReadEarningsLogs(before, log, a, id, total, fee);
      } else if a.WriteEarnings? {
        WriteEarningsLogs(before, log, a, id, total, fee);
      } else {
        OthersLog(before, log, a, id, total, fee);
      }
    }
  }

  // ----- When that is each refund exactly once -----

  /** The net amount is short of every refund ever taken off, once. */
  ghost predicate Right(l: Log) {
    NoRepeats(Keys(l.net)) && forall key :: key in Keys(l.net) <==> key in l.taken
  }

  /**
   When the update read the net, that was short of exactly the refunds taken off by now, but for its own return's: no
   other return's refund came in between, and its own return's was not off yet.
   */
  ghost predicate Undisturbed(l: Log, t: TaskId)
    requires t in l.read && t in l.owed
  {
    forall key :: key in Keys(l.read[t]) <==> key in l.taken && key != l.owed[t].key
  }

  ghost predicate ReadsOnce(l: Log) {
    forall t :: t in l.read ==> NoRepeats(Keys(l.read[t]))
  }

  lemma WriteRightIff(l: Log, t: TaskId)
    requires t in l.read && t in l.owed && NoRepeats(Keys(l.read[t]))
    ensures Right(TakenOff(l, t)) <==> Undisturbed(l, t)
  {
    var own := l.owed[t].key;
    var before := Keys(l.read[t]);
    assert Keys(l.read[t] + [l.owed[t]]) == before + [own];
    if own in before {
      var k :| 0 <= k < |before| && before[k] == own;
      assert (before + [own])[k] == (before + [own])[|before|];
    } else {
      NoRepeatsSnoc(before, own);
    }
    hide Keys, NoRepeats;
    forall key
      ensures key in before + [own] <==> key in before || key == own
    {
    }
  }

  lemma SameRight(l: Log, l': Log)
    requires l'.net == l.net && l'.taken == l.taken
    ensures Right(l') <==> Right(l)
  {
  }

  lemma OneMoreRead(l: Log, t: TaskId)
    requires Right(l) && ReadsOnce(l)
    ensures ReadsOnce(l.(read := l.read[t := l.net]))
  {
    hide Keys, NoRepeats;
  }

  lemma OneMoreLogged(s: State, l: Log, a: Action, id: OrderId)
    requires Right(l) && ReadsOnce(l)
    ensures ReadsOnce(Logged(s, l, a, id))
    ensures Right(Logged(s, l, a, id)) <==> (Writes(s, l, a, id) ==> Undisturbed(l, a.t))
  {
    hide Undisturbed, Right, Keys, NoRepeats;
    if Writes(s, l, a, id) {
      WriteRightIff(l, a.t);
    } else {
      SameRight(l, Logged(s, l, a, id));
      if a.ReadEarnings? {
        OneMoreRead(l, a.t);
      }
    }
  }

  /** In every state of the run the net amount is short of each refund taken off exactly once. */
  ghost predicate RightThroughout(s: State, l: Log, actions: seq<Action>, id: OrderId) {
    && (actions == [] || RightThroughout(s, l, actions[..|actions| - 1], id))
    && Right(LogAfter(s, l, actions, id))
  }

  /** Every update of the run that writes the net does so undisturbed. */
  ghost predicate AllUndisturbed(s: State, l: Log, actions: seq<Action>, id: OrderId) {
    actions == []
    || (var n := |actions| - 1;
        var log := LogAfter(s, l, actions[..n], id);
        AllUndisturbed(s, l, actions[..n], id)
        && (Writes(Run(s, actions[..n]), log, actions[n], id) ==> Undisturbed(log, actions[n].t)))
  }

  /**
   In every state of a run a seller's net is the settlement less each refund taken off so far, once, if and only if
   every update that writes it is undisturbed.
   */
  lemma {:induction false} RightThroughoutIff(s: State, l: Log, actions: seq<Action>, id: OrderId)
    requires Right(l) && ReadsOnce(l)
    ensures RightThroughout(s, l, actions, id) <==> AllUndisturbed(s, l, actions, id)
    ensures RightThroughout(s, l, actions, id) ==>
              Right(LogAfter(s, l, actions, id)) && ReadsOnce(LogAfter(s, l, actions, id))
  {
    hide Right, ReadsOnce, Undisturbed, Step, Logged, Writes;
    if actions != [] {
      var n := |actions| - 1;
      RightThroughoutIff(s, l, actions[..n], id);
      if RightThroughout(s, l, actions[..n], id) {
        OneMoreLogged(Run(s, actions[..n]), LogAfter(s, l, actions[..n], id), actions[n], id);
      }
    }
  }

  /** No net is written between an update's read and its write, and no return's refund is taken off by two updates. */
  ghost predicate AllAlone(s: State, l: Log, actions: seq<Action>, id: OrderId) {
    actions == []
    || (var n := |actions| - 1;
        var log := LogAfter(s, l, actions[..n], id);
        AllAlone(s, l, actions[..n], id)
        && (Writes(Run(s, actions[..n]), log, actions[n], id) ==>
              log.read[actions[n].t] == log.net && log.owed[actions[n].t].key !in log.taken))
  }

  lemma AloneIsUndisturbed(l: Log, t: TaskId)
    requires Right(l) && t in l.read && t in l.owed && l.read[t] == l.net && l.owed[t].key !in l.taken
    ensures Undisturbed(l, t)
  {
  }

  /** So updates that do not overlap, one for each return, leave the net right in every state of a run. */
  lemma {:induction false} AloneIsRight(s: State, l: Log, actions: seq<Action>, id: OrderId)
    requires Right(l) && ReadsOnce(l) && AllAlone(s, l, actions, id)
    ensures AllUndisturbed(s, l, actions, id) && RightThroughout(s, l, actions, id)
    decreases |actions|
  {
    hide Right, ReadsOnce, Undisturbed, Step, Logged;
    if actions != [] {
      var n := |actions| - 1;
      AloneIsRight(s, l, actions[..n], id);
      RightThroughoutIff(s, l, actions[..n], id);
      var log := LogAfter(s, l, actions[..n], id);
      if Writes(Run(s, actions[..n]), log, actions[n], id) {
        AloneIsUndisturbed(log, actions[n].t);
      }
    }
    hide RightThroughout, AllAlone, LogAfter, Run;
    RightThroughoutIff(s, l, actions, id);
  }

  /** The log of an order that was just settled, with no update on its way to its net amount. */
  const NOTHING_OFF: Log := Log([], map[], map[], {})

  /**
   Put together: from a settled order on, with no update on its way, whatever runs: the net is the settlement less
   some refunds, and while every writing update is undisturbed these are each refund taken off exactly once.
   */
  lemma NetIsSettlementLessRefunds(s: State, actions: seq<Action>, id: OrderId)
    requires Inv(s) && id in s.db.orders && Paid(s.db.orders[id])
    requires var o := s.db.orders[id]; o.sellerNet == Some(SettlementNet(o.total, o.feePercent.value))
    requires forall t :: t in s.tasks ==> !OfEarnings(s.tasks[t])
    ensures var o := s.db.orders[id];
            var l := LogAfter(s, NOTHING_OFF, actions, id);
            && id in Run(s, actions).db.orders
            && Run(s, actions).db.orders[id].sellerNet
               == Some(NetAfterRefunds(o.total, o.feePercent.value, Dollars(l.net)))
            && (AllUndisturbed(s, NOTHING_OFF, actions, id) ==> Right(l))
  {
    var o := s.db.orders[id];
    assert s.db.orders[id].status != Pending by { PaidIsNotPending(s, id); }
    assert Dollars([]) == [];
    assert Right(NOTHING_OFF) && ReadsOnce(NOTHING_OFF);
    hide Inv, Run, LogAfter, Right, AllUndisturbed;
    NetIsLogged(s, NOTHING_OFF, actions, id, o.total, o.feePercent.value);
    RightThroughoutIff(s, NOTHING_OFF, actions, id);
  }

  lemma PaidIsNotPending(s: State, id: OrderId)
    requires Inv(s) && id in s.db.orders && s.db.orders[id].confirmedAt.Some?
    ensures s.db.orders[id].status != Pending
  {
    assert OrderOk(s.db.orders[id], s.now);
  }
}
