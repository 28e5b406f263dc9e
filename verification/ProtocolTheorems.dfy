/** What holds of the order protocol over whole runs, whatever the interleaving. */
module ProtocolTheorems {
  import opened Wrappers
  import opened Domain
  import opened OrderSteps
  import opened Protocol
  import opened ProtocolInvariant
  import opened ProtocolSteps

  function Reached(now: Time, actions: seq<Action>): State {
    Run(Initial(now), actions)
  }

  lemma RunSnoc(s: State, actions: seq<Action>, a: Action)
    ensures Run(s, actions + [a]) == Step(Run(s, actions), a)
  {
    assert (actions + [a])[..|actions|] == actions;
  }

  /**
   Along any run the invariant stays, no order disappears or changes what was sold to whom, no
   order becomes unpaid again, and a confirmation time once set never changes.
   */
  lemma {:induction false} RunKeeps(s: State, actions: seq<Action>)
    requires Inv(s)
    ensures Inv(Run(s, actions)) && Evolves(s.db, Run(s, actions).db)
  {
    hide Inv, Evolves, Step;
    if actions == [] {
      SameOrdersEvolve(s.db, s.db);
    } else {
      var front := actions[..|actions| - 1];
      RunKeeps(s, front);
      StepKeeps(Run(s, front), actions[|actions| - 1]);
      EvolvesTransitively(s.db, Run(s, front).db, Run(s, actions).db);
    }
  }

  lemma ReachedOk(now: Time, actions: seq<Action>)
    ensures Inv(Reached(now, actions))
  {
    assert Inv(Initial(now));
    RunKeeps(Initial(now), actions);
  }

  // ----- Single sale -----

  /** The order has the item: it is paid and not cancelled, or its cancellation is not finished. */
  ghost predicate Has(s: State, id: OrderId, p: ProductId) {
    && id in s.db.orders && p in s.db.orders[id].items
    && (Live(s.db.orders[id].status) || !NobodyHolds(s, id))
  }

  lemma HasOwns(s: State, id: OrderId, p: ProductId)
    requires Inv(s) && Has(s, id, p)
    ensures p in s.db.products && s.db.products[p].status == Sold && p in s.soldTo && s.soldTo[p] == id
  {
    hide OrderOk;
    if !NobodyHolds(s, id) {
      var u :| u in s.tasks && Holding(s.tasks[u]) && s.tasks[u].order == id;
      HolderKnown(s, u);
    }
    assert Owns(s, id);
  }

  /** In every reachable state an item belongs to at most one order, and then it is sold. */
  lemma SingleSale(now: Time, actions: seq<Action>, a: OrderId, b: OrderId, p: ProductId)
    requires Has(Reached(now, actions), a, p)
    ensures p in Reached(now, actions).db.products && Reached(now, actions).db.products[p].status == Sold
    ensures Has(Reached(now, actions), b, p) ==> a == b
  {
    hide Inv, Run;
    ReachedOk(now, actions);
    HasOwns(Reached(now, actions), a, p);
    if Has(Reached(now, actions), b, p) {
      HasOwns(Reached(now, actions), b, p);
    }
  }

  // ----- Exactly-once confirmation -----

  lemma {:induction false} AtMostOneMention(outcomes: seq<Outcome>, id: OrderId, i: nat, j: nat)
    requires i < j < |outcomes| && outcomes[i] == outcomes[j] == Outcome(id, ConfirmedNow)
    ensures 2 <= ConfirmedReports(outcomes, id)
  {
    var n := |outcomes| - 1;
    if j < n {
      AtMostOneMention(outcomes[..n], id, i, j);
    } else {
      Mentioned(outcomes[..n], id, i);
    }
  }

  lemma {:induction false} Mentioned(outcomes: seq<Outcome>, id: OrderId, i: nat)
    requires i < |outcomes| && outcomes[i] == Outcome(id, ConfirmedNow)
    ensures 1 <= ConfirmedReports(outcomes, id)
  {
    var n := |outcomes| - 1;
    if i < n {
      Mentioned(outcomes[..n], id, i);
    }
  }

  lemma {:induction false} NotMentioned(outcomes: seq<Outcome>, id: OrderId)
    requires Outcome(id, ConfirmedNow) !in outcomes
    ensures ConfirmedReports(outcomes, id) == 0
  {
    if outcomes != [] {
      NotMentioned(outcomes[..|outcomes| - 1], id);
    }
  }

  /** At most one settlement of an order reports a confirmation, and one does exactly if it ever got confirmed. */
  lemma ConfirmedExactlyOnce(now: Time, actions: seq<Action>, id: OrderId)
    ensures var s := Reached(now, actions);
            && (EverConfirmed(s.db, id) <==> Outcome(id, ConfirmedNow) in s.outcomes)
            && forall i, j :: 0 <= i < j < |s.outcomes| && s.outcomes[i] == Outcome(id, ConfirmedNow)
                 ==> s.outcomes[j] != Outcome(id, ConfirmedNow)
  {
    var s := Reached(now, actions);
    ReachedOk(now, actions);
    assert ConfirmedReports(s.outcomes, id) == if EverConfirmed(s.db, id) then 1 else 0;
    hide Inv, Run, ConfirmedReports;
    if Outcome(id, ConfirmedNow) in s.outcomes {
      var i :| 0 <= i < |s.outcomes| && s.outcomes[i] == Outcome(id, ConfirmedNow);
      Mentioned(s.outcomes, id, i);
    } else {
      NotMentioned(s.outcomes, id);
    }
    forall i, j | 0 <= i < j < |s.outcomes| && s.outcomes[i] == s.outcomes[j] == Outcome(id, ConfirmedNow)
      ensures false
    {
      AtMostOneMention(s.outcomes, id, i, j);
    }
  }

  predicate NotCancelled(s: State, id: OrderId) {
    id in s.db.orders && s.db.orders[id].status != Cancelled
  }

  /** No entry for the order from position `from` on is a rejection. */
  predicate NoRejection(outcomes: seq<Outcome>, from: nat, id: OrderId) {
    from <= |outcomes| && Outcome(id, RejectedNow) !in outcomes[from..]
  }

  lemma ProductReportsNothing(s: State, a: Action)
    ensures ProductStep(s, a).outcomes == s.outcomes
  {
    hide AccountPulled;
  }

  lemma ReturnReportsNothing(s: State, a: Action)
    ensures ReturnStep(s, a).outcomes == s.outcomes
  {
    hide ProductStep, FullyReturned, ReturnTransitions, UpdatedReturn, RefundOf;
    ProductReportsNothing(s, a);
  }

  lemma FulfilmentReportsNothing(s: State, a: Action)
    ensures FulfilmentStep(s, a).outcomes == s.outcomes
  {
    hide MayMove, ReturnStep;
    ReturnReportsNothing(s, a);
  }

  lemma UnpaidReportsNothing(s: State, a: Action)
    ensures UnpaidStep(s, a).outcomes == s.outcomes
  {
    hide FindPending, ReleaseFound, CancelFound, FulfilmentStep;
    FulfilmentReportsNothing(s, a);
  }

  lemma CheckoutReportsNothing(s: State, buyer: UserId, drafts: seq<Draft>, minutes: nat)
    ensures CheckoutStep(s, buyer, drafts, minutes).outcomes == s.outcomes
    ensures ReplaceAndCheckoutStep(s, buyer, drafts, minutes).outcomes == s.outcomes
  {
    hide CanCheckout, ValidDrafts, CheckedOut, OpenCheckoutsReplaced, AllItems;
  }

  lemma OthersReportNothing(s: State, a: Action)
    requires !a.BeginSettle? && !a.CommitSettle? && !a.Reread? && !a.RejectAtOnce?
    ensures Step(s, a).outcomes == s.outcomes
  {
    hide UnpaidStep, CheckoutStep, ReplaceAndCheckoutStep;
    UnpaidReportsNothing(s, a);
    if a.OpenOrders? || a.CheckoutAtOnce? {
      CheckoutReportsNothing(s, a.buyer, a.drafts, a.minutes);
    }
  }

  /** A settlement that rejects an existing order leaves it cancelled, unless its re-read stands alone. */
  lemma RejectionCancels(s: State, a: Action, id: OrderId)
    requires 0 < id && id in s.db.orders && !a.Reread?
    ensures var s' := Step(s, a);
            && s.outcomes <= s'.outcomes
            && (NoRejection(s'.outcomes, |s.outcomes|, id)
                || (id in s'.db.orders && s'.db.orders[id].status == Cancelled))
  {
    hide ReleaseFound, SettledDb, CanSettle, UnpaidStep, CheckoutStep, ReplaceAndCheckoutStep, NoRejection;
    SilentOrOne(s.outcomes, id);
    if a.RejectAtOnce? {
      if a.t in s.tasks && s.tasks[a.t].Refused? && s.tasks[a.t].order == id {
        assert id in [id];
      }
    } else if !a.BeginSettle? && !a.CommitSettle? {
      OthersReportNothing(s, a);
    }
  }

  lemma SilentOrOne(outcomes: seq<Outcome>, id: OrderId)
    ensures NoRejection(outcomes, |outcomes|, id)
    ensures forall o: Outcome :: o != Outcome(id, RejectedNow) ==> NoRejection(outcomes + [o], |outcomes|, id)
  {
  }

  /** Whatever turns the order into a cancelled one along the run is a settlement that rejects it. */
  predicate OnlyRejectionsCancel(s: State, actions: seq<Action>, id: OrderId) {
    forall k :: 0 <= k < |actions| && NotCancelled(Run(s, actions[..k]), id)
      ==> NotCancelled(Run(s, actions[..k + 1]), id) || actions[k].RejectAtOnce?
  }

  lemma {:induction false} OutcomesGrow(s: State, actions: seq<Action>, k: nat)
    requires k <= |actions|
    ensures Run(s, actions[..k]).outcomes <= Run(s, actions).outcomes
  {
    if k == |actions| {
      assert actions[..k] == actions;
    } else {
      var n := |actions| - 1;
      assert actions[..n][..k] == actions[..k];
      OutcomesGrow(s, actions[..n], k);
      hide Step;
      StepReports(Run(s, actions[..n]), actions[n]);
    }
  }

  lemma StepReports(s: State, a: Action)
    ensures s.outcomes <= Step(s, a).outcomes
  {
    hide PendingCancelled, SettledDb, CanSettle, UnpaidStep, CheckoutStep, ReplaceAndCheckoutStep;
    if !a.BeginSettle? && !a.CommitSettle? && !a.Reread? && !a.RejectAtOnce? {
      OthersReportNothing(s, a);
    }
  }

  /** A rejection cancels right behind its re-read an order that was never confirmed. */
  lemma RejectionDrops(s: State, t: TaskId, id: OrderId)
    requires Inv(s) && NotCancelled(s, id) && !NotCancelled(Step(s, RejectAtOnce(t)), id)
    ensures id in Step(s, RejectAtOnce(t)).db.orders && Dropped(Step(s, RejectAtOnce(t)).db.orders[id])
  {
    hide ReleaseFound;
    assert OrderOk(s.db.orders[id], s.now);
  }

  lemma DroppedOnTheWay(s: State, actions: seq<Action>, id: OrderId, k: nat)
    requires Inv(s) && k <= |actions|
    requires id in Run(s, actions[..k]).db.orders && Dropped(Run(s, actions[..k]).db.orders[id])
    ensures Outcome(id, ConfirmedNow) !in Run(s, actions).outcomes
  {
    hide Inv, Step, Dropped;
    assert actions == actions[..k] + actions[k..];
    RunConcat(s, actions[..k], actions[k..]);
    RunKeeps(s, actions[..k]);
    DroppedForever(Run(s, actions[..k]), actions[k..], id);
  }

  /** While nothing but a rejection cancels the order, and some settlement confirms it, it is never cancelled. */
  lemma {:induction false} NeverCancelled(s: State, actions: seq<Action>, id: OrderId, k: nat)
    requires Inv(s) && NotCancelled(s, id) && OnlyRejectionsCancel(s, actions, id) && k <= |actions|
    requires Outcome(id, ConfirmedNow) in Run(s, actions).outcomes
    ensures NotCancelled(Run(s, actions[..k]), id)
  {
    hide Inv, Step, Dropped, NotCancelled;
    if k == 0 {
      assert actions[..0] == [];
    } else {
      hide Run;
      var j := k - 1;
      NeverCancelled(s, actions, id, j);
      assert NotCancelled(Run(s, actions[..j + 1]), id) || actions[j].RejectAtOnce?;
      hide OnlyRejectionsCancel;
      if !NotCancelled(Run(s, actions[..k]), id) {
        RunSnoc(s, actions[..j], actions[j]);
        assert actions[..k] == actions[..j] + [actions[j]];
        RunKeeps(s, actions[..j]);
        RejectionDrops(Run(s, actions[..j]), actions[j].t, id);
        DroppedOnTheWay(s, actions, id, k);
      }
    }
  }

  /**
   In a run in which nobody cancels the order but its own rejections, if some settlement confirms the
   order then none rejects it: of all those racing for it one confirms, and every other one reports
   that it was settled already.
   */
  lemma {:induction false} LosersReportSettled(s: State, actions: seq<Action>, id: OrderId)
    requires Inv(s) && NotCancelled(s, id) && OnlyRejectionsCancel(s, actions, id)
    requires forall i :: 0 <= i < |actions| ==> !actions[i].Reread?
    requires Outcome(id, ConfirmedNow) in Run(s, actions).outcomes
    ensures s.outcomes <= Run(s, actions).outcomes
    ensures NoRejection(Run(s, actions).outcomes, |s.outcomes|, id)
  {
    forall k | 0 <= k <= |actions|
      ensures NotCancelled(Run(s, actions[..k]), id)
    {
      NeverCancelled(s, actions, id, k);
    }
    UncancelledNotRejected(s, actions, id);
  }

  lemma {:induction false} UncancelledNotRejected(s: State, actions: seq<Action>, id: OrderId)
    requires Inv(s) && id in s.db.orders
    requires forall i :: 0 <= i < |actions| ==> !actions[i].Reread?
    requires forall k :: 0 <= k <= |actions| ==> NotCancelled(Run(s, actions[..k]), id)
    ensures s.outcomes <= Run(s, actions).outcomes
    ensures NoRejection(Run(s, actions).outcomes, |s.outcomes|, id)
  {
    assert 0 < id;
    hide Inv, Step;
    if actions != [] {
      var n := |actions| - 1;
      var front := actions[..n];
      assert forall k :: 0 <= k <= n ==> front[..k] == actions[..k];
      UncancelledNotRejected(s, front, id);
      RunKeeps(s, front);
      RejectionCancels(Run(s, front), actions[n], id);
      assert actions[..n + 1] == actions;
    }
  }

  /**
   A re-read that stands alone rejects an order that is not cancelled exactly when it still finds the
   order unpaid, as after the conflict on its items was only passing.
   */
  lemma RereadRejectsUncancelledIff(s: State, t: TaskId)
    requires Inv(s) && t in s.tasks && s.tasks[t].Refused?
    ensures var id := s.tasks[t].order;
            var s' := Step(s, Reread(t));
            && id in s'.db.orders && s.outcomes <= s'.outcomes
            && (!NoRejection(s'.outcomes, |s.outcomes|, id) && s'.db.orders[id].status != Cancelled
                <==> s.db.orders[id].status == Pending)
  {
    hide OrderOk, OrdersOk, ReturnsOk, ReportsOk, HoldersDistinct;
    assert TaskOk(s, s.tasks[t]);
    var id := s.tasks[t].order;
    assert Step(s, Reread(t)) == RereadStep(s, t);
    SilentOrOne(s.outcomes, id);
    assert (s.outcomes + [Outcome(id, RejectedNow)])[|s.outcomes|..] == [Outcome(id, RejectedNow)];
  }

  /** A settlement transaction sells every item of its order and confirms it, or it changes no row at all. */
  lemma SettlesAllOrNothing(s: State, t: TaskId)
    requires Inv(s) && t in s.tasks && s.tasks[t].Settling?
    ensures var task := s.tasks[t];
            var s' := Step(s, CommitSettle(t));
            if Outcome(task.order, ConfirmedNow) in s'.outcomes[|s.outcomes|..] then
              && s.db.orders[task.order].status == Pending && s'.db.orders[task.order].status == Confirmed
              && (forall p :: p in s.db.orders[task.order].items ==>
                    && Available(s.db.products[p], s.db.orders[task.order].buyer, task.at)
                    && s'.db.products[p].status == Sold && s'.db.products[p].reservedBy.None?)
              && (forall p :: p in s.db.products && p !in s.db.orders[task.order].items ==>
                    p in s'.db.products && s'.db.products[p] == s.db.products[p])
            else s'.db == s.db
  {
    hide OrderOk, OrdersOk, ReturnsOk, ReportsOk, HoldersDistinct;
    assert TaskOk(s, s.tasks[t]);
  }

  /** An unpaid order that was cancelled is never confirmed, whatever payment arrives for it later. */
  lemma DroppedForever(s: State, actions: seq<Action>, id: OrderId)
    requires Inv(s) && id in s.db.orders && Dropped(s.db.orders[id])
    ensures var s' := Run(s, actions);
            && id in s'.db.orders && Dropped(s'.db.orders[id])
            && Outcome(id, ConfirmedNow) !in s'.outcomes
  {
    var s' := Run(s, actions);
    hide Step;
    RunKeeps(s, actions);
    assert ConfirmedReports(s'.outcomes, id) == 0;
    if Outcome(id, ConfirmedNow) in s'.outcomes {
      var i :| 0 <= i < |s'.outcomes| && s'.outcomes[i] == Outcome(id, ConfirmedNow);
      Mentioned(s'.outcomes, id, i);
    }
  }

  // ----- What a re-read on its own does not give -----

  function GapItem(status: ProductStatus): Product {
    Product(1, status, Verified, None, Some(30), Some(2))
  }

  const GAP_ORDER: Order := Opened(2, Draft(1, [7], 1000))

  function GapState(status: ProductStatus, tasks: map<TaskId, Task>, outcomes: seq<Outcome>): State {
    State(Db(map[7 := GapItem(status)], map[1 := GAP_ORDER], 2, map[]), 0, tasks, outcomes, map[], map[1 := 30])
  }

  lemma {:induction false} RunConcat(s: State, a: seq<Action>, b: seq<Action>)
    ensures Run(s, a + b) == Run(Run(s, a), b)
  {
    if b == [] {
      assert a + b == a;
    } else {
      hide Step;
      var n := |b| - 1;
      assert a + b == (a + b[..n]) + [b[n]];
      RunSnoc(s, a + b[..n], b[n]);
      RunConcat(s, a, b[..n]);
    }
  }

  lemma RunTwo(s: State, a: Action, b: Action)
    ensures Run(s, [a, b]) == Step(Step(s, a), b)
  {
    hide Step;
    RunSnoc(s, [], a);
    RunSnoc(s, [a], b);
    assert [] + [a] == [a] && [a] + [b] == [a, b];
  }

  lemma RunThree(s: State, a: Action, b: Action, c: Action)
    ensures Run(s, [a, b, c]) == Step(Step(Step(s, a), b), c)
  {
    hide Step;
    RunSnoc(s, [], a);
    RunSnoc(s, [a], b);
    RunSnoc(s, [a, b], c);
    assert [] + [a] == [a] && [a] + [b] == [a, b] && [a, b] + [c] == [a, b, c];
  }

  /** A product is listed, authenticated and published. */
  const GAP_LISTING: seq<Action> := [AddProduct(7, 1), SetAuthentication(7, Verified), PublishVerified(7)]

  const GAP_CHECKOUT: Action := OpenOrders(2, [Draft(1, [7], 1000)], 30)

  /** One delivery of the payment reads the order, the seller hides the item, a second delivery reads it too. */
  const GAP_READS: seq<Action> :=
    [BeginSettle(1, 1, 10.0, None), BeginSettle(2, 1, 10.0, None), EditStatus(7, Inactive, false, true)]

  /** The first delivery is refused and re-reads; the seller shows the item again. */
  const GAP_REFUSAL: seq<Action> := [CommitSettle(1), Reread(1), EditStatus(7, Active, false, true)]

  function GapListedState(): State {
    Initial(0).(db := Initial(0).db.(products := map[7 := GapItem(Active).(reservedUntil := None, reservedBy := None)]))
  }

  lemma GapListed()
    ensures Reached(0, GAP_LISTING) == GapListedState()
  {
    hide Run;
    RunThree(Initial(0), AddProduct(7, 1), SetAuthentication(7, Verified), PublishVerified(7));
  }

  lemma GapDrafts()
    ensures AllItems([Draft(1, [7], 1000)]) == [7]
    ensures WithDrafts(map[], 1, 2, [Draft(1, [7], 1000)]) == map[1 := GAP_ORDER]
  {
    var d := Draft(1, [7], 1000);
    assert [d][..0] == [];
    assert AllItems([d]) == AllItems([]) + [7];
    assert forall id: int :: 1 <= id < 2 ==> DraftRow(2, [d], 1, id) == GAP_ORDER;
  }

  lemma GapCheckout()
    ensures CheckoutStep(GapListedState(), 2, [Draft(1, [7], 1000)], 30) == GapState(Active, map[], [])
  {
    hide AllItems, WithDrafts;
    var d := Draft(1, [7], 1000);
    var s := GapListedState();
    GapDrafts();
    assert ValidDrafts(s.db, 2, [d]) && CanCheckout(s.db, 2, [d], 0);
    hide ValidDrafts, CanCheckout;
    assert HoldAll(s.db.products, [7], 2, 30) == map[7 := GapItem(Active)];
    assert (map id: int | 1 <= id < 1 + |[d]| :: WindowOf(id, 30)) == map[1 := 30];
  }

  lemma GapOpened()
    ensures Reached(0, GAP_LISTING + [GAP_CHECKOUT]) == GapState(Active, map[], [])
  {
    GapListed();
    RunSnoc(Initial(0), GAP_LISTING, GAP_CHECKOUT);
    hide Run, CheckoutStep;
    GapCheckout();
  }

  const GAP_FIRST: Task := Settling(1, GAP_ORDER, 0, 10.0, None)

  lemma GapRead()
    ensures Run(GapState(Active, map[], []), GAP_READS) == GapState(Inactive, map[1 := GAP_FIRST, 2 := GAP_FIRST], [])
  {
    RunThree(GapState(Active, map[], []), BeginSettle(1, 1, 10.0, None), BeginSettle(2, 1, 10.0, None),
             EditStatus(7, Inactive, false, true));
  }

  lemma GapFirstRefused(s: State)
    requires s == GapState(Inactive, map[1 := GAP_FIRST, 2 := GAP_FIRST], [])
    ensures Step(s, CommitSettle(1)) == GapState(Inactive, map[1 := Refused(1), 2 := GAP_FIRST], [])
  {
    assert !CanSettle(s.db, 1, GAP_ORDER, 0) by {
      assert 7 in GAP_ORDER.items;
    }
  }

  lemma GapRereads(s: State)
    requires s == GapState(Inactive, map[1 := Refused(1), 2 := GAP_FIRST], [])
    ensures Step(s, Reread(1)) == GapState(Inactive, map[2 := GAP_FIRST], [Outcome(1, RejectedNow)])
  {
  }

  lemma GapShowsAgain(s: State)
    requires s == GapState(Inactive, map[2 := GAP_FIRST], [Outcome(1, RejectedNow)])
    ensures Step(s, EditStatus(7, Active, false, true)) == s.(db := GapState(Active, map[], []).db)
  {
    assert Step(s, EditStatus(7, Active, false, true)) == ProductStep(s, EditStatus(7, Active, false, true));
  }

  lemma GapRefused()
    ensures Run(GapState(Inactive, map[1 := GAP_FIRST, 2 := GAP_FIRST], []), GAP_REFUSAL)
         == GapState(Active, map[2 := GAP_FIRST], [Outcome(1, RejectedNow)])
  {
    hide Run, Step;
    RunThree(GapState(Inactive, map[1 := GAP_FIRST, 2 := GAP_FIRST], []), CommitSettle(1), Reread(1),
             EditStatus(7, Active, false, true));
    GapFirstRefused(GapState(Inactive, map[1 := GAP_FIRST, 2 := GAP_FIRST], []));
    GapRereads(GapState(Inactive, map[1 := Refused(1), 2 := GAP_FIRST], []));
    GapShowsAgain(GapState(Inactive, map[2 := GAP_FIRST], [Outcome(1, RejectedNow)]));
  }

  /**
   A refused settlement re-reads its order and only later cancels it. If the seller hides the item
   and shows it again around the re-read, one delivery rejects the order, to be refunded, while
   another one confirms it: the rejection is reported of an order that is paid and stays confirmed.
   */
  lemma RejectedYetConfirmed()
    ensures var s := Reached(0, GAP_LISTING + [GAP_CHECKOUT] + GAP_READS + GAP_REFUSAL + [CommitSettle(2)]);
            && s.outcomes == [Outcome(1, RejectedNow), Outcome(1, ConfirmedNow)]
            && 1 in s.db.orders && s.db.orders[1].status == Confirmed
            && 7 in s.db.products && s.db.products[7].status == Sold
  {
    hide Run;
    var opening := GAP_LISTING + [GAP_CHECKOUT];
    RunSnoc(Initial(0), opening + GAP_READS + GAP_REFUSAL, CommitSettle(2));
    RunConcat(Initial(0), opening + GAP_READS, GAP_REFUSAL);
    RunConcat(Initial(0), opening, GAP_READS);
    GapOpened();
    GapRead();
    GapRefused();
    var s := GapState(Active, map[2 := GAP_FIRST], [Outcome(1, RejectedNow)]);
    assert CanSettle(s.db, 1, GAP_ORDER, 0);
    assert Step(s, CommitSettle(2)) == SettledState(End(s, 2), 1, [7], 0, 10.0, None);
  }
}
