/** Bank financing: what a status report of the bank does to a payment, and any sequence of them. */
module Tbi {
  import opened Wrappers
  import opened SellerFees
  import opened Domain
  import opened OrderSteps
  import opened Protocol
  import opened ProtocolInvariant
  import opened Finalization
  import opened RowLaws
  import opened Payments

  datatype PaymentState = IsPending | IsApproved | IsCancelled | IsRejected | HasFailed

  predicate Includes(text: string, part: string) {
    exists i | 0 <= i <= |text| :: part <= text[i..]
  }

  /** The bank's status text, in lower case. Negative outcomes come first. */
  function NormalizePaymentState(text: string): PaymentState {
    if Includes(text, "cancel") then IsCancelled
    else if Includes(text, "reject") || Includes(text, "declin") || Includes(text, "not approved") then IsRejected
    else if Includes(text, "fail") || Includes(text, "error") then HasFailed
    else if Includes(text, "approved") || text == "3" || text == "paid" then IsApproved
    else IsPending
  }

  lemma IncludedInside(before: string, part: string, after: string)
    ensures Includes(before + part + after, part)
  {
    var text := before + part + after;
    assert text[|before|..] == part + after;
  }

  /** Whatever surrounds it, a text that says that something was not approved is never an approval. */
  lemma NotApprovedIsNoApproval(before: string, after: string)
    ensures NormalizePaymentState(before + "not approved" + after) != IsApproved
    ensures NormalizePaymentState(before + "not approved" + after) != IsPending
  {
    IncludedInside(before, "not approved", after);
  }

  const NEGATIVE_PARTS: seq<string> := ["cancel", "reject", "declin", "not approved", "fail", "error"]

  /** A text that mentions an approval and no negative outcome is read as an approval, and so are the bank's codes. */
  lemma ApprovalIsRead(before: string, after: string)
    requires forall i :: 0 <= i < |NEGATIVE_PARTS| ==> !Includes(before + "approved" + after, NEGATIVE_PARTS[i])
    ensures NormalizePaymentState(before + "approved" + after) == IsApproved
  {
    IncludedInside(before, "approved", after);
    var text := before + "approved" + after;
    assert !Includes(text, NEGATIVE_PARTS[0]) && !Includes(text, NEGATIVE_PARTS[1]);
    assert !Includes(text, NEGATIVE_PARTS[2]) && !Includes(text, NEGATIVE_PARTS[3]);
    assert !Includes(text, NEGATIVE_PARTS[4]) && !Includes(text, NEGATIVE_PARTS[5]);
  }

  /** A negative outcome is read as what it is, whatever else the text says. */
  lemma NegativeIsRead(before: string, after: string)
    ensures NormalizePaymentState(before + "cancel" + after) == IsCancelled
    ensures NormalizePaymentState(before + "reject" + after) in {IsCancelled, IsRejected}
    ensures NormalizePaymentState(before + "declin" + after) in {IsCancelled, IsRejected}
    ensures NormalizePaymentState(before + "fail" + after) in {IsCancelled, IsRejected, HasFailed}
    ensures NormalizePaymentState(before + "error" + after) in {IsCancelled, IsRejected, HasFailed}
  {
    IncludedInside(before, "cancel", after);
    IncludedInside(before, "reject", after);
    IncludedInside(before, "declin", after);
    IncludedInside(before, "fail", after);
    IncludedInside(before, "error", after);
  }

  /** The first two letters of a part are next to each other in every text that includes it. */
  lemma NotIncluded(text: string, part: string)
    requires 2 <= |part| && forall i :: 0 <= i < |text| - 1 ==> text[i] != part[0] || text[i + 1] != part[1]
    ensures !Includes(text, part)
  {
    forall i | 0 <= i <= |text| - 2
      ensures text[i..][0] != part[0] || text[i..][1] != part[1]
    {
    }
  }

  lemma NothingNegative(text: string)
    requires forall k, i :: 0 <= k < |NEGATIVE_PARTS| && 0 <= i < |text| - 1 ==>
               text[i] != NEGATIVE_PARTS[k][0] || text[i + 1] != NEGATIVE_PARTS[k][1]
    ensures NormalizePaymentState(text) in {IsApproved, IsPending}
    ensures NormalizePaymentState(text) == IsApproved <==> Includes(text, "approved") || text in {"3", "paid"}
  {
    forall k | 0 <= k < |NEGATIVE_PARTS|
      ensures !Includes(text, NEGATIVE_PARTS[k])
    {
      NotIncluded(text, NEGATIVE_PARTS[k]);
    }
    assert !Includes(text, NEGATIVE_PARTS[0]) && !Includes(text, NEGATIVE_PARTS[1]);
    assert !Includes(text, NEGATIVE_PARTS[2]) && !Includes(text, NEGATIVE_PARTS[3]);
    assert !Includes(text, NEGATIVE_PARTS[4]) && !Includes(text, NEGATIVE_PARTS[5]);
  }

  /** The words and codes of an approval, and of an application that is not decided yet. */
  lemma ApprovalCodes()
    ensures NormalizePaymentState("approved") == IsApproved
    ensures NormalizePaymentState("paid") == IsApproved
    ensures NormalizePaymentState("3") == IsApproved
  {
    hide NormalizePaymentState;
    NothingNegative("approved");
    NothingNegative("paid");
    NothingNegative("3");
    assert Includes("approved", "approved") by {
      assert "approved"[0..] == "approved";
    }
  }

  /** An application that is not decided yet is read as such. */
  lemma OpenCodes()
    ensures NormalizePaymentState("unpaid") == IsPending
    ensures NormalizePaymentState("pending") == IsPending
  {
    hide NormalizePaymentState;
    NothingNegative("unpaid");
    NothingNegative("pending");
    NotIncluded("unpaid", "approved");
    NotIncluded("pending", "approved");
  }

  // ----- One status report -----

  datatype ReportError = NoOrders | Misconfigured(fee: FeeError) | CouponGone

  predicate Negative(state: PaymentState) {
    state in {IsCancelled, IsRejected, HasFailed}
  }

  predicate Closed(status: PaymentStatus) {
    status in {Voided, Failed}
  }

  datatype Aftermath = Aftermath(db: Db, t: Transaction, uses: map<CouponId, int>, error: Option<ReportError>)

  /** An approval of a payment that was not approved yet. */
  function Approved(db: Db, t: Transaction, uses: map<CouponId, int>, now: Time, settings: Settings): Aftermath {
    var ids := PositiveIds(t.orderIds);
    if ids == [] then Aftermath(db, t, uses, Some(NoOrders))
    else
      var all := SettleEach(db, ids, now, settings, None);
      if all.error.Some? then Aftermath(all.db, t, uses, Some(Misconfigured(all.error.value)))
      else
        var db' := Finalized(db, ids, now, settings, None);
        var confirmed := ConfirmedBy(db, ids, now, settings, None) != [];
        if confirmed && CouponIsGone(uses, t.coupon) then Aftermath(db', t, uses, Some(CouponGone))
        else Aftermath(db', t.(status := Succeeded), if confirmed then CouponCounted(uses, t.coupon) else uses, None)
  }

  /** `applyProviderStatus` */
  function ApplyStatus(db: Db, t: Transaction, uses: map<CouponId, int>, state: PaymentState, now: Time,
                       settings: Settings): Aftermath
  {
    if t.status == Succeeded then Aftermath(db, t, uses, None)
    else if state == IsApproved then Approved(db, t, uses, now, settings)
    else if Negative(state) then
      Aftermath(if Closed(t.status) then db else PendingCancelled(db, t.orderIds, now),
               t.(status := if state == IsCancelled then Voided else Failed), uses, None)
    else Aftermath(db, t.(status := InProcess), uses, None)
  }

  /**
   What a report leaves. An approved payment is left alone; otherwise a cancellation closes it, a rejection or failure
   marks it as failed, each dropping the unpaid orders of a payment that was still open; an approval marks it as
   approved unless finalizing its orders fails; anything else leaves it in process and the rows as they are.
   */
  lemma ReportLeavesRows(db: Db, t: Transaction, uses: map<CouponId, int>, state: PaymentState, now: Time,
                         settings: Settings)
    ensures var r := ApplyStatus(db, t, uses, state, now, settings);
            && r.t == t.(status := r.t.status)
            && if t.status == Succeeded then r == Aftermath(db, t, uses, None)
               else
                 match state
                 case IsApproved => if r.error.Some? then r.t == t && r.uses == uses else r.t.status == Succeeded
                 case IsPending => r == Aftermath(db, t.(status := InProcess), uses, None)
                 case _ =>
                   && r.t.status == (if state == IsCancelled then Voided else Failed) && r.uses == uses
                   && r.error.None?
                   && if t.status in {Voided, Failed} then r.db == db else Drops(db, Positive(t.orderIds), now, r.db)
  {
    UnpaidAreDropped(db, t.orderIds, now);
    hide SettleEach, Finalized, PendingCancelled, PositiveIds, ConfirmedBy, Drops;
  }

  /** The report finalized the payment's orders. */
  predicate Finalizes(t: Transaction, r: Aftermath) {
    t.status != Succeeded && r.t.status == Succeeded
  }

  // ----- Any sequence of reports -----

  datatype Update = Update(db: Db, t: Transaction, uses: map<CouponId, int>, state: PaymentState, now: Time,
                           settings: Settings)

  function Applied(u: Update): Aftermath {
    ApplyStatus(u.db, u.t, u.uses, u.state, u.now, u.settings)
  }

  /** Between two reports the orders move on, and the buyer may close a payment that is still open. */
  ghost predicate MovesOn(r: Aftermath, u: Update) {
    && Evolves(r.db, u.db)
    && (u.t == r.t || (r.t.status in {Awaited, InProcess} && u.t == r.t.(status := Voided)))
  }

  ghost predicate Updates(us: seq<Update>) {
    forall k :: 0 < k < |us| ==> MovesOn(Applied(us[k - 1]), us[k])
  }

  lemma OnlyStatusChanges(u: Update)
    ensures Applied(u).t.(status := u.t.status) == u.t
  {
  }

  /**
   Once approved, a payment stays approved, and no later report changes an order or a product or counts the
   coupon.
   */
  lemma {:induction false} SucceededIsFinal(us: seq<Update>, i: nat, j: nat)
    requires Updates(us) && i < j < |us| && Applied(us[i]).t.status == Succeeded
    ensures us[j].t.status == Succeeded && Applied(us[j]) == Aftermath(us[j].db, us[j].t, us[j].uses, None)
    decreases j
  {
    if i < j - 1 {
      SucceededIsFinal(us, i, j - 1);
    }
    assert MovesOn(Applied(us[j - 1]), us[j]);
  }

  /**
   The orders of a payment are finalized, and its coupon counted, by at most one report, whatever is repeated or
   comes out of order.
   */
  lemma FinalizedAtMostOnce(us: seq<Update>, i: nat, j: nat)
    requires Updates(us) && i < j < |us|
    requires Finalizes(us[i].t, Applied(us[i])) || Applied(us[i]).uses != us[i].uses
    ensures !Finalizes(us[j].t, Applied(us[j])) && Applied(us[j]).uses == us[j].uses
  {
    hide SettleEach, Finalized, PendingCancelled, PositiveIds, ConfirmedBy;
    SucceededIsFinal(us, i, j);
  }

  // ----- How often the coupon is counted -----

  /** The report confirms some order of a payment with this coupon. */
  predicate Counts(u: Update, c: CouponId) {
    var ids := PositiveIds(u.t.orderIds);
    && u.t.status != Succeeded && u.state == IsApproved && u.t.coupon == Some(c) && ids != []
    && SettleEach(u.db, ids, u.now, u.settings, None).error.None?
    && ConfirmedBy(u.db, ids, u.now, u.settings, None) != []
  }

  /** One report counts the coupon once if it confirms some order; no other count moves. */
  lemma ReportCounts(u: Update, c: CouponId)
    ensures Applied(u).uses.Keys == u.uses.Keys
    ensures c in u.uses ==> Applied(u).uses[c] == u.uses[c] + if Counts(u, c) then 1 else 0
  {
    hide SettleEach, Finalized, PendingCancelled, PositiveIds, ConfirmedBy;
  }

  /** By how much these reports together raise the count. */
  function Raised(us: seq<Update>, c: CouponId): int
    requires forall k :: 0 <= k < |us| ==> c in us[k].uses
  {
    if us == [] then 0
    else
      var u := us[|us| - 1];
      ReportCounts(u, c);
      Raised(us[..|us| - 1], c) + Applied(u).uses[c] - u.uses[c]
  }

  function Counting(us: seq<Update>, c: CouponId): nat {
    if us == [] then 0 else Counting(us[..|us| - 1], c) + if Counts(us[|us| - 1], c) then 1 else 0
  }

  lemma {:induction false} NoneCounts(us: seq<Update>, c: CouponId)
    requires forall k :: 0 <= k < |us| ==> !Counts(us[k], c)
    ensures Counting(us, c) == 0
  {
    if us != [] {
      NoneCounts(us[..|us| - 1], c);
    }
  }

  /**
   Over any sequence of reports, whoever else counts the coupon in between: they raise its count by the number of
   reports that confirm some order, which is at most one.
   */
  lemma {:induction false} ReportsCountOnce(us: seq<Update>, c: CouponId)
    requires Updates(us) && forall k :: 0 <= k < |us| ==> c in us[k].uses
    ensures Raised(us, c) == Counting(us, c) <= 1
  {
    if us != [] {
      var n := |us| - 1;
      assert Updates(us[..n]);
      ReportsCountOnce(us[..n], c);
      ReportCounts(us[n], c);
      hide Counts, Applied, Updates;
      if Counts(us[n], c) {
        forall k | 0 <= k < n
          ensures !Counts(us[k], c)
        {
          if Counts(us[k], c) {
            ReportCounts(us[k], c);
            FinalizedAtMostOnce(us, k, n);
          }
        }
        NoneCounts(us[..n], c);
      }
    }
  }

  lemma NonePendingAfterCancel(db: Db, ids: seq<OrderId>, now: Time)
    requires forall id :: id in ids && 0 < id ==> id in db.orders
    ensures NonePending(PendingCancelled(db, ids, now), PositiveIds(ids))
  {
    hide ReleaseFound;
  }

  /** Cancelling again what holds no unpaid order changes nothing. */
  lemma CancelAgain(db: Db, ids: seq<OrderId>, now: Time)
    requires NonePending(db, PositiveIds(ids))
    ensures PendingCancelled(db, ids, now) == db
  {
    forall id
      ensures id !in FindPending(db, ids)
    {
    }
    assert FindPending(db, ids) == map[];
    assert ReleaseFound(db.products, map[]) == db.products;
    assert CancelFound(db.orders, {}, now) == db.orders;
  }

  lemma ReportChangesNothing(u: Update)
    requires NonePending(u.db, PositiveIds(u.t.orderIds))
    ensures Applied(u).db == u.db && Applied(u).uses == u.uses
  {
    hide SettleEach, Finalized, PendingCancelled, PositiveIds, ConfirmedBy;
    var ids := PositiveIds(u.t.orderIds);
    CancelAgain(u.db, u.t.orderIds, u.now);
    SelfEvolves(u.db);
    hide Evolves, NonePending;
    LaterCallChangesNothing(u.db, u.db, ids, u.now, u.settings, None);
  }

  ghost predicate OrdersExist(u: Update) {
    forall id :: id in u.t.orderIds && 0 < id ==> id in u.db.orders
  }

  /**
   A cancellation, rejection or failure that the bank reports on an open payment is the end of its
   orders: no later report, an approval included, changes any order or product.
   */
  lemma {:induction false} NothingAfterClosing(us: seq<Update>, i: nat, j: nat)
    requires Updates(us) && i < j < |us|
    requires Negative(us[i].state) && us[i].t.status != Succeeded && OrdersExist(us[i])
    requires !Closed(us[i].t.status) || NonePending(us[i].db, PositiveIds(us[i].t.orderIds))
    ensures us[j].t.orderIds == us[i].t.orderIds && NonePending(us[j].db, PositiveIds(us[j].t.orderIds))
    ensures Applied(us[j]).db == us[j].db && Applied(us[j]).uses == us[j].uses
    decreases j
  {
    hide ApplyStatus, Evolves, NonePending, PositiveIds;
    assert MovesOn(Applied(us[j - 1]), us[j]);
    OnlyStatusChanges(us[j - 1]);
    var ids := PositiveIds(us[i].t.orderIds);
    if i == j - 1 {
      ClosingCancels(us[i]);
    } else {
      NothingAfterClosing(us, i, j - 1);
    }
    StillNonePending(Applied(us[j - 1]).db, us[j].db, ids);
    ReportChangesNothing(us[j]);
  }

  lemma ClosingCancels(u: Update)
    requires Negative(u.state) && u.t.status != Succeeded && OrdersExist(u)
    ensures NonePending(Applied(u).db, PositiveIds(u.t.orderIds))
            <==> !Closed(u.t.status) || NonePending(u.db, PositiveIds(u.t.orderIds))
  {
    hide PendingCancelled, PositiveIds, NonePending;
    NonePendingAfterCancel(u.db, u.t.orderIds, u.now);
  }

  lemma StillNonePending(db: Db, db': Db, ids: seq<OrderId>)
    requires NonePending(db, ids) && Evolves(db, db')
    ensures NonePending(db', ids)
  {
  }

  // ----- A payment that was closed before the bank's report -----

  const DEFAULT_FEES: Settings := _ => Unset

  lemma {:induction false} DefaultFeesSettle(db: Db, ids: seq<OrderId>, now: Time)
    ensures SettleEach(db, ids, now, DEFAULT_FEES, None).error.None?
  {
    if ids != [] {
      hide CanSettle, SettledDb;
      DefaultFeesSettle(db, ids[..|ids| - 1], now);
    }
  }

  /** An approval of a payment with an unpaid order confirms or cancels that order. */
  lemma ApprovalDecides(u: Update, id: OrderId)
    requires u.state == IsApproved && u.t.status != Succeeded && u.settings == DEFAULT_FEES
    requires id in PositiveIds(u.t.orderIds) && id in u.db.orders && u.db.orders[id].status == Pending
    ensures Applied(u).db != u.db
  {
    hide SettleEach, Finalized;
    var ids := PositiveIds(u.t.orderIds);
    DefaultFeesSettle(u.db, ids, u.now);
    NoneLeftPending(u.db, ids, u.now, DEFAULT_FEES, None);
    var after := Finalized(u.db, ids, u.now, DEFAULT_FEES, None);
    assert Applied(u).db == after;
    assert id in after.orders;
  }

  /**
   A negative report is the end of the payment's orders exactly when it found the payment open or none of them
   unpaid. A payment that the buyer's newer checkout closed is the exception: that checkout cancels only the
   orders that it replaces, and the report leaves the others open.
   */
  lemma NothingAfterClosingIff(u: Update)
    requires Negative(u.state) && u.t.status != Succeeded && OrdersExist(u)
    ensures (forall v: Update :: MovesOn(Applied(u), v) ==> Applied(v).db == v.db)
            <==> !Closed(u.t.status) || NonePending(u.db, PositiveIds(u.t.orderIds))
  {
    var ids := PositiveIds(u.t.orderIds);
    if !Closed(u.t.status) || NonePending(u.db, ids) {
      forall v: Update | MovesOn(Applied(u), v)
        ensures Applied(v).db == v.db
      {
        NothingAfterClosing([u, v], 0, 1);
      }
    } else {
      var id :| id in ids && id in u.db.orders && u.db.orders[id].status == Pending;
      var after := Applied(u);
      var v := Update(after.db, after.t, u.uses, IsApproved, u.now, DEFAULT_FEES);
      SelfEvolves(after.db);
      assert MovesOn(after, v);
      ApprovalDecides(v, id);
    }
  }

  /** The buyer checks out again: what was open for these items is replaced, and the items are held once more. */
  function CheckedOutAgain(db: Db, buyer: UserId, drafts: seq<Draft>, now: Time, until: Time): Db {
    CheckedOut(OpenCheckoutsReplaced(db, buyer, AllItems(drafts), now), buyer, drafts, until)
  }

  /** An unpaid order that can be settled, none of whose items is checked out again. */
  predicate LeftOpen(db: Db, id: OrderId, drafts: seq<Draft>, at: Time) {
    && id in db.orders && CanSettle(db, id, db.orders[id], at) && id < db.nextOrder
    && forall p | p in AllItems(drafts) :: p !in db.orders[id].items
  }

  lemma StaysOpen(db: Db, id: OrderId, drafts: seq<Draft>, now: Time, until: Time, at: Time)
    requires LeftOpen(db, id, drafts, at)
    ensures var buyer := db.orders[id].buyer;
            var db' := CheckedOutAgain(db, buyer, drafts, now, until);
            && id in db'.orders && db'.orders[id] == db.orders[id] && CanSettle(db', id, db'.orders[id], at)
  {
    hide AllItems;
    var o := db.orders[id];
    var db' := CheckedOutAgain(db, o.buyer, drafts, now, until);
    assert id !in OpenOrdersOf(db, o.buyer, AllItems(drafts));
    assert db'.orders[id] == o;
    forall p | p in o.items
      ensures p in db'.products && Available(db'.products[p], o.buyer, at)
    {
      assert p in db.products && Available(db.products[p], o.buyer, at);
    }
  }

  /** The other orders of the payment were given up before, or are given up by the newer checkout. */
  predicate OthersReplaced(db: Db, t: Transaction, id: OrderId, drafts: seq<Draft>) {
    forall x | x in t.orderIds && 0 < x && x != id ::
      && x in db.orders && x < db.nextOrder
      && (db.orders[x].status == Cancelled || x in OpenOrdersOf(db, t.buyer, AllItems(drafts)))
  }

  lemma OthersCancelled(db: Db, t: Transaction, id: OrderId, drafts: seq<Draft>, now: Time, until: Time)
    requires OthersReplaced(db, t, id, drafts)
    ensures var db' := CheckedOutAgain(db, t.buyer, drafts, now, until);
            forall x | x in t.orderIds && 0 < x && x != id :: x in db'.orders && db'.orders[x].status == Cancelled
  {
    hide AllItems, HoldAll, ReleaseFound;
  }

  /**
   A buyer pays a cart by financing, then checks out some of its items again. That closes the payment and cancels the
   orders for these items, but not the order of another seller. A negative report then leaves that order open, and an
   approval confirms it: the bank pays for the cart, of which all else is cancelled.
   */
  lemma ClosedPaymentStillConfirms(db: Db, t: Transaction, drafts: seq<Draft>, now: Time, until: Time, u: Update,
                                   v: Update, id: OrderId)
    requires id in t.orderIds && 0 < id && LeftOpen(db, id, drafts, v.now) && db.orders[id].buyer == t.buyer
    requires OthersReplaced(db, t, id, drafts) && OpenFor(t, OpenOrdersOf(db, t.buyer, AllItems(drafts)), t.buyer)
    requires u.db == CheckedOutAgain(db, t.buyer, drafts, now, until) && Negative(u.state)
    requires u.t == Expired([t], OpenOrdersOf(db, t.buyer, AllItems(drafts)), t.buyer)[0]
    requires v == Update(Applied(u).db, Applied(u).t, v.uses, IsApproved, v.now, DEFAULT_FEES)
    requires !CouponIsGone(v.uses, v.t.coupon)
    ensures Closed(u.t.status) && Closed(v.t.status) && Applied(v).t.status == Succeeded
    ensures forall x | x in t.orderIds && 0 < x :: x in Applied(v).db.orders
    ensures forall x | x in t.orderIds && 0 < x ::
              Applied(v).db.orders[x].status == if x == id then Confirmed else Cancelled
  {
    StaysOpen(db, id, drafts, now, until, v.now);
    OthersCancelled(db, t, id, drafts, now, until);
    hide CanSettle, Approved, CheckedOutAgain, LeftOpen, OthersReplaced, AllItems, OpenOrdersOf;
    ApprovalConfirms(v, id);
  }

  // ----- Two reports at the same time -----

  /** The row after a report that read `u.t`, when another report has meanwhile left it as `current`. */
  function LateWrite(current: Transaction, u: Update): Transaction {
    if Applied(u).error.Some? then current else current.(status := Applied(u).t.status)
  }

  /**
   A report writes its status without looking at the row again: an approval written meanwhile survives it exactly
   when it is an approval itself.
   */
  lemma ApprovalSurvivesIff(current: Transaction, u: Update)
    requires current.status == Succeeded && u.t.status != Succeeded
    ensures LateWrite(current, u).status == Succeeded <==> u.state == IsApproved
  {
    hide SettleEach, Finalized, PendingCancelled, PositiveIds, ConfirmedBy;
  }

  /** An approval and a rejection that both read the open payment leave it rejected, with its order confirmed. */
  lemma ReportsOverwrite(a: Update, b: Update, id: OrderId)
    requires a.state == IsApproved && a.settings == DEFAULT_FEES && !CouponIsGone(a.uses, a.t.coupon)
    requires a.t.status == InProcess && OnlyOpen(a.db, a.t.orderIds, id, a.now)
    requires b.t == a.t && b.db == Applied(a).db && b.state == IsRejected
    ensures Applied(a).t.status == Succeeded && LateWrite(Applied(a).t, b).status == Failed
    ensures id in Applied(b).db.orders && Applied(b).db.orders[id].status == Confirmed
  {
    ApprovalConfirms(a, id);
    hide Approved, ReleaseFound, CanSettle;
    assert Applied(b).db == PendingCancelled(b.db, b.t.orderIds, b.now);
  }

  /** Of the orders of the payment this one can be settled, and the others are cancelled. */
  predicate OnlyOpen(db: Db, orderIds: seq<OrderId>, id: OrderId, now: Time) {
    && id in orderIds && 0 < id && id in db.orders && CanSettle(db, id, db.orders[id], now)
    && forall x | x in orderIds && 0 < x && x != id :: x in db.orders && db.orders[x].status == Cancelled
  }

  /** An approval of a payment with one order left that can be settled confirms it. */
  lemma ApprovalConfirms(u: Update, id: OrderId)
    requires u.state == IsApproved && u.settings == DEFAULT_FEES && !CouponIsGone(u.uses, u.t.coupon)
    requires u.t.status != Succeeded && OnlyOpen(u.db, u.t.orderIds, id, u.now)
    ensures Applied(u).t.status == Succeeded && Applied(u).t.(status := u.t.status) == u.t
    ensures forall x | x in u.t.orderIds && 0 < x :: x in Applied(u).db.orders
    ensures forall x | x in u.t.orderIds && 0 < x ::
              Applied(u).db.orders[x].status == if x == id then Confirmed else Cancelled
  {
    var ids := PositiveIds(u.t.orderIds);
    hide PositiveIds;
    assert OnlyOpen(u.db, ids, id, u.now);
    hide OnlyOpen;
    OneConfirmed(u.db, ids, id, u.now);
    hide SettleEach, Finalized, ConfirmedBy;
  }

  lemma OneSettles(db: Db, id: OrderId, now: Time)
    requires id in db.orders && CanSettle(db, id, db.orders[id], now)
    ensures SettleOne(db, id, now, DEFAULT_FEES, None)
         == Success((SettledDb(db, id, db.orders[id].items, now, 10.0, None), ConfirmedNow))
  {
    hide SettledDb;
  }

  /** What settling these orders reports: the one that is left is confirmed, the cancelled ones are rejected. */
  lemma {:induction false} OneSettled(db: Db, ids: seq<OrderId>, id: OrderId, now: Time)
    requires id in db.orders && CanSettle(db, id, db.orders[id], now)
    requires forall x | x in ids && x != id :: x in db.orders && db.orders[x].status == Cancelled
    requires forall i, j :: 0 <= i < j < |ids| ==> ids[i] != ids[j]
    ensures var r := SettleEach(db, ids, now, DEFAULT_FEES, None);
            && r.error.None?
            && r.db == (if id in ids then SettledDb(db, id, db.orders[id].items, now, 10.0, None) else db)
            && forall i :: 0 <= i < |ids| ==> r.reports[i] == if ids[i] == id then ConfirmedNow else RejectedNow
  {
    if ids != [] {
      var n := |ids| - 1;
      OneSettled(db, ids[..n], id, now);
      OneSettles(db, id, now);
      hide CanSettle, SellAll, SettlementNet;
    }
  }

  lemma NoneRejectedOpen(db: Db, ids: seq<OrderId>, id: OrderId, now: Time)
    requires OnlyOpen(db, ids, id, now) && forall i, j :: 0 <= i < j < |ids| ==> ids[i] != ids[j]
    requires forall x :: x in ids ==> 0 < x
    ensures var r := SettleEach(db, ids, now, DEFAULT_FEES, None);
            && r.error.None? && r.db == SettledDb(db, id, db.orders[id].items, now, 10.0, None)
            && forall x :: x in Reporting(ids, r.reports, RejectedNow) ==> x in ids && x != id
  {
    OneSettled(db, ids, id, now);
    hide SettleEach, CanSettle, SettledDb;
  }

  lemma OneConfirmed(db: Db, ids: seq<OrderId>, id: OrderId, now: Time)
    requires OnlyOpen(db, ids, id, now) && forall i, j :: 0 <= i < j < |ids| ==> ids[i] != ids[j]
    requires forall x :: x in ids ==> 0 < x
    ensures SettleEach(db, ids, now, DEFAULT_FEES, None).error.None?
    ensures var after := Finalized(db, ids, now, DEFAULT_FEES, None);
            && (forall x | x in ids :: x in after.orders)
            && forall x | x in ids :: after.orders[x].status == if x == id then Confirmed else Cancelled
  {
    NoneRejectedOpen(db, ids, id, now);
    hide SettleEach, CanSettle, SellAll, SettlementNet, Reporting;
    var r := SettleEach(db, ids, now, DEFAULT_FEES, None);
    var rejected := Reporting(ids, r.reports, RejectedNow);
    NothingToCancel(r.db, rejected, now);
    hide PendingCancelled;
  }
}
