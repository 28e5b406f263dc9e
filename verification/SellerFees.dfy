/** The platform's commission and the split of a payment between platform and seller. */
module SellerFees {
  import opened Wrappers
  import opened Money

  /** What the environment holds for a tier's fee setting. */
  datatype Setting = Unset | NotANumber | Value(percent: real)

  datatype FeeError = SettingOutOfRange

  ghost predicate Percentage(p: real) { 0.0 <= p <= 100.0 }

  function GetSellerFeePercent(setting: Setting): (r: Result<real, FeeError>)
    ensures r.Success? ==> Percentage(r.value) && r.value == if setting.Value? then setting.percent else 10.0
    ensures r.Failure? <==> setting.NotANumber? || (setting.Value? && !Percentage(setting.percent))
  {
    match setting
    case Unset => Success(10.0)
    case NotANumber => Failure(SettingOutOfRange)
    case Value(p) => if p < 0.0 || p > 100.0 then Failure(SettingOutOfRange) else Success(p)
  }

  datatype Split = Split(feePercent: real, fee: Cents, transfer: Cents)

  function CalculatePaymentSplit(amount: Cents, feePercent: real): Split {
    var fee := Min(amount, Round(amount as real * feePercent / 100.0));
    Split(feePercent, fee, Max(0, amount - fee))
  }

  /** The split of a bank-financed amount: no cap on the fee, the cap is on the seller's share. */
  function CalculateFinancedSplit(amount: Cents, feePercent: real): Split {
    var fee := Round(amount as real * feePercent / 100.0);
    Split(feePercent, fee, Max(0, amount - fee))
  }

  /** The part of an amount, in cents, that is left after the fee. */
  function Kept(amount: real, feePercent: real): real {
    amount * (1.0 - feePercent / 100.0)
  }

  lemma KeptShare(amount: real, feePercent: real)
    requires 0.0 <= amount && Percentage(feePercent)
    ensures 0.0 <= amount * feePercent / 100.0 <= amount
    ensures Kept(amount, feePercent) == amount - amount * feePercent / 100.0
    ensures 0.0 <= Kept(amount, feePercent) <= amount
  {
    assert 0.0 <= amount * feePercent;
    assert amount * feePercent <= amount * 100.0;
  }

  lemma KeptAdds(a: real, b: real, feePercent: real)
    ensures Kept(a + b, feePercent) == Kept(a, feePercent) + Kept(b, feePercent)
    ensures Kept(a - b, feePercent) == Kept(a, feePercent) - Kept(b, feePercent)
  {
  }

  /** No cent is lost or invented, neither side is negative, and the seller's cent is within a half. */
  lemma SplitConserves(amount: Cents, feePercent: real)
    requires 0 <= amount && Percentage(feePercent)
    ensures var s := CalculatePaymentSplit(amount, feePercent);
            && s.fee + s.transfer == amount
            && 0 <= s.fee <= amount && 0 <= s.transfer <= amount
            && s.fee == Round(amount as real * feePercent / 100.0)
            && Kept(amount as real, feePercent) - 0.5 <= s.transfer as real <= Kept(amount as real, feePercent) + 0.5
  {
    KeptShare(amount as real, feePercent);
    RoundWithin(amount as real * feePercent / 100.0, 0, amount);
  }

  /** Card and financed payments of one amount are split identically. */
  lemma FinancedSplitAgrees(amount: Cents, feePercent: real)
    requires 0 <= amount && Percentage(feePercent)
    ensures CalculateFinancedSplit(amount, feePercent) == CalculatePaymentSplit(amount, feePercent)
  {
    SplitConserves(amount, feePercent);
  }

  /** What is taken back from the seller for each of several refunds of one order. */
  function Reversals(refunds: seq<Cents>, feePercent: real): (rs: seq<Cents>)
    ensures |rs| == |refunds|
  {
    seq(|refunds|, i requires 0 <= i < |refunds| => CalculatePaymentSplit(refunds[i], feePercent).transfer)
  }

  lemma {:induction false} ReversalsTrackRefunds(refunds: seq<Cents>, feePercent: real)
    requires Percentage(feePercent)
    requires forall i :: 0 <= i < |refunds| ==> 0 <= refunds[i]
    ensures var exact := Kept(Sum(refunds) as real, feePercent);
            var slack := |refunds| as real / 2.0;
            exact - slack <= Sum(Reversals(refunds, feePercent)) as real <= exact + slack
  {
    if refunds != [] {
      var n := |refunds| - 1;
      ReversalsTrackRefunds(refunds[..n], feePercent);
      assert Reversals(refunds, feePercent)[..n] == Reversals(refunds[..n], feePercent);
      SplitConserves(refunds[n], feePercent);
      KeptAdds(Sum(refunds[..n]) as real, refunds[n] as real, feePercent);
    }
  }

  /**
   With the fee percent unchanged, partial refunds of at most the order amount never take back
   more than the original transfer plus half a cent a refund plus a half, and refunds of exactly
   the order amount take back no less than it minus the same slack.
   */
  lemma ReversalBound(orderAmount: Cents, refunds: seq<Cents>, feePercent: real)
    requires Percentage(feePercent)
    requires forall i :: 0 <= i < |refunds| ==> 0 <= refunds[i]
    requires Sum(refunds) <= orderAmount
    ensures var transfer := CalculatePaymentSplit(orderAmount, feePercent).transfer;
            var slack := (|refunds| + 1) as real / 2.0;
            var reversed := Sum(Reversals(refunds, feePercent));
            && reversed as real <= transfer as real + slack
            && (Sum(refunds) == orderAmount ==> transfer as real - slack <= reversed as real)
  {
    hide Kept, CalculatePaymentSplit, Reversals;
    SumNonNegative(refunds);
    ReversalsTrackRefunds(refunds, feePercent);
    SplitConserves(orderAmount, feePercent);
    var rest := orderAmount - Sum(refunds);
    KeptAdds(Sum(refunds) as real, rest as real, feePercent);
    KeptShare(rest as real, feePercent);
  }

  /** One refund of the whole order takes back exactly what the seller was sent. */
  lemma FullRefundReversesExactly(orderAmount: Cents, feePercent: real)
    requires 0 <= orderAmount && Percentage(feePercent)
    ensures Sum(Reversals([orderAmount], feePercent)) == CalculatePaymentSplit(orderAmount, feePercent).transfer
    ensures Sum(Reversals([orderAmount], feePercent)) + CalculatePaymentSplit(orderAmount, feePercent).fee
         == orderAmount
  {
    SplitConserves(orderAmount, feePercent);
    var rs := Reversals([orderAmount], feePercent);
    assert rs == [] + [CalculatePaymentSplit(orderAmount, feePercent).transfer];
    SumSnoc([], rs[0]);
  }

  /** What a seller nets from an order, fixed at settlement. */
  function SettlementNet(total: Cents, feePercent: real): Cents {
    Round(Kept(total as real, feePercent))
  }

  /** The net amount after one refund, which need not be a whole number of cents. */
  function ReducedNet(net: Cents, refund: real, feePercent: real): Cents {
    Max(0, Round(net as real - Kept(refund, feePercent)))
  }

  function NetAfterRefunds(total: Cents, feePercent: real, refunds: seq<real>): Cents {
    if refunds == [] then SettlementNet(total, feePercent)
    else
      var n := |refunds| - 1;
      ReducedNet(NetAfterRefunds(total, feePercent, refunds[..n]), refunds[n], feePercent)
  }

  /**
   After any refunds summing to at most the total, the net amount is not negative, no refund
   raised it, and it is within half a cent a refund plus a half of the exact remaining share: the
   clamp at zero never makes the error larger.
   */
  lemma {:induction false} SellerNetTracksRefunds(total: Cents, feePercent: real, refunds: seq<real>)
    requires 0 <= total && Percentage(feePercent)
    requires forall i :: 0 <= i < |refunds| ==> 0.0 <= refunds[i]
    requires SumReal(refunds) <= total as real
    ensures var net := NetAfterRefunds(total, feePercent, refunds);
            var exact := Kept(total as real - SumReal(refunds), feePercent);
            var slack := (|refunds| + 1) as real / 2.0;
            && 0 <= net
            && exact - slack <= net as real <= exact + slack
            && (refunds != [] ==> net <= NetAfterRefunds(total, feePercent, refunds[..|refunds| - 1]))
  {
    KeptShare(total as real - SumReal(refunds), feePercent);
    if refunds == [] {
      RoundAtLeast(Kept(total as real, feePercent), 0);
    } else {
      var n := |refunds| - 1;
      SellerNetTracksRefunds(total, feePercent, refunds[..n]);
      var before := NetAfterRefunds(total, feePercent, refunds[..n]);
      KeptAdds(total as real - SumReal(refunds[..n]), refunds[n], feePercent);
      assert total as real - SumReal(refunds[..n]) - refunds[n] == total as real - SumReal(refunds);
      KeptShare(refunds[n], feePercent);
      RoundAtMost(before as real - Kept(refunds[n], feePercent), before);
    }
  }
}
