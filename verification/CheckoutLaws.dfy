/** What grouping and coupon distribution conserve, and how far per-group rounding can drift. */
module CheckoutLaws {
  import opened Wrappers
  import opened Money
  import opened Domain
  import opened Filters
  import opened Checkout

  // ----- Grouping by seller conserves every per-item total -----

  function Total(ls: seq<Listing>, price: Listing -> Cents): Cents {
    if ls == [] then 0 else Total(ls[..|ls| - 1], price) + price(ls[|ls| - 1])
  }

  function TotalsBySeller(ls: seq<Listing>, ids: seq<UserId>, price: Listing -> Cents): (xs: seq<Cents>)
    ensures |xs| == |ids|
  {
    seq(|ids|, i requires 0 <= i < |ids| => Total(OfSeller(ls, ids[i]), price))
  }

  lemma {:induction false} SumUpdated(xs: seq<int>, k: nat, x: int)
    requires k < |xs|
    ensures Sum(xs[k := x]) == Sum(xs) - xs[k] + x
  {
    var n := |xs| - 1;
    if k == n {
      assert xs[k := x][..n] == xs[..n];
    } else {
      SumUpdated(xs[..n], k, x);
      assert xs[k := x][..n] == xs[..n][k := x];
    }
  }

  lemma {:induction false} SumOfZeros(xs: seq<int>)
    requires forall i :: 0 <= i < |xs| ==> xs[i] == 0
    ensures Sum(xs) == 0
  {
    if xs != [] {
      SumOfZeros(xs[..|xs| - 1]);
    }
  }

  lemma TotalOfSellerSnoc(rest: seq<Listing>, last: Listing, id: UserId, price: Listing -> Cents)
    ensures Total(OfSeller(rest + [last], id), price)
         == Total(OfSeller(rest, id), price) + if last.seller.id == id then price(last) else 0
  {
    var own := OfSeller(rest, id);
    assert (rest + [last])[..|rest|] == rest;
    assert (own + [last])[..|own|] == own;
  }

  lemma TotalsBySellerSnoc(rest: seq<Listing>, last: Listing, ids: seq<UserId>, k: nat, price: Listing -> Cents)
    requires k < |ids| && ids[k] == last.seller.id
    requires forall i, j :: 0 <= i < j < |ids| ==> ids[i] != ids[j]
    ensures var before := TotalsBySeller(rest, ids, price);
            TotalsBySeller(rest + [last], ids, price) == before[k := before[k] + price(last)]
  {
    hide OfSeller, Total;
    forall i | 0 <= i < |ids| {
      TotalOfSellerSnoc(rest, last, ids[i], price);
    }
  }

  lemma OneMoreListing(rest: seq<Listing>, last: Listing, ids: seq<UserId>, price: Listing -> Cents)
    requires last.seller.id in ids && forall i, j :: 0 <= i < j < |ids| ==> ids[i] != ids[j]
    ensures Sum(TotalsBySeller(rest + [last], ids, price)) == Sum(TotalsBySeller(rest, ids, price)) + price(last)
  {
    hide TotalsBySeller, Sum;
    var k :| 0 <= k < |ids| && ids[k] == last.seller.id;
    var before := TotalsBySeller(rest, ids, price);
    TotalsBySellerSnoc(rest, last, ids, k, price);
    SumUpdated(before, k, before[k] + price(last));
  }

  lemma {:induction false} GroupingConserves(ls: seq<Listing>, ids: seq<UserId>, price: Listing -> Cents)
    requires forall l :: l in ls ==> l.seller.id in ids
    requires forall i, j :: 0 <= i < j < |ids| ==> ids[i] != ids[j]
    ensures Sum(TotalsBySeller(ls, ids, price)) == Total(ls, price)
  {
    if ls == [] {
      SumOfZeros(TotalsBySeller(ls, ids, price));
    } else {
      hide TotalsBySeller, OfSeller, Sum;
      var rest, last := ls[..|ls| - 1], ls[|ls| - 1];
      GroupingConserves(rest, ids, price);
      OneMoreListing(rest, last, ids, price);
      assert ls == rest + [last];
    }
  }

  lemma {:induction false} SumIsTotal(ls: seq<Listing>, price: Listing -> Cents, xs: seq<Cents>)
    requires |xs| == |ls| && forall i :: 0 <= i < |ls| ==> xs[i] == price(ls[i])
    ensures Sum(xs) == Total(ls, price)
  {
    if ls != [] {
      SumIsTotal(ls[..|ls| - 1], price, xs[..|xs| - 1]);
    }
  }

  /** The groups' subtotals and eligible subtotals add up to those of the whole cart. */
  lemma GroupsConserve(ls: seq<Listing>, country: Option<string>, c: Option<AppliedCoupon>)
    ensures Sum(Subtotals(Groups(ls, country, c))) == Sum(Prices(ls))
    ensures Sum(Eligibles(Groups(ls, country, c))) == Sum(EligiblePrices(CouponOf(c), ls))
  {
    hide GroupDiscount;
    var gs, ids := Groups(ls, country, c), Sellers(ls);
    SellersDistinct(ls);
    hide OfSeller, Total, Sum, UnitPrice, EligiblePrice;
    forall i | 0 <= i < |ids|
      ensures gs[i].subtotal == Total(OfSeller(ls, ids[i]), UnitPrice)
    {
      SumIsTotal(OfSeller(ls, ids[i]), UnitPrice, Prices(OfSeller(ls, ids[i])));
    }
    assert Subtotals(gs) == TotalsBySeller(ls, ids, UnitPrice);
    GroupingConserves(ls, ids, UnitPrice);
    SumIsTotal(ls, UnitPrice, Prices(ls));

    var eligible := (l: Listing) => EligiblePrice(CouponOf(c), l);
    forall i | 0 <= i < |ids|
      ensures gs[i].eligible == Total(OfSeller(ls, ids[i]), eligible)
    {
      SumIsTotal(OfSeller(ls, ids[i]), eligible, EligiblePrices(CouponOf(c), OfSeller(ls, ids[i])));
    }
    assert Eligibles(gs) == TotalsBySeller(ls, ids, eligible);
    GroupingConserves(ls, ids, eligible);
    SumIsTotal(ls, eligible, EligiblePrices(CouponOf(c), ls));
  }

  // ----- Spreading a discount over the groups -----

  function Share(discount: Cents, eligible: Cents, whole: Cents): real
    requires whole != 0
  {
    discount as real * (eligible as real / whole as real)
  }

  lemma ShareAdds(discount: Cents, a: Cents, b: Cents, whole: Cents)
    requires 0 < whole
    ensures Share(discount, a + b, whole) == Share(discount, a, whole) + Share(discount, b, whole)
  {
    var w := whole as real;
    assert (a + b) as real / w == a as real / w + b as real / w;
  }

  lemma ShareOfWhole(discount: Cents, whole: Cents)
    requires 0 < whole
    ensures Share(discount, whole, whole) == discount as real
    ensures Share(discount, 0, whole) == 0.0
  {
    assert whole as real / whole as real == 1.0;
  }

  lemma ShareBounds(discount: Cents, eligible: Cents, whole: Cents)
    requires 0 <= discount <= whole && 0 <= eligible && 0 < whole
    ensures 0.0 <= Share(discount, eligible, whole) <= eligible as real
  {
    var q := eligible as real / whole as real;
    assert 0.0 <= q;
    assert q * whole as real == eligible as real;
    assert 0.0 <= q * (whole as real - discount as real);
  }

  lemma {:induction false} SharesTrackDiscount(discount: Cents, eligibles: seq<Cents>, whole: Cents,
                                               rounded: seq<Cents>)
    requires 0 < whole && |rounded| == |eligibles|
    requires forall i :: 0 <= i < |eligibles| ==> rounded[i] == Round(Share(discount, eligibles[i], whole))
    ensures var exact, slack := Share(discount, Sum(eligibles), whole), |eligibles| as real / 2.0;
            exact - slack <= Sum(rounded) as real <= exact + slack
  {
    if eligibles == [] {
      ShareOfWhole(discount, whole);
    } else {
      var n := |eligibles| - 1;
      SharesTrackDiscount(discount, eligibles[..n], whole, rounded[..n]);
      ShareAdds(discount, Sum(eligibles[..n]), eligibles[n], whole);
    }
  }

  ghost predicate NonNegativePrices(ls: seq<Listing>) {
    forall l :: l in ls ==> 0 <= UnitPrice(l)
  }

  lemma {:induction false} EligibleWithinSubtotal(c: Option<Coupon>, ls: seq<Listing>)
    requires NonNegativePrices(ls)
    ensures 0 <= Sum(EligiblePrices(c, ls)) <= Sum(Prices(ls))
  {
    if ls != [] {
      var rest := ls[..|ls| - 1];
      assert forall l :: l in rest ==> l in ls;
      EligibleWithinSubtotal(c, rest);
      assert EligiblePrices(c, ls)[..|ls| - 1] == EligiblePrices(c, rest);
      assert Prices(ls)[..|ls| - 1] == Prices(rest);
      assert ls[|ls| - 1] in ls;
    }
  }

  /** A validated coupon: its discount is part of what it may be taken off. */
  ghost predicate Sound(applied: AppliedCoupon, ls: seq<Listing>) {
    && applied.eligibleSubtotal == Sum(EligiblePrices(Some(applied.coupon), ls))
    && 0 < applied.eligibleSubtotal
    && applied.discount <= applied.eligibleSubtotal
    && (0.0 <= applied.coupon.value ==> 0 <= applied.discount)
  }

  lemma ValidatedIsSound(coupon: Coupon, ls: seq<Listing>, now: Time)
    requires ValidateCoupon(coupon, ls, now).Success?
    ensures Sound(ValidateCoupon(coupon, ls, now).value, ls)
    ensures ValidateCoupon(coupon, ls, now).value.coupon == coupon
  {
  }

  lemma DiscountOfGroup(eligible: Cents, applied: AppliedCoupon)
    requires 0 <= applied.discount <= applied.eligibleSubtotal && 0 <= eligible && 0 < applied.eligibleSubtotal
    ensures 0 <= GroupDiscount(eligible, Some(applied)) <= eligible
  {
    ShareBounds(applied.discount, eligible, applied.eligibleSubtotal);
    RoundWithin(Share(applied.discount, eligible, applied.eligibleSubtotal), 0, eligible);
  }

  /** Every group's discount is between zero and its eligible subtotal, so delivery is always paid. */
  lemma GroupDiscountBounded(ls: seq<Listing>, country: Option<string>, applied: AppliedCoupon, i: nat)
    requires NonNegativePrices(ls) && 0.0 <= applied.coupon.value && Sound(applied, ls)
    requires i < |Sellers(ls)|
    ensures var g := Groups(ls, country, Some(applied))[i];
            0 <= g.discount <= g.eligible <= g.subtotal && g.deliveryCost <= g.total
  {
    hide GroupDiscount;
    var own := OfSeller(ls, Sellers(ls)[i]);
    OfSellerMembers(ls, Sellers(ls)[i]);
    EligibleWithinSubtotal(Some(applied.coupon), own);
    DiscountOfGroup(Sum(EligiblePrices(Some(applied.coupon), own)), applied);
  }

  /**
   A percentage takes off its share of the eligible items within half a cent, a fixed amount all of
   itself up to the eligible subtotal.
   */
  lemma CouponTakesOff(c: Coupon, ls: seq<Listing>, now: Time)
    requires 0.0 <= c.value
    ensures var r := ValidateCoupon(c, ls, now);
            var eligible := Sum(EligiblePrices(Some(c), ls));
            r.Success? ==>
              if c.discountType == FixedAmount then
                r.value.discount == if eligible as real <= c.value then eligible else Round(c.value)
              else if c.value <= 100.0 then
                -0.5 <= r.value.discount as real - PercentOf(eligible, c.value) <= 0.5
              else r.value.discount == eligible
  {
    var eligible := Sum(EligiblePrices(Some(c), ls));
    hide Sum;
    if 0 < eligible {
      RoundInteger(eligible);
      if c.discountType == FixedAmount {
        if c.value < eligible as real {
          RoundAtMost(c.value, eligible);
        }
      } else {
        PercentWithin(eligible, c.value);
        if c.value <= 100.0 {
          RoundAtMost(PercentOf(eligible, c.value), eligible);
        } else {
          RoundAtLeast(PercentOf(eligible, c.value), eligible);
        }
      }
    }
  }

  function PercentOf(amount: Cents, percent: real): real {
    amount as real * percent / 100.0
  }

  lemma PercentWithin(amount: Cents, percent: real)
    requires 0 <= amount && 0.0 <= percent
    ensures percent <= 100.0 ==> PercentOf(amount, percent) <= amount as real
    ensures 100.0 <= percent ==> amount as real <= PercentOf(amount, percent)
  {
    if percent <= 100.0 {
      assert amount as real * percent <= amount as real * 100.0;
    } else {
      assert amount as real * 100.0 <= amount as real * percent;
    }
  }

  /** Each group's total is its subtotal and delivery less its discount, and so is their sum. */
  lemma {:induction false} TotalsBalance(gs: seq<Group>)
    requires forall i :: 0 <= i < |gs| ==> gs[i].total == gs[i].subtotal + gs[i].deliveryCost - gs[i].discount
    ensures Sum(Totals(gs)) == Sum(Subtotals(gs)) + Sum(DeliveryCosts(gs)) - Sum(Discounts(gs))
  {
    if gs != [] {
      var n := |gs| - 1;
      TotalsBalance(gs[..n]);
      assert Totals(gs)[..n] == Totals(gs[..n]);
      assert Subtotals(gs)[..n] == Subtotals(gs[..n]);
      assert DeliveryCosts(gs)[..n] == DeliveryCosts(gs[..n]);
      assert Discounts(gs)[..n] == Discounts(gs[..n]);
    }
  }

  lemma DiscountsTrackCoupon(gs: seq<Group>, applied: AppliedCoupon)
    requires 0 < applied.eligibleSubtotal == Sum(Eligibles(gs))
    requires forall i :: 0 <= i < |gs| ==> gs[i].discount == GroupDiscount(gs[i].eligible, Some(applied))
    ensures var slack := |gs| as real / 2.0;
            -slack <= (Sum(Discounts(gs)) - applied.discount) as real <= slack
  {
    SharesTrackDiscount(applied.discount, Eligibles(gs), applied.eligibleSubtotal, Discounts(gs));
    ShareOfWhole(applied.discount, applied.eligibleSubtotal);
  }

  /**
   For any cart and coupon, the group discounts add up to the coupon's discount within half a cent
   a group, and the four printed prices balance within the same bound.
   */
  lemma CouponDistributionBound(ls: seq<Listing>, buyer: UserId, country: Option<string>, coupon: Coupon, now: Time)
    ensures var r := CartSummary(ls, buyer, country, Some(coupon), now);
            r.Success? ==>
              var s := r.value;
              var slack := |s.groups| as real / 2.0;
              && ValidateCoupon(coupon, ls, now).Success?
              && s.discount == ValidateCoupon(coupon, ls, now).value.discount
              && |s.groups| == |Sellers(ls)|
              && s.subtotal == Sum(Prices(ls))
              && -slack <= (Sum(Discounts(s.groups)) - s.discount) as real <= slack
              && -slack <= (s.subtotal + s.shipping - s.discount - s.total) as real <= slack
  {
    hide ValidateCoupon, GroupDiscount;
    if CartSummary(ls, buyer, country, Some(coupon), now).Success? {
      var applied := ValidateCoupon(coupon, ls, now).value;
      ValidatedIsSound(coupon, ls, now);
      var gs := Groups(ls, country, Some(applied));
      GroupsConserve(ls, country, Some(applied));
      DiscountsTrackCoupon(gs, applied);
      TotalsBalance(gs);
    }
  }

  /** Without a coupon nothing drifts. */
  lemma NoCouponBalances(ls: seq<Listing>, buyer: UserId, country: Option<string>, now: Time)
    ensures var r := CartSummary(ls, buyer, country, None, now);
            r.Success? ==>
              && r.value.subtotal == Sum(Prices(ls)) && r.value.discount == 0
              && r.value.total == r.value.subtotal + r.value.shipping
  {
    if CartSummary(ls, buyer, country, None, now).Success? {
      var gs := Groups(ls, country, None);
      NothingTakenOff(ls, country);
      GroupsConserve(ls, country, None);
      hide ValidateCoupon, Groups, FirstProblem;
      TotalsBalance(gs);
      SumOfZeros(Discounts(gs));
    }
  }

  lemma NothingTakenOff(ls: seq<Listing>, country: Option<string>)
    ensures var gs := Groups(ls, country, None);
            forall i :: 0 <= i < |gs| ==> gs[i].discount == 0 && gs[i].total == gs[i].subtotal + gs[i].deliveryCost
  {
  }

  lemma Singleton(x: int)
    ensures Sum([x]) == x
  {
    assert [x] == [] + [x];
    SumSnoc([], x);
  }

  lemma TwoSellers(l: Listing, m: Listing)
    requires l.seller.id != m.seller.id
    ensures Sellers([l, m]) == [l.seller.id, m.seller.id]
    ensures OfSeller([l, m], l.seller.id) == [l] && OfSeller([l, m], m.seller.id) == [m]
  {
    assert [l, m][..1] == [l] && [l][..0] == [];
    assert Sellers([]) == [];
    assert Sellers([l]) == [l.seller.id];
    assert OfSeller([], l.seller.id) == [] && OfSeller([], m.seller.id) == [];
    assert OfSeller([l], l.seller.id) == [l] && OfSeller([l], m.seller.id) == [];
  }

  lemma Pair(x: int, y: int)
    ensures Sum([x, y]) == x + y
  {
    assert [x, y] == [x] + [y];
    Singleton(x);
    SumSnoc([x], y);
  }

  lemma OneCentOff(l: Listing, m: Listing, c: Coupon, now: Time)
    requires UnitPrice(l) == UnitPrice(m) == 1 && c.category == c.subCategory == 0
    requires c.discountType == FixedAmount && c.value == 1.0
    requires c.active && c.start <= now <= c.end && c.usageLimit.None?
    ensures ValidateCoupon(c, [l, m], now) == Success(AppliedCoupon(c, 2, 1))
  {
    assert EligiblePrices(Some(c), [l, m]) == [1, 1];
    Pair(1, 1);
    RoundInteger(1);
  }

  lemma HalfOfOneCent(l: Listing, country: Option<string>, applied: AppliedCoupon)
    requires UnitPrice(l) == 1 && applied.coupon.category == applied.coupon.subCategory == 0
    requires applied.eligibleSubtotal == 2 && applied.discount == 1
    ensures PricedGroup(OpenGroup([l], country, Some(applied.coupon)), Some(applied)).discount == 1
  {
    assert EligiblePrices(Some(applied.coupon), [l]) == [1];
    Singleton(1);
    assert 1.0 * (1.0 / 2.0) == 0.5;
    RoundUnique(0.5, 1);
  }

  lemma NoProblem(l: Listing, m: Listing, buyer: UserId, now: Time)
    requires CartItemProblem(l, buyer, now).None? && CartItemProblem(m, buyer, now).None?
    ensures FirstProblem([l, m], buyer, now).None?
  {
    hide CartItemProblem;
    assert [l, m][..1] == [l] && [l][..0] == [];
    assert FirstProblem([], buyer, now).None?;
    assert FirstProblem([l], buyer, now).None?;
  }

  /**
   The bound is tight: a coupon of one cent on a cart of two sellers, with one item of one cent each, takes a cent off
   each of the two groups.
   */
  lemma CouponDriftIsReached(l: Listing, m: Listing, buyer: UserId, country: Option<string>, c: Coupon, now: Time)
    requires l.seller.id != m.seller.id && UnitPrice(l) == UnitPrice(m) == 1
    requires CartItemProblem(l, buyer, now).None? && CartItemProblem(m, buyer, now).None?
    requires c.discountType == FixedAmount && c.value == 1.0 && c.category == c.subCategory == 0
    requires c.active && c.start <= now <= c.end && c.usageLimit.None?
    ensures var r := CartSummary([l, m], buyer, country, Some(c), now);
            && r.Success? && |r.value.groups| == 2 && r.value.discount == 1
            && 2 * (Sum(Discounts(r.value.groups)) - r.value.discount) == |r.value.groups|
  {
    hide ValidateCoupon, FirstProblem, Sellers, OfSeller, OpenGroup, PricedGroup, UnitPrice, CartItemProblem;
    NoProblem(l, m, buyer, now);
    OneCentOff(l, m, c, now);
    TwoSellers(l, m);
    var applied := AppliedCoupon(c, 2, 1);
    HalfOfOneCent(l, country, applied);
    HalfOfOneCent(m, country, applied);
    var gs := Groups([l, m], country, Some(applied));
    assert Discounts(gs) == [1, 1];
    Pair(1, 1);
  }

  // ----- What is in a group -----

  /** The price of an item: its discounted price if it has one, else its original price, in whole cents. */
  predicate PricedAt(l: Listing, price: Cents) {
    && (l.discountedPrice.Some? ==> price == Round(l.discountedPrice.value))
    && (l.discountedPrice.None? ==> price == Round(l.originalPrice))
  }

  predicate Costs(terms: DeliveryTerms, partner: Option<string>, cost: Cents) {
    && partner == terms.partner
    && (terms.cost.Some? ==> cost == Round(terms.cost.value)) && (terms.cost.None? ==> cost == 0)
  }

  predicate SameCountry(a: Option<string>, b: Option<string>) {
    a.Some? && a == b && a.value != ""
  }

  /** Domestic terms within one known country, international ones otherwise, nothing to pay without any. */
  predicate DeliveredBy(s: SellerProfile, buyerCountry: Option<string>, partner: Option<string>, cost: Cents) {
    if s.delivery.None? then partner.None? && cost == 0
    else if SameCountry(s.country, buyerCountry) then Costs(s.delivery.value.domestic, partner, cost)
    else Costs(s.delivery.value.international, partner, cost)
  }

  function SoldBy(id: UserId): Listing -> bool {
    (l: Listing) => l.seller.id == id
  }

  /** A group lists these items with their prices, and is delivered on the terms of their seller. */
  predicate Lists(g: Group, own: seq<Listing>, buyerCountry: Option<string>) {
    && own != [] && |g.items| == |g.prices| == |own|
    && (forall k :: 0 <= k < |own| ==> g.items[k] == own[k].id && PricedAt(own[k], g.prices[k]))
    && DeliveredBy(own[0].seller, buyerCountry, g.deliveryPartner, g.deliveryCost)
    && g.subtotal == Sum(g.prices) && g.total == g.subtotal + g.deliveryCost - g.discount
  }

  /** Exactly the items of the group's seller are listed, each once and in the order of the cart. */
  ghost predicate ListsTheirs(ls: seq<Listing>, g: Group, buyerCountry: Option<string>) {
    exists own: seq<Listing> :: Picks(ls, own, SoldBy(g.seller)) && Lists(g, own, buyerCountry)
  }

  lemma {:induction false} OfSellerPicks(ls: seq<Listing>, id: UserId)
    ensures Picks(ls, OfSeller(ls, id), SoldBy(id))
  {
    hide Picks;
    PicksNone(SoldBy(id));
    if ls != [] {
      var n := |ls| - 1;
      OfSellerPicks(ls[..n], id);
      PicksSnoc(ls[..n], OfSeller(ls[..n], id), ls[n], SoldBy(id));
      assert ls == ls[..n] + [ls[n]];
    }
  }

  /** The sellers come in the order in which their first items do. */
  lemma {:induction false} SellersInOrder(ls: seq<Listing>, k: nat)
    requires k <= |ls|
    ensures Sellers(ls[..k]) <= Sellers(ls)
    decreases |ls|
  {
    if k == |ls| {
      assert ls[..k] == ls;
    } else {
      var n := |ls| - 1;
      assert ls[..n][..k] == ls[..k];
      SellersInOrder(ls[..n], k);
    }
  }

  lemma SellersAre(ls: seq<Listing>, id: UserId)
    ensures id in Sellers(ls) <==> exists l :: l in ls && l.seller.id == id
  {
    SellersDistinct(ls);
    OfSellerMembers(ls, id);
    hide OfSeller;
    if id in Sellers(ls) {
      assert OfSeller(ls, id)[0] in OfSeller(ls, id);
    }
  }

  lemma OpenedLists(own: seq<Listing>, country: Option<string>, c: Option<AppliedCoupon>)
    requires own != []
    ensures var g := PricedGroup(OpenGroup(own, country, CouponOf(c)), c);
            g.seller == own[0].seller.id && Lists(g, own, country)
  {
    hide GroupDiscount, EligiblePrices, Sum;
    RoundInteger(0);
  }

  /**
   There is a group for exactly each seller of the cart. It lists exactly the seller's items, in the order of the
   cart, with their prices, and the delivery that the seller's terms ask for.
   */
  lemma GroupLists(ls: seq<Listing>, country: Option<string>, c: Option<AppliedCoupon>, i: nat)
    requires i < |Groups(ls, country, c)|
    ensures ListsTheirs(ls, Groups(ls, country, c)[i], country)
  {
    var id := Sellers(ls)[i];
    var own := OfSeller(ls, id);
    OfSellerPicks(ls, id);
    OfSellerMembers(ls, id);
    hide OfSeller, GroupDiscount, Picks, Sellers, PricedGroup, OpenGroup, Lists;
    assert own[0] in own;
    OpenedLists(own, country, c);
    assert ListsTheirs(ls, Groups(ls, country, c)[i], country);
  }

  /** Only items of the coupon's category and subcategory count, at their price; zero stands for any. */
  lemma EligibleIs(c: Coupon, l: Listing, price: Cents)
    requires PricedAt(l, price)
    ensures EligiblePrice(None, l) == 0
    ensures EligiblePrice(Some(c), l)
         == if c.category in {0, l.category} && c.subCategory in {0, l.subCategory} then price else 0
  {
  }

  /** The item is for sale, to this buyer, now. */
  predicate ForSaleTo(l: Listing, buyer: UserId, now: Time) {
    && l.product.status == Active && l.product.auth == Verified && l.seller.id != buyer && l.seller.onboarded
    && (l.product.reservedUntil.Some? && now < l.product.reservedUntil.value ==> l.product.reservedBy == Some(buyer))
  }

  /** A cart is refused exactly if some item of it is not for sale to the buyer. */
  lemma {:induction false} RefusedIff(ls: seq<Listing>, buyer: UserId, now: Time)
    ensures FirstProblem(ls, buyer, now).None? <==> forall l :: l in ls ==> ForSaleTo(l, buyer, now)
  {
    if ls != [] {
      var n := |ls| - 1;
      RefusedIff(ls[..n], buyer, now);
      assert CartItemProblem(ls[n], buyer, now).None? <==> ForSaleTo(ls[n], buyer, now);
      assert ls[n] in ls;
      forall l | l in ls
        ensures l in ls[..n] || l == ls[n]
      {
      }
      hide ForSaleTo, CartItemProblem;
      forall l | l in ls[..n]
        ensures l in ls
      {
      }
    }
  }

  /** The refusal of an item names what is wrong with it. */
  predicate WrongWith(l: Listing, error: CheckoutError, buyer: UserId, now: Time) {
    match error
    case NotActive => l.product.status != Active
    case NotAuthenticated => l.product.status == Active && l.product.auth != Verified
    case OwnProduct => l.seller.id == buyer
    case SellerNotSetUp => !l.seller.onboarded
    case ReservedByOther => HeldByOther(l.product, buyer, now)
    case _ => false
  }

  /** A refused cart is refused for its first item that is not for sale. */
  lemma {:induction false} FirstRefused(ls: seq<Listing>, buyer: UserId, now: Time) returns (k: nat)
    requires FirstProblem(ls, buyer, now).Some?
    ensures k < |ls| && WrongWith(ls[k], FirstProblem(ls, buyer, now).value, buyer, now)
    ensures forall i :: 0 <= i < k ==> ForSaleTo(ls[i], buyer, now)
  {
    var n := |ls| - 1;
    if FirstProblem(ls[..n], buyer, now).Some? {
      k := FirstRefused(ls[..n], buyer, now);
    } else {
      k := n;
      RefusedIff(ls[..n], buyer, now);
      assert forall i :: 0 <= i < n ==> ls[i] in ls[..n];
    }
  }

  /** Nobody else's hold on the item ends this very instant. */
  predicate NotEndingNow(p: Product, buyer: UserId, now: Time) {
    p.reservedUntil != Some(now) || p.reservedBy == Some(buyer)
  }

  /**
   What the checkout can hold for the buyer, from a seller who is set up, the summary lets through. What the summary
   lets through can be held unless another's hold on it ends this very instant.
   */
  lemma ForSaleCanBeHeld(l: Listing, buyer: UserId, now: Time)
    requires l.seller.id != buyer && l.seller.onboarded
    ensures Available(l.product, buyer, now) <==> ForSaleTo(l, buyer, now) && NotEndingNow(l.product, buyer, now)
  {
  }

  // ----- Buying one product now -----

  function BuyNowPrices(l: Listing, country: Option<string>, c: Option<AppliedCoupon>): Summary {
    var subtotal := UnitPrice(l);
    var shipping := DeliveryCost(l.seller, country);
    var discount := if c.Some? then c.value.discount else 0;
    var eligible := if c.Some? then c.value.eligibleSubtotal else 0;
    var total := subtotal + shipping - discount;
    var group := Group(l.seller.id, ResolveDelivery(l.seller, country).partner, [l.id], [subtotal],
                       subtotal, shipping, eligible, discount, total);
    Summary([group], subtotal, shipping, discount, total)
  }

  function BuyNowSummary(l: Listing, buyer: UserId, country: Option<string>, coupon: Option<Coupon>, now: Time)
    : Result<Summary, CheckoutError>
  {
    var problem := BuyNowProblem(l, buyer, now);
    if problem.Some? then Failure(problem.value)
    else if coupon.None? then Success(BuyNowPrices(l, country, None))
    else
      match ValidateCoupon(coupon.value, [l], now)
      case Failure(e) => Failure(e)
      case Success(applied) => Success(BuyNowPrices(l, country, Some(applied)))
  }

  lemma WholeDiscount(l: Listing, c: Option<AppliedCoupon>)
    requires c.Some? ==> Sound(c.value, [l])
    ensures EligiblePrices(CouponOf(c), [l]) == [EligiblePrice(CouponOf(c), l)]
    ensures EligiblePrice(CouponOf(c), l) == if c.Some? then c.value.eligibleSubtotal else 0
    ensures GroupDiscount(EligiblePrice(CouponOf(c), l), c) == if c.Some? then c.value.discount else 0
  {
    assert EligiblePrices(CouponOf(c), [l]) == [EligiblePrice(CouponOf(c), l)];
    Singleton(EligiblePrice(CouponOf(c), l));
    if c.Some? {
      ShareOfWhole(c.value.discount, c.value.eligibleSubtotal);
      RoundInteger(c.value.discount);
    }
  }

  lemma OneGroup(l: Listing, country: Option<string>, c: Option<AppliedCoupon>)
    requires c.Some? ==> Sound(c.value, [l])
    ensures Summarise(Groups([l], country, c), c) == BuyNowPrices(l, country, c)
  {
    hide GroupDiscount;
    assert [l][..0] == [];
    assert Sellers([]) == [] && OfSeller([], l.seller.id) == [];
    assert Sellers([l]) == [l.seller.id];
    assert OfSeller([l], l.seller.id) == [l];
    WholeDiscount(l, c);
    var gs := Groups([l], country, c);
    var own := gs[0];
    assert Prices([l]) == [UnitPrice(l)] && Ids([l]) == [l.id];
    Singleton(UnitPrice(l));
    Singleton(EligiblePrice(CouponOf(c), l));
    assert Subtotals(gs) == [own.subtotal] && DeliveryCosts(gs) == [own.deliveryCost] && Totals(gs) == [own.total];
    Singleton(own.deliveryCost);
    Singleton(own.total);
  }

  /**
   Buying one product now is exactly a cart of that one product: same prices, groups and refusals. Only an own product
   without payment setup is refused for its setup first.
   */
  lemma BuyNowRefinesCart(l: Listing, buyer: UserId, country: Option<string>, coupon: Option<Coupon>, now: Time)
    ensures var cart := CartSummary([l], buyer, country, coupon, now);
            var direct := BuyNowSummary(l, buyer, country, coupon, now);
            && (cart.Success? <==> direct.Success?)
            && (cart.Success? ==> cart.value == direct.value)
            && (cart.Failure? ==>
                  if l.product.status == Active && l.product.auth == Verified && l.seller.id == buyer
                     && !l.seller.onboarded
                  then cart.error == OwnProduct && direct.error == SellerNotSetUp else cart.error == direct.error)
  {
    hide ValidateCoupon, Groups, Summarise, BuyNowPrices;
    assert FirstProblem([l], buyer, now) == CartItemProblem(l, buyer, now) by {
      assert [l][..0] == [];
      assert FirstProblem([], buyer, now) == None;
    }
    if coupon.None? {
      OneGroup(l, country, None);
    } else if ValidateCoupon(coupon.value, [l], now).Success? {
      ValidatedIsSound(coupon.value, [l], now);
      OneGroup(l, country, Some(ValidateCoupon(coupon.value, [l], now).value));
    }
  }
}
