/** The checkout summary: what is bought from whom, the coupon, and every price in it. */
module Checkout {
  import opened Wrappers
  import opened Money
  import opened Domain

  type CartItemId = int

  datatype DeliveryTerms = DeliveryTerms(partner: Option<string>, cost: Option<real>)

  datatype DeliveryOption = DeliveryOption(domestic: DeliveryTerms, international: DeliveryTerms)

  datatype SellerProfile = SellerProfile(
    id: UserId, onboarded: bool, country: Option<string>, delivery: Option<DeliveryOption>)

  /** A product as the checkout sees it, prices in cents before rounding. */
  datatype Listing = Listing(
    id: ProductId, product: Product, seller: SellerProfile, originalPrice: real, discountedPrice: Option<real>,
    category: int, subCategory: int)

  datatype CartItem = CartItem(id: CartItemId, listing: Listing)

  datatype DiscountType = Percentage | FixedAmount

  /** A fixed discount value is in cents, a percentage in percent; zero ids do not restrict the coupon. */
  datatype Coupon = Coupon(
    discountType: DiscountType, value: real, category: int, subCategory: int, active: bool,
    start: Time, end: Time, usageLimit: Option<int>, usedCount: int)

  datatype AppliedCoupon = AppliedCoupon(coupon: Coupon, eligibleSubtotal: Cents, discount: Cents)

  datatype CheckoutError =
    | CartEmpty | BothSelections | NothingSelected | SelectionMissing
    | NotActive | NotAuthenticated | OwnProduct | SellerNotSetUp | ReservedByOther
    | CouponInvalid | CouponExhausted | CouponNotApplicable

  datatype Group = Group(
    seller: UserId, deliveryPartner: Option<string>, items: seq<ProductId>, prices: seq<Cents>,
    subtotal: Cents, deliveryCost: Cents, eligible: Cents, discount: Cents, total: Cents)

  datatype Summary = Summary(
    groups: seq<Group>, subtotal: Cents, shipping: Cents, discount: Cents, total: Cents)

  // ----- Prices, coupons and delivery -----

  function UnitPrice(l: Listing): Cents {
    Round(if l.discountedPrice.Some? then l.discountedPrice.value else l.originalPrice)
  }

  predicate Applicable(c: Coupon, l: Listing) {
    && (c.category != 0 ==> l.category == c.category)
    && (c.subCategory != 0 ==> l.subCategory == c.subCategory)
  }

  function EligiblePrice(c: Option<Coupon>, l: Listing): Cents {
    if c.Some? && Applicable(c.value, l) then UnitPrice(l) else 0
  }

  function Prices(ls: seq<Listing>): (ps: seq<Cents>)
    ensures |ps| == |ls|
  {
    seq(|ls|, i requires 0 <= i < |ls| => UnitPrice(ls[i]))
  }

  function EligiblePrices(c: Option<Coupon>, ls: seq<Listing>): (ps: seq<Cents>)
    ensures |ps| == |ls|
  {
    seq(|ls|, i requires 0 <= i < |ls| => EligiblePrice(c, ls[i]))
  }

  lemma ProductNonNegative(a: real, b: real)
    requires 0.0 <= a && 0.0 <= b
    ensures 0.0 <= a * b
  {
  }

  function ValidateCoupon(c: Coupon, ls: seq<Listing>, now: Time): (r: Result<AppliedCoupon, CheckoutError>)
    ensures r.Success? <==>
              (c.active && c.start <= now <= c.end && (c.usageLimit.Some? ==> c.usedCount < c.usageLimit.value)
               && 0 < Sum(EligiblePrices(Some(c), ls)))
    ensures r == Failure(CouponInvalid) <==> !c.active || now < c.start || c.end < now
    ensures r == Failure(CouponExhausted) <==>
              c.active && c.start <= now <= c.end && c.usageLimit.Some? && c.usageLimit.value <= c.usedCount
    ensures r.Failure? ==> r.error in {CouponInvalid, CouponExhausted, CouponNotApplicable}
    ensures r.Success? ==> r.value.coupon == c
    ensures r.Success? ==> 0 < r.value.eligibleSubtotal && r.value.discount <= r.value.eligibleSubtotal
    ensures r.Success? && 0.0 <= c.value ==> 0 <= r.value.discount
  {
    var eligible := Sum(EligiblePrices(Some(c), ls));
    if !c.active || c.start > now || c.end < now then Failure(CouponInvalid)
    else if c.usageLimit.Some? && c.usedCount >= c.usageLimit.value then Failure(CouponExhausted)
    else if eligible <= 0 then Failure(CouponNotApplicable)
    else
      var exact := if c.discountType == Percentage then eligible as real * c.value / 100.0
                   else if c.value < eligible as real then c.value else eligible as real;
      assert 0.0 <= c.value ==> 0.0 <= exact by {
        if 0.0 <= c.value {
          ProductNonNegative(eligible as real, c.value);
        }
      }
      if 0.0 <= exact then
        RoundAtLeast(exact, 0);
        Success(AppliedCoupon(c, eligible, Min(Round(exact), eligible)))
      else
        Success(AppliedCoupon(c, eligible, Min(Round(exact), eligible)))
  }

  function ResolveDelivery(s: SellerProfile, buyerCountry: Option<string>): DeliveryTerms {
    match s.delivery
    case None => DeliveryTerms(None, None)
    case Some(option) =>
      if buyerCountry.Some? && s.country.Some? && buyerCountry.value != "" && s.country.value != ""
         && buyerCountry.value == s.country.value
      then option.domestic else option.international
  }

  function DeliveryCost(s: SellerProfile, buyerCountry: Option<string>): Cents {
    var terms := ResolveDelivery(s, buyerCountry);
    Round(if terms.cost.Some? then terms.cost.value else 0.0)
  }

  // ----- What may be bought -----

  function CartItemProblem(l: Listing, buyer: UserId, now: Time): Option<CheckoutError> {
    if l.product.status != Active then Some(NotActive)
    else if l.product.auth != Verified then Some(NotAuthenticated)
    else if l.seller.id == buyer then Some(OwnProduct)
    else if !l.seller.onboarded then Some(SellerNotSetUp)
    else if HeldByOther(l.product, buyer, now) then Some(ReservedByOther)
    else None
  }

  /** Buy-now asks the same questions, the seller's payment setup before the ownership. */
  function BuyNowProblem(l: Listing, buyer: UserId, now: Time): Option<CheckoutError> {
    if l.product.status != Active then Some(NotActive)
    else if l.product.auth != Verified then Some(NotAuthenticated)
    else if !l.seller.onboarded then Some(SellerNotSetUp)
    else if l.seller.id == buyer then Some(OwnProduct)
    else if HeldByOther(l.product, buyer, now) then Some(ReservedByOther)
    else None
  }

  function FirstProblem(ls: seq<Listing>, buyer: UserId, now: Time): Option<CheckoutError> {
    if ls == [] then None
    else if FirstProblem(ls[..|ls| - 1], buyer, now).Some? then FirstProblem(ls[..|ls| - 1], buyer, now)
    else CartItemProblem(ls[|ls| - 1], buyer, now)
  }

  // ----- Grouping by seller -----

  /** The sellers of the listings, in the order of their first appearance. */
  function Sellers(ls: seq<Listing>): (ids: seq<UserId>)
    ensures forall id :: id in ids ==> OfSeller(ls, id) != []
  {
    if ls == [] then []
    else
      var rest := Sellers(ls[..|ls| - 1]);
      var last := ls[|ls| - 1];
      if last.seller.id in rest then rest else rest + [last.seller.id]
  }

  function OfSeller(ls: seq<Listing>, id: UserId): seq<Listing> {
    if ls == [] then []
    else
      var rest := OfSeller(ls[..|ls| - 1], id);
      var last := ls[|ls| - 1];
      if last.seller.id == id then rest + [last] else rest
  }

  lemma {:induction false} SellersDistinct(ls: seq<Listing>)
    ensures forall l :: l in ls ==> l.seller.id in Sellers(ls)
    ensures forall i, j :: 0 <= i < j < |Sellers(ls)| ==> Sellers(ls)[i] != Sellers(ls)[j]
  {
    if ls != [] {
      SellersDistinct(ls[..|ls| - 1]);
    }
  }

  lemma {:induction false} OfSellerMembers(ls: seq<Listing>, id: UserId)
    ensures forall l :: l in OfSeller(ls, id) <==> l in ls && l.seller.id == id
  {
    if ls != [] {
      OfSellerMembers(ls[..|ls| - 1], id);
    }
  }

  function Ids(ls: seq<Listing>): (ids: seq<ProductId>)
    ensures |ids| == |ls| && forall i :: 0 <= i < |ls| ==> ids[i] == ls[i].id
  {
    seq(|ls|, i requires 0 <= i < |ls| => ls[i].id)
  }

  /** A seller's part of the cart, before the coupon is spread over the groups. */
  function OpenGroup(own: seq<Listing>, buyerCountry: Option<string>, c: Option<Coupon>): Group
    requires own != []
  {
    var seller := own[0].seller;
    Group(seller.id, ResolveDelivery(seller, buyerCountry).partner, Ids(own), Prices(own),
          Sum(Prices(own)), DeliveryCost(seller, buyerCountry), Sum(EligiblePrices(c, own)), 0, 0)
  }

  function GroupDiscount(eligible: Cents, c: Option<AppliedCoupon>): Cents {
    if c.Some? && c.value.eligibleSubtotal != 0
    then Round(c.value.discount as real * (eligible as real / c.value.eligibleSubtotal as real))
    else 0
  }

  function PricedGroup(g: Group, c: Option<AppliedCoupon>): Group {
    var discount := GroupDiscount(g.eligible, c);
    g.(discount := discount, total := g.subtotal + g.deliveryCost - discount)
  }

  function GroupOf(ls: seq<Listing>, id: UserId, buyerCountry: Option<string>, c: Option<AppliedCoupon>): Group
    requires id in Sellers(ls)
  {
    PricedGroup(OpenGroup(OfSeller(ls, id), buyerCountry, CouponOf(c)), c)
  }

  function CouponOf(c: Option<AppliedCoupon>): Option<Coupon> {
    if c.Some? then Some(c.value.coupon) else None
  }

  function Groups(ls: seq<Listing>, buyerCountry: Option<string>, c: Option<AppliedCoupon>): (gs: seq<Group>)
    ensures |gs| == |Sellers(ls)|
    ensures forall i :: 0 <= i < |gs| ==> gs[i] == GroupOf(ls, Sellers(ls)[i], buyerCountry, c)
  {
    var ids := Sellers(ls);
    seq(|ids|, i requires 0 <= i < |ids| => GroupOf(ls, ids[i], buyerCountry, c))
  }

  function Subtotals(gs: seq<Group>): (xs: seq<Cents>)
    ensures |xs| == |gs|
  {
    seq(|gs|, i requires 0 <= i < |gs| => gs[i].subtotal)
  }

  function DeliveryCosts(gs: seq<Group>): (xs: seq<Cents>)
    ensures |xs| == |gs|
  {
    seq(|gs|, i requires 0 <= i < |gs| => gs[i].deliveryCost)
  }

  function Eligibles(gs: seq<Group>): (xs: seq<Cents>)
    ensures |xs| == |gs|
  {
    seq(|gs|, i requires 0 <= i < |gs| => gs[i].eligible)
  }

  function Discounts(gs: seq<Group>): (xs: seq<Cents>)
    ensures |xs| == |gs|
  {
    seq(|gs|, i requires 0 <= i < |gs| => gs[i].discount)
  }

  function Totals(gs: seq<Group>): (xs: seq<Cents>)
    ensures |xs| == |gs|
  {
    seq(|gs|, i requires 0 <= i < |gs| => gs[i].total)
  }

  function Summarise(gs: seq<Group>, c: Option<AppliedCoupon>): Summary {
    Summary(gs, Sum(Subtotals(gs)), Sum(DeliveryCosts(gs)),
            if c.Some? then c.value.discount else 0, Sum(Totals(gs)))
  }

  function CartSummary(ls: seq<Listing>, buyer: UserId, buyerCountry: Option<string>, coupon: Option<Coupon>, now: Time)
    : Result<Summary, CheckoutError>
  {
    var problem := FirstProblem(ls, buyer, now);
    if problem.Some? then Failure(problem.value)
    else if coupon.None? then Success(Summarise(Groups(ls, buyerCountry, None), None))
    else
      match ValidateCoupon(coupon.value, ls, now)
      case Failure(e) => Failure(e)
      case Success(applied) => Success(Summarise(Groups(ls, buyerCountry, Some(applied)), Some(applied)))
  }
}
