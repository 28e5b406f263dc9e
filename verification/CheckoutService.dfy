/** Building the checkout summary of a cart: the selection, the checks, the seller groups and their prices, in loops. */
module CheckoutService {
  import opened Wrappers
  import opened Money
  import opened Domain
  import opened Filters
  import opened Checkout
  import opened CheckoutLaws

  function WithIds(cart: seq<CartItem>, ids: seq<CartItemId>): seq<Listing> {
    if cart == [] then []
    else
      var n := |cart| - 1;
      WithIds(cart[..n], ids) + if cart[n].id in ids then [cart[n].listing] else []
  }

  function FromSellers(cart: seq<CartItem>, sellers: seq<UserId>): seq<Listing> {
    if cart == [] then []
    else
      var n := |cart| - 1;
      FromSellers(cart[..n], sellers) + if cart[n].listing.seller.id in sellers then [cart[n].listing] else []
  }

  function Listings(items: seq<CartItem>): (ls: seq<Listing>)
    ensures |ls| == |items|
  {
    seq(|items|, i requires 0 <= i < |items| => items[i].listing)
  }

  /** Which items of the cart are checked out: those named, those of the named sellers, or all. */
  function Selection(cart: seq<CartItem>, sellerIds: seq<UserId>, cartItemIds: seq<CartItemId>)
    : Result<seq<Listing>, CheckoutError>
  {
    var sellers, items := PositiveIds(sellerIds), PositiveIds(cartItemIds);
    if cart == [] then Failure(CartEmpty)
    else if sellers != [] && items != [] then Failure(BothSelections)
    else
      var selected := if items != [] then WithIds(cart, items)
          else if sellers != [] then FromSellers(cart, sellers) else Listings(cart);
      if selected == [] then Failure(NothingSelected)
      else if items != [] && |selected| != |items| then Failure(SelectionMissing)
      else Success(selected)
  }

  function CheckoutOf(cart: seq<CartItem>, sellerIds: seq<UserId>, cartItemIds: seq<CartItemId>, buyer: UserId,
                      country: Option<string>, coupon: Option<Coupon>, now: Time): Result<Summary, CheckoutError>
  {
    match Selection(cart, sellerIds, cartItemIds)
    case Failure(e) => Failure(e)
    case Success(ls) => CartSummary(ls, buyer, country, coupon, now)
  }

  // ----- Which items a selection picks -----

  predicate NamesSome(ids: seq<int>) {
    exists i | 0 <= i < |ids| :: 0 < ids[i]
  }

  /** Cart items are wanted by their own id if any are named, else by their seller's, else all are. */
  predicate Wanted(item: CartItem, sellerIds: seq<UserId>, cartItemIds: seq<CartItemId>) {
    if NamesSome(cartItemIds) then 0 < item.id && item.id in cartItemIds
    else if NamesSome(sellerIds) then 0 < item.listing.seller.id && item.listing.seller.id in sellerIds
    else true
  }

  function WantedBy(sellerIds: seq<UserId>, cartItemIds: seq<CartItemId>): CartItem -> bool {
    (item: CartItem) => Wanted(item, sellerIds, cartItemIds)
  }

  /** The listings of exactly the wanted items of the cart, each once and in the order of the cart. */
  ghost predicate SelectedFrom(cart: seq<CartItem>, sellerIds: seq<UserId>, cartItemIds: seq<CartItemId>,
                               ls: seq<Listing>)
  {
    exists items: seq<CartItem> :: Picks(cart, items, WantedBy(sellerIds, cartItemIds)) && ls == Listings(items)
  }

  lemma NamesSomeIff(ids: seq<int>)
    ensures NamesSome(ids) <==> PositiveIds(ids) != []
  {
    var valid := PositiveIds(ids);
    if valid != [] {
      assert valid[0] in valid;
    }
    if i :| 0 <= i < |ids| && 0 < ids[i] {
      assert ids[i] in valid;
    }
  }

  lemma {:induction false} WithIdsPicks(cart: seq<CartItem>, ids: seq<CartItemId>, wanted: CartItem -> bool)
    returns (items: seq<CartItem>)
    requires forall item :: item in cart ==> (wanted(item) <==> item.id in ids)
    ensures Picks(cart, items, wanted) && WithIds(cart, ids) == Listings(items)
  {
    hide Picks;
    items := [];
    PicksNone(wanted);
    if cart != [] {
      var n := |cart| - 1;
      items := WithIdsPicks(cart[..n], ids, wanted);
      PicksSnoc(cart[..n], items, cart[n], wanted);
      assert cart == cart[..n] + [cart[n]];
      items := if wanted(cart[n]) then items + [cart[n]] else items;
    }
  }

  lemma {:induction false} FromSellersPicks(cart: seq<CartItem>, sellers: seq<UserId>, wanted: CartItem -> bool)
    returns (items: seq<CartItem>)
    requires forall item :: item in cart ==> (wanted(item) <==> item.listing.seller.id in sellers)
    ensures Picks(cart, items, wanted) && FromSellers(cart, sellers) == Listings(items)
  {
    hide Picks;
    items := [];
    PicksNone(wanted);
    if cart != [] {
      var n := |cart| - 1;
      items := FromSellersPicks(cart[..n], sellers, wanted);
      PicksSnoc(cart[..n], items, cart[n], wanted);
      assert cart == cart[..n] + [cart[n]];
      items := if wanted(cart[n]) then items + [cart[n]] else items;
    }
  }

  lemma {:induction false} AllPicked(cart: seq<CartItem>, wanted: CartItem -> bool)
    requires forall item :: item in cart ==> wanted(item)
    ensures Picks(cart, cart, wanted)
  {
    hide Picks;
    if cart == [] {
      PicksNone(wanted);
    } else {
      var n := |cart| - 1;
      AllPicked(cart[..n], wanted);
      PicksSnoc(cart[..n], cart[..n], cart[n], wanted);
      assert cart == cart[..n] + [cart[n]];
    }
  }

  /**
   What is selected: by cart items the named ones, by sellers the items of the named sellers, without names all, in
   the order of the cart and each once. Naming both is refused, and so is a selection that picks nothing.
   */
  lemma SelectionPicks(cart: seq<CartItem>, sellerIds: seq<UserId>, cartItemIds: seq<CartItemId>)
    ensures var r := Selection(cart, sellerIds, cartItemIds);
            && (r.Success? ==> r.value != [] && SelectedFrom(cart, sellerIds, cartItemIds, r.value))
            && (r == Failure(CartEmpty) <==> cart == [])
            && (r == Failure(BothSelections) <==> cart != [] && NamesSome(sellerIds) && NamesSome(cartItemIds))
            && (r == Failure(NothingSelected) <==>
                  cart != [] && !(NamesSome(sellerIds) && NamesSome(cartItemIds))
                  && forall item :: item in cart ==> !Wanted(item, sellerIds, cartItemIds))
            && (r == Failure(SelectionMissing) ==> NamesSome(cartItemIds))
  {
    var wanted := WantedBy(sellerIds, cartItemIds);
    NamesSomeIff(sellerIds);
    NamesSomeIff(cartItemIds);
    var items := cart;
    if NamesSome(cartItemIds) {
      items := WithIdsPicks(cart, PositiveIds(cartItemIds), wanted);
    } else if NamesSome(sellerIds) {
      items := FromSellersPicks(cart, PositiveIds(sellerIds), wanted);
    } else {
      AllPicked(cart, wanted);
    }
    PickedAre(cart, items, wanted);
    hide Picks, PositiveIds, NamesSome, WithIds, FromSellers;
    if items != [] {
      assert items[0] in items;
    }
    forall item | item in cart
      ensures wanted(item) <==> item in items
    {
    }
  }

  function ItemIds(cart: seq<CartItem>): set<CartItemId> {
    set i | 0 <= i < |cart| :: cart[i].id
  }

  lemma OneMoreItem(cart: seq<CartItem>)
    requires cart != [] && forall i, j :: 0 <= i < j < |cart| ==> cart[i].id != cart[j].id
    ensures var n := |cart| - 1;
            ItemIds(cart) == ItemIds(cart[..n]) + {cart[n].id} && cart[n].id !in ItemIds(cart[..n])
  {
    var n := |cart| - 1;
    forall id
      ensures id in ItemIds(cart) <==> id in ItemIds(cart[..n]) + {cart[n].id}
    {
      assert forall i :: 0 <= i < n ==> cart[i] == cart[..n][i];
    }
  }

  lemma OneMoreInBoth(before: set<int>, last: int, named: set<int>)
    requires last !in before
    ensures |(before + {last}) * named| == |before * named| + if last in named then 1 else 0
  {
    if last in named {
      assert (before + {last}) * named == before * named + {last};
    } else {
      assert (before + {last}) * named == before * named;
    }
  }

  lemma MemberIff(ids: seq<int>, id: int)
    ensures id in Members(ids) <==> id in ids
  {
  }

  /** As many listings are selected as named ids are in the cart. */
  lemma {:induction false} SelectedCount(cart: seq<CartItem>, ids: seq<CartItemId>)
    requires forall i, j :: 0 <= i < j < |cart| ==> cart[i].id != cart[j].id
    ensures |WithIds(cart, ids)| == |ItemIds(cart) * Members(ids)|
  {
    if cart == [] {
      assert ItemIds(cart) * Members(ids) == {};
    } else {
      var n := |cart| - 1;
      OneMoreItem(cart);
      MemberIff(ids, cart[n].id);
      hide ItemIds, Members;
      SelectedCount(cart[..n], ids);
      OneMoreInBoth(ItemIds(cart[..n]), cart[n].id, Members(ids));
    }
  }

  lemma {:induction false} MemberCount(ids: seq<int>)
    requires forall i, j :: 0 <= i < j < |ids| ==> ids[i] != ids[j]
    ensures |Members(ids)| == |ids|
  {
    if ids != [] {
      var n := |ids| - 1;
      MemberCount(ids[..n]);
      assert Members(ids) == Members(ids[..n]) + {ids[n]} by {
        assert forall i :: 0 <= i < n ==> ids[i] == ids[..n][i];
      }
    }
  }

  lemma SubsetOfSameSize(a: set<int>, b: set<int>)
    requires a <= b && |a| == |b|
    ensures a == b
  {
    assert |b - a| == 0 by {
      assert b == a + (b - a);
    }
    assert b == a + (b - a);
  }

  /** A selection by cart items goes through exactly when some are named and every one of them is in the cart. */
  lemma NamedItemsAreFound(cart: seq<CartItem>, cartItemIds: seq<CartItemId>)
    requires forall i, j :: 0 <= i < j < |cart| ==> cart[i].id != cart[j].id
    requires cart != [] && PositiveIds(cartItemIds) != []
    ensures Selection(cart, [], cartItemIds).Success? <==>
            forall id :: id in cartItemIds && 0 < id ==> exists i :: 0 <= i < |cart| && cart[i].id == id
  {
    var ids := PositiveIds(cartItemIds);
    SelectedCount(cart, ids);
    MemberCount(ids);
    var found := ItemIds(cart) * Members(ids);
    if |found| == |Members(ids)| {
      SubsetOfSameSize(found, Members(ids));
    }
    assert Members(ids) <= ItemIds(cart) <==> found == Members(ids);
    if Members(ids) <= ItemIds(cart) {
      forall id | id in cartItemIds && 0 < id
        ensures exists i :: 0 <= i < |cart| && cart[i].id == id
      {
        assert id in ids && id in Members(ids) && id in ItemIds(cart);
      }
    }
    if forall id :: id in cartItemIds && 0 < id ==> exists i :: 0 <= i < |cart| && cart[i].id == id {
      forall id | id in Members(ids)
        ensures id in ItemIds(cart)
      {
        assert id in ids;
      }
    }
  }

  method SelectItems(cart: seq<CartItem>, sellerIds: seq<UserId>, cartItemIds: seq<CartItemId>)
    returns (r: Result<seq<Listing>, CheckoutError>)
    ensures r == Selection(cart, sellerIds, cartItemIds)
    ensures r.Success? ==> SelectedFrom(cart, sellerIds, cartItemIds, r.value)
  {
    SelectionPicks(cart, sellerIds, cartItemIds);
    hide SelectedFrom;
    if cart == [] {
      return Failure(CartEmpty);
    }
    var sellers, items := PositiveIds(sellerIds), PositiveIds(cartItemIds);
    if sellers != [] && items != [] {
      return Failure(BothSelections);
    }
    var selected: seq<Listing> := [];
    for i := 0 to |cart|
      invariant selected == if items != [] then WithIds(cart[..i], items)
          else if sellers != [] then FromSellers(cart[..i], sellers)
                            else Listings(cart[..i])
    {
      assert cart[..i + 1][..i] == cart[..i];
      if items == [] && sellers == [] {
        assert Listings(cart[..i + 1]) == Listings(cart[..i]) + [cart[i].listing];
      }
      if (items != [] && cart[i].id in items)
         || (items == [] && sellers != [] && cart[i].listing.seller.id in sellers)
         || (items == [] && sellers == []) {
        selected := selected + [cart[i].listing];
      }
    }
    assert cart[..|cart|] == cart;
    if selected == [] {
      return Failure(NothingSelected);
    }
    if items != [] && |selected| != |items| {
      return Failure(SelectionMissing);
    }
    return Success(selected);
  }

  method CheckItems(ls: seq<Listing>, buyer: UserId, now: Time) returns (problem: Option<CheckoutError>)
    ensures problem == FirstProblem(ls, buyer, now)
  {
    for i := 0 to |ls|
      invariant FirstProblem(ls[..i], buyer, now) == None
    {
      assert ls[..i + 1][..i] == ls[..i];
      var found := CartItemProblem(ls[i], buyer, now);
      if found.Some? {
        FirstProblemStays(ls, i + 1, buyer, now);
        return found;
      }
    }
    assert ls[..|ls|] == ls;
    return None;
  }

  lemma {:induction false} FirstProblemStays(ls: seq<Listing>, k: nat, buyer: UserId, now: Time)
    requires k <= |ls| && FirstProblem(ls[..k], buyer, now).Some?
    ensures FirstProblem(ls, buyer, now) == FirstProblem(ls[..k], buyer, now)
    decreases |ls|
  {
    if k == |ls| {
      assert ls[..k] == ls;
    } else {
      var n := |ls| - 1;
      assert ls[..n][..k] == ls[..k];
      FirstProblemStays(ls[..n], k, buyer, now);
    }
  }

  /** Fills the seller map item by item; `order` is the order in which its keys were first set. */
  method GroupBySeller(ls: seq<Listing>) returns (order: seq<UserId>, bySeller: map<UserId, seq<Listing>>)
    ensures order == Sellers(ls)
    ensures forall id :: id in bySeller <==> id in order
    ensures forall id :: id in order ==> bySeller[id] == OfSeller(ls, id)
  {
    order, bySeller := [], map[];
    for i := 0 to |ls|
      invariant order == Sellers(ls[..i])
      invariant forall id :: id in bySeller <==> id in order
      invariant forall id :: id in order ==> bySeller[id] == OfSeller(ls[..i], id)
    {
      assert ls[..i + 1][..i] == ls[..i];
      var seller := ls[i].seller.id;
      if seller !in bySeller {
        NoneOfSeller(ls[..i], seller);
        order := order + [seller];
        bySeller := bySeller[seller := []];
      }
      bySeller := bySeller[seller := bySeller[seller] + [ls[i]]];
    }
    assert ls[..|ls|] == ls;
  }

  lemma {:induction false} NoneOfSeller(ls: seq<Listing>, id: UserId)
    requires id !in Sellers(ls)
    ensures OfSeller(ls, id) == []
  {
    if ls != [] {
      NoneOfSeller(ls[..|ls| - 1], id);
    }
  }

  /** The groups are made first, then the discount and total of each is set. */
  method PriceGroups(ls: seq<Listing>, country: Option<string>, c: Option<AppliedCoupon>) returns (groups: seq<Group>)
    ensures groups == Groups(ls, country, c)
  {
    var order, bySeller := GroupBySeller(ls);
    groups := [];
    for i := 0 to |order|
      invariant |groups| == i
      invariant forall k :: 0 <= k < i ==> groups[k] == OpenGroup(OfSeller(ls, order[k]), country, CouponOf(c))
    {
      var id := order[i];
      assert id in order && id in bySeller && id in Sellers(ls);
      groups := groups + [OpenGroup(bySeller[id], country, CouponOf(c))];
    }
    for i := 0 to |groups|
      invariant |groups| == |order|
      invariant forall k :: 0 <= k < |groups| ==>
        groups[k] == if k < i then GroupOf(ls, order[k], country, c)
            else OpenGroup(OfSeller(ls, order[k]), country, CouponOf(c))
    {
      groups := groups[i := PricedGroup(groups[i], c)];
    }
  }

  method AddUp(groups: seq<Group>, c: Option<AppliedCoupon>) returns (summary: Summary)
    ensures summary == Summarise(groups, c)
  {
    var subtotal, shipping, total := 0, 0, 0;
    for i := 0 to |groups|
      invariant subtotal == Sum(Subtotals(groups[..i])) && shipping == Sum(DeliveryCosts(groups[..i]))
      invariant total == Sum(Totals(groups[..i]))
    {
      assert groups[..i + 1] == groups[..i] + [groups[i]];
      OneMoreGroup(groups[..i], groups[i]);
      subtotal, shipping := subtotal + groups[i].subtotal, shipping + groups[i].deliveryCost;
      total := total + groups[i].total;
    }
    assert groups[..|groups|] == groups;
    return Summary(groups, subtotal, shipping, if c.Some? then c.value.discount else 0, total);
  }

  method BuildCheckoutSummary(cart: seq<CartItem>, sellerIds: seq<UserId>, cartItemIds: seq<CartItemId>, buyer: UserId,
                              country: Option<string>, coupon: Option<Coupon>, now: Time)
    returns (r: Result<Summary, CheckoutError>)
    ensures r == CheckoutOf(cart, sellerIds, cartItemIds, buyer, country, coupon, now)
  {
    var selected := SelectItems(cart, sellerIds, cartItemIds);
    if selected.Failure? {
      return Failure(selected.error);
    }
    var ls := selected.value;
    var problem := CheckItems(ls, buyer, now);
    if problem.Some? {
      return Failure(problem.value);
    }
    var applied: Option<AppliedCoupon> := None;
    if coupon.Some? {
      var validated := ValidateCoupon(coupon.value, ls, now);
      if validated.Failure? {
        return Failure(validated.error);
      }
      applied := Some(validated.value);
    }
    hide ValidateCoupon, Groups, Summarise;
    var groups := PriceGroups(ls, country, applied);
    var summary := AddUp(groups, applied);
    return Success(summary);
  }

  /** The groups of exactly the sellers of these listings, each listing its seller's. */
  ghost predicate GroupsList(ls: seq<Listing>, groups: seq<Group>, country: Option<string>) {
    && (forall l :: l in ls ==> exists i :: 0 <= i < |groups| && groups[i].seller == l.seller.id)
    && forall i :: 0 <= i < |groups| ==> ListsTheirs(ls, groups[i], country)
  }

  lemma GroupSeller(ls: seq<Listing>, id: UserId, country: Option<string>, c: Option<AppliedCoupon>)
    requires id in Sellers(ls)
    ensures GroupOf(ls, id, country, c).seller == id
  {
    OfSellerMembers(ls, id);
    assert OfSeller(ls, id)[0] in OfSeller(ls, id);
    hide OfSeller, GroupDiscount;
  }

  lemma GroupsAre(ls: seq<Listing>, country: Option<string>, c: Option<AppliedCoupon>)
    ensures GroupsList(ls, Groups(ls, country, c), country)
  {
    hide Sellers, GroupOf, ListsTheirs;
    var groups := Groups(ls, country, c);
    forall i | 0 <= i < |groups|
      ensures ListsTheirs(ls, groups[i], country)
    {
      GroupLists(ls, country, c, i);
    }
    SellersDistinct(ls);
    forall l | l in ls
      ensures exists i :: 0 <= i < |groups| && groups[i].seller == l.seller.id
    {
      var i :| 0 <= i < |groups| && Sellers(ls)[i] == l.seller.id;
      GroupSeller(ls, l.seller.id, country, c);
    }
  }

  /** Every group has a seller's item in it. */
  lemma GroupsOfSellers(ls: seq<Listing>, groups: seq<Group>, country: Option<string>, i: nat)
    requires GroupsList(ls, groups, country) && i < |groups|
    ensures exists l :: l in ls && l.seller.id == groups[i].seller
  {
    var own: seq<Listing> :| Picks(ls, own, SoldBy(groups[i].seller)) && Lists(groups[i], own, country);
    PickedAre(ls, own, SoldBy(groups[i].seller));
    hide Picks;
    assert own[0] in own;
  }

  lemma OfNamedSellers(cart: seq<CartItem>, sellerIds: seq<UserId>, cartItemIds: seq<CartItemId>, ls: seq<Listing>)
    requires SelectedFrom(cart, sellerIds, cartItemIds, ls) && NamesSome(sellerIds) && !NamesSome(cartItemIds)
    ensures forall l :: l in ls ==> l.seller.id in sellerIds
  {
    var items: seq<CartItem> :| Picks(cart, items, WantedBy(sellerIds, cartItemIds)) && ls == Listings(items);
    PickedAre(cart, items, WantedBy(sellerIds, cartItemIds));
    hide Picks, NamesSome;
    forall k | 0 <= k < |ls|
      ensures ls[k].seller.id in sellerIds
    {
      assert items[k] in items;
    }
  }

  /**
   A summary is made of a selection, all of it for sale to the buyer: exactly its sellers have a group, which lists
   their selected items. So a selection by sellers has groups of named sellers only.
   */
  lemma SummaryOfSelection(cart: seq<CartItem>, sellerIds: seq<UserId>, cartItemIds: seq<CartItemId>, buyer: UserId,
                           country: Option<string>, coupon: Option<Coupon>, now: Time)
    returns (ls: seq<Listing>)
    requires CheckoutOf(cart, sellerIds, cartItemIds, buyer, country, coupon, now).Success?
    ensures SelectedFrom(cart, sellerIds, cartItemIds, ls) && forall l :: l in ls ==> ForSaleTo(l, buyer, now)
    ensures CheckoutOf(cart, sellerIds, cartItemIds, buyer, country, coupon, now)
         == CartSummary(ls, buyer, country, coupon, now)
    ensures var groups := CheckoutOf(cart, sellerIds, cartItemIds, buyer, country, coupon, now).value.groups;
            && GroupsList(ls, groups, country)
            && (NamesSome(sellerIds) ==> forall i :: 0 <= i < |groups| ==> groups[i].seller in sellerIds)
  {
    hide ValidateCoupon, FirstProblem, Groups, SelectedFrom, ForSaleTo, NamesSome, GroupsList;
    SelectionPicks(cart, sellerIds, cartItemIds);
    ls := Selection(cart, sellerIds, cartItemIds).value;
    hide Selection;
    RefusedIff(ls, buyer, now);
    var groups := CheckoutOf(cart, sellerIds, cartItemIds, buyer, country, coupon, now).value.groups;
    GroupsAre(ls, country, if coupon.None? then None else Some(ValidateCoupon(coupon.value, ls, now).value));
    if NamesSome(sellerIds) {
      OfNamedSellers(cart, sellerIds, cartItemIds, ls);
      forall i | 0 <= i < |groups|
        ensures groups[i].seller in sellerIds
      {
        GroupsOfSellers(ls, groups, country, i);
      }
    }
  }

  lemma OneMoreGroup(gs: seq<Group>, g: Group)
    ensures Sum(Subtotals(gs + [g])) == Sum(Subtotals(gs)) + g.subtotal
    ensures Sum(DeliveryCosts(gs + [g])) == Sum(DeliveryCosts(gs)) + g.deliveryCost
    ensures Sum(Totals(gs + [g])) == Sum(Totals(gs)) + g.total
  {
    assert Subtotals(gs + [g]) == Subtotals(gs) + [g.subtotal];
    assert DeliveryCosts(gs + [g]) == DeliveryCosts(gs) + [g.deliveryCost];
    assert Totals(gs + [g]) == Totals(gs) + [g.total];
    SumSnoc(Subtotals(gs), g.subtotal);
    SumSnoc(DeliveryCosts(gs), g.deliveryCost);
    SumSnoc(Totals(gs), g.total);
  }
}
