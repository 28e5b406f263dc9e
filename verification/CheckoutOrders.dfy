/** From the priced checkout to its orders: what the summary asks for is what the orders are opened with. */
module CheckoutOrders {
  import opened Wrappers
  import opened Money
  import opened Domain
  import opened OrderSteps
  import opened Protocol
  import opened Filters
  import opened Checkout
  import opened CheckoutLaws
  import opened RowLaws

  /** One order a seller group. */
  function Drafts(groups: seq<Group>): (drafts: seq<Draft>)
    ensures |drafts| == |groups|
  {
    seq(|groups|, i requires 0 <= i < |groups| => Draft(groups[i].seller, groups[i].items, groups[i].total))
  }

  /** The listings show the products as they are, each under its seller. */
  ghost predicate Current(db: Db, ls: seq<Listing>) {
    forall l :: l in ls ==> l.id in db.products && db.products[l.id] == l.product && l.product.seller == l.seller.id
  }

  lemma ItemsOfGroup(ls: seq<Listing>, g: Group, country: Option<string>, p: ProductId)
    requires ListsTheirs(ls, g, country)
    ensures p in g.items <==> exists l :: l in ls && l.seller.id == g.seller && l.id == p
  {
    var own: seq<Listing> :| Picks(ls, own, SoldBy(g.seller)) && Lists(g, own, country);
    PickedAre(ls, own, SoldBy(g.seller));
    hide Picks;
    if p in g.items {
      var k :| 0 <= k < |g.items| && g.items[k] == p;
      assert own[k] in own;
    }
    if l :| l in ls && l.seller.id == g.seller && l.id == p {
      assert l in own;
      var k :| 0 <= k < |own| && own[k] == l;
      assert g.items[k] == p;
    }
  }

  lemma GroupTerms(ls: seq<Listing>, country: Option<string>, c: Option<AppliedCoupon>, i: nat)
    requires i < |Groups(ls, country, c)|
    ensures Groups(ls, country, c)[i].seller == Sellers(ls)[i]
    ensures forall p :: p in Groups(ls, country, c)[i].items
                        <==> exists l :: l in ls && l.seller.id == Sellers(ls)[i] && l.id == p
  {
    var g := Groups(ls, country, c)[i];
    GroupLists(ls, country, c, i);
    OfSellerMembers(ls, Sellers(ls)[i]);
    assert OfSeller(ls, Sellers(ls)[i])[0] in OfSeller(ls, Sellers(ls)[i]);
    hide OfSeller, Groups, ListsTheirs, Sellers;
    forall p
      ensures p in g.items <==> exists l :: l in ls && l.seller.id == g.seller && l.id == p
    {
      ItemsOfGroup(ls, g, country, p);
    }
  }

  /**
   Of a cart that the summary lets through: its orders are each for one other seller's items of the cart, together for
   all of them, and together for the summary's total. They can be opened if and only if no other's hold on one of them
   ends this very instant.
   */
  lemma SummaryOpens(db: Db, ls: seq<Listing>, country: Option<string>, c: Option<AppliedCoupon>, buyer: UserId,
                     now: Time)
    requires Current(db, ls) && FirstProblem(ls, buyer, now).None?
    ensures var groups := Groups(ls, country, c);
            var drafts := Drafts(groups);
            && ValidDrafts(db, buyer, drafts) && Sum(DraftTotals(drafts)) == Summarise(groups, c).total
            && (forall p :: p in AllItems(drafts) <==> exists l :: l in ls && l.id == p)
            && (CanCheckout(db, buyer, drafts, now) <==> forall l :: l in ls ==> NotEndingNow(l.product, buyer, now))
  {
    var groups := Groups(ls, country, c);
    assert DraftTotals(Drafts(groups)) == Totals(groups);
    hide FirstProblem, Groups, ValidDrafts, CanCheckout, Sum, AllItems;
    OrdersOfSellers(db, ls, country, c, buyer, now);
    OrdersOfItems(ls, country, c);
    RefusedIff(ls, buyer, now);
    AllCanBeHeld(db, ls, Drafts(groups), buyer, now);
  }

  lemma OrdersOfSellers(db: Db, ls: seq<Listing>, country: Option<string>, c: Option<AppliedCoupon>, buyer: UserId,
                        now: Time)
    requires Current(db, ls) && FirstProblem(ls, buyer, now).None?
    ensures ValidDrafts(db, buyer, Drafts(Groups(ls, country, c)))
  {
    RefusedIff(ls, buyer, now);
    SellersDistinct(ls);
    var groups := Groups(ls, country, c);
    hide Sellers, Groups, FirstProblem;
    forall i | 0 <= i < |groups|
      ensures groups[i].seller == Sellers(ls)[i]
      ensures groups[i].seller != buyer
      ensures forall p :: p in groups[i].items ==> p in db.products && db.products[p].seller == groups[i].seller
    {
      GroupTerms(ls, country, c, i);
      SellersAre(ls, Sellers(ls)[i]);
    }
  }

  lemma OrdersOfItems(ls: seq<Listing>, country: Option<string>, c: Option<AppliedCoupon>)
    ensures forall p :: p in AllItems(Drafts(Groups(ls, country, c))) <==> exists l :: l in ls && l.id == p
  {
    SellersDistinct(ls);
    var groups := Groups(ls, country, c);
    var drafts := Drafts(groups);
    hide Sellers, Groups, AllItems;
    forall i | 0 <= i < |groups|
      ensures forall p :: p in groups[i].items <==> exists l :: l in ls && l.seller.id == Sellers(ls)[i] && l.id == p
    {
      GroupTerms(ls, country, c, i);
    }
    forall p | exists l :: l in ls && l.id == p
      ensures p in AllItems(drafts)
    {
      var l :| l in ls && l.id == p;
      var i :| 0 <= i < |groups| && Sellers(ls)[i] == l.seller.id;
      assert p in drafts[i].items;
    }
  }

  lemma AllCanBeHeld(db: Db, ls: seq<Listing>, drafts: seq<Draft>, buyer: UserId, now: Time)
    requires Current(db, ls) && forall l :: l in ls ==> ForSaleTo(l, buyer, now)
    requires forall p :: p in AllItems(drafts) <==> exists l :: l in ls && l.id == p
    ensures CanCheckout(db, buyer, drafts, now) <==> forall l :: l in ls ==> NotEndingNow(l.product, buyer, now)
  {
    hide AllItems;
    forall l | l in ls
      ensures l.id in AllItems(drafts)
      ensures Available(db.products[l.id], buyer, now) <==> NotEndingNow(l.product, buyer, now)
    {
      ForSaleCanBeHeld(l, buyer, now);
    }
    hide ForSaleTo, NotEndingNow, Available;
    forall p | p in AllItems(drafts)
      ensures exists l :: l in ls && l.id == p && db.products[p] == l.product
    {
      var l :| l in ls && l.id == p;
    }
  }
}
