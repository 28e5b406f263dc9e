/** The writers of a product's status outside the order service: its seller, its removal, its authentication. */
module Catalogue {
  import opened Wrappers
  import opened Domain
  import opened Database
  import opened Protocol

  datatype ProductError = NoSuchProduct | NotAllowed | SoldStaysSold | NotReady | InCheckout | WasOrdered

  /** One product action of the order protocol, on the tables alone. */
  function ProductAction(db: Db, now: Time, a: Action): Db {
    ProductStep(State(db, now, map[], [], map[], map[]), a).db
  }

  /** The product exists and is the user's, or the user is an admin. */
  predicate MayEdit(products: map<ProductId, Product>, id: ProductId, user: UserId, isAdmin: bool) {
    id in products && (isAdmin || products[id].seller == user)
  }

  /** A sold item stays sold. */
  predicate MayBecome(p: Product, status: ProductStatus) {
    p.status == Sold ==> status == Sold
  }

  predicate InOpenCheckout(p: Product, now: Time) {
    p.reservedUntil.Some? && now < p.reservedUntil.value
  }

  predicate Ordered(orders: map<OrderId, Order>, id: ProductId) {
    exists o | o in orders :: id in orders[o].items
  }

  class ProductService {
    const prisma: PrismaService
    /** Whether a seller may publish: identity, address and payment setup are complete. */
    const ready: UserId -> bool

    constructor (prisma: PrismaService, ready: UserId -> bool)
      ensures this.prisma == prisma && this.ready == ready
    {
      this.prisma := prisma;
      this.ready := ready;
    }

    method UpdateSellerProductStatus(id: ProductId, user: UserId, newStatus: ProductStatus, isAdmin: bool, now: Time)
      returns (error: Option<ProductError>)
      modifies prisma`products
      ensures error == Some(NoSuchProduct) <==> id !in old(prisma.products)
      ensures error == Some(NotAllowed) <==>
              (id in old(prisma.products) && !MayEdit(old(prisma.products), id, user, isAdmin))
      ensures error == Some(SoldStaysSold) <==>
              (MayEdit(old(prisma.products), id, user, isAdmin) && !MayBecome(old(prisma.products)[id], newStatus))
      ensures error.None? <==>
              id in old(prisma.products)
              && var p := old(prisma.products)[id];
                 && (isAdmin || p.seller == user) && (p.status == Sold ==> newStatus == Sold)
                 && (newStatus == Active ==> ready(p.seller) && p.auth == Verified)
      ensures error.Some? ==> prisma.products == old(prisma.products)
      ensures error.None? ==>
        && id in old(prisma.products)
        && prisma.products == old(prisma.products)[id := old(prisma.products)[id].(status := newStatus)]
      ensures MayEdit(old(prisma.products), id, user, isAdmin) ==>
        prisma.Rows() == ProductAction(old(prisma.Rows()), now,
                                       EditStatus(id, newStatus, false, ready(old(prisma.products)[id].seller)))
    {
      if id !in prisma.products {
        return Some(NoSuchProduct);
      }
      var product := prisma.products[id];
      if !isAdmin && product.seller != user {
        return Some(NotAllowed);
      }
      if product.status == Sold && newStatus != Sold {
        return Some(SoldStaysSold);
      }
      if newStatus == Active && !(ready(product.seller) && product.auth == Verified) {
        return Some(NotReady);
      }
      prisma.products := prisma.products[id := product.(status := newStatus)];
      return None;
    }

    /** The part of a full edit that concerns the status; the other columns are not modelled. */
    method UpdateProduct(id: ProductId, user: UserId, newStatus: Option<ProductStatus>, isAdmin: bool, now: Time)
      returns (error: Option<ProductError>)
      modifies prisma`products
      ensures error == Some(NoSuchProduct) <==> id !in old(prisma.products)
      ensures error == Some(NotAllowed) <==>
              (id in old(prisma.products) && !MayEdit(old(prisma.products), id, user, isAdmin))
      ensures error == Some(SoldStaysSold) <==>
              (MayEdit(old(prisma.products), id, user, isAdmin) && newStatus.Some?
               && !MayBecome(old(prisma.products)[id], newStatus.value))
      ensures error.None? <==>
              id in old(prisma.products)
              && var p := old(prisma.products)[id];
                 && (isAdmin || p.seller == user) && (p.reservedUntil.Some? ==> p.reservedUntil.value <= now)
                 && (newStatus.Some? && p.status == Sold ==> newStatus == Some(Sold))
                 && (newStatus == Some(Active) ==> ready(p.seller) && p.auth == Verified)
      ensures error == Some(InCheckout) ==> InOpenCheckout(old(prisma.products)[id], now)
      ensures error.Some? ==> prisma.products == old(prisma.products)
      ensures error.None? ==>
        var p := old(prisma.products)[id];
        prisma.products == old(prisma.products)[id := if newStatus.Some? then p.(status := newStatus.value) else p]
      ensures newStatus.Some? && MayEdit(old(prisma.products), id, user, isAdmin) ==>
        prisma.Rows() == ProductAction(old(prisma.Rows()), now,
                                       EditStatus(id, newStatus.value, true, ready(old(prisma.products)[id].seller)))
    {
      if id !in prisma.products {
        return Some(NoSuchProduct);
      }
      var product := prisma.products[id];
      if !isAdmin && product.seller != user {
        return Some(NotAllowed);
      }
      if newStatus.Some? && product.status == Sold && newStatus.value != Sold {
        return Some(SoldStaysSold);
      }
      if product.reservedUntil.Some? && now < product.reservedUntil.value {
        return Some(InCheckout);
      }
      if newStatus == Some(Active) && !(ready(product.seller) && product.auth == Verified) {
        return Some(NotReady);
      }
      prisma.products := prisma.products[id := product.(status := if newStatus.Some? then newStatus.value
          else product.status)];
      return None;
    }

    method DeleteProduct(id: ProductId, user: UserId, isAdmin: bool, now: Time) returns (error: Option<ProductError>)
      modifies prisma`products
      ensures error == Some(NoSuchProduct) <==> id !in old(prisma.products)
      ensures error == Some(NotAllowed) <==>
              (id in old(prisma.products) && !MayEdit(old(prisma.products), id, user, isAdmin))
      ensures error == Some(WasOrdered) <==>
              (MayEdit(old(prisma.products), id, user, isAdmin) && Ordered(prisma.orders, id))
      ensures error.None? <==>
              id in old(prisma.products) && (isAdmin || old(prisma.products)[id].seller == user)
              && forall o :: o in prisma.orders ==> id !in prisma.orders[o].items
      ensures error.Some? ==> prisma.products == old(prisma.products)
      ensures error.None? ==> prisma.products == old(prisma.products) - {id}
      ensures MayEdit(old(prisma.products), id, user, isAdmin) ==>
        prisma.Rows() == ProductAction(old(prisma.Rows()), now, Protocol.DeleteProduct(id))
    {
      if id !in prisma.products {
        return Some(NoSuchProduct);
      }
      if !isAdmin && prisma.products[id].seller != user {
        return Some(NotAllowed);
      }
      if exists o | o in prisma.orders :: id in prisma.orders[o].items {
        return Some(WasOrdered);
      }
      prisma.products := prisma.products - {id};
      return None;
    }
  }

  // ----- Authentication verdicts -----

  /** A request for authentication at the provider, with the last delivery about it. */
  datatype AuthenticationRequest = AuthenticationRequest(
    product: ProductId, externalOrder: Option<int>, delivery: Option<int>)

  datatype WebhookError = OrderIdMissing | RequestMissing

  /** What one delivery reports; a verdict is not always part of it. */
  datatype Verdict = Verdict(externalOrder: Option<int>, delivery: Option<int>, verdict: Option<AuthStatus>)

  /** A verdict's writes: the authentication status first, then publication, or its end, if the item is not sold. */
  function Authenticated(db: Db, now: Time, id: ProductId, auth: AuthStatus, ready: UserId -> bool): Db
    requires id in db.products
  {
    var marked := ProductAction(db, now, SetAuthentication(id, auth));
    if auth == Verified && ready(db.products[id].seller) then ProductAction(marked, now, PublishVerified(id))
    else if auth == NotVerified then ProductAction(marked, now, Unpublish(id))
    else marked
  }

  /**
   After a verdict an unsold item is for sale exactly if it was verified and its seller is ready, or it was for sale
   and not found a fake. No verdict moves an item that is sold, touches a hold or any other item.
   */
  lemma VerdictsLeaveSalesAlone(db: Db, now: Time, id: ProductId, auth: AuthStatus, ready: UserId -> bool)
    requires id in db.products
    ensures var db' := Authenticated(db, now, id, auth, ready);
            var p := db.products[id];
            && db' == db.(products := db.products[id := db'.products[id]])
            && db'.products[id] == p.(auth := auth, status := db'.products[id].status)
            && (p.status == Sold ==> db'.products[id].status == Sold)
            && (p.status != Sold ==>
                  (db'.products[id].status == Active <==>
                     (auth == Verified && ready(p.seller)) || (auth != NotVerified && p.status == Active))
                  && db'.products[id].status != Sold)
  {
    var db' := Authenticated(db, now, id, auth, ready);
    assert db'.products == db.products[id := db'.products[id]];
  }

  class LegitGrailsService {
    const prisma: PrismaService
    const ready: UserId -> bool
    var requests: seq<AuthenticationRequest>

    constructor (prisma: PrismaService, ready: UserId -> bool)
      ensures this.prisma == prisma && this.ready == ready && requests == []
    {
      this.prisma := prisma;
      this.ready := ready;
      requests := [];
    }

    method ApplyProductStatus(id: ProductId, auth: AuthStatus, now: Time)
      requires id in prisma.products
      modifies prisma`products
      ensures prisma.Rows() == Authenticated(old(prisma.Rows()), now, id, auth, ready)
    {
      prisma.products := prisma.products[id := prisma.products[id].(auth := auth)];
      if auth == Verified {
        if ready(prisma.products[id].seller) && prisma.products[id].status != Sold {
          prisma.products := prisma.products[id := prisma.products[id].(status := Active)];
        }
      } else if auth == NotVerified {
        if prisma.products[id].status == Active {
          prisma.products := prisma.products[id := prisma.products[id].(status := Inactive)];
        }
      }
    }

    /** A delivery that repeats the last one about its request is acknowledged and ignored. */
    method HandleWebhook(v: Verdict, now: Time) returns (error: Option<WebhookError>)
      requires forall i :: 0 <= i < |requests| ==> requests[i].product in prisma.products
      modifies this`requests, prisma`products
      ensures v.externalOrder.None? ==> error == Some(OrderIdMissing)
      ensures v.externalOrder.Some? ==>
        (error == Some(RequestMissing) <==> forall i :: 0 <= i < |old(requests)| ==>
            old(requests)[i].externalOrder != v.externalOrder)
      ensures |requests| == old(|requests|)
      ensures error.Some? ==> prisma.Rows() == old(prisma.Rows()) && requests == old(requests)
      ensures error.None? ==>
        exists i :: 0 <= i < |requests| && Handled(old(prisma.Rows()), old(requests), i, v, now)
                    && prisma.Rows() == AfterDelivery(old(prisma.Rows()), old(requests)[i], v, now, ready)
                    && requests == old(requests)[i := WithDelivery(old(requests)[i], v)]
    {
      if v.externalOrder.None? {
        return Some(OrderIdMissing);
      }
      for i := 0 to |requests|
        invariant requests == old(requests) && prisma.products == old(prisma.products)
        invariant forall k :: 0 <= k < i ==> requests[k].externalOrder != v.externalOrder
      {
        if requests[i].externalOrder == v.externalOrder {
          var request := requests[i];
          assert Handled(old(prisma.Rows()), old(requests), i, v, now);
          if v.delivery.Some? && v.delivery == request.delivery {
            assert requests == requests[i := request];
            return None;
          }
          requests := requests[i := request.(delivery := v.delivery)];
          if v.verdict.Some? {
            ApplyProductStatus(request.product, v.verdict.value, now);
          }
          return None;
        }
      }
      return Some(RequestMissing);
    }
  }

  /** The request a delivery is about is the first with its order id. */
  predicate Handled(db: Db, requests: seq<AuthenticationRequest>, i: nat, v: Verdict, now: Time) {
    && i < |requests| && requests[i].externalOrder == v.externalOrder && requests[i].product in db.products
    && forall k :: 0 <= k < i ==> requests[k].externalOrder != v.externalOrder
  }

  predicate Repeats(request: AuthenticationRequest, v: Verdict) {
    v.delivery.Some? && v.delivery == request.delivery
  }

  function WithDelivery(request: AuthenticationRequest, v: Verdict): AuthenticationRequest {
    if Repeats(request, v) then request else request.(delivery := v.delivery)
  }

  function AfterDelivery(db: Db, request: AuthenticationRequest, v: Verdict, now: Time, ready: UserId -> bool): Db
    requires request.product in db.products
  {
    if Repeats(request, v) || v.verdict.None? then db
    else Authenticated(db, now, request.product, v.verdict.value, ready)
  }

  /**
   The verdict of a delivery counts once: delivered again, it changes nothing, whatever happened to the item in the
   meantime. A newer one counts again.
   */
  lemma DeliveryCountsOnce(db: Db, request: AuthenticationRequest, v: Verdict, now: Time, ready: UserId -> bool,
                           later: Db, at: Time)
    requires request.product in db.products && request.product in later.products && v.delivery.Some?
    ensures var told := WithDelivery(request, v);
            && told == request.(delivery := v.delivery)
            && AfterDelivery(later, told, v, at, ready) == later && WithDelivery(told, v) == told
            && (request.delivery != v.delivery && v.verdict.Some? ==>
                  AfterDelivery(db, request, v, now, ready)
                  == Authenticated(db, now, request.product, v.verdict.value, ready))
            && (v.verdict.None? ==> AfterDelivery(db, request, v, now, ready) == db)
  {
    hide Authenticated;
  }
}
