/** The tables that the services share and update in place. */
module Database {
  import opened Domain
  import Payments

  class PrismaService {
    var products: map<ProductId, Product>
    var orders: map<OrderId, Order>
    var nextOrder: OrderId
    var returnRequests: map<ItemKey, ReturnRequest>
    var couponUses: map<CouponId, int>
    var transactions: seq<Payments.Transaction>

    ghost function Rows(): (db: Db)
      reads this
    {
      Db(products, orders, nextOrder, returnRequests)
    }

    constructor ()
      ensures Rows() == Db(map[], map[], 1, map[]) && couponUses == map[] && transactions == []
    {
      products := map[];
      orders := map[];
      nextOrder := 1;
      returnRequests := map[];
      couponUses := map[];
      transactions := [];
    }
  }
}
