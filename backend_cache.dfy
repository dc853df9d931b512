/**
 * The plain order cache of the first service generation (backend/cache.go):
 * a map from order uid to order, overwritten on every Set, never emptied.
 */
module BackendCache {
  import opened Domain

  class OrderCache {
    var orders: map<string, Order>

    /** NewOrderCache. */
    constructor ()
      ensures orders == map[]
    {
      orders := map[];
    }

    /** Set: the entry for the order's uid becomes the order; no other key changes. */
    method Set(order: Order)
      modifies this
      ensures orders == old(orders)[order.orderUid := order]
    {
      orders := orders[order.orderUid := order];
    }

    /** Get: the stored order and true, or the zero order and false for a key never set. */
    method Get(uid: string) returns (o: Order, found: bool)
      ensures found <==> uid in orders
      ensures found ==> o == orders[uid]
      ensures !found ==> o == ZeroOrder
    {
      if uid in orders {
        return orders[uid], true;
      }
      return ZeroOrder, false;
    }
  }

  /** A Get after a Set of the same uid returns that order. */
  method SetThenGet(c: OrderCache, order: Order) returns (o: Order, found: bool)
    modifies c
    ensures found && o == order
    ensures c.orders == old(c.orders)[order.orderUid := order]
  {
    c.Set(order);
    o, found := c.Get(order.orderUid);
  }
}
