/** The database as the controllers use it: three collections and the identity
    counters, changed in place by one method per operation. Each method does what the
    controller does, step by step inside its transaction, and is proved to leave the
    outcome and the state the corresponding step function describes. */
module Database {
  import opened Models
  import opened StoreState
  import Orders
  import OrderItems

  class Store {
    var products: map<ProductId, Product>
    var orders: map<OrderId, Order>
    var items: map<ItemId, OrderItem>
    var nextOrder: OrderId
    var nextItem: ItemId

    /** The collections as a value. */
    function Snapshot(): State
      reads this
    {
      State(products, orders, items, nextOrder, nextItem)
    }

    /** An empty database. */
    constructor ()
      ensures Snapshot() == State(map[], map[], map[], 0, 0)
      ensures Consistent(Snapshot())
    {
      products := map[];
      orders := map[];
      items := map[];
      nextOrder := 0;
      nextItem := 0;
    }

    /** The reservation loop of order creation, run against the transaction's view of
        the catalog: look each product up, refuse when its stock is below the
        quantity, otherwise take the quantity out, add price × quantity to the total
        and record the priced line. */
    method ReserveStock(requests: seq<Orders.LineRequest>) returns (r: Result<Orders.Reservation>)
      ensures r == Orders.Reserve(Orders.Reservation(products, 0, []), requests)
    {
      var catalog: map<ProductId, Product> := products;
      var total := 0;
      var lines: seq<Orders.Priced> := [];
      var i := 0;
      while i < |requests|
        invariant 0 <= i <= |requests|
        invariant Orders.Reserve(Orders.Reservation(products, 0, []), requests)
               == Orders.Reserve(Orders.Reservation(catalog, total, lines), requests[i..])
      {
        var req := requests[i];
        assert requests[i..][1..] == requests[i + 1..];
        if req.product !in catalog {
          return Err(NotFound(ProductDoc));
        }
        var product := catalog[req.product];
        if product.stock < req.quantity {
          return Err(Conflict(InsufficientStock));
        }
        total := total + product.price * req.quantity;
        lines := lines + [Orders.Priced(req.product, req.quantity, product.price)];
        catalog := catalog[req.product := product.(stock := product.stock - req.quantity)];
        i := i + 1;
      }
      return Ok(Orders.Reservation(catalog, total, lines));
    }

    /** The insertion of a new order's lines, one after the other, under consecutive
        identities from the next free one. */
    method NewLinesFor(o: OrderId, lines: seq<Orders.Priced>) returns (inserted: map<ItemId, OrderItem>)
      ensures inserted == items + Orders.NewLines(nextItem, o, lines)
    {
      inserted := items;
      var j := 0;
      while j < |lines|
        invariant 0 <= j <= |lines|
        invariant inserted == items + Orders.NewLines(nextItem, o, lines[..j])
      {
        assert lines[..j + 1][..j] == lines[..j];
        inserted := inserted[nextItem + j := Orders.ToItem(o, lines[j])];
        j := j + 1;
      }
      assert lines[..|lines|] == lines;
    }

    /** Order creation inside its transaction: refuse an empty list, run the
        reservation loop, then build the order and its lines. Nothing is written yet:
        the outcome comes with the collections as the transaction would commit them. */
    method StageOrder(user: Option<UserId>, requests: seq<Orders.LineRequest>) returns (r: Result<OrderId>, staged: State)
      ensures Step(r, staged) == Orders.CreateOrder(Snapshot(), user, requests)
    {
      staged := Snapshot();
      if |requests| == 0 {
        return Err(Validation), staged;
      }
      var reserved := ReserveStock(requests);
      if reserved.Err? {
        return Err(reserved.error), staged;
      }
      var res := reserved.value;
      var o := nextOrder;
      var order := NewOrder(user, res.total, Some(Pending));
      if order.None? || !Orders.Insertable(items, o, res.lines) {
        return Err(Internal), staged;
      }
      var inserted := NewLinesFor(o, res.lines);
      CreateOrderCommits(staged, user, requests, res, order.value);
      staged := State(res.catalog, orders[o := order.value], inserted, o + 1, nextItem + |res.lines|);
      r := Ok(o);
    }

    /** Order creation: stage the writes, then commit them together, or none on a
        failure. */
    method CreateOrder(user: Option<UserId>, requests: seq<Orders.LineRequest>) returns (r: Result<OrderId>)
      modifies this
      ensures Step(r, Snapshot()) == Orders.CreateOrder(old(Snapshot()), user, requests)
    {
      var staged;
      r, staged := StageOrder(user, requests);
      if r.Ok? {
        products := staged.products;
        orders := staged.orders;
        items := staged.items;
        nextOrder := staged.nextOrder;
        nextItem := staged.nextItem;
      }
    }

    /** Status update: any of the five statuses, from any status. */
    method UpdateOrderStatus(o: OrderId, name: string) returns (r: Result<Order>)
      modifies this
      ensures Step(r, Snapshot()) == Orders.UpdateOrderStatus(old(Snapshot()), o, name)
    {
      var status := ParseStatus(name);
      if status.None? {
        return Err(Validation);
      }
      if o !in orders {
        return Err(NotFound(OrderDoc));
      }
      var order := orders[o].(status := status.value);
      orders := orders[o := order];
      r := Ok(order);
    }

    /** The restore loop of cancellation: each line's quantity goes back to its
        product's stock, in list order; a line whose product no longer exists is
        skipped. Nothing but stock changes. */
    method RestoreStock(found: seq<OrderItem>)
      modifies this
      ensures products == Orders.Restore(old(products), found)
      ensures orders == old(orders) && items == old(items)
      ensures nextOrder == old(nextOrder) && nextItem == old(nextItem)
    {
      var catalog := products;
      var i := 0;
      while i < |found|
        invariant 0 <= i <= |found|
        invariant catalog == Orders.Restore(products, found[..i])
      {
        var line := found[i];
        assert found[..i + 1][..i] == found[..i];
        if line.product in catalog {
          catalog := catalog[line.product := catalog[line.product].(stock := catalog[line.product].stock + line.quantity)];
        }
        i := i + 1;
      }
      assert found[..|found|] == found;
      products := catalog;
    }

    /** Cancellation: refuse a missing, cancelled or delivered order, give the stock of
        its lines back, then mark it cancelled. */
    method CancelOrder(o: OrderId) returns (r: Result<Order>)
      modifies this
      ensures Step(r, Snapshot()) == Orders.CancelOrder(old(Snapshot()), o)
    {
      if o !in orders {
        return Err(NotFound(OrderDoc));
      }
      var order := orders[o];
      if order.status == Cancelled {
        return Err(Conflict(AlreadyCancelled));
      }
      if order.status == Delivered {
        return Err(Conflict(AlreadyDelivered));
      }
      var found := FindByOrder(items, nextItem, o);
      RestoreStock(found);
      order := order.(status := Cancelled);
      orders := orders[o := order];
      r := Ok(order);
    }

    /** Deletion: delete the order's lines, then the order. */
    method DeleteOrder(o: OrderId) returns (r: Result<Order>)
      modifies this
      ensures Step(r, Snapshot()) == Orders.DeleteOrder(old(Snapshot()), o)
    {
      if o !in orders {
        return Err(NotFound(OrderDoc));
      }
      var order := orders[o];
      items := Orders.WithoutOrder(items, o);
      orders := orders - {o};
      r := Ok(order);
    }

    /** Adding a line to an open order. */
    method AddItem(o: OrderId, p: ProductId, quantity: int) returns (r: Result<ItemId>)
      modifies this
      ensures Step(r, Snapshot()) == OrderItems.AddItem(old(Snapshot()), o, p, quantity)
    {
      if quantity <= 0 {
        return Err(Validation);
      }
      if o !in orders {
        return Err(NotFound(OrderDoc));
      }
      var order := orders[o];
      if order.status.Closed() {
        return Err(Conflict(OrderClosed));
      }
      if p !in products {
        return Err(NotFound(ProductDoc));
      }
      var product := products[p];
      if product.stock < quantity {
        return Err(Conflict(InsufficientStock));
      }
      if PairTaken(items, o, p) {
        return Err(Conflict(DuplicateLine));
      }
      var k := nextItem;
      items := items[k := OrderItem(o, p, quantity, product.price)];
      nextItem := k + 1;
      products := products[p := product.(stock := product.stock - quantity)];
      orders := orders[o := order.(total := order.total + product.price * quantity)];
      r := Ok(k);
    }

    /** Changing the quantity of a line of an open order. */
    method UpdateItemQuantity(k: ItemId, quantity: int) returns (r: Result<OrderItem>)
      modifies this
      ensures Step(r, Snapshot()) == OrderItems.UpdateItemQuantity(old(Snapshot()), k, quantity)
    {
      if quantity <= 0 {
        return Err(Validation);
      }
      if k !in items {
        return Err(NotFound(ItemDoc));
      }
      var line := items[k];
      if line.order !in orders {
        return Err(NotFound(OrderDoc));
      }
      var order := orders[line.order];
      if order.status.Closed() {
        return Err(Conflict(OrderClosed));
      }
      if line.product !in products {
        return Err(NotFound(ProductDoc));
      }
      var product := products[line.product];
      var delta := quantity - line.quantity;
      if delta > 0 && product.stock < delta {
        return Err(Conflict(InsufficientStock));
      }
      var total := order.total + (line.price * quantity - line.price * line.quantity);
      if total < 0 {
        return Err(Internal);
      }
      products := products[line.product := product.(stock := product.stock - delta)];
      orders := orders[line.order := order.(total := total)];
      var updated := line.(quantity := quantity);
      items := items[k := updated];
      r := Ok(updated);
    }

    /** Removing a line from an open order. */
    method RemoveItem(k: ItemId) returns (r: Result<()>)
      modifies this
      ensures Step(r, Snapshot()) == OrderItems.RemoveItem(old(Snapshot()), k)
    {
      if k !in items {
        return Err(NotFound(ItemDoc));
      }
      var line := items[k];
      if line.order !in orders {
        return Err(NotFound(OrderDoc));
      }
      var order := orders[line.order];
      if order.status.Closed() {
        return Err(Conflict(OrderClosed));
      }
      var total := order.total - line.price * line.quantity;
      if total < 0 {
        return Err(Internal);
      }
      if line.product in products {
        products := products[line.product := products[line.product].(stock := products[line.product].stock + line.quantity)];
      }
      orders := orders[line.order := order.(total := total)];
      items := items - {k};
      r := Ok(());
    }
  }

  /** When the list is non-empty, the reservation succeeds, the order document is
      accepted and the lines can be inserted, creation commits the reserved catalog,
      the new order and its lines. */
  lemma CreateOrderCommits(s: State, user: Option<UserId>, requests: seq<Orders.LineRequest>,
                           res: Orders.Reservation, order: Order)
    requires requests != []
    requires Orders.Reserve(Orders.Reservation(s.products, 0, []), requests) == Ok(res)
    requires NewOrder(user, res.total, Some(Pending)) == Some(order)
    requires Orders.Insertable(s.items, s.nextOrder, res.lines)
    ensures Orders.CreateOrder(s, user, requests)
      == Step(Ok(s.nextOrder), State(res.catalog, s.orders[s.nextOrder := order],
                                     s.items + Orders.NewLines(s.nextItem, s.nextOrder, res.lines),
                                     s.nextOrder + 1, s.nextItem + |res.lines|))
  {
  }
}
