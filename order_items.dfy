/** The line-level operations on an open order: add a line, change a line's quantity,
    remove a line. Each moves stock and the order total together with the line, as one
    all-or-nothing step. */
module OrderItems {
  import opened Models
  import opened StoreState

  /** Adding a line: refuse a quantity that is missing or not positive, then a missing
      order, an order that is delivered or cancelled, a missing product, stock below
      the quantity and a product the order already has a line for, in that order;
      otherwise insert the line at the product's current price, take the quantity out
      of stock and add price × quantity to the order total. */
  function AddItem(s: State, o: OrderId, p: ProductId, quantity: int): (out: Step<ItemId>)
    ensures out.result.Err? ==> out.state == s
    ensures quantity <= 0 ==> out.result == Err(Validation)
    ensures quantity > 0 && o !in s.orders ==> out.result == Err(NotFound(OrderDoc))
    ensures quantity > 0 && o in s.orders && s.orders[o].status.Closed() ==> out.result == Err(Conflict(OrderClosed))
    ensures quantity > 0 && o in s.orders && !s.orders[o].status.Closed() && p !in s.products
      ==> out.result == Err(NotFound(ProductDoc))
    ensures (quantity > 0 && o in s.orders && !s.orders[o].status.Closed() && p in s.products
      && s.products[p].stock < quantity) ==> out.result == Err(Conflict(InsufficientStock))
    ensures (quantity > 0 && o in s.orders && !s.orders[o].status.Closed() && p in s.products
      && s.products[p].stock >= quantity && PairTaken(s.items, o, p)) ==> out.result == Err(Conflict(DuplicateLine))
    ensures out.result.Ok? <==>
      && quantity > 0 && o in s.orders && !s.orders[o].status.Closed()
      && p in s.products && s.products[p].stock >= quantity && !PairTaken(s.items, o, p)
  {
    if quantity <= 0 then Step(Err(Validation), s)
    else if o !in s.orders then Step(Err(NotFound(OrderDoc)), s)
    else if s.orders[o].status.Closed() then Step(Err(Conflict(OrderClosed)), s)
    else if p !in s.products then Step(Err(NotFound(ProductDoc)), s)
    else if s.products[p].stock < quantity then Step(Err(Conflict(InsufficientStock)), s)
    else if PairTaken(s.items, o, p) then Step(Err(Conflict(DuplicateLine)), s)
    else
      var product := s.products[p];
      var order := s.orders[o];
      var k := s.nextItem;
      Step(Ok(k), s.(products := s.products[p := product.(stock := product.stock - quantity)],
                     orders := s.orders[o := order.(total := order.total + product.price * quantity)],
                     items := s.items[k := OrderItem(o, p, quantity, product.price)],
                     nextItem := k + 1))
  }

  /** Changing a line's quantity: refuse a quantity that is missing or not positive, a
      missing line, a missing order, a closed order and a missing product; an increase
      beyond the stock is refused, a decrease always goes through. Stock moves by the
      difference, the order total by the line's price times the difference, and the
      line keeps its price. The order is saved with a total that may not be negative. */
  function UpdateItemQuantity(s: State, k: ItemId, quantity: int): (out: Step<OrderItem>)
    ensures out.result.Err? ==> out.state == s
    ensures quantity <= 0 ==> out.result == Err(Validation)
    ensures quantity > 0 && k !in s.items ==> out.result == Err(NotFound(ItemDoc))
    ensures quantity > 0 && k in s.items && s.items[k].order !in s.orders ==> out.result == Err(NotFound(OrderDoc))
    ensures quantity > 0 && k in s.items && s.items[k].order in s.orders && s.orders[s.items[k].order].status.Closed()
      ==> out.result == Err(Conflict(OrderClosed))
    ensures (quantity > 0 && k in s.items && s.items[k].order in s.orders && !s.orders[s.items[k].order].status.Closed()
      && s.items[k].product !in s.products) ==> out.result == Err(NotFound(ProductDoc))
    ensures (quantity > 0 && k in s.items && s.items[k].order in s.orders && !s.orders[s.items[k].order].status.Closed()
      && s.items[k].product in s.products && quantity - s.items[k].quantity > 0
      && quantity - s.items[k].quantity > s.products[s.items[k].product].stock)
      ==> out.result == Err(Conflict(InsufficientStock))
    ensures out.result.Ok? ==>
      && k in s.items
      && out.result.value == s.items[k].(quantity := quantity)
      && out.state.items == s.items[k := out.result.value]
  {
    if quantity <= 0 then Step(Err(Validation), s)
    else if k !in s.items then Step(Err(NotFound(ItemDoc)), s)
    else
      var line := s.items[k];
      if line.order !in s.orders then Step(Err(NotFound(OrderDoc)), s)
      else if s.orders[line.order].status.Closed() then Step(Err(Conflict(OrderClosed)), s)
      else if line.product !in s.products then Step(Err(NotFound(ProductDoc)), s)
      else
        var delta := quantity - line.quantity;
        var product := s.products[line.product];
        var order := s.orders[line.order];
        if delta > 0 && product.stock < delta then Step(Err(Conflict(InsufficientStock)), s)
        else
          var total := order.total + (line.price * quantity - line.price * line.quantity);
          if total < 0 then Step(Err(Internal), s)
          else
            var updated := line.(quantity := quantity);
            Step(Ok(updated), s.(products := s.products[line.product := product.(stock := product.stock - delta)],
                                 orders := s.orders[line.order := order.(total := total)],
                                 items := s.items[k := updated]))
  }

  /** Removing a line: refuse a missing line, a missing order and a closed order; give
      the quantity back to the product if it still exists, take price × quantity off
      the order total (saved only if not negative) and delete the line. */
  function RemoveItem(s: State, k: ItemId): (out: Step<()>)
    ensures out.result.Err? ==> out.state == s
    ensures k !in s.items ==> out.result == Err(NotFound(ItemDoc))
    ensures k in s.items && s.items[k].order !in s.orders ==> out.result == Err(NotFound(OrderDoc))
    ensures k in s.items && s.items[k].order in s.orders && s.orders[s.items[k].order].status.Closed()
      ==> out.result == Err(Conflict(OrderClosed))
    ensures out.result.Ok? ==>
      && k in s.items && k !in out.state.items
      && out.state.items == s.items - {k}
      && out.state.products.Keys == s.products.Keys
  {
    if k !in s.items then Step(Err(NotFound(ItemDoc)), s)
    else
      var line := s.items[k];
      if line.order !in s.orders then Step(Err(NotFound(OrderDoc)), s)
      else if s.orders[line.order].status.Closed() then Step(Err(Conflict(OrderClosed)), s)
      else
        var order := s.orders[line.order];
        var total := order.total - line.price * line.quantity;
        if total < 0 then Step(Err(Internal), s)
        else
          var products :=
            if line.product in s.products
            then s.products[line.product := s.products[line.product].(stock := s.products[line.product].stock + line.quantity)]
            else s.products;
          Step(Ok(()), s.(products := products, orders := s.orders[line.order := order.(total := total)],
                          items := s.items - {k}))
  }
}
