/** The order-level operations: create an order with its lines, change an order's
    status, cancel an order, delete an order. Each is one all-or-nothing step on the
    database state. */
module Orders {
  import opened Models
  import opened StoreState

  /** One requested line of a new order: a product and a quantity. */
  datatype LineRequest = LineRequest(product: ProductId, quantity: int)

  /** A line priced while the order is being built, before it is bound to the order. */
  datatype Priced = Priced(product: ProductId, quantity: int, price: int)

  /** The working state of order creation: the catalog as the transaction sees it,
      the running total and the priced lines so far. */
  datatype Reservation = Reservation(catalog: map<ProductId, Product>, total: int, lines: seq<Priced>)

  // ---------------------------------------------------------------------------
  // Order creation

  /** Quantity of product `p` asked for by `requests`. */
  function Demand(requests: seq<LineRequest>, p: ProductId): int {
    if requests == [] then 0
    else (if requests[0].product == p then requests[0].quantity else 0) + Demand(requests[1..], p)
  }

  /** Sum of price × quantity over priced lines, accumulated left to right. */
  function LinesCost(lines: seq<Priced>): int {
    if lines == [] then 0
    else LinesCost(lines[..|lines| - 1]) + lines[|lines| - 1].price * lines[|lines| - 1].quantity
  }

  /** Quantity of product `p` in priced lines. */
  function LinesDemand(lines: seq<Priced>, p: ProductId): int {
    if lines == [] then 0
    else LinesDemand(lines[..|lines| - 1], p) + (if lines[|lines| - 1].product == p then lines[|lines| - 1].quantity else 0)
  }

  /** The loop of order creation: for each request, look the product up, refuse when its
      current stock is below the quantity, otherwise add price × quantity to the total,
      record a priced line and take the quantity out of stock. A product named twice is
      checked against what is left after the earlier lines. */
  function Reserve(r: Reservation, requests: seq<LineRequest>): (out: Result<Reservation>)
    ensures out.Err? ==> out.error == NotFound(ProductDoc) || out.error == Conflict(InsufficientStock)
    decreases |requests|
  {
    if requests == [] then Ok(r)
    else
      var req := requests[0];
      if req.product !in r.catalog then Err(NotFound(ProductDoc))
      else
        var product := r.catalog[req.product];
        if product.stock < req.quantity then Err(Conflict(InsufficientStock))
        else
          Reserve(Reservation(
                    r.catalog[req.product := product.(stock := product.stock - req.quantity)],
                    r.total + product.price * req.quantity,
                    r.lines + [Priced(req.product, req.quantity, product.price)]),
                  requests[1..])
  }

  /** The priced lines of `requests` at the catalog's prices. */
  function PriceList(requests: seq<LineRequest>, catalog: map<ProductId, Product>): (r: seq<Priced>)
    ensures |r| == |requests|
    ensures forall i :: 0 <= i < |requests| && requests[i].product in catalog ==>
      r[i] == Priced(requests[i].product, requests[i].quantity, catalog[requests[i].product].price)
  {
    seq(|requests|, i requires 0 <= i < |requests| =>
      var p := requests[i].product;
      Priced(p, requests[i].quantity, if p in catalog then catalog[p].price else 0))
  }

  /** A priced line bound to its order. */
  function ToItem(o: OrderId, line: Priced): OrderItem {
    OrderItem(o, line.product, line.quantity, line.price)
  }

  /** The lines of a new order, under consecutive identities from `start`. */
  function NewLines(start: ItemId, o: OrderId, lines: seq<Priced>): (r: map<ItemId, OrderItem>)
    ensures forall k :: k in r <==> start <= k < start + |lines|
    ensures forall i :: 0 <= i < |lines| ==> r[start + i] == ToItem(o, lines[i])
    ensures forall k :: k in r ==> r[k].order == o
  {
    if lines == [] then map[]
    else NewLines(start, o, lines[..|lines| - 1])[start + |lines| - 1 := ToItem(o, lines[|lines| - 1])]
  }

  /** The insertion of a new order's lines goes through: every line passes the line
      schema, no product appears twice, and no line already holds an (order, product)
      pair (the unique index). */
  predicate Insertable(items: map<ItemId, OrderItem>, o: OrderId, lines: seq<Priced>) {
    && (forall i :: 0 <= i < |lines| ==> NewItem(o, lines[i].product, lines[i].quantity, lines[i].price).Some?)
    && (forall i, j :: 0 <= i < j < |lines| ==> lines[i].product != lines[j].product)
    && (forall i :: 0 <= i < |lines| ==> !PairTaken(items, o, lines[i].product))
  }

  /** Order creation: refuse an empty request list, run the reservation loop, then
      save a pending order with the computed total and insert its lines; any failure
      leaves the database as it was. */
  function CreateOrder(s: State, user: Option<UserId>, requests: seq<LineRequest>): (out: Step<OrderId>)
    ensures out.result.Err? ==> out.state == s
    ensures requests == [] ==> out.result == Err(Validation)
    ensures out.result.Ok? ==>
      && out.result.value == s.nextOrder
      && out.state.nextOrder == s.nextOrder + 1
      && s.nextOrder in out.state.orders
      && out.state.orders == s.orders[s.nextOrder := out.state.orders[s.nextOrder]]
      && out.state.orders[s.nextOrder].status == Pending
      && Some(out.state.orders[s.nextOrder].user) == user
  {
    if requests == [] then Step(Err(Validation), s)
    else
      match Reserve(Reservation(s.products, 0, []), requests)
      case Err(e) => Step(Err(e), s)
      case Ok(res) =>
        var o := s.nextOrder;
        match NewOrder(user, res.total, Some(Pending))
        case None => Step(Err(Internal), s)
        case Some(order) =>
          if !Insertable(s.items, o, res.lines) then Step(Err(Internal), s)
          else
            Step(Ok(o), State(res.catalog, s.orders[o := order], s.items + NewLines(s.nextItem, o, res.lines),
                              o + 1, s.nextItem + |res.lines|))
  }

  // ---------------------------------------------------------------------------
  // Status update

  /** Status update: refuse a name outside the five statuses, then set the status of an
      existing order, whatever its current status. */
  function UpdateOrderStatus(s: State, o: OrderId, name: string): (out: Step<Order>)
    ensures out.result.Err? ==> out.state == s
    ensures name !in StatusNames ==> out.result == Err(Validation)
    ensures name in StatusNames && o !in s.orders ==> out.result == Err(NotFound(OrderDoc))
    ensures name in StatusNames && o in s.orders ==> out.result.Ok?
    ensures out.result.Ok? ==>
      && o in s.orders
      && out.result.value == s.orders[o].(status := out.result.value.status)
      && out.result.value.status.Name() == name
      && out.state == s.(orders := s.orders[o := out.result.value])
  {
    match ParseStatus(name)
    case None => Step(Err(Validation), s)
    case Some(st) =>
      if o !in s.orders then Step(Err(NotFound(OrderDoc)), s)
      else
        var order := s.orders[o].(status := st);
        Step(Ok(order), s.(orders := s.orders[o := order]))
  }

  // ---------------------------------------------------------------------------
  // Cancellation

  /** Quantity of product `p` in a list of lines. */
  function LinesQuantity(lines: seq<OrderItem>, p: ProductId): int {
    if lines == [] then 0
    else LinesQuantity(lines[..|lines| - 1], p) + (if lines[|lines| - 1].product == p then lines[|lines| - 1].quantity else 0)
  }

  /** Puts each line's quantity back into its product's stock, in list order; a line
      whose product no longer exists is skipped. */
  function Restore(catalog: map<ProductId, Product>, lines: seq<OrderItem>): (r: map<ProductId, Product>)
    ensures r.Keys == catalog.Keys
    ensures forall p :: p in catalog ==> r[p] == catalog[p].(stock := catalog[p].stock + LinesQuantity(lines, p))
  {
    if lines == [] then catalog
    else
      var prior := Restore(catalog, lines[..|lines| - 1]);
      var line := lines[|lines| - 1];
      if line.product in prior then prior[line.product := prior[line.product].(stock := prior[line.product].stock + line.quantity)]
      else prior
  }

  /** Cancellation: refuse a missing, already cancelled or delivered order; otherwise
      restore the stock of every line and mark the order cancelled, keeping its lines
      and its total. */
  function CancelOrder(s: State, o: OrderId): (out: Step<Order>)
    ensures out.result.Err? ==> out.state == s
    ensures o !in s.orders ==> out.result == Err(NotFound(OrderDoc))
    ensures o in s.orders && s.orders[o].status == Cancelled ==> out.result == Err(Conflict(AlreadyCancelled))
    ensures o in s.orders && s.orders[o].status == Delivered ==> out.result == Err(Conflict(AlreadyDelivered))
    ensures o in s.orders && !s.orders[o].status.Closed() ==> out.result.Ok?
    ensures out.result.Ok? ==>
      && o in s.orders && !s.orders[o].status.Closed()
      && out.result.value == s.orders[o].(status := Cancelled)
      && out.state.orders == s.orders[o := out.result.value]
      && out.state.items == s.items
      && PricesKept(s, out.state)
  {
    if o !in s.orders then Step(Err(NotFound(OrderDoc)), s)
    else
      var order := s.orders[o];
      if order.status == Cancelled then Step(Err(Conflict(AlreadyCancelled)), s)
      else if order.status == Delivered then Step(Err(Conflict(AlreadyDelivered)), s)
      else
        var cancelled := order.(status := Cancelled);
        Step(Ok(cancelled), s.(products := Restore(s.products, FindByOrder(s.items, s.nextItem, o)),
                              orders := s.orders[o := cancelled]))
  }

  // ---------------------------------------------------------------------------
  // Deletion

  /** The lines that do not belong to order `o`. */
  function WithoutOrder(items: map<ItemId, OrderItem>, o: OrderId): (r: map<ItemId, OrderItem>)
    ensures forall k :: k in r <==> k in items && items[k].order != o
    ensures forall k :: k in r ==> r[k] == items[k]
  {
    map k | k in items && items[k].order != o :: items[k]
  }

  /** Deletion: refuse a missing order; otherwise delete all its lines and the order,
      leaving product stock untouched. */
  function DeleteOrder(s: State, o: OrderId): (out: Step<Order>)
    ensures out.result.Err? ==> out.state == s
    ensures (o in s.orders) == out.result.Ok?
    ensures out.result.Ok? ==>
      && out.state.products == s.products
      && o !in out.state.orders && out.state.orders == s.orders - {o}
      && out.state.items == WithoutOrder(s.items, o)
      && out.state.nextOrder == s.nextOrder && out.state.nextItem == s.nextItem
  {
    if o !in s.orders then Step(Err(NotFound(OrderDoc)), s)
    else Step(Ok(s.orders[o]), s.(orders := s.orders - {o}, items := WithoutOrder(s.items, o)))
  }
}
