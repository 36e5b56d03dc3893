/** What the order-level operations guarantee: the reservation loop's effect on
    stock, totals and lines; validity, total consistency and stock conservation
    across creation and cancellation; and the exact amount by which deletion and
    an unguarded status change break stock conservation. */
module OrderLaws {
  import opened Models
  import opened StoreState
  import opened Orders

  // ---------------------------------------------------------------------------
  // The reservation loop

  lemma {:induction false} DemandNonNegative(requests: seq<LineRequest>, p: ProductId)
    requires forall i :: 0 <= i < |requests| ==> requests[i].quantity >= 1
    ensures Demand(requests, p) >= 0
  {
    if requests != [] {
      DemandNonNegative(requests[1..], p);
    }
  }

  /** For requests with pairwise distinct products, the demand for a product is the
      quantity of its single line, or zero when no line names it. */
  lemma {:induction false} DemandDistinct(requests: seq<LineRequest>, p: ProductId)
    requires forall i, j :: 0 <= i < j < |requests| ==> requests[i].product != requests[j].product
    ensures forall i :: 0 <= i < |requests| && requests[i].product == p ==> Demand(requests, p) == requests[i].quantity
    ensures (forall i :: 0 <= i < |requests| ==> requests[i].product != p) ==> Demand(requests, p) == 0
  {
    if requests != [] {
      var rest := requests[1..];
      DemandDistinct(rest, p);
      if requests[0].product == p {
        assert forall i :: 0 <= i < |rest| ==> rest[i].product != p by {
          forall i | 0 <= i < |rest| ensures rest[i].product != p {
            assert rest[i] == requests[i + 1];
          }
        }
      } else {
        forall i | 0 < i < |requests| && requests[i].product == p
          ensures Demand(requests, p) == requests[i].quantity
        {
          assert rest[i - 1] == requests[i];
        }
      }
    }
  }

  /** On success the loop has found every product, and each product's stock has gone
      down by exactly the quantity the requests ask of it; names and prices stay. */
  lemma {:induction false} ReserveCatalog(r: Reservation, requests: seq<LineRequest>)
    requires Reserve(r, requests).Ok?
    ensures var t := Reserve(r, requests).value;
      && t.catalog.Keys == r.catalog.Keys
      && (forall p :: p in r.catalog ==> t.catalog[p] == r.catalog[p].(stock := r.catalog[p].stock - Demand(requests, p)))
      && (forall i :: 0 <= i < |requests| ==> requests[i].product in r.catalog)
    decreases |requests|
  {
    if requests != [] {
      var req := requests[0];
      var product := r.catalog[req.product];
      var r1 := Reservation(r.catalog[req.product := product.(stock := product.stock - req.quantity)],
                            r.total + product.price * req.quantity,
                            r.lines + [Priced(req.product, req.quantity, product.price)]);
      ReserveCatalog(r1, requests[1..]);
      forall i | 0 < i < |requests| ensures requests[i].product in r.catalog {
        assert requests[1..][i - 1] == requests[i];
      }
    }
  }

  /** On success the loop has appended one priced line per request, in request order,
      each at the price the catalog held. */
  lemma {:induction false} ReserveLines(r: Reservation, requests: seq<LineRequest>)
    requires Reserve(r, requests).Ok?
    ensures Reserve(r, requests).value.lines == r.lines + PriceList(requests, r.catalog)
    decreases |requests|
  {
    if requests != [] {
      var req := requests[0];
      var product := r.catalog[req.product];
      var x := Priced(req.product, req.quantity, product.price);
      var r1 := Reservation(r.catalog[req.product := product.(stock := product.stock - req.quantity)],
                            r.total + product.price * req.quantity,
                            r.lines + [x]);
      ReserveLines(r1, requests[1..]);
      ReserveCatalog(r1, requests[1..]);
      var a := PriceList(requests, r.catalog);
      var b := PriceList(requests[1..], r1.catalog);
      assert a == [x] + b by {
        forall i | 0 < i < |requests| ensures a[i] == b[i - 1] {
          assert requests[1..][i - 1] == requests[i];
        }
      }
    }
  }

  /** The running total is the cost of the priced lines. */
  lemma {:induction false} ReserveTotal(r: Reservation, requests: seq<LineRequest>)
    requires Reserve(r, requests).Ok?
    requires r.total == LinesCost(r.lines)
    ensures Reserve(r, requests).value.total == LinesCost(Reserve(r, requests).value.lines)
    decreases |requests|
  {
    if requests != [] {
      var req := requests[0];
      var product := r.catalog[req.product];
      var x := Priced(req.product, req.quantity, product.price);
      var r1 := Reservation(r.catalog[req.product := product.(stock := product.stock - req.quantity)],
                            r.total + product.price * req.quantity,
                            r.lines + [x]);
      assert (r.lines + [x])[..|r.lines|] == r.lines;
      ReserveTotal(r1, requests[1..]);
    }
  }

  /** The priced lines ask, product by product, what the requests asked. */
  lemma {:induction false} ReserveDemand(r: Reservation, requests: seq<LineRequest>, p: ProductId)
    requires Reserve(r, requests).Ok?
    ensures LinesDemand(Reserve(r, requests).value.lines, p) == LinesDemand(r.lines, p) + Demand(requests, p)
    decreases |requests|
  {
    if requests != [] {
      var req := requests[0];
      var product := r.catalog[req.product];
      var x := Priced(req.product, req.quantity, product.price);
      var r1 := Reservation(r.catalog[req.product := product.(stock := product.stock - req.quantity)],
                            r.total + product.price * req.quantity,
                            r.lines + [x]);
      assert (r.lines + [x])[..|r.lines|] == r.lines;
      ReserveDemand(r1, requests[1..], p);
    }
  }

  /** Because each check sees the stock left by the earlier lines, a successful loop
      never asks more of a product than its stock, summed over all lines naming it. */
  lemma {:induction false} ReserveFitsStock(r: Reservation, requests: seq<LineRequest>)
    requires forall p :: p in r.catalog ==> r.catalog[p].stock >= 0
    requires Reserve(r, requests).Ok?
    ensures forall p :: p in r.catalog ==> Demand(requests, p) <= r.catalog[p].stock
    decreases |requests|
  {
    if requests != [] {
      var req := requests[0];
      var product := r.catalog[req.product];
      var r1 := Reservation(r.catalog[req.product := product.(stock := product.stock - req.quantity)],
                            r.total + product.price * req.quantity,
                            r.lines + [Priced(req.product, req.quantity, product.price)]);
      ReserveFitsStock(r1, requests[1..]);
      forall p | p in r.catalog ensures Demand(requests, p) <= r.catalog[p].stock {
        assert Demand(requests, p) == (if req.product == p then req.quantity else 0) + Demand(requests[1..], p);
      }
    }
  }

  /** Conversely, with every product present and every quantity positive, a loop whose
      total demand per product fits the stock goes through. */
  lemma {:induction false} ReserveWithinStock(r: Reservation, requests: seq<LineRequest>)
    requires forall i :: 0 <= i < |requests| ==> requests[i].product in r.catalog && requests[i].quantity >= 1
    requires forall p :: p in r.catalog ==> Demand(requests, p) <= r.catalog[p].stock
    ensures Reserve(r, requests).Ok?
    decreases |requests|
  {
    if requests != [] {
      var req := requests[0];
      var rest := requests[1..];
      var product := r.catalog[req.product];
      assert forall i :: 0 <= i < |rest| ==> rest[i] == requests[i + 1];
      DemandNonNegative(rest, req.product);
      var r1 := Reservation(r.catalog[req.product := product.(stock := product.stock - req.quantity)],
                            r.total + product.price * req.quantity,
                            r.lines + [Priced(req.product, req.quantity, product.price)]);
      ReserveWithinStock(r1, rest);
    }
  }

  /** The loop fails only as "product not found" or "insufficient stock", and it
      reports a missing product only when some request names one. */
  lemma {:induction false} ReserveErrors(r: Reservation, requests: seq<LineRequest>)
    requires Reserve(r, requests).Err?
    ensures Reserve(r, requests).error == NotFound(ProductDoc) || Reserve(r, requests).error == Conflict(InsufficientStock)
    ensures Reserve(r, requests).error == NotFound(ProductDoc) ==>
      exists i :: 0 <= i < |requests| && requests[i].product !in r.catalog
    decreases |requests|
  {
    var req := requests[0];
    if req.product in r.catalog && r.catalog[req.product].stock >= req.quantity {
      var product := r.catalog[req.product];
      var r1 := Reservation(r.catalog[req.product := product.(stock := product.stock - req.quantity)],
                            r.total + product.price * req.quantity,
                            r.lines + [Priced(req.product, req.quantity, product.price)]);
      ReserveErrors(r1, requests[1..]);
      if Reserve(r, requests).error == NotFound(ProductDoc) {
        var i :| 0 <= i < |requests[1..]| && requests[1..][i].product !in r1.catalog;
        assert requests[i + 1].product !in r.catalog;
      }
    }
  }

  /** Two lines for the same product, each within stock but together beyond it, are
      refused: the second line is checked against what the first left. */
  lemma RepeatedProductCheckedCumulatively()
    ensures var catalog := map[7 := Product("mug", 500, 5)];
      Reserve(Reservation(catalog, 0, []), [LineRequest(7, 3), LineRequest(7, 3)]) == Err(Conflict(InsufficientStock))
  {
    var catalog := map[7 := Product("mug", 500, 5)];
    var requests := [LineRequest(7, 3), LineRequest(7, 3)];
    var r1 := Reservation(catalog[7 := Product("mug", 500, 2)], 1500, [Priced(7, 3, 500)]);
    assert requests[1..] == [LineRequest(7, 3)];
    assert Reserve(Reservation(catalog, 0, []), requests) == Reserve(r1, requests[1..]);
  }

  // ---------------------------------------------------------------------------
  // The lines of a new order

  /** The sum of measure `m` over priced lines bound to order `o`. */
  function LinesWeight(o: OrderId, lines: seq<Priced>, m: Measure): int {
    if lines == [] then 0
    else LinesWeight(o, lines[..|lines| - 1], m) + Weight(m, ToItem(o, lines[|lines| - 1]))
  }

  lemma {:induction false} SumNewLines(start: ItemId, o: OrderId, lines: seq<Priced>, m: Measure)
    ensures Sum(NewLines(start, o, lines), start + |lines|, m) == LinesWeight(o, lines, m)
    decreases |lines|
  {
    var nl := NewLines(start, o, lines);
    if lines == [] {
      SumZero(nl, start, m);
    } else {
      var prefix := lines[..|lines| - 1];
      var k := start + |prefix|;
      SumNewLines(start, o, prefix, m);
      SumAgree(nl, m, NewLines(start, o, prefix), m, k);
    }
  }

  lemma {:induction false} LinesWeightAmount(o: OrderId, lines: seq<Priced>)
    ensures LinesWeight(o, lines, Amount(o)) == LinesCost(lines)
    decreases |lines|
  {
    if lines != [] {
      LinesWeightAmount(o, lines[..|lines| - 1]);
    }
  }

  lemma {:induction false} LinesWeightHeld(o: OrderId, lines: seq<Priced>, p: ProductId, orders: map<OrderId, Order>)
    requires o in orders && orders[o].status != Cancelled
    ensures LinesWeight(o, lines, Held(p, orders)) == LinesDemand(lines, p)
    decreases |lines|
  {
    if lines != [] {
      LinesWeightHeld(o, lines[..|lines| - 1], p, orders);
    }
  }

  lemma {:induction false} LinesCostNonNegative(lines: seq<Priced>)
    requires forall i :: 0 <= i < |lines| ==> lines[i].quantity >= 1 && lines[i].price >= 0
    ensures LinesCost(lines) >= 0
    decreases |lines|
  {
    if lines != [] {
      LinesCostNonNegative(lines[..|lines| - 1]);
    }
  }

  /** Splitting off the last request. */
  lemma {:induction false} DemandLast(requests: seq<LineRequest>, p: ProductId)
    requires requests != []
    ensures var last := requests[|requests| - 1];
      Demand(requests, p) == Demand(requests[..|requests| - 1], p) + (if last.product == p then last.quantity else 0)
    decreases |requests|
  {
    if |requests| > 1 {
      var rest := requests[1..];
      DemandLast(rest, p);
      assert rest[..|rest| - 1] == requests[..|requests| - 1][1..];
    }
  }

  /** Pricing does not change what is asked of each product. */
  lemma {:induction false} PriceListDemand(requests: seq<LineRequest>, catalog: map<ProductId, Product>, p: ProductId)
    ensures LinesDemand(PriceList(requests, catalog), p) == Demand(requests, p)
    decreases |requests|
  {
    if requests != [] {
      var front := requests[..|requests| - 1];
      PriceListDemand(front, catalog, p);
      DemandLast(requests, p);
      assert PriceList(requests, catalog)[..|requests| - 1] == PriceList(front, catalog);
    }
  }

  /** The new lines pass the line schema and carry the products of the priced lines. */
  lemma {:induction false} NewLinesValid(start: ItemId, o: OrderId, lines: seq<Priced>)
    requires forall i :: 0 <= i < |lines| ==> NewItem(o, lines[i].product, lines[i].quantity, lines[i].price).Some?
    ensures forall k :: k in NewLines(start, o, lines) ==>
      NewLines(start, o, lines)[k].Valid() && NewLines(start, o, lines)[k].product == lines[k - start].product
  {
    var nl := NewLines(start, o, lines);
    forall k | k in nl ensures nl[k].Valid() && nl[k].product == lines[k - start].product {
      var i := k - start;
      assert nl[start + i] == ToItem(o, lines[i]);
      assert NewItem(o, lines[i].product, lines[i].quantity, lines[i].price).Some?;
    }
  }

  // ---------------------------------------------------------------------------
  // Adding an order with its lines

  /** Adding a valid order whose lines pass the line schema and name distinct products
      keeps the database valid. */
  lemma {:induction false} AddOrderValid(s: State, t: State, user: UserId, lines: seq<Priced>)
    requires Valid(s)
    requires forall p :: p in t.products ==> t.products[p].Valid()
    requires forall i :: 0 <= i < |lines| ==> NewItem(s.nextOrder, lines[i].product, lines[i].quantity, lines[i].price).Some?
    requires forall i, j :: 0 <= i < j < |lines| ==> lines[i].product != lines[j].product
    requires t.orders == s.orders[s.nextOrder := Order(user, LinesCost(lines), Pending)]
    requires t.items == s.items + NewLines(s.nextItem, s.nextOrder, lines)
    requires t.nextOrder == s.nextOrder + 1 && t.nextItem == s.nextItem + |lines|
    ensures Valid(t)
  {
    var o := s.nextOrder;
    var n := s.nextItem;
    var nl := NewLines(n, o, lines);
    LinesCostNonNegative(lines);
    NewLinesValid(n, o, lines);
    forall i, j | i in t.items && j in t.items && i != j
      ensures t.items[i].order != t.items[j].order || t.items[i].product != t.items[j].product
    {
      if i in nl && j in nl {
        assert lines[i - n].product != lines[j - n].product;
      } else if i in nl {
        assert s.items[j].order in s.orders;
      } else if j in nl {
        assert s.items[i].order in s.orders;
      }
    }
  }

  /** Adding an order whose total is the cost of its lines keeps every total consistent. */
  lemma {:induction false} AddOrderTotals(s: State, t: State, user: UserId, lines: seq<Priced>)
    requires Consistent(s)
    requires t.orders == s.orders[s.nextOrder := Order(user, LinesCost(lines), Pending)]
    requires t.items == s.items + NewLines(s.nextItem, s.nextOrder, lines)
    requires t.nextItem == s.nextItem + |lines|
    ensures TotalsConsistent(t)
  {
    var o := s.nextOrder;
    var n := s.nextItem;
    var nl := NewLines(n, o, lines);
    forall x | x in t.orders ensures t.orders[x].total == OrderAmount(t, x) {
      if x == o {
        SumSplit(t.items, Amount(o), s.items, Amount(o), nl, Amount(o), t.nextItem);
        SumZero(s.items, t.nextItem, Amount(o));
        SumNewLines(n, o, lines, Amount(o));
        LinesWeightAmount(o, lines);
      } else {
        SumAgree(t.items, Amount(x), s.items, Amount(x), t.nextItem);
        SumStable(s.items, n, t.nextItem, Amount(x));
      }
    }
  }

  /** Adding a pending order conserves stock when each product's stock went down by
      exactly what the new lines hold of it. */
  lemma {:induction false} AddOrderConserves(s: State, t: State, user: UserId, lines: seq<Priced>)
    requires Valid(s)
    requires t.products.Keys == s.products.Keys
    requires forall p :: p in s.products ==> t.products[p].stock == s.products[p].stock - LinesDemand(lines, p)
    requires t.orders == s.orders[s.nextOrder := Order(user, LinesCost(lines), Pending)]
    requires t.items == s.items + NewLines(s.nextItem, s.nextOrder, lines)
    requires t.nextItem == s.nextItem + |lines|
    ensures Conserves(s, t)
  {
    var o := s.nextOrder;
    var n := s.nextItem;
    var nl := NewLines(n, o, lines);
    forall p | p in s.products ensures t.products[p].stock + Reserved(t, p) == s.products[p].stock + Reserved(s, p) {
      SumSplit(t.items, Held(p, t.orders), s.items, Held(p, t.orders), nl, Held(p, t.orders), t.nextItem);
      SumAgree(s.items, Held(p, t.orders), s.items, Held(p, s.orders), t.nextItem);
      SumStable(s.items, n, t.nextItem, Held(p, s.orders));
      SumNewLines(n, o, lines, Held(p, t.orders));
      LinesWeightHeld(o, lines, p, t.orders);
    }
  }

  // ---------------------------------------------------------------------------
  // Order creation

  /** How the reservation loop leaves the catalog: every requested product found, the
      same products, each product's stock down by what the requests ask of it (never
      more than it had), names and prices kept. */
  predicate StockTaken(catalog: map<ProductId, Product>, requests: seq<LineRequest>, after: map<ProductId, Product>) {
    && (forall i :: 0 <= i < |requests| ==> requests[i].product in catalog)
    && after.Keys == catalog.Keys
    && (forall p :: p in catalog ==> Demand(requests, p) <= catalog[p].stock)
    && (forall p :: p in catalog ==> after[p] == catalog[p].(stock := catalog[p].stock - Demand(requests, p)))
  }

  /** What a successful creation leaves behind in `t`: the stock taken, one pending
      order owned by the caller whose total is the cost of its lines, and one line per
      request under fresh identities, bound to the new order and priced at the
      catalog's price. */
  predicate Created(s: State, user: Option<UserId>, requests: seq<LineRequest>, t: State) {
    var lines := PriceList(requests, s.products);
    && requests != []
    && user.Some?
    && StockTaken(s.products, requests, t.products)
    && t.orders == s.orders[s.nextOrder := Order(user.value, LinesCost(lines), Pending)]
    && t.items == s.items + NewLines(s.nextItem, s.nextOrder, lines)
    && Insertable(s.items, s.nextOrder, lines)
    && t.nextItem == s.nextItem + |lines|
    && t.nextOrder == s.nextOrder + 1
  }

  /** The reservation, order document and insertion behind a successful creation. */
  lemma {:induction false} CreateOrderUnfold(s: State, user: Option<UserId>, requests: seq<LineRequest>)
    requires CreateOrder(s, user, requests).result.Ok?
    ensures requests != []
    ensures Reserve(Reservation(s.products, 0, []), requests).Ok?
    ensures var res := Reserve(Reservation(s.products, 0, []), requests).value;
      && NewOrder(user, res.total, Some(Pending)).Some?
      && Insertable(s.items, s.nextOrder, res.lines)
      && CreateOrder(s, user, requests).state
         == State(res.catalog, s.orders[s.nextOrder := NewOrder(user, res.total, Some(Pending)).value],
                  s.items + NewLines(s.nextItem, s.nextOrder, res.lines), s.nextOrder + 1, s.nextItem + |res.lines|)
  {
  }

  /** A successful reservation loop over a valid catalog takes the stock as described. */
  lemma {:induction false} ReserveTakesStock(catalog: map<ProductId, Product>, requests: seq<LineRequest>)
    requires forall p :: p in catalog ==> catalog[p].stock >= 0
    requires Reserve(Reservation(catalog, 0, []), requests).Ok?
    ensures StockTaken(catalog, requests, Reserve(Reservation(catalog, 0, []), requests).value.catalog)
  {
    ReserveCatalog(Reservation(catalog, 0, []), requests);
    ReserveFitsStock(Reservation(catalog, 0, []), requests);
  }

  /** A successful reservation loop priced every request at the catalog's price and
      totalled their cost. */
  lemma {:induction false} ReservePrices(catalog: map<ProductId, Product>, requests: seq<LineRequest>)
    requires Reserve(Reservation(catalog, 0, []), requests).Ok?
    ensures Reserve(Reservation(catalog, 0, []), requests).value.lines == PriceList(requests, catalog)
    ensures Reserve(Reservation(catalog, 0, []), requests).value.total == LinesCost(PriceList(requests, catalog))
  {
    var r0 := Reservation(catalog, 0, []);
    ReserveLines(r0, requests);
    ReserveTotal(r0, requests);
    assert r0.lines + PriceList(requests, catalog) == PriceList(requests, catalog);
  }

  lemma {:induction false} CreateOrderEffect(s: State, user: Option<UserId>, requests: seq<LineRequest>)
    requires ProductsValid(s)
    requires CreateOrder(s, user, requests).result.Ok?
    ensures Created(s, user, requests, CreateOrder(s, user, requests).state)
  {
    CreateOrderUnfold(s, user, requests);
    ReserveTakesStock(s.products, requests);
    ReservePrices(s.products, requests);
  }

  /** Creation succeeds exactly when the list is not empty, an owner is given, every
      product exists, every quantity is at least one and within the product's stock,
      and no product is named twice; otherwise it fails and changes nothing. */
  predicate Acceptable(s: State, user: Option<UserId>, requests: seq<LineRequest>) {
    && requests != []
    && user.Some?
    && (forall i :: 0 <= i < |requests| ==>
          requests[i].product in s.products && 1 <= requests[i].quantity <= s.products[requests[i].product].stock)
    && (forall i, j :: 0 <= i < j < |requests| ==> requests[i].product != requests[j].product)
  }

  lemma {:induction false} CreatedAcceptable(s: State, user: Option<UserId>, requests: seq<LineRequest>, t: State)
    requires Created(s, user, requests, t)
    ensures Acceptable(s, user, requests)
  {
    var lines := PriceList(requests, s.products);
    forall i | 0 <= i < |requests|
      ensures 1 <= requests[i].quantity <= s.products[requests[i].product].stock
    {
      assert NewItem(s.nextOrder, lines[i].product, lines[i].quantity, lines[i].price).Some?;
      assert lines[i].product == requests[i].product;
      DemandDistinct(requests, requests[i].product);
    }
    forall i, j | 0 <= i < j < |requests| ensures requests[i].product != requests[j].product {
      assert lines[i].product == requests[i].product && lines[j].product == requests[j].product;
    }
  }

  /** No line of a valid database belongs to the order identity handed out next. */
  lemma {:induction false} NextOrderHasNoLines(s: State, p: ProductId)
    requires Valid(s)
    ensures !PairTaken(s.items, s.nextOrder, p)
  {
    forall k | k in s.items ensures s.items[k].order != s.nextOrder {
      assert s.items[k].order in s.orders;
    }
  }

  /** The priced lines of acceptable requests can be inserted under the next order. */
  lemma {:induction false} AcceptableInsertable(s: State, user: Option<UserId>, requests: seq<LineRequest>)
    requires Valid(s)
    requires Acceptable(s, user, requests)
    ensures Insertable(s.items, s.nextOrder, PriceList(requests, s.products))
    ensures LinesCost(PriceList(requests, s.products)) >= 0
  {
    var lines := PriceList(requests, s.products);
    forall i | 0 <= i < |lines| ensures !PairTaken(s.items, s.nextOrder, lines[i].product) {
      NextOrderHasNoLines(s, lines[i].product);
    }
    forall i | 0 <= i < |lines| ensures lines[i].quantity >= 1 && lines[i].price >= 0 {
      var p := requests[i].product;
      assert lines[i] == Priced(p, requests[i].quantity, s.products[p].price);
      assert s.products[p].Valid();
    }
    LinesCostNonNegative(lines);
  }

  /** Acceptable requests pass the reservation loop. */
  lemma {:induction false} AcceptableReserves(s: State, user: Option<UserId>, requests: seq<LineRequest>)
    requires ProductsValid(s)
    requires Acceptable(s, user, requests)
    ensures Reserve(Reservation(s.products, 0, []), requests).Ok?
  {
    forall p | p in s.products ensures Demand(requests, p) <= s.products[p].stock {
      assert s.products[p].Valid();
      DemandDistinct(requests, p);
    }
    ReserveWithinStock(Reservation(s.products, 0, []), requests);
  }

  lemma {:induction false} AcceptableCreates(s: State, user: Option<UserId>, requests: seq<LineRequest>)
    requires Valid(s)
    requires Acceptable(s, user, requests)
    ensures CreateOrder(s, user, requests).result.Ok?
  {
    AcceptableReserves(s, user, requests);
    ReservePrices(s.products, requests);
    AcceptableInsertable(s, user, requests);
  }

  lemma {:induction false} CreateOrderSucceedsIff(s: State, user: Option<UserId>, requests: seq<LineRequest>)
    requires Valid(s)
    ensures CreateOrder(s, user, requests).result.Ok? <==> Acceptable(s, user, requests)
  {
    if CreateOrder(s, user, requests).result.Ok? {
      CreateOrderEffect(s, user, requests);
      CreatedAcceptable(s, user, requests, CreateOrder(s, user, requests).state);
    }
    if Acceptable(s, user, requests) {
      AcceptableCreates(s, user, requests);
    }
  }

  /** A product that does not exist makes creation fail, and "product not found" is
      reported only when some request names a missing product. */
  lemma {:induction false} CreateOrderMissingProduct(s: State, user: Option<UserId>, requests: seq<LineRequest>)
    requires Valid(s)
    ensures (exists i :: 0 <= i < |requests| && requests[i].product !in s.products) ==>
      CreateOrder(s, user, requests).result.Err?
    ensures CreateOrder(s, user, requests).result == Err(NotFound(ProductDoc)) ==>
      exists i :: 0 <= i < |requests| && requests[i].product !in s.products
  {
    CreateOrderSucceedsIff(s, user, requests);
    var r0 := Reservation(s.products, 0, []);
    if requests != [] && Reserve(r0, requests).Err? {
      ReserveErrors(r0, requests);
    }
  }

  /** When every requested product exists but some product's total demand exceeds its
      stock, creation is refused as insufficient stock and nothing changes, however the
      demand is split over lines. */
  lemma {:induction false} CreateOrderInsufficientStock(s: State, user: Option<UserId>, requests: seq<LineRequest>)
    requires Valid(s)
    requires forall i :: 0 <= i < |requests| ==> requests[i].product in s.products
    requires exists p :: p in s.products && Demand(requests, p) > s.products[p].stock
    ensures CreateOrder(s, user, requests) == Step(Err(Conflict(InsufficientStock)), s)
  {
    var r0 := Reservation(s.products, 0, []);
    if Reserve(r0, requests).Ok? {
      ReserveFitsStock(r0, requests);
    }
    ReserveErrors(r0, requests);
  }

  /** When the reservation loop goes through but a line has a quantity below one, or
      two lines name the same product, the insertion of the lines is refused (the line
      schema's minimum, the unique (order, product) index): creation fails as an
      internal error and nothing changes. */
  lemma {:induction false} CreateOrderInsertFails(s: State, user: Option<UserId>, requests: seq<LineRequest>)
    requires Reserve(Reservation(s.products, 0, []), requests).Ok?
    requires || (exists i :: 0 <= i < |requests| && requests[i].quantity < 1)
             || (exists i, j :: 0 <= i < j < |requests| && requests[i].product == requests[j].product)
    ensures CreateOrder(s, user, requests) == Step(Err(Internal), s)
  {
    var r0 := Reservation(s.products, 0, []);
    ReservePrices(s.products, requests);
    ReserveCatalog(r0, requests);
    var lines := PriceList(requests, s.products);
    if exists i :: 0 <= i < |requests| && requests[i].quantity < 1 {
      var i :| 0 <= i < |requests| && requests[i].quantity < 1;
      assert lines[i].quantity == requests[i].quantity;
      assert NewItem(s.nextOrder, lines[i].product, lines[i].quantity, lines[i].price).None?;
    } else {
      var i, j :| 0 <= i < j < |requests| && requests[i].product == requests[j].product;
      assert lines[i].product == lines[j].product;
    }
  }

  /** A product named on two lines whose quantities together fit its stock passes the
      reservation loop and is then refused by the unique (order, product) index. */
  lemma {:induction false} CreateOrderRepeatedProductFails(s: State, user: Option<UserId>, requests: seq<LineRequest>)
    requires Valid(s)
    requires forall i :: 0 <= i < |requests| ==> requests[i].product in s.products && requests[i].quantity >= 1
    requires forall p :: p in s.products ==> Demand(requests, p) <= s.products[p].stock
    requires exists i, j :: 0 <= i < j < |requests| && requests[i].product == requests[j].product
    ensures CreateOrder(s, user, requests) == Step(Err(Internal), s)
  {
    ReserveWithinStock(Reservation(s.products, 0, []), requests);
    CreateOrderInsertFails(s, user, requests);
  }

  lemma {:induction false} CreatedValid(s: State, user: Option<UserId>, requests: seq<LineRequest>, t: State)
    requires Valid(s)
    requires Created(s, user, requests, t)
    ensures Valid(t)
  {
    forall p | p in t.products ensures t.products[p].Valid() {
      assert s.products[p].Valid();
    }
    AddOrderValid(s, t, user.value, PriceList(requests, s.products));
  }

  lemma {:induction false} CreateOrderPreservesValid(s: State, user: Option<UserId>, requests: seq<LineRequest>)
    requires Valid(s)
    ensures Valid(CreateOrder(s, user, requests).state)
  {
    if CreateOrder(s, user, requests).result.Ok? {
      CreateOrderEffect(s, user, requests);
      CreatedValid(s, user, requests, CreateOrder(s, user, requests).state);
    }
  }

  lemma {:induction false} CreateOrderKeepsTotals(s: State, user: Option<UserId>, requests: seq<LineRequest>)
    requires Consistent(s)
    ensures TotalsConsistent(CreateOrder(s, user, requests).state)
  {
    if CreateOrder(s, user, requests).result.Ok? {
      CreateOrderEffect(s, user, requests);
      var t := CreateOrder(s, user, requests).state;
      AddOrderTotals(s, t, user.value, PriceList(requests, s.products));
    }
  }

  lemma {:induction false} CreatedConserves(s: State, user: Option<UserId>, requests: seq<LineRequest>, t: State)
    requires Valid(s)
    requires Created(s, user, requests, t)
    ensures Conserves(s, t)
  {
    var lines := PriceList(requests, s.products);
    forall p | p in s.products ensures t.products[p].stock == s.products[p].stock - LinesDemand(lines, p) {
      PriceListDemand(requests, s.products, p);
    }
    AddOrderConserves(s, t, user.value, lines);
  }

  /** Creation conserves stock: what leaves each product's stock is exactly what the
      new pending order's lines hold. */
  lemma {:induction false} CreateOrderConserves(s: State, user: Option<UserId>, requests: seq<LineRequest>)
    requires Valid(s)
    ensures Conserves(s, CreateOrder(s, user, requests).state)
  {
    if CreateOrder(s, user, requests).result.Ok? {
      CreateOrderEffect(s, user, requests);
      CreatedConserves(s, user, requests, CreateOrder(s, user, requests).state);
    }
  }
}
