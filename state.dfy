/** The three collections the core works on, the invariants the schemas and the
    core keep over them, and sums over order lines. */
module StoreState {
  import opened Models

  /** The database: products, orders and order lines by identity, plus the next
      identities the store hands out for new orders and new lines. */
  datatype State = State(
    products: map<ProductId, Product>,
    orders: map<OrderId, Order>,
    items: map<ItemId, OrderItem>,
    nextOrder: OrderId,
    nextItem: ItemId)

  /** The outcome of one operation together with the state it leaves behind. */
  datatype Step<T> = Step(result: Result<T>, state: State)

  // ---------------------------------------------------------------------------
  // Invariants

  predicate ProductsValid(s: State) {
    forall p :: p in s.products ==> s.products[p].Valid()
  }

  predicate OrdersValid(s: State) {
    forall o :: o in s.orders ==> s.orders[o].Valid() && o < s.nextOrder
  }

  /** Every line passes its schema, has an allocated identity and belongs to an existing order. */
  predicate ItemsValid(s: State) {
    forall k :: k in s.items ==> s.items[k].Valid() && k < s.nextItem && s.items[k].order in s.orders
  }

  /** The unique (order, product) index on order lines. */
  predicate UniqueLines(items: map<ItemId, OrderItem>) {
    forall i, j :: i in items && j in items && i != j ==>
      items[i].order != items[j].order || items[i].product != items[j].product
  }

  /** The state every stored document is in: each passes its schema's validator,
      the line index is unique, and lines belong to orders that exist. */
  predicate Valid(s: State) {
    ProductsValid(s) && OrdersValid(s) && ItemsValid(s) && UniqueLines(s.items)
  }

  /** Whether some line of order `o` is already for product `p`. */
  predicate PairTaken(items: map<ItemId, OrderItem>, o: OrderId, p: ProductId) {
    exists k :: k in items && items[k].order == o && items[k].product == p
  }

  // ---------------------------------------------------------------------------
  // Sums over lines

  /** What a line contributes to a sum: the amount of one order, the quantity of one
      product in one order, the quantity of one product held by orders that are
      not cancelled, or the quantity of one product sold by any order and the revenue
      it brought. */
  datatype Measure =
    | Amount(order: OrderId)
    | Units(order: OrderId)
    | Ordered(order: OrderId, product: ProductId)
    | Held(product: ProductId, orders: map<OrderId, Order>)
    | Sold(product: ProductId)
    | Revenue(product: ProductId)

  function Weight(m: Measure, it: OrderItem): int {
    match m
    case Amount(o) => if it.order == o then it.price * it.quantity else 0
    case Units(o) => if it.order == o then it.quantity else 0
    case Ordered(o, p) => if it.order == o && it.product == p then it.quantity else 0
    case Held(p, orders) =>
      if it.product == p && it.order in orders && orders[it.order].status != Cancelled then it.quantity else 0
    case Sold(p) => if it.product == p then it.quantity else 0
    case Revenue(p) => if it.product == p then it.price * it.quantity else 0
  }

  function Term(items: map<ItemId, OrderItem>, k: ItemId, m: Measure): int {
    if k in items then Weight(m, items[k]) else 0
  }

  /** The sum of `m` over the lines whose identity is below `n`. */
  function Sum(items: map<ItemId, OrderItem>, n: nat, m: Measure): int {
    if n == 0 then 0 else Sum(items, n - 1, m) + Term(items, n - 1, m)
  }

  /** Sum of price × quantity over the lines of order `o`. */
  function OrderAmount(s: State, o: OrderId): int {
    Sum(s.items, s.nextItem, Amount(o))
  }

  /** Quantity of product `p` in the lines of order `o`. */
  function OrderedQuantity(s: State, o: OrderId, p: ProductId): int {
    Sum(s.items, s.nextItem, Ordered(o, p))
  }

  /** Quantity of product `p` held by the lines of orders that are not cancelled. */
  function Reserved(s: State, p: ProductId): int {
    Sum(s.items, s.nextItem, Held(p, s.orders))
  }

  /** Every order's total is the sum of price × quantity over its lines. */
  predicate TotalsConsistent(s: State) {
    forall o :: o in s.orders ==> s.orders[o].total == OrderAmount(s, o)
  }

  predicate Consistent(s: State) {
    Valid(s) && TotalsConsistent(s)
  }

  /** Stock conservation between two states: the same products, and for each of them
      stock plus the quantity held by live orders is unchanged. */
  predicate Conserves(s: State, t: State) {
    t.products.Keys == s.products.Keys &&
    forall p :: p in s.products ==> t.products[p].stock + Reserved(t, p) == s.products[p].stock + Reserved(s, p)
  }

  /** The catalog keeps its products and their prices; only stock moves. */
  predicate PricesKept(s: State, t: State) {
    t.products.Keys == s.products.Keys &&
    forall p :: p in s.products ==> t.products[p] == s.products[p].(stock := t.products[p].stock)
  }

  lemma {:induction false} SumAgree(a: map<ItemId, OrderItem>, ma: Measure, b: map<ItemId, OrderItem>, mb: Measure, n: nat)
    requires forall k :: 0 <= k < n ==> Term(a, k, ma) == Term(b, k, mb)
    ensures Sum(a, n, ma) == Sum(b, n, mb)
  {
    if n > 0 {
      SumAgree(a, ma, b, mb, n - 1);
    }
  }

  /** Sums add up term by term. */
  lemma {:induction false} SumSplit(a: map<ItemId, OrderItem>, ma: Measure, b: map<ItemId, OrderItem>, mb: Measure,
                                    c: map<ItemId, OrderItem>, mc: Measure, n: nat)
    requires forall k :: 0 <= k < n ==> Term(a, k, ma) == Term(b, k, mb) + Term(c, k, mc)
    ensures Sum(a, n, ma) == Sum(b, n, mb) + Sum(c, n, mc)
  {
    if n > 0 {
      SumSplit(a, ma, b, mb, c, mc, n - 1);
    }
  }

  /** Replacing one line changes a sum by the difference of that line's weights. */
  lemma {:induction false} SumUpdate(items: map<ItemId, OrderItem>, n: nat, k: ItemId, v: OrderItem, m: Measure)
    requires k < n
    ensures Sum(items[k := v], n, m) == Sum(items, n, m) - Term(items, k, m) + Weight(m, v)
  {
    if n - 1 == k {
      SumAgree(items[k := v], m, items, m, n - 1);
    } else {
      SumUpdate(items, n - 1, k, v, m);
    }
  }

  /** Deleting one line takes its weight out of a sum. */
  lemma {:induction false} SumRemove(items: map<ItemId, OrderItem>, n: nat, k: ItemId, m: Measure)
    requires k < n
    ensures Sum(items - {k}, n, m) == Sum(items, n, m) - Term(items, k, m)
  {
    if n - 1 == k {
      SumAgree(items - {k}, m, items, m, n - 1);
    } else {
      SumRemove(items, n - 1, k, m);
    }
  }

  /** A sum whose terms are all zero is zero. */
  lemma {:induction false} SumZero(items: map<ItemId, OrderItem>, n: nat, m: Measure)
    requires forall k :: 0 <= k < n ==> Term(items, k, m) == 0
    ensures Sum(items, n, m) == 0
  {
    if n > 0 {
      SumZero(items, n - 1, m);
    }
  }

  /** Raising the bound past the last identity in use does not change a sum. */
  lemma {:induction false} SumStable(items: map<ItemId, OrderItem>, n: nat, n': nat, m: Measure)
    requires n <= n'
    requires forall k :: k in items ==> k < n
    ensures Sum(items, n', m) == Sum(items, n, m)
  {
    if n < n' {
      SumStable(items, n, n' - 1, m);
    }
  }

  /** A line inserted under the next identity adds its weight to a sum. */
  lemma {:induction false} SumInsert(items: map<ItemId, OrderItem>, n: nat, v: OrderItem, m: Measure)
    requires forall k :: k in items ==> k < n
    ensures Sum(items[n := v], n + 1, m) == Sum(items, n, m) + Weight(m, v)
  {
    SumAgree(items[n := v], m, items, m, n);
  }

  /** The reserved sum reads only the status of each order, so orders whose statuses
      are the same reserve the same. */
  lemma {:induction false} HeldByStatus(items: map<ItemId, OrderItem>, a: map<OrderId, Order>, b: map<OrderId, Order>,
                                        p: ProductId, n: nat)
    requires a.Keys == b.Keys
    requires forall o :: o in a ==> a[o].status == b[o].status
    ensures Sum(items, n, Held(p, a)) == Sum(items, n, Held(p, b))
  {
    SumAgree(items, Held(p, a), items, Held(p, b), n);
  }

  /** A sum of weights that are never negative is not negative. */
  lemma {:induction false} SumNonNegative(items: map<ItemId, OrderItem>, n: nat, m: Measure)
    requires forall k :: 0 <= k < n ==> Term(items, k, m) >= 0
    ensures Sum(items, n, m) >= 0
  {
    if n > 0 {
      SumNonNegative(items, n - 1, m);
    }
  }

  /** A single line of a sum of non-negative weights is bounded by the sum. */
  lemma {:induction false} TermAtMostSum(items: map<ItemId, OrderItem>, n: nat, k: ItemId, m: Measure)
    requires k < n
    requires forall j :: 0 <= j < n ==> Term(items, j, m) >= 0
    ensures Term(items, k, m) <= Sum(items, n, m)
  {
    if n - 1 == k {
      SumNonNegative(items, n - 1, m);
    } else {
      TermAtMostSum(items, n - 1, k, m);
    }
  }

  // ---------------------------------------------------------------------------
  // Queries that return lines

  /** The lines of order `o`, in identity order: what a find by order returns. */
  function FindByOrder(items: map<ItemId, OrderItem>, n: nat, o: OrderId): (r: seq<OrderItem>)
    ensures forall i :: 0 <= i < |r| ==> r[i].order == o
  {
    if n == 0 then []
    else FindByOrder(items, n - 1, o) + (if n - 1 in items && items[n - 1].order == o then [items[n - 1]] else [])
  }

  /** The lines of product `p`, in identity order: what a find by product returns. */
  function FindByProduct(items: map<ItemId, OrderItem>, n: nat, p: ProductId): (r: seq<OrderItem>)
    ensures forall i :: 0 <= i < |r| ==> r[i].product == p
  {
    if n == 0 then []
    else FindByProduct(items, n - 1, p) + (if n - 1 in items && items[n - 1].product == p then [items[n - 1]] else [])
  }
}
