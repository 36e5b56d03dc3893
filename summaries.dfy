/** The figures the read paths compute over lines: the per-order summary (line count,
    quantity, amount) and the per-product sales statistics. */
module Summaries {
  import opened Models
  import opened StoreState

  /** The summary of one order's lines. */
  datatype LinesSummary = LinesSummary(totalItems: nat, totalQuantity: int, totalAmount: int)

  /** The sales statistics of one product. */
  datatype SalesSummary = SalesSummary(totalSold: int, totalRevenue: int, totalOrders: nat)

  /** Sum of quantities, accumulated left to right from zero. */
  function QuantityTotal(lines: seq<OrderItem>): int {
    if lines == [] then 0 else QuantityTotal(lines[..|lines| - 1]) + lines[|lines| - 1].quantity
  }

  /** Sum of price × quantity, accumulated left to right from zero. */
  function AmountTotal(lines: seq<OrderItem>): int {
    if lines == [] then 0
    else AmountTotal(lines[..|lines| - 1]) + lines[|lines| - 1].price * lines[|lines| - 1].quantity
  }

  /** The per-order summary: an order without lines is reported as not found, otherwise
      the number of lines, their total quantity and their total amount. */
  function SummarizeOrderLines(lines: seq<OrderItem>): (r: Result<LinesSummary>)
    ensures r.Err? <==> lines == []
    ensures r.Err? ==> r.error == NotFound(ItemDoc)
    ensures r.Ok? ==> r.value.totalItems == |lines|
  {
    if lines == [] then Err(NotFound(ItemDoc))
    else Ok(LinesSummary(|lines|, QuantityTotal(lines), AmountTotal(lines)))
  }

  /** The per-product statistics: quantity and revenue over every line of the product,
      whatever its order's status (zero when there is none), and the number of lines. */
  function SummarizeSales(lines: seq<OrderItem>): (r: SalesSummary)
    ensures r.totalOrders == |lines|
    ensures lines == [] ==> r.totalSold == 0 && r.totalRevenue == 0
  {
    SalesSummary(QuantityTotal(lines), AmountTotal(lines), |lines|)
  }

  /** The per-order summary as the read path produces it from the database: not found
      exactly when no stored line belongs to the order, otherwise a quantity and an
      amount equal to the quantity and the price × quantity summed over the order's
      stored lines. */
  function OrderSummary(s: State, o: OrderId): (r: Result<LinesSummary>)
    ensures r.Err? <==> forall k :: 0 <= k < s.nextItem && k in s.items ==> s.items[k].order != o
    ensures r.Ok? ==> r.value.totalQuantity == Sum(s.items, s.nextItem, Units(o))
    ensures r.Ok? ==> r.value.totalAmount == OrderAmount(s, o)
  {
    FoundNone(s.items, s.nextItem, o);
    FoundUnits(s.items, s.nextItem, o);
    FoundAmount(s.items, s.nextItem, o);
    SummarizeOrderLines(FindByOrder(s.items, s.nextItem, o))
  }

  /** The per-product statistics as the read path produces them from the database: the
      quantity and the revenue summed over every stored line of the product. */
  function ProductSales(s: State, p: ProductId): (r: SalesSummary)
    ensures r.totalSold == Sum(s.items, s.nextItem, Sold(p))
    ensures r.totalRevenue == Sum(s.items, s.nextItem, Revenue(p))
  {
    FoundSold(s.items, s.nextItem, p);
    FoundRevenue(s.items, s.nextItem, p);
    SummarizeSales(FindByProduct(s.items, s.nextItem, p))
  }

  // ---------------------------------------------------------------------------
  // Laws

  lemma {:induction false} FoundAmount(items: map<ItemId, OrderItem>, n: nat, o: OrderId)
    ensures AmountTotal(FindByOrder(items, n, o)) == Sum(items, n, Amount(o))
  {
    if n > 0 {
      FoundAmount(items, n - 1, o);
      var prior := FindByOrder(items, n - 1, o);
      if n - 1 in items && items[n - 1].order == o {
        assert FindByOrder(items, n, o)[..|prior|] == prior;
      } else {
        assert FindByOrder(items, n, o) == prior;
      }
    }
  }

  lemma {:induction false} FoundUnits(items: map<ItemId, OrderItem>, n: nat, o: OrderId)
    ensures QuantityTotal(FindByOrder(items, n, o)) == Sum(items, n, Units(o))
  {
    if n > 0 {
      FoundUnits(items, n - 1, o);
      var prior := FindByOrder(items, n - 1, o);
      if n - 1 in items && items[n - 1].order == o {
        assert FindByOrder(items, n, o)[..|prior|] == prior;
      } else {
        assert FindByOrder(items, n, o) == prior;
      }
    }
  }

  lemma {:induction false} FoundSold(items: map<ItemId, OrderItem>, n: nat, p: ProductId)
    ensures QuantityTotal(FindByProduct(items, n, p)) == Sum(items, n, Sold(p))
  {
    if n > 0 {
      FoundSold(items, n - 1, p);
      var prior := FindByProduct(items, n - 1, p);
      if n - 1 in items && items[n - 1].product == p {
        assert FindByProduct(items, n, p)[..|prior|] == prior;
      } else {
        assert FindByProduct(items, n, p) == prior;
      }
    }
  }

  lemma {:induction false} FoundRevenue(items: map<ItemId, OrderItem>, n: nat, p: ProductId)
    ensures AmountTotal(FindByProduct(items, n, p)) == Sum(items, n, Revenue(p))
  {
    if n > 0 {
      FoundRevenue(items, n - 1, p);
      var prior := FindByProduct(items, n - 1, p);
      if n - 1 in items && items[n - 1].product == p {
        assert FindByProduct(items, n, p)[..|prior|] == prior;
      } else {
        assert FindByProduct(items, n, p) == prior;
      }
    }
  }

  /** Lines that pass their schema hold at least one unit each. */
  lemma {:induction false} QuantityAtLeastCount(lines: seq<OrderItem>)
    requires forall i :: 0 <= i < |lines| ==> lines[i].Valid()
    ensures QuantityTotal(lines) >= |lines|
  {
    if lines != [] {
      QuantityAtLeastCount(lines[..|lines| - 1]);
    }
  }

  /** A find by order returns no line exactly when no line belongs to the order. */
  lemma {:induction false} FoundNone(items: map<ItemId, OrderItem>, n: nat, o: OrderId)
    ensures FindByOrder(items, n, o) == [] <==> forall k :: 0 <= k < n && k in items ==> items[k].order != o
  {
    if n > 0 {
      FoundNone(items, n - 1, o);
    }
  }

  /** On a consistent database the summary of an existing order reports the order's
      stored total, at least one unit per line, and is "not found" exactly when the
      order has no line. */
  lemma {:induction false} OrderSummaryAgrees(s: State, o: OrderId)
    requires Consistent(s)
    requires o in s.orders
    ensures OrderSummary(s, o).Err? <==> forall k :: k in s.items ==> s.items[k].order != o
    ensures OrderSummary(s, o).Ok? ==> OrderSummary(s, o).value.totalAmount == s.orders[o].total
    ensures OrderSummary(s, o).Ok? ==> OrderSummary(s, o).value.totalQuantity >= OrderSummary(s, o).value.totalItems
  {
    var lines := FindByOrder(s.items, s.nextItem, o);
    FoundNone(s.items, s.nextItem, o);
    FoundAmount(s.items, s.nextItem, o);
    forall i | 0 <= i < |lines| ensures lines[i].Valid() {
      FoundValid(s, o, i);
    }
    QuantityAtLeastCount(lines);
  }

  /** Every line a find by order returns is a stored line. */
  lemma {:induction false} FoundStored(items: map<ItemId, OrderItem>, n: nat, o: OrderId, i: nat)
    requires i < |FindByOrder(items, n, o)|
    ensures exists k :: k in items && items[k] == FindByOrder(items, n, o)[i]
  {
    var prior := FindByOrder(items, n - 1, o);
    if i < |prior| {
      FoundStored(items, n - 1, o, i);
      assert FindByOrder(items, n, o)[i] == prior[i];
    } else {
      assert FindByOrder(items, n, o)[i] == items[n - 1];
    }
  }

  lemma FoundValid(s: State, o: OrderId, i: nat)
    requires Valid(s)
    requires i < |FindByOrder(s.items, s.nextItem, o)|
    ensures FindByOrder(s.items, s.nextItem, o)[i].Valid()
  {
    FoundStored(s.items, s.nextItem, o, i);
  }

  /** A line's weight under "sold" is never below its weight under "held". */
  lemma {:induction false} SoldCoversHeld(items: map<ItemId, OrderItem>, n: nat, p: ProductId, orders: map<OrderId, Order>)
    requires forall k :: k in items ==> items[k].Valid()
    ensures Sum(items, n, Held(p, orders)) <= Sum(items, n, Sold(p))
  {
    if n > 0 {
      SoldCoversHeld(items, n - 1, p, orders);
    }
  }

  /** The sales statistics count the lines of cancelled orders too: the quantity sold
      is never less than what live orders hold of the product. */
  lemma {:induction false} SalesCoverReserved(s: State, p: ProductId)
    requires Valid(s)
    ensures ProductSales(s, p).totalSold >= Reserved(s, p)
  {
    FoundSold(s.items, s.nextItem, p);
    SoldCoversHeld(s.items, s.nextItem, p, s.orders);
  }

  /** Every line a find by product returns below identity `n` is a stored line with a
      smaller identity. */
  lemma {:induction false} FoundProductStored(items: map<ItemId, OrderItem>, n: nat, p: ProductId, i: nat)
    requires i < |FindByProduct(items, n, p)|
    ensures exists k :: 0 <= k < n && k in items && items[k] == FindByProduct(items, n, p)[i]
  {
    var prior := FindByProduct(items, n - 1, p);
    if i < |prior| {
      FoundProductStored(items, n - 1, p, i);
      assert FindByProduct(items, n, p)[i] == prior[i];
    } else {
      assert FindByProduct(items, n, p)[i] == items[n - 1];
    }
  }

  /** With the unique (order, product) index, the lines of one product belong to
      pairwise distinct orders, so their count is the number of orders that contain
      the product. */
  lemma {:induction false} SalesLinesDistinctOrders(items: map<ItemId, OrderItem>, n: nat, p: ProductId)
    requires UniqueLines(items)
    ensures forall i, j :: 0 <= i < j < |FindByProduct(items, n, p)| ==>
      FindByProduct(items, n, p)[i].order != FindByProduct(items, n, p)[j].order
  {
    if n > 0 {
      SalesLinesDistinctOrders(items, n - 1, p);
      var prior := FindByProduct(items, n - 1, p);
      var lines := FindByProduct(items, n, p);
      forall i, j | 0 <= i < j < |lines| ensures lines[i].order != lines[j].order {
        assert lines[i] == prior[i];
        if j >= |prior| {
          FoundProductStored(items, n - 1, p, i);
          var k :| 0 <= k < n - 1 && k in items && items[k] == prior[i];
          assert n - 1 in items && lines[j] == items[n - 1];
          assert items[k].product == p && items[n - 1].product == p && k != n - 1;
          assert items[k].order != items[n - 1].order;
        } else {
          assert lines[j] == prior[j];
          assert prior[i].order != prior[j].order;
        }
      }
    }
  }
}
