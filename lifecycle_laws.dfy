/** What changing an order's life cycle does to stock: cancellation gives back what
    the order held and conserves stock; deletion and an unguarded status change keep
    the database consistent but move the reserved quantity without moving stock. */
module LifecycleLaws {
  import opened Models
  import opened StoreState
  import opened Orders

  // ---------------------------------------------------------------------------
  // Sums over the lines of one order

  /** Restoring the lines a find by order returns gives back, product by product,
      the quantity the order holds. */
  lemma {:induction false} FoundQuantity(items: map<ItemId, OrderItem>, n: nat, o: OrderId, p: ProductId)
    ensures LinesQuantity(FindByOrder(items, n, o), p) == Sum(items, n, Ordered(o, p))
  {
    if n > 0 {
      FoundQuantity(items, n - 1, o, p);
      var prior := FindByOrder(items, n - 1, o);
      if n - 1 in items && items[n - 1].order == o {
        assert FindByOrder(items, n, o)[..|prior|] == prior;
      } else {
        assert FindByOrder(items, n, o) == prior;
      }
    }
  }

  /** Setting the status of order `o` to `st` moves the quantity of `p` the order holds
      into the reserved sum when it leaves the cancelled state, and out of it when it
      enters it. */
  lemma {:induction false} StatusChangeHeld(items: map<ItemId, OrderItem>, orders: map<OrderId, Order>, o: OrderId,
                                            st: Status, p: ProductId, n: nat)
    requires o in orders
    ensures var q := Sum(items, n, Ordered(o, p));
      Sum(items, n, Held(p, orders[o := orders[o].(status := st)]))
        == Sum(items, n, Held(p, orders))
           + (if orders[o].status == Cancelled then q else 0) - (if st == Cancelled then q else 0)
  {
    var after := orders[o := orders[o].(status := st)];
    var was := orders[o].status == Cancelled;
    var now := st == Cancelled;
    if was == now {
      SumAgree(items, Held(p, after), items, Held(p, orders), n);
    } else if now {
      SumSplit(items, Held(p, orders), items, Held(p, after), items, Ordered(o, p), n);
    } else {
      SumSplit(items, Held(p, after), items, Held(p, orders), items, Ordered(o, p), n);
    }
  }

  /** Lines of a valid database hold a non-negative quantity of every product. */
  lemma {:induction false} OrderedNonNegative(s: State, o: OrderId, p: ProductId)
    requires Valid(s)
    ensures OrderedQuantity(s, o, p) >= 0
  {
    SumNonNegative(s.items, s.nextItem, Ordered(o, p));
  }

  // ---------------------------------------------------------------------------
  // Cancellation

  /** A cancellation gives each product back the quantity the order holds of it, and
      that quantity stops being reserved. */
  lemma {:induction false} CancelOrderMoves(s: State, o: OrderId, p: ProductId)
    requires CancelOrder(s, o).result.Ok?
    ensures var t := CancelOrder(s, o).state;
      && t.items == s.items && t.nextItem == s.nextItem && t.nextOrder == s.nextOrder
      && (p in s.products ==> t.products[p].stock == s.products[p].stock + OrderedQuantity(s, o, p))
      && Reserved(t, p) == Reserved(s, p) - OrderedQuantity(s, o, p)
  {
    FoundQuantity(s.items, s.nextItem, o, p);
    StatusChangeHeld(s.items, s.orders, o, Cancelled, p, s.nextItem);
  }

  /** Cancellation conserves stock. */
  lemma {:induction false} CancelOrderConserves(s: State, o: OrderId)
    ensures Conserves(s, CancelOrder(s, o).state)
  {
    var t := CancelOrder(s, o).state;
    if CancelOrder(s, o).result.Ok? {
      forall p | p in s.products ensures t.products[p].stock + Reserved(t, p) == s.products[p].stock + Reserved(s, p) {
        CancelOrderMoves(s, o, p);
      }
    }
  }

  lemma {:induction false} CancelOrderPreservesConsistent(s: State, o: OrderId)
    requires Consistent(s)
    ensures Consistent(CancelOrder(s, o).state)
  {
    var t := CancelOrder(s, o).state;
    if CancelOrder(s, o).result.Ok? {
      forall p | p in t.products ensures t.products[p].Valid() {
        CancelOrderMoves(s, o, p);
        OrderedNonNegative(s, o, p);
        assert s.products[p].Valid();
      }
      forall x | x in t.orders ensures t.orders[x].total == OrderAmount(t, x) {
        assert OrderAmount(t, x) == OrderAmount(s, x);
      }
    }
  }

  // ---------------------------------------------------------------------------
  // Deletion

  /** Deletion takes the lines of the order out of the reserved sum (they held nothing
      once the order was cancelled) while leaving stock where it was. */
  lemma {:induction false} DeleteOrderReserved(s: State, o: OrderId, p: ProductId)
    requires DeleteOrder(s, o).result.Ok?
    ensures DeleteOrder(s, o).state.products == s.products
    ensures Reserved(DeleteOrder(s, o).state, p)
      == Reserved(s, p) - (if s.orders[o].status == Cancelled then 0 else OrderedQuantity(s, o, p))
  {
    var t := DeleteOrder(s, o).state;
    var n := s.nextItem;
    if s.orders[o].status == Cancelled {
      forall k | 0 <= k < n ensures Term(t.items, k, Held(p, t.orders)) == Term(s.items, k, Held(p, s.orders)) {
      }
      SumAgree(t.items, Held(p, t.orders), s.items, Held(p, s.orders), n);
    } else {
      forall k | 0 <= k < n
        ensures Term(s.items, k, Held(p, s.orders)) == Term(t.items, k, Held(p, t.orders)) + Term(s.items, k, Ordered(o, p))
      {
      }
      SumSplit(s.items, Held(p, s.orders), t.items, Held(p, t.orders), s.items, Ordered(o, p), n);
    }
  }

  /** Deletion conserves stock exactly when the order was cancelled or holds nothing of
      any product still in the catalog: deleting a live order with such lines loses
      their quantity for good. */
  lemma {:induction false} DeleteOrderConservesIff(s: State, o: OrderId)
    requires DeleteOrder(s, o).result.Ok?
    ensures Conserves(s, DeleteOrder(s, o).state)
      <==> s.orders[o].status == Cancelled || forall p :: p in s.products ==> OrderedQuantity(s, o, p) == 0
  {
    forall p {
      DeleteOrderReserved(s, o, p);
    }
  }

  lemma {:induction false} DeleteOrderPreservesConsistent(s: State, o: OrderId)
    requires Consistent(s)
    ensures Consistent(DeleteOrder(s, o).state)
  {
    var t := DeleteOrder(s, o).state;
    if DeleteOrder(s, o).result.Ok? {
      forall x | x in t.orders ensures t.orders[x].total == OrderAmount(t, x) {
        forall k | 0 <= k < s.nextItem ensures Term(t.items, k, Amount(x)) == Term(s.items, k, Amount(x)) {
        }
        SumAgree(t.items, Amount(x), s.items, Amount(x), s.nextItem);
      }
    }
  }

  /** One pending order of three mugs, deleted: the three mugs leave the reserved sum
      but never come back to stock. */
  lemma DeletingPendingOrderLosesStock()
    ensures var s := State(map[0 := Product("mug", 5, 7)], map[0 := Order(1, 15, Pending)],
                           map[0 := OrderItem(0, 0, 3, 5)], 1, 1);
      && Consistent(s)
      && DeleteOrder(s, 0).result.Ok?
      && DeleteOrder(s, 0).state.products[0].stock + Reserved(DeleteOrder(s, 0).state, 0)
         == s.products[0].stock + Reserved(s, 0) - 3
  {
    var s := State(map[0 := Product("mug", 5, 7)], map[0 := Order(1, 15, Pending)],
                   map[0 := OrderItem(0, 0, 3, 5)], 1, 1);
    assert OrderedQuantity(s, 0, 0) == 3;
    assert OrderAmount(s, 0) == 15;
    DeleteOrderReserved(s, 0, 0);
  }

  // ---------------------------------------------------------------------------
  // Status update

  /** A status update leaves stock alone, so the quantity the order holds enters the
      reserved sum when the order leaves the cancelled state and leaves it when the
      order is set to cancelled. */
  lemma {:induction false} UpdateStatusReserved(s: State, o: OrderId, name: string, p: ProductId)
    requires UpdateOrderStatus(s, o, name).result.Ok?
    ensures var t := UpdateOrderStatus(s, o, name).state;
      var q := OrderedQuantity(s, o, p);
      && t.products == s.products
      && Reserved(t, p) == Reserved(s, p)
           + (if s.orders[o].status == Cancelled then q else 0) - (if t.orders[o].status == Cancelled then q else 0)
  {
    var st := UpdateOrderStatus(s, o, name).result.value.status;
    StatusChangeHeld(s.items, s.orders, o, st, p, s.nextItem);
  }

  /** A status update conserves stock exactly when it does not move the order into or
      out of the cancelled state, or the order holds nothing of any product still in
      the catalog. */
  lemma {:induction false} UpdateStatusConservesIff(s: State, o: OrderId, name: string)
    requires UpdateOrderStatus(s, o, name).result.Ok?
    ensures var t := UpdateOrderStatus(s, o, name).state;
      Conserves(s, t) <==>
        (s.orders[o].status == Cancelled) == (t.orders[o].status == Cancelled)
        || forall p :: p in s.products ==> OrderedQuantity(s, o, p) == 0
  {
    forall p {
      UpdateStatusReserved(s, o, name, p);
    }
  }

  lemma {:induction false} UpdateStatusPreservesConsistent(s: State, o: OrderId, name: string)
    requires Consistent(s)
    ensures Consistent(UpdateOrderStatus(s, o, name).state)
  {
    var t := UpdateOrderStatus(s, o, name).state;
    forall x | x in t.orders ensures t.orders[x].total == OrderAmount(t, x) {
      assert OrderAmount(t, x) == OrderAmount(s, x);
    }
  }

  /** Cancel, reopen through a status update, cancel again: the order's quantities come
      back to stock twice, so stock plus reserved grows by what the order holds. */
  lemma {:induction false} ReopenThenCancelRestoresTwice(s: State, o: OrderId, p: ProductId)
    requires p in s.products
    requires CancelOrder(s, o).result.Ok?
    ensures var t1 := CancelOrder(s, o).state;
      var t2 := UpdateOrderStatus(t1, o, "pending").state;
      var t3 := CancelOrder(t2, o);
      && UpdateOrderStatus(t1, o, "pending").result.Ok?
      && t3.result.Ok?
      && t3.state.products[p].stock == s.products[p].stock + 2 * OrderedQuantity(s, o, p)
      && t3.state.products[p].stock + Reserved(t3.state, p) == s.products[p].stock + Reserved(s, p) + OrderedQuantity(s, o, p)
  {
    var t1 := CancelOrder(s, o).state;
    CancelOrderMoves(s, o, p);
    var t2 := UpdateOrderStatus(t1, o, "pending").state;
    UpdateStatusReserved(t1, o, "pending", p);
    assert OrderedQuantity(t2, o, p) == OrderedQuantity(s, o, p);
    CancelOrderMoves(t2, o, p);
  }
}
