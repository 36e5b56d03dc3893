/** What the line-level operations guarantee on a consistent database: every order's
    total stays the sum of its lines, stock plus what live orders hold stays constant,
    and the save of a negative total the code guards against never happens. */
module ItemLaws {
  import opened Models
  import opened StoreState
  import opened OrderItems

  // ---------------------------------------------------------------------------
  // Adding a line

  /** A new line holds the requested quantity at the product's current price; stock
      and the stored order total move by exactly that line, and no other product or
      order changes. */
  lemma {:induction false} AddItemEffect(s: State, o: OrderId, p: ProductId, quantity: int)
    requires Consistent(s)
    requires AddItem(s, o, p, quantity).result.Ok?
    ensures var t := AddItem(s, o, p, quantity).state;
      var k := AddItem(s, o, p, quantity).result.value;
      && k !in s.items && t.items == s.items[k := OrderItem(o, p, quantity, s.products[p].price)]
      && t.products.Keys == s.products.Keys && t.orders.Keys == s.orders.Keys
      && t.products[p] == s.products[p].(stock := s.products[p].stock - quantity)
      && t.orders[o] == s.orders[o].(total := s.orders[o].total + s.products[p].price * quantity)
      && (forall q :: q in s.products && q != p ==> t.products[q] == s.products[q])
      && (forall x :: x in s.orders && x != o ==> t.orders[x] == s.orders[x])
      && OrderAmount(t, o) == OrderAmount(s, o) + s.products[p].price * quantity
      && t.orders[o].total == OrderAmount(t, o)
      && k == s.nextItem && t.nextItem == s.nextItem + 1 && t.nextOrder == s.nextOrder
  {
    var t := AddItem(s, o, p, quantity).state;
    SumInsert(s.items, s.nextItem, OrderItem(o, p, quantity, s.products[p].price), Amount(o));
  }

  lemma {:induction false} AddItemPreservesConsistent(s: State, o: OrderId, p: ProductId, quantity: int)
    requires Consistent(s)
    ensures Consistent(AddItem(s, o, p, quantity).state)
  {
    var t := AddItem(s, o, p, quantity).state;
    if AddItem(s, o, p, quantity).result.Ok? {
      var n := s.nextItem;
      var line := OrderItem(o, p, quantity, s.products[p].price);
      assert s.products[p].Valid();
      forall i, j | i in t.items && j in t.items && i != j
        ensures t.items[i].order != t.items[j].order || t.items[i].product != t.items[j].product
      {
        if i == n {
          assert j in s.items;
        } else if j == n {
          assert i in s.items;
        }
      }
      forall x | x in t.orders ensures t.orders[x].total == OrderAmount(t, x) {
        SumInsert(s.items, n, line, Amount(x));
      }
    }
  }

  lemma {:induction false} AddItemConserves(s: State, o: OrderId, p: ProductId, quantity: int)
    requires Valid(s)
    ensures Conserves(s, AddItem(s, o, p, quantity).state)
  {
    var t := AddItem(s, o, p, quantity).state;
    if AddItem(s, o, p, quantity).result.Ok? {
      var n := s.nextItem;
      var line := OrderItem(o, p, quantity, s.products[p].price);
      forall q | q in s.products ensures t.products[q].stock + Reserved(t, q) == s.products[q].stock + Reserved(s, q) {
        SumInsert(s.items, n, line, Held(q, t.orders));
        HeldByStatus(s.items, t.orders, s.orders, q, n);
      }
    }
  }

  // ---------------------------------------------------------------------------
  // Changing a line's quantity

  /** On a consistent database the new total is never negative, so the guarded save
      never refuses. */
  lemma {:induction false} UpdateItemNeverInternal(s: State, k: ItemId, quantity: int)
    requires Consistent(s)
    ensures UpdateItemQuantity(s, k, quantity).result != Err(Internal)
  {
    if quantity > 0 && k in s.items && s.items[k].order in s.orders {
      var o := s.items[k].order;
      TermAtMostSum(s.items, s.nextItem, k, Amount(o));
    }
  }

  /** On a consistent database a quantity change goes through exactly when the quantity
      is positive, the line, its order and its product exist, the order is open, and
      the change is a decrease or the stock covers the increase. */
  lemma {:induction false} UpdateItemSucceedsIff(s: State, k: ItemId, quantity: int)
    requires Consistent(s)
    ensures UpdateItemQuantity(s, k, quantity).result.Ok? <==>
      && quantity > 0 && k in s.items
      && s.items[k].order in s.orders && !s.orders[s.items[k].order].status.Closed()
      && s.items[k].product in s.products
      && (quantity <= s.items[k].quantity || s.products[s.items[k].product].stock >= quantity - s.items[k].quantity)
  {
    UpdateItemNeverInternal(s, k, quantity);
  }

  /** A successful change moves stock by the difference and both the stored order
      total and the sum over the order's lines by the line's price times the
      difference, keeping the line's price and the order's owner and status; no other
      product or order changes, and no identity is handed out. */
  lemma {:induction false} UpdateItemEffect(s: State, k: ItemId, quantity: int)
    requires Valid(s)
    requires UpdateItemQuantity(s, k, quantity).result.Ok?
    ensures var t := UpdateItemQuantity(s, k, quantity).state;
      var line := s.items[k];
      && line.product in s.products
      && t.products.Keys == s.products.Keys && t.orders.Keys == s.orders.Keys
      && t.products[line.product] == s.products[line.product].(stock := s.products[line.product].stock - (quantity - line.quantity))
      && t.items[k].price == line.price
      && t.orders[line.order] == s.orders[line.order].(total := s.orders[line.order].total + line.price * (quantity - line.quantity))
      && (forall q :: q in s.products && q != line.product ==> t.products[q] == s.products[q])
      && (forall x :: x in s.orders && x != line.order ==> t.orders[x] == s.orders[x])
      && OrderAmount(t, line.order) == OrderAmount(s, line.order) + line.price * (quantity - line.quantity)
      && t.nextOrder == s.nextOrder && t.nextItem == s.nextItem
  {
    var line := s.items[k];
    SumUpdate(s.items, s.nextItem, k, line.(quantity := quantity), Amount(line.order));
  }

  lemma {:induction false} UpdateItemPreservesConsistent(s: State, k: ItemId, quantity: int)
    requires Consistent(s)
    ensures Consistent(UpdateItemQuantity(s, k, quantity).state)
  {
    var t := UpdateItemQuantity(s, k, quantity).state;
    if UpdateItemQuantity(s, k, quantity).result.Ok? {
      var line := s.items[k];
      assert s.products[line.product].Valid();
      forall x | x in t.orders ensures t.orders[x].total == OrderAmount(t, x) {
        SumUpdate(s.items, s.nextItem, k, line.(quantity := quantity), Amount(x));
      }
    }
  }

  lemma {:induction false} UpdateItemConserves(s: State, k: ItemId, quantity: int)
    requires Valid(s)
    ensures Conserves(s, UpdateItemQuantity(s, k, quantity).state)
  {
    var t := UpdateItemQuantity(s, k, quantity).state;
    if UpdateItemQuantity(s, k, quantity).result.Ok? {
      var line := s.items[k];
      forall q | q in s.products ensures t.products[q].stock + Reserved(t, q) == s.products[q].stock + Reserved(s, q) {
        SumUpdate(s.items, s.nextItem, k, line.(quantity := quantity), Held(q, t.orders));
        HeldByStatus(s.items, t.orders, s.orders, q, s.nextItem);
      }
    }
  }

  // ---------------------------------------------------------------------------
  // Removing a line

  lemma {:induction false} RemoveItemNeverInternal(s: State, k: ItemId)
    requires Consistent(s)
    ensures RemoveItem(s, k).result != Err(Internal)
  {
    if k in s.items && s.items[k].order in s.orders {
      TermAtMostSum(s.items, s.nextItem, k, Amount(s.items[k].order));
    }
  }

  /** On a consistent database a removal goes through exactly when the line exists and
      its order exists and is open; a missing product does not stop it. */
  lemma {:induction false} RemoveItemSucceedsIff(s: State, k: ItemId)
    requires Consistent(s)
    ensures RemoveItem(s, k).result.Ok? <==>
      k in s.items && s.items[k].order in s.orders && !s.orders[s.items[k].order].status.Closed()
  {
    RemoveItemNeverInternal(s, k);
  }

  /** A removal gives the line's quantity back to its product when the product still
      exists, and takes exactly the line's amount off both the stored order total and
      the sum over the order's lines; the product keeps its name and price, no other
      product or order changes, and no identity is handed out. */
  lemma {:induction false} RemoveItemEffect(s: State, k: ItemId)
    requires Valid(s)
    requires RemoveItem(s, k).result.Ok?
    ensures var t := RemoveItem(s, k).state;
      var line := s.items[k];
      && t.products.Keys == s.products.Keys
      && (line.product in s.products ==>
            t.products[line.product] == s.products[line.product].(stock := s.products[line.product].stock + line.quantity))
      && (forall q :: q in s.products && q != line.product ==> t.products[q] == s.products[q])
      && t.orders.Keys == s.orders.Keys
      && t.orders[line.order] == s.orders[line.order].(total := s.orders[line.order].total - line.price * line.quantity)
      && (forall x :: x in s.orders && x != line.order ==> t.orders[x] == s.orders[x])
      && OrderAmount(t, line.order) == OrderAmount(s, line.order) - line.price * line.quantity
      && t.nextOrder == s.nextOrder && t.nextItem == s.nextItem
  {
    SumRemove(s.items, s.nextItem, k, Amount(s.items[k].order));
  }

  lemma {:induction false} RemoveItemPreservesConsistent(s: State, k: ItemId)
    requires Consistent(s)
    ensures Consistent(RemoveItem(s, k).state)
  {
    var t := RemoveItem(s, k).state;
    if RemoveItem(s, k).result.Ok? {
      var line := s.items[k];
      forall q | q in t.products ensures t.products[q].Valid() {
        assert s.products[q].Valid();
      }
      forall x | x in t.orders ensures t.orders[x].total == OrderAmount(t, x) {
        SumRemove(s.items, s.nextItem, k, Amount(x));
      }
    }
  }

  lemma {:induction false} RemoveItemConserves(s: State, k: ItemId)
    requires Valid(s)
    ensures Conserves(s, RemoveItem(s, k).state)
  {
    var t := RemoveItem(s, k).state;
    if RemoveItem(s, k).result.Ok? {
      forall q | q in s.products ensures t.products[q].stock + Reserved(t, q) == s.products[q].stock + Reserved(s, q) {
        SumRemove(s.items, s.nextItem, k, Held(q, t.orders));
        HeldByStatus(s.items, t.orders, s.orders, q, s.nextItem);
      }
    }
  }
}
