/** A worked example, played on the step functions: one product with stock 10 at
    price 5, an order of three, a refused duplicate line, a quantity change, a removal
    and a cancellation; and orders beyond the stock and of zero units. */
module Scenarios {
  import opened Models
  import opened StoreState
  import opened Orders
  import opened OrderItems

  function Widget(stock: int): Product {
    Product("widget", 5, stock)
  }

  /** The catalog before any order. */
  function Start(): State {
    State(map[0 := Widget(10)], map[], map[], 0, 0)
  }

  /** An order for three widgets, total 15. */
  function Ordered3(): State {
    State(map[0 := Widget(7)], map[0 := Order(1, 15, Pending)], map[0 := OrderItem(0, 0, 3, 5)], 1, 1)
  }

  /** The line raised to five, total 25. */
  function Ordered5(): State {
    State(map[0 := Widget(5)], map[0 := Order(1, 25, Pending)], map[0 := OrderItem(0, 0, 5, 5)], 1, 1)
  }

  /** The line removed, total 0. */
  function Emptied(): State {
    State(map[0 := Widget(10)], map[0 := Order(1, 0, Pending)], map[], 1, 1)
  }

  /** Reserving three of the ten widgets leaves seven and prices the line at 5. */
  lemma CreateReservesExample()
    ensures Reserve(Reservation(Start().products, 0, []), [LineRequest(0, 3)])
      == Ok(Reservation(map[0 := Widget(7)], 15, [Priced(0, 3, 5)]))
  {
    assert [LineRequest(0, 3)][1..] == [];
    assert Start().products[0 := Widget(10).(stock := 10 - 3)] == map[0 := Widget(7)];
    assert [] + [Priced(0, 3, 5)] == [Priced(0, 3, 5)];
  }

  /** The priced line becomes item 0 of order 0. */
  lemma CreateInsertsExample()
    ensures Insertable(map[], 0, [Priced(0, 3, 5)])
    ensures map[] + NewLines(0, 0, [Priced(0, 3, 5)]) == map[0 := OrderItem(0, 0, 3, 5)]
  {
    assert [Priced(0, 3, 5)][..0] == [];
  }

  lemma CreateExample()
    ensures CreateOrder(Start(), Some(1), [LineRequest(0, 3)]) == Step(Ok(0), Ordered3())
  {
    CreateReservesExample();
    CreateInsertsExample();
  }

  lemma OversellExample()
    ensures CreateOrder(Start(), Some(1), [LineRequest(0, 20)]) == Step(Err(Conflict(InsufficientStock)), Start())
  {
  }

  /** A line of zero units passes the stock check but not the line schema. */
  lemma ZeroQuantityExample()
    ensures CreateOrder(Start(), Some(1), [LineRequest(0, 0)]) == Step(Err(Internal), Start())
  {
    var lines := [Priced(0, 0, 5)];
    assert NewItem(0, 0, 0, 5).None?;
    assert Reserve(Reservation(Start().products, 0, []), [LineRequest(0, 0)]) == Ok(Reservation(Start().products, 0, lines)) by {
      assert [LineRequest(0, 0)][1..] == [];
      assert Start().products[0 := Widget(10).(stock := 10 - 0)] == Start().products;
      assert [] + [Priced(0, 0, 5)] == lines;
    }
  }

  lemma DuplicateExample()
    ensures AddItem(Ordered3(), 0, 0, 2) == Step(Err(Conflict(DuplicateLine)), Ordered3())
  {
    assert Ordered3().items[0].order == 0;
  }

  lemma UpdateExample()
    ensures UpdateItemQuantity(Ordered3(), 0, 5) == Step(Ok(OrderItem(0, 0, 5, 5)), Ordered5())
  {
  }

  lemma RemoveExample()
    ensures RemoveItem(Ordered5(), 0) == Step(Ok(()), Emptied())
  {
    assert Ordered5().items - {0} == map[];
  }

  lemma CancelExample()
    ensures CancelOrder(Emptied(), 0) == Step(Ok(Order(1, 0, Cancelled)), Emptied().(orders := map[0 := Order(1, 0, Cancelled)]))
  {
    assert FindByOrder(Emptied().items, 1, 0) == [];
  }
}
