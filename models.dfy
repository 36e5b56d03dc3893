/** The three document schemas the order/stock core reads and writes
    (products, orders, order lines), their validators, and the outcome
    type every core operation returns. */
module Models {

  type ProductId = nat
  type OrderId = nat
  type ItemId = nat
  type UserId = nat

  datatype Option<T> = None | Some(value: T) {
    function GetOr(default: T): T {
      match this
      case Some(v) => v
      case None => default
    }
  }

  /** The five order states of the order schema's enum. */
  datatype Status = Pending | Processing | Shipped | Delivered | Cancelled {
    function Name(): string {
      match this
      case Pending => "pending"
      case Processing => "processing"
      case Shipped => "shipped"
      case Delivered => "delivered"
      case Cancelled => "cancelled"
    }

    /** Orders in these states refuse any change to their lines. */
    predicate Closed() {
      this == Delivered || this == Cancelled
    }
  }

  /** The status a new order takes when none is given. */
  const DefaultStatus: Status := Pending

  /** The list of accepted status names, in the order the status update checks them. */
  const StatusNames: seq<string> := ["pending", "processing", "shipped", "delivered", "cancelled"]

  /** Reads a status name as sent by a client; anything outside the five names is refused. */
  function ParseStatus(name: string): (r: Option<Status>)
    ensures r.Some? <==> name in StatusNames
    ensures r.Some? ==> r.value.Name() == name
  {
    if name == "pending" then Some(Pending)
    else if name == "processing" then Some(Processing)
    else if name == "shipped" then Some(Shipped)
    else if name == "delivered" then Some(Delivered)
    else if name == "cancelled" then Some(Cancelled)
    else None
  }

  lemma ParseName(st: Status)
    ensures st.Name() in StatusNames
    ensures ParseStatus(st.Name()) == Some(st)
  {
  }

  /** A catalog entry; prices are integer cents. */
  datatype Product = Product(name: string, price: int, stock: int) {
    predicate Valid() {
      1 <= |name| <= 200 && price >= 0 && stock >= 0
    }
  }

  /** An order header. The owner is a plain identity, never checked against a user store. */
  datatype Order = Order(user: UserId, total: int, status: Status) {
    predicate Valid() {
      total >= 0
    }
  }

  /** One order line: a quantity of one product at the price read when the line was written. */
  datatype OrderItem = OrderItem(order: OrderId, product: ProductId, quantity: int, price: int) {
    predicate Valid() {
      quantity >= 1 && price >= 0
    }
  }

  /** Builds a product document the way the product schema does: a missing stock takes
      the default 0, and the document is refused when a constraint fails. */
  function NewProduct(name: string, price: int, stock: Option<int>): (r: Option<Product>)
    ensures r.Some? <==> 1 <= |name| <= 200 && price >= 0 && stock.GetOr(0) >= 0
    ensures r.Some? ==> r.value.Valid() && r.value.name == name && r.value.price == price
    ensures r.Some? && stock.None? ==> r.value.stock == 0
    ensures r.Some? && stock.Some? ==> r.value.stock == stock.value
  {
    var p := Product(name, price, stock.GetOr(0));
    if p.Valid() then Some(p) else None
  }

  /** Builds an order document: the owner is required, the total may not be negative,
      and a missing status takes the default. */
  function NewOrder(user: Option<UserId>, total: int, status: Option<Status>): (r: Option<Order>)
    ensures r.Some? <==> user.Some? && total >= 0
    ensures r.Some? ==> r.value.Valid() && r.value.user == user.value && r.value.total == total
    ensures r.Some? && status.None? ==> r.value.status == Pending
    ensures r.Some? && status.Some? ==> r.value.status == status.value
  {
    if user.Some? && total >= 0 then Some(Order(user.value, total, status.GetOr(DefaultStatus)))
    else None
  }

  /** Builds an order-line document: quantity at least one, price not negative. */
  function NewItem(order: OrderId, product: ProductId, quantity: int, price: int): (r: Option<OrderItem>)
    ensures r.Some? <==> quantity >= 1 && price >= 0
    ensures r.Some? ==> r.value.Valid() && r.value == OrderItem(order, product, quantity, price)
  {
    var it := OrderItem(order, product, quantity, price);
    if it.Valid() then Some(it) else None
  }

  /** Which record a "not found" failure is about. */
  datatype Entity = ProductDoc | OrderDoc | ItemDoc

  /** Why a request was refused on business grounds. */
  datatype Refusal = InsufficientStock | DuplicateLine | OrderClosed | AlreadyCancelled | AlreadyDelivered

  /** The four failure classes of the core: validation, not-found, conflict, internal. */
  datatype ErrorKind = Validation | NotFound(entity: Entity) | Conflict(reason: Refusal) | Internal

  datatype Result<T> = Ok(value: T) | Err(error: ErrorKind)
}
