/** The products, stock and orders tables, and what one guarded statement does to one row of them. */
module Tables {
  datatype Option<+T> = None | Some(value: T)

  type ProductId = nat
  type OrderId = nat
  type CustomerId = nat
  type IntentId = string
  type Time = int

  const MAX_INT32: int := 0x7FFF_FFFF

  /** The CHECK constraint of orders.status. */
  datatype Status = Pending | AwaitingPayment | Completed | Failed | Expired | Cancelled

  /** The interchangeable arms of POST /orders. */
  datatype Arm = Baseline | ReserveLast | Cte

  const LIVE: set<Status> := {Pending, AwaitingPayment}
  const SOLD: set<Status> := {Completed}

  /** `initial` is the quantity the product's stock row was created with. */
  datatype Product = Product(price: int, initial: int)

  datatype Stock = Stock(quantity: int, reserved: int)

  datatype Order = Order(
    customer: CustomerId,
    product: ProductId,
    status: Status,
    total: int,
    createdAt: Time,
    expiresAt: Option<Time>,
    intent: Option<IntentId>)

  datatype Shop = Shop(
    products: map<ProductId, Product>,
    stock: map<ProductId, Stock>,
    orders: map<OrderId, Order>)

  /** The CHECK constraints of the stock table, within the range of its INTEGER columns. */
  predicate StockCheck(row: Stock) {
    0 <= row.reserved <= row.quantity <= MAX_INT32
  }

  /** A unit is left that nobody has reserved: the guard of ReserveStock and ReserveAndCreateOrder. */
  predicate HasFreeUnit(row: Stock) {
    row.quantity - row.reserved > 0
  }

  function TakeUnit(row: Stock): Stock {
    row.(reserved := row.reserved + 1)
  }

  /** Somebody has reserved a unit: the guard of CommitStock and ReleaseStock. */
  predicate HasReservation(row: Stock) {
    row.reserved > 0
  }

  /** CommitStock when the order was completed, ReleaseStock however else it ended; `n` of them. */
  function Settle(row: Stock, to: Status, n: nat): Stock {
    if to == Completed then Stock(row.quantity - n, row.reserved - n)
    else row.(reserved := row.reserved - n)
  }

  /** The status guards of CompleteOrder, FailOrder, CancelPendingOrder and ExpireOrders. */
  predicate MayEnd(from: Status, to: Status) {
    match to
    case Completed => from == AwaitingPayment
    case Failed => from == AwaitingPayment
    case Cancelled => from == Pending
    case Expired => from in LIVE
    case _ => false
  }

  datatype Verdict = NothingOwed | RefundOwed(status: Status)

  /** What a successful payment means for an order CompleteOrder refused. */
  function ClassifyUnfulfillable(status: Status): Verdict {
    match status
    case Completed => NothingOwed
    case Expired | Cancelled => RefundOwed(status)
    case Failed => RefundOwed(status)
    case Pending | AwaitingPayment => RefundOwed(status)
  }

  /** The row has an expiry and it has passed. */
  predicate Overdue(row: Order, now: Time) {
    row.expiresAt.Some? && row.expiresAt.value < now
  }

  function NewOrder(customer: CustomerId, p: ProductId, total: int, now: Time, expiresAt: Time): Order {
    Order(customer, p, Pending, total, now, Some(expiresAt), None)
  }

  /** The orders of product `p` whose status is one of `statuses`. */
  function OrdersIn(orders: map<OrderId, Order>, p: ProductId, statuses: set<Status>): set<OrderId> {
    set o | o in orders && orders[o].product == p && orders[o].status in statuses
  }

  /** Whether the row is one that OrdersIn collects. */
  predicate Counts(row: Order, p: ProductId, statuses: set<Status>) {
    row.product == p && row.status in statuses
  }

  /** How many orders of the product are in one of the statuses. */
  function Count(orders: map<OrderId, Order>, p: ProductId, statuses: set<Status>): nat {
    |OrdersIn(orders, p, statuses)|
  }

  /** Writing one order row moves each count by what that row contributes. */
  lemma CountAfterWrite(orders: map<OrderId, Order>, o: OrderId, row: Order, p: ProductId, statuses: set<Status>)
    ensures Count(orders[o := row], p, statuses)
         == Count(orders, p, statuses)
            - (if o in orders && Counts(orders[o], p, statuses) then 1 else 0)
            + (if Counts(row, p, statuses) then 1 else 0)
  {
    var before, after := OrdersIn(orders, p, statuses), OrdersIn(orders[o := row], p, statuses);
    OnlyThatRowMoves(orders, o, row, p, statuses);
    SizeWithOne(before, before - {o}, o);
    SizeWithOne(after, before - {o}, o);
  }

  lemma OnlyThatRowMoves(orders: map<OrderId, Order>, o: OrderId, row: Order, p: ProductId, statuses: set<Status>)
    ensures OrdersIn(orders[o := row], p, statuses) - {o} == OrdersIn(orders, p, statuses) - {o}
    ensures o in OrdersIn(orders[o := row], p, statuses) <==> Counts(row, p, statuses)
  {
  }

  lemma SizeWithOne<T>(all: set<T>, others: set<T>, x: T)
    requires x !in others && all - {x} == others
    ensures |all| == |others| + if x in all then 1 else 0
  {
    if x in all {
      assert all == others + {x};
    } else {
      assert all == others;
    }
  }

  /** Among finitely many keys one is least, so a first row exists whenever there is a row. */
  lemma {:induction false} LeastExists<T>(keys: map<T, int>)
    requires keys != map[]
    ensures exists x :: x in keys && forall y :: y in keys ==> keys[x] <= keys[y]
    decreases |keys|
  {
    var x :| x in keys;
    var rest := map y | y in keys && y != x :: keys[y];
    assert rest.Keys == keys.Keys - {x};
    if rest == map[] {
      assert forall y :: y in keys && y != x ==> y in rest;
    } else {
      LeastExists(rest);
      var least :| least in rest && forall y :: y in rest ==> rest[least] <= rest[y];
      var m := if keys[x] <= keys[least] then x else least;
      assert forall y :: y in keys ==> y == x || y in rest;
      assert m in keys && forall y :: y in keys ==> keys[m] <= keys[y];
    }
  }

  lemma {:induction false} LongestString(strings: set<string>) returns (bound: nat)
    ensures forall s :: s in strings ==> |s| <= bound
  {
    if strings == {} {
      bound := 0;
    } else {
      var s :| s in strings;
      var rest := LongestString(strings - {s});
      bound := rest + |s|;
    }
  }

  /** There is always one more name. */
  lemma FreshString(used: set<string>) returns (unused: string)
    ensures unused != "" && unused !in used
  {
    var bound := LongestString(used);
    unused := seq(bound + 1, i => 'a');
  }

  /** Reads an order through its payment intent, as FindOrderByPaymentIntentID does. */
  ghost function FindByIntent(orders: map<OrderId, Order>, intent: IntentId): (r: Option<OrderId>)
    ensures r.Some? ==> r.value in orders && orders[r.value].intent == Some(intent)
    ensures r.None? ==> forall o :: o in orders ==> orders[o].intent != Some(intent)
  {
    if o :| o in orders && orders[o].intent == Some(intent) then
      Some(o)
    else
      None
  }
}
