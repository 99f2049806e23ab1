/**
 * The connection to PostgreSQL as the Go code uses it: one method per query, transactions with
 * rollback, and statements that may fail for reasons of their own unless the store is `reliable`.
 */
module Store {
  import opened Tables
  import opened Lifecycle
  import opened Customers

  datatype DbError = NoRows | UniqueViolated | CheckViolated | Aborted | Lost

  datatype Result<+T> = Ok(value: T) | Err(error: DbError)

  datatype Db = Db(shop: Shop, customers: CustomerTable, nextOrder: OrderId, nextCustomer: CustomerId)

  /** Every constraint of the three tables, and sequences that are past every id in use. */
  ghost predicate Consistent(t: Db) {
    Inv(t.shop) && Unique(t.customers) && Owned(t) &&
    (forall o :: o in t.shop.orders ==> o < t.nextOrder) && (forall c :: c in t.customers ==> c < t.nextCustomer)
  }

  /** The foreign key from orders to customers. */
  predicate Owned(t: Db) {
    forall o :: o in t.shop.orders ==> t.shop.orders[o].customer in t.customers
  }

  /** An order joined with the customer it belongs to. */
  datatype Joined = Joined(id: OrderId, order: Order, owner: Customer)

  function Join(t: Db, o: OrderId): Result<Joined> {
    if o in t.shop.orders && t.shop.orders[o].customer in t.customers then
      Ok(Joined(o, t.shop.orders[o], t.customers[t.shop.orders[o].customer]))
    else Err(NoRows)
  }

  ghost function JoinByIntent(t: Db, intent: IntentId): Result<Joined> {
    var found := FindByIntent(t.shop.orders, intent);
    if found.Some? then Join(t, found.value) else Err(NoRows)
  }

  /** A rollback restores every row and no sequence. */
  function Restored(saved: Db, t: Db): Db {
    saved.(nextOrder := t.nextOrder, nextCustomer := t.nextCustomer)
  }

  // ---- The statements, as functions of the tables they run on -----------------------------

  type Ran<T> = (Db, Result<T>)

  function WriteStock(db: Db, p: ProductId, row: Stock): Ran<Stock> {
    if StockCheck(row) then (db.(shop := db.shop.(stock := db.shop.stock[p := row])), Ok(row)) else (db, Err(CheckViolated))
  }

  function ReserveStockSql(db: Db, p: ProductId): Ran<Stock> {
    if p in db.shop.stock && HasFreeUnit(db.shop.stock[p]) then WriteStock(db, p, TakeUnit(db.shop.stock[p])) else (db, Err(NoRows))
  }

  /** CommitStock for a completed order, ReleaseStock for any other end. */
  function SettleStockSql(db: Db, p: ProductId, to: Status): Ran<Stock> {
    if p in db.shop.stock && HasReservation(db.shop.stock[p]) then WriteStock(db, p, Settle(db.shop.stock[p], to, 1)) else (db, Err(NoRows))
  }

  function WriteOrder(db: Db, o: OrderId, row: Order): Ran<Order> {
    (db.(shop := db.shop.(orders := db.shop.orders[o := row])), Ok(row))
  }

  /** CompleteOrder, FailOrder and CancelPendingOrder. */
  function EndOrderSql(db: Db, o: OrderId, to: Status): Ran<Order> {
    if o in db.shop.orders && MayEnd(db.shop.orders[o].status, to) then WriteOrder(db, o, db.shop.orders[o].(status := to))
    else (db, Err(NoRows))
  }

  function MarkAwaitingSql(db: Db, o: OrderId, intent: IntentId, expiresAt: Time): Ran<Order> {
    if o !in db.shop.orders || db.shop.orders[o].status != Pending then (db, Err(NoRows))
    else if !IntentFree(db.shop.orders, intent) then (db, Err(UniqueViolated))
    else WriteOrder(db, o, db.shop.orders[o].(status := AwaitingPayment, intent := Some(intent), expiresAt := Some(expiresAt)))
  }

  function CreateOrderSql(db: Db, customer: CustomerId, p: ProductId, total: int, now: Time, expiresAt: Time): Ran<OrderId> {
    var next := db.(nextOrder := db.nextOrder + 1);
    if customer !in db.customers || p !in db.shop.products then (next, Err(CheckViolated))
    else (WriteOrder(next, db.nextOrder, NewOrder(customer, p, total, now, expiresAt)).0, Ok(db.nextOrder))
  }

  /** The single statement of the cte arm: reserve, snapshot the price, insert; nothing of it on zero rows. */
  function ReserveAndCreateOrderSql(db: Db, customer: CustomerId, p: ProductId, now: Time, expiresAt: Time): Ran<OrderId> {
    var reserved := ReserveStockSql(db, p);
    if reserved.1.Err? then (db, Err(reserved.1.error))
    else if p !in db.shop.products then (db, Err(NoRows))
    else
      var inserted := CreateOrderSql(reserved.0, customer, p, db.shop.products[p].price, now, expiresAt);
      if inserted.1.Err? then (db.(nextOrder := db.nextOrder + 1), inserted.1) else inserted
  }

  function UpdateEmailSql(db: Db, c: CustomerId, email: string): Ran<CustomerId> {
    if c !in db.customers then (db, Err(NoRows))
    else if exists i :: i in db.customers && i != c && db.customers[i].email == email then (db, Err(UniqueViolated))
    else (db.(customers := db.customers[c := db.customers[c].(email := email)]), Ok(c))
  }

  ghost function LinkCustomerSql(db: Db, email: string, sub: Option<string>): Ran<CustomerId> {
    match Upsert(db.customers, db.nextCustomer, email, sub)
    case Row(cs, id) => (db.(customers := cs, nextCustomer := db.nextCustomer + 1), Ok(id))
    case Refused(_) => (db.(nextCustomer := db.nextCustomer + 1), Err(UniqueViolated))
  }

  predicate ExpirableAt(orders: map<OrderId, Order>, now: Time, o: OrderId) {
    o in orders && MayEnd(orders[o].status, Expired) && Overdue(orders[o], now)
  }

  /** At most `n` overdue live orders, those that expired earliest, ties broken either way. */
  ghost predicate Picked(orders: map<OrderId, Order>, now: Time, n: int, ids: seq<OrderId>) {
    Distinct(ids) && |ids| <= n && (forall o :: o in ids ==> ExpirableAt(orders, now, o)) &&
    forall o :: ExpirableAt(orders, now, o) && o !in ids ==>
      |ids| == n && forall c :: c in ids ==> orders[c].expiresAt.value <= orders[o].expiresAt.value
  }

  function ExpireRows(orders: map<OrderId, Order>, ids: seq<OrderId>): map<OrderId, Order> {
    map o | o in orders :: if o in ids then orders[o].(status := Expired) else orders[o]
  }

  function ExpireSql(db: Db, ids: seq<OrderId>): Ran<seq<ProductId>>
    requires forall o :: o in ids ==> o in db.shop.orders
  {
    (db.(shop := db.shop.(orders := ExpireRows(db.shop.orders, ids))), Ok(seq(|ids|, i requires 0 <= i < |ids| => db.shop.orders[ids[i]].product)))
  }

  lemma EarliestExists(orders: map<OrderId, Order>, rest: set<OrderId>)
    requires rest != {} && forall o :: o in rest ==> o in orders && orders[o].expiresAt.Some?
    ensures exists o :: o in rest && forall q :: q in rest ==> orders[o].expiresAt.value <= orders[q].expiresAt.value
  {
    var expiries := map o | o in rest :: orders[o].expiresAt.value;
    assert expiries.Keys == rest;
    LeastExists(expiries);
    var o :| o in expiries && forall q :: q in expiries ==> expiries[o] <= expiries[q];
    assert forall q :: q in rest ==> expiries[o] <= expiries[q];
  }

  // ---- What the statements promise each other ---------------------------------------------

  ghost function ReserveTimes(db: Db, p: ProductId, n: nat): Db {
    if n == 0 then db else ReserveStockSql(ReserveTimes(db, p, n - 1), p).0
  }

  /** A product can be reserved exactly as often as it has free units, and then no more. */
  lemma {:induction false} ReservesRunOut(db: Db, p: ProductId, n: nat)
    requires Consistent(db) && p in db.shop.stock && n <= db.shop.stock[p].quantity - db.shop.stock[p].reserved
    ensures var row, after := db.shop.stock[p], ReserveTimes(db, p, n);
      after == db.(shop := db.shop.(stock := db.shop.stock[p := row.(reserved := row.reserved + n)])) &&
      (ReserveStockSql(after, p).1.Ok? <==> n < row.quantity - row.reserved)
  {
    assert Accounted(db.shop, p);
    if n == 0 {
      assert db.shop.stock == db.shop.stock[p := db.shop.stock[p]];
    } else {
      ReservesRunOut(db, p, n - 1);
    }
  }

  /** A reservation ends in one of two ways: released it never was, committed it takes its unit along. */
  lemma SettlingEndsReservation(db: Db, p: ProductId, to: Status)
    requires Consistent(db) && ReserveStockSql(db, p).1.Ok?
    ensures var settled := SettleStockSql(ReserveStockSql(db, p).0, p, to);
      settled.1.Ok? &&
      (to != Completed ==> settled.0 == db) &&
      (to == Completed ==> settled.0.shop.stock == db.shop.stock[p := Stock(db.shop.stock[p].quantity - 1, db.shop.stock[p].reserved)])
  {
    assert Accounted(db.shop, p);
    assert db.shop.stock == db.shop.stock[p := db.shop.stock[p]];
  }

  /** However an order ends, nothing can end it again or take it through checkout. */
  lemma OneEndingWins(db: Db, o: OrderId, to: Status, again: Status, intent: IntentId, expiresAt: Time)
    requires EndOrderSql(db, o, to).1.Ok?
    ensures var ended := EndOrderSql(db, o, to).0;
      EndOrderSql(ended, o, again) == (ended, Err(NoRows)) && MarkAwaitingSql(ended, o, intent, expiresAt) == (ended, Err(NoRows))
  {
  }

  /** The order is found again through its intent; it takes no second intent, and no other order takes this one. */
  lemma IntentLeadsBack(db: Db, o: OrderId, intent: IntentId, expiresAt: Time, o': OrderId, intent': IntentId)
    requires Consistent(db) && MarkAwaitingSql(db, o, intent, expiresAt).1.Ok?
    ensures var marked := MarkAwaitingSql(db, o, intent, expiresAt).0;
      FindByIntent(marked.shop.orders, intent) == Some(o) && JoinByIntent(marked, intent).Ok? &&
      MarkAwaitingSql(marked, o, intent', expiresAt).1 == Err(NoRows) &&
      MarkAwaitingSql(marked, o', intent, expiresAt).1.Err?
  {
    var marked := MarkAwaitingSql(db, o, intent, expiresAt).0;
    assert marked.shop.orders[o].intent == Some(intent);
  }

  /** An id is new, and once drawn it is gone: not even a rollback makes it available again. */
  lemma IdsAreBurnt(db: Db, customer: CustomerId, p: ProductId, total: int, now: Time, expiresAt: Time)
    requires Consistent(db)
    ensures var first := CreateOrderSql(db, customer, p, total, now, expiresAt);
      var second := CreateOrderSql(Restored(db, first.0), customer, p, total, now, expiresAt);
      (first.1.Ok? ==> first.1.value !in db.shop.orders && second.1.Ok? && second.1.value != first.1.value) &&
      (first.1.Err? ==> first.0.shop == db.shop) && db.nextOrder < first.0.nextOrder < second.0.nextOrder
  {
  }

  /** The single statement is the two statements in either order; where one of them fails it leaves every row alone. */
  lemma OneStatementIsTwo(db: Db, customer: CustomerId, p: ProductId, now: Time, expiresAt: Time)
    requires Consistent(db)
    ensures var one := ReserveAndCreateOrderSql(db, customer, p, now, expiresAt);
      one.1.Err? ==> one.0.shop == db.shop && one.0.customers == db.customers
    ensures p in db.shop.products ==>
      var one, price := ReserveAndCreateOrderSql(db, customer, p, now, expiresAt), db.shop.products[p].price;
      var reserved, created := ReserveStockSql(db, p), CreateOrderSql(db, customer, p, price, now, expiresAt);
      (one.1.Ok? <==> reserved.1.Ok? && created.1.Ok?) &&
      (one.1.Ok? ==> one == CreateOrderSql(reserved.0, customer, p, price, now, expiresAt) &&
                     one.0 == ReserveStockSql(created.0, p).0 && one.1 == created.1)
  {
  }

  /** The connection: its tables as the next statement sees them, and the transaction it is in. */
  datatype Conn = Conn(t: Db, saved: Db, open: bool, aborted: bool)

  /** A statement came out as specified, was refused in an aborted transaction, or was lost. */
  predicate Asked<T(==)>(before: Conn, after: Conn, spec: Ran<T>, out: Result<T>, reliable: bool) {
    after.open == before.open && after.saved == before.saved &&
    after.aborted == (before.open && (before.aborted || (out.Err? && out.error != NoRows))) &&
    if before.open && before.aborted then out == Err(Aborted) && after.t == before.t
    else
      (out == spec.1 && after.t == spec.0) ||
      (out == Err(Lost) && !reliable && (after.t == before.t || (!before.open && after.t == spec.0)))
  }

  method PickOverdue(orders: map<OrderId, Order>, now: Time, limit: nat) returns (ids: seq<OrderId>)
    ensures Picked(orders, now, limit, ids)
  {
    var rest := set o | o in orders && ExpirableAt(orders, now, o);
    ids := [];
    while |ids| < limit && rest != {}
      invariant Distinct(ids) && |ids| <= limit
      invariant forall o :: ExpirableAt(orders, now, o) <==> o in ids || o in rest
      invariant forall o :: o in rest ==> o !in ids
      invariant forall c, o :: c in ids && o in rest ==> orders[c].expiresAt.value <= orders[o].expiresAt.value
      decreases rest
    {
      EarliestExists(orders, rest);
      var o :| o in rest && forall q :: q in rest ==> orders[o].expiresAt.value <= orders[q].expiresAt.value;
      ids, rest := ids + [o], rest - {o};
    }
  }

  class Store {
    const reliable: bool
    var t: Db
    var saved: Db
    var open: bool
    var aborted: bool
    var now: Time

    constructor (t: Db, now: Time, reliable: bool)
      requires Consistent(t)
      ensures Ready() && this.t == t && this.now == now && this.reliable == reliable
    {
      this.t, this.saved, this.now, this.reliable := t, t, now, reliable;
      this.open, this.aborted := false, false;
    }

    function State(): Conn
      reads this
    {
      Conn(t, saved, open, aborted)
    }

    /** No transaction is open and the tables are consistent. */
    ghost predicate Ready()
      reads this
    {
      !open && !aborted && Consistent(t)
    }

    method Begin() returns (r: Result<()>)
      requires !open
      modifies this
      ensures t == old(t) && now == old(now) && (reliable ==> r.Ok?)
      ensures r.Ok? ==> open && !aborted && saved == t
      ensures r.Err? ==> r.error == Lost && !open && aborted == old(aborted)
    {
      var up := reliable;
      if !reliable { up := *; }
      if !up {
        return Err(Lost);
      }
      open, aborted, saved := true, false, t;
      return Ok(());
    }

    /** The deferred rollback: undoes an open transaction, and does nothing after a commit. */
    method Rollback()
      modifies this
      ensures !open && !aborted && now == old(now)
      ensures t == if old(open) then Restored(old(saved), old(t)) else old(t)
    {
      if open {
        t := Restored(saved, t);
      }
      open, aborted := false, false;
    }

    /** The acknowledgement of a commit may be lost whether or not the commit took effect. */
    method Commit() returns (r: Result<()>)
      requires open
      modifies this
      ensures !open && !aborted && now == old(now)
      ensures r.Ok? ==> !old(aborted) && t == old(t)
      ensures r.Err? ==> r.error == Lost && (old(aborted) || !reliable)
      ensures r.Err? ==> (t == Restored(old(saved), old(t)) || (!old(aborted) && t == old(t)))
    {
      var landed, answered := !aborted, !aborted;
      if !reliable && !aborted { landed := *; answered := *; }
      if !landed {
        t := Restored(saved, t);
      }
      open, aborted := false, false;
      return if landed && answered then Ok(()) else Err(Lost);
    }

    /** Runs a statement whose effect is `after` and whose answer is `r`, if the connection lets it. */
    method Execute<T>(after: Db, r: Result<T>) returns (out: Result<T>)
      modifies this
      ensures now == old(now) && Asked(old(State()), State(), (after, r), out, reliable)
    {
      if aborted && open {
        return Err(Aborted);
      }
      aborted := false;
      var runs, answered := true, true;
      if !reliable { runs := *; answered := *; }
      if runs && (answered || !open) {
        t := after;
      }
      if !runs || !answered {
        aborted := open;
        return Err(Lost);
      }
      aborted := open && r.Err? && r.error != NoRows;
      return r;
    }

    // ---- The queries ----------------------------------------------------------------------

    method FindProductByID(p: ProductId) returns (r: Result<Product>)
      modifies this
      ensures now == old(now) && Asked(old(State()), State(), (old(t), if p in old(t).shop.products && p in old(t).shop.stock then Ok(old(t).shop.products[p]) else Err(NoRows)), r, reliable)
    {
      r := Execute(t, if p in t.shop.products && p in t.shop.stock then Ok(t.shop.products[p]) else Err(NoRows));
    }

    method ReserveStock(p: ProductId) returns (r: Result<Stock>)
      modifies this
      ensures now == old(now) && Asked(old(State()), State(), ReserveStockSql(old(t), p), r, reliable)
    {
      var sql := ReserveStockSql(t, p);
      r := Execute(sql.0, sql.1);
    }

    method SettleStock(p: ProductId, to: Status) returns (r: Result<Stock>)
      modifies this
      ensures now == old(now) && Asked(old(State()), State(), SettleStockSql(old(t), p, to), r, reliable)
    {
      var sql := SettleStockSql(t, p, to);
      r := Execute(sql.0, sql.1);
    }

    method FindOrderByID(o: OrderId) returns (r: Result<Joined>)
      modifies this
      ensures now == old(now) && Asked(old(State()), State(), (old(t), Join(old(t), o)), r, reliable)
    {
      r := Execute(t, Join(t, o));
    }

    method FindOrderByIDPlain(o: OrderId) returns (r: Result<Order>)
      modifies this
      ensures now == old(now) && Asked(old(State()), State(), (old(t), if o in old(t).shop.orders then Ok(old(t).shop.orders[o]) else Err(NoRows)), r, reliable)
    {
      r := Execute(t, if o in t.shop.orders then Ok(t.shop.orders[o]) else Err(NoRows));
    }

    method FindOrderByPaymentIntentID(intent: IntentId) returns (r: Result<Joined>)
      requires IntentsUnique(t.shop.orders)
      modifies this
      ensures now == old(now) && Asked(old(State()), State(), (old(t), JoinByIntent(old(t), intent)), r, reliable)
    {
      ghost var found := FindByIntent(t.shop.orders, intent);
      if o :| o in t.shop.orders && t.shop.orders[o].intent == Some(intent) {
        assert SameIntent(t.shop.orders, o, found.value);
        r := Execute(t, Join(t, o));
      } else {
        r := Execute(t, Err(NoRows));
      }
    }

    method CreateOrder(customer: CustomerId, p: ProductId, total: int, expiresAt: Time) returns (r: Result<OrderId>)
      modifies this
      ensures now == old(now) && Asked(old(State()), State(), CreateOrderSql(old(t), customer, p, total, old(now), expiresAt), r, reliable)
    {
      var sql := CreateOrderSql(t, customer, p, total, now, expiresAt);
      r := Execute(sql.0, sql.1);
    }

    method MarkOrderAwaitingPayment(o: OrderId, intent: IntentId, expiresAt: Time) returns (r: Result<Order>)
      modifies this
      ensures now == old(now) && Asked(old(State()), State(), MarkAwaitingSql(old(t), o, intent, expiresAt), r, reliable)
    {
      var sql := MarkAwaitingSql(t, o, intent, expiresAt);
      r := Execute(sql.0, sql.1);
    }

    method EndOrder(o: OrderId, to: Status) returns (r: Result<Order>)
      modifies this
      ensures now == old(now) && Asked(old(State()), State(), EndOrderSql(old(t), o, to), r, reliable)
    {
      var sql := EndOrderSql(t, o, to);
      r := Execute(sql.0, sql.1);
    }

    method ReserveAndCreateOrder(customer: CustomerId, p: ProductId, expiresAt: Time) returns (r: Result<OrderId>)
      modifies this
      ensures now == old(now) && Asked(old(State()), State(), ReserveAndCreateOrderSql(old(t), customer, p, old(now), expiresAt), r, reliable)
    {
      var sql := ReserveAndCreateOrderSql(t, customer, p, now, expiresAt);
      r := Execute(sql.0, sql.1);
    }

    /** RETURNING gives the caller each expired order's product; a negative LIMIT is an error. */
    method ExpireOrders(limit: int) returns (r: Result<seq<ProductId>>, ghost ids: seq<OrderId>)
      modifies this
      ensures now == old(now) && (limit >= 0 ==> Picked(old(t).shop.orders, now, limit, ids))
      ensures limit >= 0 ==> Asked(old(State()), State(), ExpireSql(old(t), ids), r, reliable)
      ensures limit < 0 ==> ids == [] && Asked(old(State()), State(), (old(t), Err(CheckViolated)), r, reliable)
    {
      if limit < 0 {
        ids := [];
        r := Execute(t, Err(CheckViolated));
      } else {
        var picked := PickOverdue(t.shop.orders, now, limit);
        var sql := ExpireSql(t, picked);
        ids := picked;
        r := Execute(sql.0, sql.1);
      }
    }

    method FindCustomerBySub(sub: string) returns (r: Result<CustomerId>)
      requires Unique(t.customers)
      modifies this
      ensures var found := FindBySub(old(t).customers, sub);
        now == old(now) && Asked(old(State()), State(), (old(t), if found.Some? then Ok(found.value) else Err(NoRows)), r, reliable)
    {
      if c :| c in t.customers && t.customers[c].sub == Some(sub) {
        r := Execute(t, Ok(c));
      } else {
        r := Execute(t, Err(NoRows));
      }
    }

    method UpdateCustomerEmail(c: CustomerId, email: string) returns (r: Result<CustomerId>)
      modifies this
      ensures now == old(now) && Asked(old(State()), State(), UpdateEmailSql(old(t), c, email), r, reliable)
    {
      var sql := UpdateEmailSql(t, c, email);
      r := Execute(sql.0, sql.1);
    }

    method LinkCustomer(email: string, sub: Option<string>) returns (r: Result<CustomerId>)
      requires Unique(t.customers)
      modifies this
      ensures now == old(now) && Asked(old(State()), State(), LinkCustomerSql(old(t), email, sub), r, reliable)
    {
      var taken := sub.Some? && exists c :: c in t.customers && t.customers[c].sub == sub;
      var drawn := t.(nextCustomer := t.nextCustomer + 1);
      if c :| c in t.customers && t.customers[c].email == email {
        if t.customers[c].sub.Some? || sub.None? {
          r := Execute(drawn, Ok(c));
        } else if taken {
          r := Execute(drawn, Err(UniqueViolated));
        } else {
          r := Execute(drawn.(customers := t.customers[c := t.customers[c].(sub := sub)]), Ok(c));
        }
      } else if taken {
        r := Execute(drawn, Err(UniqueViolated));
      } else {
        r := Execute(drawn.(customers := t.customers[t.nextCustomer := Customer(email, sub)]), Ok(t.nextCustomer));
      }
    }
  }
}
