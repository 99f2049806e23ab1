/** The reserve arms of POST /orders: two orders of one transaction's statements, and one single statement. */
module Arms {
  import opened Tables
  import opened Lifecycle
  import opened Customers
  import opened Store
  import opened Identity
  import opened Outcomes

  datatype Purchase = Purchase(product: ProductId, claims: Claims, expiresAt: Time)

  /** What a purchase by a resolved customer comes to: the next order id, or the reason why not. */
  function Placement(arm: Arm, db: Db, customer: CustomerId, p: Purchase, now: Time): (Shop, Outcome<OrderId>) {
    if p.product !in db.shop.products || p.product !in db.shop.stock then (db.shop, DatabaseError(NoRows))
    else if customer !in db.customers && (arm == ReserveLast || HasFreeUnit(db.shop.stock[p.product])) then
      (db.shop, DatabaseError(CheckViolated))
    else if !HasFreeUnit(db.shop.stock[p.product]) then (db.shop, OutOfStock)
    else
      var row := NewOrder(customer, p.product, db.shop.products[p.product].price, now, p.expiresAt);
      (WithReserved(db.shop, db.nextOrder, row), Success(db.nextOrder))
  }

  /** The whole reserve: resolve the caller, then place. */
  ghost function ReserveSpec(arm: Arm, linked: Ran<CustomerId>, p: Purchase, now: Time): (Shop, Outcome<OrderId>) {
    if linked.1.Err? then (linked.0.shop, DatabaseError(linked.1.error)) else Placement(arm, linked.0, linked.1.value, p, now)
  }

  function NotReserved(error: DbError): Outcome<OrderId> {
    if error == NoRows then OutOfStock else DatabaseError(error)
  }

  /** What becomes of a customers row the reserve linked: a rolled-back transaction takes it along. */
  ghost predicate CustomersAfter(arm: Arm, before: Db, linked: Db, out: Outcome<OrderId>, after: Db) {
    if out == DatabaseError(Lost) then after.customers in {before.customers, linked.customers}
    else after.customers == if arm == Cte || out.Success? then linked.customers else before.customers
  }

  /**
   * The arms answer alike and do alike, order id included, exactly when the resolved customer exists
   * or the answer is settled before anyone looks: only a memo of a rolled-back row can tell them apart.
   */
  lemma ArmsAgreeIff(db: Db, customer: CustomerId, p: Purchase, now: Time)
    ensures (forall arm, arm' :: Placement(arm, db, customer, p, now) == Placement(arm', db, customer, p, now)) <==>
      customer in db.customers || p.product !in db.shop.products || p.product !in db.shop.stock ||
      HasFreeUnit(db.shop.stock[p.product])
  {
    assert Placement(Baseline, db, customer, p, now) == Placement(Cte, db, customer, p, now);
    if customer !in db.customers && p.product in db.shop.products && p.product in db.shop.stock && !HasFreeUnit(db.shop.stock[p.product]) {
      assert Placement(Baseline, db, customer, p, now) != Placement(ReserveLast, db, customer, p, now);
    } else {
      assert Placement(Baseline, db, customer, p, now) == Placement(ReserveLast, db, customer, p, now);
    }
  }

  /** A freshly linked customer always exists, so without a memo the arms differ only in how Link can fail. */
  lemma FreshLinksAgree(arm: Arm, arm': Arm, db: Db, p: Purchase, now: Time)
    requires Consistent(db)
    ensures var one, other := LinkSpec(db, p.claims, arm != Cte), LinkSpec(db, p.claims, arm' != Cte);
      (one.1.Ok? <==> other.1.Ok?) && (one.1.Ok? ==> ReserveSpec(arm, one, p, now) == ReserveSpec(arm', other, p, now))
  {
    ResolveKeeps(false, map[], db, p.claims, arm != Cte);
    ResolveKeeps(false, map[], db, p.claims, arm' != Cte);
    var linked := LinkSpec(db, p.claims, arm != Cte);
    if linked.1.Ok? {
      ArmsAgreeIff(linked.0, linked.1.value, p, now);
    }
  }

  /**
   * A first purchase that finds its product sold out rolls the new customers row back but leaves its id
   * in the memo. From then on every purchase of that caller through the memo is refused, whatever links,
   * trades, rollbacks and commits come in between: the sequence has passed that id.
   */
  lemma MemoOfARolledBackRow(db: Db, first: Arm, p: Purchase, now: Time, moves: seq<Move>, arm: Arm, p': Purchase, now': Time, inTx: bool)
    requires Consistent(db) && first != Cte && p.claims.subject != "" && p'.claims.subject == p.claims.subject
    requires FindBySub(db.customers, p.claims.subject) == None && FindByEmail(db.customers, p.claims.email) == None
    requires p.product in db.shop.products && p.product in db.shop.stock && !HasFreeUnit(db.shop.stock[p.product])
    ensures var linked := LinkSpec(db, p.claims, true);
      ReserveSpec(first, linked, p, now).1 == OutOfStock &&
      var memo := Learned(true, map[], p.claims, linked.1);
      var later := Follow(Line(Restored(db, linked.0), None), moves).db;
      memo == map[p.claims.subject := db.nextCustomer] &&
      !ReserveSpec(arm, ResolveSpec(true, memo, later, p'.claims, inTx), p', now').1.Success?
  {
    hide Inv, Unique;
    var linked := LinkSpec(db, p.claims, true);
    assert linked.1 == Ok(db.nextCustomer) && db.nextCustomer in linked.0.customers;
    SkippedForever(Line(Restored(db, linked.0), None), moves, db.nextCustomer);
  }

  /** A placed order is the atomic Reserve action, and it leaves the tables consistent. */
  lemma PlacementIsReserve(arm: Arm, db: Db, customer: CustomerId, p: Purchase, now: Time)
    requires Consistent(db) && Placement(arm, db, customer, p, now).1.Success?
    ensures var a := Reserve(db.nextOrder, customer, p.product, now, p.expiresAt);
      Enabled(db.shop, a) && Placement(arm, db, customer, p, now).0 == Do(db.shop, a)
    ensures Consistent(db.(shop := Placement(arm, db, customer, p, now).0, nextOrder := db.nextOrder + 1))
  {
    var row := NewOrder(customer, p.product, db.shop.products[p.product].price, now, p.expiresAt);
    ReserveKeepsInv(db.shop, db.nextOrder, row);
  }

  lemma FreeUnitFits(db: Db, p: ProductId)
    requires Consistent(db) && p in db.shop.stock && HasFreeUnit(db.shop.stock[p])
    ensures StockCheck(TakeUnit(db.shop.stock[p]))
  {
    assert Accounted(db.shop, p);
  }

  class Strategy {
    const store: Store
    const resolver: Resolver
    const arm: Arm

    constructor (store: Store, resolver: Resolver, arm: Arm)
      ensures this.store == store && this.resolver == resolver && this.arm == arm
    {
      this.store, this.resolver, this.arm := store, resolver, arm;
    }

    /** What resolving the caller comes to in the present state. */
    ghost function Linked(claims: Claims): Ran<CustomerId>
      reads this, store, resolver
    {
      ResolveSpec(resolver.Remembers(claims), resolver.ids, store.t, claims, arm != Cte)
    }

    /** The two statements whose order is the experiment. */
    method PlaceInTx(customer: CustomerId, price: int, p: Purchase) returns (out: Outcome<OrderId>)
      requires arm != Cte && store.open && !store.aborted && Consistent(store.t)
      requires p.product in store.t.shop.products && p.product in store.t.shop.stock && price == store.t.shop.products[p.product].price
      modifies store
      ensures store.now == old(store.now) && store.open && store.saved == old(store.saved)
      ensures out == Placement(arm, old(store.t), customer, p, store.now).1 || (out == DatabaseError(Lost) && !store.reliable)
      ensures out.Success? ==> !store.aborted
      ensures out.Success? ==> store.t == old(store.t).(shop := Placement(arm, old(store.t), customer, p, store.now).0, nextOrder := old(store.t).nextOrder + 1)
      ensures store.t.nextCustomer == old(store.t).nextCustomer && old(store.t).nextOrder <= store.t.nextOrder
    {
      if HasFreeUnit(store.t.shop.stock[p.product]) {
        FreeUnitFits(store.t, p.product);
      }
      if arm == ReserveLast {
        var order := store.CreateOrder(customer, p.product, price, p.expiresAt);
        if order.Err? {
          return DatabaseError(order.error);
        }
        var reserved := store.ReserveStock(p.product);
        return if reserved.Ok? then Success(order.value) else NotReserved(reserved.error);
      }
      var reserved := store.ReserveStock(p.product);
      if reserved.Err? {
        return NotReserved(reserved.error);
      }
      var order := store.CreateOrder(customer, p.product, price, p.expiresAt);
      return if order.Ok? then Success(order.value) else DatabaseError(order.error);
    }

    /** The rest of the transaction once the customer is resolved; it began when the tables were `before`. */
    method BuyInTx(customer: CustomerId, p: Purchase, ghost before: Db) returns (out: Outcome<OrderId>)
      requires arm != Cte && store.open && !store.aborted && store.saved == before && Consistent(before) && Consistent(store.t)
      requires store.t.shop == before.shop && before.nextOrder <= store.t.nextOrder && before.nextCustomer <= store.t.nextCustomer
      modifies store
      ensures store.now == old(store.now)
      ensures Attempted(before, store.State(), Placement(arm, old(store.t), customer, p, store.now), out, store.reliable)
      ensures store.open ==> !out.Success?
      ensures !store.open ==> CustomersAfter(arm, before, old(store.t), out, store.t)
    {
      hide Consistent;
      var product := store.FindProductByID(p.product);
      if product.Err? {
        return DatabaseError(product.error);
      }
      out := PlaceInTx(customer, product.value.price, p);
      if !out.Success? {
        return;
      }
      PlacementIsReserve(arm, old(store.t), customer, p, store.now);
      RestoredIsConsistent(before, store.t);
      var done := store.Commit();
      if done.Err? {
        return DatabaseError(done.error);
      }
    }

    /** The body of the baseline and reserve-last transactions, up to and including the commit. */
    method ReserveInTx(p: Purchase) returns (out: Outcome<OrderId>)
      requires arm != Cte && store.open && !store.aborted && Consistent(store.t) && store.saved == store.t
      modifies store, resolver
      ensures store.now == old(store.now)
      ensures Attempted(old(store.t), store.State(), ReserveSpec(arm, old(Linked(p.claims)), p, old(store.now)), out, store.reliable)
      ensures store.open ==> !out.Success?
      ensures !store.open ==> CustomersAfter(arm, old(store.t), old(Linked(p.claims)).0, out, store.t)
      ensures store.reliable ==> resolver.ids == Learned(resolver.cached, old(resolver.ids), p.claims, old(Linked(p.claims)).1)
    {
      hide Inv, Unique, LinkSpec, NewOrder, WithReserved;
      ghost var linked := Linked(p.claims);
      ResolveKeeps(resolver.Remembers(p.claims), resolver.ids, store.t, p.claims, true);
      var customer := resolver.Resolve(store, p.claims);
      if customer.Err? {
        return DatabaseError(customer.error);
      }
      out := BuyInTx(customer.value, p, old(store.t));
    }

    method ReserveInTransaction(p: Purchase) returns (out: Outcome<OrderId>)
      requires arm != Cte && store.Ready()
      modifies store, resolver
      ensures store.Ready() && store.now == old(store.now)
      ensures Served(old(store.t), store.t, ReserveSpec(arm, old(Linked(p.claims)), p, old(store.now)), out, store.reliable)
      ensures CustomersAfter(arm, old(store.t), old(Linked(p.claims)).0, out, store.t)
      ensures store.reliable ==> resolver.ids == Learned(resolver.cached, old(resolver.ids), p.claims, old(Linked(p.claims)).1)
    {
      var begun := store.Begin();
      if begun.Err? {
        return DatabaseError(begun.error);
      }
      out := ReserveInTx(p);
      RolledBack(old(store.t), store.State(), ReserveSpec(arm, old(Linked(p.claims)), p, old(store.now)), out, store.reliable);
      store.Rollback();
    }

    /** The single statement, and the read that tells its two zero-row answers apart. */
    method PlaceAlone(customer: CustomerId, p: Purchase) returns (out: Outcome<OrderId>)
      requires arm == Cte && store.Ready()
      modifies store
      ensures store.Ready() && store.now == old(store.now) && store.t.customers == old(store.t).customers
      ensures Served(old(store.t), store.t, Placement(arm, old(store.t), customer, p, store.now), out, store.reliable)
    {
      if p.product in store.t.shop.stock && HasFreeUnit(store.t.shop.stock[p.product]) {
        FreeUnitFits(store.t, p.product);
      }
      if Placement(arm, store.t, customer, p, store.now).1.Success? {
        PlacementIsReserve(arm, store.t, customer, p, store.now);
      }
      var order := store.ReserveAndCreateOrder(customer, p.product, p.expiresAt);
      if order.Ok? {
        return Success(order.value);
      }
      if order.error != NoRows {
        return DatabaseError(order.error);
      }
      var found := store.FindProductByID(p.product);
      return if found.Err? then DatabaseError(found.error) else OutOfStock;
    }

    method ReserveInOneStatement(p: Purchase) returns (out: Outcome<OrderId>)
      requires arm == Cte && store.Ready()
      modifies store, resolver
      ensures store.Ready() && store.now == old(store.now)
      ensures Served(old(store.t), store.t, ReserveSpec(arm, old(Linked(p.claims)), p, old(store.now)), out, store.reliable)
      ensures CustomersAfter(arm, old(store.t), old(Linked(p.claims)).0, out, store.t)
      ensures store.reliable ==> resolver.ids == Learned(resolver.cached, old(resolver.ids), p.claims, old(Linked(p.claims)).1)
    {
      ghost var linked := Linked(p.claims);
      ResolveKeeps(resolver.Remembers(p.claims), resolver.ids, store.t, p.claims, false);
      var customer := resolver.Resolve(store, p.claims);
      if customer.Err? {
        return DatabaseError(customer.error);
      }
      out := PlaceAlone(customer.value, p);
    }

    /** Whichever arm runs, the purchase comes to what ReserveSpec says of it. */
    method Reserve(p: Purchase) returns (out: Outcome<OrderId>)
      requires store.Ready()
      modifies store, resolver
      ensures store.Ready() && store.now == old(store.now)
      ensures Served(old(store.t), store.t, ReserveSpec(arm, old(Linked(p.claims)), p, old(store.now)), out, store.reliable)
      ensures CustomersAfter(arm, old(store.t), old(Linked(p.claims)).0, out, store.t)
      ensures store.reliable ==> resolver.ids == Learned(resolver.cached, old(resolver.ids), p.claims, old(Linked(p.claims)).1)
    {
      if arm == Cte {
        out := ReserveInOneStatement(p);
      } else {
        out := ReserveInTransaction(p);
      }
    }
  }
}
