/** The transactions of the order lifecycle, each over one connection. */
module OrderService {
  import opened Tables
  import opened Lifecycle
  import opened Customers
  import opened Store
  import opened Outcomes

  /** The subject decides when both sides have one; the email only for rows without a subject. */
  predicate Owns(owner: Customer, claims: Claims) {
    if owner.sub.Some? && claims.subject != "" then owner.sub.value == claims.subject
    else owner.email != "" && owner.email == claims.email
  }

  // ---- What each transaction comes to -----------------------------------------------------

  function CancelSpec(db: Db, o: OrderId, claims: Claims): (Shop, Outcome<Order>) {
    var found := Join(db, o);
    if found.Err? then (db.shop, DatabaseError(found.error))
    else if !Owns(found.value.owner, claims) then (db.shop, Forbidden)
    else if found.value.order.status != Pending then (db.shop, OrderNotPending)
    else (EndOne(db.shop, o, Cancelled), Success(found.value.order.(status := Cancelled)))
  }

  ghost function FulfillSpec(s: Shop, intent: IntentId): (Shop, Outcome<()>) {
    var found := FindByIntent(s.orders, intent);
    if found.None? then (s, DatabaseError(NoRows))
    else if s.orders[found.value].status == AwaitingPayment then (EndOne(s, found.value, Completed), Success(()))
    else (s, Classified(s.orders[found.value].status))
  }

  function Classified(status: Status): Outcome<()> {
    match ClassifyUnfulfillable(status)
    case NothingOwed => Success(())
    case RefundOwed(s) => PaidButNotFulfillable(s)
  }

  ghost function FailSpec(s: Shop, intent: IntentId): (Shop, Outcome<()>) {
    var found := FindByIntent(s.orders, intent);
    if found.None? then (s, DatabaseError(NoRows))
    else if s.orders[found.value].status == AwaitingPayment then (EndOne(s, found.value, Failed), Success(()))
    else (s, Success(()))
  }

  /** `intent` is the gateway's answer, None when it failed. */
  function CheckoutSpec(db: Db, o: OrderId, claims: Claims, intent: Option<IntentId>, expiresAt: Time): (Shop, Outcome<IntentId>) {
    var found := Join(db, o);
    if found.Err? then (db.shop, DatabaseError(found.error))
    else if !Owns(found.value.owner, claims) then (db.shop, Forbidden)
    else if found.value.order.status != Pending then (db.shop, OrderNotPending)
    else if intent.None? then (db.shop, GatewayFailed)
    else if !IntentFree(db.shop.orders, intent.value) then (db.shop, DatabaseError(UniqueViolated))
    else (WithIntent(db.shop, o, intent.value, expiresAt), Success(intent.value))
  }

  // ---- What that means --------------------------------------------------------------------

  ghost predicate IsStep(s: Shop, t: Shop) {
    t == s || exists a :: Enabled(s, a) && t == Do(s, a)
  }

  /** Every effect of the service is one enabled action of the atomic lifecycle, or nothing. */
  lemma EffectsAreActions(db: Db, o: OrderId, claims: Claims, intent: Option<IntentId>, expiresAt: Time)
    requires Consistent(db)
    ensures IsStep(db.shop, CancelSpec(db, o, claims).0)
    ensures IsStep(db.shop, CheckoutSpec(db, o, claims, intent, expiresAt).0)
    ensures intent.Some? ==> IsStep(db.shop, FulfillSpec(db.shop, intent.value).0)
    ensures intent.Some? ==> IsStep(db.shop, FailSpec(db.shop, intent.value).0)
  {
    EndIsStep(db.shop, o, Cancelled);
    if intent.Some? {
      var found := FindByIntent(db.shop.orders, intent.value);
      if found.Some? {
        EndIsStep(db.shop, found.value, Completed);
        EndIsStep(db.shop, found.value, Failed);
      }
      if CheckoutSpec(db, o, claims, intent, expiresAt).1.Success? {
        assert Enabled(db.shop, Checkout(o, intent.value, expiresAt));
      }
    }
  }

  lemma EndIsStep(s: Shop, o: OrderId, to: Status)
    requires to != Expired
    ensures o in s.orders && MayEnd(s.orders[o].status, to) ==> IsStep(s, EndOne(s, o, to))
  {
    if o in s.orders && MayEnd(s.orders[o].status, to) {
      assert Enabled(s, End(o, to));
    }
  }

  /** With the intent attached to an order: nil exactly if that order is now completed, a refund exactly if expired or failed. */
  lemma FulfillAnswerIsExact(s: Shop, intent: IntentId)
    requires Inv(s) && FindByIntent(s.orders, intent).Some?
    ensures var o, ran := FindByIntent(s.orders, intent).value, FulfillSpec(s, intent);
      o in ran.0.orders &&
      (ran.1 == Success(()) <==> ran.0.orders[o].status == Completed) &&
      (ran.1.PaidButNotFulfillable? <==> ran.0.orders[o].status in {Expired, Failed})
  {
    var o := FindByIntent(s.orders, intent).value;
    assert RowFits(s, o);
  }

  /** The two statements of every ending do together what EndOne says, and neither can miss. */
  lemma EndsAtomically(db: Db, o: OrderId, to: Status)
    requires Consistent(db) && o in db.shop.orders && MayEnd(db.shop.orders[o].status, to)
    ensures var ended := EndOrderSql(db, o, to);
      var settled := SettleStockSql(ended.0, db.shop.orders[o].product, to);
      ended.1.Ok? && settled.1.Ok? && settled.0 == db.(shop := EndOne(db.shop, o, to)) && Consistent(settled.0)
  {
    var p := db.shop.orders[o].product;
    EndOneKeepsInv(db.shop, o, to);
    assert RowFits(db.shop, o);
    assert Accounted(EndOne(db.shop, o, to), p);
  }

  lemma MarkedIsConsistent(db: Db, o: OrderId, intent: IntentId, expiresAt: Time)
    requires Consistent(db) && o in db.shop.orders && db.shop.orders[o].status == Pending && IntentFree(db.shop.orders, intent)
    ensures Consistent(db.(shop := WithIntent(db.shop, o, intent, expiresAt)))
  {
    CheckoutKeepsInv(db.shop, o, intent, expiresAt);
  }

  lemma JoinLosesNothing(db: Db, intent: IntentId)
    requires Consistent(db)
    ensures JoinByIntent(db, intent).Ok? <==> FindByIntent(db.shop.orders, intent).Some?
  {
  }

  // ---- Expiry -----------------------------------------------------------------------------

  /** A sweep of `ids`, whichever of the overdue orders the statement happened to pick. */
  function SweepSpec(s: Shop, limit: int, ids: seq<OrderId>): (Shop, Outcome<nat>) {
    if limit < 0 then (s, DatabaseError(CheckViolated)) else (EndAll(s, ids, Expired), Success(|ids|))
  }

  /** After the claim and `i` of the releases. */
  function Released(before: Db, ids: seq<OrderId>, i: nat): Db
    requires i <= |ids|
  {
    before.(shop := before.shop.(orders := ExpireRows(before.shop.orders, ids), stock := EndAll(before.shop, ids[..i], Expired).stock))
  }

  lemma Unpack(db: Db)
    requires Consistent(db)
    ensures Inv(db.shop)
  {
  }

  ghost predicate AllOverdue(orders: map<OrderId, Order>, now: Time, ids: seq<OrderId>) {
    Distinct(ids) && forall o :: o in ids ==> ExpirableAt(orders, now, o)
  }

  lemma OverdueMayEnd(s: Shop, now: Time, ids: seq<OrderId>)
    requires AllOverdue(s.orders, now, ids)
    ensures AllMayEnd(s, ids, Expired)
  {
    forall o | o in ids
      ensures o in s.orders && MayEnd(s.orders[o].status, Expired)
    {
      assert ExpirableAt(s.orders, now, o);
    }
  }

  /** Several orders of one product in one sweep: each release still finds the reservation of its own order. */
  lemma ReleaseStep(s: Shop, ids: seq<OrderId>, i: nat)
    requires Inv(s) && AllMayEnd(s, ids, Expired) && i < |ids|
    ensures ids[i] in s.orders
    ensures var mid, p := EndAll(s, ids[..i], Expired), s.orders[ids[i]].product;
      p in mid.stock && HasReservation(mid.stock[p]) && StockCheck(Settle(mid.stock[p], Expired, 1)) &&
      EndAll(s, ids[..i+1], Expired).stock == mid.stock[p := Settle(mid.stock[p], Expired, 1)]
  {
    var mid := EndAll(s, ids[..i], Expired);
    assert ids[i] in ids && ids[i] !in ids[..i];
    assert ids[..i+1][..i] == ids[..i];
    EndAllKeepsInv(s, ids[..i], Expired);
    assert mid.orders[ids[i]] == s.orders[ids[i]];
    EndOneKeepsInv(mid, ids[i], Expired);
    assert Accounted(EndOne(mid, ids[i], Expired), s.orders[ids[i]].product);
  }

  lemma AllReleased(before: Db, ids: seq<OrderId>)
    requires Inv(before.shop) && AllMayEnd(before.shop, ids, Expired)
    ensures Released(before, ids, |ids|) == before.(shop := EndAll(before.shop, ids, Expired))
  {
    hide Inv;
    EndAllKeepsInv(before.shop, ids, Expired);
    assert ids[..|ids|] == ids;
    assert EndAll(before.shop, ids, Expired).orders == ExpireRows(before.shop.orders, ids);
  }

  lemma SweptIsConsistent(before: Db, ids: seq<OrderId>)
    requires Consistent(before) && AllMayEnd(before.shop, ids, Expired)
    ensures Consistent(before.(shop := EndAll(before.shop, ids, Expired)))
  {
    EndAllKeepsInv(before.shop, ids, Expired);
  }

  class Service {
    const store: Store
    const ttl: int

    constructor (store: Store, ttl: int)
      ensures this.store == store && this.ttl == ttl
    {
      this.store, this.ttl := store, ttl;
    }

    /** A transaction has just begun on consistent tables. */
    ghost predicate Begun()
      reads this, store
    {
      store.open && !store.aborted && store.saved == store.t && Consistent(store.t)
    }

    /** The gateway is asked between two statements, with no transaction open. */
    method Checkout(o: OrderId, claims: Claims, gateway: Option<IntentId>) returns (out: Outcome<IntentId>)
      requires store.Ready()
      modifies store
      ensures store.Ready() && store.now == old(store.now) && store.t.customers == old(store.t).customers
      ensures Served(old(store.t), store.t, CheckoutSpec(old(store.t), o, claims, gateway, store.now + ttl), out, store.reliable)
    {
      hide Consistent;
      var existing := store.FindOrderByID(o);
      if existing.Err? {
        return DatabaseError(existing.error);
      }
      if !Owns(existing.value.owner, claims) {
        return Forbidden;
      }
      if existing.value.order.status != Pending {
        return OrderNotPending;
      }
      if gateway.None? {
        return GatewayFailed;
      }
      if IntentFree(store.t.shop.orders, gateway.value) {
        MarkedIsConsistent(store.t, o, gateway.value, store.now + ttl);
      }
      var order := store.MarkOrderAwaitingPayment(o, gateway.value, store.now + ttl);
      if order.Err? {
        return if order.error == NoRows then OrderNotPending else DatabaseError(order.error);
      }
      return Success(gateway.value);
    }

    /** The last two statements of every ending: settle the unit, commit. */
    method SettleAndCommit(o: OrderId, product: ProductId, to: Status, ghost before: Db) returns (out: Result<()>)
      requires store.open && !store.aborted && store.saved == before && Consistent(before)
      requires o in before.shop.orders && MayEnd(before.shop.orders[o].status, to) && product == before.shop.orders[o].product
      requires store.t == EndOrderSql(before, o, to).0
      modifies store
      ensures store.now == old(store.now) && store.t.customers == before.customers
      ensures store.open ==> out == Err(Lost) && !store.reliable && store.saved == before && store.t == old(store.t)
      ensures !store.open ==> !store.aborted && Consistent(store.t)
      ensures !store.open ==> Settled(before, store.t, o, to, out, store.reliable)
    {
      EndsAtomically(before, o, to);
      var stock := store.SettleStock(product, to);
      if stock.Err? {
        return Err(stock.error);
      }
      RestoredIsConsistent(before, store.t);
      out := store.Commit();
    }

    method CancelInTx(o: OrderId, claims: Claims) returns (out: Outcome<Order>)
      requires Begun()
      modifies store
      ensures store.now == old(store.now) && store.t.customers == old(store.t).customers
      ensures Attempted(old(store.t), store.State(), CancelSpec(old(store.t), o, claims), out, store.reliable)
    {
      hide Consistent, EndOne;
      var existing := store.FindOrderByID(o);
      if existing.Err? {
        return DatabaseError(existing.error);
      }
      if !Owns(existing.value.owner, claims) {
        return Forbidden;
      }
      var order := store.EndOrder(o, Cancelled);
      if order.Err? {
        return if order.error == NoRows then OrderNotPending else DatabaseError(order.error);
      }
      var done := SettleAndCommit(o, order.value.product, Cancelled, old(store.t));
      return if done.Ok? then Success(order.value) else DatabaseError(done.error);
    }

    method CancelOrder(o: OrderId, claims: Claims) returns (out: Outcome<Order>)
      requires store.Ready()
      modifies store
      ensures store.Ready() && store.now == old(store.now) && store.t.customers == old(store.t).customers
      ensures Served(old(store.t), store.t, CancelSpec(old(store.t), o, claims), out, store.reliable)
    {
      var begun := store.Begin();
      if begun.Err? {
        return DatabaseError(begun.error);
      }
      out := CancelInTx(o, claims);
      RolledBack(old(store.t), store.State(), CancelSpec(old(store.t), o, claims), out, store.reliable);
      store.Rollback();
    }

    method FulfillInTx(intent: IntentId) returns (out: Outcome<()>)
      requires Begun()
      modifies store
      ensures store.now == old(store.now) && store.t.customers == old(store.t).customers
      ensures Attempted(old(store.t), store.State(), FulfillSpec(old(store.t).shop, intent), out, store.reliable)
    {
      hide EndOne;
      JoinLosesNothing(store.t, intent);
      var existing := store.FindOrderByPaymentIntentID(intent);
      if existing.Err? {
        return DatabaseError(existing.error);
      }
      var order := store.EndOrder(existing.value.id, Completed);
      if order.Err? {
        if order.error == NoRows {
          var current := store.FindOrderByPaymentIntentID(intent);
          return if current.Ok? then Classified(current.value.order.status) else DatabaseError(current.error);
        }
        return DatabaseError(order.error);
      }
      var done := SettleAndCommit(existing.value.id, order.value.product, Completed, old(store.t));
      return if done.Ok? then Success(()) else DatabaseError(done.error);
    }

    method FulfillPayment(intent: IntentId) returns (out: Outcome<()>)
      requires store.Ready()
      modifies store
      ensures store.Ready() && store.now == old(store.now) && store.t.customers == old(store.t).customers
      ensures Served(old(store.t), store.t, FulfillSpec(old(store.t).shop, intent), out, store.reliable)
    {
      var begun := store.Begin();
      if begun.Err? {
        return DatabaseError(begun.error);
      }
      out := FulfillInTx(intent);
      RolledBack(old(store.t), store.State(), FulfillSpec(old(store.t).shop, intent), out, store.reliable);
      store.Rollback();
    }

    method FailInTx(intent: IntentId) returns (out: Outcome<()>)
      requires Begun()
      modifies store
      ensures store.now == old(store.now) && store.t.customers == old(store.t).customers
      ensures Attempted(old(store.t), store.State(), FailSpec(old(store.t).shop, intent), out, store.reliable)
    {
      hide EndOne;
      JoinLosesNothing(store.t, intent);
      var existing := store.FindOrderByPaymentIntentID(intent);
      if existing.Err? {
        return DatabaseError(existing.error);
      }
      var order := store.EndOrder(existing.value.id, Failed);
      if order.Err? {
        return if order.error == NoRows then Success(()) else DatabaseError(order.error);
      }
      var done := SettleAndCommit(existing.value.id, order.value.product, Failed, old(store.t));
      return if done.Ok? then Success(()) else DatabaseError(done.error);
    }

    method FailPayment(intent: IntentId) returns (out: Outcome<()>)
      requires store.Ready()
      modifies store
      ensures store.Ready() && store.now == old(store.now) && store.t.customers == old(store.t).customers
      ensures Served(old(store.t), store.t, FailSpec(old(store.t).shop, intent), out, store.reliable)
    {
      var begun := store.Begin();
      if begun.Err? {
        return DatabaseError(begun.error);
      }
      out := FailInTx(intent);
      RolledBack(old(store.t), store.State(), FailSpec(old(store.t).shop, intent), out, store.reliable);
      store.Rollback();
    }

    method SweepInTx(limit: int) returns (out: Outcome<nat>, ghost ids: seq<OrderId>)
      requires Begun()
      modifies store
      ensures store.now == old(store.now) && store.t.customers == old(store.t).customers
      ensures if limit >= 0 then Picked(old(store.t).shop.orders, store.now, limit, ids) else ids == []
      ensures Attempted(old(store.t), store.State(), SweepSpec(old(store.t).shop, limit, ids), out, store.reliable)
    {
      hide Consistent, Inv;
      ghost var before := store.t;
      var expired: Result<seq<ProductId>>;
      expired, ids := store.ExpireOrders(limit);
      if expired.Err? {
        return DatabaseError(expired.error), ids;
      }
      if |expired.value| == 0 {
        return Success(0), ids;
      }
      assert Inv(before.shop) by { Unpack(before); }
      OverdueMayEnd(before.shop, store.now, ids);
      var i := 0;
      while i < |expired.value|
        invariant i <= |expired.value| == |ids| && store.open && !store.aborted && store.saved == before && store.now == old(store.now)
        invariant store.t == Released(before, ids, i)
      {
        ReleaseStep(before.shop, ids, i);
        var stock := store.SettleStock(expired.value[i], Expired);
        if stock.Err? {
          return DatabaseError(stock.error), ids;
        }
        i := i + 1;
      }
      AllReleased(before, ids);
      SweptIsConsistent(before, ids);
      RestoredIsConsistent(before, store.t);
      var done := store.Commit();
      return if done.Ok? then Success(|expired.value|) else DatabaseError(done.error), ids;
    }

    method SweepExpired(limit: int) returns (out: Outcome<nat>, ghost ids: seq<OrderId>)
      requires store.Ready()
      modifies store
      ensures store.Ready() && store.now == old(store.now) && store.t.customers == old(store.t).customers
      ensures AllOverdue(old(store.t).shop.orders, store.now, ids) && |ids| <= (if limit < 0 then 0 else limit)
      ensures out.Success? ==> Picked(old(store.t).shop.orders, store.now, limit, ids)
      ensures Served(old(store.t), store.t, SweepSpec(old(store.t).shop, limit, ids), out, store.reliable)
    {
      ids := [];
      var begun := store.Begin();
      if begun.Err? {
        return DatabaseError(begun.error), ids;
      }
      out, ids := SweepInTx(limit);
      RolledBack(old(store.t), store.State(), SweepSpec(old(store.t).shop, limit, ids), out, store.reliable);
      store.Rollback();
    }
  }

  /** The commit of an ending: landed and said so, or lost with the effect complete or absent. */
  ghost predicate Settled(before: Db, after: Db, o: OrderId, to: Status, out: Result<()>, reliable: bool) {
    (out.Ok? && after.shop == EndOne(before.shop, o, to)) ||
    (out == Err(Lost) && !reliable && (after.shop == before.shop || after.shop == EndOne(before.shop, o, to)))
  }
}
