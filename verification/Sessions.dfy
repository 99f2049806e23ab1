/** What an open transaction has, at each of its statements, already earned and still may count on. */
module Sessions {
  import opened Tables
  import opened Lifecycle
  import opened Transactions

  /** How many of the listed orders are for product `p`. */
  function CountOf(orders: map<OrderId, Order>, ids: seq<OrderId>, p: ProductId): nat {
    if ids == [] then 0
    else
      var last := ids[|ids|-1];
      CountOf(orders, ids[..|ids|-1], p) + if last in orders && orders[last].product == p then 1 else 0
  }

  lemma {:induction false} CountOfFrame(orders: map<OrderId, Order>, orders': map<OrderId, Order>, ids: seq<OrderId>, p: ProductId)
    requires forall o :: o in ids ==> o in orders && o in orders' && orders[o].product == orders'[o].product
    ensures CountOf(orders, ids, p) == CountOf(orders', ids, p)
  {
    if ids != [] {
      CountOfFrame(orders, orders', ids[..|ids|-1], p);
    }
  }

  /** Ending a batch order by order settles each stock row once per order of its product. */
  lemma {:induction false} EndAllStock(db: Shop, ids: seq<OrderId>, to: Status, p: ProductId)
    requires Stocked(db, ids) && p in db.stock
    ensures p in EndAll(db, ids, to).stock
    ensures EndAll(db, ids, to).stock[p] == Settle(db.stock[p], to, CountOf(db.orders, ids, p))
  {
    if ids != [] {
      var rest := ids[..|ids|-1];
      EndAllOnlyEnds(db, rest, to);
      EndAllStock(db, rest, to, p);
      assert ids[|ids|-1] in ids;
    }
  }

  // ---- Sessions that end orders -----------------------------------------------------------

  ghost predicate OrdersWritten(db: Shop, x: Session)
    requires Ends(x.request)
  {
    (forall o :: o in x.orders <==> o in x.claimed) &&
    forall o :: o in x.claimed ==> o in db.orders && x.orders[o] == db.orders[o].(status := Target(x.request))
  }

  /** The session has settled product `p` once per order of it among those it is done with. */
  ghost predicate RowSettled(db: Shop, x: Session, p: ProductId)
    requires Ends(x.request) && x.settled <= |x.claimed|
  {
    var n := CountOf(db.orders, x.claimed[..x.settled], p);
    if n == 0 then p !in x.stock
    else p in x.stock && p in db.stock && x.stock[p] == Settle(db.stock[p], Target(x.request), n)
  }

  ghost predicate StockSettled(db: Shop, x: Session)
    requires Ends(x.request) && x.settled <= |x.claimed|
  {
    forall p {:trigger RowSettled(db, x, p)} :: RowSettled(db, x, p)
  }

  ghost predicate EndingOk(db: Shop, x: Session) {
    Ends(x.request) && x.made == None &&
    AllMayEnd(db, x.claimed, Target(x.request)) && OrdersWritten(db, x) &&
    (if x.request.SweepExpired? then forall o :: o in x.claimed ==> Overdue(db.orders[o], x.began)
     else x.claimed == [x.order] && AimsAt(db, x)) &&
    x.settled <= |x.claimed| && StockSettled(db, x)
  }

  /** The row the session goes for is the one its caller named. */
  predicate AimsAt(db: Shop, x: Session) {
    match x.request
    case StartPayment(o, _, _) => x.order == o && o in db.orders
    case CancelOrder(o) => x.order == o && o in db.orders
    case FulfillPayment(_) => HoldsIntent(db, x)
    case FailPayment(_) => HoldsIntent(db, x)
    case _ => false
  }

  predicate HoldsIntent(db: Shop, x: Session)
    requires x.request.FulfillPayment? || x.request.FailPayment?
  {
    x.order in db.orders && db.orders[x.order].intent == Some(x.request.intent)
  }

  // ---- Sessions that buy ------------------------------------------------------------------

  predicate BuyOrderWritten(db: Shop, x: Session)
    requires x.request.Buy?
  {
    var p := x.request.product;
    x.made.Some? && x.made.value !in db.orders && p in db.products && x.price == db.products[p].price &&
    x.orders == map[x.made.value := InsertedRow(x, x.price)]
  }

  predicate BuyStockWritten(db: Shop, x: Session)
    requires x.request.Buy?
  {
    var p := x.request.product;
    p in db.stock && HasFreeUnit(db.stock[p]) && x.stock == map[p := TakeUnit(db.stock[p])]
  }

  predicate BuyOk(db: Shop, x: Session) {
    x.request.Buy? &&
    var p := x.request.product;
    (x.request.arm != Cte ==> p in db.products && p in db.stock && x.price == db.products[p].price) &&
    match x.pc
    case Insert =>
      x.request.arm != Cte && x.orders == map[] && x.made == None &&
      if x.request.arm == Baseline then BuyStockWritten(db, x) else x.stock == map[]
    case Commit =>
      x.request.arm != Cte && BuyOrderWritten(db, x) && BuyStockWritten(db, x)
    case _ =>
      x.stock == map[] &&
      if x.request.arm == ReserveLast then BuyOrderWritten(db, x) else x.orders == map[] && x.made == None
  }

  // ---- All of them ------------------------------------------------------------------------

  predicate NothingWritten(x: Session) {
    x.orders == map[] && x.stock == map[]
  }

  ghost predicate Targets(db: Shop, x: Session) {
    x.made == None && AimsAt(db, x)
  }

  ghost predicate SessionOk(db: Shop, x: Session) {
    match x.pc
    case Find => NothingWritten(x) && x.made == None && !x.request.SweepExpired? && !(x.request.Buy? && x.request.arm == Cte)
    case OrderTest => NothingWritten(x) && Targets(db, x)
    case OrderWait => NothingWritten(x) && Targets(db, x)
    case Claim => EndingOk(db, x) && x.request.SweepExpired? && x.settled == 0
    case Insert => BuyOk(db, x)
    case StockTest => if x.request.Buy? then BuyOk(db, x) else EndingOk(db, x) && x.settled < |x.claimed|
    case StockWait => if x.request.Buy? then BuyOk(db, x) else EndingOk(db, x) && x.settled < |x.claimed|
    case Commit => if x.request.Buy? then BuyOk(db, x) else EndingOk(db, x) && x.settled == |x.claimed|
    case Recheck =>
      NothingWritten(x) && x.made == None &&
      if x.request.Buy? then x.request.arm == Cte
      else x.request.FulfillPayment? && HoldsIntent(db, x) && db.orders[x.order].status !in LIVE
    case Done => NothingWritten(x) && AnswerOk(db, x)
  }

  /** What each answer of a finished session says about the committed tables, for good. */
  ghost predicate AnswerOk(db: Shop, x: Session) {
    match x.reply
    case StockRowMissing => false
    case ConstraintViolated => x.request.StartPayment?
    case Placed(o) =>
      x.request.Buy? && x.made == Some(o) && o in db.orders &&
      db.orders[o].product == x.request.product && db.orders[o].customer == x.request.customer
    case CheckedOut =>
      x.request.StartPayment? && x.request.order in db.orders && db.orders[x.request.order].intent == Some(x.request.intent)
    case Dropped =>
      x.request.CancelOrder? && x.request.order in db.orders && db.orders[x.request.order].status == Cancelled
    case Acknowledged =>
      (x.request.FulfillPayment? || x.request.FailPayment?) && HoldsIntent(db, x) &&
      (x.request.FulfillPayment? ==> db.orders[x.order].status == Completed) &&
      db.orders[x.order].status !in LIVE
    case PaidButNotFulfillable(status) =>
      x.request.FulfillPayment? && HoldsIntent(db, x) && db.orders[x.order].status == status && status in {Expired, Failed}
    case Swept(count) =>
      x.request.SweepExpired? && count == |x.claimed| &&
      forall o :: o in x.claimed ==> o in db.orders && db.orders[o].status == Expired
    case OutOfStock => x.request.Buy?
    case NotPending =>
      (x.request.StartPayment? || x.request.CancelOrder?) &&
      x.request.order in db.orders && db.orders[x.request.order].status != Pending
    case Forbidden => x.request.StartPayment? || x.request.CancelOrder?
    case NoRows => !x.request.SweepExpired?
    case ConnectionLost => true
    case Unanswered => false
  }

  /** The committed tables moved, but no row this session holds the lock of. */
  ghost predicate Unmoved(db: Shop, db': Shop, x: Session) {
    Evolves(db, db') &&
    (forall p :: p in db.stock ==> p in db'.stock) &&
    (forall o :: o in x.orders ==> if o in db.orders then o in db'.orders && db'.orders[o] == db.orders[o] else o !in db'.orders) &&
    (forall p :: p in x.stock && p in db.stock ==> db'.stock[p] == db.stock[p])
  }

  lemma IntentStays(db: Shop, db': Shop, o: OrderId)
    requires Evolves(db, db') && RowsFit(db) && o in db.orders && db.orders[o].intent.Some?
    ensures o in db'.orders && db'.orders[o].intent == db.orders[o].intent
    ensures db.orders[o].status !in LIVE ==> db'.orders[o] == db.orders[o]
  {
    assert RowEvolves(db.orders[o], db'.orders[o]);
    assert RowFits(db, o);
  }

  lemma EndingFrame(db: Shop, db': Shop, x: Session)
    requires Unmoved(db, db', x) && EndingOk(db, x) && RowsFit(db)
    ensures EndingOk(db', x)
  {
    if (x.request.FulfillPayment? || x.request.FailPayment?) && HoldsIntent(db, x) {
      IntentStays(db, db', x.order);
    }
    forall o | o in x.claimed
      ensures o in db'.orders && db'.orders[o] == db.orders[o]
    {
      assert o in x.orders;
    }
    forall p
      ensures RowSettled(db', x, p)
    {
      CountOfFrame(db.orders, db'.orders, x.claimed[..x.settled], p);
      assert RowSettled(db, x, p);
    }
  }

  lemma AnswerFrame(db: Shop, db': Shop, x: Session)
    requires Evolves(db, db') && RowsFit(db) && AnswerOk(db, x)
    ensures AnswerOk(db', x)
  {
    match x.reply
    case Placed(o) => assert RowEvolves(db.orders[o], db'.orders[o]);
    case CheckedOut => IntentStays(db, db', x.request.order);
    case Dropped => assert RowEvolves(db.orders[x.request.order], db'.orders[x.request.order]);
    case Acknowledged => IntentStays(db, db', x.order);
    case PaidButNotFulfillable(_) => IntentStays(db, db', x.order);
    case Swept(_) =>
      forall o | o in x.claimed
        ensures o in db'.orders && db'.orders[o].status == Expired
      {
        assert RowEvolves(db.orders[o], db'.orders[o]);
      }
    case NotPending => assert RowEvolves(db.orders[x.request.order], db'.orders[x.request.order]);
    case OutOfStock | Forbidden | NoRows | ConnectionLost | StockRowMissing | ConstraintViolated | Unanswered =>
  }

  lemma BuyFrame(db: Shop, db': Shop, x: Session)
    requires Unmoved(db, db', x) && BuyOk(db, x)
    ensures BuyOk(db', x)
  {
    if x.made.Some? && x.orders != map[] {
      assert x.made.value in x.orders;
    }
    if x.stock != map[] {
      assert x.request.product in x.stock;
    }
  }

  /** What a session counts on survives every commit of the others. */
  lemma SessionFrame(db: Shop, db': Shop, x: Session)
    requires Unmoved(db, db', x) && SessionOk(db, x) && RowsFit(db)
    ensures SessionOk(db', x)
  {
    if x.order in db.orders && db.orders[x.order].intent.Some? {
      IntentStays(db, db', x.order);
    }
    if x.pc == Done {
      AnswerFrame(db, db', x);
    } else if EndingOk(db, x) {
      EndingFrame(db, db', x);
    } else if BuyOk(db, x) {
      BuyFrame(db, db', x);
    }
  }

  // ---- The stock statements of a session that ends orders ---------------------------------

  /** What the session sees of stock is the committed stock with its finished part applied. */
  lemma ViewIsSettled(db: Shop, x: Session, p: ProductId)
    requires EndingOk(db, x) && Stocked(db, x.claimed[..x.settled]) && p in db.stock
    ensures var sofar := EndAll(db, x.claimed[..x.settled], Target(x.request));
      p in sofar.stock && StockView(db, x, p) == Some(sofar.stock[p])
  {
    EndAllStock(db, x.claimed[..x.settled], Target(x.request), p);
    assert RowSettled(db, x, p);
  }

  lemma ClaimedIsStocked(db: Shop, x: Session, k: nat)
    requires Inv(db) && EndingOk(db, x) && k <= |x.claimed|
    ensures Stocked(db, x.claimed[..k]) && AllMayEnd(db, x.claimed[..k], Target(x.request))
  {
    forall o | o in x.claimed[..k]
      ensures o in x.claimed && o in db.orders && db.orders[o].product in db.stock
    {
      assert RowFits(db, o);
    }
  }

  /**
   * The num_reserved > 0 backstop never bites: whatever else is in flight, the unit of an order the
   * session has ended is still reserved, and the row it writes satisfies the CHECK constraint.
   */
  lemma BackstopHolds(db: Shop, x: Session)
    requires Inv(db) && EndingOk(db, x) && x.settled < |x.claimed|
    ensures var p := StockProduct(x);
      p.Some? && p.value in db.stock && StockMatches(db, x, p.value) &&
      StockCheck(WriteStock(db, x, p.value).stock[p.value])
  {
    var to, done, o := Target(x.request), x.claimed[..x.settled], x.claimed[x.settled];
    assert o in x.claimed && o !in done;
    var p := db.orders[o].product;
    assert RowFits(db, o);
    ClaimedIsStocked(db, x, x.settled);
    ViewIsSettled(db, x, p);
    EndAllKeepsInv(db, done, to);
    var sofar := EndAll(db, done, to);
    assert sofar.orders[o] == db.orders[o];
    EndOneKeepsInv(sofar, o, to);
    assert Accounted(EndOne(sofar, o, to), p);
  }

  lemma CountOfStep(orders: map<OrderId, Order>, ids: seq<OrderId>, k: nat, p: ProductId)
    requires k < |ids| && ids[k] in orders
    ensures CountOf(orders, ids[..k+1], p) == CountOf(orders, ids[..k], p) + if orders[ids[k]].product == p then 1 else 0
  {
    assert ids[..k+1][..k] == ids[..k];
  }

  lemma EndingOkAt(db: Shop, x: Session, pc: Pc)
    requires EndingOk(db, x)
    ensures EndingOk(db, x.(pc := pc))
  {
    forall p
      ensures RowSettled(db, x.(pc := pc), p)
    {
      assert RowSettled(db, x, p);
    }
  }

  lemma SettlingKeepsOk(db: Shop, x: Session, p: ProductId)
    requires EndingOk(db, x) && x.settled < |x.claimed|
    requires StockProduct(x) == Some(p) && StockMatches(db, x, p) && p in db.stock
    ensures EndingOk(db, WriteStock(db, x, p))
  {
    var x' := WriteStock(db, x, p);
    assert x.claimed[x.settled] in x.claimed;
    forall q
      ensures RowSettled(db, x', q)
    {
      assert RowSettled(db, x, q);
      CountOfStep(db.orders, x.claimed, x.settled, q);
    }
  }

  /** When every order of the session is settled, committing its rows is ending the whole batch. */
  lemma MergeIsEndAll(db: Shop, x: Session)
    requires Inv(db) && EndingOk(db, x) && x.settled == |x.claimed|
    ensures Merge(db, x) == EndAll(db, x.claimed, Target(x.request))
  {
    assert x.claimed[..x.settled] == x.claimed;
    ClaimedIsStocked(db, x, x.settled);
    EndAllOnlyEnds(db, x.claimed, Target(x.request));
    MergedOrders(db, x, EndAll(db, x.claimed, Target(x.request)));
    MergedStock(db, x, EndAll(db, x.claimed, Target(x.request)));
  }

  lemma MergedOrders(db: Shop, x: Session, t: Shop)
    requires Ends(x.request) && OrdersWritten(db, x) && OnlyEnded(db, x.claimed, Target(x.request), t)
    ensures Merge(db, x).orders == t.orders
  {
    forall o | o in db.orders
      ensures o in Merge(db, x).orders && Merge(db, x).orders[o] == t.orders[o]
    {
      assert o in x.orders <==> o in x.claimed;
    }
    assert forall o :: o in x.orders ==> o in db.orders;
  }

  lemma MergedStock(db: Shop, x: Session, t: Shop)
    requires EndingOk(db, x) && x.claimed[..x.settled] == x.claimed && Stocked(db, x.claimed)
    requires t == EndAll(db, x.claimed, Target(x.request)) && t.stock.Keys == db.stock.Keys
    ensures Merge(db, x).stock == t.stock
  {
    forall p | p in x.stock
      ensures p in db.stock
    {
      assert RowSettled(db, x, p);
    }
    forall p | p in db.stock
      ensures Merge(db, x).stock[p] == t.stock[p]
    {
      ViewIsSettled(db, x, p);
    }
  }
}
