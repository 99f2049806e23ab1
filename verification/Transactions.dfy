/**
 * The same lifecycle statement by statement: any number of open transactions under READ COMMITTED.
 *
 * A transaction keeps its written rows private until it commits, and holds the lock of every row
 * it wrote. A single-row UPDATE first tests its WHERE on the committed table (its own writes
 * included); zero rows there is its answer. Otherwise it waits until no other transaction holds the
 * row and tests the WHERE again on the newest version. This is section 13.2.1 of the PostgreSQL 17
 * manual. Between any two statements every other session may move, and a session may be lost at
 * any point, before or after its commit took effect.
 */
module Transactions {
  import opened Tables
  import opened Lifecycle

  type Tid = nat

  datatype Request =
    | Buy(arm: Arm, product: ProductId, customer: CustomerId, expiresAt: Time)
    | StartPayment(order: OrderId, intent: IntentId, expiresAt: Time)
    | CancelOrder(order: OrderId)
    | FulfillPayment(intent: IntentId)
    | FailPayment(intent: IntentId)
    | SweepExpired

  datatype Reply =
    | Unanswered
    | Placed(order: OrderId)
    | OutOfStock
    | NoRows
    | NotPending
    | Forbidden
    | CheckedOut
    | Dropped
    | Acknowledged
    | PaidButNotFulfillable(status: Status)
    | Swept(count: nat)
    | StockRowMissing
    | ConstraintViolated
    | ConnectionLost

  /** The statement a session runs next; Test and Wait are the two halves of one UPDATE. */
  datatype Pc = Find | OrderTest | OrderWait | Claim | Insert | StockTest | StockWait | Commit | Recheck | Done

  datatype Session = Session(
    request: Request,
    began: Time,
    pc: Pc,
    order: OrderId,
    price: int,
    claimed: seq<OrderId>,
    settled: nat,
    made: Option<OrderId>,
    orders: map<OrderId, Order>,
    stock: map<ProductId, Stock>,
    reply: Reply)

  /** `nextId` is orders_id_seq, which no rollback takes back; `maker` remembers who drew each id. */
  datatype System = System(
    db: Shop,
    now: Time,
    nextId: OrderId,
    maker: map<OrderId, Tid>,
    sessions: map<Tid, Session>)

  datatype Config = Config(sweepers: nat, batch: nat)

  datatype Label =
    | Begin(t: Tid, request: Request)
    | Go(t: Tid, lost: bool)
    | ClaimRow(t: Tid, order: OrderId)
    | ClaimDone(t: Tid)
    | Deny(t: Tid)
    | Abort(t: Tid)
    | Tick(elapsed: nat)
    | NewProduct(product: ProductId, price: int, quantity: int)

  predicate Ends(r: Request) {
    r.CancelOrder? || r.FulfillPayment? || r.FailPayment? || r.SweepExpired?
  }

  function Target(r: Request): Status
    requires Ends(r)
  {
    match r
    case CancelOrder(_) => Cancelled
    case FulfillPayment(_) => Completed
    case FailPayment(_) => Failed
    case SweepExpired => Expired
  }

  function Fresh(r: Request, now: Time): Session {
    var pc := if r.Buy? && r.arm == Cte then StockTest else if r.SweepExpired? then Claim else Find;
    Session(r, now, pc, 0, 0, [], 0, None, map[], map[], Unanswered)
  }

  /** Ends the session and drops whatever it had not committed. */
  function Finish(x: Session, reply: Reply): Session {
    x.(pc := Done, orders := map[], stock := map[], reply := reply)
  }

  ghost predicate OrderLocked(s: System, t: Tid, o: OrderId) {
    exists u :: u in s.sessions && u != t && o in s.sessions[u].orders
  }

  ghost predicate StockLocked(s: System, t: Tid, p: ProductId) {
    exists u :: u in s.sessions && u != t && p in s.sessions[u].stock
  }

  // ---- The reads --------------------------------------------------------------------------

  ghost function AtFind(db: Shop, x: Session): Session {
    match x.request
    case Buy(arm, p, _, _) =>
      if p in db.products && p in db.stock then
        x.(price := db.products[p].price, pc := if arm == ReserveLast then Insert else StockTest)
      else Finish(x, NoRows)
    case StartPayment(o, _, _) =>
      if o !in db.orders then Finish(x, NoRows)
      else if db.orders[o].status != Pending then Finish(x, NotPending)
      else x.(order := o, pc := OrderTest)
    case CancelOrder(o) =>
      if o !in db.orders then Finish(x, NoRows) else x.(order := o, pc := OrderTest)
    case FulfillPayment(intent) => AtFindIntent(db, x, intent)
    case FailPayment(intent) => AtFindIntent(db, x, intent)
    case SweepExpired => x
  }

  ghost function AtFindIntent(db: Shop, x: Session, intent: IntentId): Session {
    var found := FindByIntent(db.orders, intent);
    if found.Some? then x.(order := found.value, pc := OrderTest) else Finish(x, NoRows)
  }

  /** The read after a zero-row write: FulfillPayment classifies, the cte arm disambiguates. */
  ghost function AtRecheck(db: Shop, x: Session): Session {
    match x.request
    case FulfillPayment(intent) =>
      var found := FindByIntent(db.orders, intent);
      if found.None? then Finish(x, NoRows)
      else (match ClassifyUnfulfillable(db.orders[found.value].status)
            case NothingOwed => Finish(x, Acknowledged)
            case RefundOwed(status) => Finish(x, PaidButNotFulfillable(status)))
    case Buy(_, p, _, _) =>
      Finish(x, if p in db.products && p in db.stock then OutOfStock else NoRows)
    case _ => x
  }

  // ---- The guarded update of an order row -----------------------------------------------

  predicate OrderGuard(r: Request, row: Order) {
    match r
    case StartPayment(_, _, _) => row.status == Pending
    case CancelOrder(_) => MayEnd(row.status, Cancelled)
    case FulfillPayment(_) => MayEnd(row.status, Completed)
    case FailPayment(_) => MayEnd(row.status, Failed)
    case _ => false
  }

  function NoOrderRow(x: Session): Session {
    match x.request
    case FulfillPayment(_) => x.(pc := Recheck)
    case FailPayment(_) => Finish(x, Acknowledged)
    case _ => Finish(x, NotPending)
  }

  function AtOrderTest(db: Shop, x: Session): Session {
    if x.order in db.orders && OrderGuard(x.request, db.orders[x.order]) then x.(pc := OrderWait)
    else NoOrderRow(x)
  }

  function WriteEnd(x: Session, row: Order): Session
    requires Ends(x.request)
  {
    x.(orders := map[x.order := row.(status := Target(x.request))], claimed := [x.order], settled := 0, pc := StockTest)
  }

  function WritePayment(x: Session, row: Order): Session
    requires x.request.StartPayment?
  {
    x.(orders := map[x.order := row.(status := AwaitingPayment,
                                     intent := Some(x.request.intent),
                                     expiresAt := Some(x.request.expiresAt))])
  }

  /** MarkOrderAwaitingPayment runs outside a transaction, so it commits as it writes. */
  ghost function AtOrderWait(s: System, t: Tid, x: Session, lost: bool): (s': System)
    requires t in s.sessions && s.sessions[t] == x
    ensures MovesOnly(s, s', t)
  {
    var db := s.db;
    if OrderLocked(s, t, x.order) then s
    else if x.order !in db.orders || !OrderGuard(x.request, db.orders[x.order]) then Put(s, t, NoOrderRow(x))
    else if x.request.StartPayment? then
      if IntentFree(db.orders, x.request.intent) then
        Land(s, t, WritePayment(x, db.orders[x.order]), lost)
      else Put(s, t, Finish(x, ConstraintViolated))
    else if Ends(x.request) then Put(s, t, WriteEnd(x, db.orders[x.order]))
    else s
  }

  // ---- The insert of an order row -------------------------------------------------------

  function InsertedRow(x: Session, price: int): Order
    requires x.request.Buy?
  {
    NewOrder(x.request.customer, x.request.product, price, x.began, x.request.expiresAt)
  }

  function AtInsert(s: System, t: Tid, x: Session): System
    requires x.request.Buy?
  {
    var x' := x.(made := Some(s.nextId),
                 orders := map[s.nextId := InsertedRow(x, x.price)],
                 pc := if x.request.arm == ReserveLast then StockTest else Commit);
    Drawn(Put(s, t, x'), t)
  }

  function Drawn(s: System, t: Tid): System {
    s.(nextId := s.nextId + 1, maker := s.maker[s.nextId := t])
  }

  // ---- The guarded update of a stock row ------------------------------------------------

  function StockProduct(x: Session): Option<ProductId> {
    if x.request.Buy? then Some(x.request.product)
    else if x.settled < |x.claimed| && x.claimed[x.settled] in x.orders then
      Some(x.orders[x.claimed[x.settled]].product)
    else None
  }

  /** The row version the statement sees: the session's own if it wrote one, else the committed one. */
  function StockView(db: Shop, x: Session, p: ProductId): Option<Stock> {
    if p in x.stock then Some(x.stock[p]) else if p in db.stock then Some(db.stock[p]) else None
  }

  predicate StockGuard(r: Request, row: Stock) {
    if r.Buy? then HasFreeUnit(row) else HasReservation(row)
  }

  function StockWrite(r: Request, row: Stock): Stock {
    if r.Buy? then TakeUnit(row)
    else if Ends(r) then Settle(row, Target(r), 1)
    else row
  }

  function NoStockRow(x: Session): Session {
    if x.request.Buy? then
      if x.request.arm == Cte then x.(pc := Recheck) else Finish(x, OutOfStock)
    else Finish(x, StockRowMissing)
  }

  predicate StockMatches(db: Shop, x: Session, p: ProductId) {
    var view := StockView(db, x, p);
    view.Some? && StockGuard(x.request, view.value)
  }

  function AtStockTest(db: Shop, x: Session): Session {
    var p := StockProduct(x);
    if p.Some? && StockMatches(db, x, p.value) then x.(pc := StockWait) else NoStockRow(x)
  }

  function WriteStock(db: Shop, x: Session, p: ProductId): Session
    requires StockMatches(db, x, p)
  {
    var x' := x.(stock := x.stock[p := StockWrite(x.request, StockView(db, x, p).value)]);
    match x.request
    case Buy(arm, _, _, _) => x'.(pc := if arm == Baseline then Insert else Commit)
    case _ => x'.(settled := x.settled + 1, pc := if x.settled + 1 == |x.claimed| then Commit else StockTest)
  }

  /** Both rows ReserveAndCreateOrder writes, the price taken from the product it reserved. */
  function CteRows(db: Shop, x: Session, id: OrderId): Session
    requires x.request.Buy? && StockMatches(db, x, x.request.product) && x.request.product in db.products
  {
    WriteStock(db, x, x.request.product)
      .(made := Some(id), orders := map[id := InsertedRow(x, db.products[x.request.product].price)])
  }

  /** The single statement of the cte arm inserts and commits in the execution that took the lock. */
  ghost function AtStockWait(s: System, t: Tid, x: Session, lost: bool): (s': System)
    requires t in s.sessions && s.sessions[t] == x
    ensures MovesOnly(s, s', t)
  {
    var p := StockProduct(x);
    if p.None? || StockLocked(s, t, p.value) then s
    else if !StockMatches(s.db, x, p.value) then Put(s, t, NoStockRow(x))
    else
      var x' := WriteStock(s.db, x, p.value);
      if !StockCheck(x'.stock[p.value]) then Put(s, t, Finish(x, ConstraintViolated))
      else if x.request.Buy? && x.request.arm == Cte then
        if p.value !in s.db.products then s
        else
          Drawn(Land(s, t, CteRows(s.db, x, s.nextId), lost), t)
      else Put(s, t, x')
  }

  // ---- The claim of a sweep, and the commit ---------------------------------------------

  /** Locked rows are passed over: only an unlocked, still overdue, still live row is claimed. */
  ghost predicate Claimable(cfg: Config, s: System, t: Tid, x: Session, o: OrderId) {
    x.request.SweepExpired? && x.pc == Claim && |x.claimed| < cfg.batch && o !in x.claimed && o in s.db.orders &&
    MayEnd(s.db.orders[o].status, Expired) && Overdue(s.db.orders[o], x.began) && !OrderLocked(s, t, o)
  }

  function AtClaim(db: Shop, x: Session, o: OrderId): Session
    requires o in db.orders
  {
    x.(claimed := x.claimed + [o], orders := x.orders[o := db.orders[o].(status := Expired)])
  }

  function CommitReply(x: Session): Reply {
    match x.request
    case Buy(_, _, _, _) => if x.made.Some? then Placed(x.made.value) else ConnectionLost
    case StartPayment(_, _, _) => CheckedOut
    case CancelOrder(_) => Dropped
    case FulfillPayment(_) => Acknowledged
    case FailPayment(_) => Acknowledged
    case SweepExpired => Swept(|x.claimed|)
  }

  function Merge(db: Shop, x: Session): Shop {
    db.(orders := db.orders + x.orders, stock := db.stock + x.stock)
  }

  function Put(s: System, t: Tid, x: Session): System {
    s.(sessions := s.sessions[t := x])
  }

  /** The commit takes effect; its acknowledgement may still get lost on the way back. */
  function Land(s: System, t: Tid, x: Session, lost: bool): System {
    Put(s.(db := Merge(s.db, x)), t, Finish(x, if lost then ConnectionLost else CommitReply(x)))
  }

  // ---- The machine ------------------------------------------------------------------------

  ghost function ActiveSweeps(s: System): set<Tid> {
    set t | t in s.sessions && s.sessions[t].request.SweepExpired? && s.sessions[t].pc != Done
  }

  /** The ownership check of Checkout and CancelOrder may turn any caller away from an existing order. */
  predicate MayDeny(db: Shop, r: Request) {
    (r.StartPayment? || r.CancelOrder?) && r.order in db.orders
  }

  /** No other session is touched; the session keeps its request, and claims at most the order it names. */
  ghost predicate MovesOnly(s: System, s': System, t: Tid)
    requires t in s.sessions
  {
    t in s'.sessions && s'.sessions == s.sessions[t := s'.sessions[t]] && s'.now == s.now &&
    var x, x' := s.sessions[t], s'.sessions[t];
    x'.request == x.request &&
    (x'.claimed == x.claimed || (!x.request.SweepExpired? && x'.claimed == [x.order]))
  }

  ghost function Advance(s: System, t: Tid, lost: bool): (s': System)
    requires t in s.sessions
    ensures MovesOnly(s, s', t)
  {
    var x := s.sessions[t];
    match x.pc
    case Find => Put(s, t, AtFind(s.db, x))
    case OrderTest => Put(s, t, AtOrderTest(s.db, x))
    case OrderWait => AtOrderWait(s, t, x, lost)
    case Insert => if x.request.Buy? then AtInsert(s, t, x) else s
    case StockTest => Put(s, t, AtStockTest(s.db, x))
    case StockWait => AtStockWait(s, t, x, lost)
    case Commit => Land(s, t, x, lost)
    case Recheck => Put(s, t, AtRecheck(s.db, x))
    case Claim => s
    case Done => s
  }

  /** One step; a label that is not enabled changes nothing. */
  ghost function Next(cfg: Config, s: System, l: Label): System {
    match l
    case Begin(t, r) =>
      if t in s.sessions || (r.SweepExpired? && |ActiveSweeps(s)| >= cfg.sweepers) then s
      else Put(s, t, Fresh(r, s.now))
    case Go(t, lost) => if t in s.sessions then Advance(s, t, lost) else s
    case ClaimRow(t, o) =>
      if t in s.sessions && Claimable(cfg, s, t, s.sessions[t], o) then Put(s, t, AtClaim(s.db, s.sessions[t], o)) else s
    case ClaimDone(t) =>
      if t in s.sessions && s.sessions[t].pc == Claim then
        var x := s.sessions[t];
        Put(s, t, if x.claimed == [] then Finish(x, Swept(0)) else x.(pc := StockTest))
      else s
    case Deny(t) =>
      if t in s.sessions && s.sessions[t].pc == Find && MayDeny(s.db, s.sessions[t].request) then
        Put(s, t, Finish(s.sessions[t], Forbidden))
      else s
    case Abort(t) =>
      if t in s.sessions && s.sessions[t].pc != Done then Put(s, t, Finish(s.sessions[t], ConnectionLost)) else s
    case Tick(elapsed) => s.(now := s.now + elapsed)
    case NewProduct(p, price, quantity) => s.(db := Do(s.db, AddProduct(p, price, quantity)))
  }

  ghost function Execute(cfg: Config, s: System, labels: seq<Label>): System {
    if labels == [] then s
    else Next(cfg, Execute(cfg, s, labels[..|labels|-1]), labels[|labels|-1])
  }

  /** Nothing in flight yet, over any tables whose books balance. */
  ghost predicate Start(s: System) {
    Inv(s.db) && s.sessions == map[] && s.maker == map[] && forall o :: o in s.db.orders ==> o < s.nextId
  }
}
