/** Every statement-level run commits a run of the atomic lifecycle, and disturbs no open session. */
module Refinement {
  import opened Tables
  import opened Lifecycle
  import opened Transactions
  import opened Sessions

  ghost predicate Apart(s: System) {
    forall t, u :: t in s.sessions && u in s.sessions && t != u ==>
      s.sessions[t].orders.Keys !! s.sessions[u].orders.Keys && s.sessions[t].stock.Keys !! s.sessions[u].stock.Keys
  }

  /** Ids come from one sequence: none is reused, and each session's own insert is on record. */
  ghost predicate IdsOk(s: System) {
    (forall o :: o in s.db.orders ==> o < s.nextId) &&
    (forall o :: o in s.maker ==> o < s.nextId) &&
    forall t :: t in s.sessions ==> OwnIds(s, t, s.sessions[t])
  }

  predicate OwnIds(s: System, t: Tid, x: Session) {
    (forall o :: o in x.orders ==> o < s.nextId) &&
    (x.made.Some? ==> x.made.value in s.maker && s.maker[x.made.value] == t)
  }

  ghost predicate SessionAt(s: System, t: Tid)
    requires t in s.sessions
  {
    SessionOk(s.db, s.sessions[t]) && s.sessions[t].began <= s.now
  }

  ghost predicate SessionsOk(s: System) {
    forall t {:trigger SessionAt(s, t)} :: t in s.sessions ==> SessionAt(s, t)
  }

  ghost predicate SysInv(s: System) {
    Inv(s.db) && SessionsOk(s) && Apart(s) && IdsOk(s)
  }

  // ---- One session's own step -------------------------------------------------------------

  /** The step takes no lock and draws no id. */
  predicate Quiet(x: Session, x': Session) {
    x'.began == x.began && x'.made == x.made && x'.request == x.request &&
    x'.orders.Keys <= x.orders.Keys && x'.stock.Keys <= x.stock.Keys
  }

  lemma FindOk(db: Shop, x: Session)
    requires SessionOk(db, x) && x.pc == Find
    ensures SessionOk(db, AtFind(db, x)) && Quiet(x, AtFind(db, x))
  {
  }

  /** Zero rows: a FulfillPayment that lost its race already faces a completed, expired or failed order. */
  lemma NoOrderRowOk(db: Shop, x: Session)
    requires RowsFit(db) && NothingWritten(x) && Targets(db, x)
    requires x.order in db.orders ==> !OrderGuard(x.request, db.orders[x.order])
    ensures SessionOk(db, NoOrderRow(x)) && Quiet(x, NoOrderRow(x))
  {
    if x.order in db.orders {
      assert RowFits(db, x.order);
    }
  }

  lemma OrderTestOk(db: Shop, x: Session)
    requires RowsFit(db) && SessionOk(db, x) && x.pc == OrderTest
    ensures SessionOk(db, AtOrderTest(db, x)) && Quiet(x, AtOrderTest(db, x))
  {
    if !(x.order in db.orders && OrderGuard(x.request, db.orders[x.order])) {
      NoOrderRowOk(db, x);
    }
  }

  lemma WriteEndOk(db: Shop, x: Session)
    requires Ends(x.request) && Targets(db, x) && NothingWritten(x)
    requires x.order in db.orders && OrderGuard(x.request, db.orders[x.order])
    ensures SessionOk(db, WriteEnd(x, db.orders[x.order]))
  {
    var x' := WriteEnd(x, db.orders[x.order]);
    forall p
      ensures RowSettled(db, x', p)
    {
      assert x'.claimed[..x'.settled] == [];
    }
  }

  lemma RecheckOk(db: Shop, x: Session)
    requires Inv(db) && SessionOk(db, x) && x.pc == Recheck
    ensures SessionOk(db, AtRecheck(db, x)) && Quiet(x, AtRecheck(db, x))
  {
    if x.request.FulfillPayment? {
      assert RowFits(db, x.order);
      var found := FindByIntent(db.orders, x.request.intent);
      assert SameIntent(db.orders, found.value, x.order);
    }
  }

  lemma InsertOk(db: Shop, x: Session, id: OrderId)
    requires SessionOk(db, x) && x.pc == Insert && id !in db.orders
    ensures x.request.Buy?
    ensures SessionOk(db, x.(made := Some(id), orders := map[id := InsertedRow(x, x.price)],
                             pc := if x.request.arm == ReserveLast then StockTest else Commit))
  {
  }

  lemma StockTestOk(db: Shop, x: Session)
    requires Inv(db) && SessionOk(db, x) && x.pc in {StockTest, StockWait}
    ensures var p := StockProduct(x);
      if p.Some? && StockMatches(db, x, p.value) then SessionOk(db, x.(pc := StockWait))
      else SessionOk(db, NoStockRow(x)) && Quiet(x, NoStockRow(x))
  {
    if !x.request.Buy? {
      BackstopHolds(db, x);
      EndingOkAt(db, x, StockWait);
    }
  }

  lemma WriteStockOk(db: Shop, x: Session, p: ProductId)
    requires Inv(db) && SessionOk(db, x) && x.pc == StockWait && !(x.request.Buy? && x.request.arm == Cte)
    requires StockProduct(x) == Some(p) && StockMatches(db, x, p)
    ensures SessionOk(db, WriteStock(db, x, p)) && StockCheck(WriteStock(db, x, p).stock[p])
  {
    if x.request.Buy? {
      assert Accounted(db, p);
    } else {
      BackstopHolds(db, x);
      SettlingKeepsOk(db, x, p);
    }
  }

  lemma ClaimOk(db: Shop, x: Session, o: OrderId)
    requires SessionOk(db, x) && x.pc == Claim && o !in x.claimed && o in db.orders
    requires MayEnd(db.orders[o].status, Expired) && Overdue(db.orders[o], x.began)
    ensures SessionOk(db, AtClaim(db, x, o))
  {
    var x' := AtClaim(db, x, o);
    forall p
      ensures RowSettled(db, x', p)
    {
      assert x.claimed[..0] == x'.claimed[..0];
      assert RowSettled(db, x, p);
    }
  }

  // ---- What a session commits -------------------------------------------------------------

  function EndingAction(x: Session): Action
    requires Ends(x.request)
  {
    if x.request.SweepExpired? then Sweep(x.claimed, x.began) else End(x.order, Target(x.request))
  }

  function BuyAction(x: Session, id: OrderId): Action
    requires x.request.Buy?
  {
    Reserve(id, x.request.customer, x.request.product, x.began, x.request.expiresAt)
  }

  function PaymentAction(x: Session): Action
    requires x.request.StartPayment?
  {
    Checkout(x.order, x.request.intent, x.request.expiresAt)
  }

  /** Committing the rows of `x` is exactly the atomic action, and the reply it will give is true. */
  ghost predicate Commits(db: Shop, x: Session, a: Action) {
    Enabled(db, a) && Do(db, a) == Merge(db, x) && AnswerOk(Merge(db, x), Finish(x, CommitReply(x)))
  }

  lemma SweepCommits(db: Shop, x: Session)
    requires Inv(db) && EndingOk(db, x) && x.settled == |x.claimed| && x.request.SweepExpired?
    ensures Commits(db, x, EndingAction(x))
  {
    MergeIsEndAll(db, x);
    ClaimedIsStocked(db, x, |x.claimed|);
    EndAllOnlyEnds(db, x.claimed, Expired);
    assert x.claimed[..|x.claimed|] == x.claimed;
  }

  lemma SingleEndCommits(db: Shop, x: Session)
    requires Inv(db) && EndingOk(db, x) && x.settled == |x.claimed| && !x.request.SweepExpired?
    ensures Commits(db, x, EndingAction(x))
  {
    MergeIsEndAll(db, x);
    assert x.claimed[..0] == [] && x.order in x.claimed;
    assert EndAll(db, x.claimed, Target(x.request)) == EndOne(db, x.order, Target(x.request));
    assert RowFits(db, x.order);
  }

  lemma BuyCommits(db: Shop, x: Session)
    requires BuyOk(db, x) && x.pc == Commit
    ensures Commits(db, x, BuyAction(x, x.made.value))
  {
    var t := Do(db, BuyAction(x, x.made.value));
    assert t.orders == Merge(db, x).orders && t.stock == Merge(db, x).stock;
  }

  lemma CteCommits(db: Shop, x: Session, id: OrderId)
    requires Inv(db) && BuyOk(db, x) && x.pc == StockWait && x.request.arm == Cte && id !in db.orders
    requires StockMatches(db, x, x.request.product)
    ensures var p := x.request.product;
      p in db.products && StockCheck(WriteStock(db, x, p).stock[p]) &&
      Commits(db, CteRows(db, x, id), BuyAction(x, id))
  {
    var x' := CteRows(db, x, id);
    assert Accounted(db, x.request.product);
    var t := Do(db, BuyAction(x, id));
    assert t.orders == Merge(db, x').orders && t.stock == Merge(db, x').stock;
  }

  lemma PaymentCommits(db: Shop, x: Session)
    requires x.request.StartPayment? && Targets(db, x) && NothingWritten(x)
    requires x.order in db.orders && db.orders[x.order].status == Pending && IntentFree(db.orders, x.request.intent)
    ensures Commits(db, WritePayment(x, db.orders[x.order]), PaymentAction(x))
  {
    var x' := WritePayment(x, db.orders[x.order]);
    assert WithIntent(db, x.order, x.request.intent, x.request.expiresAt).orders == Merge(db, x').orders;
    assert db.stock == Merge(db, x').stock;
  }

  // ---- The same, among all the other sessions ---------------------------------------------

  ghost predicate LocksFree(s: System, t: Tid, x: Session) {
    (forall o :: o in x.orders ==> !OrderLocked(s, t, o)) && (forall p :: p in x.stock ==> !StockLocked(s, t, p))
  }

  lemma PutSessions(s: System, t: Tid, x: Session)
    requires SessionsOk(s) && SessionOk(s.db, x) && x.began <= s.now
    ensures SessionsOk(Put(s, t, x))
  {
    forall u | u in Put(s, t, x).sessions
      ensures SessionAt(Put(s, t, x), u)
    {
      assert u in s.sessions && u != t ==> SessionAt(s, u);
    }
  }

  lemma PutApart(s: System, t: Tid, x: Session)
    requires Apart(s) && LocksFree(s, t, x)
    ensures Apart(Put(s, t, x))
  {
  }

  /** A step that changes one session and takes only free locks keeps the invariant. */
  lemma PutKeeps(s: System, t: Tid, x: Session)
    requires SysInv(s) && SessionOk(s.db, x) && x.began <= s.now && LocksFree(s, t, x) && OwnIds(s, t, x)
    ensures SysInv(Put(s, t, x))
  {
    PutSessions(s, t, x);
    PutApart(s, t, x);
  }

  lemma OwnLocksFree(s: System, t: Tid)
    requires Apart(s) && t in s.sessions
    ensures LocksFree(s, t, s.sessions[t])
  {
  }

  lemma QuietKeeps(s: System, t: Tid, x: Session)
    requires SysInv(s) && t in s.sessions && SessionOk(s.db, x) && Quiet(s.sessions[t], x)
    ensures SysInv(Put(s, t, x))
  {
    OwnLocksFree(s, t);
    assert SessionAt(s, t) && OwnIds(s, t, s.sessions[t]);
    PutKeeps(s, t, x);
  }

  lemma OthersUnmoved(s: System, t: Tid, x: Session, u: Tid)
    requires LocksFree(s, t, x) && Evolves(s.db, Merge(s.db, x)) && u in s.sessions && u != t
    ensures Unmoved(s.db, Merge(s.db, x), s.sessions[u])
  {
    var y := s.sessions[u];
    assert forall o :: o in x.orders ==> o !in y.orders;
    assert forall p :: p in x.stock ==> p !in y.stock;
  }

  lemma LandSessions(s: System, t: Tid, x: Session, lost: bool)
    requires SessionsOk(s) && RowsFit(s.db) && LocksFree(s, t, x) && Evolves(s.db, Merge(s.db, x)) && x.began <= s.now
    requires AnswerOk(Merge(s.db, x), Finish(x, CommitReply(x)))
    ensures SessionsOk(Land(s, t, x, lost))
  {
    forall u | u in Land(s, t, x, lost).sessions
      ensures SessionAt(Land(s, t, x, lost), u)
    {
      if u != t {
        assert SessionAt(s, u);
        OthersUnmoved(s, t, x, u);
        SessionFrame(s.db, Merge(s.db, x), s.sessions[u]);
      }
    }
  }

  lemma LandIds(s: System, t: Tid, x: Session, lost: bool)
    requires IdsOk(s) && OwnIds(s, t, x)
    ensures IdsOk(Land(s, t, x, lost))
  {
  }

  lemma LandApart(s: System, t: Tid, x: Session, lost: bool)
    requires Apart(s) && LocksFree(s, t, x)
    ensures Apart(Land(s, t, x, lost))
  {
    PutApart(s, t, Finish(x, ConnectionLost));
  }

  /** Committing rows the session has locked is one atomic action, and disturbs no other session. */
  lemma LandKeeps(s: System, t: Tid, x: Session, a: Action, lost: bool)
    requires SysInv(s) && x.began <= s.now && LocksFree(s, t, x) && OwnIds(s, t, x) && Commits(s.db, x, a)
    ensures SysInv(Land(s, t, x, lost)) && Land(s, t, x, lost).db == Do(s.db, a)
  {
    hide Balanced, RowsFit, IntentsUnique, SessionsOk, Apart, IdsOk, OwnIds, LocksFree, Do, Enabled, Evolves, AnswerOk;
    DoKeepsInv(s.db, a);
    DoEvolves(s.db, a);
    LandSessions(s, t, x, lost);
    LandIds(s, t, x, lost);
    LandApart(s, t, x, lost);
  }

  lemma NewProductKeeps(s: System, a: Action)
    requires SysInv(s) && a.AddProduct? && Enabled(s.db, a)
    ensures SysInv(s.(db := Do(s.db, a)))
  {
    var s' := s.(db := Do(s.db, a));
    DoKeepsInv(s.db, a);
    DoEvolves(s.db, a);
    forall t | t in s.sessions
      ensures SessionAt(s', t)
    {
      assert SessionAt(s, t);
      SessionFrame(s.db, s'.db, s.sessions[t]);
    }
  }
}
