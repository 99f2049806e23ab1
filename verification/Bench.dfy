/** The load test's verdict: what the clients counted against what the tables hold, and the books of every product. */
module Bench {
  import opened Tables
  import opened Lifecycle
  import opened Transactions
  import opened Refinement
  import opened Runs

  // ---- The checks -------------------------------------------------------------------------

  datatype InvariantCheck = InvariantCheck(name: string, ok: bool)

  /** Equality when every client got its answer, else a range. */
  predicate CountsAgree(orders: nat, reserved: nat, unknown: nat) {
    if unknown == 0 then orders == reserved else reserved <= orders <= reserved + unknown
  }

  predicate ProductAgrees(db: Shop, p: ProductId, initialQty: int) {
    p in db.stock && 0 <= db.stock[p].reserved <= db.stock[p].quantity &&
    db.stock[p].reserved == Count(db.orders, p, LIVE) && Count(db.orders, p, LIVE + SOLD) <= initialQty
  }

  /**
   * What the checks of a product see of its books, and what they do not: given them, the books balance
   * exactly if no unit is missing between the initial quantity, what is left and what was sold.
   */
  lemma BooksBalanceIff(db: Shop, p: ProductId)
    requires p in db.products && p in db.stock
    ensures Accounted(db, p) <==>
      ProductAgrees(db, p, db.products[p].initial) && db.stock[p].quantity <= MAX_INT32 &&
      db.stock[p].quantity + Count(db.orders, p, SOLD) == db.products[p].initial
  {
    assert OrdersIn(db.orders, p, LIVE + SOLD) == OrdersIn(db.orders, p, LIVE) + OrdersIn(db.orders, p, SOLD);
  }

  /** Free units that vanish from the quantity of balanced books go unnoticed by every check. */
  lemma LostUnitsPass(db: Shop, p: ProductId, lost: nat)
    requires p in db.products && p in db.stock && Accounted(db, p) && 0 < lost <= db.stock[p].quantity - db.stock[p].reserved
    ensures var db' := db.(stock := db.stock[p := db.stock[p].(quantity := db.stock[p].quantity - lost)]);
      ProductAgrees(db', p, db.products[p].initial) && !Accounted(db', p)
  {
    var db' := db.(stock := db.stock[p := db.stock[p].(quantity := db.stock[p].quantity - lost)]);
    BooksBalanceIff(db, p);
    BooksBalanceIff(db', p);
  }

  /** Five units at first, three left, none sold, and the checks pass. */
  lemma TwoLostUnitsPass()
    ensures var db := Shop(map[7 := Product(500, 5)], map[7 := Stock(3, 0)], map[]);
      ProductAgrees(db, 7, 5) && !Accounted(db, 7)
  {
    var db := Shop(map[7 := Product(500, 5)], map[7 := Stock(5, 0)], map[]);
    assert OrdersIn(db.orders, 7, LIVE) == {} && OrdersIn(db.orders, 7, SOLD) == {};
    LostUnitsPass(db, 7, 2);
    assert db.stock[7 := Stock(3, 0)] == map[7 := Stock(3, 0)];
  }

  predicate AllOk(checks: seq<InvariantCheck>) {
    forall i :: 0 <= i < |checks| ==> checks[i].ok
  }

  lemma AllOkTogether(first: seq<InvariantCheck>, second: seq<InvariantCheck>)
    ensures AllOk(first + second) <==> AllOk(first) && AllOk(second)
  {
    var all := first + second;
    forall i | 0 <= i < |second|
      ensures second[i] == all[|first| + i]
    {
    }
    if AllOk(all) {
      forall i | 0 <= i < |first|
        ensures first[i].ok
      {
        assert all[i].ok;
      }
    }
  }

  method CheckProduct(db: Shop, p: ProductId, initialQty: int) returns (checks: seq<InvariantCheck>)
    ensures AllOk(checks) <==> ProductAgrees(db, p, initialQty)
  {
    hide Count;
    if p !in db.stock {
      checks := [InvariantCheck("stock_readable", false)];
      assert !checks[0].ok;
      return;
    }
    var row := db.stock[p];
    var live, sold := Count(db.orders, p, LIVE), Count(db.orders, p, LIVE + SOLD);
    checks := [
      InvariantCheck("num_reserved_non_negative", row.reserved >= 0),
      InvariantCheck("num_reserved_within_quantity", row.reserved <= row.quantity),
      InvariantCheck("reserved_matches_live_orders", row.reserved == live),
      InvariantCheck("orders_within_initial_quantity", sold <= initialQty)];
    assert AllOk(checks) <==> checks[0].ok && checks[1].ok && checks[2].ok && checks[3].ok;
  }

  method Check(db: Shop, productIds: seq<ProductId>, initialQty: int, clientReserved: nat, clientUnknown: nat)
    returns (passed: bool, checks: seq<InvariantCheck>)
    ensures passed <==> CountsAgree(|db.orders|, clientReserved, clientUnknown) && forall p :: p in productIds ==> ProductAgrees(db, p, initialQty)
    ensures passed <==> AllOk(checks)
  {
    hide ProductAgrees;
    checks := [InvariantCheck("client_server_order_count",
      if clientUnknown == 0 then |db.orders| == clientReserved
      else |db.orders| >= clientReserved && |db.orders| <= clientReserved + clientUnknown)];
    assert AllOk(checks) <==> checks[0].ok;
    for i := 0 to |productIds|
      invariant AllOk(checks) <==>
        CountsAgree(|db.orders|, clientReserved, clientUnknown) && forall p :: p in productIds[..i] ==> ProductAgrees(db, p, initialQty)
    {
      var more := CheckProduct(db, productIds[i], initialQty);
      AllOkTogether(checks, more);
      checks := checks + more;
      assert productIds[..i+1] == productIds[..i] + [productIds[i]];
    }
    assert productIds[..|productIds|] == productIds;
    passed := true;
    for i := 0 to |checks|
      invariant passed <==> AllOk(checks[..i])
    {
      assert checks[..i+1] == checks[..i] + [checks[i]];
      if !checks[i].ok {
        passed := false;
      }
    }
    assert checks[..|checks|] == checks;
  }

  // ---- Clients against server -------------------------------------------------------------

  /** Reserve requests that were answered with an order. */
  ghost function Observed(s: System): set<Tid> {
    set t | t in s.sessions && s.sessions[t].request.Buy? && s.sessions[t].pc == Done && s.sessions[t].reply.Placed?
  }

  /** Reserve requests whose answer was lost, on whichever side of the commit. */
  ghost function Unknown(s: System): set<Tid> {
    set t | t in s.sessions && s.sessions[t].request.Buy? && s.sessions[t].pc == Done && s.sessions[t].reply == ConnectionLost
  }

  /** The order rows the run has added. */
  ghost function Created(s0: System, s: System): set<OrderId> {
    set o | o in s.db.orders && o !in s0.db.orders
  }

  /** The session that made the order has ended with that order as its answer, or with no answer. */
  ghost predicate MadeBy(s: System, o: OrderId) {
    o in s.maker && s.maker[o] in s.sessions &&
    var x := s.sessions[s.maker[o]];
    x.request.Buy? && x.pc == Done && x.made == Some(o) && (x.reply == Placed(o) || x.reply == ConnectionLost)
  }

  ghost predicate Attributed(s0: System, s: System) {
    (forall o {:trigger MadeBy(s, o)} :: o in s.db.orders && o !in s0.db.orders ==> MadeBy(s, o)) &&
    (forall o :: o in s.maker ==> s0.nextId <= o) && s0.nextId <= s.nextId
  }

  /** A step draws at most one id, and puts it down to the session that draws it. */
  ghost predicate DrawsAtMostOne(s: System, s': System, t: Tid) {
    (s'.nextId == s.nextId && s'.maker == s.maker) || (s'.nextId == s.nextId + 1 && s'.maker == s.maker[s.nextId := t])
  }

  lemma StockWaitDraws(s: System, t: Tid, lost: bool)
    requires t in s.sessions
    ensures DrawsAtMostOne(s, AtStockWait(s, t, s.sessions[t], lost), t)
  {
    hide StockMatches, StockLocked, StockCheck, WriteStock, Merge, CteRows, NoStockRow, MovesOnly;
  }

  lemma OrderWaitDraws(s: System, t: Tid, lost: bool)
    requires t in s.sessions
    ensures DrawsAtMostOne(s, AtOrderWait(s, t, s.sessions[t], lost), t)
  {
    hide OrderLocked, OrderGuard, NoOrderRow, WritePayment, WriteEnd, IntentFree, Merge, MovesOnly;
  }

  lemma NextDraws(cfg: Config, s: System, l: Label)
    ensures DrawsAtMostOne(s, Next(cfg, s, l), if l.Go? then l.t else 0)
  {
    hide AtOrderWait, AtStockWait, AtFind, AtRecheck, AtOrderTest, AtStockTest, MovesOnly, Merge, ActiveSweeps, Claimable, Do, MayDeny, Finish, Fresh, AtClaim;
    if l.Go? && l.t in s.sessions {
      StockWaitDraws(s, l.t, l.lost);
      OrderWaitDraws(s, l.t, l.lost);
    }
  }

  lemma DoneStays(cfg: Config, s: System, l: Label, t: Tid)
    requires t in s.sessions && s.sessions[t].pc == Done
    ensures t in Next(cfg, s, l).sessions && Next(cfg, s, l).sessions[t] == s.sessions[t]
  {
    hide AtOrderWait, AtStockWait, AtFind, AtRecheck, AtOrderTest, AtStockTest, AtInsert, Merge, ActiveSweeps, Do, MayDeny, Finish, Fresh, AtClaim;
  }

  lemma MadeStays(cfg: Config, s: System, l: Label, o: OrderId)
    requires SysInv(s) && MadeBy(s, o)
    ensures MadeBy(Next(cfg, s, l), o)
  {
    hide Next, Inv, SessionsOk, Apart;
    NextDraws(cfg, s, l);
    DoneStays(cfg, s, l, s.maker[o]);
  }

  /** Only the commit and the single statement move the tables for a buyer. */
  lemma OnlyTwoPlacesLand(s: System, t: Tid, lost: bool)
    requires t in s.sessions && s.sessions[t].request.Buy? && Advance(s, t, lost).db != s.db
    ensures s.sessions[t].pc == Commit || (s.sessions[t].pc == StockWait && s.sessions[t].request.arm == Cte)
  {
    hide MovesOnly, AtFind, AtRecheck, AtOrderTest, AtStockTest, WriteStock, StockMatches, StockLocked, OrderLocked, NoStockRow, NoOrderRow, CteRows, Merge;
  }

  lemma CommittedBuyIsMade(s: System, t: Tid, lost: bool)
    requires SysInv(s) && t in s.sessions && s.sessions[t].request.Buy? && s.sessions[t].pc == Commit
    ensures var a := IntendedBy(s.sessions[t], s.nextId);
      a.Reserve? && MadeBy(Land(s, t, s.sessions[t], lost), a.order)
  {
    hide Inv, Apart, Merge;
    assert SessionAt(s, t) && OwnIds(s, t, s.sessions[t]);
  }

  lemma StatementBuyIsMade(s: System, t: Tid, lost: bool)
    requires SysInv(s) && t in s.sessions && s.sessions[t].request.Buy? && s.sessions[t].request.arm == Cte && s.sessions[t].pc == StockWait
    requires AtStockWait(s, t, s.sessions[t], lost).db != s.db
    ensures var a := IntendedBy(s.sessions[t], s.nextId);
      a.Reserve? && MadeBy(AtStockWait(s, t, s.sessions[t], lost), a.order)
  {
    hide Inv, Apart, IdsOk, Merge, MovesOnly, StockLocked, StockCheck;
    assert SessionAt(s, t);
  }

  lemma LandedBuyIsMade(s: System, t: Tid, lost: bool)
    requires SysInv(s) && t in s.sessions && s.sessions[t].request.Buy? && Advance(s, t, lost).db != s.db
    ensures var a := IntendedBy(s.sessions[t], s.nextId);
      a.Reserve? && MadeBy(Advance(s, t, lost), a.order)
  {
    hide SysInv, MadeBy, IntendedBy, AtStockWait, Land, MovesOnly;
    OnlyTwoPlacesLand(s, t, lost);
    if s.sessions[t].pc == Commit {
      CommittedBuyIsMade(s, t, lost);
    } else {
      StatementBuyIsMade(s, t, lost);
    }
  }

  lemma {:induction false} NewOrderIsMade(cfg: Config, s: System, l: Label, o: OrderId)
    requires SysInv(s) && o in Next(cfg, s, l).db.orders && o !in s.db.orders
    ensures MadeBy(Next(cfg, s, l), o)
  {
    hide Inv, SessionsOk, Apart, IdsOk, MadeBy, Do, Advance, Enabled, ActiveSweeps, Claimable, MayDeny;
    NextSimulates(cfg, s, l);
    NewOrdersAreReserved(s.db, Intended(s, l), o);
    LandedBuyIsMade(s, l.t, l.lost);
  }

  lemma {:induction false} NextAttributes(cfg: Config, s0: System, s: System, l: Label)
    requires SysInv(s) && Attributed(s0, s)
    ensures Attributed(s0, Next(cfg, s, l))
  {
    hide SysInv, MadeBy, Next;
    var s' := Next(cfg, s, l);
    NextDraws(cfg, s, l);
    forall o | o in s'.db.orders && o !in s0.db.orders
      ensures MadeBy(s', o)
    {
      if o in s.db.orders {
        MadeStays(cfg, s, l, o);
      } else {
        NewOrderIsMade(cfg, s, l, o);
      }
    }
  }

  lemma NewOrdersAreReserved(s: Shop, a: Action, o: OrderId)
    requires Inv(s) && Enabled(s, a) && o in Do(s, a).orders && o !in s.orders
    ensures a.Reserve? && a.order == o
  {
    if a.Sweep? {
      EndAllKeepsInv(s, a.expired, Expired);
    }
  }

  lemma {:induction false} RunAttributes(cfg: Config, s: System, labels: seq<Label>)
    requires Start(s)
    ensures Attributed(s, Execute(cfg, s, labels))
  {
    if labels != [] {
      RunAttributes(cfg, s, labels[..|labels|-1]);
      RunKeepsSysInv(cfg, s, labels[..|labels|-1]);
      NextAttributes(cfg, s, Execute(cfg, s, labels[..|labels|-1]), labels[|labels|-1]);
    }
  }

  lemma {:induction false} InjectionFits<A, B>(all: set<A>, image: map<A, B>, within: set<B>)
    requires forall a :: a in all ==> a in image && image[a] in within
    requires forall a, a' :: a in all && a' in all && image[a] == image[a'] ==> a == a'
    ensures |all| <= |within|
  {
    if all != {} {
      var a :| a in all;
      InjectionFits(all - {a}, image, within - {image[a]});
    }
  }

  /**
   * After any run the order rows added lie between the successes the clients observed and those plus
   * the requests whose outcome they never learned; with nothing unknown the two counts are equal.
   */
  lemma ClientsBoundTheServer(cfg: Config, s: System, labels: seq<Label>)
    requires Start(s)
    ensures var t := Execute(cfg, s, labels);
      |Observed(t)| <= |Created(s, t)| <= |Observed(t)| + |Unknown(t)|
  {
    RunAttributes(cfg, s, labels);
    RunKeepsSysInv(cfg, s, labels);
    var t := Execute(cfg, s, labels);
    var placed := map u | u in Observed(t) :: t.sessions[u].reply.order;
    forall u | u in Observed(t)
      ensures placed[u] in Created(s, t) && placed[u] in t.maker && t.maker[placed[u]] == u
    {
      assert SessionAt(t, u) && OwnIds(t, u, t.sessions[u]);
    }
    InjectionFits(Observed(t), placed, Created(s, t));
    var makers := map o | o in Created(s, t) && o in t.maker :: t.maker[o];
    forall o | o in Created(s, t)
      ensures o in makers && makers[o] in Observed(t) + Unknown(t) && t.sessions[makers[o]].made == Some(o)
    {
      assert MadeBy(t, o);
    }
    InjectionFits(Created(s, t), makers, Observed(t) + Unknown(t));
    assert Observed(t) * Unknown(t) == {};
  }

  /** The load test's check passes after every run over fresh tables, however the requests raced and died. */
  lemma CheckAlwaysPasses(cfg: Config, s: System, labels: seq<Label>, productIds: seq<ProductId>, initialQty: int)
    requires Start(s) && s.db.orders == map[]
    requires forall p :: p in productIds ==> p in s.db.products && s.db.products[p].initial == initialQty
    ensures var t := Execute(cfg, s, labels);
      CountsAgree(|t.db.orders|, |Observed(t)|, |Unknown(t)|) && forall p :: p in productIds ==> ProductAgrees(t.db, p, initialQty)
  {
    var t := Execute(cfg, s, labels);
    ClientsBoundTheServer(cfg, s, labels);
    assert Created(s, t) == t.db.orders.Keys;
    CommitsAtomically(cfg, s, labels);
    RunEvolves(s.db, Effects(cfg, s, labels));
    forall p | p in productIds
      ensures ProductAgrees(t.db, p, initialQty)
    {
      NoOversell(s.db, Effects(cfg, s, labels), p);
    }
  }

  /** A reserve whose connection was lost may have placed its order: an error is not proof of no order. */
  lemma ALostReplyMayHideAnOrder(cfg: Config)
    ensures var labels := [Begin(0, Buy(Cte, 1, 1, 100)), Go(0, false), Go(0, true)];
      var s := Execute(cfg, OneUnit(), labels);
      Start(OneUnit()) && 0 in s.sessions && s.sessions[0].pc == Done && s.sessions[0].reply == ConnectionLost && 0 in s.db.orders
  {
    hide Inv, AtStockWait, MovesOnly;
    var labels := [Begin(0, Buy(Cte, 1, 1, 100)), Go(0, false), Go(0, true)];
    var s0, x := OneUnit(), Fresh(Buy(Cte, 1, 1, 100), 0);
    var s1, s2 := Put(s0, 0, x), Put(s0, 0, x.(pc := StockWait));
    OneUnitIsBalanced();
    ExecuteTwo(cfg, s0, labels[0], labels[1]);
    assert Next(cfg, s0, labels[0]) == s1;
    assert Advance(s1, 0, false) == s2;
    assert labels[..2] == [labels[0], labels[1]];
    LostAtTheCommit(s2, x.(pc := StockWait));
  }

  lemma OneUnitIsBalanced()
    ensures Start(OneUnit())
  {
    var s0 := OneUnit();
    assert OrdersIn(s0.db.orders, 1, LIVE) == {} && OrdersIn(s0.db.orders, 1, SOLD) == {};
  }

  lemma LostAtTheCommit(s: System, x: Session)
    requires x == Fresh(Buy(Cte, 1, 1, 100), 0).(pc := StockWait) && s == Put(OneUnit(), 0, x)
    ensures var s' := Advance(s, 0, true);
      0 in s'.sessions && s'.sessions[0].pc == Done && s'.sessions[0].reply == ConnectionLost && 0 in s'.db.orders
  {
    assert !StockLocked(s, 0, 1);
  }

  function OneUnit(): System {
    System(Shop(map[1 := Product(500, 1)], map[1 := Stock(1, 0)], map[]), 0, 0, map[], map[])
  }
}
