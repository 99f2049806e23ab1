/** Which configurations can deadlock on order and stock rows: exactly those with two real sweepers. */
module Deadlock {
  import opened Tables
  import opened Lifecycle
  import opened Transactions
  import opened Sessions
  import opened Refinement
  import opened Runs

  /** `t` has passed its snapshot test and waits for a row that `u` has written and not committed. */
  ghost predicate WaitsFor(s: System, t: Tid, u: Tid) {
    t in s.sessions && u in s.sessions && t != u &&
    var x, y := s.sessions[t], s.sessions[u];
    (x.pc == OrderWait && x.order in y.orders) ||
    (x.pc == StockWait && StockProduct(x).Some? && StockProduct(x).value in y.stock)
  }

  ghost predicate Cycle(s: System, ts: seq<Tid>) {
    ts != [] && WaitsFor(s, ts[|ts|-1], ts[0]) &&
    forall i :: 0 <= i < |ts| - 1 ==> WaitsFor(s, ts[i], ts[i+1])
  }

  ghost predicate DeadlockFree(cfg: Config) {
    forall s, labels, ts :: Start(s) ==> !Cycle(Execute(cfg, s, labels), ts)
  }

  // ---- One sweeper, or one row per sweep: no cycle ----------------------------------------

  ghost predicate ClaimsBounded(cfg: Config, s: System) {
    forall t :: t in s.sessions ==> |s.sessions[t].claimed| <= if s.sessions[t].request.SweepExpired? then cfg.batch else 1
  }

  ghost predicate SweepsBounded(cfg: Config, s: System) {
    |ActiveSweeps(s)| <= cfg.sweepers && ClaimsBounded(cfg, s)
  }

  lemma {:induction false} SubsetSize<T>(a: set<T>, b: set<T>)
    requires a <= b
    ensures |a| <= |b|
  {
    if a != {} {
      var x :| x in a;
      SubsetSize(a - {x}, b - {x});
    }
  }

  predicate Sweeping(s: System, t: Tid) {
    t in s.sessions && s.sessions[t].request.SweepExpired? && s.sessions[t].pc != Done
  }

  lemma NoNewSweepBy(cfg: Config, s: System, l: Label, t: Tid)
    requires !(l.Begin? && l.request.SweepExpired?) && t in ActiveSweeps(Next(cfg, s, l))
    ensures t in ActiveSweeps(s)
  {
    assert Sweeping(Next(cfg, s, l), t);
    if l.Go? && l.t in s.sessions {
      GoStartsNoSweep(s, l.t, l.lost, t);
    }
  }

  lemma GoStartsNoSweep(s: System, u: Tid, lost: bool, t: Tid)
    requires u in s.sessions && Sweeping(Advance(s, u, lost), t)
    ensures Sweeping(s, t)
  {
    hide AtOrderWait, AtStockWait, AtFind, AtRecheck, AtOrderTest, AtStockTest, AtInsert, Land;
    assert MovesOnly(s, Advance(s, u, lost), u);
    DoneRests(s, u, lost);
  }

  lemma DoneRests(s: System, t: Tid, lost: bool)
    requires t in s.sessions
    ensures s.sessions[t].pc == Done ==> Advance(s, t, lost) == s
  {
  }

  lemma NoNewSweep(cfg: Config, s: System, l: Label)
    requires !(l.Begin? && l.request.SweepExpired?)
    ensures ActiveSweeps(Next(cfg, s, l)) <= ActiveSweeps(s)
  {
    hide ActiveSweeps;
    forall t | t in ActiveSweeps(Next(cfg, s, l))
      ensures t in ActiveSweeps(s)
    {
      NoNewSweepBy(cfg, s, l, t);
    }
  }

  lemma NextClaims(cfg: Config, s: System, l: Label)
    requires ClaimsBounded(cfg, s)
    ensures ClaimsBounded(cfg, Next(cfg, s, l))
  {
    if l.Go? && l.t in s.sessions {
      assert MovesOnly(s, Advance(s, l.t, l.lost), l.t);
    }
  }

  lemma NextBounded(cfg: Config, s: System, l: Label)
    requires SweepsBounded(cfg, s)
    ensures SweepsBounded(cfg, Next(cfg, s, l))
  {
    var s' := Next(cfg, s, l);
    NextClaims(cfg, s, l);
    if l.Begin? && l.request.SweepExpired? {
      if s' != s {
        assert ActiveSweeps(s') == ActiveSweeps(s) + {l.t};
      }
    } else {
      NoNewSweep(cfg, s, l);
      SubsetSize(ActiveSweeps(s'), ActiveSweeps(s));
    }
  }

  lemma {:induction false} RunBounded(cfg: Config, s: System, labels: seq<Label>)
    requires Start(s)
    ensures SweepsBounded(cfg, Execute(cfg, s, labels))
  {
    if labels == [] {
      assert ActiveSweeps(s) == {};
    } else {
      RunBounded(cfg, s, labels[..|labels|-1]);
      NextBounded(cfg, Execute(cfg, s, labels[..|labels|-1]), labels[|labels|-1]);
    }
  }

  /** Orders before stock, and whoever holds stock without being half way through a sweep never waits. */
  function Rank(x: Session): nat {
    if x.pc == OrderWait then 3
    else if x.pc == StockWait then (if x.stock == map[] then 2 else 1)
    else 0
  }

  ghost predicate MidSweep(x: Session) {
    x.request.SweepExpired? && x.pc != Done && |x.claimed| >= 2
  }

  lemma NothingSettledYet(db: Shop, x: Session)
    requires EndingOk(db, x) && x.settled == 0
    ensures x.stock == map[]
  {
    forall p
      ensures p !in x.stock
    {
      assert x.claimed[..0] == [];
      assert RowSettled(db, x, p);
    }
  }

  lemma StockHolderWaits(db: Shop, x: Session)
    requires SessionOk(db, x) && x.pc == StockWait && x.stock != map[]
    ensures MidSweep(x)
  {
    if x.settled == 0 {
      NothingSettledYet(db, x);
    }
  }

  lemma TwoMidSweeps(cfg: Config, s: System, t: Tid, u: Tid)
    requires SweepsBounded(cfg, s) && t in s.sessions && u in s.sessions && t != u
    requires MidSweep(s.sessions[t]) && MidSweep(s.sessions[u])
    ensures cfg.sweepers >= 2 && cfg.batch >= 2
  {
    assert {t, u} <= ActiveSweeps(s);
    SubsetSize({t, u}, ActiveSweeps(s));
  }

  lemma WaitingLowersRank(cfg: Config, s: System, t: Tid, u: Tid)
    requires SysInv(s) && SweepsBounded(cfg, s) && (cfg.sweepers <= 1 || cfg.batch <= 1)
    requires WaitsFor(s, t, u)
    ensures Rank(s.sessions[u]) < Rank(s.sessions[t])
  {
    var x, y := s.sessions[t], s.sessions[u];
    assert SessionAt(s, t) && SessionAt(s, u);
    if x.pc == StockWait && y.pc == StockWait {
      StockHolderWaits(s.db, y);
      if x.stock != map[] {
        StockHolderWaits(s.db, x);
        TwoMidSweeps(cfg, s, t, u);
      }
    }
  }

  lemma {:induction false} RankFallsAlong(cfg: Config, s: System, ts: seq<Tid>, i: nat)
    requires SysInv(s) && SweepsBounded(cfg, s) && (cfg.sweepers <= 1 || cfg.batch <= 1)
    requires Cycle(s, ts) && i < |ts|
    ensures ts[0] in s.sessions && ts[i] in s.sessions && Rank(s.sessions[ts[i]]) <= Rank(s.sessions[ts[0]])
  {
    if i > 0 {
      RankFallsAlong(cfg, s, ts, i - 1);
      WaitingLowersRank(cfg, s, ts[i-1], ts[i]);
    }
  }

  lemma NoCycle(cfg: Config, s: System, labels: seq<Label>, ts: seq<Tid>)
    requires Start(s) && (cfg.sweepers <= 1 || cfg.batch <= 1)
    ensures !Cycle(Execute(cfg, s, labels), ts)
  {
    var now := Execute(cfg, s, labels);
    RunKeepsSysInv(cfg, s, labels);
    RunBounded(cfg, s, labels);
    if Cycle(now, ts) {
      RankFallsAlong(cfg, now, ts, |ts| - 1);
      WaitingLowersRank(cfg, now, ts[|ts|-1], ts[0]);
    }
  }

  // ---- Two sweepers: the cycle ------------------------------------------------------------

  /** Two products with two overdue orders each. */
  function Overdue4(): Shop {
    Shop(map[1 := Product(100, 2), 2 := Product(100, 2)],
         map[1 := Stock(2, 2), 2 := Stock(2, 2)],
         map[10 := NewOrder(1, 1, 100, 0, 0), 11 := NewOrder(1, 2, 100, 0, 0),
             20 := NewOrder(1, 2, 100, 0, 0), 21 := NewOrder(1, 1, 100, 0, 0)])
  }

  lemma Overdue4Balanced()
    ensures Inv(Overdue4())
  {
    var s := Overdue4();
    assert OrdersIn(s.orders, 1, LIVE) == {10, 21} && OrdersIn(s.orders, 1, SOLD) == {};
    assert OrdersIn(s.orders, 2, LIVE) == {11, 20} && OrdersIn(s.orders, 2, SOLD) == {};
    assert Accounted(s, 1) && Accounted(s, 2);
  }

  function Expire(ids: seq<OrderId>): map<OrderId, Order>
    requires forall o :: o in ids ==> o in Overdue4().orders
  {
    if ids == [] then map[]
    else
      var last := ids[|ids|-1];
      Expire(ids[..|ids|-1])[last := Overdue4().orders[last].(status := Expired)]
  }

  /** A sweep over these orders, after it has released the first `settled` of them. */
  function Sweeper(pc: Pc, claimed: seq<OrderId>, settled: nat): Session
    requires forall o :: o in claimed ==> o in Overdue4().orders
    requires settled <= 1 && settled <= |claimed|
  {
    var stock := if settled == 0 then map[] else map[Overdue4().orders[claimed[0]].product := Stock(2, 1)];
    Session(SweepExpired, 1, pc, 0, 0, claimed, settled, None, Expire(claimed), stock, Unanswered)
  }

  /** The system with the two sweeps as given. */
  function With(a: Session, b: Session): System {
    System(Overdue4(), 1, 30, map[], map[0 := a, 1 := b])
  }

  const NOTHING_YET: System := System(Overdue4(), 1, 30, map[], map[])

  lemma SweeperWrites(pc: Pc, claimed: seq<OrderId>, o: OrderId)
    requires (forall c :: c in claimed ==> c in Overdue4().orders) && o in Overdue4().orders
    ensures AtClaim(Overdue4(), Sweeper(pc, claimed, 0), o) == Sweeper(pc, claimed + [o], 0)
  {
    assert (claimed + [o])[..|claimed|] == claimed;
  }

  lemma TwoExpire(a: OrderId, b: OrderId)
    requires a in Overdue4().orders && b in Overdue4().orders && a != b
    ensures Expire([a, b]) == map[a := Overdue4().orders[a].(status := Expired), b := Overdue4().orders[b].(status := Expired)]
    ensures Expire([a]) == map[a := Overdue4().orders[a].(status := Expired)]
  {
    assert [a, b][..1] == [a] && [a][..0] == [];
    assert Expire([a]) == map[a := Overdue4().orders[a].(status := Expired)];
  }

  /** Both halves of the stock statement of a sweep over these orders. */
  lemma SweeperTests(claimed: seq<OrderId>, settled: nat)
    requires claimed in {[10, 11], [20, 21]} && settled <= 1
    ensures AtStockTest(Overdue4(), Sweeper(StockTest, claimed, settled)) == Sweeper(StockWait, claimed, settled)
  {
    TwoExpire(claimed[0], claimed[1]);
  }

  lemma SweeperSettles(claimed: seq<OrderId>)
    requires claimed in {[10, 11], [20, 21]}
    ensures var x := Sweeper(StockWait, claimed, 0);
      var p := Overdue4().orders[claimed[0]].product;
      StockProduct(x) == Some(p) && StockMatches(Overdue4(), x, p) &&
      WriteStock(Overdue4(), x, p) == Sweeper(StockTest, claimed, 1)
  {
    var x, p := Sweeper(StockWait, claimed, 0), Overdue4().orders[claimed[0]].product;
    TwoExpire(claimed[0], claimed[1]);
    assert WriteStock(Overdue4(), x, p).stock == Sweeper(StockTest, claimed, 1).stock;
  }

  /** What the machine does to one of two sweeps, the other left as it is. */
  lemma ClaimStep(cfg: Config, a: Session, b: Session, first: bool, o: OrderId)
    requires cfg.batch >= 2 && o in {10, 11, 20, 21}
    requires var x, y := if first then a else b, if first then b else a;
      x.request.SweepExpired? && x.pc == Claim && |x.claimed| <= 1 && o !in x.claimed && x.began == 1 && o !in y.orders
    ensures var x := AtClaim(Overdue4(), if first then a else b, o);
      Next(cfg, With(a, b), ClaimRow(if first then 0 else 1, o)) == if first then With(x, b) else With(a, x)
  {
    hide Advance, MovesOnly, ActiveSweeps, Do, MayDeny, Merge;
    var s, t := With(a, b), if first then 0 else 1;
    assert !OrderLocked(s, t, o);
    assert Claimable(cfg, s, t, s.sessions[t], o);
    var x := AtClaim(Overdue4(), s.sessions[t], o);
    assert s.sessions[t := x] == (if first then With(x, b) else With(a, x)).sessions;
  }

  lemma TestStep(cfg: Config, a: Session, b: Session, first: bool)
    requires (if first then a else b).pc == StockTest
    ensures var x := AtStockTest(Overdue4(), if first then a else b);
      Next(cfg, With(a, b), Go(if first then 0 else 1, false)) == if first then With(x, b) else With(a, x)
  {
    var s, t := With(a, b), if first then 0 else 1;
    var x := AtStockTest(Overdue4(), s.sessions[t]);
    assert s.sessions[t := x] == (if first then With(x, b) else With(a, x)).sessions;
    assert Advance(s, t, false) == Put(s, t, x);
  }

  lemma WaitStep(cfg: Config, a: Session, b: Session, first: bool, p: ProductId)
    requires var x, y := if first then a else b, if first then b else a;
      x.pc == StockWait && !x.request.Buy? && StockProduct(x) == Some(p) && p !in y.stock &&
      StockMatches(Overdue4(), x, p) && StockCheck(WriteStock(Overdue4(), x, p).stock[p])
    ensures var x := WriteStock(Overdue4(), if first then a else b, p);
      Next(cfg, With(a, b), Go(if first then 0 else 1, false)) == if first then With(x, b) else With(a, x)
  {
    var s, t := With(a, b), if first then 0 else 1;
    var x := WriteStock(Overdue4(), s.sessions[t], p);
    assert !StockLocked(s, t, p);
    assert s.sessions[t := x] == (if first then With(x, b) else With(a, x)).sessions;
    assert Advance(s, t, false) == AtStockWait(s, t, s.sessions[t], false) == Put(s, t, x);
  }

  lemma BothBegin(cfg: Config)
    requires cfg.sweepers >= 2
    ensures Execute(cfg, NOTHING_YET, [Begin(0, SweepExpired), Begin(1, SweepExpired)])
         == With(Sweeper(Claim, [], 0), Sweeper(Claim, [], 0))
  {
    var one := NOTHING_YET.(sessions := map[0 := Sweeper(Claim, [], 0)]);
    assert ActiveSweeps(NOTHING_YET) == {} && ActiveSweeps(one) == {0};
    assert Sweeper(Claim, [], 0) == Fresh(SweepExpired, 1);
    assert Next(cfg, NOTHING_YET, Begin(0, SweepExpired)) == one;
    assert Next(cfg, one, Begin(1, SweepExpired)).sessions == With(Sweeper(Claim, [], 0), Sweeper(Claim, [], 0)).sessions;
    ExecuteTwo(cfg, NOTHING_YET, Begin(0, SweepExpired), Begin(1, SweepExpired));
  }

  lemma FirstClaims(cfg: Config)
    requires cfg.batch >= 2
    ensures Execute(cfg, With(Sweeper(Claim, [], 0), Sweeper(Claim, [], 0)), [ClaimRow(0, 10), ClaimRow(0, 11)])
         == With(Sweeper(Claim, [10, 11], 0), Sweeper(Claim, [], 0))
  {
    var x0, x1, y := Sweeper(Claim, [], 0), Sweeper(Claim, [10], 0), Sweeper(Claim, [], 0);
    SweeperWrites(Claim, [], 10);
    SweeperWrites(Claim, [10], 11);
    ClaimStep(cfg, x0, y, true, 10);
    ClaimStep(cfg, x1, y, true, 11);
    assert [] + [10] == [10] && [10] + [11] == [10, 11];
    ExecuteTwo(cfg, With(x0, y), ClaimRow(0, 10), ClaimRow(0, 11));
  }

  lemma SecondClaims(cfg: Config)
    requires cfg.batch >= 2
    ensures Execute(cfg, With(Sweeper(Claim, [10, 11], 0), Sweeper(Claim, [], 0)), [ClaimRow(1, 20), ClaimRow(1, 21)])
         == With(Sweeper(Claim, [10, 11], 0), Sweeper(Claim, [20, 21], 0))
  {
    var x, y0, y1 := Sweeper(Claim, [10, 11], 0), Sweeper(Claim, [], 0), Sweeper(Claim, [20], 0);
    TwoExpire(10, 11);
    SweeperWrites(Claim, [], 20);
    SweeperWrites(Claim, [20], 21);
    ClaimStep(cfg, x, y0, false, 20);
    ClaimStep(cfg, x, y1, false, 21);
    assert [] + [20] == [20] && [20] + [21] == [20, 21];
    ExecuteTwo(cfg, With(x, y0), ClaimRow(1, 20), ClaimRow(1, 21));
  }

  lemma BothHaveClaimed(cfg: Config)
    ensures Execute(cfg, With(Sweeper(Claim, [10, 11], 0), Sweeper(Claim, [20, 21], 0)), [ClaimDone(0), ClaimDone(1)])
         == With(Sweeper(StockTest, [10, 11], 0), Sweeper(StockTest, [20, 21], 0))
  {
    var a, b := Sweeper(Claim, [10, 11], 0), Sweeper(Claim, [20, 21], 0);
    var a', b' := Sweeper(StockTest, [10, 11], 0), Sweeper(StockTest, [20, 21], 0);
    assert Next(cfg, With(a, b), ClaimDone(0)).sessions == With(a', b).sessions;
    assert Next(cfg, With(a', b), ClaimDone(1)).sessions == With(a', b').sessions;
    ExecuteTwo(cfg, With(a, b), ClaimDone(0), ClaimDone(1));
  }

  lemma FirstReleases(cfg: Config)
    ensures Execute(cfg, With(Sweeper(StockTest, [10, 11], 0), Sweeper(StockTest, [20, 21], 0)), [Go(0, false), Go(0, false)])
         == With(Sweeper(StockTest, [10, 11], 1), Sweeper(StockTest, [20, 21], 0))
  {
    var b := Sweeper(StockTest, [20, 21], 0);
    SweeperTests([10, 11], 0);
    SweeperSettles([10, 11]);
    TestStep(cfg, Sweeper(StockTest, [10, 11], 0), b, true);
    WaitStep(cfg, Sweeper(StockWait, [10, 11], 0), b, true, 1);
    ExecuteTwo(cfg, With(Sweeper(StockTest, [10, 11], 0), b), Go(0, false), Go(0, false));
    assert With(WriteStock(Overdue4(), Sweeper(StockWait, [10, 11], 0), 1), b) == With(Sweeper(StockTest, [10, 11], 1), b);
  }

  lemma SecondReleases(cfg: Config)
    ensures Execute(cfg, With(Sweeper(StockTest, [10, 11], 1), Sweeper(StockTest, [20, 21], 0)), [Go(1, false), Go(1, false)])
         == With(Sweeper(StockTest, [10, 11], 1), Sweeper(StockTest, [20, 21], 1))
  {
    var a := Sweeper(StockTest, [10, 11], 1);
    SweeperTests([20, 21], 0);
    SweeperSettles([20, 21]);
    TestStep(cfg, a, Sweeper(StockTest, [20, 21], 0), false);
    WaitStep(cfg, a, Sweeper(StockWait, [20, 21], 0), false, 2);
    ExecuteTwo(cfg, With(a, Sweeper(StockTest, [20, 21], 0)), Go(1, false), Go(1, false));
  }

  lemma BothAskForMore(cfg: Config)
    ensures Execute(cfg, With(Sweeper(StockTest, [10, 11], 1), Sweeper(StockTest, [20, 21], 1)), [Go(0, false), Go(1, false)])
         == With(Sweeper(StockWait, [10, 11], 1), Sweeper(StockWait, [20, 21], 1))
  {
    SweeperTests([10, 11], 1);
    SweeperTests([20, 21], 1);
    TestStep(cfg, Sweeper(StockTest, [10, 11], 1), Sweeper(StockTest, [20, 21], 1), true);
    TestStep(cfg, Sweeper(StockWait, [10, 11], 1), Sweeper(StockTest, [20, 21], 1), false);
    ExecuteTwo(cfg, With(Sweeper(StockTest, [10, 11], 1), Sweeper(StockTest, [20, 21], 1)), Go(0, false), Go(1, false));
  }

  lemma EachWaitsForTheOther()
    ensures Cycle(With(Sweeper(StockWait, [10, 11], 1), Sweeper(StockWait, [20, 21], 1)), [0, 1])
  {
    var a, b := Sweeper(StockWait, [10, 11], 1), Sweeper(StockWait, [20, 21], 1);
    TwoExpire(10, 11);
    TwoExpire(20, 21);
    assert StockProduct(a) == Some(2) && StockProduct(b) == Some(1);
    assert WaitsFor(With(a, b), 0, 1) && WaitsFor(With(a, b), 1, 0);
  }

  lemma Reaches(cfg: Config, s0: System, s1: System, s2: System, first: seq<Label>, second: seq<Label>)
    requires Execute(cfg, s0, first) == s1 && Execute(cfg, s1, second) == s2
    ensures Execute(cfg, s0, first + second) == s2
  {
    ExecuteConcat(cfg, s0, first, second);
  }

  lemma ClaimsFirst(cfg: Config) returns (labels: seq<Label>)
    requires cfg.sweepers >= 2 && cfg.batch >= 2
    ensures Execute(cfg, NOTHING_YET, labels) == With(Sweeper(StockTest, [10, 11], 0), Sweeper(StockTest, [20, 21], 0))
  {
    var s1 := With(Sweeper(Claim, [], 0), Sweeper(Claim, [], 0));
    var s2 := With(Sweeper(Claim, [10, 11], 0), Sweeper(Claim, [], 0));
    var s3 := With(Sweeper(Claim, [10, 11], 0), Sweeper(Claim, [20, 21], 0));
    var s4 := With(Sweeper(StockTest, [10, 11], 0), Sweeper(StockTest, [20, 21], 0));
    var l1, l2, l3, l4 := [Begin(0, SweepExpired), Begin(1, SweepExpired)], [ClaimRow(0, 10), ClaimRow(0, 11)],
      [ClaimRow(1, 20), ClaimRow(1, 21)], [ClaimDone(0), ClaimDone(1)];
    BothBegin(cfg);
    FirstClaims(cfg);
    SecondClaims(cfg);
    BothHaveClaimed(cfg);
    Reaches(cfg, NOTHING_YET, s1, s2, l1, l2);
    Reaches(cfg, NOTHING_YET, s2, s3, l1 + l2, l3);
    Reaches(cfg, NOTHING_YET, s3, s4, l1 + l2 + l3, l4);
    labels := l1 + l2 + l3 + l4;
  }

  lemma ThenReleases(cfg: Config, claims: seq<Label>) returns (labels: seq<Label>)
    requires Execute(cfg, NOTHING_YET, claims) == With(Sweeper(StockTest, [10, 11], 0), Sweeper(StockTest, [20, 21], 0))
    ensures Execute(cfg, NOTHING_YET, labels) == With(Sweeper(StockWait, [10, 11], 1), Sweeper(StockWait, [20, 21], 1))
  {
    var s0 := With(Sweeper(StockTest, [10, 11], 0), Sweeper(StockTest, [20, 21], 0));
    var s1 := With(Sweeper(StockTest, [10, 11], 1), Sweeper(StockTest, [20, 21], 0));
    var s2 := With(Sweeper(StockTest, [10, 11], 1), Sweeper(StockTest, [20, 21], 1));
    var s3 := With(Sweeper(StockWait, [10, 11], 1), Sweeper(StockWait, [20, 21], 1));
    var l1, l2, l3 := [Go(0, false), Go(0, false)], [Go(1, false), Go(1, false)], [Go(0, false), Go(1, false)];
    FirstReleases(cfg);
    SecondReleases(cfg);
    BothAskForMore(cfg);
    Reaches(cfg, NOTHING_YET, s0, s1, claims, l1);
    Reaches(cfg, NOTHING_YET, s1, s2, claims + l1, l2);
    Reaches(cfg, NOTHING_YET, s2, s3, claims + l1 + l2, l3);
    labels := claims + l1 + l2 + l3;
  }

  /**
   * Sweep 0 claims an order of product 1 then one of product 2, sweep 1 the other way round, and each
   * comes to hold the stock row the other one waits for.
   */
  lemma TwoSweepsDeadlock(cfg: Config) returns (labels: seq<Label>)
    requires cfg.sweepers >= 2 && cfg.batch >= 2
    ensures Start(NOTHING_YET) && Cycle(Execute(cfg, NOTHING_YET, labels), [0, 1])
  {
    Overdue4Balanced();
    labels := ClaimsFirst(cfg);
    labels := ThenReleases(cfg, labels);
    EachWaitsForTheOther();
  }

  /** Order and stock rows cannot deadlock exactly when at most one sweep runs, or each sweep takes one order. */
  lemma DeadlockFreeIff(cfg: Config)
    ensures DeadlockFree(cfg) <==> cfg.sweepers <= 1 || cfg.batch <= 1
  {
    if cfg.sweepers <= 1 || cfg.batch <= 1 {
      forall s, labels, ts | Start(s)
        ensures !Cycle(Execute(cfg, s, labels), ts)
      {
        NoCycle(cfg, s, labels, ts);
      }
    } else {
      var labels := TwoSweepsDeadlock(cfg);
    }
  }
}
