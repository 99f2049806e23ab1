/** What the answers of a statement-level run are worth, however the run was interleaved. */
module Answers {
  import opened Tables
  import opened Lifecycle
  import opened Transactions
  import opened Sessions
  import opened Refinement
  import opened Runs

  /** The books balance after every statement-level run: conservation, no oversell, both constraints. */
  lemma NeverOversold(cfg: Config, s: System, labels: seq<Label>, p: ProductId)
    requires Start(s) && p in Execute(cfg, s, labels).db.products
    ensures var db := Execute(cfg, s, labels).db;
      p in db.stock && StockCheck(db.stock[p]) &&
      db.stock[p].reserved == Count(db.orders, p, LIVE) &&
      db.stock[p].quantity + Count(db.orders, p, SOLD) == db.products[p].initial
  {
    RunKeepsSysInv(cfg, s, labels);
    assert Accounted(Execute(cfg, s, labels).db, p);
  }

  ghost predicate Finished(s: System, t: Tid) {
    t in s.sessions && s.sessions[t].pc == Done
  }

  /** No session of any run is ever told that its stock row was missing, or that a CHECK constraint failed. */
  lemma {:induction false} BackstopsNeverBite(cfg: Config, s: System, labels: seq<Label>, t: Tid)
    requires Start(s) && Finished(Execute(cfg, s, labels), t)
    ensures var x := Execute(cfg, s, labels).sessions[t];
      x.reply != StockRowMissing && (x.reply == ConstraintViolated ==> x.request.StartPayment?)
  {
    RunKeepsSysInv(cfg, s, labels);
    assert SessionAt(Execute(cfg, s, labels), t);
  }

  /**
   * A FulfillPayment that got an answer about an order answers nil exactly when that order is completed
   * and asks for a refund exactly when it is expired or failed; nothing else can have happened to it.
   */
  lemma {:induction false} FulfilmentIsExact(cfg: Config, s: System, labels: seq<Label>, t: Tid)
    requires Start(s) && Finished(Execute(cfg, s, labels), t)
    requires var x := Execute(cfg, s, labels).sessions[t];
      x.request.FulfillPayment? && x.reply != NoRows && x.reply != ConnectionLost
    ensures var x, db := Execute(cfg, s, labels).sessions[t], Execute(cfg, s, labels).db;
      x.order in db.orders && db.orders[x.order].intent == Some(x.request.intent) &&
      (x.reply == Acknowledged <==> db.orders[x.order].status == Completed) &&
      (x.reply.PaidButNotFulfillable? <==> db.orders[x.order].status in {Expired, Failed})
  {
    hide Inv, Apart, IdsOk, Start;
    RunKeepsSysInv(cfg, s, labels);
    assert SessionAt(Execute(cfg, s, labels), t);
  }

  /** An order that can be found by its payment intent is neither pending nor cancelled, in any run. */
  lemma IntentMeansCheckedOut(cfg: Config, s: System, labels: seq<Label>, intent: IntentId)
    requires Start(s)
    ensures var db := Execute(cfg, s, labels).db;
      var found := FindByIntent(db.orders, intent);
      found.Some? ==> db.orders[found.value].status in {AwaitingPayment, Completed, Failed, Expired}
  {
    RunKeepsSysInv(cfg, s, labels);
    var db := Execute(cfg, s, labels).db;
    var found := FindByIntent(db.orders, intent);
    assert found.Some? ==> RowFits(db, found.value);
  }

  /** A Checkout or CancelOrder refused as not pending is right: the order exists and has left that status for good. */
  lemma {:induction false} NotPendingIsTrue(cfg: Config, s: System, labels: seq<Label>, t: Tid)
    requires Start(s) && Finished(Execute(cfg, s, labels), t) && Execute(cfg, s, labels).sessions[t].reply == NotPending
    ensures var r, db := Execute(cfg, s, labels).sessions[t].request, Execute(cfg, s, labels).db;
      (r.StartPayment? || r.CancelOrder?) && r.order in db.orders && db.orders[r.order].status != Pending
  {
    hide Inv, Apart, IdsOk, Start;
    RunKeepsSysInv(cfg, s, labels);
    assert SessionAt(Execute(cfg, s, labels), t);
  }

  // ---- Refusals ---------------------------------------------------------------------------

  predicate Refused(x: Session) {
    x.request.Buy? && (x.reply == OutOfStock || x.pc == Recheck)
  }

  predicate NoFreeUnit(db: Shop, p: ProductId) {
    p !in db.stock || !HasFreeUnit(db.stock[p])
  }

  lemma StockRefusal(db: Shop, x: Session)
    requires SessionOk(db, x) && x.pc in {StockTest, StockWait} && x.request.Buy?
    requires !StockMatches(db, x, x.request.product)
    ensures NoFreeUnit(db, x.request.product) && (x.request.arm != Cte ==> x.request.product in db.stock)
  {
  }

  lemma OnlyStockRefuses(s: System, t: Tid, lost: bool)
    requires t in s.sessions && s.sessions[t].pc !in {StockTest, StockWait}
    requires SessionOk(s.db, s.sessions[t]) && !Refused(s.sessions[t])
    ensures t in Advance(s, t, lost).sessions && !Refused(Advance(s, t, lost).sessions[t])
  {
  }

  lemma StockStep(s: System, t: Tid, lost: bool)
    requires t in s.sessions && s.sessions[t].pc in {StockTest, StockWait} && s.sessions[t].request.Buy?
    requires t in Advance(s, t, lost).sessions && Refused(Advance(s, t, lost).sessions[t]) && !Refused(s.sessions[t])
    ensures !StockMatches(s.db, s.sessions[t], s.sessions[t].request.product)
  {
    hide MovesOnly, Merge, StockLocked, StockCheck;
  }

  lemma OthersRefuseNothing(cfg: Config, s: System, l: Label, t: Tid)
    requires SysInv(s) && t in Next(cfg, s, l).sessions && Refused(Next(cfg, s, l).sessions[t])
    requires !(l.Go? && l.t == t && t in s.sessions)
    ensures t in s.sessions && Refused(s.sessions[t]) && s.sessions[t].request == Next(cfg, s, l).sessions[t].request
  {
    if t in s.sessions {
      assert SessionAt(s, t);
    }
  }

  /**
   * Step `k` of the run is the guarded UPDATE of session `t` that found no row and refused it, and at
   * that moment the product had no free unit.
   */
  ghost predicate RefusedAt(cfg: Config, s: System, labels: seq<Label>, t: Tid, r: Request, k: nat)
    requires k < |labels| && r.Buy?
  {
    var mid, next := Execute(cfg, s, labels[..k]), Next(cfg, Execute(cfg, s, labels[..k]), labels[k]);
    labels[k].Go? && labels[k].t == t && t in mid.sessions && mid.sessions[t].pc in {StockTest, StockWait} &&
    mid.sessions[t].request == r && t in next.sessions && Refused(next.sessions[t]) && NoFreeUnit(mid.db, r.product)
  }

  /** The product existed when the UPDATE found it sold out. */
  ghost predicate ExistedAt(cfg: Config, s: System, labels: seq<Label>, p: ProductId, k: nat)
    requires k < |labels|
  {
    p in Execute(cfg, s, labels[..k]).db.stock
  }

  /** The step that turns a session into a refused one is its own UPDATE, and the refusal is true of its moment. */
  lemma RefusingStep(cfg: Config, s: System, l: Label, t: Tid)
    requires SysInv(s) && t in Next(cfg, s, l).sessions && Refused(Next(cfg, s, l).sessions[t])
    requires !(t in s.sessions && Refused(s.sessions[t]))
    ensures l.Go? && l.t == t && t in s.sessions && s.sessions[t].pc in {StockTest, StockWait}
    ensures s.sessions[t].request == Next(cfg, s, l).sessions[t].request
    ensures NoFreeUnit(s.db, s.sessions[t].request.product)
    ensures s.sessions[t].request.arm != Cte ==> s.sessions[t].request.product in s.db.stock
  {
    if !(l.Go? && l.t == t && t in s.sessions) {
      OthersRefuseNothing(cfg, s, l, t);
    }
    assert SessionAt(s, t);
    assert MovesOnly(s, Advance(s, t, l.lost), t);
    if s.sessions[t].pc !in {StockTest, StockWait} {
      OnlyStockRefuses(s, t, l.lost);
    }
    StockStep(s, t, l.lost);
    StockRefusal(s.db, s.sessions[t]);
  }

  /** A refused session stays refused and keeps its request. */
  lemma RefusedKeepsRequest(cfg: Config, s: System, l: Label, t: Tid)
    requires t in s.sessions
    ensures t in Next(cfg, s, l).sessions && Next(cfg, s, l).sessions[t].request == s.sessions[t].request
  {
    if l.Go? && l.t in s.sessions {
      assert MovesOnly(s, Advance(s, l.t, l.lost), l.t);
    }
  }

  lemma NoSessionsYet(s: System)
    requires Start(s)
    ensures s.sessions == map[]
  {
  }

  /**
   * An out-of-stock answer is justified at the request's own guarded UPDATE: when that found no row the
   * product had no free unit. For the single-statement arm the product need not have existed then, unless
   * it existed from the start; `RefusalIsTrueIff` says exactly when it did.
   */
  lemma {:induction false} OutOfStockWasTrue(cfg: Config, s: System, labels: seq<Label>, t: Tid)
    requires Start(s) && t in Execute(cfg, s, labels).sessions && Refused(Execute(cfg, s, labels).sessions[t])
    ensures var r := Execute(cfg, s, labels).sessions[t].request;
      exists k :: 0 <= k < |labels| && RefusedAt(cfg, s, labels, t, r, k) &&
        (r.arm != Cte || r.product in s.db.products ==> ExistedAt(cfg, s, labels, r.product, k))
  {
    hide RefusedAt, ExistedAt, SysInv, Next;
    assert labels != [] by { NoSessionsYet(s); }
    var before, last := labels[..|labels|-1], labels[|labels|-1];
    var mid := Execute(cfg, s, before);
    var r := Execute(cfg, s, labels).sessions[t].request;
    RunKeepsSysInv(cfg, s, before);
    if t in mid.sessions && Refused(mid.sessions[t]) {
      RefusedKeepsRequest(cfg, mid, last, t);
      OutOfStockWasTrue(cfg, s, before, t);
      var k :| 0 <= k < |before| && RefusedAt(cfg, s, before, t, r, k) &&
        (r.arm != Cte || r.product in s.db.products ==> ExistedAt(cfg, s, before, r.product, k));
      RefusedAtLonger(cfg, s, labels, t, r, k);
    } else {
      RefusedNow(cfg, s, labels, t);
    }
  }

  lemma RefusedAtLonger(cfg: Config, s: System, labels: seq<Label>, t: Tid, r: Request, k: nat)
    requires k < |labels| - 1 && r.Buy?
    ensures RefusedAt(cfg, s, labels[..|labels|-1], t, r, k) ==> RefusedAt(cfg, s, labels, t, r, k)
    ensures ExistedAt(cfg, s, labels[..|labels|-1], r.product, k) ==> ExistedAt(cfg, s, labels, r.product, k)
  {
    hide Next, Refused, NoFreeUnit;
    assert labels[..|labels|-1][..k] == labels[..k];
  }

  lemma RefusedNow(cfg: Config, s: System, labels: seq<Label>, t: Tid)
    requires Start(s) && labels != [] && t in Execute(cfg, s, labels).sessions && Refused(Execute(cfg, s, labels).sessions[t])
    requires var mid := Execute(cfg, s, labels[..|labels|-1]); !(t in mid.sessions && Refused(mid.sessions[t]))
    ensures var r, k := Execute(cfg, s, labels).sessions[t].request, |labels| - 1;
      RefusedAt(cfg, s, labels, t, r, k) && (r.arm != Cte || r.product in s.db.products ==> ExistedAt(cfg, s, labels, r.product, k))
  {
    hide NoFreeUnit, SessionsOk, Apart, IdsOk, RowsFit, IntentsUnique, Next;
    var before, last := labels[..|labels|-1], labels[|labels|-1];
    RunKeepsSysInv(cfg, s, before);
    RefusingStep(cfg, Execute(cfg, s, before), last, t);
    CommitsAtomically(cfg, s, before);
    RunEvolves(s.db, Effects(cfg, s, before));
  }

  // ---- When a refusal may be untrue -------------------------------------------------------

  /** Session `t` was refused by an UPDATE of its own that found the product there and sold out. */
  ghost predicate Justified(cfg: Config, s: System, labels: seq<Label>, t: Tid, r: Request)
    requires r.Buy?
  {
    exists k :: 0 <= k < |labels| && RefusedAt(cfg, s, labels, t, r, k) && ExistedAt(cfg, s, labels, r.product, k)
  }

  ghost predicate AnsweredOutOfStock(s: System, t: Tid, arm: Arm, p: ProductId) {
    Finished(s, t) && s.sessions[t].request.Buy? && s.sessions[t].request.arm == arm && s.sessions[t].request.product == p &&
    s.sessions[t].reply == OutOfStock
  }

  ghost predicate RefusalsAreTrue(cfg: Config, s: System, arm: Arm, p: ProductId) {
    forall labels, t :: AnsweredOutOfStock(Execute(cfg, s, labels), t, arm, p) ==>
      Justified(cfg, s, labels, t, Execute(cfg, s, labels).sessions[t].request)
  }

  /**
   * From any tables, every out-of-stock answer an arm gives for a product is true of its moment exactly
   * if the arm is not the single statement or the product is there from the start. The single statement
   * looks for the product only after its UPDATE matched no row, so one created in between is refused.
   */
  lemma RefusalIsTrueIff(cfg: Config, s: System, arm: Arm, p: ProductId)
    requires Start(s)
    ensures RefusalsAreTrue(cfg, s, arm, p) <==> arm != Cte || p in s.db.products
  {
    if arm != Cte || p in s.db.products {
      forall labels, t | AnsweredOutOfStock(Execute(cfg, s, labels), t, arm, p)
        ensures Justified(cfg, s, labels, t, Execute(cfg, s, labels).sessions[t].request)
      {
        OutOfStockWasTrue(cfg, s, labels, t);
      }
    } else {
      CteMayRefuseANewProduct(cfg, s, p);
    }
  }

  /** The sold-out test comes first, then the product is created, then it is looked up. */
  function CteRace(p: ProductId): seq<Label> {
    [Begin(0, Buy(Cte, p, 1, 100)), Go(0, false), NewProduct(p, 500, 3), Go(0, false)]
  }

  ghost function CteRaceState(s: System, p: ProductId, k: nat): System {
    var x := Fresh(Buy(Cte, p, 1, 100), s.now);
    s.(db := if k <= 2 then s.db else WithProduct(s.db, p, 500, 3),
       sessions := if k == 0 then map[] else map[0 := if k == 1 then x else if k <= 3 then x.(pc := Recheck) else Finish(x, OutOfStock)])
  }

  lemma CteRaceStep(cfg: Config, s: System, p: ProductId, k: nat)
    requires Start(s) && p !in s.db.products && k < |CteRace(p)|
    ensures Next(cfg, CteRaceState(s, p, k), CteRace(p)[k]) == CteRaceState(s, p, k + 1)
  {
    hide Accounted, RowsFit, IntentsUnique;
    assert p !in s.db.stock;
    if k == 0 {
      assert Next(cfg, CteRaceState(s, p, 0), CteRace(p)[0]) == CteRaceState(s, p, 1);
    } else if k == 1 {
      assert Advance(CteRaceState(s, p, 1), 0, false) == CteRaceState(s, p, 2);
    } else if k == 2 {
      assert Next(cfg, CteRaceState(s, p, 2), CteRace(p)[2]) == CteRaceState(s, p, 3);
    } else {
      assert Advance(CteRaceState(s, p, 3), 0, false) == CteRaceState(s, p, 4);
    }
  }

  lemma {:induction false} CteRaceRuns(cfg: Config, s: System, p: ProductId, k: nat)
    requires Start(s) && p !in s.db.products && k <= |CteRace(p)|
    ensures Execute(cfg, s, CteRace(p)[..k]) == CteRaceState(s, p, k)
  {
    hide Inv, Next;
    if k > 0 {
      CteRaceRuns(cfg, s, p, k - 1);
      assert CteRace(p)[..k][..k-1] == CteRace(p)[..k-1];
      CteRaceStep(cfg, s, p, k - 1);
    }
  }

  /** From any tables without the product: it is reported out of stock although it never was. */
  lemma CteMayRefuseANewProduct(cfg: Config, s: System, p: ProductId)
    requires Start(s) && p !in s.db.products
    ensures AnsweredOutOfStock(Execute(cfg, s, CteRace(p)), 0, Cte, p)
    ensures !Justified(cfg, s, CteRace(p), 0, Execute(cfg, s, CteRace(p)).sessions[0].request)
    ensures forall k :: 0 <= k <= |CteRace(p)| ==>
      p !in Execute(cfg, s, CteRace(p)[..k]).db.stock || HasFreeUnit(Execute(cfg, s, CteRace(p)[..k]).db.stock[p])
  {
    assert p !in s.db.stock;
    forall k | 0 <= k <= |CteRace(p)|
      ensures Execute(cfg, s, CteRace(p)[..k]) == CteRaceState(s, p, k)
    {
      CteRaceRuns(cfg, s, p, k);
    }
    assert CteRace(p)[..4] == CteRace(p);
  }
}
