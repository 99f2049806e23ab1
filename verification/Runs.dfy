/** The refinement theorem over whole runs, and what it lets every caller rely on. */
module Runs {
  import opened Tables
  import opened Lifecycle
  import opened Transactions
  import opened Sessions
  import opened Refinement

  /** The atomic action a step stands for if it moves the committed tables. */
  ghost function Intended(s: System, l: Label): Action {
    match l
    case NewProduct(p, price, quantity) => AddProduct(p, price, quantity)
    case Go(t, _) => if t in s.sessions then IntendedBy(s.sessions[t], s.nextId) else AddProduct(0, 0, 0)
    case _ => AddProduct(0, 0, 0)
  }

  function IntendedBy(x: Session, nextId: OrderId): Action {
    if x.request.Buy? then BuyAction(x, if x.made.Some? then x.made.value else nextId)
    else if x.request.StartPayment? then PaymentAction(x)
    else EndingAction(x)
  }

  ghost function Effect(cfg: Config, s: System, l: Label): seq<Action> {
    if Next(cfg, s, l).db == s.db then [] else [Intended(s, l)]
  }

  /** The atomic actions a statement-level run commits, in the order it commits them. */
  ghost function Effects(cfg: Config, s: System, labels: seq<Label>): seq<Action> {
    if labels == [] then []
    else
      var before := labels[..|labels|-1];
      Effects(cfg, s, before) + Effect(cfg, Execute(cfg, s, before), labels[|labels|-1])
  }

  // ---- One step ---------------------------------------------------------------------------

  ghost predicate Simulates(s: System, s': System, a: Action) {
    SysInv(s') && (s'.db == s.db || (Enabled(s.db, a) && s'.db == Do(s.db, a)))
  }

  lemma OrderWaitSimulates(s: System, t: Tid, lost: bool)
    requires SysInv(s) && t in s.sessions && s.sessions[t].pc == OrderWait
    ensures Simulates(s, AtOrderWait(s, t, s.sessions[t], lost), IntendedBy(s.sessions[t], s.nextId))
  {
    hide Balanced, Apart, MovesOnly, Do, Enabled;
    var x := s.sessions[t];
    assert SessionAt(s, t) && OwnIds(s, t, x);
    if !OrderLocked(s, t, x.order) {
      if x.order !in s.db.orders || !OrderGuard(x.request, s.db.orders[x.order]) {
        NoOrderRowOk(s.db, x);
        QuietKeeps(s, t, NoOrderRow(x));
      } else if !x.request.StartPayment? {
        WriteEndOk(s.db, x);
        PutKeeps(s, t, WriteEnd(x, s.db.orders[x.order]));
      } else if IntentFree(s.db.orders, x.request.intent) {
        PaymentCommits(s.db, x);
        LandKeeps(s, t, WritePayment(x, s.db.orders[x.order]), PaymentAction(x), lost);
      } else {
        QuietKeeps(s, t, Finish(x, ConstraintViolated));
      }
    }
  }

  lemma DrawnKeeps(s: System, t: Tid)
    requires SysInv(s)
    ensures SysInv(Drawn(s, t)) && LocksFree(Drawn(s, t), t, Fresh(SweepExpired, 0)) && !OrderLocked(Drawn(s, t), t, s.nextId)
  {
    var s' := Drawn(s, t);
    forall u | u in s.sessions
      ensures SessionAt(s', u) && OwnIds(s', u, s.sessions[u]) && s.nextId !in s.sessions[u].orders
    {
      assert SessionAt(s, u) && OwnIds(s, u, s.sessions[u]);
    }
  }

  lemma InsertSimulates(s: System, t: Tid)
    requires SysInv(s) && t in s.sessions && s.sessions[t].pc == Insert
    ensures s.sessions[t].request.Buy? && SysInv(AtInsert(s, t, s.sessions[t]))
  {
    hide Inv, SessionOk;
    var x := s.sessions[t];
    assert SessionAt(s, t);
    InsertOk(s.db, x, s.nextId);
    var x' := AtInsert(s, t, x).sessions[t];
    DrawnKeeps(s, t);
    OwnLocksFree(s, t);
    PutKeeps(Drawn(s, t), t, x');
    assert AtInsert(s, t, x) == Put(Drawn(s, t), t, x');
  }

  lemma CteSimulates(s: System, t: Tid, lost: bool)
    requires SysInv(s) && t in s.sessions && s.sessions[t].pc == StockWait
    requires s.sessions[t].request.Buy? && s.sessions[t].request.arm == Cte
    requires var p := s.sessions[t].request.product; !StockLocked(s, t, p) && StockMatches(s.db, s.sessions[t], p)
    ensures Simulates(s, AtStockWait(s, t, s.sessions[t], lost), IntendedBy(s.sessions[t], s.nextId))
  {
    hide Inv, MovesOnly, Do, Enabled, Merge;
    var x := s.sessions[t];
    assert SessionAt(s, t);
    CteCommits(s.db, x, s.nextId);
    DrawnKeeps(s, t);
    var s1, x' := Drawn(s, t), CteRows(s.db, x, s.nextId);
    assert OwnIds(s1, t, x') && LocksFree(s1, t, x');
    LandKeeps(s1, t, x', BuyAction(x, s.nextId), lost);
    assert AtStockWait(s, t, x, lost) == Land(s1, t, x', lost);
  }

  lemma StockWaitSimulates(s: System, t: Tid, lost: bool)
    requires SysInv(s) && t in s.sessions && s.sessions[t].pc == StockWait
    ensures Simulates(s, AtStockWait(s, t, s.sessions[t], lost), IntendedBy(s.sessions[t], s.nextId))
  {
    hide Inv, MovesOnly, Do, Enabled, IntendedBy, SessionOk, StockMatches;
    var x := s.sessions[t];
    assert SessionAt(s, t) && OwnIds(s, t, x);
    OwnLocksFree(s, t);
    var p := StockProduct(x);
    if p.Some? && !StockLocked(s, t, p.value) {
      if !StockMatches(s.db, x, p.value) {
        StockTestOk(s.db, x);
        QuietKeeps(s, t, NoStockRow(x));
      } else if x.request.Buy? && x.request.arm == Cte {
        CteSimulates(s, t, lost);
      } else {
        WriteStockOk(s.db, x, p.value);
        PutKeeps(s, t, WriteStock(s.db, x, p.value));
      }
    }
  }

  lemma CommitSimulates(s: System, t: Tid, lost: bool)
    requires SysInv(s) && t in s.sessions && s.sessions[t].pc == Commit
    ensures Simulates(s, Land(s, t, s.sessions[t], lost), IntendedBy(s.sessions[t], s.nextId))
  {
    var x := s.sessions[t];
    assert SessionAt(s, t) && OwnIds(s, t, x);
    OwnLocksFree(s, t);
    if x.request.Buy? {
      BuyCommits(s.db, x);
    } else if x.request.SweepExpired? {
      SweepCommits(s.db, x);
    } else {
      SingleEndCommits(s.db, x);
    }
    LandKeeps(s, t, x, IntendedBy(x, s.nextId), lost);
  }

  lemma AdvanceSimulates(s: System, t: Tid, lost: bool)
    requires SysInv(s) && t in s.sessions
    ensures Simulates(s, Advance(s, t, lost), IntendedBy(s.sessions[t], s.nextId))
  {
    hide Balanced, Apart, IdsOk, SessionOk, AtOrderWait, AtStockWait, AtFind, AtRecheck, AtOrderTest, IntendedBy, MovesOnly, Do, Enabled, StockMatches, NoStockRow;
    var x := s.sessions[t];
    assert SessionAt(s, t);
    match x.pc
    case Find => FindOk(s.db, x); QuietKeeps(s, t, AtFind(s.db, x));
    case OrderTest => OrderTestOk(s.db, x); QuietKeeps(s, t, AtOrderTest(s.db, x));
    case OrderWait => OrderWaitSimulates(s, t, lost);
    case Insert => InsertSimulates(s, t);
    case StockTest => StockTestOk(s.db, x); QuietKeeps(s, t, AtStockTest(s.db, x));
    case StockWait => StockWaitSimulates(s, t, lost);
    case Commit => CommitSimulates(s, t, lost);
    case Recheck => RecheckOk(s.db, x); QuietKeeps(s, t, AtRecheck(s.db, x));
    case Claim =>
    case Done =>
  }

  lemma ClaimRowKeeps(cfg: Config, s: System, t: Tid, o: OrderId)
    requires SysInv(s) && t in s.sessions && Claimable(cfg, s, t, s.sessions[t], o)
    ensures SysInv(Put(s, t, AtClaim(s.db, s.sessions[t], o)))
  {
    var x := s.sessions[t];
    assert SessionAt(s, t) && OwnIds(s, t, x);
    OwnLocksFree(s, t);
    ClaimOk(s.db, x, o);
    PutKeeps(s, t, AtClaim(s.db, x, o));
  }

  lemma ClaimDoneKeeps(s: System, t: Tid)
    requires SysInv(s) && t in s.sessions && s.sessions[t].pc == Claim && s.sessions[t].claimed != []
    ensures SysInv(Put(s, t, s.sessions[t].(pc := StockTest)))
  {
    assert SessionAt(s, t);
    EndingOkAt(s.db, s.sessions[t], StockTest);
    QuietKeeps(s, t, s.sessions[t].(pc := StockTest));
  }

  lemma FreshKeeps(s: System, t: Tid, r: Request)
    requires SysInv(s) && t !in s.sessions
    ensures SysInv(Put(s, t, Fresh(r, s.now)))
  {
    var x := Fresh(r, s.now);
    forall p
      ensures Ends(r) ==> RowSettled(s.db, x, p)
    {
      assert x.claimed[..0] == [];
    }
    PutKeeps(s, t, x);
  }

  /** Each statement keeps the invariant, and moves the committed tables by one atomic action or not at all. */
  lemma NextSimulates(cfg: Config, s: System, l: Label)
    requires SysInv(s)
    ensures Simulates(s, Next(cfg, s, l), Intended(s, l))
  {
    hide Inv, Apart, IdsOk, Advance, IntendedBy, MovesOnly, Claimable;
    var s' := Next(cfg, s, l);
    if s' != s {
      match l
      case Begin(t, r) => FreshKeeps(s, t, r);
      case Go(t, lost) => AdvanceSimulates(s, t, lost);
      case ClaimRow(t, o) => ClaimRowKeeps(cfg, s, t, o);
      case ClaimDone(t) =>
        if s.sessions[t].claimed == [] {
          assert SessionAt(s, t);
          QuietKeeps(s, t, Finish(s.sessions[t], Swept(0)));
        } else {
          ClaimDoneKeeps(s, t);
        }
      case Deny(t) => QuietKeeps(s, t, Finish(s.sessions[t], Forbidden));
      case Abort(t) => QuietKeeps(s, t, Finish(s.sessions[t], ConnectionLost));
      case Tick(elapsed) => TickKeeps(s, elapsed);
      case NewProduct(p, price, quantity) => NewProductKeeps(s, AddProduct(p, price, quantity));
    }
  }

  lemma TickKeeps(s: System, elapsed: nat)
    requires SysInv(s)
    ensures SysInv(s.(now := s.now + elapsed))
  {
    forall t | t in s.sessions
      ensures SessionAt(s.(now := s.now + elapsed), t)
    {
      assert SessionAt(s, t);
    }
  }

  // ---- Whole runs -------------------------------------------------------------------------

  lemma {:induction false} ExecuteConcat(cfg: Config, s: System, first: seq<Label>, second: seq<Label>)
    ensures Execute(cfg, s, first + second) == Execute(cfg, Execute(cfg, s, first), second)
  {
    if second == [] {
      assert first + second == first;
    } else {
      ExecuteConcat(cfg, s, first, second[..|second|-1]);
      assert (first + second)[..|first + second|-1] == first + second[..|second|-1];
    }
  }

  lemma ExecuteTwo(cfg: Config, s: System, l: Label, l': Label)
    ensures Execute(cfg, s, [l, l']) == Next(cfg, Next(cfg, s, l), l')
  {
    assert [l, l'][..1] == [l] && [l][..0] == [];
    assert Execute(cfg, s, [l]) == Next(cfg, s, l);
  }

  lemma {:induction false} RunKeepsSysInv(cfg: Config, s: System, labels: seq<Label>)
    requires Start(s)
    ensures SysInv(Execute(cfg, s, labels))
  {
    if labels != [] {
      RunKeepsSysInv(cfg, s, labels[..|labels|-1]);
      NextSimulates(cfg, Execute(cfg, s, labels[..|labels|-1]), labels[|labels|-1]);
    }
  }

  lemma LegalExtends(s: Shop, actions: seq<Action>, a: Action)
    requires Legal(s, actions) && Enabled(Run(s, actions), a)
    ensures Legal(s, actions + [a]) && Run(s, actions + [a]) == Do(Run(s, actions), a)
  {
    var all := actions + [a];
    assert all[..|actions|] == actions;
    forall k | 0 <= k < |all|
      ensures Enabled(Run(s, all[..k]), all[k])
    {
      if k < |actions| {
        assert all[..k] == actions[..k];
      }
    }
  }

  /**
   * Whatever the interleaving, the rollbacks, the lost sessions and the lost acknowledgements, the
   * committed tables are those of a run of atomic guarded transactions.
   */
  lemma {:induction false} CommitsAtomically(cfg: Config, s: System, labels: seq<Label>)
    requires Start(s)
    ensures Legal(s.db, Effects(cfg, s, labels))
    ensures Run(s.db, Effects(cfg, s, labels)) == Execute(cfg, s, labels).db
  {
    if labels != [] {
      var before := labels[..|labels|-1];
      var mid, l := Execute(cfg, s, before), labels[|labels|-1];
      CommitsAtomically(cfg, s, before);
      RunKeepsSysInv(cfg, s, before);
      NextSimulates(cfg, mid, l);
      if Next(cfg, mid, l).db != mid.db {
        LegalExtends(s.db, Effects(cfg, s, before), Intended(mid, l));
      } else {
        assert Effects(cfg, s, labels) == Effects(cfg, s, before);
      }
    }
  }
}
