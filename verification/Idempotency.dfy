/** POST /orders with an Idempotency-Key: any number of requests racing for the same keys, crashes included. */
module Idempotency {
  import opened Tables

  /** A key is scoped to the caller's subject. */
  datatype Key = Key(subject: string, idem: string)

  /** The fingerprint of the request; SHA-256 of the product id, taken as injective. */
  datatype Hash = HashOf(product: ProductId)

  /** `owner` remembers which request inserted the row. */
  datatype KeyRow = KeyRow(hash: Hash, order: Option<OrderId>, owner: nat)

  type KeyTable = map<Key, KeyRow>

  /** `key` remembers on whose behalf the order was placed, None for a request without a key. */
  datatype PlacedOrder = PlacedOrder(product: ProductId, key: Option<Key>, owner: nat)

  datatype Answer = Placed(order: OrderId) | NotPlaced | InProgress | KeyReused | DatabaseError | Crashed

  datatype Pc = Start | Reserving | Completing(order: OrderId) | Releasing | Replaying | Fetching(order: OrderId) | Done(answer: Answer)

  datatype Request = Request(key: Option<Key>, product: ProductId, pc: Pc, made: Option<OrderId>)

  datatype State = State(keys: KeyTable, orders: map<OrderId, PlacedOrder>, requests: map<nat, Request>)

  /** Whether a reserve may report an error although its order was committed. */
  datatype Config = Config(ambiguous: bool)

  datatype Inner = Succeeds | Fails | FailsAfterCommit

  datatype Label =
    | Begin(r: nat, subject: string, idem: string, product: ProductId)
    | Claim(r: nat, replyLost: bool)
    | Reserve(r: nat, inner: Inner, order: OrderId)
    | Complete(r: nat, lands: bool)
    | Release(r: nat, lands: bool)
    | Find(r: nat)
    | Fetch(r: nat)
    | Crash(r: nat)

  // ---- The four statements on order_idempotency -------------------------------------------

  /** Takes the key if nobody holds it. */
  function ClaimKey(keys: KeyTable, k: Key, hash: Hash, owner: nat): KeyTable {
    if k in keys then keys else keys[k := KeyRow(hash, None, owner)]
  }

  /** Records the order of a key that has none yet. */
  function CompleteKey(keys: KeyTable, k: Key, order: OrderId): KeyTable {
    if k in keys && keys[k].order.None? then keys[k := keys[k].(order := Some(order))] else keys
  }

  /** Frees a key that has no order. */
  function ReleaseKey(keys: KeyTable, k: Key): KeyTable {
    if k in keys && keys[k].order.None? then keys - {k} else keys
  }

  /** What replay makes of the row it reads. */
  function Replay(keys: KeyTable, k: Key, hash: Hash): Pc {
    if k !in keys then Done(InProgress)
    else if keys[k].hash != hash then Done(KeyReused)
    else if keys[k].order.None? then Done(InProgress)
    else Fetching(keys[k].order.value)
  }

  // ---- The machine ------------------------------------------------------------------------

  function KeyOf(subject: string, idem: string): Option<Key> {
    if idem == "" || subject == "" then None else Some(Key(subject, idem))
  }

  function At(s: State, r: nat, pc: Pc): State
    requires r in s.requests
  {
    s.(requests := s.requests[r := s.requests[r].(pc := pc)])
  }

  function AtClaim(s: State, r: nat, replyLost: bool): State
    requires r in s.requests && s.requests[r].key.Some?
  {
    var x := s.requests[r];
    var s' := s.(keys := ClaimKey(s.keys, x.key.value, HashOf(x.product), r));
    At(s', r, if replyLost then Done(DatabaseError) else if x.key.value in s.keys then Replaying else Reserving)
  }

  function AtReserve(s: State, r: nat, inner: Inner, order: OrderId): State
    requires r in s.requests
  {
    var x := s.requests[r];
    if inner == Fails then At(s, r, if x.key.Some? then Releasing else Done(NotPlaced))
    else
      var s' := s.(orders := s.orders[order := PlacedOrder(x.product, x.key, r)],
                   requests := s.requests[r := x.(made := Some(order))]);
      if inner == Succeeds then At(s', r, if x.key.Some? then Completing(order) else Done(Placed(order)))
      else At(s', r, if x.key.Some? then Releasing else Done(NotPlaced))
  }

  function Next(cfg: Config, s: State, l: Label): State {
    if l.Begin? then
      if l.r in s.requests then s
      else
        var key := KeyOf(l.subject, l.idem);
        s.(requests := s.requests[l.r := Request(key, l.product, if key.Some? then Start else Reserving, None)])
    else if l.r !in s.requests then s
    else
      var x := s.requests[l.r];
      match l
      case Claim(r, replyLost) => if x.pc == Start && x.key.Some? then AtClaim(s, r, replyLost) else s
      case Reserve(r, inner, order) =>
        if x.pc == Reserving && order !in s.orders && (inner == FailsAfterCommit ==> cfg.ambiguous) then AtReserve(s, r, inner, order) else s
      case Complete(r, lands) =>
        if x.pc.Completing? && x.key.Some? then
          At(s.(keys := if lands then CompleteKey(s.keys, x.key.value, x.pc.order) else s.keys), r, Done(Placed(x.pc.order)))
        else s
      case Release(r, lands) =>
        if x.pc == Releasing && x.key.Some? then
          At(s.(keys := if lands then ReleaseKey(s.keys, x.key.value) else s.keys), r, Done(NotPlaced))
        else s
      case Find(r) => if x.pc == Replaying && x.key.Some? then At(s, r, Replay(s.keys, x.key.value, HashOf(x.product))) else s
      case Fetch(r) =>
        if x.pc.Fetching? then At(s, r, if x.pc.order in s.orders then Done(Placed(x.pc.order)) else Done(DatabaseError)) else s
      case Crash(r) => if x.pc.Done? then s else At(s, r, Done(Crashed))
  }

  function Execute(cfg: Config, s: State, labels: seq<Label>): State {
    if labels == [] then s else Next(cfg, Execute(cfg, s, labels[..|labels|-1]), labels[|labels|-1])
  }

  const NOTHING: State := State(map[], map[], map[])

  // ---- The invariant ----------------------------------------------------------------------

  predicate Claiming(x: Request) {
    x.key.Some? && (x.pc == Reserving || x.pc.Completing? || x.pc == Releasing)
  }

  /** A request between its claim and its release or completion owns the unfinished row of its key. */
  predicate RequestOk(s: State, r: nat)
    requires r in s.requests
  {
    var x := s.requests[r];
    (Claiming(x) ==> x.key.value in s.keys && s.keys[x.key.value] == KeyRow(HashOf(x.product), None, r)) &&
    (x.pc in {Start, Reserving, Replaying} || x.pc.Fetching? ==> x.made == None) &&
    (x.made.Some? ==> x.made.value in s.orders && s.orders[x.made.value] == PlacedOrder(x.product, x.key, r)) &&
    (x.pc.Completing? ==> x.made == Some(x.pc.order)) &&
    (x.pc.Fetching? ==> AnswersFor(s, x, x.pc.order)) &&
    (x.pc.Done? && x.pc.answer.Placed? ==> AnswersFor(s, x, x.pc.answer.order))
  }

  /** The order is the one the request's key stands for, or its own if it came without a key. */
  predicate AnswersFor(s: State, x: Request, order: OrderId) {
    order in s.orders && s.orders[order].product == x.product && s.orders[order].key == x.key
  }

  predicate RowOk(s: State, k: Key)
    requires k in s.keys
  {
    var row := s.keys[k];
    row.owner in s.requests && s.requests[row.owner].key == Some(k) && row.hash == HashOf(s.requests[row.owner].product) &&
    s.requests[row.owner].pc != Start &&
    (row.order.Some? ==> row.order.value in s.orders && s.orders[row.order.value] == PlacedOrder(row.hash.product, Some(k), row.owner))
  }

  predicate OrderOk(s: State, o: OrderId)
    requires o in s.orders
  {
    var row := s.orders[o];
    row.owner in s.requests && s.requests[row.owner].made == Some(o)
  }

  ghost predicate Inv(s: State) {
    (forall r {:trigger RequestOk(s, r)} :: r in s.requests ==> RequestOk(s, r)) &&
    (forall k {:trigger RowOk(s, k)} :: k in s.keys ==> RowOk(s, k)) &&
    (forall o {:trigger OrderOk(s, o)} :: o in s.orders ==> OrderOk(s, o))
  }

  /** While the inner reserve keeps its word, the row that led to an order stays, with its claimant. */
  predicate Kept(s: State, o: OrderId)
    requires o in s.orders
  {
    var row := s.orders[o];
    row.key.Some? ==>
      row.key.value in s.keys && s.keys[row.key.value].owner == row.owner &&
      row.owner in s.requests && s.requests[row.owner].pc != Releasing
  }

  ghost predicate AllKept(s: State) {
    forall o {:trigger Kept(s, o)} :: o in s.orders ==> Kept(s, o)
  }

  lemma OthersKept(cfg: Config, s: State, l: Label, q: nat)
    requires Inv(s) && q in s.requests && q != l.r
    ensures q in Next(cfg, s, l).requests && RequestOk(Next(cfg, s, l), q)
  {
    assert RequestOk(s, q);
    assert l.r in s.requests ==> RequestOk(s, l.r);
  }

  lemma OwnKept(cfg: Config, s: State, l: Label)
    requires Inv(s) && l.r in Next(cfg, s, l).requests
    ensures RequestOk(Next(cfg, s, l), l.r)
  {
    if l.r in s.requests {
      assert RequestOk(s, l.r);
      if s.requests[l.r].key.Some? && s.requests[l.r].key.value in s.keys {
        assert RowOk(s, s.requests[l.r].key.value);
      }
    }
  }

  lemma NextKeepsRows(cfg: Config, s: State, l: Label, k: Key)
    requires Inv(s) && k in Next(cfg, s, l).keys
    ensures RowOk(Next(cfg, s, l), k)
  {
    assert k in s.keys ==> RowOk(s, k);
    assert l.r in s.requests ==> RequestOk(s, l.r);
  }

  lemma NextKeepsOrders(cfg: Config, s: State, l: Label, o: OrderId)
    requires Inv(s) && o in Next(cfg, s, l).orders
    ensures OrderOk(Next(cfg, s, l), o)
  {
    assert o in s.orders ==> OrderOk(s, o);
    assert l.r in s.requests ==> RequestOk(s, l.r);
  }

  lemma NextKeepsInv(cfg: Config, s: State, l: Label)
    requires Inv(s)
    ensures Inv(Next(cfg, s, l))
  {
    var s' := Next(cfg, s, l);
    forall q | q in s'.requests ensures RequestOk(s', q) {
      if q == l.r { OwnKept(cfg, s, l); } else { OthersKept(cfg, s, l, q); }
    }
    forall k | k in s'.keys ensures RowOk(s', k) { NextKeepsRows(cfg, s, l, k); }
    forall o | o in s'.orders ensures OrderOk(s', o) { NextKeepsOrders(cfg, s, l, o); }
  }

  lemma NextKeepsKept(cfg: Config, s: State, l: Label)
    requires Inv(s) && AllKept(s) && !cfg.ambiguous
    ensures AllKept(Next(cfg, s, l))
  {
    var s' := Next(cfg, s, l);
    forall o | o in s'.orders
      ensures Kept(s', o)
    {
      if l.r in s.requests {
        assert RequestOk(s, l.r);
      }
      if o in s.orders {
        assert Kept(s, o) && OrderOk(s, o);
        assert RequestOk(s, s.orders[o].owner);
      }
    }
  }

  lemma {:induction false} RunKeepsInv(cfg: Config, labels: seq<Label>)
    ensures Inv(Execute(cfg, NOTHING, labels))
    ensures !cfg.ambiguous ==> AllKept(Execute(cfg, NOTHING, labels))
  {
    if labels != [] {
      RunKeepsInv(cfg, labels[..|labels|-1]);
      NextKeepsInv(cfg, Execute(cfg, NOTHING, labels[..|labels|-1]), labels[|labels|-1]);
      if !cfg.ambiguous {
        NextKeepsKept(cfg, Execute(cfg, NOTHING, labels[..|labels|-1]), labels[|labels|-1]);
      }
    }
  }

  // ---- What it gives the callers ----------------------------------------------------------

  ghost predicate OncePerKey(s: State) {
    forall o, o' :: o in s.orders && o' in s.orders && s.orders[o].key.Some? && s.orders[o].key == s.orders[o'].key ==> o == o'
  }

  lemma AtMostOneOrder(cfg: Config, labels: seq<Label>)
    requires !cfg.ambiguous
    ensures OncePerKey(Execute(cfg, NOTHING, labels))
  {
    RunKeepsInv(cfg, labels);
    var s := Execute(cfg, NOTHING, labels);
    forall o, o' | o in s.orders && o' in s.orders && s.orders[o].key.Some? && s.orders[o].key == s.orders[o'].key
      ensures o == o'
    {
      assert Kept(s, o) && Kept(s, o') && OrderOk(s, o) && OrderOk(s, o');
    }
  }

  /** Every successful answer is an order for the product that was asked for, placed under the caller's key. */
  lemma AnswersAreRight(cfg: Config, labels: seq<Label>, r: nat)
    requires r in Execute(cfg, NOTHING, labels).requests
    requires var pc := Execute(cfg, NOTHING, labels).requests[r].pc; pc.Done? && pc.answer.Placed?
    ensures var s := Execute(cfg, NOTHING, labels);
      AnswersFor(s, s.requests[r], s.requests[r].pc.answer.order)
  {
    RunKeepsInv(cfg, labels);
    assert RequestOk(Execute(cfg, NOTHING, labels), r);
  }

  /** The order a request is about to answer or has answered with. */
  function Answering(x: Request): Option<OrderId> {
    if x.pc.Fetching? then Some(x.pc.order)
    else if x.pc.Done? && x.pc.answer.Placed? then Some(x.pc.answer.order)
    else None
  }

  /** Behind a keyed answer stands the row of its key, and its claimant is done with it: nobody can release it. */
  predicate Backed(s: State, r: nat)
    requires r in s.requests
  {
    var x := s.requests[r];
    x.key.Some? && Answering(x).Some? ==>
      var k, o := x.key.value, Answering(x).value;
      k in s.keys && o in s.orders && s.keys[k].owner == s.orders[o].owner && s.keys[k].order in {None, Some(o)} && OwnerDone(s, k)
  }

  predicate OwnerDone(s: State, k: Key)
    requires k in s.keys
  {
    s.keys[k].owner in s.requests && s.requests[s.keys[k].owner].pc.Done?
  }

  /** Only a claimant that has finished leaves an order in its row. */
  predicate Finished(s: State, k: Key)
    requires k in s.keys
  {
    s.keys[k].order.Some? ==> OwnerDone(s, k)
  }

  ghost predicate AllBacked(s: State) {
    (forall r {:trigger Backed(s, r)} :: r in s.requests ==> Backed(s, r)) &&
    (forall k {:trigger Finished(s, k)} :: k in s.keys ==> Finished(s, k))
  }

  /** A row whose claimant is done is never released, completed or claimed again. */
  lemma DoneRowStays(cfg: Config, s: State, l: Label, k: Key)
    requires Inv(s) && k in s.keys && OwnerDone(s, k)
    ensures k in Next(cfg, s, l).keys && Next(cfg, s, l).keys[k] == s.keys[k] && OwnerDone(Next(cfg, s, l), k)
  {
    assert l.r in s.requests ==> RequestOk(s, l.r);
  }

  lemma NextKeepsFinished(cfg: Config, s: State, l: Label, k: Key)
    requires Inv(s) && AllBacked(s) && k in Next(cfg, s, l).keys
    ensures Finished(Next(cfg, s, l), k)
  {
    assert l.r in s.requests ==> RequestOk(s, l.r);
    if k in s.keys {
      assert Finished(s, k);
      if OwnerDone(s, k) {
        DoneRowStays(cfg, s, l, k);
      }
    }
  }

  lemma OtherStaysBacked(cfg: Config, s: State, l: Label, r: nat)
    requires Inv(s) && AllBacked(s) && r in s.requests && r != l.r
    ensures r in Next(cfg, s, l).requests && Backed(Next(cfg, s, l), r)
  {
    assert Backed(s, r) && RequestOk(s, r);
    var x := s.requests[r];
    if x.key.Some? && Answering(x).Some? {
      DoneRowStays(cfg, s, l, x.key.value);
    }
  }

  lemma OwnStaysBacked(cfg: Config, s: State, l: Label)
    requires Inv(s) && AllBacked(s) && l.r in Next(cfg, s, l).requests
    ensures Backed(Next(cfg, s, l), l.r)
  {
    if l.r in s.requests {
      var x := s.requests[l.r];
      assert Backed(s, l.r) && RequestOk(s, l.r);
      if x.key.Some? && x.key.value in s.keys {
        assert RowOk(s, x.key.value) && Finished(s, x.key.value);
      }
    }
  }

  lemma {:induction false} RunKeepsBacked(cfg: Config, labels: seq<Label>)
    ensures AllBacked(Execute(cfg, NOTHING, labels))
  {
    if labels != [] {
      var before, l := labels[..|labels|-1], labels[|labels|-1];
      RunKeepsBacked(cfg, before);
      RunKeepsInv(cfg, before);
      NextKeepsBacked(cfg, Execute(cfg, NOTHING, before), l);
    }
  }

  lemma NextKeepsBacked(cfg: Config, s: State, l: Label)
    requires Inv(s) && AllBacked(s)
    ensures AllBacked(Next(cfg, s, l))
  {
    hide Inv, Next, Backed, Finished;
    var s' := Next(cfg, s, l);
    forall r | r in s'.requests ensures Backed(s', r) {
      if r == l.r { OwnStaysBacked(cfg, s, l); } else { OnlyOwnIsNew(cfg, s, l, r); OtherStaysBacked(cfg, s, l, r); }
    }
    forall k | k in s'.keys ensures Finished(s', k) { NextKeepsFinished(cfg, s, l, k); }
  }

  lemma OnlyOwnIsNew(cfg: Config, s: State, l: Label, r: nat)
    requires r in Next(cfg, s, l).requests && r != l.r
    ensures r in s.requests
  {
  }

  /**
   * All successful answers under one key carry the same order, even where a reserve may report an error
   * after it committed and the retry place a second order.
   */
  lemma AnswersAgree(cfg: Config, labels: seq<Label>, r: nat, r': nat)
    requires var s := Execute(cfg, NOTHING, labels);
      r in s.requests && r' in s.requests && s.requests[r].key.Some? && s.requests[r].key == s.requests[r'].key &&
      s.requests[r].pc.Done? && s.requests[r].pc.answer.Placed? &&
      s.requests[r'].pc.Done? && s.requests[r'].pc.answer.Placed?
    ensures var s := Execute(cfg, NOTHING, labels);
      s.requests[r].pc.answer.order == s.requests[r'].pc.answer.order
  {
    RunKeepsInv(cfg, labels);
    RunKeepsBacked(cfg, labels);
    var s := Execute(cfg, NOTHING, labels);
    assert Backed(s, r) && Backed(s, r');
    assert OrderOk(s, s.requests[r].pc.answer.order) && OrderOk(s, s.requests[r'].pc.answer.order);
  }

  /** An unfinished key has at most one claimant at work, and the row it will complete or release is its own. */
  lemma OneClaimant(cfg: Config, labels: seq<Label>, r: nat, r': nat)
    requires var s := Execute(cfg, NOTHING, labels);
      r in s.requests && r' in s.requests && Claiming(s.requests[r]) && Claiming(s.requests[r']) &&
      s.requests[r].key == s.requests[r'].key
    ensures var s := Execute(cfg, NOTHING, labels);
      r == r' && s.requests[r].key.value in s.keys &&
      s.keys[s.requests[r].key.value] == KeyRow(HashOf(s.requests[r].product), None, r)
  {
    RunKeepsInv(cfg, labels);
    assert RequestOk(Execute(cfg, NOTHING, labels), r) && RequestOk(Execute(cfg, NOTHING, labels), r');
  }

  /** The first reserve commits and reports an error, the key is released, and the retry reserves again. */
  function AmbiguousRun(): seq<Label> {
    [Begin(0, "sub", "key", 7), Claim(0, false), Reserve(0, FailsAfterCommit, 100), Release(0, true),
     Begin(1, "sub", "key", 7), Claim(1, false), Reserve(1, Succeeds, 101)]
  }

  function AmbiguousState(k: nat): State {
    var key := Key("sub", "key");
    var x := Request(Some(key), 7, Start, None);
    var held0, held1 := map[key := KeyRow(HashOf(7), None, 0)], map[key := KeyRow(HashOf(7), None, 1)];
    var one := map[100 := PlacedOrder(7, Some(key), 0)];
    var gone := x.(pc := Done(NotPlaced), made := Some(100));
    if k == 0 then NOTHING
    else if k == 1 then State(map[], map[], map[0 := x])
    else if k == 2 then State(held0, map[], map[0 := x.(pc := Reserving)])
    else if k == 3 then State(held0, one, map[0 := x.(pc := Releasing, made := Some(100))])
    else if k == 4 then State(map[], one, map[0 := gone])
    else if k == 5 then State(map[], one, map[0 := gone, 1 := x])
    else if k == 6 then State(held1, one, map[0 := gone, 1 := x.(pc := Reserving)])
    else State(held1, one[101 := PlacedOrder(7, Some(key), 1)],
               map[0 := gone, 1 := x.(pc := Completing(101), made := Some(101))])
  }

  lemma AmbiguousFirstTry(cfg: Config, k: nat)
    requires cfg.ambiguous && k < 4
    ensures Next(cfg, AmbiguousState(k), AmbiguousRun()[k]) == AmbiguousState(k + 1)
  {
    var s, s' := Next(cfg, AmbiguousState(k), AmbiguousRun()[k]), AmbiguousState(k + 1);
    assert s.keys == s'.keys;
    assert s.orders == s'.orders;
    assert s.requests == s'.requests;
  }

  lemma AmbiguousRetry(cfg: Config, k: nat)
    requires cfg.ambiguous && 4 <= k < |AmbiguousRun()|
    ensures Next(cfg, AmbiguousState(k), AmbiguousRun()[k]) == AmbiguousState(k + 1)
  {
    var s, s' := Next(cfg, AmbiguousState(k), AmbiguousRun()[k]), AmbiguousState(k + 1);
    assert s.keys == s'.keys;
    assert s.orders == s'.orders;
    assert s.requests == s'.requests;
  }

  lemma {:induction false} AmbiguousRunIs(cfg: Config, k: nat)
    requires cfg.ambiguous && k <= |AmbiguousRun()|
    ensures Execute(cfg, NOTHING, AmbiguousRun()[..k]) == AmbiguousState(k)
  {
    if k > 0 {
      AmbiguousRunIs(cfg, k - 1);
      assert AmbiguousRun()[..k][..k-1] == AmbiguousRun()[..k-1];
      if k <= 4 { AmbiguousFirstTry(cfg, k - 1); } else { AmbiguousRetry(cfg, k - 1); }
    }
  }

  /**
   * A key reserves at most one unit over all runs exactly when a reserve that reports an error has
   * committed no order. A commit whose acknowledgement is lost breaks it: the wrapper releases the key.
   */
  lemma OncePerKeyIff(cfg: Config)
    ensures (forall labels :: OncePerKey(Execute(cfg, NOTHING, labels))) <==> !cfg.ambiguous
  {
    if cfg.ambiguous {
      AmbiguousRunIs(cfg, 7);
      assert AmbiguousRun()[..7] == AmbiguousRun();
      assert {100, 101} <= AmbiguousState(7).orders.Keys;
      assert !OncePerKey(Execute(cfg, NOTHING, AmbiguousRun()));
    } else {
      forall labels
        ensures OncePerKey(Execute(cfg, NOTHING, labels))
      {
        AtMostOneOrder(cfg, labels);
      }
    }
  }
}
