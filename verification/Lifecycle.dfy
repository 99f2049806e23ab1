/** The order lifecycle with every transaction taken as one atomic guarded step. */
module Lifecycle {
  import opened Tables

  datatype Action =
    | AddProduct(product: ProductId, price: int, quantity: int)
    | Reserve(order: OrderId, customer: CustomerId, product: ProductId, now: Time, expiresAt: Time)
    | Checkout(order: OrderId, intent: IntentId, expiresAt: Time)
    | End(order: OrderId, to: Status)
    | Sweep(expired: seq<OrderId>, now: Time)

  predicate Distinct<T(==)>(ids: seq<T>) {
    forall i, j :: 0 <= i < j < |ids| ==> ids[i] != ids[j]
  }

  /** What the guards and constraints of the transaction's statements demand together. */
  ghost predicate Enabled(s: Shop, a: Action) {
    match a
    case AddProduct(p, price, quantity) =>
      p !in s.products && 0 <= price && 0 <= quantity <= MAX_INT32
    case Reserve(o, _, p, _, _) =>
      o !in s.orders && p in s.products && p in s.stock && HasFreeUnit(s.stock[p])
    case Checkout(o, intent, _) =>
      o in s.orders && s.orders[o].status == Pending && IntentFree(s.orders, intent)
    case End(o, to) =>
      o in s.orders && to != Expired && MayEnd(s.orders[o].status, to)
    case Sweep(expired, now) =>
      AllMayEnd(s, expired, Expired) && forall o :: o in expired ==> Overdue(s.orders[o], now)
  }

  /** No stored order holds the intent, which is what the UNIQUE constraint asks of a new one. */
  predicate IntentFree(orders: map<OrderId, Order>, intent: IntentId) {
    forall o :: o in orders ==> orders[o].intent != Some(intent)
  }

  function WithProduct(s: Shop, p: ProductId, price: int, quantity: int): Shop {
    s.(products := s.products[p := Product(price, quantity)], stock := s.stock[p := Stock(quantity, 0)])
  }

  function WithReserved(s: Shop, o: OrderId, row: Order): Shop
    requires row.product in s.stock
  {
    s.(orders := s.orders[o := row], stock := s.stock[row.product := TakeUnit(s.stock[row.product])])
  }

  function WithIntent(s: Shop, o: OrderId, intent: IntentId, expiresAt: Time): Shop
    requires o in s.orders
  {
    var row := s.orders[o].(status := AwaitingPayment, intent := Some(intent), expiresAt := Some(expiresAt));
    s.(orders := s.orders[o := row])
  }

  function EndOne(s: Shop, o: OrderId, to: Status): Shop {
    if o in s.orders && s.orders[o].product in s.stock then
      var row := s.orders[o];
      s.(orders := s.orders[o := row.(status := to)],
         stock := s.stock[row.product := Settle(s.stock[row.product], to, 1)])
    else s
  }

  /** Ends the orders one after the other, each giving its unit back or selling it. */
  function EndAll(s: Shop, ids: seq<OrderId>, to: Status): Shop {
    if ids == [] then s else EndOne(EndAll(s, ids[..|ids|-1], to), ids[|ids|-1], to)
  }

  ghost function Do(s: Shop, a: Action): Shop {
    if !Enabled(s, a) then s
    else match a
      case AddProduct(p, price, quantity) => WithProduct(s, p, price, quantity)
      case Reserve(o, customer, p, now, expiresAt) =>
        WithReserved(s, o, NewOrder(customer, p, s.products[p].price, now, expiresAt))
      case Checkout(o, intent, expiresAt) => WithIntent(s, o, intent, expiresAt)
      case End(o, to) => EndOne(s, o, to)
      case Sweep(expired, _) => EndAll(s, expired, Expired)
  }

  ghost function Run(s: Shop, actions: seq<Action>): Shop {
    if actions == [] then s else Do(Run(s, actions[..|actions|-1]), actions[|actions|-1])
  }

  /** Every action of the run met its guards. */
  ghost predicate Legal(s: Shop, actions: seq<Action>) {
    forall k :: 0 <= k < |actions| ==> Enabled(Run(s, actions[..k]), actions[k])
  }

  // ---- The invariant of the tables --------------------------------------------------------

  /** The accounting of one product: every reserved unit has a live order, every missing unit a sold one. */
  ghost predicate Accounted(s: Shop, p: ProductId)
    requires p in s.products && p in s.stock
  {
    var row := s.stock[p];
    row.reserved == Count(s.orders, p, LIVE) &&
    row.quantity + Count(s.orders, p, SOLD) == s.products[p].initial &&
    StockCheck(row)
  }

  /** A payment intent is attached exactly to the orders that have been through checkout. */
  predicate IntentFits(row: Order) {
    if row.intent.Some? then row.status in {AwaitingPayment, Completed, Failed, Expired}
    else row.status in {Pending, Cancelled, Expired}
  }

  ghost predicate Balanced(s: Shop) {
    s.products.Keys == s.stock.Keys &&
    forall p {:trigger Accounted(s, p)} :: p in s.products ==> Accounted(s, p)
  }

  predicate RowFits(s: Shop, o: OrderId)
    requires o in s.orders
  {
    s.orders[o].product in s.products && IntentFits(s.orders[o])
  }

  ghost predicate RowsFit(s: Shop) {
    forall o {:trigger RowFits(s, o)} :: o in s.orders ==> RowFits(s, o)
  }

  predicate SameIntent(orders: map<OrderId, Order>, o: OrderId, o': OrderId)
    requires o in orders && o' in orders
  {
    orders[o].intent.Some? && orders[o].intent == orders[o'].intent
  }

  /** The UNIQUE constraint of orders.stripe_payment_intent_id. */
  ghost predicate IntentsUnique(orders: map<OrderId, Order>) {
    forall o, o' {:trigger SameIntent(orders, o, o')} :: o in orders && o' in orders && SameIntent(orders, o, o') ==> o == o'
  }

  ghost predicate Inv(s: Shop) {
    Balanced(s) && RowsFit(s) && IntentsUnique(s.orders)
  }

  // ---- Each step keeps it -----------------------------------------------------------------

  lemma RowsFitAfterWrite(s: Shop, s': Shop, o: OrderId)
    requires RowsFit(s) && s.products.Keys <= s'.products.Keys
    requires o in s'.orders && s'.orders == s.orders[o := s'.orders[o]] && RowFits(s', o)
    ensures RowsFit(s')
  {
    forall q | q in s'.orders
      ensures RowFits(s', q)
    {
      assert q in s.orders ==> RowFits(s, q);
    }
  }

  lemma IntentsUniqueAfterWrite(orders: map<OrderId, Order>, o: OrderId, row: Order)
    requires IntentsUnique(orders)
    requires (o in orders && row.intent == orders[o].intent) || row.intent == None || IntentFree(orders, row.intent.value)
    ensures IntentsUnique(orders[o := row])
  {
    var orders' := orders[o := row];
    forall p, q | p in orders' && q in orders' && SameIntent(orders', p, q)
      ensures p == q
    {
      assert p in orders && q in orders ==> (SameIntent(orders, p, q) ==> p == q);
    }
  }

  lemma EndOneBalances(s: Shop, o: OrderId, to: Status)
    requires Balanced(s) && o in s.orders && s.orders[o].product in s.products && MayEnd(s.orders[o].status, to)
    ensures HasReservation(s.stock[s.orders[o].product])
    ensures Balanced(EndOne(s, o, to))
  {
    var row := s.orders[o];
    assert Accounted(s, row.product);
    LiveIsCounted(s.orders, o);
    forall q | q in s.products
      ensures Accounted(EndOne(s, o, to), q)
    {
      assert Accounted(s, q);
      CountAfterWrite(s.orders, o, row.(status := to), q, LIVE);
      CountAfterWrite(s.orders, o, row.(status := to), q, SOLD);
    }
  }

  lemma LiveIsCounted(orders: map<OrderId, Order>, o: OrderId)
    requires o in orders && orders[o].status in LIVE
    ensures Count(orders, orders[o].product, LIVE) > 0
  {
    assert o in OrdersIn(orders, orders[o].product, LIVE);
  }

  /** One order ends: its stock row has the reservation its guard promised, and the books still balance. */
  lemma EndOneKeepsInv(s: Shop, o: OrderId, to: Status)
    requires Inv(s) && o in s.orders && MayEnd(s.orders[o].status, to)
    ensures s.orders[o].product in s.stock && HasReservation(s.stock[s.orders[o].product])
    ensures Inv(EndOne(s, o, to))
  {
    assert RowFits(s, o);
    EndOneBalances(s, o, to);
    RowsFitAfterWrite(s, EndOne(s, o, to), o);
    IntentsUniqueAfterWrite(s.orders, o, s.orders[o].(status := to));
  }

  /** `t` differs from `s` in the status of the listed orders and in stock, nowhere else. */
  ghost predicate OnlyEnded(s: Shop, ids: seq<OrderId>, to: Status, t: Shop) {
    t.products == s.products && t.stock.Keys == s.stock.Keys && t.orders.Keys == s.orders.Keys &&
    (forall o :: o in s.orders && o in ids ==> t.orders[o] == s.orders[o].(status := to)) &&
    (forall o :: o in s.orders && o !in ids ==> t.orders[o] == s.orders[o])
  }

  ghost predicate Stocked(s: Shop, ids: seq<OrderId>) {
    Distinct(ids) && forall o :: o in ids ==> o in s.orders && s.orders[o].product in s.stock
  }

  lemma {:induction false} EndAllOnlyEnds(s: Shop, ids: seq<OrderId>, to: Status)
    requires Stocked(s, ids)
    ensures OnlyEnded(s, ids, to, EndAll(s, ids, to))
  {
    if ids != [] {
      var rest, last := ids[..|ids|-1], ids[|ids|-1];
      assert last !in rest && ids == rest + [last];
      assert last in ids;
      EndAllOnlyEnds(s, rest, to);
      OnlyEndedExtends(s, rest, to, EndAll(s, rest, to), last);
    }
  }

  lemma OnlyEndedExtends(s: Shop, ids: seq<OrderId>, to: Status, t: Shop, o: OrderId)
    requires OnlyEnded(s, ids, to, t) && o !in ids && o in s.orders && s.orders[o].product in s.stock
    ensures OnlyEnded(s, ids + [o], to, EndOne(t, o, to))
  {
    forall q | q in s.orders
      ensures q in ids + [o] <==> q in ids || q == o
    {
    }
  }

  ghost predicate AllMayEnd(s: Shop, ids: seq<OrderId>, to: Status) {
    Distinct(ids) && forall o :: o in ids ==> o in s.orders && MayEnd(s.orders[o].status, to)
  }

  /** Batches: order by order the guards stay satisfiable, so the whole batch keeps the invariant. */
  lemma {:induction false} EndAllKeepsInv(s: Shop, ids: seq<OrderId>, to: Status)
    requires Inv(s) && AllMayEnd(s, ids, to)
    ensures Inv(EndAll(s, ids, to)) && OnlyEnded(s, ids, to, EndAll(s, ids, to))
  {
    forall o | o in ids
      ensures s.orders[o].product in s.stock
    {
      assert RowFits(s, o);
    }
    EndAllOnlyEnds(s, ids, to);
    if ids != [] {
      var rest, last := ids[..|ids|-1], ids[|ids|-1];
      assert AllMayEnd(s, rest, to) && last !in rest;
      assert last in ids;
      EndAllKeepsInv(s, rest, to);
      EndOneKeepsInv(EndAll(s, rest, to), last, to);
    }
  }

  lemma ReserveKeepsInv(s: Shop, o: OrderId, row: Order)
    requires Inv(s) && o !in s.orders && row.product in s.products && HasFreeUnit(s.stock[row.product])
    requires row.status == Pending && row.intent == None
    ensures Inv(WithReserved(s, o, row))
  {
    forall q | q in s.products
      ensures Accounted(WithReserved(s, o, row), q)
    {
      assert Accounted(s, q);
      CountAfterWrite(s.orders, o, row, q, LIVE);
      CountAfterWrite(s.orders, o, row, q, SOLD);
    }
    RowsFitAfterWrite(s, WithReserved(s, o, row), o);
    IntentsUniqueAfterWrite(s.orders, o, row);
  }

  lemma CheckoutKeepsInv(s: Shop, o: OrderId, intent: IntentId, expiresAt: Time)
    requires Inv(s) && o in s.orders && s.orders[o].status == Pending && IntentFree(s.orders, intent)
    ensures Inv(WithIntent(s, o, intent, expiresAt))
  {
    var s' := WithIntent(s, o, intent, expiresAt);
    forall q | q in s.products
      ensures Accounted(s', q)
    {
      assert Accounted(s, q);
      CountAfterWrite(s.orders, o, s'.orders[o], q, LIVE);
      CountAfterWrite(s.orders, o, s'.orders[o], q, SOLD);
    }
    assert RowFits(s, o);
    RowsFitAfterWrite(s, s', o);
    IntentsUniqueAfterWrite(s.orders, o, s'.orders[o]);
  }

  lemma AddProductKeepsInv(s: Shop, p: ProductId, price: int, quantity: int)
    requires Inv(s) && p !in s.products && 0 <= quantity <= MAX_INT32
    ensures Inv(WithProduct(s, p, price, quantity))
  {
    var s' := WithProduct(s, p, price, quantity);
    forall o | o in s.orders
      ensures RowFits(s', o) && s.orders[o].product != p
    {
      assert RowFits(s, o);
    }
    assert OrdersIn(s.orders, p, LIVE) == {} && OrdersIn(s.orders, p, SOLD) == {};
    forall q | q in s.products
      ensures Accounted(WithProduct(s, p, price, quantity), q)
    {
      assert Accounted(s, q);
    }
  }

  lemma DoKeepsInv(s: Shop, a: Action)
    requires Inv(s)
    ensures Inv(Do(s, a))
  {
    if Enabled(s, a) {
      match a
      case AddProduct(p, price, quantity) => AddProductKeepsInv(s, p, price, quantity);
      case Reserve(o, customer, p, now, expiresAt) =>
        ReserveKeepsInv(s, o, NewOrder(customer, p, s.products[p].price, now, expiresAt));
      case Checkout(o, intent, expiresAt) => CheckoutKeepsInv(s, o, intent, expiresAt);
      case End(o, to) => EndOneKeepsInv(s, o, to);
      case Sweep(expired, _) => EndAllKeepsInv(s, expired, Expired);
    }
  }

  lemma {:induction false} RunKeepsInv(s: Shop, actions: seq<Action>)
    requires Inv(s)
    ensures Inv(Run(s, actions))
  {
    if actions != [] {
      RunKeepsInv(s, actions[..|actions|-1]);
      DoKeepsInv(Run(s, actions[..|actions|-1]), actions[|actions|-1]);
    }
  }

  // ---- What every run promises ------------------------------------------------------------

  /** Conservation and no oversell, after any run of any actions from books that balance. */
  lemma NoOversell(s: Shop, actions: seq<Action>, p: ProductId)
    requires Inv(s) && p in Run(s, actions).products
    ensures var t := Run(s, actions);
      p in t.stock &&
      t.stock[p].reserved == Count(t.orders, p, LIVE) &&
      t.stock[p].quantity + Count(t.orders, p, SOLD) == t.products[p].initial &&
      Count(t.orders, p, LIVE + SOLD) <= t.products[p].initial &&
      StockCheck(t.stock[p])
  {
    RunKeepsInv(s, actions);
    var t := Run(s, actions);
    assert Accounted(t, p);
    assert OrdersIn(t.orders, p, LIVE + SOLD) == OrdersIn(t.orders, p, LIVE) + OrdersIn(t.orders, p, SOLD);
  }

  /** How one order row may change: never back, never after it ended, its product and price never. */
  predicate RowEvolves(before: Order, after: Order) {
    before.product == after.product && before.customer == after.customer &&
    before.total == after.total && before.createdAt == after.createdAt &&
    (before.status == Pending ==> after.status != Pending || after == before) &&
    (before.status == AwaitingPayment ==>
      after.intent == before.intent && after.expiresAt == before.expiresAt && after.status !in {Pending, Cancelled}) &&
    (before.status !in LIVE ==> after == before)
  }

  ghost predicate Evolves(s: Shop, t: Shop) {
    (forall o :: o in s.orders ==> o in t.orders && RowEvolves(s.orders[o], t.orders[o])) &&
    (forall p :: p in s.products ==> p in t.products && t.products[p] == s.products[p])
  }

  lemma EndedEvolves(s: Shop, ids: seq<OrderId>, to: Status, t: Shop)
    requires OnlyEnded(s, ids, to, t) && AllMayEnd(s, ids, to)
    ensures Evolves(s, t)
  {
    forall o | o in s.orders
      ensures RowEvolves(s.orders[o], t.orders[o])
    {
      if o in ids {
        assert t.orders[o] == s.orders[o].(status := to);
      }
    }
  }

  lemma DoEvolves(s: Shop, a: Action)
    requires Inv(s)
    ensures Evolves(s, Do(s, a))
  {
    if Enabled(s, a) {
      match a
      case AddProduct(_, _, _) =>
      case Reserve(_, _, _, _, _) =>
      case Checkout(_, _, _) =>
      case End(o, to) =>
        assert RowFits(s, o);
        EndedEvolves(s, [o], to, EndOne(s, o, to));
      case Sweep(expired, _) =>
        EndAllKeepsInv(s, expired, Expired);
        EndedEvolves(s, expired, Expired, EndAll(s, expired, Expired));
    }
  }

  lemma EvolvesTransitive(s: Shop, t: Shop, u: Shop)
    requires Evolves(s, t) && Evolves(t, u)
    ensures Evolves(s, u)
  {
    forall o | o in s.orders
      ensures o in u.orders && RowEvolves(s.orders[o], u.orders[o])
    {
      assert RowEvolves(t.orders[o], u.orders[o]);
    }
  }

  lemma {:induction false} RunEvolves(s: Shop, actions: seq<Action>)
    requires Inv(s)
    ensures Evolves(s, Run(s, actions))
  {
    if actions != [] {
      var t := Run(s, actions[..|actions|-1]);
      RunEvolves(s, actions[..|actions|-1]);
      RunKeepsInv(s, actions[..|actions|-1]);
      DoEvolves(t, actions[|actions|-1]);
      EvolvesTransitive(s, t, Run(s, actions));
    }
  }

  /** The orders whose unit the action gives back or sells. */
  function Ended(a: Action): seq<OrderId> {
    match a
    case End(o, _) => [o]
    case Sweep(expired, _) => expired
    case _ => []
  }

  lemma RunSplits(s: Shop, actions: seq<Action>, k: nat)
    requires k <= |actions|
    ensures Run(s, actions) == Run(Run(s, actions[..k]), actions[k..])
    decreases |actions| - k
  {
    if k == |actions| {
      assert actions[..k] == actions;
    } else {
      RunSplits(s, actions[..|actions|-1], k);
      assert actions[..|actions|-1][..k] == actions[..k];
      assert actions[..|actions|-1][k..] == actions[k..][..|actions|-k-1];
    }
  }

  lemma EndedIsFinal(s: Shop, a: Action, o: OrderId)
    requires Inv(s) && Enabled(s, a) && o in Ended(a)
    ensures o in Do(s, a).orders && Do(s, a).orders[o].status !in LIVE
  {
    assert RowFits(s, o);
    if a.Sweep? {
      EndAllKeepsInv(s, a.expired, Expired);
    }
  }

  lemma OnlyLiveEnd(s: Shop, a: Action, o: OrderId)
    requires Enabled(s, a) && o in Ended(a)
    ensures o in s.orders && s.orders[o].status in LIVE
  {
  }

  /** A unit leaves its reservation at most once per order, whichever paths race for it. */
  lemma EndsAtMostOnce(s: Shop, actions: seq<Action>, i: nat, j: nat, o: OrderId)
    requires Inv(s) && Legal(s, actions) && i < j < |actions|
    requires o in Ended(actions[i])
    ensures o !in Ended(actions[j])
  {
    var before, after := Run(s, actions[..i]), Run(s, actions[..i+1]);
    assert actions[..i+1][..i] == actions[..i];
    RunKeepsInv(s, actions[..i]);
    EndedIsFinal(before, actions[i], o);
    RunKeepsInv(s, actions[..i+1]);
    RunSplits(s, actions[..j], i + 1);
    assert actions[..j][..i+1] == actions[..i+1];
    RunEvolves(after, actions[..j][i+1..]);
    assert RowEvolves(after.orders[o], Run(s, actions[..j]).orders[o]);
    if o in Ended(actions[j]) {
      OnlyLiveEnd(Run(s, actions[..j]), actions[j], o);
    }
  }

  /** The run sold the order's unit exactly once, and did nothing else to end the order. */
  ghost predicate SoldOnce(actions: seq<Action>, o: OrderId) {
    exists k :: 0 <= k < |actions| && actions[k] == End(o, Completed) &&
      forall j :: 0 <= j < |actions| && j != k ==> o !in Ended(actions[j])
  }

  /** Only completing an order makes it completed. */
  lemma CompletedByEnd(s: Shop, a: Action, o: OrderId)
    requires Inv(s) && o in Do(s, a).orders && Do(s, a).orders[o].status == Completed
    requires o in s.orders ==> s.orders[o].status != Completed
    ensures a == End(o, Completed)
  {
    if a.Sweep? && Enabled(s, a) {
      EndAllKeepsInv(s, a.expired, Expired);
    }
  }

  lemma {:induction false} CompletionHappened(s: Shop, actions: seq<Action>, o: OrderId) returns (k: nat)
    requires Inv(s) && o in Run(s, actions).orders && Run(s, actions).orders[o].status == Completed
    requires o in s.orders ==> s.orders[o].status != Completed
    ensures k < |actions| && actions[k] == End(o, Completed)
  {
    var rest := actions[..|actions|-1];
    RunKeepsInv(s, rest);
    if o in Run(s, rest).orders && Run(s, rest).orders[o].status == Completed {
      k := CompletionHappened(s, rest, o);
    } else {
      k := |actions| - 1;
      CompletedByEnd(Run(s, rest), actions[k], o);
    }
  }

  /** A completed order was sold exactly once in the run that completed it. */
  lemma {:induction false} CompletedIsSoldOnce(s: Shop, actions: seq<Action>, o: OrderId)
    requires Inv(s) && Legal(s, actions) && o in Run(s, actions).orders && Run(s, actions).orders[o].status == Completed
    requires o in s.orders ==> s.orders[o].status != Completed
    ensures SoldOnce(actions, o)
  {
    var k := CompletionHappened(s, actions, o);
    forall j | 0 <= j < |actions| && j != k
      ensures o !in Ended(actions[j])
    {
      if o in Ended(actions[j]) {
        EndsAtMostOnce(s, actions, if j < k then j else k, if j < k then k else j, o);
      }
    }
  }
}
