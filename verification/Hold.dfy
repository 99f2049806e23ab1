/** How long an unpaid order can keep a unit off sale. */
module Hold {
  import opened Tables
  import opened Lifecycle

  /** `ttl` is RESERVATION_TTL; a full sweep finishes within every interval of length `period`. */
  datatype Timing = Timing(ttl: int, period: nat)

  datatype Timed = Timed(shop: Shop, now: Time, lastSweep: Time)

  datatype Event =
    | Pass(elapsed: nat)
    | PlaceOrder(order: OrderId, customer: CustomerId, product: ProductId)
    | StartPayment(order: OrderId, intent: IntentId)
    | EndOrder(order: OrderId, to: Status)
    | SweepSome(expired: seq<OrderId>)
    | SweepAll(expired: seq<OrderId>)
    | Restock(product: ProductId, price: int, quantity: int)

  ghost predicate WholeBacklog(s: Timed, expired: seq<OrderId>) {
    Distinct(expired) &&
    forall o :: o in expired <==> o in s.shop.orders && s.shop.orders[o].status in LIVE && Overdue(s.shop.orders[o], s.now)
  }

  /** Time cannot run on for longer than the period without a full sweep. */
  ghost predicate Allowed(c: Timing, s: Timed, e: Event) {
    match e
    case Pass(elapsed) => s.now + elapsed <= s.lastSweep + c.period
    case SweepAll(expired) => WholeBacklog(s, expired)
    case _ => true
  }

  /** Both stamps of expires_at are the clock plus the TTL, as CreateOrder and Checkout compute them. */
  function ActionOf(c: Timing, s: Timed, e: Event): Action {
    match e
    case PlaceOrder(o, customer, p) => Reserve(o, customer, p, s.now, s.now + c.ttl)
    case StartPayment(o, intent) => Checkout(o, intent, s.now + c.ttl)
    case EndOrder(o, to) => End(o, to)
    case SweepSome(expired) => Sweep(expired, s.now)
    case SweepAll(expired) => Sweep(expired, s.now)
    case Restock(p, price, quantity) => AddProduct(p, price, quantity)
    case Pass(_) => Sweep([], s.now)
  }

  ghost function Happen(c: Timing, s: Timed, e: Event): Timed {
    if !Allowed(c, s, e) then s
    else if e.Pass? then s.(now := s.now + e.elapsed)
    else s.(shop := Do(s.shop, ActionOf(c, s, e)), lastSweep := if e.SweepAll? then s.now else s.lastSweep)
  }

  ghost function Unfold(c: Timing, s: Timed, events: seq<Event>): Timed {
    if events == [] then s else Happen(c, Unfold(c, s, events[..|events|-1]), events[|events|-1])
  }

  function Positive(x: int): nat {
    if x < 0 then 0 else x
  }

  /** A live order was stamped recently enough to have survived the last full sweep. */
  predicate FreshEnough(c: Timing, s: Timed, row: Order) {
    row.status in LIVE ==>
      row.expiresAt.Some? &&
      var stamped := row.expiresAt.value - c.ttl;
      s.lastSweep <= stamped + Positive(c.ttl) && stamped <= s.now &&
      (row.status == Pending ==> stamped == row.createdAt) &&
      (row.status == AwaitingPayment ==> stamped <= row.createdAt + Positive(c.ttl) + c.period)
  }

  /** `earlier` are the orders that were there before the run, about which nothing is known. */
  ghost predicate TimedInv(c: Timing, s: Timed, earlier: set<OrderId>) {
    Inv(s.shop) && s.lastSweep <= s.now <= s.lastSweep + c.period &&
    forall o :: o in s.shop.orders && o !in earlier ==> FreshEnough(c, s, s.shop.orders[o])
  }

  lemma SweepKeepsFresh(c: Timing, s: Timed, earlier: set<OrderId>, e: Event)
    requires TimedInv(c, s, earlier) && (e.SweepSome? || e.SweepAll?) && Allowed(c, s, e)
    ensures TimedInv(c, Happen(c, s, e), earlier)
  {
    var s' := Happen(c, s, e);
    DoKeepsInv(s.shop, ActionOf(c, s, e));
    if Enabled(s.shop, ActionOf(c, s, e)) {
      EndAllKeepsInv(s.shop, e.expired, Expired);
      forall o | o in s'.shop.orders && o !in earlier
        ensures FreshEnough(c, s', s'.shop.orders[o])
      {
        if o !in e.expired {
          assert s'.shop.orders[o] == s.shop.orders[o];
          assert FreshEnough(c, s, s.shop.orders[o]);
        }
      }
    } else if e.SweepAll? {
      SweepAllIsEnabled(s, e.expired);
    }
  }

  lemma SweepAllIsEnabled(s: Timed, expired: seq<OrderId>)
    requires WholeBacklog(s, expired)
    ensures Enabled(s.shop, Sweep(expired, s.now))
  {
  }

  lemma HappenKeepsFresh(c: Timing, s: Timed, earlier: set<OrderId>, e: Event)
    requires TimedInv(c, s, earlier)
    ensures TimedInv(c, Happen(c, s, e), earlier)
  {
    if Allowed(c, s, e) {
      if e.SweepSome? || e.SweepAll? {
        SweepKeepsFresh(c, s, earlier, e);
      } else {
        var s' := Happen(c, s, e);
        DoKeepsInv(s.shop, ActionOf(c, s, e));
        forall o | o in s'.shop.orders && o !in earlier
          ensures FreshEnough(c, s', s'.shop.orders[o])
        {
          assert o in s.shop.orders ==> FreshEnough(c, s, s.shop.orders[o]);
        }
      }
    }
  }

  lemma {:induction false} UnfoldKeepsFresh(c: Timing, s: Timed, earlier: set<OrderId>, events: seq<Event>)
    requires TimedInv(c, s, earlier)
    ensures TimedInv(c, Unfold(c, s, events), earlier)
  {
    if events != [] {
      UnfoldKeepsFresh(c, s, earlier, events[..|events|-1]);
      HappenKeepsFresh(c, Unfold(c, s, events[..|events|-1]), earlier, events[|events|-1]);
    }
  }

  /**
   * No order placed in the run is ever both unpaid and live later than twice TTL plus period after it was
   * created, and none that was never checked out later than once.
   */
  lemma HoldIsBounded(c: Timing, s: Timed, events: seq<Event>, o: OrderId)
    requires Inv(s.shop) && o !in s.shop.orders && s.lastSweep <= s.now <= s.lastSweep + c.period
    requires o in Unfold(c, s, events).shop.orders && Unfold(c, s, events).shop.orders[o].status in LIVE
    ensures var t := Unfold(c, s, events);
      t.now - t.shop.orders[o].createdAt <= 2 * (Positive(c.ttl) + c.period) &&
      (t.shop.orders[o].status == Pending ==> t.now - t.shop.orders[o].createdAt <= Positive(c.ttl) + c.period)
  {
    UnfoldKeepsFresh(c, s, s.shop.orders.Keys, events);
    assert FreshEnough(c, Unfold(c, s, events), Unfold(c, s, events).shop.orders[o]);
  }

  // ---- The bound is the best one ----------------------------------------------------------

  lemma {:induction false} UnfoldAppends(c: Timing, s: Timed, first: seq<Event>, second: seq<Event>)
    ensures Unfold(c, s, first + second) == Unfold(c, Unfold(c, s, first), second)
  {
    hide Happen;
    if second == [] {
      assert first + second == first;
    } else {
      UnfoldAppends(c, s, first, second[..|second|-1]);
      assert (first + second)[..|first + second|-1] == first + second[..|second|-1];
    }
  }

  lemma UnfoldOne(c: Timing, s: Timed, e: Event)
    ensures Unfold(c, s, [e]) == Happen(c, s, e)
  {
    hide Happen;
    assert [e][..0] == [];
  }

  /** A sweep that finds nothing overdue changes only the time of the last sweep. */
  lemma IdleSweep(c: Timing, s: Timed)
    requires forall o :: o in s.shop.orders ==> !Overdue(s.shop.orders[o], s.now)
    ensures Happen(c, s, SweepAll([])) == s.(lastSweep := s.now)
  {
    assert WholeBacklog(s, []);
    assert Enabled(s.shop, Sweep([], s.now));
  }

  /** As long as nothing expires, sweeps on time let any stretch of time pass and change nothing. */
  lemma {:induction false} Idle(c: Timing, s: Timed, until: Time) returns (events: seq<Event>)
    requires c.period >= 1 && s.lastSweep == s.now <= until
    requires forall o :: o in s.shop.orders ==> !Overdue(s.shop.orders[o], until)
    ensures Unfold(c, s, events) == Timed(s.shop, until, until)
    decreases until - s.now
  {
    hide Happen, Unfold;
    if s.now == until {
      events := [];
      NothingUnfolds(c, s);
    } else {
      var step := if until - s.now <= c.period then until - s.now else c.period;
      var later, swept := s.(now := s.now + step), Timed(s.shop, s.now + step, s.now + step);
      PassOn(c, s, step);
      IdleSweep(c, later);
      var rest := Idle(c, swept, until);
      UnfoldOne(c, s, Pass(step));
      UnfoldOne(c, later, SweepAll([]));
      UnfoldAppends(c, s, [Pass(step)], [SweepAll([])]);
      UnfoldAppends(c, s, [Pass(step)] + [SweepAll([])], rest);
      events := [Pass(step)] + [SweepAll([])] + rest;
    }
  }

  lemma NothingUnfolds(c: Timing, s: Timed)
    ensures Unfold(c, s, []) == s
  {
  }

  lemma PassOn(c: Timing, s: Timed, elapsed: nat)
    requires s.now + elapsed <= s.lastSweep + c.period
    ensures Happen(c, s, Pass(elapsed)) == s.(now := s.now + elapsed)
  {
  }

  /** Order 0 of the only unit, placed at time 0: pending, or paid for at time `paidAt` and still unconfirmed. */
  function OneOrder(c: Timing, paidAt: Option<Time>): Shop {
    var row := NewOrder(1, 7, 500, 0, c.ttl);
    Shop(map[7 := Product(500, 1)], map[7 := Stock(1, 1)],
         map[0 := if paidAt.None? then row
                  else row.(status := AwaitingPayment, intent := Some("pi"), expiresAt := Some(paidAt.value + c.ttl))])
  }

  function OneUnit(): Timed {
    Timed(Shop(map[7 := Product(500, 1)], map[7 := Stock(1, 0)], map[]), 0, 0)
  }

  lemma PlacedAtZero(c: Timing)
    ensures Inv(OneUnit().shop) && Happen(c, OneUnit(), PlaceOrder(0, 1, 7)) == Timed(OneOrder(c, None), 0, 0)
  {
    assert OrdersIn(OneUnit().shop.orders, 7, LIVE) == {} && OrdersIn(OneUnit().shop.orders, 7, SOLD) == {};
    assert Enabled(OneUnit().shop, Reserve(0, 1, 7, 0, c.ttl));
  }

  lemma PaymentStarts(c: Timing, now: Time, lastSweep: Time)
    ensures Happen(c, Timed(OneOrder(c, None), now, lastSweep), StartPayment(0, "pi")) == Timed(OneOrder(c, Some(now)), now, lastSweep)
  {
    assert Enabled(OneOrder(c, None), Checkout(0, "pi", now + c.ttl));
  }

  /** The order outlives its first expiry by a whole period before its owner checks out. */
  lemma FirstHalf(c: Timing) returns (events: seq<Event>)
    requires c.ttl >= 0 && c.period >= 1
    ensures Unfold(c, OneUnit(), events) == Timed(OneOrder(c, None), c.ttl + c.period, c.ttl)
  {
    hide Happen, Unfold;
    PlacedAtZero(c);
    var idle := Idle(c, Timed(OneOrder(c, None), 0, 0), c.ttl);
    var due := Timed(OneOrder(c, None), c.ttl, c.ttl);
    PassOn(c, due, c.period);
    UnfoldOne(c, OneUnit(), PlaceOrder(0, 1, 7));
    UnfoldOne(c, due, Pass(c.period));
    UnfoldAppends(c, OneUnit(), [PlaceOrder(0, 1, 7)], idle);
    UnfoldAppends(c, OneUnit(), [PlaceOrder(0, 1, 7)] + idle, [Pass(c.period)]);
    events := [PlaceOrder(0, 1, 7)] + idle + [Pass(c.period)];
  }

  /** Checked out at the last moment, it outlives its second expiry in the same way. */
  lemma SecondHalf(c: Timing) returns (events: seq<Event>)
    requires c.ttl >= 0 && c.period >= 1
    ensures var paidAt := c.ttl + c.period;
      Unfold(c, Timed(OneOrder(c, None), paidAt, c.ttl), events) == Timed(OneOrder(c, Some(paidAt)), 2 * (c.ttl + c.period), paidAt + c.ttl)
  {
    hide Happen, Unfold;
    var paidAt := c.ttl + c.period;
    var start, paid := Timed(OneOrder(c, None), paidAt, c.ttl), Timed(OneOrder(c, Some(paidAt)), paidAt, c.ttl);
    PaymentStarts(c, paidAt, c.ttl);
    IdleSweep(c, paid);
    var idle := Idle(c, paid.(lastSweep := paidAt), paidAt + c.ttl);
    var due := Timed(OneOrder(c, Some(paidAt)), paidAt + c.ttl, paidAt + c.ttl);
    PassOn(c, due, c.period);
    var pay, sweep, pass := StartPayment(0, "pi"), SweepAll([]), Pass(c.period);
    UnfoldOne(c, start, pay);
    UnfoldOne(c, paid, sweep);
    UnfoldOne(c, due, pass);
    UnfoldAppends(c, start, [pay], [sweep]);
    UnfoldAppends(c, start, [pay] + [sweep], idle);
    UnfoldAppends(c, start, [pay] + [sweep] + idle, [pass]);
    events := [pay] + [sweep] + idle + [pass];
  }

  /** Whatever the TTL and the period, the bound is attained: no smaller one holds. */
  lemma HoldBoundIsReached(c: Timing) returns (s: Timed, events: seq<Event>)
    requires c.ttl >= 0 && c.period >= 1
    ensures Inv(s.shop) && s.shop.orders == map[] && s.lastSweep <= s.now <= s.lastSweep + c.period
    ensures var t := Unfold(c, s, events);
      0 in t.shop.orders && t.shop.orders[0].status in LIVE && t.now - t.shop.orders[0].createdAt == 2 * (c.ttl + c.period)
  {
    hide Inv, Unfold;
    s := OneUnit();
    PlacedAtZero(c);
    var first := FirstHalf(c);
    var second := SecondHalf(c);
    UnfoldAppends(c, s, first, second);
    events := first + second;
  }
}
