/** The expiry sweeper's batched drain, and what one sweep of everything at once would have done. */
module Sweeper {
  import opened Tables
  import opened Lifecycle
  import opened Store
  import opened OrderService

  /** Every live order whose expiry has passed. */
  function Backlog(orders: map<OrderId, Order>, now: Time): set<OrderId> {
    set o | o in orders && ExpirableAt(orders, now, o)
  }

  function BacklogOf(orders: map<OrderId, Order>, now: Time, p: ProductId): set<OrderId> {
    set o | o in orders && ExpirableAt(orders, now, o) && orders[o].product == p
  }

  /** The whole backlog expired in one step: no batch, no order among the orders. */
  function OneShot(s: Shop, now: Time): Shop {
    Shop(s.products,
         map p | p in s.stock :: s.stock[p].(reserved := s.stock[p].reserved - |BacklogOf(s.orders, now, p)|),
         map o | o in s.orders :: if ExpirableAt(s.orders, now, o) then s.orders[o].(status := Expired) else s.orders[o])
  }

  /** Expiring the backlog one order at a time comes to the one-shot sweep, in whatever order it is listed. */
  lemma AnyEnumerationIsOneShot(s: Shop, now: Time, ids: seq<OrderId>)
    requires Inv(s) && AllOverdue(s.orders, now, ids) && forall o :: ExpirableAt(s.orders, now, o) ==> o in ids
    ensures EndAll(s, ids, Expired) == OneShot(s, now)
  {
    var t := EndAll(s, ids, Expired);
    OverdueMayEnd(s, now, ids);
    EndAllKeepsInv(s, ids, Expired);
    assert t.orders == OneShot(s, now).orders;
    forall p | p in s.stock
      ensures t.stock[p] == OneShot(s, now).stock[p]
    {
      SweptStock(s, now, t, p);
    }
    assert t.stock == OneShot(s, now).stock;
  }

  /** By conservation on both sides: the live orders lost are the overdue ones, the sold ones are the same. */
  lemma SweptStock(s: Shop, now: Time, t: Shop, p: ProductId)
    requires Inv(s) && Inv(t) && t.orders == OneShot(s, now).orders && t.products == s.products && p in s.stock
    ensures p in t.stock && t.stock[p] == OneShot(s, now).stock[p]
  {
    hide Count;
    assert Accounted(s, p) && Accounted(t, p);
    SweptCounts(s, now, p);
  }

  lemma SweptCounts(s: Shop, now: Time, p: ProductId)
    ensures Count(OneShot(s, now).orders, p, LIVE) == Count(s.orders, p, LIVE) - |BacklogOf(s.orders, now, p)|
    ensures Count(OneShot(s, now).orders, p, SOLD) == Count(s.orders, p, SOLD)
  {
    hide OneShot;
    var live, gone, after := OrdersIn(s.orders, p, LIVE), BacklogOf(s.orders, now, p), OneShot(s, now).orders;
    forall o
      ensures o in OrdersIn(after, p, LIVE) <==> o in live && o !in gone
      ensures o in OrdersIn(after, p, SOLD) <==> o in OrdersIn(s.orders, p, SOLD)
    {
      SweptRow(s, now, o);
    }
    assert gone <= live;
    assert OrdersIn(after, p, LIVE) == live - gone;
    assert OrdersIn(after, p, SOLD) == OrdersIn(s.orders, p, SOLD);
  }

  lemma SweptRow(s: Shop, now: Time, o: OrderId)
    ensures o in OneShot(s, now).orders <==> o in s.orders
    ensures o in s.orders ==> OneShot(s, now).orders[o] == if ExpirableAt(s.orders, now, o) then s.orders[o].(status := Expired) else s.orders[o]
  {
  }

  lemma {:induction false} EndAllComposes(s: Shop, first: seq<OrderId>, second: seq<OrderId>, to: Status)
    ensures EndAll(EndAll(s, first, to), second, to) == EndAll(s, first + second, to)
  {
    if second == [] {
      assert first + second == first;
    } else {
      EndAllComposes(s, first, second[..|second|-1], to);
      assert (first + second)[..|first + second|-1] == first + second[..|second|-1];
    }
  }

  /** What is overdue after some of the backlog was swept is the rest of it. */
  lemma RestIsOverdue(s: Shop, now: Time, ids: seq<OrderId>, o: OrderId)
    requires Inv(s) && AllOverdue(s.orders, now, ids)
    ensures ExpirableAt(EndAll(s, ids, Expired).orders, now, o) <==> ExpirableAt(s.orders, now, o) && o !in ids
  {
    OverdueMayEnd(s, now, ids);
    EndAllKeepsInv(s, ids, Expired);
  }

  lemma DistinctTogether(first: seq<OrderId>, second: seq<OrderId>)
    requires Distinct(first) && Distinct(second) && forall o :: o in second ==> o !in first
    ensures Distinct(first + second)
  {
    forall i, j | 0 <= i < j < |first + second|
      ensures (first + second)[i] != (first + second)[j]
    {
      assert i >= |first| ==> (first + second)[i] == second[i - |first|];
      assert j >= |first| ==> (first + second)[j] == second[j - |first|] && second[j - |first|] in second;
    }
  }

  lemma {:induction false} BatchesAdd(s: Shop, now: Time, ids: seq<OrderId>, more: seq<OrderId>)
    requires Inv(s) && AllOverdue(s.orders, now, ids) && AllOverdue(EndAll(s, ids, Expired).orders, now, more)
    ensures AllOverdue(s.orders, now, ids + more)
    ensures EndAll(EndAll(s, ids, Expired), more, Expired) == EndAll(s, ids + more, Expired)
  {
    hide Inv, EndAll, Distinct;
    EndAllComposes(s, ids, more, Expired);
    forall o | o in more
      ensures ExpirableAt(s.orders, now, o) && o !in ids
    {
      RestIsOverdue(s, now, ids, o);
    }
    DistinctTogether(ids, more);
  }

  /** A batch that comes up short leaves nothing overdue behind. */
  lemma ShortBatchDrains(s: Shop, now: Time, ids: seq<OrderId>, limit: int, more: seq<OrderId>)
    requires Inv(s) && AllOverdue(s.orders, now, ids) && |more| < limit
    requires Picked(EndAll(s, ids, Expired).orders, now, limit, more)
    ensures EndAll(s, ids + more, Expired) == OneShot(s, now)
  {
    BatchesAdd(s, now, ids, more);
    forall o | ExpirableAt(s.orders, now, o)
      ensures o in ids + more
    {
      RestIsOverdue(s, now, ids, o);
    }
    AnyEnumerationIsOneShot(s, now, ids + more);
  }

  lemma {:induction false} DistinctFits(ids: seq<OrderId>, all: set<OrderId>)
    requires Distinct(ids) && forall o :: o in ids ==> o in all
    ensures |ids| <= |all|
  {
    if ids != [] {
      var rest, last := ids[..|ids|-1], ids[|ids|-1];
      assert last in ids && last !in rest;
      DistinctFits(rest, all - {last});
    }
  }

  class Sweeper {
    const service: Service
    const batchSize: int

    constructor (service: Service, batchSize: int)
      ensures this.service == service && this.batchSize == batchSize
    {
      this.service, this.batchSize := service, batchSize;
    }

    /**
     * Sweeps until a short batch, an error, or a cancelled context; the context is found cancelled
     * once `patience` full batches have been swept. With batchSize 0 no batch is ever short.
     */
    method SweepAll(patience: nat) returns (drained: bool, rounds: nat, ghost swept: seq<OrderId>)
      requires service.store.Ready()
      modifies service.store
      ensures service.store.Ready() && service.store.now == old(service.store.now)
      ensures AllOverdue(old(service.store.t).shop.orders, service.store.now, swept)
      ensures service.store.t.shop == EndAll(old(service.store.t).shop, swept, Expired)
      ensures drained ==> service.store.t.shop == OneShot(old(service.store.t).shop, service.store.now)
      ensures service.store.reliable && batchSize > 0 && patience > |Backlog(old(service.store.t).shop.orders, service.store.now)| ==> drained
      ensures batchSize > 0 ==> rounds <= |Backlog(old(service.store.t).shop.orders, service.store.now)| + 1
      ensures batchSize <= 0 ==> !drained && swept == []
      ensures service.store.reliable && batchSize == 0 ==> rounds >= patience
    {
      var store := service.store;
      ghost var s, now := store.t.shop, store.now;
      drained, rounds, swept := false, 0, [];
      while true
        invariant store.Ready() && store.now == now && !drained
        invariant AllOverdue(s.orders, now, swept) && store.t.shop == EndAll(s, swept, Expired)
        invariant batchSize > 0 ==> rounds <= |swept|
        invariant batchSize <= 0 ==> swept == []
        invariant rounds == 0 || rounds < patience
        decreases patience - rounds
      {
        ghost var mid := store.t.shop;
        var out;
        ghost var ids;
        out, ids := service.SweepExpired(batchSize);
        ghost var before := swept;
        DistinctFits(before, Backlog(s.orders, now));
        if out.Success? || store.t.shop != mid {
          BatchesAdd(s, now, before, ids);
          swept := before + ids;
        }
        if !out.Success? {
          return;
        }
        rounds := rounds + 1;
        if out.value < batchSize {
          drained := true;
          ShortBatchDrains(s, now, before, batchSize, ids);
          return;
        }
        if rounds >= patience {
          DistinctFits(swept, Backlog(s.orders, now));
          return;
        }
      }
    }
  }
}
