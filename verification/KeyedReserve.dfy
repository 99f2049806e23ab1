/** The idempotency wrapper around an arm, over one connection: claim, reserve and record, or replay. */
module KeyedReserve {
  import opened Tables
  import opened Lifecycle
  import opened Customers
  import opened Store
  import opened Identity
  import opened Outcomes
  import opened Arms
  import I = Idempotency

  datatype Answer = Plain(out: Outcome<OrderId>) | InProgress | KeyReused

  /** What replay answers from the row the claim lost against, or from finding it released since. */
  function Replayed(keys: I.KeyTable, k: I.Key, hash: I.Hash): Answer {
    if k !in keys then InProgress
    else if keys[k].hash != hash then KeyReused
    else if keys[k].order.None? then InProgress
    else Plain(Success(keys[k].order.value))
  }

  /** A recorded order exists and is for the product whose request was fingerprinted. */
  predicate KeysOk(keys: I.KeyTable, s: Shop) {
    forall k :: k in keys && keys[k].order.Some? ==>
      keys[k].order.value in s.orders && s.orders[keys[k].order.value].product == keys[k].hash.product
  }

  lemma KeysStayOk(keys: I.KeyTable, s: Shop, t: Shop)
    requires KeysOk(keys, s) && (forall o :: o in s.orders ==> o in t.orders && t.orders[o] == s.orders[o])
    ensures KeysOk(keys, t)
  {
  }

  /** A purchase adds at most one order, and a successful one is for the product asked for. */
  lemma PurchaseOnlyAdds(arm: Arm, linked: Ran<CustomerId>, p: Purchase, now: Time)
    requires Consistent(linked.0)
    ensures var s, spec := linked.0.shop, ReserveSpec(arm, linked, p, now);
      (forall o :: o in s.orders ==> o in spec.0.orders && spec.0.orders[o] == s.orders[o]) &&
      (spec.1.Success? ==> spec.1.value in spec.0.orders && spec.0.orders[spec.1.value].product == p.product)
  {
  }

  /** The key table after an undisturbed call that owned its key. */
  function Remembered(keys: I.KeyTable, k: I.Key, product: ProductId, answer: Answer, r: nat): I.KeyTable {
    if answer.Plain? && answer.out.Success? then keys[k := I.KeyRow(I.HashOf(product), Some(answer.out.value), r)] else keys
  }

  predicate Replays(keys: I.KeyTable, claims: Claims, idem: string) {
    var key := I.KeyOf(claims.subject, idem);
    key.Some? && key.value in keys
  }

  predicate IsNewOrder(s: Shop, t: Shop, o: OrderId, customer: Result<CustomerId>, product: ProductId, now: Time, ttl: int) {
    o in t.orders && customer.Ok? && product in s.products && product in s.stock && product in t.stock &&
    t.orders[o].status == Pending && t.orders[o].customer == customer.value && t.orders[o].product == product &&
    t.orders[o].total == s.products[product].price && t.orders[o].expiresAt == Some(now + ttl) && t.orders[o].intent == None &&
    t.stock[product] == TakeUnit(s.stock[product]) && HasFreeUnit(s.stock[product])
  }

  /** What a call under key `k` does to the keys and to the tables. */
  ghost predicate Keyed(keys: I.KeyTable, keys': I.KeyTable, t: Db, t': Db, due: (Shop, Outcome<OrderId>), k: I.Key, p: Purchase, r: nat, answer: Answer, reliable: bool) {
    if k in keys then
      keys' == keys && t' == t && (answer == Replayed(keys, k, I.HashOf(p.product)) || (answer == Plain(DatabaseError(Lost)) && !reliable))
    else
      answer.Plain? && Served(t, t', due, answer.out, reliable) &&
      keys' - {k} == keys - {k} && (k in keys' ==> keys'[k].hash == I.HashOf(p.product)) &&
      (answer.out.Success? ==> k in keys' && keys'[k].order in {None, Some(answer.out.value)}) &&
      (reliable ==> keys' == Remembered(keys, k, p.product, answer, r))
  }

  class KeyedStrategy {
    const inner: Strategy
    var keys: I.KeyTable

    constructor (inner: Strategy)
      ensures this.inner == inner && keys == map[]
    {
      this.inner, this.keys := inner, map[];
    }

    ghost predicate Valid()
      reads this, inner.store
    {
      inner.store.Ready() && KeysOk(keys, inner.store.t.shop)
    }

    /** The reserve this call would make if it owned its key. */
    ghost function Due(p: Purchase): (Shop, Outcome<OrderId>)
      reads inner, inner.store, inner.resolver
    {
      ReserveSpec(inner.arm, inner.Linked(p.claims), p, inner.store.now)
    }

    method ClaimIdempotencyKey(k: I.Key, hash: I.Hash, r: nat) returns (claimed: Result<()>)
      modifies this`keys
      ensures keys in {old(keys), I.ClaimKey(old(keys), k, hash, r)}
      ensures claimed.Ok? ==> k !in old(keys) && keys == I.ClaimKey(old(keys), k, hash, r)
      ensures claimed == Err(NoRows) ==> k in old(keys)
      ensures claimed.Err? ==> claimed.error == NoRows || (claimed.error == Lost && !inner.store.reliable)
    {
      var runs, answered := true, true;
      if !inner.store.reliable { runs, answered := *, *; }
      var taken := k in keys;
      if runs {
        keys := I.ClaimKey(keys, k, hash, r);
      }
      return if !runs || !answered then Err(Lost) else if taken then Err(NoRows) else Ok(());
    }

    method CompleteIdempotencyKey(k: I.Key, order: OrderId)
      modifies this`keys
      ensures keys in {old(keys), I.CompleteKey(old(keys), k, order)}
      ensures inner.store.reliable ==> keys == I.CompleteKey(old(keys), k, order)
    {
      var runs := inner.store.reliable;
      if !runs { runs := *; }
      if runs {
        keys := I.CompleteKey(keys, k, order);
      }
    }

    method ReleaseIdempotencyKey(k: I.Key)
      modifies this`keys
      ensures keys in {old(keys), I.ReleaseKey(old(keys), k)}
      ensures inner.store.reliable ==> keys == I.ReleaseKey(old(keys), k)
    {
      var runs := inner.store.reliable;
      if !runs { runs := *; }
      if runs {
        keys := I.ReleaseKey(keys, k);
      }
    }

    /** The inner reserve with the key table untouched. */
    method ReserveInner(p: Purchase) returns (out: Outcome<OrderId>)
      requires Valid()
      modifies inner.store, inner.resolver
      ensures Valid()
      ensures Served(old(inner.store.t), inner.store.t, old(Due(p)), out, inner.store.reliable)
      ensures out.Success? ==> out.value in inner.store.t.shop.orders && inner.store.t.shop.orders[out.value].product == p.product
    {
      hide Inv, Placement, LinkSpec, ReserveSpec;
      ghost var due, linked, before := Due(p), inner.Linked(p.claims), inner.store.t.shop;
      ResolveKeeps(inner.resolver.Remembers(p.claims), inner.resolver.ids, inner.store.t, p.claims, inner.arm != Cte);
      PurchaseOnlyAdds(inner.arm, linked, p, inner.store.now);
      out := inner.Reserve(p);
      KeysStayOk(keys, before, inner.store.t.shop);
    }

    /** Both the completion and the release are best effort: neither changes the answer. */
    method ReserveAndRecord(k: I.Key, p: Purchase) returns (answer: Answer)
      requires Valid() && k in keys && keys[k].hash == I.HashOf(p.product) && keys[k].order.None?
      modifies this`keys, inner.store, inner.resolver
      ensures Valid() && answer.Plain?
      ensures Served(old(inner.store.t), inner.store.t, old(Due(p)), answer.out, inner.store.reliable)
      ensures answer.out.Success? ==> keys in {old(keys), I.CompleteKey(old(keys), k, answer.out.value)}
      ensures !answer.out.Success? ==> keys in {old(keys), I.ReleaseKey(old(keys), k)}
      ensures inner.store.reliable ==> keys == if answer.out.Success? then I.CompleteKey(old(keys), k, answer.out.value) else I.ReleaseKey(old(keys), k)
    {
      hide Consistent, ReserveSpec;
      var out := ReserveInner(p);
      if out.Success? {
        CompleteIdempotencyKey(k, out.value);
      } else {
        ReleaseIdempotencyKey(k);
      }
      return Plain(out);
    }

    method Replay(k: I.Key, hash: I.Hash) returns (answer: Answer)
      requires Valid()
      modifies inner.store
      ensures Valid() && inner.store.t == old(inner.store.t) && inner.store.now == old(inner.store.now)
      ensures answer == Replayed(keys, k, hash) || (answer == Plain(DatabaseError(Lost)) && !inner.store.reliable)
    {
      var lost := false;
      if !inner.store.reliable { lost := *; }
      if lost {
        return Plain(DatabaseError(Lost));
      }
      if k !in keys {
        return InProgress;
      }
      var existing := keys[k];
      if existing.hash != hash {
        return KeyReused;
      }
      if existing.order.None? {
        return InProgress;
      }
      var order := inner.store.FindOrderByIDPlain(existing.order.value);
      return Plain(if order.Ok? then Success(existing.order.value) else DatabaseError(order.error));
    }

    /** A key that is taken reserves nothing; a free key reserves once and remembers the order, or is free again. */
    method ReserveUnderKey(r: nat, k: I.Key, p: Purchase) returns (answer: Answer)
      requires Valid()
      modifies this`keys, inner.store, inner.resolver
      ensures Valid()
      ensures k in old(keys) ==> keys == old(keys) && inner.store.t == old(inner.store.t)
      ensures k in old(keys) ==> answer == Replayed(keys, k, I.HashOf(p.product)) || (answer == Plain(DatabaseError(Lost)) && !inner.store.reliable)
      ensures k !in old(keys) ==> answer.Plain? && Served(old(inner.store.t), inner.store.t, old(Due(p)), answer.out, inner.store.reliable)
      ensures k !in old(keys) ==> keys - {k} == old(keys) - {k} && (k in keys ==> keys[k].hash == I.HashOf(p.product))
      ensures k !in old(keys) && answer.out.Success? ==> k in keys && keys[k].order in {None, Some(answer.out.value)}
      ensures k !in old(keys) && inner.store.reliable ==> keys == Remembered(old(keys), k, p.product, answer, r)
    {
      hide Consistent, ReserveSpec;
      var hash := I.HashOf(p.product);
      var claimed := ClaimIdempotencyKey(k, hash, r);
      if claimed.Ok? {
        answer := ReserveAndRecord(k, p);
      } else if claimed.error != NoRows {
        return Plain(DatabaseError(claimed.error));
      } else {
        answer := Replay(k, hash);
      }
    }

    /** A request without a key or a subject is passed on. `r` numbers the request for the record. */
    method Reserve(r: nat, idem: string, p: Purchase) returns (answer: Answer)
      requires Valid()
      modifies this`keys, inner.store, inner.resolver
      ensures Valid()
      ensures I.KeyOf(p.claims.subject, idem).None? ==> keys == old(keys) && answer.Plain?
      ensures I.KeyOf(p.claims.subject, idem).None? ==> Served(old(inner.store.t), inner.store.t, old(Due(p)), answer.out, inner.store.reliable)
      ensures I.KeyOf(p.claims.subject, idem).Some? ==> Keyed(old(keys), keys, old(inner.store.t), inner.store.t, old(Due(p)), I.KeyOf(p.claims.subject, idem).value, p, r, answer, inner.store.reliable)
    {
      hide Consistent, ReserveSpec, Served, Remembered;
      var key := I.KeyOf(p.claims.subject, idem);
      if key.None? {
        var out := ReserveInner(p);
        return Plain(out);
      }
      answer := ReserveUnderKey(r, key.value, p);
    }

    /**
     * POST /orders: the expiry is stamped once, whatever the arm. A successful answer that is no replay
     * is a new pending order of the resolved caller, at the present price, with one more unit reserved.
     */
    method CreateOrder(r: nat, idem: string, claims: Claims, product: ProductId, ttl: int) returns (answer: Answer)
      requires Valid()
      modifies this`keys, inner.store, inner.resolver
      ensures Valid()
      ensures !Replays(old(keys), claims, idem) && answer.Plain? && answer.out.Success? ==>
        IsNewOrder(old(inner.store.t).shop, inner.store.t.shop, answer.out.value, old(inner.Linked(claims)).1, product, old(inner.store.now), ttl)
      ensures Replays(old(keys), claims, idem) ==> inner.store.t == old(inner.store.t)
    {
      hide Consistent, LinkSpec, Remembered;
      ResolveKeeps(inner.resolver.Remembers(claims), inner.resolver.ids, inner.store.t, claims, inner.arm != Cte);
      answer := Reserve(r, idem, Purchase(product, claims, inner.store.now + ttl));
    }

    /**
     * The retry of a request that got its order reserves nothing more, over any connection. It gets the
     * same order, or is told to wait if the completion was lost, or loses its own connection.
     */
    method ReserveAndRetry(r: nat, idem: string, p: Purchase) returns (first: Answer, second: Answer)
      requires Valid() && idem != "" && p.claims.subject != ""
      modifies this`keys, inner.store, inner.resolver
      ensures first.Plain? && first.out.Success? ==> second in {first, InProgress, Plain(DatabaseError(Lost))}
      ensures first.Plain? && first.out.Success? && inner.store.reliable ==> second == first
      ensures inner.store.t.shop == old(inner.store.t).shop || inner.store.t.shop == old(Due(p)).0
      ensures first.Plain? && first.out.Success? ==> first.out.value in inner.store.t.shop.orders
    {
      hide Consistent;
      first := Reserve(r, idem, p);
      if first.Plain? && first.out.Success? {
        second := Reserve(r + 1, idem, p);
      } else {
        second := first;
      }
    }
  }
}
