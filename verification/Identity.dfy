/** Resolving a caller to a customers row over one connection: customers.Link and the two resolvers. */
module Identity {
  import opened Tables
  import opened Customers
  import opened Store

  /** One pass of Link: by subject first, then the upsert on email. */
  ghost function LinkPass(db: Db, claims: Claims): Ran<CustomerId> {
    var found := if claims.subject != "" then FindBySub(db.customers, claims.subject) else None;
    if found.None? then LinkCustomerSql(db, claims.email, SubOf(claims))
    else if db.customers[found.value].email == claims.email || claims.email == "" then (db, Ok(found.value))
    else UpdateEmailSql(db, found.value, claims.email)
  }

  /** The statements agree with the table-level account of Link, whose refusals `LinkFailsIff` characterises. */
  lemma LinkPassIsLinkAlone(db: Db, claims: Claims)
    requires Unique(db.customers)
    ensures var pass, alone := LinkPass(db, claims), LinkAlone(db.customers, db.nextCustomer, claims);
      pass.0.customers == (if alone.Row? then alone.customers else db.customers) &&
      pass.1 == (if alone.Row? then Ok(alone.id) else Err(UniqueViolated))
    ensures LinkPass(db, claims).1.Err? ==> LinkPass(db, claims).0 == db
  {
    LinkFailsIff(db.customers, db.nextCustomer, claims);
  }

  /**
   * What a whole Link comes to with nobody else writing. Repeating a refused pass cannot change its
   * answer, and inside a transaction the second pass runs into the aborted transaction instead.
   */
  ghost function LinkSpec(db: Db, claims: Claims, inTx: bool): Ran<CustomerId> {
    var pass := LinkPass(db, claims);
    if inTx && pass.1.Err? then (db, Err(Aborted)) else pass
  }

  method LinkOnce(store: Store, claims: Claims) returns (r: Result<CustomerId>)
    requires Unique(store.t.customers)
    modifies store
    ensures store.now == old(store.now)
    ensures Asked(old(store.State()), store.State(), LinkPass(old(store.t), claims), r, store.reliable)
  {
    if claims.subject != "" {
      var existing := store.FindCustomerBySub(claims.subject);
      if existing.Ok? {
        if store.t.customers[existing.value].email == claims.email || claims.email == "" {
          return existing;
        }
        r := store.UpdateCustomerEmail(existing.value, claims.email);
        return;
      } else if existing.error != NoRows {
        return existing;
      }
    }
    r := store.LinkCustomer(claims.email, SubOf(claims));
  }

  method Link(store: Store, claims: Claims) returns (r: Result<CustomerId>)
    requires Unique(store.t.customers)
    modifies store
    ensures store.now == old(store.now)
    ensures Asked(old(store.State()), store.State(), LinkSpec(old(store.t), claims, old(store.open)), r, store.reliable)
  {
    LinkPassIsLinkAlone(store.t, claims);
    r := Err(UniqueViolated);
    for attempt := 0 to LINK_ATTEMPTS
      invariant store.now == old(store.now) && store.t == old(store.t)
      invariant store.open == old(store.open) && store.saved == old(store.saved)
      invariant attempt == 0 ==> store.State() == old(store.State())
      invariant attempt > 0 ==> r == Err(UniqueViolated) && LinkPass(store.t, claims).1 == r && !(old(store.aborted) && old(store.open))
      invariant attempt > 0 ==> store.aborted == store.open
      invariant attempt > 1 ==> !store.open
    {
      r := LinkOnce(store, claims);
      if r.Ok? || r.error != UniqueViolated {
        return;
      }
    }
  }

  /** DirectResolver, or CachedResolver when `cached`: the memo outlives every transaction. */
  class Resolver {
    const cached: bool
    var ids: map<string, CustomerId>

    constructor (cached: bool)
      ensures this.cached == cached && ids == map[]
    {
      this.cached, this.ids := cached, map[];
    }

    predicate Remembers(claims: Claims)
      reads this
    {
      cached && claims.subject != "" && claims.subject in ids
    }

    /** A remembered caller costs no statement; a stored answer is whatever Link said, committed or not. */
    method Resolve(store: Store, claims: Claims) returns (r: Result<CustomerId>)
      requires Unique(store.t.customers) && !store.aborted
      modifies this, store
      ensures store.now == old(store.now)
      ensures Asked(old(store.State()), store.State(), ResolveSpec(old(Remembers(claims)), old(ids), old(store.t), claims, old(store.open)), r, store.reliable)
      ensures ids == Learned(cached, old(ids), claims, r)
    {
      if !cached || claims.subject == "" {
        r := Link(store, claims);
        return;
      }
      if claims.subject in ids {
        return Ok(ids[claims.subject]);
      }
      r := Link(store, claims);
      if r.Ok? {
        ids := ids[claims.subject := r.value];
      }
    }
  }

  /** The memo after a resolution: only a successful one of a caller with a subject is stored. */
  function Learned(cached: bool, ids: map<string, CustomerId>, claims: Claims, r: Result<CustomerId>): map<string, CustomerId> {
    if cached && claims.subject != "" && r.Ok? then ids[claims.subject := r.value] else ids
  }

  ghost function ResolveSpec(hit: bool, ids: map<string, CustomerId>, db: Db, claims: Claims, inTx: bool): Ran<CustomerId> {
    if hit && claims.subject in ids then (db, Ok(ids[claims.subject])) else LinkSpec(db, claims, inTx)
  }

  lemma LinkAloneKeeps(cs: CustomerTable, drawn: CustomerId, claims: Claims)
    requires Unique(cs) && drawn !in cs && LinkAlone(cs, drawn, claims).Row?
    ensures var linked := LinkAlone(cs, drawn, claims);
      Unique(linked.customers) && linked.id in linked.customers &&
      cs.Keys <= linked.customers.Keys <= cs.Keys + {drawn}
  {
    var found := if claims.subject != "" then FindBySub(cs, claims.subject) else None;
    if found.None? {
      UpsertKeeps(cs, drawn, claims.email, SubOf(claims));
    } else if cs[found.value].email != claims.email && claims.email != "" {
      UpdateEmailKeeps(cs, found.value, claims.email);
    }
  }

  /** Whatever was linked, the tables stay consistent and every order keeps its owner. */
  lemma {:induction false} ResolveKeeps(hit: bool, ids: map<string, CustomerId>, db: Db, claims: Claims, inTx: bool)
    requires Consistent(db)
    ensures var ran := ResolveSpec(hit, ids, db, claims, inTx);
      Consistent(ran.0) && ran.0.shop == db.shop && ran.0.nextOrder == db.nextOrder && db.nextCustomer <= ran.0.nextCustomer &&
      db.customers.Keys <= ran.0.customers.Keys && (ran.1.Err? ==> ran.0 == db) &&
      (ran.1.Ok? && !hit ==> ran.1.value in ran.0.customers)
  {
    hide LinkAlone;
    LinkPassIsLinkAlone(db, claims);
    if LinkAlone(db.customers, db.nextCustomer, claims).Row? {
      LinkAloneKeeps(db.customers, db.nextCustomer, claims);
      DrawnOnlyWhenUsed(db, claims);
    }
  }

  /** What the customers table keeps by itself, whatever the orders: unique rows, and a sequence past all of them. */
  ghost predicate CustomersOk(db: Db) {
    Unique(db.customers) && forall c :: c in db.customers ==> c < db.nextCustomer
  }

  lemma DrawnOnlyWhenUsed(db: Db, claims: Claims)
    requires CustomersOk(db)
    ensures var pass := LinkPass(db, claims).0;
      pass.shop == db.shop && pass.nextOrder == db.nextOrder && db.nextCustomer <= pass.nextCustomer &&
      (db.nextCustomer in pass.customers ==> db.nextCustomer < pass.nextCustomer)
  {
  }

  // ---- Ids that never get a row -----------------------------------------------------------

  /** The sequence has passed the id without leaving a row, as a rollback leaves it. */
  predicate Skipped(db: Db, id: CustomerId) {
    id < db.nextCustomer && id !in db.customers
  }

  lemma LinkKeepsSkipped(db: Db, claims: Claims, inTx: bool, id: CustomerId)
    requires CustomersOk(db) && Skipped(db, id)
    ensures CustomersOk(LinkSpec(db, claims, inTx).0) && Skipped(LinkSpec(db, claims, inTx).0, id)
    ensures db.nextCustomer <= LinkSpec(db, claims, inTx).0.nextCustomer
  {
    hide LinkAlone, LinkPass, Unique;
    LinkPassIsLinkAlone(db, claims);
    DrawnOnlyWhenUsed(db, claims);
    if LinkAlone(db.customers, db.nextCustomer, claims).Row? {
      LinkAloneKeeps(db.customers, db.nextCustomer, claims);
    }
  }

  /**
   * One thing a connection does: link a caller, begin, roll back, commit, or anything at all to the
   * products, the stock and the orders, placements and sweeps included.
   */
  datatype Move = LinkCaller(claims: Claims) | Trade(shop: Shop, nextOrder: OrderId) | Open | Undo | Close

  /** The tables as the connection sees them, and those its open transaction would go back to. */
  datatype Line = Line(db: Db, saved: Option<Db>)

  ghost function Moved(x: Line, m: Move): Line {
    match m
    case LinkCaller(claims) => x.(db := LinkSpec(x.db, claims, x.saved.Some?).0)
    case Trade(shop, nextOrder) => x.(db := x.db.(shop := shop, nextOrder := nextOrder))
    case Open => if x.saved.None? then x.(saved := Some(x.db)) else x
    case Undo => if x.saved.Some? then Line(Restored(x.saved.value, x.db), None) else x
    case Close => x.(saved := None)
  }

  ghost function Follow(x: Line, moves: seq<Move>): Line {
    if moves == [] then x else Moved(Follow(x, moves[..|moves|-1]), moves[|moves|-1])
  }

  ghost predicate LineSkips(x: Line, id: CustomerId) {
    CustomersOk(x.db) && Skipped(x.db, id) &&
    (x.saved.Some? ==>
      Unique(x.saved.value.customers) && id !in x.saved.value.customers &&
      forall c :: c in x.saved.value.customers ==> c < x.db.nextCustomer)
  }

  lemma MovedSkips(x: Line, m: Move, id: CustomerId)
    requires LineSkips(x, id)
    ensures LineSkips(Moved(x, m), id)
  {
    hide LinkSpec, Unique;
    if m.LinkCaller? {
      LinkKeepsSkipped(x.db, m.claims, x.saved.Some?, id);
    }
  }

  /** An id that was skipped once never gets a row, through any sequence of links, trades, rollbacks and commits. */
  lemma {:induction false} SkippedForever(x: Line, moves: seq<Move>, id: CustomerId)
    requires LineSkips(x, id)
    ensures Skipped(Follow(x, moves).db, id) && LineSkips(Follow(x, moves), id)
  {
    hide Moved;
    if moves != [] {
      SkippedForever(x, moves[..|moves|-1], id);
      MovedSkips(Follow(x, moves[..|moves|-1]), moves[|moves|-1], id);
    }
  }
}
