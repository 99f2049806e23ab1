/** The answers of the order service, and what an answer over an unreliable connection is worth. */
module Outcomes {
  import opened Tables
  import opened Store

  datatype Outcome<+T> =
    | Success(value: T)
    | OutOfStock
    | OrderNotPending
    | Forbidden
    | PaidButNotFulfillable(status: Status)
    | GatewayFailed
    | DatabaseError(error: DbError)

  /** The specified answer and effect; or a lost connection, with the effect complete or absent. */
  ghost predicate Served<T>(before: Db, after: Db, spec: (Shop, Outcome<T>), out: Outcome<T>, reliable: bool) {
    (out == spec.1 && after.shop == spec.0) ||
    (out == DatabaseError(Lost) && !reliable && (after.shop == before.shop || after.shop == spec.0))
  }

  /** A transaction body on its way out: committed, or left open for the deferred rollback to undo. */
  ghost predicate Attempted<T>(before: Db, c: Conn, spec: (Shop, Outcome<T>), out: Outcome<T>, reliable: bool) {
    if c.open then
      c.saved == before && before.nextOrder <= c.t.nextOrder && before.nextCustomer <= c.t.nextCustomer &&
      ((out == spec.1 && spec.0 == before.shop) || (out == DatabaseError(Lost) && !reliable))
    else
      !c.aborted && Consistent(c.t) && Served(before, c.t, spec, out, reliable)
  }

  lemma RestoredIsConsistent(saved: Db, t: Db)
    requires Consistent(saved) && saved.nextOrder <= t.nextOrder && saved.nextCustomer <= t.nextCustomer
    ensures Consistent(Restored(saved, t))
  {
  }

  lemma RolledBack<T>(before: Db, c: Conn, spec: (Shop, Outcome<T>), out: Outcome<T>, reliable: bool)
    requires Consistent(before) && Attempted(before, c, spec, out, reliable)
    ensures var after := if c.open then Restored(c.saved, c.t) else c.t;
      Consistent(after) && Served(before, after, spec, out, reliable)
  {
  }
}
