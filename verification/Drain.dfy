/** One inbox worker over one connection: processNext, and the drain that calls it until nothing is left. */
module Drain {
  import opened Tables
  import opened Lifecycle
  import opened Store
  import opened OrderService
  import opened Events
  import opened Inbox
  import opened Workers

  /** The row ClaimNextStripeEvent returns: nothing eligible was received before it. */
  predicate Earliest(events: EventTable, max: int, e: EventId) {
    e in events && Eligible(Config(max), events[e]) &&
    forall e' :: e' in events && Eligible(Config(max), events[e']) ==> events[e].received <= events[e'].received
  }

  lemma EarliestReceivedExists(events: EventTable, rest: set<EventId>)
    requires rest != {} && rest <= events.Keys
    ensures exists e :: e in rest && forall e' :: e' in rest ==> events[e].received <= events[e'].received
  {
    var times := map e | e in rest :: events[e].received;
    assert times.Keys == rest;
    LeastExists(times);
    var e :| e in times && forall e' :: e' in times ==> times[e] <= times[e'];
    assert forall e' :: e' in rest ==> times[e] <= times[e'];
  }

  // ---- Why the drain ends -----------------------------------------------------------------

  /** The attempts a row still has. */
  function Left(row: Row, max: int): nat {
    if !row.processed && row.attempts < max then max - row.attempts else 0
  }

  /** The sum of maxAttempts - attempts over the unprocessed events. */
  ghost function Remaining(events: EventTable, max: int): nat
    decreases |events|
  {
    if events == map[] then 0
    else
      var e :| e in events;
      assert (events - {e}).Keys == events.Keys - {e};
      Left(events[e], max) + Remaining(events - {e}, max)
  }

  /** One element per attempt still allowed. */
  function Budget(events: EventTable, max: int): set<(EventId, int)> {
    set e, k | e in events && !events[e].processed && events[e].attempts <= k < max :: (e, k)
  }

  function Attempts(e: EventId, lo: int, hi: int): set<(EventId, int)> {
    set k | lo <= k < hi :: (e, k)
  }

  lemma {:induction false} CountAttempts(e: EventId, lo: int, hi: int)
    ensures |Attempts(e, lo, hi)| == if lo < hi then hi - lo else 0
    decreases hi - lo
  {
    if lo < hi {
      CountAttempts(e, lo, hi - 1);
      assert Attempts(e, lo, hi) == Attempts(e, lo, hi - 1) + {(e, hi - 1)};
    } else {
      assert Attempts(e, lo, hi) == {};
    }
  }

  lemma DisjointSizes<T>(first: set<T>, second: set<T>)
    requires first !! second
    ensures |first + second| == |first| + |second|
  {
  }

  lemma BudgetSplits(events: EventTable, max: int, e: EventId)
    requires e in events
    ensures |Budget(events, max)| == |Budget(events - {e}, max)| + Left(events[e], max)
  {
    var rest, own := Budget(events - {e}, max), if events[e].processed then {} else Attempts(e, events[e].attempts, max);
    assert forall q, k :: (q, k) in rest ==> q != e;
    assert rest !! own;
    DisjointSizes(rest, own);
    CountAttempts(e, events[e].attempts, max);
    assert Budget(events, max) == rest + own;
  }

  /** The set has as many elements as the sum says. */
  lemma {:induction false} BudgetIsRemaining(events: EventTable, max: int)
    ensures |Budget(events, max)| == Remaining(events, max)
    decreases |events|
  {
    if events == map[] {
      assert Budget(events, max) == {};
    } else {
      hide Budget, Left;
      var e :| e in events && Remaining(events, max) == Left(events[e], max) + Remaining(events - {e}, max);
      assert (events - {e}).Keys == events.Keys - {e};
      BudgetIsRemaining(events - {e}, max);
      BudgetSplits(events, max, e);
    }
  }

  lemma SmallerSubset<T>(small: set<T>, big: set<T>, x: T)
    requires small <= big && x in big && x !in small
    ensures |small| < |big|
  {
    assert |big| == |small| + |big - small| by { assert big == small + (big - small); }
    assert x in big - small;
  }

  lemma AttemptsAreSpent(events: EventTable, max: int, e: EventId, d: Disposition)
    requires e in events && Eligible(Config(max), events[e])
    ensures Remaining(events[e := Marked(events[e], d)], max) < Remaining(events, max)
  {
    hide Remaining;
    var after := events[e := Marked(events[e], d)];
    BudgetIsRemaining(events, max);
    BudgetIsRemaining(after, max);
    SmallerSubset(Budget(after, max), Budget(events, max), (e, events[e].attempts as int));
  }

  // ---- The worker -------------------------------------------------------------------------

  /** The specified effect and verdict; or a transient error behind which the effect is complete or absent. */
  ghost predicate Applied(before: Shop, after: Shop, event: Event, d: Disposition, reliable: bool) {
    var spec := ApplySpec(before, event);
    (after == spec.0 && d == spec.1) || (d == Transient && !reliable && (after == before || after == spec.0))
  }

  /** A row is untouched or was still open; if it is now recorded without an error, its payment is honoured. */
  ghost predicate RowSettles(before: Row, after: Row, s: Shop) {
    after.event == before.event && after.received == before.received &&
    (after == before || (!before.processed && (after.processed && after.lastError == None ==> Honest(s, after.event, Clean))))
  }

  ghost predicate Settles(before: EventTable, after: EventTable, s: Shop) {
    before.Keys == after.Keys && forall e {:trigger after[e]} :: e in after ==> RowSettles(before[e], after[e], s)
  }

  /** However the call of the order service went, the shop took at most the event's own step. */
  lemma AppliedIsRun(s: Shop, t: Shop, event: Event, d: Disposition, reliable: bool) returns (effect: seq<Action>)
    requires Inv(s) && Applied(s, t, event, d, reliable)
    ensures t == Run(s, effect) && Evolves(s, t) && Honest(t, event, d)
  {
    hide Honest;
    ApplyIsItsEffect(s, event);
    ApplyIsHonest(s, event);
    effect := if t == ApplySpec(s, event).0 then ApplyEffect(s, event) else [];
    RunEvolves(s, effect);
    assert Honest(t, event, Transient) by { TransientIsHonest(t, event); }
  }

  lemma TransientIsHonest(s: Shop, event: Event)
    ensures Honest(s, event, Transient)
  {
  }

  lemma SettlesStays(before: EventTable, mid: EventTable, s: Shop, effect: seq<Action>)
    requires Inv(s) && Settles(before, mid, s)
    ensures Settles(before, mid, Run(s, effect))
  {
    hide Honest, Inv;
    forall q | q in mid
      ensures RowSettles(before[q], mid[q], Run(s, effect))
    {
      if Honest(s, mid[q].event, Clean) {
        HonestStays(s, effect, mid[q].event, Clean);
      }
    }
  }

  lemma SettlesMarked(before: EventTable, mid: EventTable, t: Shop, e: EventId, d: Disposition)
    requires Settles(before, mid, t) && e in mid && !mid[e].processed && Honest(t, mid[e].event, d)
    ensures Settles(before, mid[e := Marked(mid[e], d)], t)
  {
    hide Honest;
    assert RowSettles(before[e], mid[e], t);
    assert RowSettles(before[e], Marked(mid[e], d), t);
  }

  lemma SettlesOne(before: EventTable, mid: EventTable, s: Shop, t: Shop, e: EventId, d: Disposition, reliable: bool)
    requires Inv(s) && Settles(before, mid, s) && e in mid && !mid[e].processed && Applied(s, t, mid[e].event, d, reliable)
    ensures Settles(before, mid[e := Marked(mid[e], d)], t) && Settles(before, mid, t) && Evolves(s, t)
  {
    hide Honest, Settles, Applied, Inv;
    var effect := AppliedIsRun(s, t, mid[e].event, d, reliable);
    SettlesStays(before, mid, s, effect);
    SettlesMarked(before, mid, t, e, d);
  }

  // ---- Events that can only fail ----------------------------------------------------------

  /** A routed event whose payload yields no intent: every attempt at it is a transient failure. */
  predicate Hopeless(event: Event) {
    ActionFor(event.kind) != Ignore && event.payload == Malformed
  }

  /** Attempts only grow, not beyond the cap, and a hopeless event is never recorded as processed. */
  predicate Tried(before: EventTable, after: EventTable, max: int) {
    before.Keys == after.Keys &&
    forall e :: e in after ==>
      before[e].attempts <= after[e].attempts && (after[e].attempts <= max || after[e] == before[e]) &&
      after[e].event == before[e].event &&
      (Hopeless(before[e].event) && !before[e].processed ==> !after[e].processed)
  }

  lemma TriedOnce(before: EventTable, mid: EventTable, max: int, e: EventId, s: Shop, t: Shop, d: Disposition, reliable: bool)
    requires Tried(before, mid, max) && e in mid && Eligible(Config(max), mid[e]) && Applied(s, t, mid[e].event, d, reliable)
    ensures Tried(before, mid[e := Marked(mid[e], d)], max)
  {
    if Hopeless(mid[e].event) {
      assert ApplySpec(s, mid[e].event) == (s, Transient);
    }
  }

  class Worker {
    const service: Service
    const maxAttempts: int
    var events: EventTable

    constructor (service: Service, maxAttempts: int, events: EventTable)
      ensures this.service == service && this.maxAttempts == maxAttempts && this.events == events
    {
      this.service, this.maxAttempts, this.events := service, maxAttempts, events;
    }

    /** Routes one event to the order service. */
    method Apply(event: Event) returns (d: Disposition)
      requires service.store.Ready()
      modifies service.store
      ensures service.store.Ready()
      ensures Applied(old(service.store.t).shop, service.store.t.shop, event, d, service.store.reliable)
    {
      var action := ActionFor(event.kind);
      if action == Ignore {
        return Clean;
      }
      if event.payload == Malformed {
        return Transient;
      }
      var out;
      if action == Fulfill {
        out := service.FulfillPayment(event.payload.id);
      } else {
        out := service.FailPayment(event.payload.id);
      }
      d := DispositionOf(out);
    }

    method ClaimNext() returns (claimed: Option<EventId>)
      ensures claimed.Some? ==> Earliest(events, maxAttempts, claimed.value)
      ensures claimed.None? ==> forall e :: e in events ==> !Eligible(Config(maxAttempts), events[e])
    {
      var rest := set e | e in events && Eligible(Config(maxAttempts), events[e]);
      if rest == {} {
        assert forall e :: e in events && Eligible(Config(maxAttempts), events[e]) ==> e in rest;
        return None;
      }
      EarliestReceivedExists(events, rest);
      var e :| e in rest && forall e' :: e' in rest ==> events[e].received <= events[e'].received;
      return Some(e);
    }

    /**
     * One event per transaction. `recorded` tells whether its row was marked; an error may hide a
     * commit that landed, and it never hides the choice of the event.
     */
    method ProcessNext() returns (progress: bool, failed: bool, ghost e: EventId, ghost d: Disposition, ghost recorded: bool)
      requires service.store.Ready()
      modifies this`events, service.store
      ensures service.store.Ready()
      ensures failed ==> !progress && !service.store.reliable
      ensures !failed ==> (progress <==> recorded)
      ensures !recorded ==> events == old(events)
      ensures recorded ==> Earliest(old(events), maxAttempts, e) && events == old(events)[e := Marked(old(events)[e], d)]
      ensures recorded ==> Applied(old(service.store.t).shop, service.store.t.shop, old(events)[e].event, d, service.store.reliable)
      ensures !recorded && !failed ==> service.store.t == old(service.store.t) && forall q :: q in events ==> !Eligible(Config(maxAttempts), events[q])
      ensures !recorded && failed ==> service.store.t.shop == old(service.store.t).shop || (e in events && !events[e].processed && Applied(old(service.store.t).shop, service.store.t.shop, events[e].event, d, service.store.reliable))
    {
      progress, failed, e, d, recorded := false, false, "", Transient, false;
      var up := service.store.reliable;
      if !up { up := *; }
      if !up {
        failed := true;
        return;
      }
      var claimed := ClaimNext();
      if claimed.None? {
        return;
      }
      var verdict := Apply(events[claimed.value].event);
      e, d := claimed.value, verdict;
      var marked, answered := service.store.reliable, service.store.reliable;
      if !service.store.reliable { marked := *; answered := *; }
      if marked {
        events, recorded := events[claimed.value := Marked(events[claimed.value], verdict)], true;
      }
      if !marked || !answered {
        failed := true;
        return;
      }
      progress := true;
    }

    /**
     * Until the queue is empty, an error, or a cancelled context. A transient failure is claimed again in
     * the same drain: a clean finish has spent every attempt of a hopeless event, up to the cap exactly.
     * An event is left for the next poll only by a drain that was cut short.
     */
    method DrainAll() returns (clean: bool, cancelled: bool, rounds: nat)
      requires service.store.Ready()
      modifies this`events, service.store
      ensures service.store.Ready()
      ensures clean ==> forall e :: e in events ==> events[e].processed || events[e].attempts >= maxAttempts
      ensures (exists e :: e in events && Eligible(Config(maxAttempts), events[e])) ==> !clean
      ensures Tried(old(events), events, maxAttempts)
      ensures clean ==> forall e :: e in old(events) && Hopeless(old(events)[e].event) && Eligible(Config(maxAttempts), old(events)[e]) ==>
        !events[e].processed && events[e].attempts == maxAttempts
      ensures service.store.reliable && !cancelled ==> clean
      ensures clean ==> !cancelled
      ensures rounds <= Remaining(old(events), maxAttempts)
      ensures Settles(old(events), events, service.store.t.shop)
      ensures Evolves(old(service.store.t).shop, service.store.t.shop)
    {
      hide Applied, Consistent;
      clean, cancelled, rounds := false, false, 0;
      while true
        invariant service.store.Ready() && !clean && !cancelled
        invariant rounds + Remaining(events, maxAttempts) <= Remaining(old(events), maxAttempts)
        invariant Settles(old(events), events, service.store.t.shop) && Tried(old(events), events, maxAttempts)
        invariant Evolves(old(service.store.t).shop, service.store.t.shop)
        decreases Remaining(events, maxAttempts)
      {
        ghost var before, s := events, service.store.t.shop;
        Unpack(service.store.t);
        var progress, failed;
        ghost var e, d, recorded;
        progress, failed, e, d, recorded := ProcessNext();
        if service.store.t.shop != s || recorded {
          SettlesOne(old(events), before, s, service.store.t.shop, e, d, service.store.reliable);
          EvolvesTransitive(old(service.store.t).shop, s, service.store.t.shop);
        }
        if recorded {
          TriedOnce(old(events), before, maxAttempts, e, s, service.store.t.shop, d, service.store.reliable);
        }
        if failed {
          return;
        }
        if !progress {
          clean := true;
          return;
        }
        AttemptsAreSpent(before, maxAttempts, e, d);
        rounds := rounds + 1;
        cancelled := *;
        if cancelled {
          return;
        }
      }
    }
  }
}
