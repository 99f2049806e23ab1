/**
 * The stripe_events inbox with any number of workers: claim, apply, record, and a crash at any point
 * between them. A worker keeps the row lock of its event while the order changes in a transaction of
 * its own, which may land although it reports an error.
 */
module Inbox {
  import opened Tables
  import opened Lifecycle
  import opened Store
  import opened Outcomes
  import opened OrderService
  import opened Events

  type EventId = string

  /** What paymentIntentID makes of a stored payload. */
  datatype Payload = IntentObject(id: IntentId) | Malformed

  datatype Event = Event(kind: string, payload: Payload)

  datatype Disposition = Clean | Terminal | Transient

  datatype Reason = NeedsReconciling | WillRetry

  datatype Row = Row(event: Event, received: Time, attempts: nat, processed: bool, lastError: Option<Reason>)

  type EventTable = map<EventId, Row>

  // ---- Applying one event -----------------------------------------------------------------

  /** The switch of processNext: nil, an answer no retry can change, anything else. */
  function DispositionOf(out: Outcome<()>): Disposition {
    match out
    case Success(_) => Clean
    case PaidButNotFulfillable(_) => Terminal
    case DatabaseError(error) => if error == NoRows then Terminal else Transient
    case _ => Transient
  }

  ghost function ApplySpec(s: Shop, event: Event): (Shop, Disposition) {
    var action := ActionFor(event.kind);
    if action == Ignore then (s, Clean)
    else if event.payload == Malformed then (s, Transient)
    else
      var ran := if action == Fulfill then FulfillSpec(s, event.payload.id) else FailSpec(s, event.payload.id);
      (ran.0, DispositionOf(ran.1))
  }

  /** The lifecycle action an event amounts to, none if it changes nothing. */
  ghost function ApplyEffect(s: Shop, event: Event): seq<Action> {
    var action := ActionFor(event.kind);
    if action == Ignore || event.payload == Malformed then []
    else
      var found := FindByIntent(s.orders, event.payload.id);
      if found.None? || s.orders[found.value].status != AwaitingPayment then []
      else [End(found.value, if action == Fulfill then Completed else Failed)]
  }

  lemma ApplyIsItsEffect(s: Shop, event: Event)
    ensures ApplySpec(s, event).0 == Run(s, ApplyEffect(s, event)) && Legal(s, ApplyEffect(s, event))
  {
    var effect := ApplyEffect(s, event);
    if effect != [] {
      assert Enabled(s, effect[0]) && effect[..0] == [];
    }
  }

  predicate Pays(event: Event) {
    ActionFor(event.kind) == Fulfill
  }

  /** The order behind the intent is completed. */
  ghost predicate Paid(s: Shop, intent: IntentId) {
    exists o :: o in s.orders && s.orders[o].intent == Some(intent) && s.orders[o].status == Completed
  }

  lemma CleanMeansPaid(s: Shop, event: Event)
    requires Inv(s) && Pays(event) && ApplySpec(s, event).1 == Clean
    ensures event.payload.IntentObject? && Paid(ApplySpec(s, event).0, event.payload.id)
  {
    var found := FindByIntent(s.orders, event.payload.id);
    assert RowFits(s, found.value);
    assert found.value in ApplySpec(s, event).0.orders;
  }

  lemma PaidStays(s: Shop, actions: seq<Action>, intent: IntentId)
    requires Inv(s) && Paid(s, intent)
    ensures Paid(Run(s, actions), intent)
  {
    RunEvolves(s, actions);
    var o :| o in s.orders && s.orders[o].intent == Some(intent) && s.orders[o].status == Completed;
    assert RowEvolves(s.orders[o], Run(s, actions).orders[o]);
  }

  // ---- The first event decides ------------------------------------------------------------

  /** The order behind the intent has ended. */
  ghost predicate Decided(s: Shop, intent: IntentId) {
    var found := FindByIntent(s.orders, intent);
    found.Some? && s.orders[found.value].status !in LIVE
  }

  predicate Handled(event: Event, intent: IntentId) {
    ActionFor(event.kind) != Ignore && event.payload == IntentObject(intent)
  }

  lemma DecidedStays(s: Shop, actions: seq<Action>, intent: IntentId)
    requires Inv(s) && Decided(s, intent)
    ensures Decided(Run(s, actions), intent)
  {
    var t, o := Run(s, actions), FindByIntent(s.orders, intent).value;
    RunEvolves(s, actions);
    RunKeepsInv(s, actions);
    assert RowEvolves(s.orders[o], t.orders[o]);
    assert SameIntent(t.orders, o, FindByIntent(t.orders, intent).value);
  }

  lemma AppliedIsDecided(s: Shop, event: Event, intent: IntentId)
    requires Inv(s) && Handled(event, intent) && FindByIntent(s.orders, intent).Some?
    ensures Decided(ApplySpec(s, event).0, intent)
  {
    var t, o := ApplySpec(s, event).0, FindByIntent(s.orders, intent).value;
    assert RowFits(s, o);
    ApplyIsItsEffect(s, event);
    RunKeepsInv(s, ApplyEffect(s, event));
    assert o in t.orders && t.orders[o].intent == Some(intent);
    assert SameIntent(t.orders, o, FindByIntent(t.orders, intent).value);
  }

  /**
   * Once an event was applied to an attached intent, no later event for it changes any order or any
   * stock row: not a duplicate, not a contradiction, and whatever everybody else did in between.
   */
  lemma FirstEventDecides(s: Shop, first: Event, between: seq<Action>, later: Event, intent: IntentId)
    requires Inv(s) && Handled(first, intent) && Handled(later, intent) && FindByIntent(s.orders, intent).Some?
    ensures var t := Run(ApplySpec(s, first).0, between);
      ApplySpec(t, later).0 == t
  {
    AppliedIsDecided(s, first, intent);
    ApplyIsItsEffect(s, first);
    RunKeepsInv(s, ApplyEffect(s, first));
    DecidedStays(ApplySpec(s, first).0, between, intent);
  }

  // ---- Deliveries among everything else ---------------------------------------------------

  /** An event delivered and applied, or one action of somebody else. */
  datatype Turn = Deliver(event: Event) | Meanwhile(a: Action)

  ghost function Step(s: Shop, turn: Turn): Shop {
    match turn
    case Deliver(event) => ApplySpec(s, event).0
    case Meanwhile(a) => Do(s, a)
  }

  ghost function Play(s: Shop, turns: seq<Turn>): Shop {
    if turns == [] then s else Step(Play(s, turns[..|turns|-1]), turns[|turns|-1])
  }

  /** Turn `i` delivers a handled event and finds its intent attached to an order. */
  ghost predicate Reaches(s: Shop, turns: seq<Turn>, i: nat, intent: IntentId)
    requires i < |turns|
  {
    turns[i].Deliver? && Handled(turns[i].event, intent) && FindByIntent(Play(s, turns[..i]).orders, intent).Some?
  }

  /** The first delivery to reach the order of its intent. */
  ghost predicate IsFirst(s: Shop, turns: seq<Turn>, i: nat)
    requires i < |turns| && turns[i].Deliver?
  {
    turns[i].event.payload.IntentObject? &&
    var intent := turns[i].event.payload.id;
    Reaches(s, turns, i, intent) && forall j :: 0 <= j < i ==> !Reaches(s, turns, j, intent)
  }

  /** Everybody else's actions, and of the deliveries only the first to reach each order. */
  ghost function Firsts(s: Shop, turns: seq<Turn>): seq<Turn> {
    if turns == [] then []
    else
      var rest, last := Firsts(s, turns[..|turns|-1]), turns[|turns|-1];
      if last.Deliver? && !IsFirst(s, turns, |turns| - 1) then rest else rest + [last]
  }

  lemma StepIsRun(s: Shop, turn: Turn) returns (effect: seq<Action>)
    ensures Step(s, turn) == Run(s, effect)
  {
    if turn.Deliver? {
      effect := ApplyEffect(s, turn.event);
      ApplyIsItsEffect(s, turn.event);
    } else {
      effect := [turn.a];
      assert effect[..0] == [];
    }
  }

  lemma {:induction false} PlayKeepsInv(s: Shop, turns: seq<Turn>)
    requires Inv(s)
    ensures Inv(Play(s, turns))
  {
    if turns != [] {
      var mid := Play(s, turns[..|turns|-1]);
      PlayKeepsInv(s, turns[..|turns|-1]);
      var effect := StepIsRun(mid, turns[|turns|-1]);
      RunKeepsInv(mid, effect);
    }
  }

  lemma ReachesInPrefix(s: Shop, turns: seq<Turn>, j: nat, intent: IntentId)
    requires j < |turns| - 1
    ensures Reaches(s, turns, j, intent) <==> Reaches(s, turns[..|turns|-1], j, intent)
  {
    assert turns[..|turns|-1][..j] == turns[..j];
  }

  /** Once a delivery has reached an order, the order has ended and stays so. */
  lemma {:induction false} ReachedIsDecided(s: Shop, turns: seq<Turn>, j: nat, intent: IntentId)
    requires Inv(s) && j < |turns| && Reaches(s, turns, j, intent)
    ensures Decided(Play(s, turns), intent)
  {
    hide Inv, Decided, Handled, ApplySpec;
    var rest, last := turns[..|turns|-1], turns[|turns|-1];
    var mid := Play(s, rest);
    PlayKeepsInv(s, rest);
    if j == |turns| - 1 {
      AppliedIsDecided(mid, last.event, intent);
    } else {
      ReachesInPrefix(s, turns, j, intent);
      ReachedIsDecided(s, rest, j, intent);
      var effect := StepIsRun(mid, last);
      DecidedStays(mid, effect, intent);
    }
  }

  /** An event without an attached intent, or whose order has ended, has no effect. */
  lemma NothingToApply(s: Shop, event: Event)
    requires event.payload.IntentObject? && Handled(event, event.payload.id) && FindByIntent(s.orders, event.payload.id).Some? ==> Decided(s, event.payload.id)
    ensures ApplySpec(s, event).0 == s
  {
  }

  /** A delivery that is not the first to reach its order changes nothing. */
  lemma LaterDeliveryIsInvisible(s: Shop, turns: seq<Turn>)
    requires Inv(s) && turns != [] && turns[|turns|-1].Deliver? && !IsFirst(s, turns, |turns| - 1)
    ensures Play(s, turns) == Play(s, turns[..|turns|-1])
  {
    hide Inv, ApplySpec, Decided, Handled;
    var rest, event := turns[..|turns|-1], turns[|turns|-1].event;
    if event.payload.IntentObject? && Reaches(s, turns, |turns| - 1, event.payload.id) {
      var j :| 0 <= j < |turns| - 1 && Reaches(s, turns, j, event.payload.id);
      ReachesInPrefix(s, turns, j, event.payload.id);
      ReachedIsDecided(s, rest, j, event.payload.id);
    }
    NothingToApply(Play(s, rest), event);
  }

  /**
   * At-least-once delivery has exactly-once effect: deliveries in any number and order, interleaved with
   * anything else that happens to the shop, do what the first delivery to reach each order does.
   */
  lemma {:induction false} RedeliveryIsInvisible(s: Shop, turns: seq<Turn>)
    requires Inv(s)
    ensures Play(s, turns) == Play(s, Firsts(s, turns))
  {
    hide Inv, Step, IsFirst;
    if turns != [] {
      var rest, last := turns[..|turns|-1], turns[|turns|-1];
      RedeliveryIsInvisible(s, rest);
      if last.Deliver? && !IsFirst(s, turns, |turns| - 1) {
        LaterDeliveryIsInvisible(s, turns);
      } else {
        var all := Firsts(s, rest) + [last];
        assert all[..|all|-1] == Firsts(s, rest);
      }
    }
  }

  /** What is kept did reach its order. */
  lemma {:induction false} KeptReaches(s: Shop, turns: seq<Turn>, turn: Turn, intent: IntentId)
    requires turn in Firsts(s, turns) && turn.Deliver? && Handled(turn.event, intent)
    ensures exists j :: 0 <= j < |turns| && Reaches(s, turns, j, intent)
  {
    var rest := turns[..|turns|-1];
    if turn in Firsts(s, rest) {
      KeptReaches(s, rest, turn, intent);
      var j :| 0 <= j < |rest| && Reaches(s, rest, j, intent);
      ReachesInPrefix(s, turns, j, intent);
    } else {
      assert Reaches(s, turns, |turns| - 1, intent);
    }
  }

  /** Of the deliveries that are kept no two are for the same intent. */
  lemma {:induction false} FirstsAreDistinct(s: Shop, turns: seq<Turn>, i: nat, j: nat, intent: IntentId)
    requires i < j < |Firsts(s, turns)| && Firsts(s, turns)[i].Deliver? && Handled(Firsts(s, turns)[i].event, intent)
    ensures !(Firsts(s, turns)[j].Deliver? && Handled(Firsts(s, turns)[j].event, intent))
  {
    var rest := turns[..|turns|-1];
    if j < |Firsts(s, rest)| {
      FirstsAreDistinct(s, rest, i, j, intent);
    } else {
      KeptReaches(s, rest, Firsts(s, rest)[i], intent);
      var k :| 0 <= k < |rest| && Reaches(s, rest, k, intent);
      ReachesInPrefix(s, turns, k, intent);
    }
  }
}
