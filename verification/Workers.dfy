/** Every run of the inbox workers, in competition with each other and with everything else that ends orders. */
module Workers {
  import opened Tables
  import opened Lifecycle
  import opened Events
  import opened Inbox

  type WorkerId = nat

  /** A worker's open transaction: it holds the lock of one event from the claim to the end. */
  datatype Hold = Claimed(e: EventId) | Settled(e: EventId, verdict: Disposition)

  datatype State = State(shop: Shop, events: EventTable, holds: map<WorkerId, Hold>)

  datatype Config = Config(maxAttempts: int)

  /** A call of the order service: answered, landed behind an error, or failed without effect. */
  datatype How = Answered | LandedWithError | FailedClean

  datatype Label =
    | Insert(e: EventId, event: Event, received: Time)
    | Claim(w: WorkerId, e: EventId)
    | Apply(w: WorkerId, how: How)
    | Record(w: WorkerId, lands: bool)
    | Crash(w: WorkerId)
    | Others(a: Action)

  predicate Eligible(cfg: Config, row: Row) {
    !row.processed && row.attempts < cfg.maxAttempts
  }

  predicate Locked(s: State, e: EventId) {
    exists w :: w in s.holds && s.holds[w].e == e
  }

  /** The earliest received of the eligible events nobody has locked. */
  predicate Claimable(cfg: Config, s: State, e: EventId) {
    e in s.events && Eligible(cfg, s.events[e]) && !Locked(s, e) &&
    forall e' :: e' in s.events && Eligible(cfg, s.events[e']) && !Locked(s, e') ==> s.events[e].received <= s.events[e'].received
  }

  /** MarkStripeEventProcessed, with or without a reason, or MarkStripeEventFailed. */
  function Marked(row: Row, verdict: Disposition): Row {
    match verdict
    case Clean => row.(processed := true, attempts := row.attempts + 1, lastError := None)
    case Terminal => row.(processed := true, attempts := row.attempts + 1, lastError := Some(NeedsReconciling))
    case Transient => row.(attempts := row.attempts + 1, lastError := Some(WillRetry))
  }

  ghost function AtApply(s: State, w: WorkerId, e: EventId, how: How): State
    requires e in s.events
  {
    var applied := ApplySpec(s.shop, s.events[e].event);
    State(if how == FailedClean then s.shop else applied.0, s.events,
          s.holds[w := Settled(e, if how == Answered then applied.1 else Transient)])
  }

  ghost function Next(cfg: Config, s: State, l: Label): State {
    match l
    case Insert(e, event, received) =>
      if e in s.events then s else s.(events := s.events[e := Row(event, received, 0, false, None)])
    case Claim(w, e) => if w !in s.holds && Claimable(cfg, s, e) then s.(holds := s.holds[w := Claimed(e)]) else s
    case Apply(w, how) =>
      if w in s.holds && s.holds[w].Claimed? && s.holds[w].e in s.events then AtApply(s, w, s.holds[w].e, how) else s
    case Record(w, lands) =>
      if w in s.holds && s.holds[w].Settled? && s.holds[w].e in s.events then
        var e := s.holds[w].e;
        State(s.shop, if lands then s.events[e := Marked(s.events[e], s.holds[w].verdict)] else s.events, s.holds - {w})
      else s
    case Crash(w) => s.(holds := s.holds - {w})
    case Others(a) => s.(shop := Do(s.shop, a))
  }

  ghost function Execute(cfg: Config, s: State, labels: seq<Label>): State {
    if labels == [] then s else Next(cfg, Execute(cfg, s, labels[..|labels|-1]), labels[|labels|-1])
  }

  ghost predicate Start(s: State) {
    Inv(s.shop) && s.events == map[] && s.holds == map[]
  }

  // ---- The lifecycle actions a run amounts to ---------------------------------------------

  ghost function Effect(s: State, l: Label): seq<Action> {
    match l
    case Apply(w, how) =>
      if how != FailedClean && w in s.holds && s.holds[w].Claimed? && s.holds[w].e in s.events then
        ApplyEffect(s.shop, s.events[s.holds[w].e].event)
      else []
    case Others(a) => if Enabled(s.shop, a) then [a] else []
    case _ => []
  }

  ghost function Effects(cfg: Config, s: State, labels: seq<Label>): seq<Action> {
    if labels == [] then []
    else
      var rest := labels[..|labels|-1];
      Effects(cfg, s, rest) + Effect(Execute(cfg, s, rest), labels[|labels|-1])
  }

  lemma NextIsItsEffect(cfg: Config, s: State, l: Label)
    ensures Next(cfg, s, l).shop == Run(s.shop, Effect(s, l)) && Legal(s.shop, Effect(s, l))
  {
    if l.Apply? && l.w in s.holds && s.holds[l.w].e in s.events {
      ApplyIsItsEffect(s.shop, s.events[s.holds[l.w].e].event);
    } else if l.Others? && Enabled(s.shop, l.a) {
      assert [l.a][..0] == [];
    }
  }

  lemma LegalAppends(s: Shop, first: seq<Action>, second: seq<Action>)
    requires Legal(s, first) && Legal(Run(s, first), second)
    ensures Legal(s, first + second) && Run(s, first + second) == Run(Run(s, first), second)
  {
    hide Do, Enabled;
    var all := first + second;
    forall k | 0 <= k < |all|
      ensures Enabled(Run(s, all[..k]), all[k])
    {
      if k < |first| {
        assert all[..k] == first[..k];
      } else {
        RunSplits(s, all[..k], |first|);
        assert all[..k][..|first|] == first && all[..k][|first|..] == second[..k-|first|];
      }
    }
    RunSplits(s, all, |first|);
    assert all[..|first|] == first && all[|first|..] == second;
  }

  /** The orders and the stock go through a legal run of the atomic lifecycle, workers and crashes notwithstanding. */
  lemma {:induction false} OrdersRunLegally(cfg: Config, s: State, labels: seq<Label>)
    ensures Execute(cfg, s, labels).shop == Run(s.shop, Effects(cfg, s, labels))
    ensures Legal(s.shop, Effects(cfg, s, labels))
  {
    if labels != [] {
      var rest := labels[..|labels|-1];
      OrdersRunLegally(cfg, s, rest);
      NextIsItsEffect(cfg, Execute(cfg, s, rest), labels[|labels|-1]);
      LegalAppends(s.shop, Effects(cfg, s, rest), Effect(Execute(cfg, s, rest), labels[|labels|-1]));
    }
  }

  // ---- The invariant ----------------------------------------------------------------------

  /** A paying event on record as processed without an error has its order completed. */
  ghost predicate Honest(s: Shop, event: Event, verdict: Disposition) {
    Pays(event) && verdict == Clean ==> event.payload.IntentObject? && Paid(s, event.payload.id)
  }

  ghost predicate RowOk(cfg: Config, s: State, e: EventId)
    requires e in s.events
  {
    var row := s.events[e];
    (row.processed && row.lastError == None ==> Honest(s.shop, row.event, Clean)) &&
    (!row.processed && row.attempts > 0 ==> row.lastError.Some?) &&
    (row.attempts == 0 || row.attempts <= cfg.maxAttempts)
  }

  ghost predicate HoldOk(cfg: Config, s: State, w: WorkerId)
    requires w in s.holds
  {
    var hold := s.holds[w];
    hold.e in s.events && Eligible(cfg, s.events[hold.e]) &&
    (hold.Settled? ==> Honest(s.shop, s.events[hold.e].event, hold.verdict))
  }

  predicate SameEvent(s: State, w: WorkerId, w': WorkerId)
    requires w in s.holds && w' in s.holds
  {
    s.holds[w].e == s.holds[w'].e
  }

  ghost predicate WorkInv(cfg: Config, s: State) {
    Inv(s.shop) &&
    (forall e {:trigger RowOk(cfg, s, e)} :: e in s.events ==> RowOk(cfg, s, e)) &&
    (forall w {:trigger HoldOk(cfg, s, w)} :: w in s.holds ==> HoldOk(cfg, s, w)) &&
    (forall w, w' {:trigger SameEvent(s, w, w')} :: w in s.holds && w' in s.holds && SameEvent(s, w, w') ==> w == w')
  }

  lemma HonestStays(s: Shop, actions: seq<Action>, event: Event, verdict: Disposition)
    requires Inv(s) && Honest(s, event, verdict)
    ensures Honest(Run(s, actions), event, verdict)
  {
    if Pays(event) && verdict == Clean {
      PaidStays(s, actions, event.payload.id);
    }
  }

  lemma ApplyIsHonest(s: Shop, event: Event)
    requires Inv(s)
    ensures Honest(ApplySpec(s, event).0, event, ApplySpec(s, event).1)
  {
    if Pays(event) && ApplySpec(s, event).1 == Clean {
      CleanMeansPaid(s, event);
    }
  }

  lemma RowKept(cfg: Config, s: State, l: Label, e: EventId)
    requires WorkInv(cfg, s) && e in Next(cfg, s, l).events
    ensures RowOk(cfg, Next(cfg, s, l), e)
  {
    hide ApplySpec, ApplyEffect, Pays;
    NextIsItsEffect(cfg, s, l);
    if e in s.events {
      assert RowOk(cfg, s, e);
      if s.events[e].processed && s.events[e].lastError == None {
        HonestStays(s.shop, Effect(s, l), s.events[e].event, Clean);
      }
    }
    if l.Record? && l.w in s.holds {
      assert HoldOk(cfg, s, l.w);
    }
  }

  lemma HoldKept(cfg: Config, s: State, l: Label, w: WorkerId)
    requires WorkInv(cfg, s) && w in Next(cfg, s, l).holds
    ensures HoldOk(cfg, Next(cfg, s, l), w)
  {
    hide ApplySpec, ApplyEffect, Pays;
    NextIsItsEffect(cfg, s, l);
    if w in s.holds {
      assert HoldOk(cfg, s, w);
      var event := s.events[s.holds[w].e].event;
      if s.holds[w].Settled? {
        HonestStays(s.shop, Effect(s, l), event, s.holds[w].verdict);
      }
      ApplyIsHonest(s.shop, event);
      if l.Record? && l.w in s.holds {
        assert SameEvent(s, w, l.w) ==> w == l.w;
      }
    }
  }

  lemma LocksKept(cfg: Config, s: State, l: Label, w: WorkerId, w': WorkerId)
    requires WorkInv(cfg, s) && w in Next(cfg, s, l).holds && w' in Next(cfg, s, l).holds && SameEvent(Next(cfg, s, l), w, w')
    ensures w == w'
  {
    hide ApplySpec, Inv;
    if w in s.holds && w' in s.holds {
      assert SameEvent(s, w, w') ==> w == w';
    }
  }

  lemma NextKeepsWorkInv(cfg: Config, s: State, l: Label)
    requires WorkInv(cfg, s)
    ensures WorkInv(cfg, Next(cfg, s, l))
  {
    hide Inv, ApplySpec, RowOk, HoldOk, SameEvent, Effect;
    var s' := Next(cfg, s, l);
    NextIsItsEffect(cfg, s, l);
    RunKeepsInv(s.shop, Effect(s, l));
    forall e | e in s'.events ensures RowOk(cfg, s', e) { RowKept(cfg, s, l, e); }
    forall w | w in s'.holds ensures HoldOk(cfg, s', w) { HoldKept(cfg, s, l, w); }
    forall w, w' | w in s'.holds && w' in s'.holds && SameEvent(s', w, w') ensures w == w' { LocksKept(cfg, s, l, w, w'); }
  }

  lemma {:induction false} RunKeepsWorkInv(cfg: Config, s: State, labels: seq<Label>)
    requires Start(s)
    ensures WorkInv(cfg, Execute(cfg, s, labels))
  {
    if labels != [] {
      RunKeepsWorkInv(cfg, s, labels[..|labels|-1]);
      NextKeepsWorkInv(cfg, Execute(cfg, s, labels[..|labels|-1]), labels[|labels|-1]);
    }
  }

  // ---- What it promises -------------------------------------------------------------------

  /**
   * No payment is silently lost: behind every paying event recorded as processed without an error there
   * is a completed order, and if it was not completed before the run then the run sold its unit exactly
   * once, whatever was lost, repeated or died on the way.
   */
  lemma {:induction false} NoPaymentSilentlyLost(cfg: Config, s: State, labels: seq<Label>, e: EventId)
    requires Start(s) && e in Execute(cfg, s, labels).events
    requires var row := Execute(cfg, s, labels).events[e];
      row.processed && row.lastError == None && Pays(row.event)
    ensures var t := Execute(cfg, s, labels);
      t.events[e].event.payload.IntentObject? &&
      exists o :: o in t.shop.orders && t.shop.orders[o].intent == Some(t.events[e].event.payload.id) &&
        t.shop.orders[o].status == Completed &&
        ((o in s.shop.orders ==> s.shop.orders[o].status != Completed) ==> SoldOnce(Effects(cfg, s, labels), o))
  {
    hide SoldOnce, Pays;
    var t := Execute(cfg, s, labels);
    RunKeepsWorkInv(cfg, s, labels);
    assert RowOk(cfg, t, e);
    var o :| o in t.shop.orders && t.shop.orders[o].intent == Some(t.events[e].event.payload.id) && t.shop.orders[o].status == Completed;
    OrdersRunLegally(cfg, s, labels);
    if o in s.shop.orders ==> s.shop.orders[o].status != Completed {
      CompletedIsSoldOnce(s.shop, Effects(cfg, s, labels), o);
    }
  }

  /** Done, still to be claimed, or given up with the reason on record. */
  predicate Visible(cfg: Config, row: Row) {
    row.processed || Eligible(cfg, row) || row.lastError.Some?
  }

  ghost predicate NothingForgotten(cfg: Config, s: State) {
    forall e :: e in s.events ==> Visible(cfg, s.events[e])
  }

  /** Events are never forgotten exactly when the cap allows at least one attempt. */
  lemma NothingForgottenIff(cfg: Config)
    ensures (forall s, labels :: Start(s) ==> NothingForgotten(cfg, Execute(cfg, s, labels))) <==> cfg.maxAttempts >= 1
  {
    if cfg.maxAttempts >= 1 {
      forall s, labels | Start(s)
        ensures NothingForgotten(cfg, Execute(cfg, s, labels))
      {
        RunKeepsWorkInv(cfg, s, labels);
        forall e | e in Execute(cfg, s, labels).events
          ensures Visible(cfg, Execute(cfg, s, labels).events[e])
        {
          assert RowOk(cfg, Execute(cfg, s, labels), e);
        }
      }
    } else {
      var s := State(Shop(map[], map[], map[]), map[], map[]);
      var l := Insert("evt", Event(SUCCEEDED, Malformed), 0);
      assert Execute(cfg, s, [l][..0]) == s && Execute(cfg, s, [l]) == Next(cfg, s, l);
      assert "evt" in Execute(cfg, s, [l]).events && !Visible(cfg, Execute(cfg, s, [l]).events["evt"]);
      assert Start(s);
    }
  }

  /** An event is recorded at most `maxAttempts` times. */
  lemma AttemptsAreCapped(cfg: Config, s: State, labels: seq<Label>, e: EventId)
    requires Start(s) && e in Execute(cfg, s, labels).events
    ensures var row := Execute(cfg, s, labels).events[e];
      row.attempts == 0 || row.attempts <= cfg.maxAttempts
  {
    RunKeepsWorkInv(cfg, s, labels);
    assert RowOk(cfg, Execute(cfg, s, labels), e);
  }
}
