/**
 * The event poller: a cursor read from the inbox, a window behind it, and one list call that may break
 * off anywhere. Stripe makes events visible when it likes, within the promise `Timely`; only events of
 * the handled types are listed. Times are Unix seconds.
 */
module Poller {
  import opened Tables
  import opened Lifecycle

  type EventId = string

  /** An event on Stripe's side; a malformed one has no data object and cannot be stored. */
  datatype Remote = Remote(created: Time, wellFormed: bool)

  /** stripe_events as the poller sees it: each stored event with its stripe_created_at. */
  type Stored = map<EventId, Time>

  /** A poll under way: what the list yields, how far it got, and what was visible when it began. */
  datatype Polling = Polling(listing: seq<EventId>, pos: nat, seen: set<EventId>)

  /** `floor` is the start of the last window that was opened on an empty inbox. */
  datatype State = State(now: Time, visible: map<EventId, Remote>, stored: Stored, floor: Option<Time>, polling: Option<Polling>)

  /**
   * `partial`: polls may break off, by a list error, an insert error or a crash. `oldestFirst`: the list
   * yields in order of creation. `webhook`: pushed events are stored by the same inbox. `settled`: an
   * event that appears during a poll is not older than what that poll is about to store, less the overlap.
   */
  datatype Config = Config(overlap: nat, lookback: nat, partial: bool, oldestFirst: bool, webhook: bool, settled: bool)

  datatype Label =
    | Tick(elapsed: nat)
    | Appear(e: EventId, remote: Remote)
    | StartPoll(listing: seq<EventId>)
    | Yield
    | Finish
    | Break
    | Push(e: EventId)

  lemma LatestExists(stored: Stored)
    requires stored != map[]
    ensures exists e :: e in stored && forall q :: q in stored ==> stored[q] <= stored[e]
  {
    var ages := map e | e in stored :: -stored[e];
    var e :| e in stored;
    assert e in ages;
    LeastExists(ages);
    var latest :| latest in ages && forall q :: q in ages ==> ages[latest] <= ages[q];
    forall q | q in stored
      ensures stored[q] <= stored[latest]
    {
      assert ages[latest] <= ages[q];
    }
  }

  /** The poll cursor: the creation time of the youngest stored event. */
  ghost function Latest(stored: Stored): (cursor: Option<Time>)
    ensures cursor.None? <==> stored == map[]
    ensures cursor.Some? ==> forall e :: e in stored ==> stored[e] <= cursor.value
    ensures cursor.Some? ==> exists e :: e in stored && stored[e] == cursor.value
  {
    if stored == map[] then None
    else
      LatestExists(stored);
      var e :| e in stored && forall q :: q in stored ==> stored[q] <= stored[e];
      Some(stored[e])
  }

  function SinceFor(cfg: Config, cursor: Option<Time>, now: Time): Time {
    if cursor.None? then now - cfg.lookback else cursor.value - cfg.overlap
  }

  /** ON CONFLICT (id) DO NOTHING; a malformed event is skipped. */
  function Insert(stored: Stored, e: EventId, remote: Remote): Stored {
    if e in stored || !remote.wellFormed then stored else stored[e := remote.created]
  }

  predicate Sorted(visible: map<EventId, Remote>, listing: seq<EventId>)
    requires forall e :: e in listing ==> e in visible
  {
    forall i, j :: 0 <= i < j < |listing| ==> visible[listing[i]].created <= visible[listing[j]].created
  }

  /** What the list may yield: every visible event of the window, once. */
  ghost predicate Lists(cfg: Config, visible: map<EventId, Remote>, since: Time, listing: seq<EventId>) {
    Distinct(listing) && (forall e :: e in listing <==> e in visible && visible[e].created >= since) &&
    (cfg.oldestFirst ==> Sorted(visible, listing))
  }

  /** An event becomes visible before the cursor has left it behind by more than the overlap. */
  ghost predicate Timely(cfg: Config, s: State, created: Time) {
    (forall q :: q in s.stored ==> s.stored[q] <= created + cfg.overlap) &&
    (cfg.settled && s.polling.Some? ==>
      forall q :: q in s.polling.value.listing && q in s.visible ==> s.visible[q].created <= created + cfg.overlap)
  }

  ghost function Next(cfg: Config, s: State, l: Label): State {
    match l
    case Tick(elapsed) => s.(now := s.now + elapsed)
    case Appear(e, remote) =>
      if e in s.visible || !Timely(cfg, s, remote.created) then s else s.(visible := s.visible[e := remote])
    case StartPoll(listing) =>
      var cursor := Latest(s.stored);
      var since := SinceFor(cfg, cursor, s.now);
      if s.polling.Some? || !Lists(cfg, s.visible, since, listing) then s
      else s.(floor := if cursor.None? then Some(since) else s.floor, polling := Some(Polling(listing, 0, s.visible.Keys)))
    case Yield =>
      if s.polling.None? || s.polling.value.pos >= |s.polling.value.listing| then s
      else
        var p := s.polling.value;
        var e := p.listing[p.pos];
        if e !in s.visible then s
        else s.(stored := Insert(s.stored, e, s.visible[e]), polling := Some(p.(pos := p.pos + 1)))
    case Finish => if AtEnd(s) then s.(polling := None) else s
    case Break => if cfg.partial then s.(polling := None) else s
    case Push(e) => if cfg.webhook && e in s.visible then s.(stored := Insert(s.stored, e, s.visible[e])) else s
  }

  predicate AtEnd(s: State) {
    s.polling.Some? && s.polling.value.pos == |s.polling.value.listing|
  }

  ghost function Execute(cfg: Config, labels: seq<Label>): State {
    if labels == [] then EMPTY else Next(cfg, Execute(cfg, labels[..|labels|-1]), labels[|labels|-1])
  }

  const EMPTY: State := State(0, map[], map[], None, None)

  predicate Missing(s: State, e: EventId) {
    e in s.visible && s.visible[e].wellFormed && e !in s.stored && s.floor.Some? && s.floor.value <= s.visible[e].created
  }

  /** A poll that has come to the end of its list has stored everything visible when it began. */
  ghost predicate CaughtUp(s: State) {
    AtEnd(s) ==> forall e :: e in s.polling.value.seen ==> !Missing(s, e)
  }

  predicate Hypotheses(cfg: Config) {
    !cfg.webhook && (cfg.oldestFirst || !cfg.partial) && cfg.settled
  }

  // ---- The invariant ----------------------------------------------------------------------

  ghost predicate Recorded(s: State) {
    forall e :: e in s.stored ==> e in s.visible && s.visible[e].created == s.stored[e]
  }

  /** Still within reach of the next window. */
  ghost predicate InReach(cfg: Config, s: State, e: EventId)
    requires e in s.visible
  {
    forall q :: q in s.stored ==> s.stored[q] <= s.visible[e].created + cfg.overlap
  }

  ghost predicate ClearOfPoll(cfg: Config, s: State, e: EventId)
    requires e in s.visible && s.polling.Some?
  {
    forall q :: q in s.polling.value.listing && q in s.visible ==> s.visible[q].created <= s.visible[e].created + cfg.overlap
  }

  predicate StillListed(p: Polling, e: EventId) {
    p.pos <= |p.listing| && e in p.listing[p.pos..]
  }

  /** No missing event can be stepped over. */
  ghost predicate Reachable(cfg: Config, s: State, e: EventId) {
    Missing(s, e) ==>
      if s.polling.None? then InReach(cfg, s, e)
      else
        StillListed(s.polling.value, e) ||
        (e !in s.polling.value.seen && InReach(cfg, s, e) && ClearOfPoll(cfg, s, e))
  }

  ghost predicate PollOk(cfg: Config, s: State) {
    s.polling.Some? ==>
      var p := s.polling.value;
      p.pos <= |p.listing| && Distinct(p.listing) && (forall e :: e in p.listing ==> e in s.visible) &&
      (cfg.oldestFirst ==> Sorted(s.visible, p.listing)) &&
      (forall e, q :: e in p.listing && q in s.stored && q !in p.listing[..p.pos] ==> s.stored[q] <= s.visible[e].created + cfg.overlap)
  }

  ghost predicate PollInv(cfg: Config, s: State) {
    Recorded(s) && PollOk(cfg, s) && forall e {:trigger Reachable(cfg, s, e)} :: Reachable(cfg, s, e)
  }

  lemma RecordedKept(cfg: Config, s: State, l: Label)
    requires Recorded(s)
    ensures Recorded(Next(cfg, s, l))
  {
  }

  lemma StartKeeps(cfg: Config, s: State, listing: seq<EventId>)
    requires PollInv(cfg, s) && s.polling.None? && Lists(cfg, s.visible, SinceFor(cfg, Latest(s.stored), s.now), listing)
    ensures PollInv(cfg, Next(cfg, s, StartPoll(listing)))
  {
    var s' := Next(cfg, s, StartPoll(listing));
    forall e
      ensures Reachable(cfg, s', e)
    {
      assert Reachable(cfg, s, e);
      if Missing(s', e) {
        assert e in listing;
        assert listing[0..] == listing;
      }
    }
  }

  lemma YieldKeepsPoll(cfg: Config, s: State)
    requires PollInv(cfg, s) && s.polling.Some? && s.polling.value.pos < |s.polling.value.listing|
    ensures PollOk(cfg, Next(cfg, s, Yield))
  {
    var p := s.polling.value;
    var x := p.listing[p.pos];
    assert p.listing[..p.pos+1] == p.listing[..p.pos] + [x];
  }

  lemma YieldKeeps(cfg: Config, s: State, e: EventId)
    requires PollInv(cfg, s) && s.polling.Some? && s.polling.value.pos < |s.polling.value.listing|
    ensures Reachable(cfg, Next(cfg, s, Yield), e)
  {
    var p := s.polling.value;
    var x := p.listing[p.pos];
    assert Reachable(cfg, s, e);
    assert x in p.listing;
    assert p.listing[p.pos..] == [x] + p.listing[p.pos+1..];
  }

  /** A poll ends in good order, or breaks off a list that was sorted: nothing older was passed over. */
  lemma EndKeeps(cfg: Config, s: State, e: EventId)
    requires PollInv(cfg, s) && s.polling.Some? && (AtEnd(s) || cfg.oldestFirst)
    ensures Reachable(cfg, s.(polling := None), e)
  {
    var p := s.polling.value;
    assert Reachable(cfg, s, e);
    if Missing(s, e) && StillListed(p, e) {
      var j :| p.pos <= j < |p.listing| && p.listing[j] == e;
      forall q | q in s.stored
        ensures s.stored[q] <= s.visible[e].created + cfg.overlap
      {
        if q in p.listing[..p.pos] {
          var i :| 0 <= i < p.pos && p.listing[i] == q;
          assert s.visible[p.listing[i]].created <= s.visible[p.listing[j]].created;
        } else {
          assert e in p.listing;
        }
      }
    }
  }

  lemma AppearKeeps(cfg: Config, s: State, l: Label, e: EventId)
    requires PollInv(cfg, s) && SeenOk(s) && cfg.settled && l.Appear?
    ensures Reachable(cfg, Next(cfg, s, l), e)
  {
    assert Reachable(cfg, s, e);
    if s.polling.Some? && l.e !in s.visible {
      assert l.e !in s.polling.value.listing;
    }
  }

  lemma AppearKeepsPoll(cfg: Config, s: State, l: Label)
    requires PollInv(cfg, s) && l.Appear?
    ensures PollOk(cfg, Next(cfg, s, l))
  {
  }

  /** `seen` never runs ahead of what is visible. */
  predicate SeenOk(s: State) {
    s.polling.Some? ==> s.polling.value.seen <= s.visible.Keys
  }

  lemma NextKeepsPollInv(cfg: Config, s: State, l: Label)
    requires PollInv(cfg, s) && SeenOk(s) && Hypotheses(cfg)
    ensures PollInv(cfg, Next(cfg, s, l)) && SeenOk(Next(cfg, s, l))
  {
    hide Reachable, PollOk;
    var s' := Next(cfg, s, l);
    RecordedKept(cfg, s, l);
    if s' != s {
      match l
      case StartPoll(listing) => StartKeeps(cfg, s, listing);
      case Yield =>
        YieldKeepsPoll(cfg, s);
        forall e ensures Reachable(cfg, s', e) { YieldKeeps(cfg, s, e); }
      case Appear(_, _) =>
        AppearKeepsPoll(cfg, s, l);
        forall e ensures Reachable(cfg, s', e) { AppearKeeps(cfg, s, l, e); }
      case Tick(_) => TickKeeps(cfg, s, l.elapsed);
      case Push(_) =>
      case Finish =>
        NoPollIsOk(cfg, s');
        forall e ensures Reachable(cfg, s', e) { EndKeeps(cfg, s, e); }
      case Break =>
        NoPollIsOk(cfg, s');
        forall e ensures Reachable(cfg, s', e) { EndKeeps(cfg, s, e); }
    }
  }

  lemma NoPollIsOk(cfg: Config, s: State)
    requires s.polling.None?
    ensures PollOk(cfg, s)
  {
  }

  lemma TickKeeps(cfg: Config, s: State, elapsed: nat)
    requires PollInv(cfg, s)
    ensures PollInv(cfg, s.(now := s.now + elapsed))
  {
    var s' := s.(now := s.now + elapsed);
    forall e {:trigger Reachable(cfg, s', e)}
      ensures Reachable(cfg, s', e)
    {
      assert Reachable(cfg, s, e);
    }
  }

  lemma {:induction false} RunKeepsPollInv(cfg: Config, labels: seq<Label>)
    requires Hypotheses(cfg)
    ensures PollInv(cfg, Execute(cfg, labels)) && SeenOk(Execute(cfg, labels))
  {
    if labels != [] {
      RunKeepsPollInv(cfg, labels[..|labels|-1]);
      NextKeepsPollInv(cfg, Execute(cfg, labels[..|labels|-1]), labels[|labels|-1]);
    }
  }

  lemma CaughtUpUnder(cfg: Config, labels: seq<Label>)
    requires Hypotheses(cfg)
    ensures CaughtUp(Execute(cfg, labels))
  {
    RunKeepsPollInv(cfg, labels);
    var s := Execute(cfg, labels);
    if AtEnd(s) {
      forall e | e in s.polling.value.seen
        ensures !Missing(s, e)
      {
        assert Reachable(cfg, s, e);
      }
    }
  }

  // ---- Each hypothesis is needed ----------------------------------------------------------

  function Sees(cfg: Config): map<EventId, Remote> {
    map["old" := Remote(0, true), "new" := Remote(cfg.overlap + 1, true)]
  }

  function StoredNew(cfg: Config): Stored {
    map["new" := cfg.overlap + 1]
  }

  /** The cursor has left a visible event behind by more than the overlap. */
  function Gap(cfg: Config): State {
    State(0, Sees(cfg), StoredNew(cfg), Some(0 - cfg.lookback), None)
  }

  lemma Chain(cfg: Config, ls: seq<Label>, states: seq<State>)
    requires |states| == |ls| + 1 && states[0] == EMPTY
    requires forall i :: 0 <= i < |ls| ==> Next(cfg, states[i], ls[i]) == states[i+1]
    ensures Execute(cfg, ls) == states[|ls|]
  {
    if ls != [] {
      Chain(cfg, ls[..|ls|-1], states[..|states|-1]);
    }
  }

  /** A pushed event moves the cursor past one nobody has listed yet. */
  lemma PushReachesGap(cfg: Config) returns (ls: seq<Label>)
    requires cfg.webhook
    ensures Execute(cfg, ls) == Gap(cfg)
  {
    var old_ := map["old" := Remote(0, true)];
    var floor := Some(0 - cfg.lookback);
    ls := [StartPoll([]), Finish, Appear("old", Remote(0, true)), Appear("new", Remote(cfg.overlap + 1, true)), Push("new")];
    var states := [EMPTY, State(0, map[], map[], floor, Some(Polling([], 0, {}))), State(0, map[], map[], floor, None),
                   State(0, old_, map[], floor, None), State(0, Sees(cfg), map[], floor, None), Gap(cfg)];
    assert EMPTY.visible.Keys == {};
    assert Next(cfg, states[0], ls[0]) == states[1];
    assert Next(cfg, states[1], ls[1]) == states[2];
    assert Next(cfg, states[2], ls[2]) == states[3];
    assert Next(cfg, states[3], ls[3]) == states[4];
    assert Next(cfg, states[4], ls[4]) == states[5];
    Chain(cfg, ls, states);
  }

  /** A poll that lists newest-first and breaks off has stored the cursor, and not what comes before it. */
  lemma BreakReachesGap(cfg: Config) returns (ls: seq<Label>)
    requires cfg.partial && !cfg.oldestFirst
    ensures Execute(cfg, ls) == Gap(cfg)
  {
    var old_ := map["old" := Remote(0, true)];
    var floor, listing, seen := Some(0 - cfg.lookback), ["new", "old"], Sees(cfg).Keys;
    ls := [Appear("old", Remote(0, true)), Appear("new", Remote(cfg.overlap + 1, true)), StartPoll(listing), Yield, Break];
    var states := [EMPTY, State(0, old_, map[], None, None), State(0, Sees(cfg), map[], None, None),
                   State(0, Sees(cfg), map[], floor, Some(Polling(listing, 0, seen))),
                   State(0, Sees(cfg), StoredNew(cfg), floor, Some(Polling(listing, 1, seen))), Gap(cfg)];
    assert Next(cfg, states[0], ls[0]) == states[1];
    assert Next(cfg, states[1], ls[1]) == states[2];
    assert Next(cfg, states[2], ls[2]) == states[3];
    assert Next(cfg, states[3], ls[3]) == states[4];
    assert Next(cfg, states[4], ls[4]) == states[5];
    Chain(cfg, ls, states);
  }

  /** An event that appears during the poll which is about to move the cursor past it. */
  lemma LateReachesGap(cfg: Config) returns (ls: seq<Label>)
    requires !cfg.settled
    ensures Execute(cfg, ls) == Gap(cfg)
  {
    var new_ := map["new" := Remote(cfg.overlap + 1, true)];
    var floor, listing := Some(0 - cfg.lookback), ["new"];
    ls := [Appear("new", Remote(cfg.overlap + 1, true)), StartPoll(listing), Appear("old", Remote(0, true)), Yield, Finish];
    var states := [EMPTY, State(0, new_, map[], None, None), State(0, new_, map[], floor, Some(Polling(listing, 0, {"new"}))),
                   State(0, Sees(cfg), map[], floor, Some(Polling(listing, 0, {"new"}))),
                   State(0, Sees(cfg), StoredNew(cfg), floor, Some(Polling(listing, 1, {"new"}))), Gap(cfg)];
    assert new_.Keys == {"new"};
    assert Next(cfg, states[0], ls[0]) == states[1];
    assert Next(cfg, states[1], ls[1]) == states[2];
    assert new_["old" := Remote(0, true)] == Sees(cfg);
    assert Next(cfg, states[2], ls[2]) == states[3];
    assert Next(cfg, states[3], ls[3]) == states[4];
    assert Next(cfg, states[4], ls[4]) == states[5];
    Chain(cfg, ls, states);
  }

  /** From the gap on, a complete poll lists only the newer event and the older one is lost. */
  lemma GapLosesAnEvent(cfg: Config, ls: seq<Label>)
    requires Execute(cfg, ls) == Gap(cfg)
    ensures !CaughtUp(Execute(cfg, ls + [StartPoll(["new"]), Yield]))
  {
    var s0, seen := Gap(cfg), Sees(cfg).Keys;
    var all := ls + [StartPoll(["new"]), Yield];
    var s1 := s0.(polling := Some(Polling(["new"], 0, seen)));
    var s2 := s0.(polling := Some(Polling(["new"], 1, seen)));
    assert Latest(s0.stored) == Some(cfg.overlap + 1) by {
      assert "new" in s0.stored;
    }
    assert Next(cfg, s0, StartPoll(["new"])) == s1;
    assert Next(cfg, s1, Yield) == s2;
    assert all[..|all|-1] == ls + [StartPoll(["new"])] && (ls + [StartPoll(["new"])])[..|ls|] == ls;
    assert Execute(cfg, all) == s2;
    assert "old" in seen && Missing(s2, "old");
  }

  /**
   * Every poll that gets to the end of its list has stored everything visible when it began, from the
   * start of the last window opened on an empty inbox, exactly when nothing else feeds the inbox, no poll
   * breaks off an unsorted list, and no event appears too late for the poll already under way.
   */
  lemma PollsAreCompleteIff(cfg: Config)
    ensures (forall labels :: CaughtUp(Execute(cfg, labels))) <==> Hypotheses(cfg)
  {
    if Hypotheses(cfg) {
      forall labels
        ensures CaughtUp(Execute(cfg, labels))
      {
        CaughtUpUnder(cfg, labels);
      }
    } else {
      var ls;
      if cfg.webhook {
        ls := PushReachesGap(cfg);
      } else if !cfg.settled {
        ls := LateReachesGap(cfg);
      } else {
        ls := BreakReachesGap(cfg);
      }
      GapLosesAnEvent(cfg, ls);
    }
  }

  // ---- Completeness from the first window on ----------------------------------------------

  /** As CaughtUp, but measured from a fixed time instead of the last window opened on an empty inbox. */
  ghost predicate CompleteFrom(s: State, start: Time) {
    AtEnd(s) ==>
      forall e :: e in s.polling.value.seen && e in s.visible && s.visible[e].wellFormed && start <= s.visible[e].created ==> e in s.stored
  }

  lemma {:induction false} FloorStays(cfg: Config, labels: seq<Label>, more: seq<Label>)
    requires Execute(cfg, labels).stored != map[]
    ensures Execute(cfg, labels + more).stored != map[] && Execute(cfg, labels + more).floor == Execute(cfg, labels).floor
  {
    hide Next;
    if more == [] {
      assert labels + more == labels;
    } else {
      var all, rest := labels + more, more[..|more|-1];
      FloorStays(cfg, labels, rest);
      assert all[..|all|-1] == labels + rest;
      StoredStays(cfg, Execute(cfg, labels + rest), more[|more|-1]);
    }
  }

  /** Nothing is ever taken out of the inbox, and a window opened on a filled one leaves the floor alone. */
  lemma StoredStays(cfg: Config, s: State, l: Label)
    requires s.stored != map[]
    ensures Next(cfg, s, l).stored != map[] && Next(cfg, s, l).floor == s.floor
  {
    var e :| e in s.stored;
    assert e in Next(cfg, s, l).stored;
  }

  lemma AppendedOne(cfg: Config, labels: seq<Label>, l: Label)
    ensures Execute(cfg, labels + [l]) == Next(cfg, Execute(cfg, labels), l)
  {
    hide Next;
    assert (labels + [l])[..|labels|] == labels;
  }

  lemma Appended(cfg: Config, labels: seq<Label>, a: Label, b: Label, c: Label)
    ensures Execute(cfg, labels + [a, b, c]) == Next(cfg, Next(cfg, Next(cfg, Execute(cfg, labels), a), b), c)
  {
    hide Next, Execute;
    AppendedOne(cfg, labels, a);
    AppendedOne(cfg, labels + [a], b);
    AppendedOne(cfg, labels + [a] + [b], c);
    assert labels + [a] + [b] + [c] == labels + [a, b, c];
  }

  lemma YoungestVisible(visible: map<EventId, Remote>) returns (bound: Time)
    ensures forall e :: e in visible ==> visible[e].created <= bound
  {
    if visible == map[] {
      bound := 0;
    } else {
      var times := map e | e in visible :: visible[e].created;
      var x :| x in visible;
      assert x in times;
      LatestExists(times);
      var latest :| latest in times && forall q :: q in times ==> times[q] <= times[latest];
      bound := times[latest];
      assert forall e :: e in visible ==> times[e] <= bound;
    }
  }

  /** A window that starts after everything visible lists nothing, and that poll is at its end at once. */
  lemma NothingListed(cfg: Config, s: State)
    requires s.stored == map[] && s.polling.None? && forall e :: e in s.visible ==> s.visible[e].created < s.now - cfg.lookback
    ensures Next(cfg, s, StartPoll([])) == s.(floor := Some(s.now - cfg.lookback), polling := Some(Polling([], 0, s.visible.Keys)))
  {
  }

  /**
   * While the inbox is empty the window is anchored to the clock, so it moves: whatever has happened so
   * far, an event that appears at the start of a window already opened can miss every later one.
   */
  lemma EmptyInboxMovesTheWindow(cfg: Config, labels: seq<Label>, start: Time) returns (more: seq<Label>)
    requires Execute(cfg, labels).polling.None? && Execute(cfg, labels).stored == map[]
    ensures !CompleteFrom(Execute(cfg, labels + more), start)
  {
    var s := Execute(cfg, labels);
    var late := FreshString(s.visible.Keys);
    var appear := Appear(late, Remote(start, true));
    var s1 := s.(visible := s.visible[late := Remote(start, true)]);
    assert Next(cfg, s, appear) == s1;
    var bound := YoungestVisible(s1.visible);
    var elapsed: nat := if bound + cfg.lookback + 1 > s.now then bound + cfg.lookback + 1 - s.now else 0;
    var s2 := s1.(now := s.now + elapsed);
    assert Next(cfg, s1, Tick(elapsed)) == s2;
    NothingListed(cfg, s2);
    more := [appear, Tick(elapsed), StartPoll([])];
    Appended(cfg, labels, appear, Tick(elapsed), StartPoll([]));
    assert late in s2.visible;
  }

  /**
   * Between two polls, with a window already opened at `start`: every later poll that gets to its end has
   * stored everything created from then on that it could see, exactly if the inbox holds an event by now.
   */
  lemma FirstWindowIsKeptIff(cfg: Config, labels: seq<Label>, start: Time)
    requires Hypotheses(cfg) && Execute(cfg, labels).polling.None? && Execute(cfg, labels).floor == Some(start)
    ensures (forall more :: CompleteFrom(Execute(cfg, labels + more), start)) <==> Execute(cfg, labels).stored != map[]
  {
    if Execute(cfg, labels).stored != map[] {
      forall more
        ensures CompleteFrom(Execute(cfg, labels + more), start)
      {
        FloorStays(cfg, labels, more);
        CaughtUpUnder(cfg, labels + more);
        AllCaughtUp(Execute(cfg, labels + more), start);
      }
    } else {
      var more := EmptyInboxMovesTheWindow(cfg, labels, start);
    }
  }

  lemma AllCaughtUp(s: State, start: Time)
    requires CaughtUp(s) && s.floor == Some(start)
    ensures CompleteFrom(s, start)
  {
    if AtEnd(s) {
      forall e | e in s.polling.value.seen && e in s.visible && s.visible[e].wellFormed && start <= s.visible[e].created
        ensures e in s.stored
      {
        assert !Missing(s, e);
      }
    }
  }
}
