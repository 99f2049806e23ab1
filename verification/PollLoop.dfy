/** One poll as the poller runs it: read the cursor, list, insert as the list yields, stop at the first error. */
module PollLoop {
  import opened Tables
  import opened Poller

  /** What the paginating iterator yields next. */
  datatype Listed = Item(e: EventId, remote: Remote) | ListFailed

  /** Every item inserted in turn. */
  function Absorbed(stored: Stored, items: seq<Listed>): Stored {
    if items == [] then stored
    else
      var before, last := Absorbed(stored, items[..|items|-1]), items[|items|-1];
      if last.Item? then Insert(before, last.e, last.remote) else before
  }

  lemma AbsorbedNothing(stored: Stored)
    ensures Absorbed(stored, []) == stored
  {
  }

  lemma AbsorbedOneMore(stored: Stored, items: seq<Listed>, i: nat)
    requires i < |items| && items[i].Item?
    ensures Absorbed(stored, items[..i+1]) == Insert(Absorbed(stored, items[..i]), items[i].e, items[i].remote)
  {
    assert items[..i+1][..i] == items[..i];
  }

  /** Stripe's answer to a list call that starts at the given time. */
  type Lister = Time -> seq<Listed>

  class Client {
    const cfg: Config
    const reliable: bool
    var stored: Stored
    var lastSuccess: Option<Time>

    constructor (cfg: Config, reliable: bool, stored: Stored)
      ensures this.cfg == cfg && this.reliable == reliable && this.stored == stored && lastSuccess == None
    {
      this.cfg, this.reliable, this.stored, this.lastSuccess := cfg, reliable, stored, None;
    }

    method LatestStripeEventCreatedAt() returns (cursor: Option<Time>)
      ensures cursor == Latest(stored)
    {
      if stored == map[] {
        return None;
      }
      LatestExists(stored);
      var e :| e in stored && forall q :: q in stored ==> stored[q] <= stored[e];
      return Some(stored[e]);
    }

    /** Rows inserted: none for an event already recorded, and none on an error. */
    method InsertStripeEvent(e: EventId, remote: Remote) returns (rows: nat, failed: bool)
      requires remote.wellFormed
      modifies this`stored
      ensures failed ==> !reliable && stored == old(stored)
      ensures !failed ==> stored == Insert(old(stored), e, remote) && rows == |stored| - |old(stored)|
    {
      failed := false;
      if !reliable { failed := *; }
      rows := if e in stored || failed then 0 else 1;
      if !failed {
        stored := Insert(stored, e, remote);
      }
    }

    /** What came before an error stays; a poll without an error has taken the whole list. */
    method Poll(now: Time, list: Lister) returns (fetched: nat, inserted: nat, failed: bool)
      modifies this`stored
      ensures var items := list(SinceFor(cfg, Latest(old(stored)), now));
        fetched <= |items| && (forall i :: 0 <= i < fetched ==> items[i].Item?) &&
        (stored == Absorbed(old(stored), items[..fetched]) || (failed && fetched > 0 && stored == Absorbed(old(stored), items[..fetched-1]))) &&
        (!failed ==> fetched == |items| && stored == Absorbed(old(stored), items)) &&
        (reliable ==> (failed <==> ListFailed in items))
      ensures |stored| == |old(stored)| + inserted
    {
      hide Absorbed;
      AbsorbedNothing(stored);
      fetched, inserted, failed := 0, 0, false;
      var cursor := LatestStripeEventCreatedAt();
      var items := list(SinceFor(cfg, cursor, now));
      for i := 0 to |items|
        invariant fetched == i && !failed && forall k :: 0 <= k < i ==> items[k].Item?
        invariant stored == Absorbed(old(stored), items[..i]) && |stored| == |old(stored)| + inserted
      {
        if items[i].ListFailed? {
          failed := true;
          return;
        }
        fetched := fetched + 1;
        if items[i].remote.wellFormed {
          var rows;
          rows, failed := InsertStripeEvent(items[i].e, items[i].remote);
          if failed {
            return;
          }
          inserted := inserted + rows;
        }
        AbsorbedOneMore(old(stored), items, i);
      }
      assert items[..|items|] == items;
    }

    /** Only a clean poll counts as a success. */
    method PollOnce(now: Time, list: Lister)
      modifies this
      ensures lastSuccess == old(lastSuccess) || (lastSuccess == Some(now) && stored == Absorbed(old(stored), list(SinceFor(cfg, Latest(old(stored)), now))))
      ensures ListFailed in list(SinceFor(cfg, Latest(old(stored)), now)) ==> lastSuccess == old(lastSuccess)
      ensures reliable && ListFailed !in list(SinceFor(cfg, Latest(old(stored)), now)) ==> lastSuccess == Some(now)
    {
      var fetched, inserted, failed := Poll(now, list);
      if !failed {
        lastSuccess := Some(now);
      }
    }
  }

  // ---- The loop is a run of the machine ---------------------------------------------------

  function Items(visible: map<EventId, Remote>, listing: seq<EventId>): seq<Listed>
    requires forall e :: e in listing ==> e in visible
  {
    seq(|listing|, i requires 0 <= i < |listing| => Item(listing[i], visible[listing[i]]))
  }

  ghost function Yields(cfg: Config, s: State, k: nat): State {
    if k == 0 then s else Next(cfg, Yields(cfg, s, k - 1), Yield)
  }

  /** After `k` yields of an undisturbed poll the inbox holds what the loop has stored by then. */
  lemma {:induction false} LoopIsARun(cfg: Config, s: State, listing: seq<EventId>, k: nat)
    requires s.polling.Some? && s.polling.value.listing == listing && s.polling.value.pos == 0 && k <= |listing|
    requires forall e :: e in listing ==> e in s.visible
    ensures Yields(cfg, s, k) == s.(stored := Absorbed(s.stored, Items(s.visible, listing)[..k]), polling := Some(s.polling.value.(pos := k)))
  {
    var items := Items(s.visible, listing);
    if k > 0 {
      LoopIsARun(cfg, s, listing, k - 1);
      assert items[..k][..k-1] == items[..k-1];
      assert listing[k-1] in listing;
    }
  }
}
