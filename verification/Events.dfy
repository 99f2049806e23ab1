/** Which Stripe event does what to an order, and the filter the poller asks Stripe with. */
module Events {
  datatype EventAction = Ignore | Fulfill | Fail

  const SUCCEEDED: string := "payment_intent.succeeded"
  const PAYMENT_FAILED: string := "payment_intent.payment_failed"
  const CANCELED: string := "payment_intent.canceled"

  const HANDLED_EVENT_TYPES: seq<string> := [SUCCEEDED, PAYMENT_FAILED, CANCELED]

  function ActionFor(kind: string): EventAction {
    if kind == SUCCEEDED then Fulfill
    else if kind == PAYMENT_FAILED || kind == CANCELED then Fail
    else Ignore
  }

  /** Nothing is fetched that is not routed, and nothing routed that is not fetched. */
  method EventTypeFilter() returns (types: seq<string>)
    ensures forall kind :: kind in types <==> ActionFor(kind) != Ignore
    ensures |types| == |HANDLED_EVENT_TYPES|
  {
    types := [];
    for i := 0 to |HANDLED_EVENT_TYPES|
      invariant types == HANDLED_EVENT_TYPES[..i]
    {
      types := types + [HANDLED_EVENT_TYPES[i]];
    }
    assert types == HANDLED_EVENT_TYPES;
  }
}
