/** Boundary events grouped by instant, in recording order. */
module EventTable {
  import opened Time

  type Events<C> = map<Instant, seq<C>>

  function ChangesAt<C>(events: Events<C>, at: Instant): seq<C> {
    if at in events then events[at] else []
  }

  function Record<C>(events: Events<C>, at: Instant, change: C): Events<C> {
    events[at := ChangesAt(events, at) + [change]]
  }

  ghost predicate Distinct<C>(changes: seq<C>) {
    forall i, j :: 0 <= i < j < |changes| ==> changes[i] != changes[j]
  }
}
