/** Pending work of a queue as values: what its heaps list, and what a dispatch serves. */
module Arrivals {
  import opened Ids
  import opened Time

  /** A queued delivery or notification; its payload is opaque. */
  datatype Work = Work(recipient: string, eligible: Instant, cause: ItemRef)

  type Arrival = (Instant, nat)

  predicate ArrivesBefore(a: Arrival, b: Arrival) {
    Less(a.0, b.0) || (a.0 == b.0 && a.1 < b.1)
  }

  lemma LeastArrival(entries: set<Arrival>)
    requires entries != {}
    ensures exists e :: e in entries && forall o :: o in entries ==> o == e || ArrivesBefore(e, o)
  {
    var e :| e in entries;
    var rest := entries - {e};
    if rest == {} {
      assert entries == {e};
    } else {
      LeastArrival(rest);
      var f :| f in rest && forall o :: o in rest ==> o == f || ArrivesBefore(f, o);
      assert forall o :: o in entries ==> o == e || o in rest;
      var least := if ArrivesBefore(e, f) then e else f;
      assert least in entries && forall o :: o in entries ==> o == least || ArrivesBefore(least, o);
    }
  }

  /** A heap lists exactly its recipient's pending arrivals. */
  ghost predicate Lists(entries: set<Arrival>, items: map<nat, Work>, recipient: string) {
    forall e: Arrival ::
      e in entries <==> e.1 in items && items[e.1].recipient == recipient && items[e.1].eligible == e.0
  }

  /** Every arrival is either still pending or was dispatched, never both. */
  ghost predicate Numbered(items: map<nat, Work>, dispatched: set<nat>, sequence: nat) {
    items.Keys !! dispatched && forall i: nat :: i in items || i in dispatched <==> i < sequence
  }

  /** Heaps list exactly the pending work, and no arrival is lost or dispatched twice. */
  ghost predicate Accounts(items: map<nat, Work>, entries: map<string, set<Arrival>>, dispatched: set<nat>,
                           sequence: nat)
  {
    && (forall r :: r in entries ==> Lists(entries[r], items, r))
    && (forall i :: i in items ==> items[i].recipient in entries)
    && Numbered(items, dispatched, sequence)
  }

  /** What a queue lists once a recipient has a heap of its own there. */
  ghost function Opened(entries: map<string, set<Arrival>>, recipient: string): map<string, set<Arrival>> {
    entries[recipient := if recipient in entries then entries[recipient] else {}]
  }

  lemma AccountsOpened(items: map<nat, Work>, entries: map<string, set<Arrival>>, dispatched: set<nat>,
                       sequence: nat, recipient: string)
    requires Accounts(items, entries, dispatched, sequence)
    ensures Accounts(items, Opened(entries, recipient), dispatched, sequence)
  {
  }

  lemma AccountsAppend(items: map<nat, Work>, entries: map<string, set<Arrival>>, dispatched: set<nat>, index: nat,
                       work: Work)
    requires Accounts(items, entries, dispatched, index) && work.recipient in entries
    ensures Accounts(items[index := work],
                     entries[work.recipient := entries[work.recipient] + {(work.eligible, index)}], dispatched,
                     index + 1)
  {
    var after, listed := items[index := work], entries[work.recipient] + {(work.eligible, index)};
    forall r | r in entries ensures Lists(entries[work.recipient := listed][r], after, r) {
      assert Lists(entries[r], items, r);
    }
  }

  predicate Due(items: map<nat, Work>, i: nat, recipient: string, at: Instant) {
    i in items && items[i].recipient == recipient && AtMost(items[i].eligible, at)
  }

  ghost predicate Exhausted(items: map<nat, Work>, recipient: string, at: Instant) {
    forall k :: !Due(items, k, recipient, at)
  }

  function ArrivalOf(items: map<nat, Work>, i: nat): Arrival
    requires i in items
  {
    (items[i].eligible, i)
  }

  /** The recipient's arrival that comes before all its others. */
  ghost predicate IsHead(items: map<nat, Work>, recipient: string, next: Arrival) {
    && next.1 in items && items[next.1].recipient == recipient && ArrivalOf(items, next.1) == next
    && forall k :: k in items && items[k].recipient == recipient ==>
      k == next.1 || ArrivesBefore(next, ArrivalOf(items, k))
  }

  /** `order` was removed from `before` in arrival order, all due to the recipient, none after what is left. */
  ghost predicate Served(before: map<nat, Work>, left: map<nat, Work>, order: seq<nat>, recipient: string,
                         at: Instant)
  {
    && (forall i :: i in order ==> Due(before, i, recipient, at))
    && (forall k :: 0 <= k < |order| ==> order[k] in before)
    && (forall k :: k in left <==> k in before && k !in order)
    && (forall k :: k in left ==> left[k] == before[k])
    && (forall j, k :: 0 <= j < k < |order| ==>
          ArrivesBefore(ArrivalOf(before, order[j]), ArrivalOf(before, order[k])))
    && (forall j, k :: 0 <= j < |order| && k in left && left[k].recipient == recipient ==>
          ArrivesBefore(ArrivalOf(before, order[j]), ArrivalOf(before, k)))
  }

  /** The earliest eligible first, and of those eligible together the first enqueued. */
  ghost predicate InArrivalOrder(before: map<nat, Work>, order: seq<nat>) {
    && (forall k :: 0 <= k < |order| ==> order[k] in before)
    && forall j, k :: 0 <= j < k < |order| ==>
      || Less(before[order[j]].eligible, before[order[k]].eligible)
      || (before[order[j]].eligible == before[order[k]].eligible && order[j] < order[k])
  }

  lemma ServedInOrder(before: map<nat, Work>, left: map<nat, Work>, order: seq<nat>, recipient: string, at: Instant)
    requires Served(before, left, order, recipient, at)
    ensures InArrivalOrder(before, order)
  {
  }

  /** The works returned, in the order their arrivals were served. */
  ghost predicate Answers(before: map<nat, Work>, order: seq<nat>, result: seq<Work>) {
    |result| == |order| && forall k :: 0 <= k < |order| ==> order[k] in before && result[k] == before[order[k]]
  }

  /** Taking the recipient's due head serves one arrival more. */
  lemma ServedPut(before: map<nat, Work>, left: map<nat, Work>, order: seq<nat>, recipient: string, at: Instant,
                  next: nat, work: Work)
    requires Served(before, left[next := work], order, recipient, at) && next !in left
    requires IsHead(left[next := work], recipient, (work.eligible, next)) && AtMost(work.eligible, at)
    ensures Served(before, left, order + [next], recipient, at) && before[next] == work
  {
    var previous, more := left[next := work], order + [next];
    assert previous.Keys == left.Keys + {next};
    assert forall i :: i in more <==> i in order || i == next;
    assert next !in order && Due(before, next, recipient, at);
    assert forall k :: k in left ==> previous[k] == left[k];
  }

  /** The arrivals served are exactly the recipient's due ones. */
  ghost predicate ExactlyDue(before: map<nat, Work>, order: seq<nat>, recipient: string, at: Instant) {
    forall i :: i in order <==> Due(before, i, recipient, at)
  }

  lemma ServedAll(before: map<nat, Work>, left: map<nat, Work>, order: seq<nat>, recipient: string,
                  at: Instant)
    requires Served(before, left, order, recipient, at) && Exhausted(left, recipient, at)
    ensures ExactlyDue(before, order, recipient, at)
  {
    forall i | Due(before, i, recipient, at) ensures i in order {
      assert !Due(left, i, recipient, at);
    }
  }

  lemma ListsAll(entries: set<Arrival>, left: map<nat, Work>, recipient: string)
    requires Lists(entries, left, recipient)
    ensures forall k :: k in left && left[k].recipient == recipient ==> ArrivalOf(left, k) in entries
  {
  }

  lemma HeadNotDue(entries: set<Arrival>, left: map<nat, Work>, recipient: string, at: Instant)
    requires Lists(entries, left, recipient)
    requires forall e :: e in entries ==> !AtMost(e.0, at)
    ensures Exhausted(left, recipient, at)
  {
    ListsAll(entries, left, recipient);
  }

  lemma DueIffListed(entries: set<Arrival>, items: map<nat, Work>, recipient: string, at: Instant)
    requires Lists(entries, items, recipient)
    ensures (exists e :: e in entries && AtMost(e.0, at)) <==> exists i :: Due(items, i, recipient, at)
  {
    if e :| e in entries && AtMost(e.0, at) {
      assert Due(items, e.1, recipient, at);
    }
    if i :| Due(items, i, recipient, at) {
      assert (items[i].eligible, i) in entries;
    }
  }

  /** `at` is the earliest eligibility among these recipients' work. */
  ghost predicate EarliestOf(at: Option<Instant>, items: map<nat, Work>, recipients: seq<string>) {
    && (forall i :: i in items && items[i].recipient in recipients ==> at.Some? && AtMost(at.value, items[i].eligible))
    && (at.Some? ==> exists i :: i in items && items[i].eligible == at.value)
  }

  lemma EarliestMore(at: Option<Instant>, items: map<nat, Work>, recipients: seq<string>, recipient: string,
                     entries: set<Arrival>, head: Arrival)
    requires EarliestOf(at, items, recipients) && Lists(entries, items, recipient)
    requires head in entries && forall o :: o in entries ==> o == head || ArrivesBefore(head, o)
    ensures EarliestOf(if at.None? || Less(head.0, at.value) then Some(head.0) else at, items, recipients + [recipient])
  {
    var after := if at.None? || Less(head.0, at.value) then Some(head.0) else at;
    forall i | i in items && items[i].recipient == recipient ensures AtMost(after.value, items[i].eligible) {
      assert (items[i].eligible, i) in entries;
    }
    assert head.1 in items;
  }

  lemma NothingListed(entries: set<Arrival>, items: map<nat, Work>, recipient: string)
    requires Lists(entries, items, recipient) && entries == {}
    ensures forall i :: i in items ==> items[i].recipient != recipient
  {
    forall i | i in items ensures items[i].recipient != recipient {
      assert (items[i].eligible, i) !in entries;
    }
  }

  lemma AccountsPop(items: map<nat, Work>, entries: map<string, set<Arrival>>, dispatched: set<nat>,
                    sequence: nat, recipient: string, next: Arrival)
    requires Accounts(items, entries, dispatched, sequence)
    requires recipient in entries && next in entries[recipient]
    ensures next.1 in items && items[next.1].recipient == recipient && ArrivalOf(items, next.1) == next
    ensures Accounts(items - {next.1}, entries[recipient := entries[recipient] - {next}], dispatched + {next.1},
                     sequence)
  {
    assert Lists(entries[recipient], items, recipient);
    var left := items - {next.1};
    forall r | r in entries ensures Lists(if r == recipient then entries[r] - {next} else entries[r], left, r) {
      assert Lists(entries[r], items, r);
    }
  }

  /** A dispatch in progress: undoing its last pop gives a queue whose head, due, was that pop. */
  ghost predicate Dispatching(before: map<nat, Work>, left: map<nat, Work>, order: seq<nat>, result: seq<Work>,
                              recipient: string, at: Instant)
    decreases |order|
  {
    if order == [] then
      left == before && result == []
    else
      var n := |order| - 1;
      && |result| == n + 1 && order[n] !in left
      && var previous := left[order[n] := result[n]];
      && IsHead(previous, recipient, (result[n].eligible, order[n])) && AtMost(result[n].eligible, at)
      && Dispatching(before, previous, order[..n], result[..n], recipient, at)
  }

  lemma DispatchingStep(before: map<nat, Work>, left: map<nat, Work>, order: seq<nat>, result: seq<Work>,
                        recipient: string, at: Instant, next: Arrival)
    requires Dispatching(before, left, order, result, recipient, at)
    requires IsHead(left, recipient, next) && AtMost(next.0, at)
    ensures Dispatching(before, left - {next.1}, order + [next.1], result + [left[next.1]], recipient, at)
    ensures |left - {next.1}| < |left|
  {
    var rest := left - {next.1};
    assert rest[next.1 := left[next.1]] == left;
    assert rest.Keys == left.Keys - {next.1};
    assert (order + [next.1])[..|order|] == order;
    assert (result + [left[next.1]])[..|result|] == result;
  }

  /** A dispatch serves due arrivals in arrival order and answers with their work. */
  lemma {:induction false} DispatchServes(before: map<nat, Work>, left: map<nat, Work>, order: seq<nat>,
                                          result: seq<Work>, recipient: string, at: Instant)
    requires Dispatching(before, left, order, result, recipient, at)
    ensures Served(before, left, order, recipient, at) && Answers(before, order, result)
    decreases |order|
  {
    if order != [] {
      var n := |order| - 1;
      DispatchServes(before, left[order[n] := result[n]], order[..n], result[..n], recipient, at);
      ServedPut(before, left, order[..n], recipient, at, order[n], result[n]);
      assert order[..n] + [order[n]] == order;
    }
  }

  lemma DispatchAll(before: map<nat, Work>, left: map<nat, Work>, order: seq<nat>, result: seq<Work>,
                    recipient: string, at: Instant, gone: set<nat>, dispatched: set<nat>, sequence: nat)
    requires Dispatching(before, left, order, result, recipient, at) && Exhausted(left, recipient, at)
    requires Numbered(before, gone, sequence) && Numbered(left, dispatched, sequence)
    ensures Served(before, left, order, recipient, at) && Answers(before, order, result)
    ensures ExactlyDue(before, order, recipient, at) && dispatched == gone + set i | i in order
  {
    DispatchServes(before, left, order, result, recipient, at);
    ServedAll(before, left, order, recipient, at);
  }
}
