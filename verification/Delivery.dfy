/** Along whole journals: every queued item is taken by exactly one wave, every reservation published by exactly one
    boundary, and all of it by the time its instant is sealed. */
module Delivery {
  import opened Admission
  import opened Calls
  import opened Fates
  import opened Listing
  import opened Replay
  import opened RunState
  import opened Time
  import opened Timers

  /** The states of an accepted journal: each the one that the next record makes of the one before. */
  ghost predicate Trace(b: Pinned, journal: seq<Record>, t: seq<State>)
    requires PinnedValid(b)
    decreases |journal|
  {
    var n := |journal|;
    && |t| == n + 1 && StateValid(b, t[n])
    && (n > 0 ==> Trace(b, journal[..n - 1], t[..n]) && Leads(b, t[n - 1], journal[n - 1], t[n]))
  }

  ghost predicate Leads(b: Pinned, s: State, record: Record, next: State)
    requires PinnedValid(b)
  {
    StateValid(b, s) && Replayed(b, s, record) == Some(next)
  }

  /** Every accepted journal has one, from its first state to its last. */
  lemma {:induction false} TraceOf(b: Pinned, s: State, journal: seq<Record>) returns (t: seq<State>)
    requires PinnedValid(b) && StateValid(b, s) && ReplayAll(b, s, journal).Some?
    ensures Trace(b, journal, t) && t[0] == s && t[|journal|] == ReplayAll(b, s, journal).value
    decreases |journal|
  {
    t := [s];
    if journal != [] {
      var n := |journal| - 1;
      LastRecord(b, s, journal);
      var shorter := TraceOf(b, s, journal[..n]);
      var last := ReplayAll(b, s, journal).value;
      assert Leads(b, shorter[n], journal[n], last);
      t := shorter + [last];
      assert t[..n + 1] == shorter;
    }
  }

  /** Record by record. */
  lemma {:induction false} TraceAt(b: Pinned, journal: seq<Record>, t: seq<State>, k: nat)
    requires PinnedValid(b) && Trace(b, journal, t) && k <= |journal|
    ensures |t| == |journal| + 1 && StateValid(b, t[k])
    ensures k < |journal| ==> Leads(b, t[k], journal[k], t[k + 1])
    decreases |journal|
  {
    var n := |journal|;
    if k < n - 1 || k == n - 1 {
      TraceAt(b, journal[..n - 1], t[..n], k);
    }
  }

  // ---- work ----

  /** What becomes of queued work at each record of a journal. */
  ghost predicate WorkTrace(journal: seq<Record>, t: seq<State>) {
    && |t| == |journal| + 1
    && (forall k, i :: 0 <= k <= |journal| && i in t[k].work ==> i < t[k].arrivals)
    && forall k :: 0 <= k < |journal| ==> WorkFate(t[k], journal[k], t[k + 1])
  }

  /** The k-th record takes an item off the queue. */
  ghost predicate TakenAt(journal: seq<Record>, t: seq<State>, i: nat, k: nat)
  {
    && k < |journal| == |t| - 1 && i in t[k].work && Takes(journal[k], t[k].work[i])
  }

  /** What becomes of an item at one record. */
  lemma QueuedStep(journal: seq<Record>, t: seq<State>, k: nat, i: nat)
    requires WorkTrace(journal, t) && k < |journal|
    ensures i in t[k].work ==>
      (i in t[k + 1].work <==> !TakenAt(journal, t, i, k))
    ensures i in t[k].work && i in t[k + 1].work ==>
      t[k + 1].work[i] == t[k].work[i]
    ensures i < t[k].arrivals ==> i < t[k + 1].arrivals
    ensures i < t[k].arrivals && i !in t[k].work ==>
      i !in t[k + 1].work
  {
    assert WorkFate(t[k], journal[k], t[k + 1]);
  }

  /** An item is queued at one point as it was at another. */
  ghost predicate StillQueued(journal: seq<Record>, t: seq<State>, m: nat, n: nat, i: nat)
    requires m < |t| && n < |t| && i in t[m].work
  {
    i in t[n].work && t[n].work[i] == t[m].work[i]
  }

  /** An item stays queued, as it was, until a wave takes it. */
  lemma {:induction false} QueuedUntilTaken(journal: seq<Record>, t: seq<State>, m: nat, n: nat, i: nat)
    returns (k: nat)
    requires WorkTrace(journal, t) && m <= n <= |journal| && i in t[m].work
    ensures i < t[n].arrivals && (StillQueued(journal, t, m, n, i) || i !in t[n].work)
    ensures i !in t[n].work ==>
      m <= k < n && TakenAt(journal, t, i, k) && StillQueued(journal, t, m, k, i)
    decreases n
  {
    k := m;
    if m < n {
      k := QueuedUntilTaken(journal, t, m, n - 1, i);
      QueuedStep(journal, t, n - 1, i);
      if i in t[n - 1].work {
        k := n - 1;
      }
    }
  }

  /** A number once used is not queued again. */
  lemma {:induction false} NeverQueuedAgain(journal: seq<Record>, t: seq<State>, m: nat, n: nat, i: nat)
    requires WorkTrace(journal, t) && m <= n <= |journal|
    requires i < t[m].arrivals && i !in t[m].work
    ensures i < t[n].arrivals && i !in t[n].work
    decreases n
  {
    if m < n {
      NeverQueuedAgain(journal, t, m, n - 1, i);
      QueuedStep(journal, t, n - 1, i);
    }
  }

  /** No two records take the same item. */
  lemma TakenOnce(journal: seq<Record>, t: seq<State>, i: nat, k: nat, l: nat)
    requires WorkTrace(journal, t) && TakenAt(journal, t, i, k) && TakenAt(journal, t, i, l)
    ensures k == l
  {
    if k < l {
      GoneAfter(journal, t, i, k, l);
    } else if l < k {
      GoneAfter(journal, t, i, l, k);
    }
  }

  lemma GoneAfter(journal: seq<Record>, t: seq<State>, i: nat, k: nat, l: nat)
    requires WorkTrace(journal, t) && TakenAt(journal, t, i, k) && k < l <= |journal|
    ensures i !in t[l].work
  {
    QueuedStep(journal, t, k, i);
    NeverQueuedAgain(journal, t, k + 1, l, i);
  }

  /** One record, and no other, takes an item. */
  ghost predicate TakenOnlyAt(journal: seq<Record>, t: seq<State>, i: nat, k: nat)
  {
    TakenAt(journal, t, i, k) && forall l :: TakenAt(journal, t, i, l) ==> l == k
  }

  lemma TakenOnlyHere(journal: seq<Record>, t: seq<State>, i: nat, k: nat)
    requires WorkTrace(journal, t) && TakenAt(journal, t, i, k)
    ensures TakenOnlyAt(journal, t, i, k)
  {
    forall l | TakenAt(journal, t, i, l) ensures l == k {
      TakenOnce(journal, t, i, k, l);
    }
  }

  // ---- reservations ----

  /** What becomes of reservations at each record of a journal. */
  ghost predicate PendingTrace(b: Pinned, journal: seq<Record>, t: seq<State>) {
    && |t| == |journal| + 1 && (forall k :: 0 <= k <= |journal| ==> WatermarksValid(b, t[k]))
    && (forall k, i :: 0 <= k <= |journal| && i in t[k].pending ==> i < t[k].arrivals)
    && (forall k :: 0 <= k < |journal| ==> t[k].arrivals <= t[k + 1].arrivals)
    && forall k :: 0 <= k < |journal| ==> PendingFate(b, t[k], journal[k], t[k + 1])
  }

  /** The k-th record publishes a reservation. */
  ghost predicate PublishedAt(b: Pinned, journal: seq<Record>, t: seq<State>, i: nat, k: nat)
  {
    && k < |journal| == |t| - 1 && WatermarksValid(b, t[k]) && i in t[k].pending
    && Publishes(b, t[k], journal[k], t[k].pending[i])
  }

  ghost predicate PublishedOnlyAt(b: Pinned, journal: seq<Record>, t: seq<State>, i: nat, k: nat)
  {
    PublishedAt(b, journal, t, i, k) && forall l :: PublishedAt(b, journal, t, i, l) ==> l == k
  }

  /** What becomes of a reservation at one record. */
  lemma PendingStep(b: Pinned, journal: seq<Record>, t: seq<State>, k: nat, i: nat)
    requires PendingTrace(b, journal, t) && k < |journal|
    ensures i in t[k].pending ==>
      (i in t[k + 1].pending <==> !PublishedAt(b, journal, t, i, k))
    ensures i in t[k].pending && i in t[k + 1].pending ==>
      t[k + 1].pending[i] == t[k].pending[i]
    ensures i < t[k].arrivals ==> i < t[k + 1].arrivals
    ensures i < t[k].arrivals && i !in t[k].pending ==>
      i !in t[k + 1].pending
  {
    assert PendingFate(b, t[k], journal[k], t[k + 1]) && t[k].arrivals <= t[k + 1].arrivals;
  }

  ghost predicate StillPending(b: Pinned, journal: seq<Record>, t: seq<State>, m: nat, n: nat, i: nat)
    requires m < |t| && n < |t| && i in t[m].pending
  {
    i in t[n].pending && t[n].pending[i] == t[m].pending[i]
  }

  /** A reservation stays pending, as it was, until a boundary publishes it. */
  lemma {:induction false} PendingUntilPublished(b: Pinned, journal: seq<Record>, t: seq<State>, m: nat, n: nat, i: nat)
    returns (k: nat)
    requires PendingTrace(b, journal, t) && m <= n <= |journal| && i in t[m].pending
    ensures i < t[n].arrivals && (StillPending(b, journal, t, m, n, i) || i !in t[n].pending)
    ensures i !in t[n].pending ==>
      m <= k < n && PublishedAt(b, journal, t, i, k) && StillPending(b, journal, t, m, k, i)
    decreases n
  {
    k := m;
    if m < n {
      k := PendingUntilPublished(b, journal, t, m, n - 1, i);
      PendingStep(b, journal, t, n - 1, i);
      if i in t[n - 1].pending {
        k := n - 1;
      }
    }
  }

  lemma {:induction false} NeverPendingAgain(b: Pinned, journal: seq<Record>, t: seq<State>, m: nat, n: nat, i: nat)
    requires PendingTrace(b, journal, t) && m <= n <= |journal|
    requires i < t[m].arrivals && i !in t[m].pending
    ensures i < t[n].arrivals && i !in t[n].pending
    decreases n
  {
    if m < n {
      NeverPendingAgain(b, journal, t, m, n - 1, i);
      PendingStep(b, journal, t, n - 1, i);
    }
  }

  lemma NotPendingAfter(b: Pinned, journal: seq<Record>, t: seq<State>, i: nat, k: nat, l: nat)
    requires PendingTrace(b, journal, t) && PublishedAt(b, journal, t, i, k) && k < l <= |journal|
    ensures i !in t[l].pending
  {
    PendingStep(b, journal, t, k, i);
    NeverPendingAgain(b, journal, t, k + 1, l, i);
  }

  /** No two boundaries publish the same reservation. */
  lemma PublishedOnce(b: Pinned, journal: seq<Record>, t: seq<State>, i: nat, k: nat, l: nat)
    requires PendingTrace(b, journal, t) && PublishedAt(b, journal, t, i, k) && PublishedAt(b, journal, t, i, l)
    ensures k == l
  {
    if k < l {
      NotPendingAfter(b, journal, t, i, k, l);
    } else if l < k {
      NotPendingAfter(b, journal, t, i, l, k);
    }
  }

  lemma PublishedOnlyHere(b: Pinned, journal: seq<Record>, t: seq<State>, i: nat, k: nat)
    requires PendingTrace(b, journal, t) && PublishedAt(b, journal, t, i, k)
    ensures PublishedOnlyAt(b, journal, t, i, k)
  {
    forall l | PublishedAt(b, journal, t, i, l) ensures l == k {
      PublishedOnce(b, journal, t, i, k, l);
    }
  }

  // ---- deadlines ----

  /** What becomes of deadlines at each record of a journal. */
  ghost predicate TimerTrace(journal: seq<Record>, t: seq<State>) {
    && |t| == |journal| + 1
    && (forall k, key :: 0 <= k <= |journal| && key in t[k].timers ==> key in t[k].used)
    && forall k :: 0 <= k < |journal| ==> TimerFate(t[k], journal[k], t[k + 1])
  }

  /** The k-th record ends a deadline. */
  ghost predicate EndedAt(journal: seq<Record>, t: seq<State>, key: TimerKey, k: nat)
  {
    && k < |journal| == |t| - 1 && key in t[k].timers
    && Ends(journal[k], key, t[k].timers[key])
  }

  /** What becomes of a deadline at one record. */
  lemma ActiveStep(journal: seq<Record>, t: seq<State>, k: nat, key: TimerKey)
    requires TimerTrace(journal, t) && k < |journal| && key in t[k].timers
    ensures key in t[k + 1].timers <==> !EndedAt(journal, t, key, k)
    ensures key in t[k + 1].timers ==>
      t[k + 1].timers[key] == t[k].timers[key]
  {
    assert TimerFate(t[k], journal[k], t[k + 1]);
  }

  ghost predicate StillActive(journal: seq<Record>, t: seq<State>, m: nat, n: nat, key: TimerKey)
    requires m < |t| && n < |t| && key in t[m].timers
  {
    key in t[n].timers && t[n].timers[key] == t[m].timers[key]
  }

  /** A deadline stays active, as it was set, until it comes or is canceled. */
  lemma {:induction false} ActiveUntilEnded(journal: seq<Record>, t: seq<State>, m: nat, n: nat, key: TimerKey)
    returns (k: nat)
    requires TimerTrace(journal, t) && m <= n <= |journal| && key in t[m].timers
    ensures StillActive(journal, t, m, n, key) || key !in t[n].timers
    ensures key !in t[n].timers ==>
      m <= k < n && EndedAt(journal, t, key, k) && StillActive(journal, t, m, k, key)
    decreases n
  {
    k := m;
    if m < n {
      k := ActiveUntilEnded(journal, t, m, n - 1, key);
      if key in t[n - 1].timers {
        ActiveStep(journal, t, n - 1, key);
        k := n - 1;
      } else {
        NeverActiveAgain(journal, t, k, n - 1, key);
      }
    }
  }

  /** A deadline once gone is not set again. */
  lemma NeverActiveAgain(journal: seq<Record>, t: seq<State>, k: nat, l: nat, key: TimerKey)
    requires TimerTrace(journal, t) && k <= l < |journal|
    requires key in t[k].timers && key !in t[l].timers
    ensures key !in t[l + 1].timers
  {
    StaysUsed(journal, t, k, l, key);
    assert TimerFate(t[l], journal[l], t[l + 1]);
  }

  lemma {:induction false} StaysUsed(journal: seq<Record>, t: seq<State>, k: nat, l: nat, key: TimerKey)
    requires TimerTrace(journal, t) && k <= l <= |journal| && key in t[k].used
    ensures key in t[l].used
    decreases l
  {
    if k < l {
      StaysUsed(journal, t, k, l - 1, key);
      assert TimerFate(t[l - 1], journal[l - 1], t[l]);
    }
  }

  // ---- whole journals ----

  /** Along it, every queue changes record by record as told. */
  lemma TraceFates(b: Pinned, journal: seq<Record>, t: seq<State>)
    requires PinnedValid(b) && Trace(b, journal, t)
    ensures WorkTrace(journal, t) && PendingTrace(b, journal, t) && TimerTrace(journal, t)
  {
    TraceLength(b, journal, t);
    forall k | 0 <= k <= |journal| ensures WatermarksValid(b, t[k]) && Counted(t[k]) {
      TraceAt(b, journal, t, k);
      CountedValid(b, t[k]);
    }
    forall k | 0 <= k < |journal| ensures WorkFate(t[k], journal[k], t[k + 1]) {
      FateAt(b, journal, t, k);
    }
    TracePending(b, journal, t);
    TraceTimers(b, journal, t);
  }

  lemma TraceLength(b: Pinned, journal: seq<Record>, t: seq<State>)
    requires PinnedValid(b) && Trace(b, journal, t)
    ensures |t| == |journal| + 1
  {
  }

  lemma TracePending(b: Pinned, journal: seq<Record>, t: seq<State>)
    requires PinnedValid(b) && Trace(b, journal, t) && |t| == |journal| + 1
    requires forall k :: 0 <= k <= |journal| ==> WatermarksValid(b, t[k]) && Counted(t[k])
    ensures PendingTrace(b, journal, t)
  {
    forall k | 0 <= k < |journal|
      ensures t[k].arrivals <= t[k + 1].arrivals && PendingFate(b, t[k], journal[k], t[k + 1])
    {
      FateAt(b, journal, t, k);
    }
  }

  lemma TraceTimers(b: Pinned, journal: seq<Record>, t: seq<State>)
    requires PinnedValid(b) && Trace(b, journal, t) && |t| == |journal| + 1
    requires forall k :: 0 <= k <= |journal| ==> Counted(t[k])
    ensures TimerTrace(journal, t)
  {
    forall k | 0 <= k < |journal| ensures TimerFate(t[k], journal[k], t[k + 1]) {
      FateAt(b, journal, t, k);
    }
  }

  /** Numbers in use have been given out, and so have timer identities. */
  ghost predicate Counted(s: State) {
    && (forall i :: i in s.work ==> i < s.arrivals) && (forall i :: i in s.pending ==> i < s.arrivals)
    && forall key :: key in s.timers ==> key in s.used
  }

  lemma CountedValid(b: Pinned, s: State)
    requires StateValid(b, s)
    ensures Counted(s)
  {
  }

  lemma FateAt(b: Pinned, journal: seq<Record>, t: seq<State>, k: nat)
    requires PinnedValid(b) && Trace(b, journal, t) && k < |journal|
    ensures |t| == |journal| + 1 && WatermarksValid(b, t[k]) && Fate(b, t[k], journal[k], t[k + 1])
  {
    TraceAt(b, journal, t, k);
    RecordFate(b, t[k], journal[k], t[k + 1]);
  }

  /** An item once queued is queued still, as it was, or exactly one wave took it. */
  lemma ExactlyOnce(b: Pinned, journal: seq<Record>, t: seq<State>, m: nat, i: nat)
    requires PinnedValid(b) && Trace(b, journal, t) && m <= |journal| && i in t[m].work
    ensures i in t[|journal|].work <==> !exists k :: TakenAt(journal, t, i, k)
    ensures i in t[|journal|].work ==> t[|journal|].work[i] == t[m].work[i]
    ensures i !in t[|journal|].work ==> exists k :: m <= k && TakenOnlyAt(journal, t, i, k)
  {
    TraceFates(b, journal, t);
    var k := QueuedUntilTaken(journal, t, m, |journal|, i);
    if i !in t[|journal|].work {
      TakenOnlyHere(journal, t, i, k);
    } else if l :| TakenAt(journal, t, i, l) {
      GoneAfter(journal, t, i, l, |journal|);
    }
  }

  /** A reservation once made is pending still, as it was, or exactly one boundary published it. */
  lemma PublishedExactlyOnce(b: Pinned, journal: seq<Record>, t: seq<State>, m: nat, i: nat)
    requires PinnedValid(b) && Trace(b, journal, t) && m <= |journal| && i in t[m].pending
    ensures i in t[|journal|].pending <==> !exists k :: PublishedAt(b, journal, t, i, k)
    ensures i in t[|journal|].pending ==> t[|journal|].pending[i] == t[m].pending[i]
    ensures i !in t[|journal|].pending ==> exists k :: m <= k && PublishedOnlyAt(b, journal, t, i, k)
  {
    TraceFates(b, journal, t);
    var k := PendingUntilPublished(b, journal, t, m, |journal|, i);
    if i !in t[|journal|].pending {
      PublishedOnlyHere(b, journal, t, i, k);
    } else if l :| PublishedAt(b, journal, t, i, l) {
      NotPendingAfter(b, journal, t, i, l, |journal|);
    }
  }

  lemma SettledAt(b: Pinned, journal: seq<Record>, t: seq<State>, n: nat)
    requires PinnedValid(b) && Trace(b, journal, t) && n < |journal| && journal[n].Seal?
    ensures forall i :: i in t[n].work ==> t[n].work[i].eligible.ns > journal[n].physicalNs
    ensures forall i :: i in t[n].pending ==> t[n].pending[i].boundary > journal[n].physicalNs
    ensures forall key :: key in t[n].timers ==> t[n].timers[key].ns > journal[n].physicalNs
  {
    TraceAt(b, journal, t, n);
    SealAccepted(b, t[n], journal[n], t[n + 1]);
  }

  /** By the time a time is sealed, exactly one wave has called the recipient with each item due by then. */
  lemma TakenBySeal(b: Pinned, journal: seq<Record>, t: seq<State>, m: nat, n: nat, i: nat) returns (k: nat)
    requires PinnedValid(b) && Trace(b, journal, t) && m <= n < |journal| && journal[n].Seal?
    requires i in t[m].work && t[m].work[i].eligible.ns <= journal[n].physicalNs
    ensures m <= k < n && CalledWith(journal, t, i, t[m].work[i], k)
  {
    TraceFates(b, journal, t);
    SettledAt(b, journal, t, n);
    k := QueuedUntilTaken(journal, t, m, n, i);
    TakenOnlyHere(journal, t, i, k);
  }

  /** One wave, and no other, has called an item's recipient with it, when it was due. */
  ghost predicate CalledWith(journal: seq<Record>, t: seq<State>, i: nat, item: WorkItem, k: nat)
  {
    && TakenOnlyAt(journal, t, i, k) && journal[k].Invocations?
    && item.recipient in journal[k].selected && AtMost(item.eligible, journal[k].at)
  }

  /** By the time its boundary is sealed, exactly one boundary record has published a reservation, as one item for its
      target. */
  lemma PublishedBySeal(b: Pinned, journal: seq<Record>, t: seq<State>, m: nat, n: nat, i: nat) returns (k: nat)
    requires PinnedValid(b) && Trace(b, journal, t) && m <= n < |journal| && journal[n].Seal?
    requires i in t[m].pending && t[m].pending[i].boundary <= journal[n].physicalNs
    ensures m <= k < n && Becomes(b, journal, t, i, t[m].pending[i], k)
  {
    TraceFates(b, journal, t);
    SettledAt(b, journal, t, n);
    k := PendingUntilPublished(b, journal, t, m, n, i);
    PublishedOnlyHere(b, journal, t, i, k);
    TraceAt(b, journal, t, k);
    PublishedExactly(b, t[k], journal[k].at, journal[k].notices, t[k + 1], i);
  }

  /** One boundary record, and no other, has made an item of a reservation. */
  ghost predicate Becomes(b: Pinned, journal: seq<Record>, t: seq<State>, i: nat, r: Reservation, k: nat)
  {
    && PublishedOnlyAt(b, journal, t, i, k) && journal[k].BoundaryRecord?
    && var j := Place(b, t[k], journal[k].at, i);
    j in t[k + 1].work && j !in t[k].work && PublishedAs(b, r, journal[k].at, t[k + 1].work[j])
  }

  /** The earliest time a live request may be published. */
  ghost predicate PublishableFirst(s: State, r: Request, ns: nat)
    requires r.stream in s.watermarks
  {
    Publishable(s, r, ns) && forall earlier: nat :: Publishable(s, r, earlier) ==> ns <= earlier
  }

  /** A live request that is admitted, and the earliest time it may be published. */
  ghost predicate Admits(s: State, record: Record, ns: nat) {
    && record.LiveIngress? && record.request.stream in s.watermarks
    && !(Late(s, record.request) && record.request.reject) && PublishableFirst(s, record.request, ns)
  }

  /** What an admitted request asks for: its target, for its own instant or the time of its publication, whichever is
      later. */
  function Asked(r: Request, ns: nat): Reservation {
    CommandAt(ns, r.target, Later(r.at, Instant(ns, 0)))
  }

  lemma AdmittedAt(b: Pinned, journal: seq<Record>, t: seq<State>, m: nat, ns: nat)
    requires PinnedValid(b) && Trace(b, journal, t) && m < |journal| && Admits(t[m], journal[m], ns)
    ensures t[m].arrivals in t[m + 1].pending && t[m + 1].pending[t[m].arrivals] == Asked(journal[m].request, ns)
  {
    TraceAt(b, journal, t, m);
    AdmittedFor(b, t[m], journal[m], t[m + 1], ns);
  }

  lemma AdmittedFor(b: Pinned, s: State, record: Record, next: State, ns: nat)
    requires PinnedValid(b) && StateValid(b, s) && Replayed(b, s, record) == Some(next) && Admits(s, record, ns)
    ensures s.arrivals in next.pending && next.pending[s.arrivals] == Asked(record.request, ns)
  {
    AdmittedExactly(b, s, record.request);
  }

  /** Once the time at which a published reservation arrives is sealed, exactly one wave has called its target with
      it. */
  lemma CalledBySeal(b: Pinned, journal: seq<Record>, t: seq<State>, i: nat, r: Reservation, k: nat, n: nat)
    returns (l: nat)
    requires PinnedValid(b) && Trace(b, journal, t) && k < n < |journal| && journal[n].Seal?
    requires Becomes(b, journal, t, i, r, k)
    ensures var item := t[k + 1].work[Place(b, t[k], journal[k].at, i)];
      item.eligible.ns <= journal[n].physicalNs ==>
        k < l < n && CalledWith(journal, t, Place(b, t[k], journal[k].at, i), item, l)
  {
    l := k;
    var j := Place(b, t[k], journal[k].at, i);
    if t[k + 1].work[j].eligible.ns <= journal[n].physicalNs {
      l := TakenBySeal(b, journal, t, k + 1, n, j);
    }
  }

  /** A live command that is not rejected is reserved for the earliest time it may be published. Once that time is
      sealed, exactly one boundary has published it, as one item for its target; and once the time of that item is
      sealed, exactly one wave has called the target with it. */
  lemma CommandDelivered(b: Pinned, journal: seq<Record>, t: seq<State>, m: nat, n: nat, ns: nat)
    returns (k: nat, l: nat)
    requires PinnedValid(b) && Trace(b, journal, t) && m < n < |journal| && journal[n].Seal?
    requires Admits(t[m], journal[m], ns) && ns <= journal[n].physicalNs
    ensures m < k < n && Becomes(b, journal, t, t[m].arrivals, Asked(journal[m].request, ns), k)
    ensures var j := Place(b, t[k], journal[k].at, t[m].arrivals);
      t[k + 1].work[j].eligible.ns <= journal[n].physicalNs ==>
        k < l < n && CalledWith(journal, t, j, t[k + 1].work[j], l)
  {
    AdmittedAt(b, journal, t, m, ns);
    k := PublishedBySeal(b, journal, t, m + 1, n, t[m].arrivals);
    l := CalledBySeal(b, journal, t, t[m].arrivals, Asked(journal[m].request, ns), k, n);
  }

  /** By the time its instant is sealed, a partition timer has fired, as one item for its partition, or was canceled
      before. */
  lemma FiredBySeal(b: Pinned, journal: seq<Record>, t: seq<State>, m: nat, n: nat, key: TimerKey) returns (k: nat)
    requires PinnedValid(b) && Trace(b, journal, t) && m <= n < |journal| && journal[n].Seal?
    requires key in t[m].timers && key.PartitionTimer? && key.partition in b.partitions
    requires t[m].timers[key].ns <= journal[n].physicalNs
    ensures m <= k < n
    ensures (journal[k].Transaction? && CancelTimer(key) in journal[k].effects) || Rings(b, journal, t, key, k)
  {
    TraceFates(b, journal, t);
    SettledAt(b, journal, t, n);
    k := ActiveUntilEnded(journal, t, m, n, key);
    if journal[k].BoundaryRecord? {
      TraceAt(b, journal, t, k);
      FiredExactly(b, t[k], journal[k].at, journal[k].notices, t[k + 1], key);
    }
  }

  /** A boundary record has made an item of a partition timer that had come. */
  ghost predicate Rings(b: Pinned, journal: seq<Record>, t: seq<State>, key: TimerKey, k: nat)
  {
    && k < |journal| == |t| - 1 && WatermarksValid(b, t[k]) && journal[k].BoundaryRecord?
    && key in Alarms(b, t[k], journal[k].at)
    && Notified(b, t[k], journal[k].at, key, t[k + 1], AlarmPlace(b, t[k], journal[k].at, key))
  }
}
