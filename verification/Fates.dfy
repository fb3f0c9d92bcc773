/** What becomes of every queued item, reservation and deadline at each record: it goes for one reason only, and stays
    otherwise. */
module Fates {
  import opened Batches
  import opened Calls
  import opened Ingress
  import opened Listing
  import opened NativeGrid
  import opened Replay
  import opened RunState
  import opened Time
  import opened Timers

  /** A wave takes an item: it reacts or samples, it calls the recipient, and the item is due. */
  predicate Takes(record: Record, item: WorkItem) {
    && record.Invocations? && (record.phase.ReactPhase? || record.phase.SamplePhase?)
    && item.recipient in record.selected && AtMost(item.eligible, record.at)
  }

  /** A boundary publishes a reservation: it has come, and its target is closed to it. */
  ghost predicate Publishes(b: Pinned, s: State, record: Record, r: Reservation)
    requires WatermarksValid(b, s)
  {
    record.BoundaryRecord? && r.boundary <= record.at.ns && ClosedTo(b, s, r.target, record.at.ns)
  }

  /** A deadline ends: a boundary comes to it, or a transaction cancels it. */
  ghost predicate Ends(record: Record, key: TimerKey, due: Instant) {
    || (record.BoundaryRecord? && AtMost(due, record.at))
    || (record.Transaction? && CancelTimer(key) in record.effects)
  }

  ghost predicate WorkFate(s: State, record: Record, next: State) {
    && s.arrivals <= next.arrivals
    && (forall i :: i in s.work ==> (i in next.work <==> !Takes(record, s.work[i])))
    && (forall i :: i in s.work && i in next.work ==> next.work[i] == s.work[i])
    && forall i :: i in next.work && i !in s.work ==>
      s.arrivals <= i < next.arrivals && (record.Transaction? || record.BoundaryRecord?)
  }

  predicate Requests(record: Record) {
    record.LiveIngress? || record.Submission? || record.Cancellation?
  }

  ghost predicate PendingFate(b: Pinned, s: State, record: Record, next: State)
    requires WatermarksValid(b, s)
  {
    && (forall i :: i in s.pending ==> (i in next.pending <==> !Publishes(b, s, record, s.pending[i])))
    && (forall i :: i in s.pending && i in next.pending ==> next.pending[i] == s.pending[i])
    && forall i :: i in next.pending && i !in s.pending ==> i == s.arrivals < next.arrivals && Requests(record)
  }

  ghost predicate TimerFate(s: State, record: Record, next: State) {
    && (forall key :: key in s.timers ==> (key in next.timers <==> !Ends(record, key, s.timers[key])))
    && (forall key :: key in s.timers && key in next.timers ==> next.timers[key] == s.timers[key])
    && s.used <= next.used
    && forall key :: key in next.timers && key !in s.timers ==>
      record.Transaction? && key !in s.used && ScheduleTimer(key, next.timers[key]) in record.effects
  }

  ghost predicate Fate(b: Pinned, s: State, record: Record, next: State)
    requires WatermarksValid(b, s)
  {
    WorkFate(s, record, next) && PendingFate(b, s, record, next) && TimerFate(s, record, next)
  }

  lemma InvokedFate(b: Pinned, s: State, record: Record, next: State)
    requires PinnedValid(b) && StateValid(b, s) && record.Invocations? && Replayed(b, s, record) == Some(next)
    ensures Fate(b, s, record, next)
  {
    assert next == Calling(b, s, record.selected, record.at, record.phase);
  }

  /** A deadline that was active goes only by being canceled: its identity is never scheduled again. */
  lemma {:induction false} DeadlineGoes(b: Pinned, s: State, at: Instant, effects: seq<Effect>, key: TimerKey)
    requires Lawful(b, s, at, effects) && key in s.timers && key in s.used
    ensures DeadlineAfter(s.timers, effects, key) ==
      if CancelTimer(key) in effects then None else Some(s.timers[key])
    decreases |effects|
  {
    if effects != [] {
      var n := |effects| - 1;
      LawfulLast(b, s, at, effects);
      DeadlineGoes(b, s, at, effects[..n], key);
      assert Allowed(b, s, at, effects, n);
      assert effects == effects[..n] + [effects[n]];
    }
  }

  /** A deadline that is new was scheduled by the batch. */
  lemma {:induction false} DeadlineComes(b: Pinned, s: State, at: Instant, effects: seq<Effect>, key: TimerKey)
    requires Lawful(b, s, at, effects) && key !in s.timers && DeadlineAfter(s.timers, effects, key).Some?
    ensures key !in s.used && ScheduleTimer(key, DeadlineAfter(s.timers, effects, key).value) in effects
    decreases |effects|
  {
    if effects != [] {
      var n := |effects| - 1;
      LawfulLast(b, s, at, effects);
      assert effects[n] in effects && Allowed(b, s, at, effects, n);
      if !(effects[n].ScheduleTimer? && effects[n].key == key) {
        DeadlineComes(b, s, at, effects[..n], key);
        assert effects == effects[..n] + [effects[n]];
      }
    }
  }

  /** A transaction adds exactly what its batch says, and moves the frontiers of its calls. */
  lemma TransactionExactly(b: Pinned, s: State, at: Instant, effects: seq<Effect>, next: State)
    requires PinnedValid(b) && StateValid(b, s) && Replayed(b, s, Transaction(at, effects)) == Some(next)
    ensures next.frontiers == s.frontiers + s.intents && next.intents == map[] && next.cut == NextCut(s, at)
    ensures next.pending == s.pending && Gains(b, s.work, s.arrivals, next.work, next.arrivals, Emits(effects), at)
    ensures Lawful(b, s, at, effects) && Sets(s, effects, next)
  {
    var merged := s.(cut := NextCut(s, at), frontiers := s.frontiers + s.intents, intents := map[]);
    BatchExactly(b, merged, at, effects);
    assert Lawful(b, merged, at, effects) && Applied(b, merged, at, effects, next);
    forall k | 0 <= k < |effects| ensures Allowed(b, s, at, effects, k) {
      assert Allowed(b, merged, at, effects, k);
    }
  }

  lemma TransactionFate(b: Pinned, s: State, record: Record, next: State)
    requires PinnedValid(b) && StateValid(b, s) && record.Transaction? && Replayed(b, s, record) == Some(next)
    ensures Fate(b, s, record, next)
  {
    TransactionExactly(b, s, record.at, record.effects, next);
    TransactionTimers(b, s, record, next);
  }

  lemma TransactionTimers(b: Pinned, s: State, record: Record, next: State)
    requires StateValid(b, s) && record.Transaction? && Lawful(b, s, record.at, record.effects)
    requires Sets(s, record.effects, next)
    ensures TimerFate(s, record, next)
  {
    forall key | key in s.timers
      ensures key in next.timers <==> !Ends(record, key, s.timers[key])
      ensures key in next.timers ==> next.timers[key] == s.timers[key]
    {
      DeadlineGoes(b, s, record.at, record.effects, key);
    }
    forall key | key in next.timers && key !in s.timers
      ensures key !in s.used && ScheduleTimer(key, next.timers[key]) in record.effects
    {
      DeadlineComes(b, s, record.at, record.effects, key);
    }
  }

  /** A boundary queues what it publishes, then what it fires, then the notices, and nothing else. */
  lemma BoundaryExactly(b: Pinned, s: State, at: Instant, notices: seq<Effect>, next: State)
    requires PinnedValid(b) && StateValid(b, s) && Replayed(b, s, BoundaryRecord(at, notices)) == Some(next)
    ensures next == Consumed(b, s, at).(work := next.work, arrivals := next.arrivals)
    ensures Gains(b, s.work, s.arrivals, next.work, next.arrivals, Published(b, s, at) + notices, at)
  {
    var left, all := Consumed(b, s, at), Published(b, s, at) + notices;
    forall k | 0 <= k < |all| ensures all[k].Emit? { }
    BatchExactly(b, left, at, all);
    EmitsAll(all);
    NoDeadlines(left, all, next);
  }

  /** What is published becomes one item for its target: under its own number, eligible at the earliest instant after
      the boundary that its request and the target's lag and grid allow. */
  lemma PublishedExactly(b: Pinned, s: State, at: Instant, notices: seq<Effect>, next: State, i: nat)
    requires PinnedValid(b) && StateValid(b, s) && Replayed(b, s, BoundaryRecord(at, notices)) == Some(next)
    requires i in s.pending && Publishes(b, s, BoundaryRecord(at, notices), s.pending[i])
    ensures Place(b, s, at, i) in next.work && Place(b, s, at, i) !in s.work
    ensures PublishedAs(b, s.pending[i], at, next.work[Place(b, s, at, i)])
  {
    BoundaryGains(b, s, at, notices, next);
    GainedPublished(b, s, at, notices, next, i);
  }

  lemma GainedPublished(b: Pinned, s: State, at: Instant, notices: seq<Effect>, next: State, i: nat)
    requires StateValid(b, s) && i in s.pending && Publishes(b, s, BoundaryRecord(at, notices), s.pending[i])
    requires Gains(b, s.work, s.arrivals, next.work, next.arrivals,
                   Publications(b, s, at) + Notifications(b, s, at) + notices, at)
    ensures Place(b, s, at, i) in next.work && Place(b, s, at, i) !in s.work
    ensures PublishedAs(b, s.pending[i], at, next.work[Place(b, s, at, i)])
  {
    var k := PlaceOf(b, s, at, notices, i);
    PublishedGains(b, s, at, next, Publications(b, s, at), Notifications(b, s, at), notices, s.pending[i], k);
  }

  lemma PublishedGains(b: Pinned, s: State, at: Instant, next: State, published: seq<Effect>, notified: seq<Effect>,
                       notices: seq<Effect>, r: Reservation, k: nat)
    requires QueuesValid(b, s) && r.target in b.partitions
    requires Gains(b, s.work, s.arrivals, next.work, next.arrivals, published + notified + notices, at)
    requires k < |published| && published[k] == Publication(b, r, at)
    ensures s.arrivals + k in next.work && s.arrivals + k !in s.work
    ensures PublishedAs(b, r, at, next.work[s.arrivals + k])
  {
    assert (published + notified + notices)[k] == published[k];
    GainedAt(b, s, next, at, published + notified + notices, k);
  }

  lemma GainedAt(b: Pinned, s: State, next: State, at: Instant, effects: seq<Effect>, k: nat)
    requires Gains(b, s.work, s.arrivals, next.work, next.arrivals, effects, at) && k < |effects|
    requires QueuesValid(b, s)
    ensures s.arrivals + k in next.work && s.arrivals + k !in s.work
    ensures Carries(b, next.work[s.arrivals + k], effects[k], at)
  {
  }

  lemma PlaceOf(b: Pinned, s: State, at: Instant, notices: seq<Effect>, i: nat) returns (k: nat)
    requires StateValid(b, s) && i in s.pending && Publishes(b, s, BoundaryRecord(at, notices), s.pending[i])
    ensures Place(b, s, at, i) == s.arrivals + k && k < |Publications(b, s, at)|
    ensures Publications(b, s, at)[k] == Publication(b, s.pending[i], at)
  {
    SafeIsClosed(b, s, s.pending[i].target, at.ns);
    var due := Numbered(Consumable(b, s, at));
    assert i in due;
    k :| 0 <= k < |due| && due[k] == i;
    NumberedByRank(Consumable(b, s, at), k);
    DueIsConsumable(b, s, at);
  }

  /** The reservations a boundary publishes. */
  ghost function Due(b: Pinned, s: State, at: Instant): set<nat>
    requires WatermarksValid(b, s)
  {
    set i | i in s.pending && s.pending[i].boundary <= at.ns && ClosedTo(b, s, s.pending[i].target, at.ns)
  }

  /** The number of what a reservation becomes: those published with it and reserved before it come first. */
  ghost function Place(b: Pinned, s: State, at: Instant, i: nat): nat
    requires WatermarksValid(b, s)
  {
    s.arrivals + Rank(Due(b, s, at), i)
  }

  lemma DueIsConsumable(b: Pinned, s: State, at: Instant)
    requires WatermarksValid(b, s)
    ensures Due(b, s, at) == Consumable(b, s, at)
  {
    forall i | i in s.pending
      ensures s.pending[i].target in Safe(b, s, at.ns) <==> ClosedTo(b, s, s.pending[i].target, at.ns)
    {
      SafeIsClosed(b, s, s.pending[i].target, at.ns);
    }
  }

  ghost predicate PublishedAs(b: Pinned, r: Reservation, at: Instant, item: WorkItem) {
    && item.recipient == r.target && r.target in b.partitions
    && Arrives(b.partitions[r.target].timing, if r.CommandAt? then r.at else at, at, b.partitions[r.target].lag,
      item.eligible)
  }

  /** The partition timers a boundary fires. */
  ghost function Alarms(b: Pinned, s: State, at: Instant): set<TimerKey> {
    set key | key in s.timers && key.PartitionTimer? && key.partition in b.partitions && AtMost(s.timers[key], at)
  }

  /** The number of what a partition timer becomes: what is published comes first, then timers by name. */
  ghost function AlarmPlace(b: Pinned, s: State, at: Instant, key: TimerKey): nat
    requires WatermarksValid(b, s) && key.PartitionTimer?
  {
    s.arrivals + |Due(b, s, at)| + NameRank(Alarms(b, s, at), key)
  }

  /** A partition timer that fires becomes one item for its partition, for the instant it was due. */
  lemma FiredExactly(b: Pinned, s: State, at: Instant, notices: seq<Effect>, next: State, key: TimerKey)
    requires PinnedValid(b) && StateValid(b, s) && Replayed(b, s, BoundaryRecord(at, notices)) == Some(next)
    requires key in Alarms(b, s, at)
    ensures Notified(b, s, at, key, next, AlarmPlace(b, s, at, key))
  {
    BoundaryGains(b, s, at, notices, next);
    GainedFired(b, s, at, notices, next, key);
  }

  lemma GainedFired(b: Pinned, s: State, at: Instant, notices: seq<Effect>, next: State, key: TimerKey)
    requires StateValid(b, s) && key in Alarms(b, s, at)
    requires Gains(b, s.work, s.arrivals, next.work, next.arrivals,
                   Publications(b, s, at) + Notifications(b, s, at) + notices, at)
    ensures Notified(b, s, at, key, next, AlarmPlace(b, s, at, key))
  {
    var k := AlarmsAfterDue(b, s, at, key);
    NotifiedGains(b, s, at, next, Publications(b, s, at), Notifications(b, s, at), notices, key, k);
  }

  lemma BoundaryGains(b: Pinned, s: State, at: Instant, notices: seq<Effect>, next: State)
    requires PinnedValid(b) && StateValid(b, s) && Replayed(b, s, BoundaryRecord(at, notices)) == Some(next)
    ensures Gains(b, s.work, s.arrivals, next.work, next.arrivals,
                  Publications(b, s, at) + Notifications(b, s, at) + notices, at)
  {
    BoundaryExactly(b, s, at, notices, next);
  }

  lemma AlarmsAfterDue(b: Pinned, s: State, at: Instant, key: TimerKey) returns (k: nat)
    requires WatermarksValid(b, s) && key in Alarms(b, s, at)
    ensures k < |Notifications(b, s, at)| && Notifications(b, s, at)[k] == Emit(key.partition, s.timers[key], 0)
    ensures AlarmPlace(b, s, at, key) == s.arrivals + |Publications(b, s, at)| + k
  {
    DueIsConsumable(b, s, at);
    NumberedAll(Consumable(b, s, at));
    k := NotifiedAt(b, s, at, key);
  }

  ghost predicate Notified(b: Pinned, s: State, at: Instant, key: TimerKey, next: State, j: nat)
    requires key in Alarms(b, s, at)
  {
    && j in next.work && j !in s.work && next.work[j].recipient == key.partition
    && Arrives(b.partitions[key.partition].timing, s.timers[key], at, 0, next.work[j].eligible)
  }

  lemma NotifiedGains(b: Pinned, s: State, at: Instant, next: State, published: seq<Effect>, notified: seq<Effect>,
                      notices: seq<Effect>, key: TimerKey, k: nat)
    requires QueuesValid(b, s) && key in Alarms(b, s, at)
    requires Gains(b, s.work, s.arrivals, next.work, next.arrivals, published + notified + notices, at)
    requires k < |notified| && notified[k] == Emit(key.partition, s.timers[key], 0)
    ensures Notified(b, s, at, key, next, s.arrivals + |published| + k)
  {
    assert (published + notified + notices)[|published| + k] == notified[k];
    GainedAt(b, s, next, at, published + notified + notices, |published| + k);
  }

  lemma NotifiedAt(b: Pinned, s: State, at: Instant, key: TimerKey) returns (k: nat)
    requires key in Alarms(b, s, at)
    ensures k == NameRank(Alarms(b, s, at), key)
    ensures k < |Notifications(b, s, at)| && Notifications(b, s, at)[k] == Emit(key.partition, s.timers[key], 0)
  {
    assert Firing(b, s, at) == Alarms(b, s, at);
    var fired := Named(Firing(b, s, at));
    assert key in fired;
    k :| 0 <= k < |fired| && fired[k] == key;
    NamedByRank(Firing(b, s, at), k);
  }

  lemma NoDeadlines(s: State, effects: seq<Effect>, next: State)
    requires Sets(s, effects, next) && forall k :: 0 <= k < |effects| ==> effects[k].Emit?
    ensures next.timers == s.timers && next.used == s.used
  {
    forall key ensures DeadlineAfter(s.timers, effects, key) == if key in s.timers then Some(s.timers[key]) else None {
      DeadlineKept(s.timers, effects, key);
    }
    assert next.used == s.used;
  }

  lemma {:induction false} DeadlineKept(timers: map<TimerKey, Instant>, effects: seq<Effect>, key: TimerKey)
    requires forall k :: 0 <= k < |effects| ==> effects[k].Emit?
    ensures DeadlineAfter(timers, effects, key) == if key in timers then Some(timers[key]) else None
    decreases |effects|
  {
    if effects != [] {
      DeadlineKept(timers, effects[..|effects| - 1], key);
    }
  }

  lemma BoundaryFate(b: Pinned, s: State, record: Record, next: State)
    requires PinnedValid(b) && StateValid(b, s) && record.BoundaryRecord? && Replayed(b, s, record) == Some(next)
    ensures Fate(b, s, record, next)
  {
    BoundaryExactly(b, s, record.at, record.notices, next);
    forall i | i in s.pending ensures i in Consumable(b, s, record.at) <==> Publishes(b, s, record, s.pending[i]) {
      SafeIsClosed(b, s, s.pending[i].target, record.at.ns);
    }
  }

  lemma RequestFate(b: Pinned, s: State, record: Record, next: State)
    requires PinnedValid(b) && StateValid(b, s) && Requests(record) && Replayed(b, s, record) == Some(next)
    ensures Fate(b, s, record, next)
  {
    if record.LiveIngress? {
      AdmitFate(b, s, record.request, next);
    } else if record.Submission? {
      SubmitFate(b, s, record.target, record.at, record.ingressAt, next);
    } else {
      CancelFate(b, s, record.target, record.granted, next);
    }
  }

  /** Only reservations and their number change. */
  ghost predicate Adds(s: State, next: State) {
    && next == s.(cut := next.cut, pending := next.pending, arrivals := next.arrivals)
    && ((next.pending == s.pending && next.arrivals == s.arrivals)
        || (next.arrivals == s.arrivals + 1 && s.arrivals in next.pending
            && next.pending == s.pending[s.arrivals := next.pending[s.arrivals]]))
  }

  lemma AddsFate(b: Pinned, s: State, record: Record, next: State)
    requires StateValid(b, s) && Requests(record) && Adds(s, next)
    ensures Fate(b, s, record, next)
  {
  }

  lemma AdmitFate(b: Pinned, s: State, r: Request, next: State)
    requires StateValid(b, s) && Reserved(b, s, r) == Some(next)
    ensures Adds(s, next) && Fate(b, s, LiveIngress(r), next)
  {
    assert Adds(s, next);
    AddsFate(b, s, LiveIngress(r), next);
  }

  lemma SubmitFate(b: Pinned, s: State, target: string, at: Instant, ingressAt: Option<nat>, next: State)
    requires StateValid(b, s) && Submitted(b, s, target, at, ingressAt) == Some(next)
    ensures Adds(s, next) && Fate(b, s, Submission(target, at, ingressAt), next)
  {
    assert Adds(s, next);
    AddsFate(b, s, Submission(target, at, ingressAt), next);
  }

  lemma CancelFate(b: Pinned, s: State, target: string, granted: bool, next: State)
    requires StateValid(b, s) && CancelReserved(b, s, target, granted) == Some(next)
    ensures Adds(s, next) && Fate(b, s, Cancellation(target, granted), next)
  {
    assert Adds(s, next);
    AddsFate(b, s, Cancellation(target, granted), next);
  }

  lemma ControlFate(b: Pinned, s: State, record: Record, next: State)
    requires PinnedValid(b) && StateValid(b, s) && Replayed(b, s, record) == Some(next)
    requires record.Watermark? || record.SourceProgress? || record.RunLimit? || record.Seal? || record.FaultRecord?
    ensures Fate(b, s, record, next)
  {
    ControlKeepsQueues(b, s, record, next);
    KeptFate(b, s, record, next);
  }

  /** Controls, seals and faults leave every queue alone. */
  ghost predicate KeepsQueues(s: State, next: State) {
    && next.work == s.work && next.pending == s.pending && next.timers == s.timers && next.used == s.used
    && next.arrivals == s.arrivals
  }

  lemma ControlKeepsQueues(b: Pinned, s: State, record: Record, next: State)
    requires PinnedValid(b) && StateValid(b, s) && Replayed(b, s, record) == Some(next)
    requires record.Watermark? || record.SourceProgress? || record.RunLimit? || record.Seal? || record.FaultRecord?
    ensures KeepsQueues(s, next)
  {
  }

  lemma KeptFate(b: Pinned, s: State, record: Record, next: State)
    requires WatermarksValid(b, s) && KeepsQueues(s, next)
    requires record.Watermark? || record.SourceProgress? || record.RunLimit? || record.Seal? || record.FaultRecord?
    ensures Fate(b, s, record, next)
  {
  }

  /** Every record: an item leaves the queue exactly when a wave takes it, a reservation exactly when a boundary
      publishes it, a deadline exactly when it comes or is canceled; what is new has a new number. */
  lemma RecordFate(b: Pinned, s: State, record: Record, next: State)
    requires PinnedValid(b) && StateValid(b, s) && Replayed(b, s, record) == Some(next)
    ensures Fate(b, s, record, next)
  {
    if record.Invocations? {
      InvokedFate(b, s, record, next);
    } else if record.Transaction? {
      TransactionFate(b, s, record, next);
    } else if record.BoundaryRecord? {
      BoundaryFate(b, s, record, next);
    } else if Requests(record) {
      RequestFate(b, s, record, next);
    } else {
      ControlFate(b, s, record, next);
    }
  }

  // ---- whole waves and boundaries ----

  /** What a completed wave does to the queue: what its calls take goes, everything else stays as it was, and what comes
      is new and for later. */
  ghost predicate Dispatches(a: State, calls: Record, c: State)
    requires calls.Invocations?
  {
    && a.arrivals <= c.arrivals
    && (forall i :: i in a.work ==> (i in c.work <==> !Takes(calls, a.work[i])))
    && (forall i :: i in a.work && i in c.work ==> c.work[i] == a.work[i])
    && forall i :: i in c.work && i !in a.work ==> a.arrivals <= i < c.arrivals && Less(calls.at, c.work[i].eligible)
  }

  lemma MergeDispatches(b: Pinned, before: State, calls: Record, called: State, effects: seq<Effect>, next: State)
    requires PinnedValid(b) && StateValid(b, before) && calls.Invocations? && WorkFate(before, calls, called)
    requires StateValid(b, called) && !called.faulted && InTime(b, called, calls.at)
    requires Returned(b, called, calls.at, effects) == Some(next)
    ensures Dispatches(before, calls, next)
  {
    TransactionFate(b, called, Transaction(calls.at, effects), next);
    ReturnedLater(b, called, calls.at, effects, next);
    FatesCompose(b, before, calls, called, Transaction(calls.at, effects), next);
  }

  lemma ReturnedLater(b: Pinned, called: State, at: Instant, effects: seq<Effect>, next: State)
    requires PinnedValid(b) && StateValid(b, called) && InTime(b, called, at)
    requires Returned(b, called, at, effects) == Some(next)
    ensures WorkRouted(b, called.work, next.work, called.arrivals, next.arrivals, at)
  {
    ReturnedKeeps(b, called, at, effects);
  }

  lemma FatesCompose(b: Pinned, before: State, calls: Record, called: State, merge: Record, next: State)
    requires calls.Invocations? && merge.Transaction? && (forall i :: i in before.work ==> i < before.arrivals)
    requires WorkFate(before, calls, called) && WorkFate(called, merge, next)
    requires WorkRouted(b, called.work, next.work, called.arrivals, next.arrivals, calls.at)
    ensures Dispatches(before, calls, next)
  {
  }

  /** What boundary control does: a reservation goes exactly when it has come and its target is closed to it, and
      becomes one item for that target; a deadline goes exactly when it has come, and a partition timer becomes one item
      for its partition; everything else stays as it was, and what comes is for later. */
  ghost predicate Controls(b: Pinned, a: State, at: Instant, c: State)
    requires WatermarksValid(b, a)
  {
    && a.arrivals <= c.arrivals && Publishing(b, a, at, c)
    && (forall key :: key in a.timers ==> (key in c.timers <==> !AtMost(a.timers[key], at)))
    && (forall key :: key in c.timers ==> key in a.timers && c.timers[key] == a.timers[key])
    && (forall key :: key in Alarms(b, a, at) ==> Notified(b, a, at, key, c, AlarmPlace(b, a, at, key)))
    && (forall i :: i in a.work ==> i in c.work && c.work[i] == a.work[i])
    && forall i :: i in c.work && i !in a.work ==> a.arrivals <= i < c.arrivals && Less(at, c.work[i].eligible)
  }

  ghost predicate Publishing(b: Pinned, a: State, at: Instant, c: State)
    requires WatermarksValid(b, a)
  {
    && (forall i :: i in a.pending ==>
          (i in c.pending <==> !(a.pending[i].boundary <= at.ns && ClosedTo(b, a, a.pending[i].target, at.ns))))
    && (forall i :: i in a.pending && i in c.pending ==> c.pending[i] == a.pending[i])
    && forall i :: i in Due(b, a, at) ==>
      Place(b, a, at, i) in c.work && PublishedAs(b, a.pending[i], at, c.work[Place(b, a, at, i)])
  }

  lemma BoundaryControls(b: Pinned, s: State, at: Instant, notices: seq<Effect>, next: State)
    requires PinnedValid(b) && StateValid(b, s) && Replayed(b, s, BoundaryRecord(at, notices)) == Some(next)
    ensures Controls(b, s, at, next)
  {
    var record := BoundaryRecord(at, notices);
    BoundaryFate(b, s, record, next);
    BoundaryLater(b, s, at, notices, next);
    BoundaryPublishes(b, s, at, notices, next);
    forall key | key in Alarms(b, s, at) ensures Notified(b, s, at, key, next, AlarmPlace(b, s, at, key)) {
      FiredExactly(b, s, at, notices, next, key);
    }
  }

  lemma BoundaryLater(b: Pinned, s: State, at: Instant, notices: seq<Effect>, next: State)
    requires PinnedValid(b) && StateValid(b, s) && Replayed(b, s, BoundaryRecord(at, notices)) == Some(next)
    ensures WorkRouted(b, s.work, next.work, s.arrivals, next.arrivals, at)
  {
    BoundedKeeps(b, s, at, notices);
  }

  lemma BoundaryPublishes(b: Pinned, s: State, at: Instant, notices: seq<Effect>, next: State)
    requires PinnedValid(b) && StateValid(b, s) && Replayed(b, s, BoundaryRecord(at, notices)) == Some(next)
    ensures Publishing(b, s, at, next)
  {
    BoundaryFate(b, s, BoundaryRecord(at, notices), next);
    forall i | i in Due(b, s, at)
      ensures Place(b, s, at, i) in next.work && PublishedAs(b, s.pending[i], at, next.work[Place(b, s, at, i)])
    {
      PublishedExactly(b, s, at, notices, next, i);
    }
  }
}
