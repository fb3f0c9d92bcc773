/** What the live loop may write next, and that its journal then accounts for the store again. */
module Writing {
  import opened Calls
  import opened Cohorts
  import opened Fates
  import opened Grants
  import opened HostCalls
  import opened LiveJournal
  import opened NativeGrid
  import opened Planning
  import opened Replay
  import opened RunState
  import opened Settlement
  import opened Time

  /** A record the loop may write next: by its own rule, and carefully. */
  ghost predicate MayWrite(b: Pinned, w: World, s: State, journal: seq<Record>, store: State, record: Record,
                           next: State)
    requires PinnedValid(b) && StateValid(b, s) && StateValid(b, store)
  {
    && LiveNext(b, store, record) == Some(next) && (next.faulted <==> record.FaultRecord?)
    && CarefulNext(b, w, s, journal, store, record)
  }

  /** Only a partial wave that stands beyond the run limit makes the loop overrun it. */
  lemma OverrunExplained(b: Pinned, w: World, s: State, journal: seq<Record>, store: State)
    requires PinnedValid(b) && StateValid(b, s) && Live(b, w, s, journal, store) && FaultOf(journal).Some?
    ensures FaultOf(journal).value.BeyondTarget? ==>
      store.runTarget.Some? && store.runTarget.value < store.cut.instant.ns
  {
    LiveLast(b, w, s, journal, store);
    CarefulLast(b, w, s, journal, store);
    Overrun(b, w, LiveAll(b, s, journal[..|journal| - 1]).value, journal[|journal| - 1], store);
  }

  lemma Overrun(b: Pinned, w: World, s: State, record: Record, next: State)
    requires PinnedValid(b) && StateValid(b, s) && record.FaultRecord? && LiveNext(b, s, record) == Some(next)
    requires Justified(b, w, s, record.cause)
    ensures record.cause.BeyondTarget? ==> next.runTarget.Some? && next.runTarget.value < next.cut.instant.ns
  {
    assert next == Failed(s);
  }

  lemma ReactOwn(b: Pinned, w: World, s: State, chosen: set<string>, at: Instant)
    requires StateValid(b, s) && s.intents == map[] && Planned(b, s, at.ns, ReactStep(at))
    requires LeastClosed(b.cohorts, Preferred(Ready(b, s, at), b.cohorts, Lifecycle(b)), chosen)
    ensures OwnSelection(b, w, s, chosen, at, ReactPhase)
    ensures forall p :: p in chosen && p in b.partitions && !b.partitions[p].reactive ==>
      Justified(b, w, s, Unreactive(at, p))
  {
    assert Chosen(b, s, at, chosen);
  }

  lemma AdvanceOwn(b: Pinned, w: World, s: State, to: nat)
    requires StateValid(b, s) && s.intents == map[] && Aim(w, s, to) && Trailing(b, s, to) != {} && Level(b, s)
    ensures OwnSelection(b, w, s, Trailing(b, s, to), GrantAt(s, to), AdvancePhase)
    ensures GrantAt(s, to).microstep > b.maxMicrosteps ==> Justified(b, w, s, MicrostepLimit(GrantAt(s, to)))
  {
    assert Trailing(b, s, to) <= Behind(s, to);
  }

  /** When everyone stands at the boundary, somebody is ready for what settlement reacts to. */
  lemma ReadyStanding(b: Pinned, w: World, s: State, selected: set<string>, at: Instant)
    requires PinnedValid(b) && StateValid(b, s) && Standing(b, s, at.ns)
    requires OwnSelection(b, w, s, selected, at, ReactPhase)
    ensures Ready(b, s, at) != {}
  {
    ReadyWhenDue(b, s, at);
  }

  /** A settlement wave moves to its microstep, unless the host moved first. */
  lemma WaveProgresses(a: State, before: nat, c: State, after: nat, selected: set<string>, at: Instant, done: bool)
    requires at.ns == a.cut.instant.ns && at.microstep > a.cut.instant.microstep
    requires if done then Waved(a, c, selected, at) else HostOnly(a, c) && after < before
    ensures Progresses(a, before, c, after, at.ns)
  {
  }

  /** A planned step is at a later microstep of the present time, and a run out of microsteps is justified by it. */
  lemma PlannedLater(b: Pinned, w: World, s: State, ns: nat, plan: Plan)
    requires StateValid(b, s) && Planned(b, s, ns, plan) && !plan.Done?
    ensures plan.at.ns == ns == s.cut.instant.ns && plan.at.microstep > s.cut.instant.microstep
    ensures plan.at.microstep > b.maxMicrosteps ==> Justified(b, w, s, MicrostepLimit(plan.at))
  {
  }

  /** The loop's own granted calls move time only under a run limit, and without streams for everyone together. */
  lemma OwnMovesTogether(b: Pinned, w: World, s: State, selected: set<string>, at: Instant, phase: Phase)
    requires StateValid(b, s) && OwnSelection(b, w, s, selected, at, phase)
    requires Invoked(b, s, selected, at, phase).Some?
    ensures MovesTogether(b, s, selected, at)
  {
  }

  /** The next boundary lies beyond the seal exactly when the run can go on; then it was not disturbed. */
  lemma BoundaryPlanned(b: Pinned, w: World, s: State, journal: seq<Record>, store: State, limit: nat, to: nat)
    requires PinnedValid(b) && StateValid(b, s) && Live(b, w, s, journal, store) && Fresh(s)
    requires StateValid(b, store) && OnTime(store) && store.sealed.Some? && store.sealed.value < limit
    requires store.runTarget == Some(limit) && IsNextBoundary(store, Bounds(w, store.cut.index), limit, to)
    ensures to <= store.sealed.value ==> Justified(b, w, store, NoProgress(to))
    ensures to > store.sealed.value ==>
      Undisturbed(journal) && Aim(w, store, Max(to, store.cut.instant.ns))
  {
    StalledJustified(b, w, store, limit, to);
    LeftBehind(b, w, s, journal, store);
  }

  /** A kernel's journal and store, from the state binding left. */
  ghost predicate Consistent(b: Pinned, w: World, s: State, journal: seq<Record>, store: State) {
    && PinnedValid(b) && StateValid(b, s) && StateValid(b, store) && Fresh(s)
    && Live(b, w, s, journal, store) && (store.faulted <==> FaultOf(journal).Some?)
  }

  /** One more record the loop may write leaves the journal accounting for the store again: the replayer reproduces
      it as far as no seal in it was disturbed. */
  lemma Extends(b: Pinned, w: World, s: State, journal: seq<Record>, store: State, record: Record, next: State)
    requires Consistent(b, w, s, journal, store) && MayWrite(b, w, s, journal, store, record, next)
    ensures Written(b, w, s, journal, record, next)
  {
    LiveMore(b, w, s, journal, store, record, next);
    Appends(journal, record);
  }

  /** With the record, the journal accounts for the next store. */
  ghost predicate Written(b: Pinned, w: World, s: State, journal: seq<Record>, record: Record, next: State) {
    Consistent(b, w, s, journal + [record], next) && Appended(journal, record, journal + [record])
  }

  /** Host calls after a wave or a boundary leave what it did. */
  lemma DispatchesThenHost(a: State, calls: Record, c: State, d: State)
    requires calls.Invocations? && Dispatches(a, calls, c) && HostOnly(c, d)
    ensures Dispatches(a, calls, d)
  {
  }

  lemma ControlsThenHost(b: Pinned, a: State, at: Instant, c: State, d: State)
    requires StateValid(b, a) && Controls(b, a, at, c) && HostOnly(c, d)
    ensures Controls(b, a, at, d)
  {
    PublishingThenHost(b, a, at, c, d);
  }

  /** Boundary control leaves no deadline that has come. */
  lemma ControlsClear(b: Pinned, a: State, at: Instant, c: State)
    requires StateValid(b, a) && Controls(b, a, at, c)
    ensures NoneDue(c, Instant(at.ns, 0))
  {
  }

  /** A reservation whose boundary came, for a target closed to it, is gone. */
  ghost predicate DuePublished(b: Pinned, a: State, c: State, ns: nat)
    requires WatermarksValid(b, a)
  {
    forall i :: i in a.pending && a.pending[i].boundary <= ns && ClosedTo(b, a, a.pending[i].target, ns) ==>
      i !in c.pending
  }

  /** Some partitions caught up with a physical time: they stand there, with nothing left that was due by its start
      and published for what is closed to it. */
  ghost predicate Caught(b: Pinned, a: State, c: State, selected: set<string>, ns: nat)
    requires WatermarksValid(b, a)
  {
    AllAt(c, selected, ns) && (selected != {} ==> NoneDue(c, Instant(ns, 0)) && DuePublished(b, a, c, ns))
  }

  /** Advancing, consuming what is due and settling catches up. */
  lemma Catches(b: Pinned, a: State, m: State, at: Instant, d: State, c: State, selected: set<string>)
    requires StateValid(b, a) && StateValid(b, m) && Stands(a, m, at.ns) && AllAt(m, selected, at.ns)
    requires selected <= m.frontiers.Keys
    requires Controls(b, m, at, d) && Waved(m, d, {}, at) && StandStill(d, c, at.ns)
    ensures Caught(b, a, c, selected, at.ns)
  {
    ControlsClear(b, m, at, d);
    forall i | i in a.pending && a.pending[i].boundary <= at.ns && ClosedTo(b, a, a.pending[i].target, at.ns)
      ensures i !in c.pending
    {
      assert i < a.arrivals && (i in m.pending ==> m.pending[i] == a.pending[i]);
      assert ClosedTo(b, m, a.pending[i].target, at.ns);
    }
  }

  lemma PublishingThenHost(b: Pinned, a: State, at: Instant, c: State, d: State)
    requires StateValid(b, a) && Controls(b, a, at, c) && HostOnly(c, d)
    ensures Publishing(b, a, at, d)
  {
    forall i | i in a.pending ensures i in d.pending <==> i in c.pending {
      assert i in d.pending ==> i in c.pending || c.arrivals <= i;
    }
  }

  /** What host calls make of a store and its journal: they neither disturb a seal nor take a step. */
  ghost predicate Hosted(s: State, journal: seq<Record>, next: State, more: seq<Record>) {
    && HostOnly(s, next) && journal <= more
    && (Undisturbed(more) <==> Undisturbed(journal)) && Steps(more) == Steps(journal)
  }

  lemma HostedTransitive(s: State, j: seq<Record>, t: State, k: seq<Record>, u: State, l: seq<Record>)
    requires Hosted(s, j, t, k) && Hosted(t, k, u, l)
    ensures Hosted(s, j, u, l)
  {
    HostOnlyTransitive(s, t, u);
  }

  lemma HostedBy(b: Pinned, s: State, journal: seq<Record>, move: Move)
    requires PinnedValid(b) && StateValid(b, s) && AtRest(s) && HostRecord(b, s, move).Some?
    requires !Works(HostRecord(b, s, move).value)
    ensures Hosted(s, journal, HostNext(b, s, move), journal + [HostRecord(b, s, move).value])
  {
    HostKeeps(b, s, move);
    Appends(journal, HostRecord(b, s, move).value);
  }

  lemma Appends(journal: seq<Record>, record: Record)
    ensures Appended(journal, record, journal + [record])
  {
    CalmMore(journal, record);
    StepsMore(journal, record);
    FaultLast(journal, record);
  }

  /** What one more record makes of a journal. */
  ghost predicate Appended(journal: seq<Record>, record: Record, more: seq<Record>) {
    && more == journal + [record]
    && (Undisturbed(more) <==> Undisturbed(journal) && (record.Seal? ==> Calm(journal)))
    && (Calm(more) <==> record.BoundaryRecord? || record.Seal? || (!Disturbs(record) && Calm(journal)))
    && Steps(more) == Steps(journal) + (if record.Invocations? || record.BoundaryRecord? then 1 else 0)
    && FaultOf(more) == if record.FaultRecord? then Some(record.cause) else None
  }

  lemma FaultLast(journal: seq<Record>, record: Record)
    ensures FaultOf(journal + [record]) == if record.FaultRecord? then Some(record.cause) else None
  {
  }

  lemma LimitLives(b: Pinned, w: World, s: State, journal: seq<Record>, store: State, limit: nat)
    requires PinnedValid(b) && StateValid(b, s) && StateValid(b, store) && !store.faulted && store.intents == map[]
    requires store.sealed.Some? && store.sealed.value < limit
    ensures MayWrite(b, w, s, journal, store, RunLimit(limit), Limited(store, limit))
  {
  }

  lemma HostLives(b: Pinned, w: World, s: State, journal: seq<Record>, store: State, move: Move)
    requires PinnedValid(b) && StateValid(b, s) && StateValid(b, store) && !store.faulted && store.intents == map[]
    requires AtRest(store) && HostRecord(b, store, move).Some?
    ensures MayWrite(b, w, s, journal, store, HostRecord(b, store, move).value, HostNext(b, store, move))
    ensures !Works(HostRecord(b, store, move).value)
  {
    HostReplays(b, store, move);
    HostKeeps(b, store, move);
    HostPlain(b, store, move);
  }

  lemma HostPlain(b: Pinned, store: State, move: Move)
    requires WatermarksValid(b, store) && HostRecord(b, store, move).Some?
    ensures var record := HostRecord(b, store, move).value;
      !record.FaultRecord? && !Works(record) && !record.RunLimit? && !record.Seal?
  {
  }

  lemma FaultLives(b: Pinned, w: World, s: State, journal: seq<Record>, store: State, cause: Cause)
    requires PinnedValid(b) && StateValid(b, s) && StateValid(b, store) && !store.faulted
    requires Justified(b, w, store, cause)
    ensures MayWrite(b, w, s, journal, store, FaultRecord(cause, store.intents.Keys), Failed(store))
  {
    var record := FaultRecord(cause, store.intents.Keys);
    FailedKeeps(b, store);
    assert !Works(record) && OwnRecord(b, w, store, record);
  }

  lemma FaultWritten(b: Pinned, w: World, s: State, journal: seq<Record>, store: State, cause: Cause)
    requires Consistent(b, w, s, journal, store) && !store.faulted && Justified(b, w, store, cause)
    ensures Written(b, w, s, journal, FaultRecord(cause, store.intents.Keys), Failed(store))
    ensures Failed(store).cut.instant == store.cut.instant
  {
    FaultLives(b, w, s, journal, store, cause);
    Extends(b, w, s, journal, store, FaultRecord(cause, store.intents.Keys), Failed(store));
  }

  lemma CallsLive(b: Pinned, w: World, s: State, journal: seq<Record>, store: State, selected: set<string>, at: Instant,
                  phase: Phase)
    requires PinnedValid(b) && StateValid(b, s) && StateValid(b, store) && !store.faulted && InTime(b, store, at)
    requires Undisturbed(journal) && OwnSelection(b, w, store, selected, at, phase)
    requires Invoked(b, store, selected, at, phase).Some?
    ensures MayWrite(b, w, s, journal, store, Invocations(at, phase, selected),
      Invoked(b, store, selected, at, phase).value)
  {
    InvokedCalls(b, store, selected, at, phase);
  }

  lemma MergeLives(b: Pinned, w: World, s: State, journal: seq<Record>, store: State, at: Instant, effects: seq<Effect>)
    requires PinnedValid(b) && StateValid(b, s) && StateValid(b, store) && !store.faulted && InTime(b, store, at)
    requires Undisturbed(journal) && store.intents != map[] && at == store.cut.instant
    requires effects == Proposals(w, store.cut.index) && Returned(b, store, at, effects).Some?
    ensures MayWrite(b, w, s, journal, store, Transaction(at, effects), Returned(b, store, at, effects).value)
  {
    TransactionOwn(b, w, store, at, effects);
    ReturnedKeeps(b, store, at, effects);
  }

  lemma TransactionOwn(b: Pinned, w: World, store: State, at: Instant, effects: seq<Effect>)
    requires PinnedValid(b) && StateValid(b, store) && store.intents != map[] && at == store.cut.instant
    requires effects == Proposals(w, store.cut.index)
    ensures OwnRecord(b, w, store, Transaction(at, effects))
  {
  }

  /** A merged wave, seen from the store before its calls. */
  ghost predicate Completes(b: Pinned, before: State, calls: Record, next: State)
    requires calls.Invocations?
  {
    && Waved(before, next, calls.selected, calls.at) && next.pending == before.pending
    && Dispatches(before, calls, next) && next.faulted == before.faulted && Orderly(b, next)
  }

  /** Calls of the loop's own at an instant, from a store in order. */
  ghost predicate Called(b: Pinned, before: State, calls: Record, called: State)
    requires calls.Invocations?
  {
    && StateValid(b, before) && Orderly(b, before) && Forward(before, calls.at.ns)
    && MovesTogether(b, before, calls.selected, calls.at) && CallsAt(before, called, calls.selected, calls.at)
    && calls.selected <= before.frontiers.Keys && WorkFate(before, calls, called)
  }

  /** Calls of the loop's own are such. */
  lemma OwnCalled(b: Pinned, w: World, s: State, selected: set<string>, at: Instant, phase: Phase)
    requires PinnedValid(b) && StateValid(b, s) && !s.faulted && Orderly(b, s) && InTime(b, s, at) && Forward(s, at.ns)
    requires OwnSelection(b, w, s, selected, at, phase) && selected <= b.partitions.Keys
    requires Invoked(b, s, selected, at, phase).Some?
    ensures Called(b, s, Invocations(at, phase, selected), Invoked(b, s, selected, at, phase).value)
  {
    InvokedCalls(b, s, selected, at, phase);
    OwnMovesTogether(b, w, s, selected, at, phase);
    InvokedFate(b, s, Invocations(at, phase, selected), Invoked(b, s, selected, at, phase).value);
  }

  lemma MergeWritten(b: Pinned, w: World, s: State, journal: seq<Record>, before: State, calls: Record, called: State,
                     record: Record, next: State)
    requires Consistent(b, w, s, journal, called) && !called.faulted && Undisturbed(journal) && record.Transaction?
    requires calls.Invocations? && calls.at == record.at && InTime(b, called, record.at)
    requires Called(b, before, calls, called)
    requires called.intents != map[] && record.effects == Proposals(w, called.cut.index)
    requires Returned(b, called, record.at, record.effects) == Some(next)
    ensures Written(b, w, s, journal, record, next) && Completes(b, before, calls, next)
  {
    MergeCompletes(b, before, calls, called, record.effects, next);
    MergeLives(b, w, s, journal, called, record.at, record.effects);
    Extends(b, w, s, journal, called, record, next);
  }

  lemma MergeCompletes(b: Pinned, before: State, calls: Record, called: State, effects: seq<Effect>, next: State)
    requires PinnedValid(b) && StateValid(b, called) && !called.faulted
    requires calls.Invocations? && InTime(b, called, calls.at) && Called(b, before, calls, called)
    requires Returned(b, called, calls.at, effects) == Some(next)
    ensures Completes(b, before, calls, next)
  {
    ReturnedWaves(b, before, called, calls.selected, calls.at, effects);
    ReturnedOnTime(b, before, called, calls.selected, calls.at, effects);
    WavedOrderly(b, before, next, calls.selected, calls.at);
    MergeDispatches(b, before, calls, called, effects, next);
  }

  lemma BoundaryLives(b: Pinned, w: World, s: State, journal: seq<Record>, store: State, at: Instant,
                      notices: seq<Effect>)
    requires PinnedValid(b) && StateValid(b, s) && StateValid(b, store) && !store.faulted && InTime(b, store, at)
    requires Undisturbed(journal) && store.intents == map[] && notices == NoticesOf(b, w, store)
    requires at == store.cut.instant || Planned(b, store, at.ns, BoundaryStep(at))
    requires Bounded(b, store, at, notices).Some?
    ensures MayWrite(b, w, s, journal, store, BoundaryRecord(at, notices), Bounded(b, store, at, notices).value)
  {
    BoundedKeeps(b, store, at, notices);
  }

  /** What boundary control leaves: a store in order, and once everyone stood there nothing late. */
  lemma BoundarySweeps(b: Pinned, w: World, s: State, journal: seq<Record>, store: State, at: Instant,
                       notices: seq<Effect>, next: State)
    requires Consistent(b, w, s, journal, store) && store.intents == map[] && Orderly(b, store)
    requires InTime(b, store, at) && at.ns == store.cut.instant.ns && Forward(store, at.ns)
    requires Bounded(b, store, at, notices) == Some(next)
    requires Written(b, w, s, journal, BoundaryRecord(at, notices), next)
    ensures Waved(store, next, {}, at) && next.faulted == store.faulted && Orderly(b, next)
    ensures Standing(b, store, at.ns) ==> Swept(b, s, journal + [BoundaryRecord(at, notices)], at.ns)
  {
    BoundedWaves(b, store, at, notices);
    WavedOrderly(b, store, next, {}, at);
    WavedStands(store, next, {}, at);
    if Standing(b, store, at.ns) {
      StandingStays(b, store, next, at.ns);
      SweptHere(b, w, s, journal + [BoundaryRecord(at, notices)], next, at.ns);
    }
  }

  /** Boundary control never fails. */
  lemma BoundaryWritten(b: Pinned, w: World, s: State, journal: seq<Record>, store: State, at: Instant)
    requires Consistent(b, w, s, journal, store) && !store.faulted && store.intents == map[] && Orderly(b, store)
    requires InTime(b, store, at) && at.ns == store.cut.instant.ns && Undisturbed(journal)
    requires Forward(store, at.ns) && (at == store.cut.instant || Planned(b, store, at.ns, BoundaryStep(at)))
    ensures var notices := NoticesOf(b, w, store);
      Bounded(b, store, at, notices).Some?
      && Consumes(b, w, s, journal, store, BoundaryRecord(at, notices), Bounded(b, store, at, notices).value)
  {
    var notices := NoticesOf(b, w, store);
    BoundaryNeverFails(b, store, at, notices);
    BoundaryConsumes(b, w, s, journal, store, at, notices, Bounded(b, store, at, notices).value);
  }

  lemma BoundaryNeverFails(b: Pinned, store: State, at: Instant, notices: seq<Effect>)
    requires PinnedValid(b) && StateValid(b, store)
    requires forall i :: 0 <= i < |notices| ==> Notice(notices[i]) && notices[i].recipient in b.partitions
    ensures Bounded(b, store, at, notices).Some?
  {
    PublishedRoutes(b, store, at);
    NoticesApply(b, Consumed(b, store, at), at, Published(b, store, at) + notices);
  }

  lemma BoundaryConsumes(b: Pinned, w: World, s: State, journal: seq<Record>, store: State, at: Instant,
                         notices: seq<Effect>, next: State)
    requires Consistent(b, w, s, journal, store) && !store.faulted && store.intents == map[] && Orderly(b, store)
    requires InTime(b, store, at) && at.ns == store.cut.instant.ns && Undisturbed(journal)
    requires Forward(store, at.ns) && (at == store.cut.instant || Planned(b, store, at.ns, BoundaryStep(at)))
    requires notices == NoticesOf(b, w, store) && Bounded(b, store, at, notices) == Some(next)
    ensures Consumes(b, w, s, journal, store, BoundaryRecord(at, notices), next)
  {
    BoundaryLives(b, w, s, journal, store, at, notices);
    Extends(b, w, s, journal, store, BoundaryRecord(at, notices), next);
    BoundarySweeps(b, w, s, journal, store, at, notices, next);
    BoundaryControls(b, store, at, notices, next);
  }

  /** What boundary control makes of a store and its journal. */
  ghost predicate Consumes(b: Pinned, w: World, s: State, journal: seq<Record>, store: State, record: Record,
                           next: State)
    requires PinnedValid(b) && StateValid(b, s) && StateValid(b, store) && record.BoundaryRecord?
  {
    && Written(b, w, s, journal, record, next) && Waved(store, next, {}, record.at) && next.faulted == store.faulted
    && Controls(b, store, record.at, next)
    && Orderly(b, next) && (Standing(b, store, record.at.ns) ==> Swept(b, s, journal + [record], record.at.ns))
  }

  lemma LimitWritten(b: Pinned, w: World, s: State, journal: seq<Record>, store: State, limit: nat)
    requires Consistent(b, w, s, journal, store) && !store.faulted && store.intents == map[] && Orderly(b, store)
    requires store.sealed.Some? && store.sealed.value < limit
    ensures Written(b, w, s, journal, RunLimit(limit), Limited(store, limit)) && Orderly(b, Limited(store, limit))
  {
    LimitLives(b, w, s, journal, store, limit);
    Extends(b, w, s, journal, store, RunLimit(limit), Limited(store, limit));
  }

  lemma SealLives(b: Pinned, w: World, s: State, journal: seq<Record>, store: State, ns: nat)
    requires PinnedValid(b) && StateValid(b, s) && StateValid(b, store) && !store.faulted && SealedFrom(b, store, ns)
    requires Undisturbed(journal) && Swept(b, s, journal, ns)
    requires forall h :: h in Bounds(w, store.cut.index) ==> h > ns
    ensures MayWrite(b, w, s, journal, store, Seal(store.cut.instant, ns), Sealed(store, ns))
  {
  }

  lemma SealedOrderly(b: Pinned, store: State, ns: nat)
    requires WatermarksValid(b, store) && SealedFrom(b, store, ns) && Orderly(b, store)
    ensures Orderly(b, Sealed(store, ns))
  {
  }

  /** The loop has looked for what is due as soon as everyone stands somewhere with nothing late pending. */
  lemma SweptHere(b: Pinned, w: World, s: State, journal: seq<Record>, store: State, ns: nat)
    requires Consistent(b, w, s, journal, store) && Standing(b, store, ns) && NoLate(store, ns)
    ensures Swept(b, s, journal, ns)
  {
    assert SweptBy(b, s, journal, ns);
  }

  lemma SweptMore(b: Pinned, s: State, journal: seq<Record>, more: seq<Record>, ns: nat)
    requires PinnedValid(b) && StateValid(b, s) && Swept(b, s, journal, ns) && journal <= more
    ensures Swept(b, s, more, ns)
  {
    var prefix :| prefix <= journal && SweptBy(b, s, prefix, ns);
    assert prefix <= more;
  }

  /** Everyone still stands where everyone stood, and what was swept stays swept. */
  lemma StillSwept(b: Pinned, s: State, a: State, c: State, journal: seq<Record>, more: seq<Record>, ns: nat)
    requires PinnedValid(b) && StateValid(b, s) && WatermarksValid(b, a) && WatermarksValid(b, c)
    requires Standing(b, a, ns) && Stands(a, c, ns) && Swept(b, s, journal, ns) && journal <= more
    ensures Standing(b, c, ns) && Swept(b, s, more, ns)
  {
    StandingStays(b, a, c, ns);
    SweptMore(b, s, journal, more, ns);
  }

  /** A wave of settlement makes progress, and leaves what was swept so. */
  lemma WaveSettles(b: Pinned, s: State, a: State, before: nat, journal: seq<Record>, c: State, after: nat,
                    more: seq<Record>, selected: set<string>, at: Instant, done: bool, seal: bool)
    requires PinnedValid(b) && StateValid(b, s) && WatermarksValid(b, a) && WatermarksValid(b, c)
    requires at.ns == a.cut.instant.ns && at.microstep > a.cut.instant.microstep
    requires if done then Waved(a, c, selected, at) else HostOnly(a, c) && after < before
    requires seal ==> Standing(b, a, at.ns) && Swept(b, s, journal, at.ns) && journal <= more
    ensures Progresses(a, before, c, after, at.ns)
    ensures seal ==> Standing(b, c, at.ns) && Swept(b, s, more, at.ns)
  {
    WaveProgresses(a, before, c, after, selected, at, done);
    if seal {
      StillSwept(b, s, a, c, journal, more, at.ns);
    }
  }

  /** The guard of an invocation record, taken apart. */
  lemma InvokedWhen(b: Pinned, s: State, selected: set<string>, at: Instant, phase: Phase)
    requires StateValid(b, s) && s.intents == map[]
    ensures Invoked(b, s, selected, at, phase).Some? <==>
      at.microstep <= b.maxMicrosteps && Selects(b, s, selected, at, phase) && selected <= b.partitions.Keys
      && forall p :: p in selected ==> Grant(b.partitions[p].timing, s.frontiers[p], CallOf(phase, at)).Some?
  {
  }

  /** Faults of one wave. */
  predicate InWave(cause: Cause, phase: Phase) {
    || cause.BatchRefused?
    || (phase.AdvancePhase? && (cause.BeyondTarget? || cause.GridSkipped?))
    || (phase.ReactPhase? && cause.NobodyReady?)
  }

  /** A wave of settlement fails as settlement may, when somebody is ready while everyone stands at the boundary. */
  lemma WaveFails(cause: Cause, phase: Phase, seal: bool)
    requires InWave(cause, phase) && (phase.ReactPhase? || phase.SamplePhase?)
    requires seal && phase.ReactPhase? ==> !cause.NobodyReady?
    ensures InSettling(cause, seal)
  {
  }

  /** Faults of settling and sealing. */
  predicate InSettle(cause: Cause, seal: bool) {
    InSettling(cause, seal) || (seal && cause.HorizonStalled?)
  }

  /** Faults of letting safe partitions catch up. */
  predicate InCatchingUp(cause: Cause) {
    InAdvancing(cause) || InSettling(cause, false)
  }
}
