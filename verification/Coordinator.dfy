/** The live coordinator: it publishes records, settles same-time work, seals, and runs to a limit. The offline
    replayer reproduces whatever it writes, except a last seal that a cancellation disturbed. */
module Coordinator {
  import opened Cohorts
  import opened Fates
  import opened Grants
  import opened HostCalls
  import opened LiveJournal
  import opened NativeGrid
  import opened Planning
  import opened Replay
  import opened RunState
  import opened Settlement
  import opened Time
  import opened Timers
  import opened Writing

  datatype Outcome = Reached | Yielded | Backward | Faulted

  class Coordinator {
    const bound: Pinned
    const initial: State
    const world: World
    var store: State
    var journal: seq<Record>
    var script: Script

    ghost predicate Valid()
      reads this`store, this`journal
    {
      Consistent(bound, world, initial, journal, store)
    }

    /** Between steps, where the host may come in or leave the run: no unresolved calls, no fault, the store in
        order. */
    ghost predicate Idle()
      reads this`store, this`journal
    {
      Valid() && !store.faulted && store.intents == map[] && Orderly(bound, store)
    }

    /** Idle with partitions to run, and no seal was disturbed. */
    ghost predicate Running()
      reads this`store, this`journal
    {
      Idle() && Undisturbed(journal) && Populated(bound)
    }

    /** Everyone stood at a physical time and what was due there was looked for. */
    ghost predicate SweptAt(ns: nat)
      requires Valid()
      reads this`store, this`journal
    {
      Swept(bound, initial, journal, ns)
    }

    /** Microsteps used beyond the waves and boundary controls written. */
    ghost function Room(): int
      reads this`store, this`journal
    {
      store.cut.instant.microstep - Steps(journal)
    }

    constructor (bound: Pinned, watermarks: map<string, int>, world: World, script: Script)
      requires PinnedValid(bound) && Opening(bound, watermarks)
      ensures Idle() && Undisturbed(journal) && store == Bound(bound, watermarks) && journal == []
      ensures this.script == script && this.bound == bound && this.world == world
    {
      this.bound, initial, store := bound, Bound(bound, watermarks), Bound(bound, watermarks);
      this.world, this.script, journal := world, script, [];
    }

    /** Acknowledge a record and swap the store. */
    method Publish(next: State, record: Record)
      requires Written(bound, world, initial, journal, record, next)
      modifies this`store, this`journal
      ensures script == old(script)
      ensures Valid() && store == next && journal == old(journal) + [record]
    {
      store, journal := next, journal + [record];
    }

    /** Resolve every unresolved call and refuse further work. */
    method Fault(cause: Cause)
      requires Valid() && !store.faulted && Justified(bound, world, store, cause)
      modifies this`store, this`journal
      ensures script == old(script)
      ensures Valid() && store == Failed(old(store)) && FaultOf(journal) == Some(cause)
      ensures Undisturbed(journal) == old(Undisturbed(journal)) && old(journal) <= journal
      ensures Room() == old(Room())
    {
      FaultWritten(bound, world, initial, journal, store, cause);
      Publish(Failed(store), FaultRecord(cause, store.intents.Keys));
    }

    /** Host calls in order, each acknowledged before the next. */
    method HostAll(moves: seq<Move>)
      requires Idle()
      modifies this`store, this`journal
      ensures script == old(script)
      ensures Idle() && Hosted(old(store), old(journal), store, journal)
      ensures store == AfterMoves(bound, old(store), moves)
    {
      for i := 0 to |moves|
        invariant script == old(script)
        invariant Idle() && Hosted(old(store), old(journal), store, journal)
        invariant store == AfterMoves(bound, old(store), moves[..i])
      {
        AfterOneMore(bound, old(store), moves, i);
        if HostRecord(bound, store, moves[i]).Some? {
          ghost var before, written := store, journal;
          HostOne(moves[i]);
          HostedTransitive(old(store), old(journal), before, written, store, journal);
        }
      }
      assert moves[..|moves|] == moves;
    }

    method HostOne(move: Move)
      requires Idle() && HostRecord(bound, store, move).Some?
      modifies this`store, this`journal
      ensures script == old(script)
      ensures Idle() && Hosted(old(store), old(journal), store, journal)
      ensures store == HostNext(bound, old(store), move)
    {
      HostLives(bound, world, initial, journal, store, move);
      HostedBy(bound, store, journal, move);
      var record, next := HostRecord(bound, store, move).value, HostNext(bound, store, move);
      HostOrderly(bound, store, next);
      Extends(bound, world, initial, journal, store, record, next);
      Publish(next, record);
    }

    /** Let the host in once: its next round of calls, one by one. */
    method Poll()
      requires Idle()
      modifies this`store, this`journal, this`script
      ensures Idle() && Hosted(old(store), old(journal), store, journal)
      ensures |old(script)| == 0 ==> script == old(script) && store == old(store)
      ensures |old(script)| != 0 ==>
        script == old(script)[1..] && store == AfterMoves(bound, old(store), old(script)[0])
    {
      if |script| != 0 {
        var moves, rest := NextMoves(script);
        script := rest;
        HostAll(moves);
      }
    }

    /** The guard of an invocation record, recomputed from the store. */
    method Authorize(selected: set<string>, at: Instant, phase: Phase) returns (granted: bool)
      requires Idle()
      ensures granted <==> Invoked(bound, store, selected, at, phase).Some?
    {
      InvokedWhen(bound, store, selected, at, phase);
      var known := Scheduled(bound, store, selected, at, phase);
      if known && phase.ReactPhase? {
        var chosen := ReadyPartitions(Ready(bound, store, at), bound.cohorts, Lifecycle(bound));
        known := chosen == selected;
        CanonicalUnique(bound.cohorts, Preferred(Ready(bound, store, at), bound.cohorts, Lifecycle(bound)), chosen);
      }
      granted := known && at.microstep <= bound.maxMicrosteps && selected <= bound.partitions.Keys
        && forall p :: p in selected ==>
          Grant(bound.partitions[p].timing, store.frontiers[p], CallOf(phase, at)).Some?;
    }

    /** Authorize all calls of a wave, run them, and merge what they return. */
    method Execute(selected: set<string>, at: Instant, phase: Phase) returns (done: bool)
      requires Running() && InTime(bound, store, at) && Forward(store, at.ns)
      requires OwnSelection(bound, world, store, selected, at, phase)
      modifies this`store, this`journal
      ensures script == old(script)
      ensures Valid() && Undisturbed(journal) && store.sealed == old(store).sealed
      ensures store.runTarget == old(store).runTarget
      ensures done <==> !store.faulted
      ensures done ==> Running() && Waved(old(store), store, selected, at) && store.pending == old(store).pending
      ensures done ==> Dispatches(old(store), Invocations(at, phase, selected), store)
      ensures old(journal) <= journal
      ensures !done ==> FaultOf(journal).Some? && InWave(FaultOf(journal).value, phase)
      ensures !done && FaultOf(journal).value.NobodyReady? ==> Ready(bound, old(store), at) == {}
      ensures Room() >= old(Room()) || at.microstep <= old(store).cut.instant.microstep
    {
      var granted := Authorize(selected, at, phase);
      OwnGranted(bound, world, store, selected, at, phase);
      if !granted {
        var cause := Refusal(bound, world, store, selected, at, phase);
        Fault(cause);
        return false;
      }
      done := Call(selected, at, phase);
    }

    /** The granted calls of a wave: recorded, run, merged. */
    method Call(selected: set<string>, at: Instant, phase: Phase) returns (done: bool)
      requires Running() && InTime(bound, store, at) && Forward(store, at.ns)
      requires OwnSelection(bound, world, store, selected, at, phase)
      requires selected <= bound.partitions.Keys && selected != {}
      requires Invoked(bound, store, selected, at, phase).Some?
      modifies this`store, this`journal
      ensures script == old(script)
      ensures Valid() && Undisturbed(journal) && store.sealed == old(store).sealed
      ensures store.runTarget == old(store).runTarget
      ensures done <==> !store.faulted
      ensures done ==> Running() && Waved(old(store), store, selected, at) && store.pending == old(store).pending
      ensures done ==> Dispatches(old(store), Invocations(at, phase, selected), store)
      ensures old(journal) <= journal
      ensures !done ==> FaultOf(journal).Some? && FaultOf(journal).value.BatchRefused?
      ensures Room() >= old(Room()) || at.microstep <= old(store).cut.instant.microstep
    {
      OwnCalled(bound, world, store, selected, at, phase);
      CallsLive(bound, world, initial, journal, store, selected, at, phase);
      Extends(bound, world, initial, journal, store, Invocations(at, phase, selected),
        Calling(bound, store, selected, at, phase));
      Publish(Calling(bound, store, selected, at, phase), Invocations(at, phase, selected));
      done := Merge(old(store), Invocations(at, phase, selected));
    }

    /** Publish a merged wave. */
    method Complete(ghost before: State, ghost calls: Record, next: State, record: Record)
      requires Undisturbed(journal) && record.Transaction? && !before.faulted && Populated(bound)
      requires Written(bound, world, initial, journal, record, next) && calls.Invocations?
      requires Completes(bound, before, calls, next) && store.cut.instant == record.at == calls.at
      modifies this`store, this`journal
      ensures script == old(script)
      ensures Running() && Completes(bound, before, calls, store)
      ensures old(journal) <= journal && Room() == old(Room())
    {
      Publish(next, record);
    }

    /** What the calls return, merged into one transaction; a refused batch fails the run. */
    method Merge(ghost before: State, ghost calls: Record) returns (done: bool)
      requires Valid() && !store.faulted && Undisturbed(journal) && store.intents != map[] && calls.Invocations?
      requires store.cut.instant == calls.at && Called(bound, before, calls, store)
      requires calls.at.microstep <= bound.maxMicrosteps && Populated(bound)
      modifies this`store, this`journal
      ensures script == old(script)
      ensures Valid() && Undisturbed(journal) && store.sealed == before.sealed && store.runTarget == before.runTarget
      ensures done <==> !store.faulted
      ensures done ==> Running() && Completes(bound, before, calls, store)
      ensures old(journal) <= journal
      ensures !done ==> FaultOf(journal).Some? && FaultOf(journal).value.BatchRefused?
      ensures store.cut.instant == calls.at && Room() == old(Room())
    {
      var at, effects := store.cut.instant, Proposals(world, store.cut.index);
      var merged := Returned(bound, store, at, effects);
      done := merged.Some?;
      if done {
        var next, record := merged.value, Transaction(at, effects);
        MergeWritten(bound, world, initial, journal, before, calls, store, record, next);
        Complete(before, calls, next, record);
      } else {
        Fault(BatchRefused(at));
      }
    }

    /** Execute a wave and, once merged, let the host in. */
    method ExecuteThenPoll(selected: set<string>, at: Instant, phase: Phase) returns (done: bool)
      requires Running() && InTime(bound, store, at) && Forward(store, at.ns)
      requires OwnSelection(bound, world, store, selected, at, phase)
      modifies this`store, this`journal, this`script
      ensures Valid() && Undisturbed(journal) && store.sealed == old(store).sealed && |script| <= |old(script)|
      ensures store.runTarget == old(store).runTarget
      ensures done <==> !store.faulted
      ensures done ==> Running() && Waved(old(store), store, selected, at)
      ensures done ==> Dispatches(old(store), Invocations(at, phase, selected), store)
      ensures old(journal) <= journal
      ensures !done ==> FaultOf(journal).Some? && InWave(FaultOf(journal).value, phase)
      ensures !done && FaultOf(journal).value.NobodyReady? ==> Ready(bound, old(store), at) == {}
      ensures Room() >= old(Room()) || at.microstep <= old(store).cut.instant.microstep
      ensures done && old(script) != [] ==> |script| < |old(script)|
    {
      done := Execute(selected, at, phase);
      if done {
        ghost var merged := store;
        Poll();
        WavedThenHost(old(store), merged, store, selected, at);
        DispatchesThenHost(old(store), Invocations(at, phase, selected), merged, store);
      }
    }

    /** Invoke a wave; false when the host moved first, or a rule refused it and the run failed. */
    method Wave(selected: set<string>, at: Instant, phase: Phase) returns (done: bool)
      requires Running() && InTime(bound, store, at) && Forward(store, at.ns)
      requires OwnSelection(bound, world, store, selected, at, phase)
      modifies this`store, this`journal, this`script
      ensures Valid() && Undisturbed(journal) && store.sealed == old(store).sealed && |script| <= |old(script)|
      ensures store.runTarget == old(store).runTarget
      ensures !store.faulted ==> Running()
      ensures done ==> !store.faulted && Waved(old(store), store, selected, at)
      ensures done ==> Dispatches(old(store), Invocations(at, phase, selected), store)
      ensures !done && !store.faulted ==> HostOnly(old(store), store) && |script| < |old(script)|
      ensures !done && !store.faulted ==> store.cut != old(store).cut
      ensures old(journal) <= journal
      ensures store.faulted ==> FaultOf(journal).Some? && InWave(FaultOf(journal).value, phase)
      ensures store.faulted && FaultOf(journal).value.NobodyReady? ==> Ready(bound, old(store), at) == {}
      ensures Room() >= old(Room()) || at.microstep <= old(store).cut.instant.microstep
      ensures old(script) != [] ==> |script| < |old(script)|
    {
      var planned := store.cut;
      Poll();
      if store.cut == planned {
        done := ExecuteThenPoll(selected, at, phase);
      } else {
        done := false;
      }
    }

    /** Consume what is due at the present time, publish the notices. */
    method BoundaryControl(at: Instant)
      requires Running() && InTime(bound, store, at) && at.ns == store.cut.instant.ns && Forward(store, at.ns)
      requires at == store.cut.instant || Planned(bound, store, at.ns, BoundaryStep(at))
      modifies this`store, this`journal, this`script
      ensures Running() && store.sealed == old(store).sealed && |script| <= |old(script)|
      ensures Waved(old(store), store, {}, at) && Controls(bound, old(store), at, store)
      ensures old(journal) <= journal && (old(Standing(bound, store, at.ns)) ==> SweptAt(at.ns))
      ensures Room() >= old(Room()) || at.microstep <= old(store).cut.instant.microstep
      ensures old(script) != [] ==> |script| < |old(script)|
    {
      Consume(at);
      ghost var merged, written := store, journal;
      Poll();
      WavedThenHost(old(store), merged, store, {}, at);
      ControlsThenHost(bound, old(store), at, merged, store);
      if old(Standing(bound, store, at.ns)) {
        SweptMore(bound, initial, written, journal, at.ns);
      }
    }

    method Consume(at: Instant)
      requires Running() && InTime(bound, store, at) && at.ns == store.cut.instant.ns && Forward(store, at.ns)
      requires at == store.cut.instant || Planned(bound, store, at.ns, BoundaryStep(at))
      modifies this`store, this`journal
      ensures script == old(script)
      ensures Running() && store.sealed == old(store).sealed && Waved(old(store), store, {}, at)
      ensures Controls(bound, old(store), at, store)
      ensures old(journal) <= journal && (old(Standing(bound, store, at.ns)) ==> SweptAt(at.ns))
      ensures Room() >= old(Room()) || at.microstep <= old(store).cut.instant.microstep
    {
      var notices := NoticesOf(bound, world, store);
      BoundaryWritten(bound, world, initial, journal, store, at);
      PublishBoundary(Bounded(bound, store, at, notices).value, BoundaryRecord(at, notices));
    }

    /** Publish what a boundary consumed. */
    method PublishBoundary(next: State, record: Record)
      requires Running() && record.BoundaryRecord? && record.at.ns == store.cut.instant.ns
      requires Consumes(bound, world, initial, journal, store, record, next)
      modifies this`store, this`journal
      ensures script == old(script)
      ensures Running() && store.sealed == old(store).sealed && Waved(old(store), store, {}, record.at)
      ensures Controls(bound, old(store), record.at, store)
      ensures old(journal) <= journal && (old(Standing(bound, store, record.at.ns)) ==> SweptAt(record.at.ns))
      ensures Room() >= old(Room()) || record.at.microstep <= old(store).cut.instant.microstep
    {
      Publish(next, record);
    }

    /** Write the seal of what is settled: the journal stays undisturbed exactly when it is written in calm. */
    method SealAt(ns: nat)
      requires Running() && SealedFrom(bound, store, ns) && SweptAt(ns)
      requires forall h :: h in Bounds(world, store.cut.index) ==> h > ns
      modifies this`store, this`journal
      ensures script == old(script)
      ensures Idle() && store == Sealed(old(store), ns)
      ensures Undisturbed(journal) <==> old(Calm(journal))
      ensures old(Calm(journal)) <==> NoLate(old(store), ns)
    {
      SealLives(bound, world, initial, journal, store, ns);
      SealedInCalm(bound, world, initial, journal, store, ns);
      SealedOrderly(bound, store, ns);
      Extends(bound, world, initial, journal, store, Seal(store.cut.instant, ns), Sealed(store, ns));
      Publish(Sealed(store, ns), Seal(store.cut.instant, ns));
    }

    // ---- settlement ----

    /** What settling at one physical time starts from. */
    ghost predicate AtBoundary(ns: nat, seal: bool)
      reads this`store, this`journal
    {
      && Running() && store.cut.instant.ns == ns && Forward(store, ns)
      && (seal ==> Standing(bound, store, ns) && SweptAt(ns))
    }

    /** Run everything due at one physical time, each step at a strictly later microstep, then seal it. */
    method Settle(ns: nat, seal: bool)
      requires AtBoundary(ns, seal)
      modifies this`store, this`journal, this`script
      ensures Valid() && |script| <= |old(script)|
      ensures !store.faulted ==> Idle() && store.cut.instant.ns == ns
      ensures !seal || old(store).sealed.None? ==> Undisturbed(journal)
      ensures store.sealed == if seal && !store.faulted then Some(ns) else old(store).sealed
      ensures store.runTarget == if seal && !store.faulted && old(store).runTarget == Some(ns) then None
        else old(store).runTarget
      ensures !seal && !store.faulted ==> SafelySettled(bound, store, ns)
      ensures !store.faulted ==> StandStill(old(store), store, ns)
      ensures store.faulted ==> FaultOf(journal).Some? && InSettle(FaultOf(journal).value, seal)
    {
      Work(ns, seal);
      if seal && !store.faulted {
        ghost var settled := store;
        SealSettled(ns);
        if !store.faulted {
          SameStandStill(old(store), settled, store, ns);
        }
      }
    }

    /** Seal what is settled, unless an engine's bound lies at or before it. */
    method SealSettled(ns: nat)
      requires Running() && SealedFrom(bound, store, ns) && SweptAt(ns)
      modifies this`store, this`journal, this`script
      ensures Valid() && |script| <= |old(script)|
      ensures !store.faulted ==> Idle() && store.cut.instant.ns == ns
      ensures old(store).sealed.None? ==> Undisturbed(journal)
      ensures store.sealed == if store.faulted then old(store).sealed else Some(ns)
      ensures store.runTarget == if !store.faulted && old(store).runTarget == Some(ns) then None
        else old(store).runTarget
      ensures store.faulted ==> FaultOf(journal).Some? && FaultOf(journal).value.HorizonStalled?
      ensures store.frontiers == old(store).frontiers && store.timers == old(store).timers && Renews(old(store), store)
      ensures !store.faulted && old(script) != [] ==> |script| < |old(script)|
    {
      HauntedUnlessCalm(bound, world, initial, journal, store);
      var bounds := Bounds(world, store.cut.index);
      if h :| h in bounds && h <= ns {
        Fault(HorizonStalled(ns));
      } else {
        SealAt(ns);
        Poll();
      }
    }

    /** Same-time work until nothing is due: one wave or boundary for each microstep it moves on, within the pinned
        number of them. It fails for lack of microsteps, for a chosen partition that cannot react, for a batch that
        is refused, and, only while not everyone is at the boundary, when nobody is ready for what is due. */
    method Work(ns: nat, seal: bool)
      requires AtBoundary(ns, seal)
      modifies this`store, this`journal, this`script
      ensures Valid() && Undisturbed(journal) && |script| <= |old(script)|
      ensures store.sealed == old(store).sealed && store.runTarget == old(store).runTarget
      ensures !store.faulted ==>
        AtBoundary(ns, seal) && SafelySettled(bound, store, ns) && StandStill(old(store), store, ns)
      ensures !store.faulted && seal ==> Settled(bound, store, ns)
      ensures store.faulted ==> FaultOf(journal).Some? && InSettling(FaultOf(journal).value, seal)
      ensures Steps(journal) - old(Steps(journal)) <=
        store.cut.instant.microstep - old(store).cut.instant.microstep <= bound.maxMicrosteps
    {
      ghost var room := Room();
      while true
        invariant AtBoundary(ns, seal) && |script| <= |old(script)| && Room() >= room
        invariant StandStill(old(store), store, ns)
        invariant store.sealed == old(store).sealed && store.runTarget == old(store).runTarget
        decreases bound.maxMicrosteps - store.cut.instant.microstep, |script|
      {
        var plan := PlanStep(bound, store, ns, seal);
        if plan.Done? {
          break;
        }
        StepAt(plan, ns, seal);
        if store.faulted {
          return;
        }
      }
    }

    /** One settlement step. */
    method StepAt(plan: Plan, ns: nat, ghost seal: bool)
      requires AtBoundary(ns, seal) && !plan.Done? && Planned(bound, store, ns, plan)
      modifies this`store, this`journal, this`script
      ensures Valid() && Undisturbed(journal) && |script| <= |old(script)|
      ensures store.sealed == old(store).sealed && store.runTarget == old(store).runTarget
      ensures !store.faulted ==> AtBoundary(ns, seal) && Progresses(old(store), |old(script)|, store, |script|, ns)
      ensures store.faulted ==> FaultOf(journal).Some? && InSettling(FaultOf(journal).value, seal)
      ensures Room() >= old(Room())
    {
      PlannedLater(bound, world, store, ns, plan);
      if plan.at.microstep > bound.maxMicrosteps {
        Fault(MicrostepLimit(plan.at));
      } else if plan.BoundaryStep? {
        BoundaryControl(plan.at);
        if seal {
          StandingStays(bound, old(store), store, ns);
        }
      } else if plan.SampleStep? {
        WaveAt(plan.selected, plan.at, SamplePhase, seal);
      } else {
        ReactAt(plan.at, seal);
      }
    }

    /** The canonical ready cohorts react; one that cannot fails the run. */
    method ReactAt(at: Instant, ghost seal: bool)
      requires AtBoundary(at.ns, seal) && at.microstep <= bound.maxMicrosteps
      requires Planned(bound, store, at.ns, ReactStep(at))
      modifies this`store, this`journal, this`script
      ensures Valid() && Undisturbed(journal) && |script| <= |old(script)|
      ensures store.sealed == old(store).sealed && store.runTarget == old(store).runTarget
      ensures !store.faulted ==>
        AtBoundary(at.ns, seal) && Progresses(old(store), |old(script)|, store, |script|, at.ns)
      ensures store.faulted ==> FaultOf(journal).Some? && InSettling(FaultOf(journal).value, seal)
      ensures Room() >= old(Room())
    {
      var chosen := ReadyPartitions(Ready(bound, store, at), bound.cohorts, Lifecycle(bound));
      ReactOwn(bound, world, store, chosen, at);
      if p :| p in chosen && p in bound.partitions && !bound.partitions[p].reactive {
        Fault(Unreactive(at, p));
      } else {
        WaveAt(chosen, at, ReactPhase, seal);
      }
    }

    /** A wave of settlement: it moves time, or the host moved first. When everyone stands at the boundary it is
        never refused. */
    method WaveAt(selected: set<string>, at: Instant, phase: Phase, ghost seal: bool)
      requires AtBoundary(at.ns, seal) && at.microstep <= bound.maxMicrosteps
        && (phase.ReactPhase? || phase.SamplePhase?)
      requires at.microstep > store.cut.instant.microstep && OwnSelection(bound, world, store, selected, at, phase)
      modifies this`store, this`journal, this`script
      ensures Valid() && Undisturbed(journal) && |script| <= |old(script)|
      ensures store.sealed == old(store).sealed && store.runTarget == old(store).runTarget
      ensures !store.faulted ==>
        AtBoundary(at.ns, seal) && Progresses(old(store), |old(script)|, store, |script|, at.ns)
      ensures store.faulted ==> FaultOf(journal).Some? && InSettling(FaultOf(journal).value, seal)
      ensures Room() >= old(Room())
    {
      if seal && phase.ReactPhase? {
        ReadyStanding(bound, world, store, selected, at);
      }
      ghost var before, written, calls := store, journal, |script|;
      var done := Wave(selected, at, phase);
      if store.faulted {
        WaveFails(FaultOf(journal).value, phase, seal);
      } else {
        WaveSettles(bound, initial, before, calls, written, store, |script|, journal, selected, at, done, seal);
      }
    }

    /** Reset every partition, settle time zero and seal it. */
    method Start()
      requires Idle() && Populated(bound) && journal == [] && store.cut == Cut(0, Instant(0, 0))
      requires forall x :: x in store.watermarks ==> store.watermarks[x] >= 0
      modifies this`store, this`journal, this`script
      ensures Valid() && Undisturbed(journal) && |script| <= |old(script)|
      ensures !store.faulted ==> Running() && store.sealed == Some(0)
      ensures store.faulted ==> FaultOf(journal).Some? && InSettle(FaultOf(journal).value, true)
      ensures ReplayAll(bound, initial, journal) == Some(store) && Accounted(bound, world, initial, journal)
    {
      assert bound.partitions.Keys <= Safe(bound, store, 0);
      var done := Execute(bound.partitions.Keys, Instant(0, 0), Reset);
      if done {
        SafeStays(bound, old(store), store, 0);
        SweptHere(bound, world, initial, journal, store, 0);
        Settle(0, true);
      }
      LiveReplays(bound, world, initial, journal, store);
      LiveAccounted(bound, world, initial, journal, store);
    }

    // ---- boundaries ----

    /** Wait until every stream is closed to a time. False when no more host input will come; a changed cut means
        the caller must plan again. */
    method WaitWatermark(to: nat) returns (proceed: bool)
      requires Running()
      modifies this`store, this`journal, this`script
      ensures Running() && HostOnly(old(store), store) && |script| <= |old(script)|
      ensures store != old(store) ==> |script| < |old(script)|
      ensures proceed && store == old(store) ==> bound.partitions.Keys <= Safe(bound, store, to)
      ensures !proceed ==> Waiting(to) && store == old(store)
      ensures proceed && bound.streamed && old(script) != [] ==> |script| < |old(script)|
    {
      if !bound.streamed {
        return true;
      }
      var selected := store.cut;
      while !(bound.partitions.Keys <= Safe(bound, store, to))
        invariant Running() && store == old(store) && |script| <= |old(script)|
        decreases |script|
      {
        if script == [] {
          return false;
        }
        Poll();
        if store.cut != selected {
          return true;
        }
      }
      Poll();
      return true;
    }

    /** The host has nothing more to say, and some stream is not closed to a time. */
    ghost predicate Waiting(to: nat)
      requires Valid()
      reads this`store, this`journal, this`script
    {
      script == [] && bound.streamed && !(bound.partitions.Keys <= Safe(bound, store, to))
    }

    /** A run on its way to a boundary beyond its seal. */
    ghost predicate Aiming(to: nat)
      reads this`store, this`journal
    {
      Running() && Aim(world, store, to)
    }

    /** Grant a boundary to the safe partitions short of it; false when the host moved first or the run failed. */
    method Advance(selected: set<string>, to: nat) returns (done: bool)
      requires Aiming(to) && selected == Trailing(bound, store, to) && selected != {}
      modifies this`store, this`journal, this`script
      ensures Valid() && Undisturbed(journal) && |script| <= |old(script)|
      ensures store.sealed == old(store).sealed && store.runTarget == old(store).runTarget
      ensures !store.faulted ==> Running()
      ensures done ==> !store.faulted && store.cut.instant.ns == to && Stands(old(store), store, to)
      ensures done ==> AllAt(store, selected, to)
      ensures !done && !store.faulted ==> HostOnly(old(store), store) && |script| < |old(script)|
      ensures !done && !store.faulted ==> store.cut != old(store).cut
      ensures store.faulted ==> FaultOf(journal).Some? && InAdvancing(FaultOf(journal).value)
    {
      AdvanceOwn(bound, world, store, to);
      if GrantAt(store, to).microstep > bound.maxMicrosteps {
        Fault(MicrostepLimit(GrantAt(store, to)));
        return false;
      }
      ghost var at := GrantAt(store, to);
      done := Wave(selected, GrantAt(store, to), AdvancePhase);
      if done {
        WavedStands(old(store), store, selected, at);
      }
    }

    /** Those safe at a boundary and short of it before caught up with it, unless everyone was safe and nothing was
        done. */
    ghost predicate SafeCaughtUp(before: State, to: nat)
      requires StateValid(bound, before) && Valid()
      reads this`store, this`journal
    {
      || Caught(bound, before, store, Trailing(bound, before, to), to)
      || (store == before && bound.partitions.Keys <= Safe(bound, store, to))
    }

    /** While only some partitions are safe, let those catch up and settle without sealing. Returns the cut the
        rest of the plan was made for. */
    method AdvanceSafe(to: nat) returns (planned: Cut)
      requires Aiming(to) && bound.streamed
      modifies this`store, this`journal, this`script
      ensures Valid() && Undisturbed(journal) && |script| <= |old(script)|
      ensures store.sealed == old(store).sealed && store.runTarget == old(store).runTarget
      ensures !store.faulted ==> Running() && if planned == store.cut then Aiming(to) else |script| < |old(script)|
      ensures !store.faulted ==> old(store).cut.instant.ns <= store.cut.instant.ns
      ensures !store.faulted && planned == store.cut ==> SafeCaughtUp(old(store), to)
      ensures store.faulted ==> FaultOf(journal).Some? && InCatchingUp(FaultOf(journal).value)
      ensures !store.faulted && planned == store.cut ==> TimersAhead(old(store), store, Instant(to, 0))
    {
      var safe, selected := Safe(bound, store, to), Trailing(bound, store, to);
      if selected != {} && safe != bound.partitions.Keys {
        planned := PollThenCatchUp(selected, to);
      } else {
        planned := store.cut;
      }
    }

    /** Let the host in, then catch up unless it moved. */
    method PollThenCatchUp(selected: set<string>, to: nat) returns (planned: Cut)
      requires Aiming(to) && bound.streamed && selected == Trailing(bound, store, to) && selected != {}
      modifies this`store, this`journal, this`script
      ensures Valid() && Undisturbed(journal) && |script| <= |old(script)|
      ensures store.sealed == old(store).sealed && store.runTarget == old(store).runTarget
      ensures !store.faulted ==> Running() && if planned == store.cut then Aiming(to) else |script| < |old(script)|
      ensures !store.faulted ==> old(store).cut.instant.ns <= store.cut.instant.ns
      ensures !store.faulted && planned == store.cut ==> Caught(bound, old(store), store, selected, to)
      ensures store.faulted ==> FaultOf(journal).Some? && InCatchingUp(FaultOf(journal).value)
      ensures !store.faulted && planned == store.cut ==> TimersAhead(old(store), store, Instant(to, 0))
    {
      planned := store.cut;
      Poll();
      if store.cut == planned {
        assert store == old(store);
        var done := CatchUp(selected, to);
        planned := if done then store.cut else planned;
      }
    }

    /** Advance the safe partitions, consume what is due for them and settle what is safe, without a seal. */
    method CatchUp(selected: set<string>, to: nat) returns (done: bool)
      requires Aiming(to) && bound.streamed && selected == Trailing(bound, store, to) && selected != {}
      modifies this`store, this`journal, this`script
      ensures Valid() && Undisturbed(journal) && |script| <= |old(script)|
      ensures store.sealed == old(store).sealed && store.runTarget == old(store).runTarget
      ensures !store.faulted && done ==> Aiming(to) && store.cut.instant.ns == to && SafelySettled(bound, store, to)
      ensures !store.faulted && done ==> Caught(bound, old(store), store, selected, to)
      ensures !store.faulted && !done ==> Running() && HostOnly(old(store), store) && |script| < |old(script)|
      ensures !store.faulted && !done ==> store.cut != old(store).cut
      ensures store.faulted ==> FaultOf(journal).Some? && InCatchingUp(FaultOf(journal).value)
    {
      done := Advance(selected, to);
      if done {
        ghost var advanced := store;
        BoundaryControl(store.cut.instant);
        ghost var controlled := store;
        Settle(to, false);
        if !store.faulted {
          Catches(bound, old(store), advanced, advanced.cut.instant, controlled, store, selected);
        }
      }
    }

    /** Bring everyone to the boundary and consume what is due there; false when the host moved first. */
    method AdvanceAll(to: nat, timerDue: bool) returns (stepped: bool)
      requires Aiming(to) && bound.partitions.Keys <= Safe(bound, store, to)
      requires timerDue || NoneDue(store, Instant(to, 0))
      modifies this`store, this`journal, this`script
      ensures Valid() && Undisturbed(journal) && |script| <= |old(script)|
      ensures store.sealed == old(store).sealed && store.runTarget == old(store).runTarget
      ensures !store.faulted && stepped ==> AtBoundary(to, true)
      ensures !store.faulted && !stepped ==> Running() && HostOnly(old(store), store) && |script| < |old(script)|
      ensures store.faulted ==> FaultOf(journal).Some? && InAdvancing(FaultOf(journal).value)
      ensures !store.faulted && stepped ==> NoneDue(store, Instant(to, 0))
    {
      var selected := Behind(store, to);
      BehindIsTrailing(bound, store, to);
      if selected != {} {
        var done := Advance(selected, to);
        if !done {
          return false;
        }
        CaughtUp(bound, old(store), store, to);
      } else {
        NobodyBehind(bound, store, to);
      }
      ConsumeDue(to, timerDue);
      return true;
    }

    /** Once everyone stands at a boundary, consume what is due there. */
    method ConsumeDue(to: nat, timerDue: bool)
      requires Aiming(to) && Standing(bound, store, to)
      requires timerDue || NoneDue(store, Instant(to, 0))
      modifies this`store, this`journal, this`script
      ensures AtBoundary(to, true) && |script| <= |old(script)|
      ensures store.sealed == old(store).sealed && store.runTarget == old(store).runTarget
      ensures NoneDue(store, Instant(to, 0))
      ensures if timerDue || exists i :: i in old(store).pending && old(store).pending[i].boundary <= to
        then Controls(bound, old(store), old(store).cut.instant, store) else store == old(store)
    {
      if timerDue || exists i :: i in store.pending && store.pending[i].boundary <= to {
        BoundaryControl(store.cut.instant);
        StandingStays(bound, old(store), store, to);
        ControlsClear(bound, old(store), old(store).cut.instant, store);
      } else {
        SweptHere(bound, world, initial, journal, store, to);
      }
    }

    /** Let the host in at the gate of a boundary, catch safe partitions up and wait for the streams. `ready` says
        that nothing changed since the plan and everyone is safe. */
    method Gate(to: nat) returns (ready: bool, blocked: bool)
      requires Aiming(to)
      modifies this`store, this`journal, this`script
      ensures Valid() && Undisturbed(journal) && |script| <= |old(script)|
      ensures store.sealed == old(store).sealed && store.runTarget == old(store).runTarget
      ensures !store.faulted ==> Running() && (ready || blocked || |script| < |old(script)|)
      ensures !store.faulted ==> old(store).cut.instant.ns <= store.cut.instant.ns
      ensures !store.faulted && ready ==> Aiming(to) && bound.partitions.Keys <= Safe(bound, store, to)
      ensures !store.faulted && blocked ==>
        Waiting(to) && Caught(bound, old(store), store, Trailing(bound, old(store), to), to)
      ensures store.faulted ==> FaultOf(journal).Some? && InCatchingUp(FaultOf(journal).value)
      ensures old(script) != [] ==> |script| < |old(script)|
      ensures !store.faulted && ready ==> TimersAhead(old(store), store, Instant(to, 0))
    {
      var planned := store.cut;
      Poll();
      if store.cut == planned {
        ready, blocked := Close(to);
      } else {
        ready, blocked := false, false;
      }
    }

    /** The rest of the gate: safe partitions catch up, then everyone waits for the streams. */
    method Close(to: nat) returns (ready: bool, blocked: bool)
      requires Aiming(to)
      modifies this`store, this`journal, this`script
      ensures Valid() && Undisturbed(journal) && |script| <= |old(script)|
      ensures store.sealed == old(store).sealed && store.runTarget == old(store).runTarget
      ensures !store.faulted ==> Running() && (ready || blocked || |script| < |old(script)|)
      ensures !store.faulted ==> old(store).cut.instant.ns <= store.cut.instant.ns
      ensures !store.faulted && ready ==> Aiming(to) && bound.partitions.Keys <= Safe(bound, store, to)
      ensures !store.faulted && blocked ==>
        Waiting(to) && Caught(bound, old(store), store, Trailing(bound, old(store), to), to)
      ensures store.faulted ==> FaultOf(journal).Some? && InCatchingUp(FaultOf(journal).value)
      ensures !store.faulted && ready ==> TimersAhead(old(store), store, Instant(to, 0))
      ensures ready && old(script) != [] ==> |script| < |old(script)|
    {
      ready, blocked := false, false;
      var planned := store.cut;
      if bound.streamed {
        planned := AdvanceSafe(to);
      }
      if !store.faulted && store.cut == planned {
        var proceed := WaitWatermark(to);
        blocked := !proceed;
        if proceed && store.cut == planned {
          Poll();
          ready := store.cut == planned;
        }
      }
    }

    // ---- the run ----

    /** What every part of a run to a limit keeps. */
    ghost predicate RunsTo(limit: nat)
      reads this`store, this`journal
    {
      && Idle() && Populated(bound) && store.sealed.Some?
      && (store.sealed.value < limit ==> store.runTarget == Some(limit))
    }

    /** Some stream is not closed to a boundary within reach, and the host has nothing more to say. */
    ghost predicate Blocked(limit: nat)
      requires Valid()
      reads this`store, this`journal, this`script
    {
      exists to: nat :: BlockedAt(limit, to)
    }

    ghost predicate BlockedAt(limit: nat, to: nat)
      requires Valid()
      reads this`store, this`journal, this`script
    {
      && store.sealed.Some? && store.sealed.value < to <= Max(limit, store.cut.instant.ns)
      && Waiting(to)
    }

    lemma BlockedHere(limit: nat, to: nat)
      requires Valid() && Waiting(to) && store.sealed.Some?
      requires store.sealed.value < to && (to <= limit || to <= store.cut.instant.ns)
      ensures Blocked(limit)
    {
      assert BlockedAt(limit, to);
    }

    /** How a run to a limit stands after some turns. */
    ghost predicate Stepped(outcome: Outcome, limit: nat)
      reads this`store, this`journal, this`script
    {
      && Valid() && outcome != Backward && (store.faulted <==> outcome == Faulted)
      && (store.faulted ==> store.runTarget == Some(limit) && FaultOf(journal).Some?)
      && (!store.faulted ==> RunsTo(limit))
      && (outcome == Yielded ==> Blocked(limit))
    }

    /** One boundary: sealed, or to be planned again, or the end of the run. A run disturbed by a cancellation goes
        no further. */
    method RunBoundary(limit: nat) returns (outcome: Outcome)
      requires RunsTo(limit) && store.sealed.value < limit
      modifies this`store, this`journal, this`script
      ensures Stepped(outcome, limit) && |script| <= |old(script)| && SealedNoEarlier(old(store), store)
      ensures old(!Undisturbed(journal)) ==> outcome == Faulted && FaultOf(journal).value.NoProgress?
      ensures outcome == Reached ==> |script| < |old(script)| || old(store).sealed.value < store.sealed.value
    {
      var bounds := Bounds(world, store.cut.index);
      var to := LeastBoundary(store, bounds, limit);
      BoundaryPlanned(bound, world, initial, journal, store, limit, to);
      if to <= store.sealed.value {
        Fault(NoProgress(to));
        outcome := Faulted;
      } else {
        outcome := RunOn(Max(to, store.cut.instant.ns), limit);
      }
    }

    /** One boundary of a run that goes on; waiting there, the run is blocked. */
    method RunOn(to: nat, ghost limit: nat) returns (outcome: Outcome)
      requires RunsTo(limit) && store.sealed.value < limit && Aiming(to) && to <= Max(limit, store.cut.instant.ns)
      modifies this`store, this`journal, this`script
      ensures Stepped(outcome, limit) && |script| <= |old(script)| && SealedNoEarlier(old(store), store)
      ensures outcome == Reached ==> |script| < |old(script)| || old(store).sealed.value < store.sealed.value
      ensures outcome == Yielded ==> Caught(bound, old(store), store, Trailing(bound, old(store), to), to)
    {
      outcome := RunTo(to, limit);
      if outcome == Yielded {
        BlockedHere(limit, to);
      }
    }

    /** Once a partial wave exists, the boundary is the time it stands at: the journal never moves back. */
    method RunTo(to: nat, ghost limit: nat) returns (outcome: Outcome)
      requires RunsTo(limit) && store.sealed.value < limit && Aiming(to) && to <= Max(limit, store.cut.instant.ns)
      modifies this`store, this`journal, this`script
      ensures Valid() && |script| <= |old(script)| && SealedNoEarlier(old(store), store)
      ensures store.faulted <==> outcome == Faulted
      ensures store.faulted ==> store.runTarget == Some(limit) && FaultOf(journal).Some?
      ensures !store.faulted ==> RunsTo(limit) && outcome != Backward
      ensures outcome == Reached ==> |script| < |old(script)| || old(store).sealed.value < store.sealed.value
      ensures outcome == Yielded ==>
        && Waiting(to) && store.sealed == old(store).sealed && old(store).cut.instant.ns <= store.cut.instant.ns
        && Caught(bound, old(store), store, Trailing(bound, old(store), to), to)
      ensures old(script) != [] ==> |script| < |old(script)|
    {
      var timerDue := exists key :: key in store.timers && AtMost(store.timers[key], Instant(to, 0));
      var ready, blocked := Gate(to);
      if store.faulted {
        outcome := Faulted;
      } else if ready {
        outcome := SealBoundary(to, timerDue, limit);
      } else {
        outcome := if blocked then Yielded else Reached;
      }
    }

    /** Everyone advances, what is due is consumed, same-time work settles, the boundary is sealed. */
    method SealBoundary(to: nat, timerDue: bool, ghost limit: nat) returns (outcome: Outcome)
      requires RunsTo(limit) && store.sealed.value < limit && Aiming(to)
      requires bound.partitions.Keys <= Safe(bound, store, to)
      requires timerDue || NoneDue(store, Instant(to, 0))
      modifies this`store, this`journal, this`script
      ensures Valid() && |script| <= |old(script)| && SealedNoEarlier(old(store), store)
      ensures outcome == if store.faulted then Faulted else Reached
      ensures store.faulted ==> store.runTarget == Some(limit) && FaultOf(journal).Some?
      ensures !store.faulted ==>
        RunsTo(limit) && (|script| < |old(script)| || old(store).sealed.value < store.sealed.value)
    {
      var stepped := AdvanceAll(to, timerDue);
      if !store.faulted && stepped {
        Settle(to, true);
      }
      outcome := if store.faulted then Faulted else Reached;
    }

    /** Run and seal, boundary by boundary, up to a limit. The seal only moves forward, and the replayer reproduces
        the journal exactly when no seal in it was disturbed. A run ends at its limit, or waiting for a stream after
        the host's last call, or with a fault for a reason found in the store; once disturbed it always fails, and it
        overruns its own limit only from a partial wave that already stands beyond it. */
    method RunUntil(limit: nat) returns (outcome: Outcome)
      requires Idle() && Populated(bound)
      modifies this`store, this`journal, this`script
      ensures Valid() && |script| <= |old(script)| && SealedNoEarlier(old(store), store)
      ensures ReplayAll(bound, initial, journal) == if Undisturbed(journal) then Some(store) else None
      ensures Accounted(bound, world, initial, journal)
      ensures outcome == Backward <==> old(store).sealed.None? || limit < old(store).sealed.value
      ensures outcome == Backward ==> store == old(store) && journal == old(journal)
      ensures outcome == Faulted <==> store.faulted
      ensures store.faulted ==> FaultOf(journal).Some?
      ensures store.faulted && FaultOf(journal).value.BeyondTarget? ==> limit < store.cut.instant.ns
      ensures !store.faulted ==> Idle()
      ensures outcome == Reached ==> store.sealed.Some? && limit <= store.sealed.value
      ensures outcome == Yielded ==> Blocked(limit)
      ensures outcome != Backward && old(!Undisturbed(journal)) && old(store).sealed.value < limit ==>
        outcome == Faulted
    {
      if store.sealed.None? || limit < store.sealed.value {
        outcome := Backward;
      } else if limit == store.sealed.value {
        outcome := Reached;
      } else {
        outcome := RunBeyond(limit);
      }
      LiveReplays(bound, world, initial, journal, store);
      LiveAccounted(bound, world, initial, journal, store);
    }

    /** A run to a limit beyond the seal. */
    method RunBeyond(limit: nat) returns (outcome: Outcome)
      requires Idle() && Populated(bound) && store.sealed.Some? && store.sealed.value < limit
      modifies this`store, this`journal, this`script
      ensures Stepped(outcome, limit) && |script| <= |old(script)| && SealedNoEarlier(old(store), store)
      ensures store.faulted && FaultOf(journal).value.BeyondTarget? ==> limit < store.cut.instant.ns
      ensures outcome == Reached ==> limit <= store.sealed.value
      ensures old(!Undisturbed(journal)) ==> outcome == Faulted
      ensures old(script) != [] ==> |script| < |old(script)|
    {
      LimitWritten(bound, world, initial, journal, store, limit);
      Publish(Limited(store, limit), RunLimit(limit));
      Poll();
      outcome := RunBoundaries(limit);
      if store.faulted {
        OverrunExplained(bound, world, initial, journal, store);
      }
    }

    method RunBoundaries(limit: nat) returns (outcome: Outcome)
      requires RunsTo(limit)
      modifies this`store, this`journal, this`script
      ensures Stepped(outcome, limit) && |script| <= |old(script)| && SealedNoEarlier(old(store), store)
      ensures outcome == Reached ==> limit <= store.sealed.value
      ensures old(!Undisturbed(journal)) && old(store).sealed.value < limit ==> outcome == Faulted
    {
      outcome := Reached;
      while outcome == Reached && store.sealed.value < limit
        invariant Stepped(outcome, limit) && |script| <= |old(script)| && SealedNoEarlier(old(store), store)
        invariant old(!Undisturbed(journal)) && old(store).sealed.value < limit ==>
          outcome == Faulted || (outcome == Reached && store == old(store) && journal == old(journal))
        decreases outcome == Reached, |script|, limit - store.sealed.value
      {
        outcome := RunBoundary(limit);
      }
    }
  }
}
