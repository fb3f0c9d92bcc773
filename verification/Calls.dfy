/** Whom a wave calls, and what it grants them, read off the state before it. */
module Calls {
  import opened Cohorts
  import opened NativeGrid
  import opened Replay
  import opened RunState
  import opened Time
  import Sampling

  /** Every stream a partition depends on is closed to a time. */
  ghost predicate ClosedTo(b: Pinned, s: State, p: string, ns: int)
    requires WatermarksValid(b, s)
  {
    p in b.dependencies && forall x :: x in b.dependencies[p] ==> s.watermarks[x] >= ns
  }

  lemma SafeIsClosed(b: Pinned, s: State, p: string, ns: int)
    requires WatermarksValid(b, s)
    ensures p in Safe(b, s, ns) <==> ClosedTo(b, s, p, ns)
  {
  }

  /** With streams, calls at a time are for partitions that stand there and are closed to it. */
  ghost predicate Present(b: Pinned, s: State, p: string, ns: nat)
    requires WatermarksValid(b, s) && FrontiersValid(b, s) && p in b.partitions
  {
    b.streamed ==> ClosedTo(b, s, p, ns) && s.frontiers[p].logical.ns == ns
  }

  /** Ordinary work is due for a partition. */
  ghost predicate DueFor(b: Pinned, s: State, p: string, at: Instant)
    requires WatermarksValid(b, s) && FrontiersValid(b, s)
  {
    && p in b.partitions && b.partitions[p].sampleLevel.None? && Present(b, s, p, at.ns)
    && exists i :: i in s.work && s.work[i].recipient == p && AtMost(s.work[i].eligible, at)
  }

  /** Input is due for a sampled evaluator. */
  ghost predicate SampleDue(b: Pinned, s: State, p: string, ns: nat)
    requires WatermarksValid(b, s) && FrontiersValid(b, s)
  {
    && p in b.partitions && b.partitions[p].sampleLevel.Some? && ClosedTo(b, s, p, ns)
    && (b.streamed ==> s.frontiers[p].logical.ns == ns)
    && exists i :: i in s.work && s.work[i].recipient == p && s.work[i].eligible.ns <= ns
  }

  /** A partition controls lifecycles, or is in a cohort with one that does. */
  ghost predicate Governs(b: Pinned, p: string) {
    exists c :: c in b.partitions && b.partitions[c].lifecycle && Together(b.cohorts, c, p)
  }

  /** Whom a phase calls at an instant: everyone to reset; to advance, whoever is closed to the time and short of it,
      or everyone without streams; the due evaluators of the lowest level to sample; and to react, those for whom work
      is due with their cohorts, but as long as such work is due for a partition that governs, only those that do. */
  ghost predicate Calls(b: Pinned, s: State, p: string, at: Instant, phase: Phase)
    requires WatermarksValid(b, s) && FrontiersValid(b, s) && p in b.partitions
  {
    match phase
    case Reset => true
    case AdvancePhase => b.streamed ==> ClosedTo(b, s, p, at.ns) && s.frontiers[p].logical.ns < at.ns
    case SamplePhase =>
      && SampleDue(b, s, p, at.ns)
      && forall q :: SampleDue(b, s, q, at.ns) ==>
        b.partitions[p].sampleLevel.value <= b.partitions[q].sampleLevel.value
    case ReactPhase =>
      exists q :: DueFor(b, s, q, at) && Together(b.cohorts, q, p)
        && (Governs(b, q) || forall r :: DueFor(b, s, r, at) ==> !Governs(b, r))
  }

  /** An accepted wave calls exactly those. */
  lemma CallsExactly(b: Pinned, s: State, selected: set<string>, at: Instant, phase: Phase, p: string)
    requires PinnedValid(b) && StateValid(b, s) && Replayed(b, s, Invocations(at, phase, selected)).Some?
    ensures p in selected <==> p in b.partitions && Calls(b, s, p, at, phase)
  {
    match phase
    case Reset =>
    case AdvancePhase => SafeIsClosed(b, s, p, at.ns);
    case SamplePhase => SampledExactly(b, s, at.ns, p);
    case ReactPhase => ReactsExactly(b, s, selected, at, p);
  }

  /** An item of ordinary work whose recipient is closed to its time. */
  ghost predicate OrdinaryItem(b: Pinned, s: State, i: nat)
    requires WatermarksValid(b, s)
  {
    && i in s.work && s.work[i].recipient in b.partitions && b.partitions[s.work[i].recipient].sampleLevel.None?
    && ClosedTo(b, s, s.work[i].recipient, s.work[i].eligible.ns)
  }

  /** When a wave may be recorded: resets first of all; an advance to a time beyond the seal and within the run limit,
      of somebody; samples and reactions at the present time and a later microstep, samples only once no ordinary work
      of a safe recipient is due, reactions of somebody. */
  ghost predicate Timely(b: Pinned, s: State, selected: set<string>, at: Instant, phase: Phase)
    requires WatermarksValid(b, s)
  {
    match phase
    case Reset => at == Instant(0, 0) && s.cut.index == 0
    case AdvancePhase =>
      && selected != {} && AtMost(s.cut.instant, at) && (!b.streamed ==> at.microstep == 0)
      && s.sealed.Some? && s.runTarget.Some? && s.sealed.value < at.ns <= s.runTarget.value
    case SamplePhase =>
      && at.ns == s.cut.instant.ns && Less(s.cut.instant, at)
      && forall i :: OrdinaryItem(b, s, i) ==> s.work[i].eligible.ns > at.ns
    case ReactPhase => at.ns == s.cut.instant.ns && Less(s.cut.instant, at) && selected != {}
  }

  /** The wave a state is in for: timely, with no calls unresolved, of exactly whom its phase calls, past no grid point
      that must be visited, in time. */
  ghost predicate Called(b: Pinned, s: State, selected: set<string>, at: Instant, phase: Phase)
    requires StateValid(b, s)
  {
    && !s.faulted && InTime(b, s, at) && s.intents == map[] && Timely(b, s, selected, at, phase)
    && (forall p :: p in selected <==> p in b.partitions && Calls(b, s, p, at, phase))
    && (phase.AdvancePhase? ==> forall p :: p in selected && p in b.partitions && p in s.frontiers ==>
          !Passes(b.partitions[p].timing, s.frontiers[p], at))
  }

  /** The replayer takes a wave's calls exactly when the state is in for that wave. */
  lemma WaveExactly(b: Pinned, s: State, selected: set<string>, at: Instant, phase: Phase)
    requires PinnedValid(b) && StateValid(b, s)
    ensures Replayed(b, s, Invocations(at, phase, selected)).Some? <==> Called(b, s, selected, at, phase)
  {
    if Replayed(b, s, Invocations(at, phase, selected)).Some? {
      TakenIsCalled(b, s, selected, at, phase);
    }
    if Called(b, s, selected, at, phase) {
      CalledIsTaken(b, s, selected, at, phase);
    }
  }

  lemma TakenIsCalled(b: Pinned, s: State, selected: set<string>, at: Instant, phase: Phase)
    requires PinnedValid(b) && StateValid(b, s) && Replayed(b, s, Invocations(at, phase, selected)).Some?
    ensures Called(b, s, selected, at, phase)
  {
    forall p ensures p in selected <==> p in b.partitions && Calls(b, s, p, at, phase) {
      CallsExactly(b, s, selected, at, phase, p);
    }
    TimelyExactly(b, s, selected, at, phase);
    CallsGranted(b, s, selected, at, phase, Replayed(b, s, Invocations(at, phase, selected)).value);
  }

  lemma CalledIsTaken(b: Pinned, s: State, selected: set<string>, at: Instant, phase: Phase)
    requires PinnedValid(b) && StateValid(b, s) && Called(b, s, selected, at, phase)
    ensures Replayed(b, s, Invocations(at, phase, selected)).Some?
  {
    CalledSelects(b, s, selected, at, phase);
    forall p | p in selected
      ensures Grant(b.partitions[p].timing, s.frontiers[p], CallOf(phase, at)).Some?
    {
      GrantExactly(b.partitions[p].timing, s.frontiers[p], phase, at);
    }
  }

  lemma TimelyExactly(b: Pinned, s: State, selected: set<string>, at: Instant, phase: Phase)
    requires PinnedValid(b) && StateValid(b, s) && Scheduled(b, s, selected, at, phase)
    ensures Timely(b, s, selected, at, phase)
  {
    if phase.SamplePhase? {
      OrdinaryExactly(b, s, at.ns);
    }
  }

  lemma OrdinaryExactly(b: Pinned, s: State, ns: nat)
    requires StateValid(b, s)
    ensures (forall e :: e in Ordinary(b, s) ==> e.ns > ns) <==>
      forall i :: OrdinaryItem(b, s, i) ==> s.work[i].eligible.ns > ns
  {
    forall i | OrdinaryItem(b, s, i) ensures s.work[i].eligible in Ordinary(b, s) {
      SafeIsClosed(b, s, s.work[i].recipient, s.work[i].eligible.ns);
    }
    forall e | e in Ordinary(b, s) ensures exists i :: OrdinaryItem(b, s, i) && s.work[i].eligible == e {
      var i :| i in s.work && !Sampled(b, s.work[i].recipient)
        && s.work[i].recipient in Safe(b, s, s.work[i].eligible.ns) && s.work[i].eligible == e;
      SafeIsClosed(b, s, s.work[i].recipient, s.work[i].eligible.ns);
      assert OrdinaryItem(b, s, i);
    }
  }

  lemma CalledSelects(b: Pinned, s: State, selected: set<string>, at: Instant, phase: Phase)
    requires PinnedValid(b) && StateValid(b, s) && Called(b, s, selected, at, phase)
    ensures Selects(b, s, selected, at, phase) && selected <= b.partitions.Keys
  {
    match phase
    case Reset => assert selected == b.partitions.Keys;
    case AdvancePhase =>
      forall p ensures p in selected <==> p in (if b.streamed then Trailing(b, s, at.ns) else b.partitions.Keys) {
        SafeIsClosed(b, s, p, at.ns);
      }
      assert selected == if b.streamed then Trailing(b, s, at.ns) else b.partitions.Keys;
    case SamplePhase =>
      OrdinaryExactly(b, s, at.ns);
      forall p ensures p in selected <==> p in SampleReady(b, s, at.ns) {
        SampledExactly(b, s, at.ns, p);
      }
      assert selected == SampleReady(b, s, at.ns);
    case ReactPhase => ReactorsAre(b, s, selected, at);
  }

  lemma ReactorsAre(b: Pinned, s: State, selected: set<string>, at: Instant)
    requires PinnedValid(b) && StateValid(b, s)
    requires forall p :: p in selected <==> p in b.partitions && Calls(b, s, p, at, ReactPhase)
    ensures LeastClosed(b.cohorts, Preferred(Ready(b, s, at), b.cohorts, Lifecycle(b)), selected)
  {
    forall q ensures q in Ready(b, s, at) <==> DueFor(b, s, q, at) {
      ReadyExactly(b, s, at, q);
    }
    forall q ensures Decides(b.cohorts, Lifecycle(b), q) <==> Governs(b, q) { }
    forall p
      ensures p in selected <==>
        if SomeDecider(Ready(b, s, at), b.cohorts, Lifecycle(b))
        then DeciderBrings(Ready(b, s, at), b.cohorts, Lifecycle(b), p)
        else Brings(Ready(b, s, at), b.cohorts, p)
    {
      BroughtBound(b, s, at, p);
    }
    ChosenIs(Ready(b, s, at), b.cohorts, Lifecycle(b), selected);
  }

  /** Whoever a ready partition brings in is bound. */
  lemma BroughtBound(b: Pinned, s: State, at: Instant, p: string)
    requires PinnedValid(b) && StateValid(b, s)
    ensures Brings(Ready(b, s, at), b.cohorts, p) ==> p in b.partitions
  {
    forall q ensures q in Ready(b, s, at) ==> q in b.partitions {
      ReadyExactly(b, s, at, q);
    }
  }

  lemma ReadyExactly(b: Pinned, s: State, at: Instant, p: string)
    requires StateValid(b, s)
    ensures p in Ready(b, s, at) <==> DueFor(b, s, p, at)
  {
    SafeIsClosed(b, s, p, at.ns);
  }

  lemma ReactsExactly(b: Pinned, s: State, selected: set<string>, at: Instant, p: string)
    requires PinnedValid(b) && StateValid(b, s) && Selects(b, s, selected, at, ReactPhase)
    requires selected <= b.partitions.Keys
    ensures p in selected <==> p in b.partitions && Calls(b, s, p, at, ReactPhase)
  {
    ChosenExactly(Ready(b, s, at), b.cohorts, Lifecycle(b), selected, p);
    forall q ensures q in Ready(b, s, at) <==> DueFor(b, s, q, at) {
      ReadyExactly(b, s, at, q);
    }
    forall q ensures Decides(b.cohorts, Lifecycle(b), q) <==> Governs(b, q) { }
  }

  lemma DueExactly(b: Pinned, s: State, ns: nat, p: string)
    requires StateValid(b, s)
    ensures p in DueSamples(b, s, ns) <==> SampleDue(b, s, p, ns)
  {
    SafeIsClosed(b, s, p, ns);
  }

  lemma SampledExactly(b: Pinned, s: State, ns: nat, p: string)
    requires StateValid(b, s)
    ensures p in SampleReady(b, s, ns) <==>
      && SampleDue(b, s, p, ns)
      && forall q :: SampleDue(b, s, q, ns) ==> b.partitions[p].sampleLevel.value <= b.partitions[q].sampleLevel.value
  {
    forall q ensures q in DueSamples(b, s, ns) <==> SampleDue(b, s, q, ns) {
      DueExactly(b, s, ns, q);
    }
  }

  // ---- what they are granted ----

  /** A frontier that a call leaves: logically at the call; native time stays, except that an advance takes it to the
      call's time unless the partition latches to a grid that has no point there. */
  ghost predicate Grants(t: Timing, f: Frontier, phase: Phase, at: Instant, g: Frontier) {
    && g.logical == at
    && g.native == if phase.AdvancePhase? && (!Latched(t) || OnGrid(t, at.ns)) then at.ns else f.native
  }

  /** An advance may not pass a point of a grid that must be visited. */
  ghost predicate Passes(t: Timing, f: Frontier, at: Instant) {
    Stepped(t) && !t.exactStop && exists ns: int :: f.native < ns < at.ns && OnGrid(t, ns)
  }

  /** A call is granted exactly when it passes no grid point, and what it is granted. */
  lemma GrantExactly(t: Timing, f: Frontier, phase: Phase, at: Instant)
    requires Bindable(t)
    ensures Grant(t, f, CallOf(phase, at)).None? <==> phase.AdvancePhase? && Passes(t, f, at)
    ensures Grant(t, f, CallOf(phase, at)).Some? ==> Grants(t, f, phase, at, Grant(t, f, CallOf(phase, at)).value)
  {
    if phase.AdvancePhase? && Stepped(t) {
      BoundaryIsLeast(t, at.ns, at.ns);
      BoundaryIsLeast(t, f.native + 1, 0);
      forall ns: int | f.native < ns < at.ns && OnGrid(t, ns) ensures Boundary(t, f.native + 1).value < at.ns {
        BoundaryIsLeast(t, f.native + 1, ns);
      }
    }
  }

  /** What an accepted wave's calls stand for: one for each partition selected, granted from where it stood. */
  lemma CallsGranted(b: Pinned, s: State, selected: set<string>, at: Instant, phase: Phase, next: State)
    requires PinnedValid(b) && StateValid(b, s) && Replayed(b, s, Invocations(at, phase, selected)) == Some(next)
    ensures next.intents.Keys == selected && next.frontiers == s.frontiers
    ensures forall p :: p in selected ==>
      && p in b.partitions && p in s.frontiers
      && Grants(b.partitions[p].timing, s.frontiers[p], phase, at, next.intents[p])
      && !(phase.AdvancePhase? && Passes(b.partitions[p].timing, s.frontiers[p], at))
  {
    forall p | p in selected
      ensures p in b.partitions && p in s.frontiers
        && Grants(b.partitions[p].timing, s.frontiers[p], phase, at, next.intents[p])
        && !(phase.AdvancePhase? && Passes(b.partitions[p].timing, s.frontiers[p], at))
    {
      GrantExactly(b.partitions[p].timing, s.frontiers[p], phase, at);
    }
  }
}
