/** The live loop's own selections: the next physical boundary, exactly when the calls selected for it are granted,
    and what justifies giving a run up. */
module Grants {
  import opened Cohorts
  import opened NativeGrid
  import opened Planning
  import opened Replay
  import opened RunState
  import opened Settlement
  import opened Time

  /** What any engine may propose in the transaction or notice at a journal index, and what it bounds at a cut. */
  datatype World = World(engines: nat -> seq<Effect>, horizons: nat -> seq<nat>)

  function Proposals(w: World, index: nat): seq<Effect> {
    w.engines(index)
  }

  function Bounds(w: World, index: nat): seq<nat> {
    w.horizons(index)
  }

  /** What a boundary of a store routes. */
  function NoticesOf(b: Pinned, w: World, s: State): (notices: seq<Effect>)
    ensures forall i :: 0 <= i < |notices| ==> Notice(notices[i]) && notices[i].recipient in b.partitions
  {
    Notices(b, Proposals(w, s.cut.index + 1))
  }

  // ---- the next boundary ----

  /** The least of the limit, the engines' bounds, queued work, reservations and deadlines: none of them is
      jumped over. */
  ghost predicate IsNextBoundary(s: State, bounds: seq<nat>, limit: nat, to: nat) {
    && to <= limit
    && (forall k :: 0 <= k < |bounds| ==> to <= bounds[k])
    && NotPast(s, to)
    && (forall i :: i in s.pending ==> to <= s.pending[i].boundary)
    && (to == limit || to in bounds || (exists i :: i in s.work && to == s.work[i].eligible.ns)
        || (exists i :: i in s.pending && to == s.pending[i].boundary)
        || exists key :: key in s.timers && to == s.timers[key].ns)
  }

  method LeastBoundary(s: State, bounds: seq<nat>, limit: nat) returns (to: nat)
    ensures IsNextBoundary(s, bounds, limit, to)
  {
    var work, reservations, deadlines :=
      (set i | i in s.work :: s.work[i].eligible.ns), (set i | i in s.pending :: s.pending[i].boundary),
      (set key | key in s.timers :: s.timers[key].ns);
    var bounded := set ns | ns in bounds;
    assert forall k :: 0 <= k < |bounds| ==> bounds[k] in bounded;
    assert forall i :: i in s.work ==> s.work[i].eligible.ns in work;
    assert forall i :: i in s.pending ==> s.pending[i].boundary in reservations;
    assert forall key :: key in s.timers ==> s.timers[key].ns in deadlines;
    to := LeastNs(bounded, limit);
    to := LeastNs(work, to);
    to := LeastNs(reservations, to);
    to := LeastNs(deadlines, to);
  }

  method LeastNs(points: set<nat>, limit: nat) returns (least: nat)
    ensures least <= limit && (forall ns :: ns in points ==> least <= ns) && (least == limit || least in points)
  {
    least := limit;
    var left := points;
    while left != {}
      invariant left <= points && least <= limit && (least == limit || least in points)
      invariant forall ns :: ns in points ==> ns in left || least <= ns
    {
      var ns :| ns in left;
      left := left - {ns};
      least := if ns < least then ns else least;
    }
  }

  /** What the loop aims at beyond its seal: the next boundary of its run limit, or the time it already stands at
      once a partial wave exists. */
  ghost predicate Aim(w: World, s: State, to: nat) {
    && s.cut.instant.ns <= to && Forward(s, to) && s.sealed.Some? && s.runTarget.Some?
    && (to == s.cut.instant.ns || IsNextBoundary(s, Bounds(w, s.cut.index), s.runTarget.value, to))
  }

  /** The instant at which a boundary's calls are granted. */
  function GrantAt(s: State, to: nat): Instant {
    Instant(to, if s.cut.instant.ns < to then 0 else s.cut.instant.microstep + 1)
  }

  /** It is the earliest instant at that time that lies after the cut. */
  lemma GrantEarliest(s: State, to: nat, other: Instant)
    requires s.cut.instant.ns <= to && other.ns == to && Less(s.cut.instant, other)
    ensures Less(s.cut.instant, GrantAt(s, to)) && GrantAt(s, to).ns == to && AtMost(GrantAt(s, to), other)
  {
  }

  // ---- when the loop's own calls are granted ----

  ghost predicate Chosen(b: Pinned, s: State, at: Instant, chosen: set<string>)
    requires StateValid(b, s)
  {
    LeastClosed(b.cohorts, Preferred(Ready(b, s, at), b.cohorts, Lifecycle(b)), chosen)
  }

  lemma ChosenKnown(b: Pinned, s: State, at: Instant, chosen: set<string>)
    requires PinnedValid(b) && StateValid(b, s) && Chosen(b, s, at, chosen)
    ensures chosen <= b.partitions.Keys && (chosen == {} <==> Ready(b, s, at) == {})
  {
    var ready := Ready(b, s, at);
    var preferred := Preferred(ready, b.cohorts, Lifecycle(b));
    assert ready <= b.partitions.Keys;
    PreferredKnown(ready, b.cohorts, Lifecycle(b), b.partitions.Keys);
    assert ClosedUnder(b.cohorts, b.partitions.Keys);
    if ready == {} {
      assert ClosedUnder(b.cohorts, {});
    }
  }

  lemma PreferredKnown(ready: set<string>, groups: seq<set<string>>, lifecycle: set<string>, known: set<string>)
    requires ready <= known && forall i :: 0 <= i < |groups| ==> groups[i] <= known
    ensures Preferred(ready, groups, lifecycle) <= known
    ensures Preferred(ready, groups, lifecycle) == {} <==> ready == {}
  {
    if ready == {} {
      assert Controllers(ready, groups, lifecycle, |groups|) == {};
    }
  }

  lemma CanonicalUnique<N(!new)>(groups: seq<set<N>>, start: set<N>, chosen: set<N>)
    requires LeastClosed(groups, start, chosen)
    ensures forall other :: LeastClosed(groups, start, other) <==> other == chosen
  {
  }

  /** A selection the loop makes for a phase, at an instant it picks for it. */
  ghost predicate OwnSelection(b: Pinned, w: World, s: State, selected: set<string>, at: Instant, phase: Phase)
    requires StateValid(b, s)
  {
    && s.intents == map[] && AtMost(s.cut.instant, at)
    && match phase
       case Reset => s.cut == Cut(0, Instant(0, 0)) && at == Instant(0, 0) && selected == b.partitions.Keys
       case AdvancePhase =>
         && Aim(w, s, at.ns) && at == GrantAt(s, at.ns) && selected == Trailing(b, s, at.ns)
         && selected != {} && (!b.streamed ==> s.cut.instant.ns < at.ns)
       case ReactPhase => Planned(b, s, at.ns, ReactStep(at)) && Chosen(b, s, at, selected)
       case SamplePhase => Planned(b, s, at.ns, SampleStep(selected, at))
  }

  /** A grant to a time beyond a grid partition's next native boundary. */
  predicate SkipsGrid(t: Timing, f: Frontier, to: nat) {
    (t.mode == FixedStep || t.mode == Lockstep) && !t.exactStop && t.stepNs.Some?
    && (Boundary(t, f.native + 1).None? || to > Boundary(t, f.native + 1).value)
  }

  ghost predicate NoneSkips(b: Pinned, s: State, selected: set<string>, to: nat) {
    forall p :: p in selected && p in b.partitions && p in s.frontiers ==>
      !SkipsGrid(b.partitions[p].timing, s.frontiers[p], to)
  }

  /** What decides whether the loop's own selection is granted. */
  ghost predicate Grantable(b: Pinned, s: State, selected: set<string>, at: Instant, phase: Phase)
    requires StateValid(b, s)
  {
    match phase
    case Reset => true
    case AdvancePhase => s.runTarget.Some? && at.ns <= s.runTarget.value && NoneSkips(b, s, selected, at.ns)
    case ReactPhase => Ready(b, s, at) != {}
    case SamplePhase => true
  }

  /** Within the microstep bound, the loop's own calls are granted exactly so: resets and samples always, a
      reaction when somebody is ready, an advance when it stays within the run limit and skips no native grid
      point. */
  lemma OwnGranted(b: Pinned, w: World, s: State, selected: set<string>, at: Instant, phase: Phase)
    requires PinnedValid(b) && Populated(b) && StateValid(b, s) && OwnSelection(b, w, s, selected, at, phase)
    requires at.microstep <= b.maxMicrosteps
    ensures selected <= b.partitions.Keys
    ensures Invoked(b, s, selected, at, phase).Some? <==> Grantable(b, s, selected, at, phase)
    ensures Grantable(b, s, selected, at, phase) ==> selected != {}
  {
    match phase
    case Reset =>
      var p :| p in b.partitions;
      CallsGranted(b, s, selected, at, phase);
    case AdvancePhase => AdvanceGranted(b, w, s, selected, at);
    case ReactPhase =>
      ChosenKnown(b, s, at, selected);
      CallsGranted(b, s, selected, at, phase);
    case SamplePhase => CallsGranted(b, s, selected, at, phase);
  }

  /** Calls that leave native time alone are never refused one by one. */
  lemma CallsGranted(b: Pinned, s: State, selected: set<string>, at: Instant, phase: Phase)
    requires PinnedValid(b) && StateValid(b, s) && s.intents == map[] && at.microstep <= b.maxMicrosteps
    requires selected <= b.partitions.Keys && !phase.AdvancePhase?
    ensures Invoked(b, s, selected, at, phase).Some? <==> Selects(b, s, selected, at, phase)
  {
    assert forall p :: p in selected ==> Grant(b.partitions[p].timing, s.frontiers[p], CallOf(phase, at)).Some?;
  }

  lemma AdvanceGranted(b: Pinned, w: World, s: State, selected: set<string>, at: Instant)
    requires PinnedValid(b) && StateValid(b, s) && OwnSelection(b, w, s, selected, at, AdvancePhase)
    requires at.microstep <= b.maxMicrosteps
    ensures selected <= b.partitions.Keys
    ensures Invoked(b, s, selected, at, AdvancePhase).Some? <==> Grantable(b, s, selected, at, AdvancePhase)
  {
    forall p | p in selected
      ensures Grant(b.partitions[p].timing, s.frontiers[p], Advance(at)).None? <==>
        SkipsGrid(b.partitions[p].timing, s.frontiers[p], at.ns)
    {
      BoundaryAhead(b.partitions[p].timing, at.ns);
    }
    AdvanceScheduled(b, w, s, selected, at);
  }

  lemma AdvanceScheduled(b: Pinned, w: World, s: State, selected: set<string>, at: Instant)
    requires PinnedValid(b) && StateValid(b, s) && OwnSelection(b, w, s, selected, at, AdvancePhase)
    ensures Scheduled(b, s, selected, at, AdvancePhase) <==> s.runTarget.Some? && at.ns <= s.runTarget.value
  {
    if !b.streamed {
      forall p | p in b.partitions ensures p in selected {
        assert p in Safe(b, s, at.ns) && AtMost(s.frontiers[p].logical, s.cut.instant);
      }
      assert selected == b.partitions.Keys;
    }
  }

  /** The loop overruns its own limit exactly when that limit lies before the time a partial wave already stands at. */
  lemma AimBeyondLimit(w: World, s: State, next: nat, to: nat)
    requires s.runTarget.Some? && IsNextBoundary(s, Bounds(w, s.cut.index), s.runTarget.value, next)
    requires to == Max(next, s.cut.instant.ns)
    ensures to <= s.runTarget.value <==> s.cut.instant.ns <= s.runTarget.value
  {
  }

  // ---- giving up ----

  /** What the live loop must find before it writes a fault. */
  ghost predicate Justified(b: Pinned, w: World, s: State, cause: Cause)
    requires StateValid(b, s)
  {
    match cause
    case MicrostepLimit(at) =>
      && at.microstep > b.maxMicrosteps
      && ((exists plan :: Planned(b, s, at.ns, plan) && !plan.Done? && plan.at == at)
          || (Aim(w, s, at.ns) && at == GrantAt(s, at.ns) && Trailing(b, s, at.ns) != {}))
    case Unreactive(at, p) =>
      && Planned(b, s, at.ns, ReactStep(at)) && p in b.partitions && !b.partitions[p].reactive
      && exists chosen :: Chosen(b, s, at, chosen) && p in chosen
    case NobodyReady(at) => Planned(b, s, at.ns, ReactStep(at)) && Ready(b, s, at) == {}
    case BeyondTarget(to) => Aim(w, s, to) && s.runTarget.value < s.cut.instant.ns && Trailing(b, s, to) != {}
    case GridSkipped(to, p) => Aim(w, s, to) && p in Trailing(b, s, to) && !NoneSkips(b, s, {p}, to)
    case BatchRefused(at) =>
      && (forall q :: q in b.partitions ==> Bindable(b.partitions[q].timing))
      && s.intents != map[] && s.cut.instant == at && Returned(b, s, at, Proposals(w, s.cut.index)).None?
    case HorizonStalled(ns) => Settled(b, s, ns) && exists h :: h in Bounds(w, s.cut.index) && h <= ns
    case NoProgress(to) =>
      && s.sealed.Some? && to <= s.sealed.value
      && (to in Bounds(w, s.cut.index) || exists i :: i in s.pending && to == s.pending[i].boundary)
  }

  /** Why the loop's own calls are refused. */
  method Refusal(b: Pinned, ghost w: World, s: State, selected: set<string>, at: Instant, phase: Phase)
    returns (cause: Cause)
    requires PinnedValid(b) && StateValid(b, s) && OwnSelection(b, w, s, selected, at, phase)
    requires at.microstep <= b.maxMicrosteps && !Grantable(b, s, selected, at, phase)
    ensures Justified(b, w, s, cause)
    ensures if phase.AdvancePhase? then cause.BeyondTarget? || cause.GridSkipped?
      else phase.ReactPhase? && cause.NobodyReady?
  {
    if !phase.AdvancePhase? {
      return NobodyReady(at);
    }
    if s.runTarget.value < at.ns {
      return BeyondTarget(at.ns);
    }
    var p :| p in selected && p in b.partitions && p in s.frontiers
      && SkipsGrid(b.partitions[p].timing, s.frontiers[p], at.ns);
    return GridSkipped(at.ns, p);
  }

  /** Faults of same-time settlement: with everyone at the boundary, somebody is always ready. */
  predicate InSettling(cause: Cause, seal: bool) {
    cause.MicrostepLimit? || cause.Unreactive? || cause.BatchRefused? || (!seal && cause.NobodyReady?)
  }

  /** Faults of bringing partitions to a boundary. */
  predicate InAdvancing(cause: Cause) {
    cause.MicrostepLimit? || cause.BatchRefused? || cause.BeyondTarget? || cause.GridSkipped?
  }

  /** Queued work and deadlines lie beyond the seal, so a loop that cannot progress was given a bound at or before
      it, or has a reservation there. */
  lemma StalledJustified(b: Pinned, w: World, s: State, limit: nat, to: nat)
    requires StateValid(b, s) && OnTime(s) && s.sealed.Some? && s.sealed.value < limit
    requires IsNextBoundary(s, Bounds(w, s.cut.index), limit, to)
    ensures to <= s.sealed.value <==> Justified(b, w, s, NoProgress(to))
    ensures to > s.sealed.value <==>
      (forall h :: h in Bounds(w, s.cut.index) ==> h > s.sealed.value) && NoLate(s, s.sealed.value)
  {
    if to > s.sealed.value {
      forall h | h in Bounds(w, s.cut.index) ensures h > s.sealed.value {
        var k :| 0 <= k < |Bounds(w, s.cut.index)| && Bounds(w, s.cut.index)[k] == h;
      }
    }
  }
}
