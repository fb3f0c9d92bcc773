/** The offline replayer: its own guards for every kind of record, and what a lawful record keeps. */
module Replay {
  import opened Cohorts
  import opened Ingress
  import opened NativeGrid
  import opened RunState
  import opened Time
  import opened Timers

  /** Why the live loop gave a run up. */
  datatype Cause =
    | MicrostepLimit(at: Instant)
    | Unreactive(at: Instant, partition: string)
    | NobodyReady(at: Instant)
    | BeyondTarget(to: nat)
    | GridSkipped(to: nat, partition: string)
    | BatchRefused(at: Instant)
    | HorizonStalled(ns: nat)
    | NoProgress(to: nat)

  datatype Record =
    | Invocations(at: Instant, phase: Phase, selected: set<string>)
    | Transaction(at: Instant, effects: seq<Effect>)
    | BoundaryRecord(at: Instant, notices: seq<Effect>)
    | LiveIngress(request: Request)
    | Submission(target: string, at: Instant, ingressAt: Option<nat>)
    | Cancellation(target: string, granted: bool)
    | Watermark(stream: string, ns: int)
    | SourceProgress(stream: string, progress: int, ns: int)
    | RunLimit(limit: nat)
    | Seal(at: Instant, physicalNs: nat)
    | FaultRecord(cause: Cause, resolved: set<string>)

  /** Instants never go back and stay within the pinned microstep bound. */
  predicate InTime(b: Pinned, s: State, at: Instant) {
    AtMost(s.cut.instant, at) && at.microstep <= b.maxMicrosteps
  }

  /** Everything at or before a physical time is settled. */
  ghost predicate SealGuard(b: Pinned, s: State, at: Instant, physicalNs: nat)
    requires WatermarksValid(b, s)
  {
    && at == s.cut.instant
    && (forall i :: i in s.work ==> s.work[i].eligible.ns > at.ns) && s.intents == map[]
    && (forall key :: key in s.timers ==> s.timers[key].ns > at.ns)
    && NoLate(s, at.ns)
    && (forall p :: p in s.frontiers ==> s.frontiers[p].logical.ns == at.ns)
    && b.partitions.Keys <= Safe(b, s, at.ns) && (s.defaultWatermark.Some? ==> s.defaultWatermark.value >= at.ns)
    && physicalNs == at.ns
  }

  /** The replayer seals at the record's own instant. */
  function SealedBy(s: State, at: Instant): State {
    var cut := Cut(s.cut.index + 1, at);
    s.(cut := cut, sealed := Some(at.ns),
       runTarget := if s.runTarget.Some? && s.runTarget.value == at.ns then None else s.runTarget,
       nativeSeals := s.nativeSeals + [NativeSeal((set p | p in s.frontiers && s.frontiers[p].native == at.ns), cut)])
  }

  /** No reservation at or before a physical time is still pending. */
  ghost predicate NoLate(s: State, ns: nat) {
    forall i :: i in s.pending ==> s.pending[i].boundary > ns
  }

  ghost predicate WatermarkGuard(s: State, stream: string, ns: int) {
    stream in s.watermarks && s.intents == map[] && ns > s.watermarks[stream]
  }

  ghost predicate ProgressGuard(b: Pinned, s: State, stream: string, progress: int, ns: int) {
    && stream in s.watermarks && stream in b.lateness && s.intents == map[]
    && ns == progress - b.lateness[stream] && ns >= s.watermarks[stream]
    && (stream in s.progress ==> progress > s.progress[stream])
  }

  /** Replay one record; absent where the replayer rejects it. Waves, boundaries and reservations are reproduced
      by the same rules as live; controls and seals have guards of their own. */
  ghost function Replayed(b: Pinned, s: State, record: Record): Option<State>
    requires PinnedValid(b) && StateValid(b, s)
  {
    if s.faulted then None
    else
      match record
      case Invocations(at, phase, selected) => if InTime(b, s, at) then Invoked(b, s, selected, at, phase) else None
      case Transaction(at, effects) => if InTime(b, s, at) then Returned(b, s, at, effects) else None
      case BoundaryRecord(at, notices) => if InTime(b, s, at) then Bounded(b, s, at, notices) else None
      case LiveIngress(request) => Reserved(b, s, request)
      case Submission(target, at, ingressAt) => Submitted(b, s, target, at, ingressAt)
      case Cancellation(target, granted) => CancelReserved(b, s, target, granted)
      case Watermark(stream, ns) => if WatermarkGuard(s, stream, ns) then Some(Closed(b, s, stream, ns)) else None
      case SourceProgress(stream, progress, ns) =>
        if ProgressGuard(b, s, stream, progress, ns) then Some(Progressed(b, s, stream, progress, ns)) else None
      case RunLimit(limit) => if s.sealed.Some? && limit > s.sealed.value then Some(Limited(s, limit)) else None
      case Seal(at, physicalNs) =>
        if InTime(b, s, at) && SealGuard(b, s, at, physicalNs) then Some(SealedBy(s, at)) else None
      case FaultRecord(_, resolved) => if resolved == s.intents.Keys then Some(Failed(s)) else None
  }

  // ---- what every lawful record keeps ----

  /** Effects add work and timers that are due after the instant or cancel timers, and nothing else. */
  ghost predicate Routed(b: Pinned, a: State, c: State, at: Instant) {
    && c == a.(work := c.work, timers := c.timers, used := c.used, arrivals := c.arrivals)
    && WorkRouted(b, a.work, c.work, a.arrivals, c.arrivals, at) && TimersRouted(a.timers, c.timers, at)
    && a.used <= c.used && forall key :: key in c.timers ==> key in a.timers || key in c.used
  }

  ghost predicate TimersRouted(before: map<TimerKey, Instant>, after: map<TimerKey, Instant>, at: Instant) {
    forall key :: key in after ==> Less(at, after[key]) || (key in before && after[key] == before[key])
  }

  ghost predicate WorkRouted(b: Pinned, before: map<nat, WorkItem>, after: map<nat, WorkItem>, first: nat, next: nat,
                             at: Instant) {
    && first <= next
    && (forall i :: i in before ==> i in after && after[i] == before[i])
    && (forall i :: i in after && i !in before ==>
          first <= i < next && after[i].recipient in b.partitions && Less(at, after[i].eligible))
  }

  lemma EffectRoutes(b: Pinned, s: State, at: Instant, effect: Effect)
    requires PinnedValid(b) && EffectOf(b, s, at, effect).Some?
    requires forall i :: i in s.work ==> i < s.arrivals
    ensures Routed(b, s, EffectOf(b, s, at, effect).value, at)
  {
    if effect.Emit? {
      EligibleLater(b.partitions[effect.recipient].timing, effect.requested, at, effect.lag);
    }
  }

  lemma {:induction false} EffectsRoute(b: Pinned, s: State, at: Instant, effects: seq<Effect>)
    requires PinnedValid(b) && Effected(b, s, at, effects).Some?
    requires forall i :: i in s.work ==> i < s.arrivals
    ensures Routed(b, s, Effected(b, s, at, effects).value, at)
    decreases |effects|
  {
    if effects != [] {
      var next := EffectOf(b, s, at, effects[0]).value;
      EffectRoutes(b, s, at, effects[0]);
      EffectsRoute(b, next, at, effects[1..]);
    }
  }

  lemma RoutedValid(b: Pinned, a: State, c: State, at: Instant)
    requires StateValid(b, a) && Routed(b, a, c, at)
    ensures StateValid(b, c)
  {
    assert WatermarksValid(b, c) && FrontiersValid(b, c);
    QueuesRouted(b, a, c, at);
  }

  lemma QueuesRouted(b: Pinned, a: State, c: State, at: Instant)
    requires QueuesValid(b, a) && Routed(b, a, c, at)
    ensures QueuesValid(b, c)
  {
  }

  lemma InvokedKeeps(b: Pinned, s: State, selected: set<string>, at: Instant, phase: Phase)
    requires PinnedValid(b) && StateValid(b, s) && InTime(b, s, at) && Invoked(b, s, selected, at, phase).Some?
    ensures StateValid(b, Invoked(b, s, selected, at, phase).value)
  {
    forall p | p in selected
      ensures var g := Grant(b.partitions[p].timing, s.frontiers[p], CallOf(phase, at)).value;
        g.native <= g.logical.ns
    {
      assert AtMost(s.frontiers[p].logical, s.cut.instant);
      GrantStep(b.partitions[p].timing, s.frontiers[p], CallOf(phase, at));
    }
    CallingKeeps(b, s, selected, at, phase);
  }

  lemma CallingKeeps(b: Pinned, s: State, selected: set<string>, at: Instant, phase: Phase)
    requires StateValid(b, s) && InTime(b, s, at) && selected <= b.partitions.Keys
    requires forall p :: p in selected ==> Grant(b.partitions[p].timing, s.frontiers[p], CallOf(phase, at)).Some?
    requires forall p :: p in selected ==>
      var g := Grant(b.partitions[p].timing, s.frontiers[p], CallOf(phase, at)).value; g.native <= g.logical.ns
    ensures StateValid(b, Calling(b, s, selected, at, phase))
  {
    var next := Calling(b, s, selected, at, phase);
    FrontiersLater(b, s, at);
    assert FrontiersValid(b, next);
    assert WatermarksValid(b, next) && QueuesValid(b, next);
  }

  /** Later time leaves the frontiers where they are; returning intents stand exactly at it. */
  lemma FrontiersLater(b: Pinned, s: State, at: Instant)
    requires FrontiersValid(b, s) && AtMost(s.cut.instant, at)
    ensures FrontiersValid(b, s.(cut := NextCut(s, at)))
    ensures (forall p :: p in s.intents ==> s.intents[p].logical == at) ==>
      FrontiersValid(b, s.(cut := NextCut(s, at), frontiers := s.frontiers + s.intents, intents := map[]))
  {
    assert forall p :: p in s.frontiers ==> AtMost(s.frontiers[p].logical, s.cut.instant);
  }

  lemma ReturnedKeeps(b: Pinned, s: State, at: Instant, effects: seq<Effect>)
    requires PinnedValid(b) && StateValid(b, s) && InTime(b, s, at) && Returned(b, s, at, effects).Some?
    ensures StateValid(b, Returned(b, s, at, effects).value)
    ensures Routed(b, s.(cut := NextCut(s, at), frontiers := s.frontiers + s.intents, intents := map[]),
      Returned(b, s, at, effects).value, at)
  {
    var moved := s.(cut := NextCut(s, at), frontiers := s.frontiers + s.intents, intents := map[]);
    FrontiersLater(b, s, at);
    assert WatermarksValid(b, moved) && QueuesValid(b, moved);
    EffectsRoute(b, moved, at, effects);
    RoutedValid(b, moved, Returned(b, s, at, effects).value, at);
  }

  lemma BoundedKeeps(b: Pinned, s: State, at: Instant, notices: seq<Effect>)
    requires PinnedValid(b) && StateValid(b, s) && InTime(b, s, at) && Bounded(b, s, at, notices).Some?
    ensures StateValid(b, Bounded(b, s, at, notices).value)
    ensures Routed(b, Consumed(b, s, at), Bounded(b, s, at, notices).value, at)
  {
    var left := Consumed(b, s, at);
    FrontiersLater(b, s, at);
    assert WatermarksValid(b, left) && FrontiersValid(b, left) && QueuesValid(b, left);
    EffectsRoute(b, left, at, Published(b, s, at) + notices);
    RoutedValid(b, left, Bounded(b, s, at, notices).value, at);
  }

  lemma LimitedKeeps(b: Pinned, s: State, ns: nat)
    requires StateValid(b, s)
    ensures StateValid(b, Limited(s, ns))
  {
    assert FrontiersValid(b, Limited(s, ns)) && QueuesValid(b, Limited(s, ns)) && WatermarksValid(b, Limited(s, ns));
  }

  lemma SealedKeeps(b: Pinned, s: State, ns: nat)
    requires StateValid(b, s) && s.cut.instant.ns == ns
    ensures StateValid(b, Sealed(s, ns))
  {
    assert FrontiersValid(b, Sealed(s, ns)) && QueuesValid(b, Sealed(s, ns)) && WatermarksValid(b, Sealed(s, ns));
  }

  lemma FailedKeeps(b: Pinned, s: State)
    requires StateValid(b, s)
    ensures StateValid(b, Failed(s))
  {
    assert FrontiersValid(b, Failed(s)) && QueuesValid(b, Failed(s)) && WatermarksValid(b, Failed(s));
  }

  lemma ReservedKeeps(b: Pinned, s: State, r: Request)
    requires StateValid(b, s) && Reserved(b, s, r).Some?
    ensures StateValid(b, Reserved(b, s, r).value)
    ensures forall i :: i in Reserved(b, s, r).value.pending && i !in s.pending ==>
      Reserved(b, s, r).value.pending[i].boundary > s.cut.instant.ns
  {
    var next := Reserved(b, s, r).value;
    assert FrontiersValid(b, next) && QueuesValid(b, next) && WatermarksValid(b, next);
  }

  lemma SubmittedKeeps(b: Pinned, s: State, target: string, at: Instant, ingressAt: Option<nat>)
    requires StateValid(b, s) && Submitted(b, s, target, at, ingressAt).Some?
    ensures StateValid(b, Submitted(b, s, target, at, ingressAt).value)
  {
    var next := Submitted(b, s, target, at, ingressAt).value;
    assert FrontiersValid(b, next) && QueuesValid(b, next) && WatermarksValid(b, next);
  }

  lemma CancelKeeps(b: Pinned, s: State, target: string, granted: bool)
    requires StateValid(b, s) && CancelReserved(b, s, target, granted).Some?
    ensures StateValid(b, CancelReserved(b, s, target, granted).value)
  {
    var next := CancelReserved(b, s, target, granted).value;
    assert FrontiersValid(b, next) && QueuesValid(b, next) && WatermarksValid(b, next);
  }

  lemma ClosedKeeps(b: Pinned, s: State, stream: string, ns: int)
    requires PinnedValid(b) && StateValid(b, s) && stream in s.watermarks
    ensures StateValid(b, Closed(b, s, stream, ns))
  {
    var next := Closed(b, s, stream, ns);
    assert FrontiersValid(b, next) && QueuesValid(b, next) && WatermarksValid(b, next);
  }

  lemma WaveKeeps(b: Pinned, s: State, record: Record)
    requires PinnedValid(b) && StateValid(b, s) && Replayed(b, s, record).Some?
    requires record.Invocations? || record.Transaction? || record.BoundaryRecord?
    ensures StateValid(b, Replayed(b, s, record).value)
  {
    if record.Invocations? {
      InvokedKeeps(b, s, record.selected, record.at, record.phase);
    } else if record.Transaction? {
      ReturnedKeeps(b, s, record.at, record.effects);
    } else {
      BoundedKeeps(b, s, record.at, record.notices);
    }
  }

  lemma HostInputKeeps(b: Pinned, s: State, record: Record)
    requires PinnedValid(b) && StateValid(b, s) && Replayed(b, s, record).Some?
    requires record.LiveIngress? || record.Submission? || record.Cancellation?
    ensures StateValid(b, Replayed(b, s, record).value)
  {
    if record.LiveIngress? {
      ReservedKeeps(b, s, record.request);
    } else if record.Submission? {
      SubmittedKeeps(b, s, record.target, record.at, record.ingressAt);
    } else {
      CancelKeeps(b, s, record.target, record.granted);
    }
  }

  lemma StreamKeeps(b: Pinned, s: State, record: Record)
    requires PinnedValid(b) && StateValid(b, s) && Replayed(b, s, record).Some?
    requires record.Watermark? || record.SourceProgress?
    ensures StateValid(b, Replayed(b, s, record).value)
  {
    ClosedKeeps(b, s, record.stream, record.ns);
    if record.SourceProgress? {
      ProgressedKeeps(b, s, record.stream, record.progress, record.ns);
    }
  }

  lemma ProgressedKeeps(b: Pinned, s: State, stream: string, progress: int, ns: int)
    requires StateValid(b, Closed(b, s, stream, ns))
    ensures StateValid(b, Progressed(b, s, stream, progress, ns))
  {
    var closed, next := Closed(b, s, stream, ns), Progressed(b, s, stream, progress, ns);
    assert FrontiersValid(b, next) && QueuesValid(b, next) && WatermarksValid(b, next);
  }

  lemma ControlKeeps(b: Pinned, s: State, record: Record)
    requires PinnedValid(b) && StateValid(b, s) && Replayed(b, s, record).Some?
    requires record.RunLimit? || record.Seal? || record.FaultRecord?
    ensures StateValid(b, Replayed(b, s, record).value)
  {
    if record.RunLimit? {
      LimitedKeeps(b, s, record.limit);
    } else if record.Seal? {
      SealedKeeps(b, s, record.at.ns);
    } else {
      FailedKeeps(b, s);
    }
  }

  /** Every record the replayer accepts leaves a well-formed state. */
  lemma ReplayedKeeps(b: Pinned, s: State, record: Record)
    requires PinnedValid(b) && StateValid(b, s) && Replayed(b, s, record).Some?
    ensures StateValid(b, Replayed(b, s, record).value)
  {
    match record
    case Invocations(_, _, _) => WaveKeeps(b, s, record);
    case Transaction(_, _) => WaveKeeps(b, s, record);
    case BoundaryRecord(_, _) => WaveKeeps(b, s, record);
    case LiveIngress(_) => HostInputKeeps(b, s, record);
    case Submission(_, _, _) => HostInputKeeps(b, s, record);
    case Cancellation(_, _) => HostInputKeeps(b, s, record);
    case Watermark(_, _) => StreamKeeps(b, s, record);
    case SourceProgress(_, _, _) => StreamKeeps(b, s, record);
    case _ => ControlKeeps(b, s, record);
  }

  /** A whole journal from a starting state, stopping at the first rejected record. */
  ghost function ReplayAll(b: Pinned, s: State, journal: seq<Record>): (r: Option<State>)
    requires PinnedValid(b) && StateValid(b, s)
    ensures r.Some? ==> StateValid(b, r.value)
  {
    if journal == [] then Some(s)
    else
      match ReplayAll(b, s, journal[..|journal| - 1])
      case None => None
      case Some(t) =>
        var next := Replayed(b, t, journal[|journal| - 1]);
        if next.None? then None
        else
          ReplayedKeeps(b, t, journal[|journal| - 1]);
          next
  }

  lemma ReplayMore(b: Pinned, s: State, journal: seq<Record>, record: Record)
    requires PinnedValid(b) && StateValid(b, s)
    ensures ReplayAll(b, s, journal + [record]) ==
      match ReplayAll(b, s, journal) { case None => None case Some(t) => Replayed(b, t, record) }
  {
    assert (journal + [record])[..|journal|] == journal;
  }

  lemma PrefixOf(journal: seq<Record>, i: nat, j: nat)
    requires i <= j <= |journal|
    ensures journal[..j][..i] == journal[..i]
    ensures j == |journal| ==> journal[..j] == journal
  {
  }

  /** A proper prefix is a prefix of all but the last record. */
  lemma Shorter(journal: seq<Record>, prefix: seq<Record>) returns (shorter: seq<Record>)
    requires prefix <= journal && |prefix| < |journal|
    ensures shorter == journal[..|journal| - 1] && prefix <= shorter && |shorter| < |journal|
  {
    shorter := journal[..|journal| - 1];
  }

  lemma PrefixMore(journal: seq<Record>, i: nat)
    requires i < |journal|
    ensures journal[..i + 1] == journal[..i] + [journal[i]]
  {
  }

  lemma LastRecord(b: Pinned, s: State, journal: seq<Record>)
    requires PinnedValid(b) && StateValid(b, s) && journal != [] && ReplayAll(b, s, journal).Some?
    ensures ReplayAll(b, s, journal[..|journal| - 1]).Some?
    ensures Replayed(b, ReplayAll(b, s, journal[..|journal| - 1]).value, journal[|journal| - 1]) ==
      ReplayAll(b, s, journal)
  {
  }

  /** What only moves forward along a journal: the cut, the seal and every closed prefix. */
  ghost predicate Onward(a: State, c: State) {
    && a.cut.index <= c.cut.index && AtMost(a.cut.instant, c.cut.instant)
    && (a.sealed.Some? ==> c.sealed.Some? && a.sealed.value <= c.sealed.value)
    && a.watermarks.Keys == c.watermarks.Keys && forall x :: x in a.watermarks ==> a.watermarks[x] <= c.watermarks[x]
  }

  lemma OnwardTransitive(a: State, c: State, d: State)
    requires Onward(a, c) && Onward(c, d)
    ensures Onward(a, d)
  {
  }

  lemma WaveOnward(b: Pinned, s: State, at: Instant, effects: seq<Effect>)
    requires PinnedValid(b) && StateValid(b, s) && InTime(b, s, at) && Returned(b, s, at, effects).Some?
    ensures Onward(s, Returned(b, s, at, effects).value) && Returned(b, s, at, effects).value.cut == NextCut(s, at)
  {
    ReturnedKeeps(b, s, at, effects);
  }

  lemma BoundaryOnward(b: Pinned, s: State, at: Instant, notices: seq<Effect>)
    requires PinnedValid(b) && StateValid(b, s) && InTime(b, s, at) && Bounded(b, s, at, notices).Some?
    ensures Onward(s, Bounded(b, s, at, notices).value) && Bounded(b, s, at, notices).value.cut == NextCut(s, at)
  {
    BoundedKeeps(b, s, at, notices);
  }

  lemma SubmissionOnward(b: Pinned, s: State, target: string, at: Instant, ingressAt: Option<nat>)
    requires Submitted(b, s, target, at, ingressAt).Some?
    ensures Onward(s, Submitted(b, s, target, at, ingressAt).value)
    ensures Submitted(b, s, target, at, ingressAt).value.cut == NextCut(s, s.cut.instant)
  {
  }

  lemma ReservationOnward(b: Pinned, s: State, r: Request, target: string, granted: bool)
    ensures Reserved(b, s, r).Some? ==>
      Onward(s, Reserved(b, s, r).value) && Reserved(b, s, r).value.cut == NextCut(s, s.cut.instant)
    ensures CancelReserved(b, s, target, granted).Some? ==>
      Onward(s, CancelReserved(b, s, target, granted).value)
      && CancelReserved(b, s, target, granted).value.cut == NextCut(s, s.cut.instant)
  {
  }

  lemma ClosureOnward(b: Pinned, s: State, stream: string, ns: int)
    requires stream in s.watermarks && ns >= s.watermarks[stream]
    ensures Onward(s, Closed(b, s, stream, ns))
  {
  }

  lemma ControlOnward(b: Pinned, s: State, record: Record)
    requires PinnedValid(b) && StateValid(b, s) && Replayed(b, s, record).Some?
    requires record.Invocations? || record.RunLimit? || record.Seal? || record.FaultRecord?
    ensures Onward(s, Replayed(b, s, record).value) && Replayed(b, s, record).value.cut.index == s.cut.index + 1
  {
  }

  lemma HostOnward(b: Pinned, s: State, record: Record)
    requires PinnedValid(b) && StateValid(b, s) && Replayed(b, s, record).Some?
    requires record.LiveIngress? || record.Submission? || record.Cancellation? || record.Watermark?
      || record.SourceProgress?
    ensures Onward(s, Replayed(b, s, record).value) && Replayed(b, s, record).value.cut.index == s.cut.index + 1
  {
    if record.Watermark? || record.SourceProgress? {
      ClosureOnward(b, s, record.stream, record.ns);
    } else {
      RequestOnward(b, s, record);
    }
  }

  lemma RequestOnward(b: Pinned, s: State, record: Record)
    requires PinnedValid(b) && StateValid(b, s) && Replayed(b, s, record).Some?
    requires record.LiveIngress? || record.Submission? || record.Cancellation?
    ensures Onward(s, Replayed(b, s, record).value) && Replayed(b, s, record).value.cut.index == s.cut.index + 1
  {
    match record
    case LiveIngress(request) =>
      assert Replayed(b, s, record) == Reserved(b, s, request);
      ReservationOnward(b, s, request, "", false);
    case Submission(target, at, ingressAt) =>
      assert Replayed(b, s, record) == Submitted(b, s, target, at, ingressAt);
      SubmissionOnward(b, s, target, at, ingressAt);
    case Cancellation(target, granted) =>
      assert Replayed(b, s, record) == CancelReserved(b, s, target, granted);
      ReservationOnward(b, s, Request("", "", Instant(0, 0), 0, false, None), target, granted);
  }

  lemma RecordOnward(b: Pinned, s: State, record: Record)
    requires PinnedValid(b) && StateValid(b, s) && Replayed(b, s, record).Some?
    ensures Onward(s, Replayed(b, s, record).value) && Replayed(b, s, record).value.cut.index == s.cut.index + 1
  {
    match record
    case Transaction(at, effects) => WaveOnward(b, s, at, effects);
    case BoundaryRecord(at, notices) => BoundaryOnward(b, s, at, notices);
    case Invocations(_, _, _) => ControlOnward(b, s, record);
    case RunLimit(_) => ControlOnward(b, s, record);
    case Seal(_, _) => ControlOnward(b, s, record);
    case FaultRecord(_, _) => ControlOnward(b, s, record);
    case _ => HostOnward(b, s, record);
  }

  lemma {:induction false} PrefixOnward(b: Pinned, s: State, journal: seq<Record>, prefix: seq<Record>)
    requires PinnedValid(b) && StateValid(b, s) && prefix <= journal && ReplayAll(b, s, journal).Some?
    ensures ReplayAll(b, s, prefix).Some? && Onward(ReplayAll(b, s, prefix).value, ReplayAll(b, s, journal).value)
    ensures ReplayAll(b, s, journal).value.cut.index == ReplayAll(b, s, prefix).value.cut.index + |journal| - |prefix|
    decreases |journal|
  {
    if |prefix| == |journal| {
      assert prefix == journal;
    } else {
      var shorter := Shorter(journal, prefix);
      LastRecord(b, s, journal);
      PrefixOnward(b, s, shorter, prefix);
      RecordOnward(b, ReplayAll(b, s, shorter).value, journal[|journal| - 1]);
      OnwardTransitive(ReplayAll(b, s, prefix).value, ReplayAll(b, s, shorter).value, ReplayAll(b, s, journal).value);
    }
  }

  /** Over any accepted journal, each record extends the cut by one, and time, seal and watermarks never go back
      between any two of its prefixes. */
  lemma JournalOnward(b: Pinned, s: State, journal: seq<Record>, i: nat)
    requires PinnedValid(b) && StateValid(b, s) && i <= |journal| && ReplayAll(b, s, journal).Some?
    ensures ReplayAll(b, s, journal[..i]).Some?
    ensures Onward(ReplayAll(b, s, journal[..i]).value, ReplayAll(b, s, journal).value)
    ensures ReplayAll(b, s, journal).value.cut.index == ReplayAll(b, s, journal[..i]).value.cut.index + |journal| - i
  {
    PrefixOnward(b, s, journal, journal[..i]);
  }

  // ---- the seal ----

  /** What settlement leaves before it seals: everything safe, everyone at the boundary, nothing due. */
  ghost predicate Settled(b: Pinned, s: State, ns: nat)
    requires WatermarksValid(b, s)
  {
    && s.cut.instant.ns == ns && s.intents == map[]
    && b.partitions.Keys <= Safe(b, s, ns)
    && (forall p :: p in s.frontiers ==> s.frontiers[p].logical.ns == ns)
    && (forall i :: i in s.work ==> s.work[i].eligible.ns > ns)
    && (forall key :: key in s.timers ==> s.timers[key].ns > ns)
  }

  /** A settled state passes the replayer's separately written seal guard exactly when no reservation at or
      before the boundary is still pending. */
  lemma SealReplays(b: Pinned, s: State, ns: nat)
    requires PinnedValid(b) && Populated(b) && StateValid(b, s) && Settled(b, s, ns) && !s.faulted
    ensures Replayed(b, s, Seal(s.cut.instant, ns)) == (if NoLate(s, ns) then Some(Sealed(s, ns)) else None)
  {
    if b.defaultStream {
      var p :| p in b.partitions;
      assert p in Safe(b, s, ns) && "default" in b.dependencies[p];
    }
  }

  /** Whatever an accepted journal seals was settled when it did: every record of a seal, anywhere in it, was
      written with nothing due, everyone at the boundary and every stream closed to it, and the journal ends
      sealed no earlier. */
  lemma EverySealSettled(b: Pinned, s: State, journal: seq<Record>, i: nat)
    requires PinnedValid(b) && StateValid(b, s) && ReplayAll(b, s, journal).Some?
    requires i < |journal| && journal[i].Seal?
    ensures ReplayAll(b, s, journal[..i]).Some? && ReplayAll(b, s, journal).value.sealed.Some?
    ensures Settled(b, ReplayAll(b, s, journal[..i]).value, journal[i].physicalNs)
    ensures NoLate(ReplayAll(b, s, journal[..i]).value, journal[i].physicalNs)
    ensures DefaultClosed(b, ReplayAll(b, s, journal[..i]).value, journal[i].physicalNs)
    ensures journal[i].physicalNs <= ReplayAll(b, s, journal).value.sealed.value
  {
    JournalOnward(b, s, journal, i);
    JournalOnward(b, s, journal, i + 1);
    var before, upto := journal[..i], journal[..i + 1];
    PrefixMore(journal, i);
    ReplayMore(b, s, before, journal[i]);
    SealAccepted(b, ReplayAll(b, s, before).value, journal[i], ReplayAll(b, s, upto).value);
  }

  /** The default stream, which a binding without partitions may have too, is closed to a physical time. */
  ghost predicate DefaultClosed(b: Pinned, s: State, ns: nat) {
    b.defaultStream ==> "default" in s.watermarks && s.watermarks["default"] >= ns
  }

  lemma SealAccepted(b: Pinned, s: State, record: Record, next: State)
    requires PinnedValid(b) && StateValid(b, s) && record.Seal? && Replayed(b, s, record) == Some(next)
    ensures Settled(b, s, record.physicalNs) && NoLate(s, record.physicalNs)
    ensures DefaultClosed(b, s, record.physicalNs)
    ensures next.sealed == Some(record.physicalNs)
  {
  }

  /** A cancellation goes right after the seal, wherever the cut stands: with nothing late pending, it leaves
      something late behind exactly when it is granted while time beyond the seal is being settled. */
  lemma LateCancel(b: Pinned, s: State, target: string, granted: bool)
    requires StateValid(b, s) && CancelReserved(b, s, target, granted).Some? && NoLate(s, s.cut.instant.ns)
    ensures NoLate(CancelReserved(b, s, target, granted).value, s.cut.instant.ns) <==>
      !granted || s.cut.instant.ns <= s.sealed.value
  {
    var next := CancelReserved(b, s, target, granted).value;
    if granted {
      assert s.arrivals in next.pending && next.pending[s.arrivals].boundary == s.sealed.value + 1;
      assert forall i :: i in next.pending && i != s.arrivals ==> i in s.pending && next.pending[i] == s.pending[i];
    } else {
      assert next.pending == s.pending;
    }
  }

  /** Live admission cannot: its boundary lies beyond the cut. */
  lemma AdmissionIsNeverLate(b: Pinned, s: State, r: Request)
    requires StateValid(b, s) && Reserved(b, s, r).Some? && NoLate(s, s.cut.instant.ns)
    ensures NoLate(Reserved(b, s, r).value, s.cut.instant.ns)
  {
    ReservedKeeps(b, s, r);
  }

  /** The journal of a run without partitions: nothing ever moves its cut, so the live loop seals its limit at time
      zero. */
  function EmptyRun(limit: nat): seq<Record> {
    [Invocations(Instant(0, 0), Reset, {})] + [Transaction(Instant(0, 0), [])] + [Seal(Instant(0, 0), 0)]
    + [RunLimit(limit)]
  }

  /** The replayer takes such a journal up to its limit, and then rejects the seal of any limit: it seals at the time
      of the cut only. */
  lemma EmptyBindingSeal(b: Pinned, watermarks: map<string, int>, limit: nat)
    requires PinnedValid(b) && !Populated(b) && Opening(b, watermarks) && limit > 0
    requires forall x :: x in watermarks ==> watermarks[x] >= 0
    ensures ReplayAll(b, Bound(b, watermarks), EmptyRun(limit)).Some?
    ensures ReplayAll(b, Bound(b, watermarks), EmptyRun(limit) + [Seal(Instant(0, 0), limit)]).None?
  {
    var start := Bound(b, watermarks);
    var journal := [Invocations(Instant(0, 0), Reset, {})] + [Transaction(Instant(0, 0), [])];
    var reset := EmptyStart(b, start);
    var sealed, limited := EmptyLimit(b, reset, limit);
    ReplayMore(b, start, journal, Seal(Instant(0, 0), 0));
    ReplayMore(b, start, journal + [Seal(Instant(0, 0), 0)], RunLimit(limit));
    ReplayMore(b, start, EmptyRun(limit), Seal(Instant(0, 0), limit));
  }

  /** Without partitions zero is sealed, the limit is taken, and its seal is not. */
  lemma EmptyLimit(b: Pinned, s: State, limit: nat) returns (sealed: State, limited: State)
    requires PinnedValid(b) && !Populated(b) && StateValid(b, s) && !s.faulted && s.cut.instant == Instant(0, 0)
    requires s.frontiers == map[] && s.intents == map[] && s.work == map[] && s.timers == map[] && s.pending == map[]
    requires limit > 0 && (s.defaultWatermark.Some? ==> s.defaultWatermark.value >= 0)
    ensures Replayed(b, s, Seal(Instant(0, 0), 0)) == Some(sealed) && StateValid(b, sealed)
    ensures Replayed(b, sealed, RunLimit(limit)) == Some(limited) && StateValid(b, limited)
    ensures Replayed(b, limited, Seal(Instant(0, 0), limit)).None?
  {
    sealed := SealedBy(s, Instant(0, 0));
    EmptySealed(b, s);
    limited := Limited(sealed, limit);
    LimitedKeeps(b, sealed, limit);
  }

  lemma EmptySealed(b: Pinned, s: State)
    requires PinnedValid(b) && !Populated(b) && StateValid(b, s) && !s.faulted && s.cut.instant == Instant(0, 0)
    requires s.frontiers == map[] && s.intents == map[] && s.work == map[] && s.timers == map[] && s.pending == map[]
    requires s.defaultWatermark.Some? ==> s.defaultWatermark.value >= 0
    ensures Replayed(b, s, Seal(Instant(0, 0), 0)) == Some(SealedBy(s, Instant(0, 0)))
    ensures StateValid(b, SealedBy(s, Instant(0, 0)))
  {
    assert b.partitions.Keys == {};
    SealedKeeps(b, s, 0);
  }

  lemma EmptyStart(b: Pinned, s: State) returns (next: State)
    requires PinnedValid(b) && !Populated(b) && StateValid(b, s) && !s.faulted && s.cut == Cut(0, Instant(0, 0))
    requires s.intents == map[]
    ensures next == s.(cut := Cut(2, Instant(0, 0)))
    ensures ReplayAll(b, s, [Invocations(Instant(0, 0), Reset, {})] + [Transaction(Instant(0, 0), [])]) == Some(next)
  {
    next := EmptyReset(b, s);
    var calls := Invocations(Instant(0, 0), Reset, {});
    assert [] + [calls] == [calls];
    ReplayMore(b, s, [], calls);
    ReplayMore(b, s, [calls], Transaction(Instant(0, 0), []));
  }

  /** A reset of no partition leaves everything but the cut. */
  lemma EmptyReset(b: Pinned, s: State) returns (next: State)
    requires PinnedValid(b) && !Populated(b) && StateValid(b, s) && !s.faulted && s.cut == Cut(0, Instant(0, 0))
    requires s.intents == map[]
    ensures Replayed(b, s, Invocations(Instant(0, 0), Reset, {})).Some?
    ensures var called := Replayed(b, s, Invocations(Instant(0, 0), Reset, {})).value;
      StateValid(b, called) && Replayed(b, called, Transaction(Instant(0, 0), [])) == Some(next)
    ensures next == s.(cut := Cut(2, Instant(0, 0)))
  {
    assert b.partitions.Keys == {};
    next := s.(cut := Cut(2, Instant(0, 0)));
    InvokedKeeps(b, s, {}, Instant(0, 0), Reset);
    assert s.frontiers + map[] == s.frontiers;
  }
}
