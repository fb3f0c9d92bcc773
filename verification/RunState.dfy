/** The run's scheduling state, the pure effect of each kind of record on it, and when queued work becomes
    eligible. */
module RunState {
  import opened Cohorts
  import opened Ingress
  import opened Listing
  import opened NativeGrid
  import opened Time
  import opened Timers
  import Sampling

  /** A bound partition; `lag` is the delay of the messages it receives. */
  datatype Spec = Spec(timing: Timing, reactive: bool, lifecycle: bool, sampleLevel: Option<nat>, lag: nat)

  /** What binding pins. Without streams every partition depends on none. */
  datatype Pinned = Pinned(
    partitions: map<string, Spec>, cohorts: seq<set<string>>, streamed: bool, defaultStream: bool,
    dependencies: map<string, set<string>>, lateness: map<string, nat>, maxMicrosteps: nat)

  datatype WorkItem = WorkItem(recipient: string, eligible: Instant)

  /** What a host reserved: a command for an instant, or the cancellation of one, published at a boundary. */
  datatype Reservation =
    | CommandAt(boundary: nat, target: string, at: Instant)
    | CancelAt(boundary: nat, target: string)

  /** The partitions a seal found at their native time. A partition's native cut is the last one that names it. */
  datatype NativeSeal = NativeSeal(partitions: set<string>, cut: Cut)

  /** `timers` are the deadlines still active, `used` every timer identity ever scheduled. */
  datatype State = State(
    cut: Cut, sealed: Option<nat>, runTarget: Option<nat>,
    frontiers: map<string, Frontier>, intents: map<string, Frontier>, nativeSeals: seq<NativeSeal>,
    work: map<nat, WorkItem>, timers: map<TimerKey, Instant>, used: set<TimerKey>,
    pending: map<nat, Reservation>, arrivals: nat,
    watermarks: map<string, int>, defaultWatermark: Option<int>, progress: map<string, int>, faulted: bool)

  datatype Phase = Reset | AdvancePhase | ReactPhase | SamplePhase

  /** What a batch adds: routed work, and the partition timers it schedules or cancels. */
  datatype Effect =
    | Emit(recipient: string, requested: Instant, lag: nat)
    | ScheduleTimer(key: TimerKey, due: Instant)
    | CancelTimer(key: TimerKey)

  datatype Request = Request(
    stream: string, target: string, at: Instant, mapped: int, reject: bool, ingressAt: Option<nat>)

  // ---- eligibility ----

  /** Timings a binding accepts: the grid is defined everywhere. */
  predicate Bindable(t: Timing) {
    (t.mode == FixedStep ==> t.stepNs.Some? && t.stepNs.value > 0)
    && (t.mode == Lockstep && t.stepNs.Some? ==> t.stepNs.value > 0)
  }

  lemma BoundaryAhead(t: Timing, ns: int)
    requires Bindable(t)
    ensures Boundary(t, ns).Some? && Boundary(t, ns).value >= ns
  {
    if Stepped(t) {
      BoundaryIsLeast(t, ns, 0);
    }
  }

  /** Routed once, then latched to the recipient's grid. */
  function Eligibility(t: Timing, requested: Instant, available: Instant, lag: nat): Instant
    requires Bindable(t)
  {
    var ns := Max(requested.ns, available.ns) + lag;
    var microstep := if ns == available.ns then Max(requested.microstep, available.microstep + 1) else 0;
    if (t.mode == FixedStep || t.mode == Lockstep) && t.latch then
      BoundaryAhead(t, ns);
      var latched := Boundary(t, ns).value;
      Instant(latched, if latched == ns then microstep else 0)
    else Instant(ns, microstep)
  }

  /** New work is always eligible strictly after its publication instant. */
  lemma EligibleLater(t: Timing, requested: Instant, available: Instant, lag: nat)
    requires Bindable(t)
    ensures Less(available, Eligibility(t, requested, available, lag))
  {
    BoundaryAhead(t, Max(requested.ns, available.ns) + lag);
  }

  /** A time at which a partition takes input: any, or a point of the grid it latches to. */
  ghost predicate NativePoint(t: Timing, ns: int) {
    Stepped(t) && t.latch ==> OnGrid(t, ns)
  }

  /** The earliest instant at which work may arrive: at the least time the recipient takes input, no earlier than the
      request and the publication plus the lag; at the publication's own time one microstep on, or as late a microstep
      as requested, and otherwise at the first. */
  ghost predicate Arrives(t: Timing, requested: Instant, available: Instant, lag: nat, at: Instant) {
    && requested.ns + lag <= at.ns && available.ns + lag <= at.ns && NativePoint(t, at.ns)
    && (forall ns: nat :: requested.ns + lag <= ns && available.ns + lag <= ns && NativePoint(t, ns) ==> at.ns <= ns)
    && (at.ns > available.ns ==> at.microstep == 0)
    && (at.ns == available.ns ==>
          && requested.microstep <= at.microstep && available.microstep < at.microstep
          && (at.microstep == requested.microstep || at.microstep == available.microstep + 1))
  }

  /** Work is eligible exactly then. */
  lemma EligibleExactly(t: Timing, requested: Instant, available: Instant, lag: nat, at: Instant)
    requires Bindable(t)
    ensures at == Eligibility(t, requested, available, lag) <==> Arrives(t, requested, available, lag, at)
  {
    var due := Max(requested.ns, available.ns) + lag;
    BoundaryAhead(t, due);
    var e := Eligibility(t, requested, available, lag);
    EarliestPoint(t, due, e.ns);
    assert Arrives(t, requested, available, lag, e);
  }

  lemma EarliestPoint(t: Timing, due: nat, ns: nat)
    requires Bindable(t) && due <= ns
    requires if (t.mode == FixedStep || t.mode == Lockstep) && t.latch then Boundary(t, due) == Some(ns) else ns == due
    ensures NativePoint(t, ns) && forall n: nat :: due <= n && NativePoint(t, n) ==> ns <= n
  {
    if Stepped(t) && t.latch {
      BoundaryIsLeast(t, due, 0);
      forall n: nat | due <= n && NativePoint(t, n) ensures ns <= n {
        BoundaryIsLeast(t, due, n);
      }
    }
  }

  /** Eligibility reaches the requested instant unless the request asks for a later microstep of a future
      physical time that neither lag nor grid moves. */
  lemma ReachesRequest(t: Timing, requested: Instant, available: Instant, lag: nat)
    requires Bindable(t)
    ensures AtMost(requested, Eligibility(t, requested, available, lag)) <==>
      !(requested.microstep > 0 && requested.ns > available.ns && lag == 0
        && ((t.mode == FixedStep || t.mode == Lockstep) && t.latch ==>
              Boundary(t, requested.ns) == Some(requested.ns)))
  {
    BoundaryAhead(t, Max(requested.ns, available.ns) + lag);
  }

  /** A microstep asked for in the future is dropped. */
  lemma RequestedMicrostepLost()
    ensures var t := Timing(Des, None, 0, true, false);
      Eligibility(t, Instant(10, 5), Instant(3, 0), 0) == Instant(10, 0)
      && Less(Eligibility(t, Instant(10, 5), Instant(3, 0), 0), Instant(10, 5))
  {
  }

  // ---- bound configurations and well-formed states ----

  ghost predicate PinnedValid(b: Pinned) {
    && b.dependencies.Keys == b.partitions.Keys
    && (forall p :: p in b.partitions ==> Bindable(b.partitions[p].timing))
    && (!b.streamed ==> forall p :: p in b.partitions ==> b.dependencies[p] == {})
    && (b.defaultStream ==> forall p :: p in b.partitions ==> "default" in b.dependencies[p])
    && Disjoint(b.cohorts) && (forall i :: 0 <= i < |b.cohorts| ==> b.cohorts[i] <= b.partitions.Keys)
  }

  /** Binding accepts a manifest without partitions, but nothing then ever moves its time. */
  predicate Populated(b: Pinned) {
    b.partitions != map[]
  }

  ghost predicate WatermarksValid(b: Pinned, s: State) {
    && (forall p, x :: p in b.dependencies && x in b.dependencies[p] ==> x in s.watermarks)
    && (forall x :: x in s.watermarks ==> x in b.lateness)
    && (b.defaultStream ==> "default" in s.watermarks && s.defaultWatermark == Some(s.watermarks["default"]))
    && (!b.defaultStream ==> s.defaultWatermark.None?)
  }

  ghost predicate FrontiersValid(b: Pinned, s: State) {
    && s.frontiers.Keys == b.partitions.Keys && s.intents.Keys <= b.partitions.Keys
    && (forall p :: p in s.frontiers ==>
          AtMost(s.frontiers[p].logical, s.cut.instant) && s.frontiers[p].native <= s.frontiers[p].logical.ns)
    && (forall p :: p in s.intents ==> s.intents[p].native <= s.intents[p].logical.ns)
  }

  ghost predicate QueuesValid(b: Pinned, s: State) {
    && (forall i :: i in s.work ==> s.work[i].recipient in b.partitions && i < s.arrivals)
    && (forall i :: i in s.pending ==> s.pending[i].target in b.partitions && i < s.arrivals)
    && (forall key :: key in s.timers ==> key in s.used)
  }

  ghost predicate StateValid(b: Pinned, s: State) {
    && WatermarksValid(b, s) && FrontiersValid(b, s) && QueuesValid(b, s)
    && s.cut.instant.microstep <= b.maxMicrosteps
    && (s.sealed.Some? ==> s.sealed.value <= s.cut.instant.ns)
  }

  function Safe(b: Pinned, s: State, ns: int): set<string>
    requires WatermarksValid(b, s)
  {
    SafePartitions(b.dependencies, s.watermarks, ns)
  }

  // ---- due work ----

  predicate Sampled(b: Pinned, p: string) {
    p in b.partitions && b.partitions[p].sampleLevel.Some?
  }

  /** Recipients of ordinary work due at an instant; with streams, only safe ones that stand at its time. */
  function Ready(b: Pinned, s: State, at: Instant): set<string>
    requires WatermarksValid(b, s) && FrontiersValid(b, s) && QueuesValid(b, s)
  {
    set i | i in s.work && AtMost(s.work[i].eligible, at) && !Sampled(b, s.work[i].recipient)
      && (b.streamed ==>
      s.work[i].recipient in Safe(b, s, at.ns) && s.frontiers[s.work[i].recipient].logical.ns == at.ns)
      :: s.work[i].recipient
  }

  function DueSamples(b: Pinned, s: State, ns: nat): set<string>
    requires WatermarksValid(b, s) && FrontiersValid(b, s) && QueuesValid(b, s)
  {
    set i | i in s.work && s.work[i].eligible.ns <= ns && Sampled(b, s.work[i].recipient)
      && s.work[i].recipient in Safe(b, s, ns)
      && (b.streamed ==> s.frontiers[s.work[i].recipient].logical.ns == ns)
      :: s.work[i].recipient
  }

  function Levels(b: Pinned): map<string, nat> {
    map p | p in b.partitions && b.partitions[p].sampleLevel.Some? :: b.partitions[p].sampleLevel.value
  }

  /** The due sampled evaluators of the lowest level. */
  function SampleReady(b: Pinned, s: State, ns: nat): set<string>
    requires WatermarksValid(b, s) && FrontiersValid(b, s) && QueuesValid(b, s)
  {
    Sampling.Lowest(DueSamples(b, s, ns), Levels(b))
  }

  /** Eligibilities that ordinary settlement looks at. Safety only shrinks with time, so filtering every item
      finds the same earliest one as filtering the heads of the recipients' heaps. */
  function Ordinary(b: Pinned, s: State): set<Instant>
    requires WatermarksValid(b, s) && QueuesValid(b, s)
  {
    set i | i in s.work && !Sampled(b, s.work[i].recipient) && s.work[i].recipient in Safe(b, s, s.work[i].eligible.ns)
      :: s.work[i].eligible
  }

  function Lifecycle(b: Pinned): set<string> {
    set p | p in b.partitions && b.partitions[p].lifecycle
  }

  // ---- records ----

  function NextCut(s: State, at: Instant): Cut {
    Cut(s.cut.index + 1, at)
  }

  function CallOf(phase: Phase, at: Instant): Call {
    if phase.AdvancePhase? then Advance(at) else React(at)
  }

  /** Safe partitions still short of a physical time. */
  function Trailing(b: Pinned, s: State, to: nat): set<string>
    requires WatermarksValid(b, s)
  {
    set p | p in Safe(b, s, to) && p in s.frontiers && s.frontiers[p].logical.ns < to
  }

  /** When a phase may run, and which partitions its record must name; a reactive selection is checked against
      the ready cohorts besides. */
  predicate Scheduled(b: Pinned, s: State, selected: set<string>, at: Instant, phase: Phase)
    requires WatermarksValid(b, s) && FrontiersValid(b, s) && QueuesValid(b, s)
  {
    match phase
    case Reset => at == Instant(0, 0) && s.cut.index == 0 && selected == b.partitions.Keys
    case AdvancePhase =>
      && selected == (if b.streamed then Trailing(b, s, at.ns) else b.partitions.Keys)
      && selected != {} && (!b.streamed ==> at.microstep == 0) && AtMost(s.cut.instant, at)
      && s.sealed.Some? && s.sealed.value < at.ns && s.runTarget.Some? && at.ns <= s.runTarget.value
    case SamplePhase =>
      && at.ns == s.cut.instant.ns && Less(s.cut.instant, at) && selected == SampleReady(b, s, at.ns)
      && forall e :: e in Ordinary(b, s) ==> e.ns > at.ns
    case ReactPhase => at.ns == s.cut.instant.ns && Less(s.cut.instant, at) && selected != {}
  }

  ghost predicate Selects(b: Pinned, s: State, selected: set<string>, at: Instant, phase: Phase)
    requires WatermarksValid(b, s) && FrontiersValid(b, s) && QueuesValid(b, s)
  {
    && Scheduled(b, s, selected, at, phase)
    && (phase.ReactPhase? ==>
          LeastClosed(b.cohorts, Preferred(Ready(b, s, at), b.cohorts, Lifecycle(b)), selected))
  }

  function Undispatched(s: State, selected: set<string>, at: Instant, phase: Phase): map<nat, WorkItem> {
    if phase.ReactPhase? || phase.SamplePhase?
    then map i | i in s.work && !(s.work[i].recipient in selected && AtMost(s.work[i].eligible, at)) :: s.work[i]
    else s.work
  }

  /** Authorize every call of a wave before any runs, dispatching due inboxes. */
  ghost function Invoked(b: Pinned, s: State, selected: set<string>, at: Instant, phase: Phase): Option<State>
    requires StateValid(b, s)
  {
    if at.microstep > b.maxMicrosteps || s.intents != map[] then None
    else if !Selects(b, s, selected, at, phase) || !(selected <= b.partitions.Keys) then None
    else if exists p ::
      p in selected && Grant(b.partitions[p].timing, s.frontiers[p], CallOf(phase, at)).None? then None
    else Some(Calling(b, s, selected, at, phase))
  }

  function Calling(b: Pinned, s: State, selected: set<string>, at: Instant, phase: Phase): State
    requires selected <= b.partitions.Keys && selected <= s.frontiers.Keys
    requires forall p :: p in selected ==> Grant(b.partitions[p].timing, s.frontiers[p], CallOf(phase, at)).Some?
  {
    s.(cut := NextCut(s, at), work := Undispatched(s, selected, at, phase),
       intents := map p | p in selected :: Grant(b.partitions[p].timing, s.frontiers[p], CallOf(phase, at)).value)
  }

  /** Apply a batch's effects in order; an illegal one refuses the whole transaction. */
  function Effected(b: Pinned, s: State, at: Instant, effects: seq<Effect>): Option<State>
    requires forall p :: p in b.partitions ==> Bindable(b.partitions[p].timing)
    decreases |effects|
  {
    if effects == [] then Some(s)
    else
      match EffectOf(b, s, at, effects[0])
      case None => None
      case Some(next) => Effected(b, next, at, effects[1..])
  }

  function EffectOf(b: Pinned, s: State, at: Instant, effect: Effect): Option<State>
    requires forall p :: p in b.partitions ==> Bindable(b.partitions[p].timing)
  {
    match effect
    case Emit(recipient, requested, lag) =>
      if recipient !in b.partitions then None
      else
        var eligible := Eligibility(b.partitions[recipient].timing, requested, at, lag);
        Some(s.(work := s.work[s.arrivals := WorkItem(recipient, eligible)], arrivals := s.arrivals + 1))
    case ScheduleTimer(key, due) =>
      if key in s.used || !Less(at, due) then None
      else Some(s.(timers := s.timers[key := due], used := s.used + {key}))
    case CancelTimer(key) =>
      if key in s.timers then Some(s.(timers := s.timers - {key})) else None
  }

  /** One merged transaction: every intent returns, frontiers move, effects are applied. */
  function Returned(b: Pinned, s: State, at: Instant, effects: seq<Effect>): Option<State>
    requires forall p :: p in b.partitions ==> Bindable(b.partitions[p].timing)
  {
    if exists p :: p in s.intents && s.intents[p].logical != at then None
    else Effected(b, s.(cut := NextCut(s, at), frontiers := s.frontiers + s.intents, intents := map[]), at, effects)
  }

  predicate Notice(effect: Effect) { effect.Emit? }

  /** Reservations a boundary publishes: due ones of safe targets. */
  function Consumable(b: Pinned, s: State, at: Instant): set<nat>
    requires WatermarksValid(b, s)
  {
    set i | i in s.pending && s.pending[i].boundary <= at.ns && s.pending[i].target in Safe(b, s, at.ns)
  }

  /** What a published reservation puts in its target's queue. */
  function Publication(b: Pinned, r: Reservation, at: Instant): Effect {
    Emit(r.target, if r.CommandAt? then r.at else at,
         if r.target in b.partitions then b.partitions[r.target].lag else 0)
  }

  /** Partition timers a boundary fires. */
  function Firing(b: Pinned, s: State, at: Instant): set<TimerKey> {
    set key | key in s.timers && AtMost(s.timers[key], at) && key.PartitionTimer? && key.partition in b.partitions
  }

  /** What a boundary publishes, reservation by reservation. */
  function Publications(b: Pinned, s: State, at: Instant): seq<Effect>
    requires WatermarksValid(b, s)
  {
    var due := Numbered(Consumable(b, s, at));
    seq(|due|, i requires 0 <= i < |due| => assert due[i] in due; Publication(b, s.pending[due[i]], at))
  }

  /** What the partition timers a boundary fires put in their partitions' queues. */
  function Notifications(b: Pinned, s: State, at: Instant): seq<Effect> {
    var fired := Named(Firing(b, s, at));
    seq(|fired|, i requires 0 <= i < |fired| => assert fired[i] in fired;
      Emit(fired[i].partition, s.timers[fired[i]], 0))
  }

  /** What a boundary queues of itself. */
  function Published(b: Pinned, s: State, at: Instant): seq<Effect>
    requires WatermarksValid(b, s)
  {
    Publications(b, s, at) + Notifications(b, s, at)
  }

  /** Boundary control: due reservations of safe targets and due timers are consumed and published; beyond that only
      notices are added. */
  function Bounded(b: Pinned, s: State, at: Instant, notices: seq<Effect>): Option<State>
    requires (forall p :: p in b.partitions ==> Bindable(b.partitions[p].timing)) && WatermarksValid(b, s)
  {
    if exists i :: 0 <= i < |notices| && !Notice(notices[i]) then None
    else Effected(b, Consumed(b, s, at), at, Published(b, s, at) + notices)
  }

  function Consumed(b: Pinned, s: State, at: Instant): State
    requires WatermarksValid(b, s)
  {
    s.(cut := NextCut(s, at),
       pending := map i | i in s.pending && i !in Consumable(b, s, at) :: s.pending[i],
       timers := map key | key in s.timers && !AtMost(s.timers[key], at) :: s.timers[key])
  }

  /** Live admission: the boundary lies strictly after the cut, the seal and, when late, the watermark. */
  function Reserved(b: Pinned, s: State, r: Request): Option<State> {
    if s.sealed.None? || s.intents != map[] || r.stream !in s.watermarks || r.target !in b.partitions then None
    else
      var late := r.mapped <= s.watermarks[r.stream] || r.mapped <= s.sealed.value;
      if late && r.reject then Some(s.(cut := NextCut(s, s.cut.instant)))
      else
        var beyond := Max(r.mapped, s.cut.instant.ns + 1);
        var closed := if late then Max(beyond, s.watermarks[r.stream] + 1) else beyond;
        var boundary := if r.ingressAt.Some? then Max(closed, r.ingressAt.value) else closed;
        if boundary <= s.sealed.value then None
        else Some(s.(cut := NextCut(s, s.cut.instant), arrivals := s.arrivals + 1,
                     pending := s.pending[s.arrivals := CommandAt(boundary, r.target, Activation(r.at, boundary))]))
  }

  /** A live command acts no earlier than its boundary. */
  function Activation(at: Instant, boundary: nat): Instant {
    if at.ns >= boundary then at else Instant(boundary, 0)
  }

  /** A plain submission: only to a settled run with no limit open, published and active beyond its seal. */
  function Submitted(b: Pinned, s: State, target: string, at: Instant, ingressAt: Option<nat>): Option<State> {
    if s.sealed.None? || s.runTarget.Some? then None
    else
      var boundary := if ingressAt.Some? then ingressAt.value else s.sealed.value + 1;
      if boundary <= s.sealed.value || at.ns < boundary || target !in b.partitions then None
      else Some(s.(cut := NextCut(s, s.cut.instant), arrivals := s.arrivals + 1,
                   pending := s.pending[s.arrivals := CommandAt(boundary, target, at)]))
  }

  /** A host cancellation is reserved right after the seal, wherever the cut stands. */
  function CancelReserved(b: Pinned, s: State, target: string, granted: bool): Option<State> {
    if s.sealed.None? || target !in b.partitions then None
    else if !granted then Some(s.(cut := NextCut(s, s.cut.instant)))
    else Some(s.(cut := NextCut(s, s.cut.instant), arrivals := s.arrivals + 1,
                 pending := s.pending[s.arrivals := CancelAt(s.sealed.value + 1, target)]))
  }

  function Closed(b: Pinned, s: State, stream: string, ns: int): State {
    s.(cut := NextCut(s, s.cut.instant), watermarks := s.watermarks[stream := ns],
       defaultWatermark := if stream == "default" && b.defaultStream then Some(ns) else s.defaultWatermark)
  }

  function Progressed(b: Pinned, s: State, stream: string, progress: int, ns: int): State {
    Closed(b, s, stream, ns).(progress := s.progress[stream := progress])
  }

  function Limited(s: State, ns: nat): State {
    s.(cut := NextCut(s, s.cut.instant), runTarget := Some(ns))
  }

  function Sealed(s: State, ns: nat): State {
    var cut := NextCut(s, s.cut.instant);
    s.(cut := cut, sealed := Some(ns), runTarget := if s.runTarget == Some(ns) then None else s.runTarget,
       nativeSeals := s.nativeSeals + [NativeSeal((set p | p in s.frontiers && s.frontiers[p].native == ns), cut)])
  }

  function Failed(s: State): State {
    s.(cut := NextCut(s, s.cut.instant), intents := map[], faulted := true)
  }

  /** What binding starts with is closed: every stream somebody depends on, and the default one, within what has a
      lateness. */
  ghost predicate Opening(b: Pinned, watermarks: map<string, int>) {
    && (forall p, x :: p in b.dependencies && x in b.dependencies[p] ==> x in watermarks)
    && (forall x :: x in watermarks ==> x in b.lateness) && (b.defaultStream ==> "default" in watermarks)
  }

  /** The state binding leaves. */
  function Bound(b: Pinned, watermarks: map<string, int>): State {
    State(Cut(0, Instant(0, 0)), None, None,
          map p | p in b.partitions :: Frontier(Instant(0, 0), 0), map[], [],
          map[], map[], {}, map[], 0, watermarks,
          if b.defaultStream && "default" in watermarks then Some(watermarks["default"]) else None, map[], false)
  }
}
