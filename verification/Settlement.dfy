/** Same-time settlement: what completed waves and boundaries leave, who is ready, and what to run next. */
module Settlement {
  import opened Cohorts
  import opened HostCalls
  import opened Listing
  import opened NativeGrid
  import opened Replay
  import opened RunState
  import opened Time
  import opened Timers

  // ---- waves and boundaries ----

  /** Deadlines stay as they are, or come for later than an instant. */
  ghost predicate TimersAhead(a: State, c: State, at: Instant) {
    forall key :: key in c.timers ==> (key in a.timers && c.timers[key] == a.timers[key]) || Less(at, c.timers[key])
  }

  /** Reservations stay as they are, or come under numbers never used before. */
  ghost predicate Renews(a: State, c: State) {
    && a.arrivals <= c.arrivals
    && forall i :: i in c.pending ==> (i in a.pending && c.pending[i] == a.pending[i]) || a.arrivals <= i
  }

  /** A completed wave: the selected partitions stand at its instant, the others where they were. */
  ghost predicate Waved(a: State, c: State, selected: set<string>, at: Instant) {
    && c.cut.instant == at && c.intents == map[] && c.sealed == a.sealed && c.runTarget == a.runTarget
    && c.frontiers.Keys == a.frontiers.Keys
    && (forall p :: p in c.frontiers ==>
          if p in selected then c.frontiers[p].logical == at else c.frontiers[p] == a.frontiers[p])
    && GrowsOnly(a.watermarks, c.watermarks) && TimersAhead(a, c, at) && Renews(a, c)
  }

  /** Calls stand at their wave's instant and leave everything but the queue and the cut alone. */
  ghost predicate CallsAt(a: State, c: State, selected: set<string>, at: Instant) {
    && c == a.(cut := c.cut, work := c.work, intents := c.intents) && c.cut.instant == at
    && c.intents.Keys == selected && (forall p :: p in selected ==> c.intents[p].logical == at)
    && forall i :: i in c.work ==> i in a.work && c.work[i] == a.work[i]
  }

  lemma InvokedCalls(b: Pinned, s: State, selected: set<string>, at: Instant, phase: Phase)
    requires StateValid(b, s) && InTime(b, s, at) && Invoked(b, s, selected, at, phase).Some?
    ensures CallsAt(s, Invoked(b, s, selected, at, phase).value, selected, at)
  {
    forall p | p in selected
      ensures Grant(b.partitions[p].timing, s.frontiers[p], CallOf(phase, at)).value.logical == at
    {
      GrantedAt(b.partitions[p].timing, s.frontiers[p], CallOf(phase, at));
    }
    assert Invoked(b, s, selected, at, phase) == Some(Calling(b, s, selected, at, phase));
  }

  lemma GrantedAt(t: Timing, f: Frontier, call: Call)
    requires Grant(t, f, call).Some?
    ensures Grant(t, f, call).value.logical == call.at
  {
  }

  lemma ReturnedWaves(b: Pinned, s: State, called: State, selected: set<string>, at: Instant, effects: seq<Effect>)
    requires PinnedValid(b) && StateValid(b, called) && InTime(b, called, at) && CallsAt(s, called, selected, at)
    requires selected <= s.frontiers.Keys && Returned(b, called, at, effects).Some?
    ensures Waved(s, Returned(b, called, at, effects).value, selected, at)
    ensures Returned(b, called, at, effects).value.pending == s.pending
    ensures Returned(b, called, at, effects).value.faulted == s.faulted
  {
    ReturnedKeeps(b, called, at, effects);
    var r := Returned(b, called, at, effects).value;
    assert r.frontiers == s.frontiers + called.intents && r.watermarks == s.watermarks;
  }

  lemma ReturnedOnTime(b: Pinned, s: State, called: State, selected: set<string>, at: Instant, effects: seq<Effect>)
    requires PinnedValid(b) && StateValid(b, called) && InTime(b, called, at) && CallsAt(s, called, selected, at)
    requires Returned(b, called, at, effects).Some? && OnTime(s) && Forward(s, at.ns)
    ensures OnTime(Returned(b, called, at, effects).value)
  {
    ReturnedKeeps(b, called, at, effects);
    RoutedOnTime(b, called, Returned(b, called, at, effects).value, at);
  }

  lemma WavedThenHost(a: State, c: State, d: State, selected: set<string>, at: Instant)
    requires Waved(a, c, selected, at) && HostOnly(c, d)
    ensures Waved(a, d, selected, at)
  {
  }

  /** What a boundary may route: notices to bound partitions. */
  function Notices(b: Pinned, effects: seq<Effect>): (notices: seq<Effect>)
    ensures forall i :: 0 <= i < |notices| ==> Notice(notices[i]) && notices[i].recipient in b.partitions
  {
    if effects == [] then []
    else
      (if Notice(effects[0]) && effects[0].recipient in b.partitions then [effects[0]]
        else []) + Notices(b, effects[1..])
  }

  /** Every notice to a bound partition is routed, in order and as often as given, and nothing else. */
  lemma {:induction false} NoticesExactly(b: Pinned, effects: seq<Effect>, e: Effect)
    ensures multiset(Notices(b, effects))[e] ==
      if e.Emit? && e.recipient in b.partitions then multiset(effects)[e] else 0
  {
    if effects != [] {
      NoticesExactly(b, effects[1..], e);
      assert effects == [effects[0]] + effects[1..];
      assert multiset(effects) == multiset{effects[0]} + multiset(effects[1..]);
    }
  }

  /** Routing notices never fails, so neither does boundary control. */
  lemma {:induction false} NoticesApply(b: Pinned, s: State, at: Instant, notices: seq<Effect>)
    requires PinnedValid(b)
    requires forall i :: 0 <= i < |notices| ==> Notice(notices[i]) && notices[i].recipient in b.partitions
    ensures Effected(b, s, at, notices).Some?
    decreases |notices|
  {
    if notices != [] {
      NoticesApply(b, EffectOf(b, s, at, notices[0]).value, at, notices[1..]);
    }
  }

  /** What a boundary publishes is for bound partitions too. */
  lemma PublishedRoutes(b: Pinned, s: State, at: Instant)
    requires StateValid(b, s)
    ensures forall i :: 0 <= i < |Published(b, s, at)| ==>
      Notice(Published(b, s, at)[i]) && Published(b, s, at)[i].recipient in b.partitions
  {
    PublicationsRoute(b, s, at);
    NotificationsRoute(b, s, at);
  }

  lemma PublicationsRoute(b: Pinned, s: State, at: Instant)
    requires StateValid(b, s)
    ensures forall e :: e in Publications(b, s, at) ==> Notice(e) && e.recipient in b.partitions
  {
    var due := Numbered(Consumable(b, s, at));
    forall i | 0 <= i < |due| ensures Publications(b, s, at)[i].recipient in b.partitions {
      assert due[i] in due;
    }
  }

  lemma NotificationsRoute(b: Pinned, s: State, at: Instant)
    requires StateValid(b, s)
    ensures forall e :: e in Notifications(b, s, at) ==> Notice(e) && e.recipient in b.partitions
  {
    var fired := Named(Firing(b, s, at));
    forall i | 0 <= i < |fired| ensures Notifications(b, s, at)[i].recipient in b.partitions {
      assert fired[i] in fired;
    }
  }

  lemma BoundedWaves(b: Pinned, s: State, at: Instant, notices: seq<Effect>)
    requires PinnedValid(b) && StateValid(b, s) && InTime(b, s, at) && s.intents == map[]
    requires Bounded(b, s, at, notices).Some?
    ensures Waved(s, Bounded(b, s, at, notices).value, {}, at) && Bounded(b, s, at, notices).value.faulted == s.faulted
    ensures NoLate(s, at.ns) ==> NoLate(Bounded(b, s, at, notices).value, at.ns)
    ensures b.partitions.Keys <= Safe(b, s, at.ns) ==> NoLate(Bounded(b, s, at, notices).value, at.ns)
    ensures OnTime(s) && Forward(s, at.ns) ==> OnTime(Bounded(b, s, at, notices).value)
  {
    BoundedKeeps(b, s, at, notices);
    assert Bounded(b, s, at, notices).value.pending == Consumed(b, s, at).pending;
    assert Bounded(b, s, at, notices).value.watermarks == s.watermarks;
    if OnTime(s) && Forward(s, at.ns) {
      BoundedOnTime(b, s, at, notices);
    }
  }

  lemma BoundedOnTime(b: Pinned, s: State, at: Instant, notices: seq<Effect>)
    requires PinnedValid(b) && StateValid(b, s) && InTime(b, s, at) && s.intents == map[]
    requires Bounded(b, s, at, notices).Some? && OnTime(s) && Forward(s, at.ns)
    ensures OnTime(Bounded(b, s, at, notices).value)
  {
    BoundedKeeps(b, s, at, notices);
    RoutedOnTime(b, Consumed(b, s, at), Bounded(b, s, at, notices).value, at);
  }

  // ---- nothing is left behind ----

  ghost predicate NotPast(s: State, to: nat) {
    && (forall i :: i in s.work ==> to <= s.work[i].eligible.ns)
    && forall key :: key in s.timers ==> to <= s.timers[key].ns
  }

  ghost predicate BeyondSeal(s: State, ns: nat) {
    (forall i :: i in s.work ==> s.work[i].eligible.ns > ns) && forall key :: key in s.timers ==> s.timers[key].ns > ns
  }

  /** Queued work and deadlines are never in the past, and none lies at or before the seal. */
  ghost predicate OnTime(s: State) {
    NotPast(s, s.cut.instant.ns) && (s.sealed.Some? ==> BeyondSeal(s, s.sealed.value))
  }

  /** Time may move on to `to`: it lies beyond the seal and jumps over no queued work and no deadline. */
  ghost predicate Forward(s: State, to: nat) {
    NotPast(s, to) && (s.sealed.Some? ==> s.sealed.value < to)
  }

  lemma RoutedOnTime(b: Pinned, a: State, c: State, at: Instant)
    requires Forward(a, at.ns) && (a.sealed.Some? ==> BeyondSeal(a, a.sealed.value))
    requires c.sealed == a.sealed && c.cut.instant == at
    requires WorkRouted(b, a.work, c.work, a.arrivals, c.arrivals, at) && TimersRouted(a.timers, c.timers, at)
    ensures OnTime(c)
  {
    forall i | i in c.work ensures at.ns <= c.work[i].eligible.ns {
      assert i in a.work || Less(at, c.work[i].eligible);
    }
    forall key | key in c.timers ensures at.ns <= c.timers[key].ns {
      assert key in a.timers || Less(at, c.timers[key]);
    }
  }

  /** Without streams everyone stands at the cut. */
  ghost predicate Level(b: Pinned, s: State) {
    !b.streamed ==> forall p :: p in s.frontiers ==> s.frontiers[p].logical.ns == s.cut.instant.ns
  }

  /** What holds of the store between steps. */
  ghost predicate Orderly(b: Pinned, s: State) {
    OnTime(s) && Level(b, s) && AtRest(s)
  }

  lemma HostOrderly(b: Pinned, a: State, c: State)
    requires Orderly(b, a) && HostOnly(a, c)
    ensures Orderly(b, c)
  {
  }

  /** Time moves on only under a run limit, and without streams for everyone together. */
  ghost predicate MovesTogether(b: Pinned, s: State, selected: set<string>, at: Instant) {
    at.ns == s.cut.instant.ns || (s.runTarget.Some? && (!b.streamed ==> selected == b.partitions.Keys))
  }

  lemma WavedOrderly(b: Pinned, a: State, c: State, selected: set<string>, at: Instant)
    requires StateValid(b, a) && Orderly(b, a) && Waved(a, c, selected, at) && MovesTogether(b, a, selected, at)
    requires OnTime(c)
    ensures Orderly(b, c)
  {
  }

  // ---- where everyone stands ----

  /** Everyone is safe at, and stands at, one physical time. */
  ghost predicate Standing(b: Pinned, s: State, ns: nat)
    requires WatermarksValid(b, s)
  {
    && s.cut.instant.ns == ns && b.partitions.Keys <= Safe(b, s, ns)
    && forall p :: p in s.frontiers ==> s.frontiers[p].logical.ns == ns
  }

  /** A step at one physical time moves frontiers to that time only, closes no watermark less, sets no deadline for
      the start of that time, and reserves under new numbers only. */
  ghost predicate Stands(a: State, c: State, ns: nat) {
    && c.cut.instant.ns == ns && c.frontiers.Keys == a.frontiers.Keys && GrowsOnly(a.watermarks, c.watermarks)
    && TimersAhead(a, c, Instant(ns, 0)) && Renews(a, c)
    && forall p :: p in c.frontiers ==> c.frontiers[p].logical.ns == ns || c.frontiers[p] == a.frontiers[p]
  }

  /** A settlement step reaches a strictly later microstep, or the host moved first. */
  ghost predicate Progresses(a: State, before: nat, c: State, after: nat, ns: nat) {
    && Stands(a, c, ns)
    && (c.cut.instant.microstep > a.cut.instant.microstep || (c.cut.instant == a.cut.instant && after < before))
  }

  /** Some partitions stand at a physical time. */
  ghost predicate AllAt(s: State, some: set<string>, ns: nat) {
    forall p :: p in some && p in s.frontiers ==> s.frontiers[p].logical.ns == ns
  }

  /** No deadline is still active at an instant. */
  ghost predicate NoneDue(s: State, at: Instant) {
    forall key :: key in s.timers ==> Less(at, s.timers[key])
  }

  /** Whoever stood at a physical time does so still; no deadline came for its start, and what was reserved stays. */
  ghost predicate StandStill(a: State, c: State, ns: nat) {
    && c.frontiers.Keys == a.frontiers.Keys && TimersAhead(a, c, Instant(ns, 0)) && Renews(a, c)
    && forall p :: p in c.frontiers && a.frontiers[p].logical.ns == ns ==> c.frontiers[p].logical.ns == ns
  }

  lemma WavedStands(a: State, c: State, selected: set<string>, at: Instant)
    requires Waved(a, c, selected, at)
    ensures Stands(a, c, at.ns) && AllAt(c, selected, at.ns)
  {
  }

  lemma SameStandStill(a: State, c: State, d: State, ns: nat)
    requires StandStill(a, c, ns) && d.frontiers == c.frontiers && d.timers == c.timers && Renews(c, d)
    ensures StandStill(a, d, ns)
  {
  }

  lemma StandingStays(b: Pinned, a: State, c: State, ns: nat)
    requires WatermarksValid(b, a) && WatermarksValid(b, c) && Standing(b, a, ns) && Stands(a, c, ns)
    ensures Standing(b, c, ns)
  {
    SafeStays(b, a, c, ns);
  }

  /** Partitions still short of a boundary. */
  function Behind(s: State, to: nat): set<string> {
    set p | p in s.frontiers && s.frontiers[p].logical.ns < to
  }

  lemma BehindIsTrailing(b: Pinned, s: State, to: nat)
    requires PinnedValid(b) && StateValid(b, s) && b.partitions.Keys <= Safe(b, s, to)
    ensures Behind(s, to) == Trailing(b, s, to)
  {
  }

  lemma NobodyBehind(b: Pinned, s: State, to: nat)
    requires Populated(b) && StateValid(b, s) && s.cut.instant.ns <= to && b.partitions.Keys <= Safe(b, s, to)
    requires Behind(s, to) == {}
    ensures Standing(b, s, to)
  {
    forall p | p in s.frontiers ensures s.frontiers[p].logical.ns == to == s.cut.instant.ns {
      assert p !in Behind(s, to);
      assert AtMost(s.frontiers[p].logical, s.cut.instant);
    }
    var p :| p in b.partitions;
    assert p in s.frontiers;
  }

  lemma CaughtUp(b: Pinned, a: State, c: State, to: nat)
    requires PinnedValid(b) && StateValid(b, a) && StateValid(b, c)
    requires a.cut.instant.ns <= to && b.partitions.Keys <= Safe(b, a, to) && Stands(a, c, to)
    requires forall p :: p in Behind(a, to) && p in c.frontiers ==> c.frontiers[p].logical.ns == to
    ensures Standing(b, c, to)
  {
    SafeStays(b, a, c, to);
    forall p | p in c.frontiers ensures c.frontiers[p].logical.ns == to {
      assert AtMost(a.frontiers[p].logical, a.cut.instant);
      assert p in Behind(a, to) || a.frontiers[p].logical.ns >= to;
    }
  }

  // ---- who is ready ----

  /** Before everyone is safe, settlement looks only at the ordinary work of safe recipients. */
  function SafeOrdinary(b: Pinned, s: State, ns: nat): set<Instant>
    requires WatermarksValid(b, s) && QueuesValid(b, s)
  {
    set i | i in s.work && s.work[i].recipient in Safe(b, s, ns) && !Sampled(b, s.work[i].recipient)
      :: s.work[i].eligible
  }

  /** Safe ordinary work is due by an instant. */
  ghost predicate OrdinaryDue(b: Pinned, s: State, at: Instant)
    requires WatermarksValid(b, s) && QueuesValid(b, s)
  {
    exists e :: e in SafeOrdinary(b, s, at.ns) && AtMost(e, at)
  }

  /** Every safe partition that takes ordinary work stands at a physical time. */
  ghost predicate SafeStand(b: Pinned, s: State, ns: nat)
    requires WatermarksValid(b, s) && FrontiersValid(b, s)
  {
    forall p :: p in Safe(b, s, ns) && p in s.frontiers && !Sampled(b, p) ==> s.frontiers[p].logical.ns == ns
  }

  lemma ReadyWhenDue(b: Pinned, s: State, at: Instant)
    requires PinnedValid(b) && StateValid(b, s) && SafeStand(b, s, at.ns) && OrdinaryDue(b, s, at)
    ensures Ready(b, s, at) != {}
  {
    var e :| e in SafeOrdinary(b, s, at.ns) && AtMost(e, at);
    var i :| i in s.work && s.work[i].recipient in Safe(b, s, at.ns) && !Sampled(b, s.work[i].recipient)
      && s.work[i].eligible == e;
    assert s.work[i].recipient in s.frontiers;
    assert s.work[i].recipient in Ready(b, s, at);
  }

  /** The same state over another work queue. */
  function Requeued(s: State, work: map<nat, WorkItem>, arrivals: nat): State {
    s.(work := work, arrivals := arrivals)
  }

  ghost predicate FindsReady(b: Pinned, s: State, work: map<nat, WorkItem>, arrivals: nat, at: Instant)
    requires StateValid(b, s)
  {
    var t := Requeued(s, work, arrivals);
    WatermarksValid(b, t) && FrontiersValid(b, t) && QueuesValid(b, t) && OrdinaryDue(b, t, at) ==>
      Ready(b, t, at) != {}
  }

  /** Settling at a physical time finds a ready recipient for whatever ordinary work is due, however it is queued,
      if and only if every safe partition that takes ordinary work stands at that time. */
  lemma ReadyExactly(b: Pinned, s: State, ns: nat)
    requires PinnedValid(b) && StateValid(b, s) && b.streamed
    ensures SafeStand(b, s, ns) <==>
      forall work, arrivals, at: Instant :: at.ns == ns ==> FindsReady(b, s, work, arrivals, at)
  {
    if SafeStand(b, s, ns) {
      forall work, arrivals, at: Instant | at.ns == ns ensures FindsReady(b, s, work, arrivals, at) {
        StandingFindsReady(b, s, work, arrivals, at);
      }
    } else {
      var p :| p in Safe(b, s, ns) && p in s.frontiers && !Sampled(b, p) && s.frontiers[p].logical.ns != ns;
      StragglerFindsNobody(b, s, ns, p);
    }
  }

  lemma StandingFindsReady(b: Pinned, s: State, work: map<nat, WorkItem>, arrivals: nat, at: Instant)
    requires PinnedValid(b) && StateValid(b, s) && SafeStand(b, s, at.ns)
    ensures FindsReady(b, s, work, arrivals, at)
  {
    var t := Requeued(s, work, arrivals);
    assert WatermarksValid(b, t) && FrontiersValid(b, t);
    if QueuesValid(b, t) && OrdinaryDue(b, t, at) {
      assert SafeStand(b, t, at.ns);
      ReadyWhenDue(b, t, at);
    }
  }

  /** One item for a safe partition that stands elsewhere is due, and nobody is ready for it. */
  lemma StragglerFindsNobody(b: Pinned, s: State, ns: nat, p: string)
    requires PinnedValid(b) && StateValid(b, s) && b.streamed
    requires p in Safe(b, s, ns) && p in s.frontiers && !Sampled(b, p) && s.frontiers[p].logical.ns != ns
    ensures exists work, arrivals, at: Instant :: at.ns == ns && !FindsReady(b, s, work, arrivals, at)
  {
    var at, work := Instant(ns, 1), map[s.arrivals := WorkItem(p, Instant(ns, 1))];
    OneItemQueued(b, s, p, at);
    var t := Requeued(s, work, s.arrivals + 1);
    assert t.work[s.arrivals].eligible in SafeOrdinary(b, t, ns);
    assert OrdinaryDue(b, t, at);
    assert !FindsReady(b, s, work, s.arrivals + 1, at);
  }

  lemma OneItemQueued(b: Pinned, s: State, p: string, at: Instant)
    requires StateValid(b, s) && p in b.partitions && b.streamed
    ensures var t := Requeued(s, map[s.arrivals := WorkItem(p, at)], s.arrivals + 1);
      && WatermarksValid(b, t) && FrontiersValid(b, t) && QueuesValid(b, t)
      && (p in s.frontiers && s.frontiers[p].logical.ns != at.ns ==> Ready(b, t, at) == {})
  {
    var t := Requeued(s, map[s.arrivals := WorkItem(p, at)], s.arrivals + 1);
    assert WatermarksValid(b, t) && FrontiersValid(b, t);
    assert forall i :: i in t.pending ==> i in s.pending && t.pending[i] == s.pending[i];
  }
}
