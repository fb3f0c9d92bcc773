/** The next step of same-time settlement: the one move it has, at the earliest microstep that move may take. */
module Planning {
  import opened NativeGrid
  import opened Replay
  import opened RunState
  import opened Settlement
  import opened Time
  import opened Timers
  import Sampling

  datatype Plan = Done | SampleStep(selected: set<string>, at: Instant) | BoundaryStep(at: Instant)
    | ReactStep(at: Instant)

  /** Due safe ordinary work, or a due timer, has a microstep. */
  ghost predicate Asks(b: Pinned, s: State, ns: nat, microstep: nat)
    requires WatermarksValid(b, s) && QueuesValid(b, s)
  {
    || (exists e :: e in SafeOrdinary(b, s, ns) && e.ns <= ns && e.microstep == microstep)
    || exists key :: key in s.timers && s.timers[key].ns <= ns && s.timers[key].microstep == microstep
  }

  /** The earliest later microstep at which something due may run: the next one, or when nothing asks for it yet the
      least one asked for. */
  ghost predicate DueStep(b: Pinned, s: State, at: Instant)
    requires WatermarksValid(b, s) && QueuesValid(b, s)
  {
    && at.ns == s.cut.instant.ns && at.microstep > s.cut.instant.microstep
    && (exists m: nat :: m <= at.microstep && Asks(b, s, at.ns, m))
    && (at.microstep == s.cut.instant.microstep + 1 || forall m: nat :: Asks(b, s, at.ns, m) ==> at.microstep <= m)
  }

  /** A due input of a sampled evaluator selected at a physical time. */
  ghost predicate Input(b: Pinned, s: State, ns: nat, i: nat)
    requires StateValid(b, s)
  {
    i in s.work && s.work[i].recipient in SampleReady(b, s, ns) && s.work[i].eligible.ns <= ns
  }

  /** The earliest later microstep that no input of the selected evaluators comes after. */
  ghost predicate InputStep(b: Pinned, s: State, at: Instant)
    requires StateValid(b, s)
  {
    && at.ns == s.cut.instant.ns && at.microstep > s.cut.instant.microstep
    && (forall i :: Input(b, s, at.ns, i) ==> s.work[i].eligible.microstep <= at.microstep)
    && (at.microstep == s.cut.instant.microstep + 1
        || exists i :: Input(b, s, at.ns, i) && s.work[i].eligible.microstep == at.microstep)
  }

  ghost predicate TimerBy(s: State, at: Instant) {
    exists key :: key in s.timers && AtMost(s.timers[key], at)
  }

  /** The next move of settlement at a physical time: timers first, then ordinary work of safe recipients, then the
      lowest sample level, each at the earliest microstep it may have; done when nothing is due. */
  ghost predicate Planned(b: Pinned, s: State, ns: nat, plan: Plan)
    requires StateValid(b, s)
  {
    match plan
    case Done => SafelySettled(b, s, ns)
    case BoundaryStep(at) => at.ns == ns && DueStep(b, s, at) && TimerBy(s, at)
    case ReactStep(at) => at.ns == ns && DueStep(b, s, at) && OrdinaryDue(b, s, at) && !TimerBy(s, at)
    case SampleStep(selected, at) =>
      && at.ns == ns && InputStep(b, s, at) && NothingOrdinary(b, s, ns)
      && selected == SampleReady(b, s, ns) && selected != {}
  }

  ghost predicate NoOrdinary(b: Pinned, s: State, ns: nat)
    requires WatermarksValid(b, s) && QueuesValid(b, s)
  {
    forall e :: e in Ordinary(b, s) ==> e.ns > ns
  }

  /** Neither ordinary work nor a timer is due. */
  ghost predicate NothingOrdinary(b: Pinned, s: State, ns: nat)
    requires WatermarksValid(b, s) && QueuesValid(b, s)
  {
    && NoOrdinary(b, s, ns) && (forall e :: e in SafeOrdinary(b, s, ns) ==> e.ns > ns)
    && forall key :: key in s.timers ==> s.timers[key].ns > ns
  }

  /** Whatever is safe at a physical time is settled: no timer, no ordinary work, no sample. */
  ghost predicate SafelySettled(b: Pinned, s: State, ns: nat)
    requires StateValid(b, s)
  {
    NothingOrdinary(b, s, ns) && SampleReady(b, s, ns) == {}
  }

  /** Settlement has one next move. */
  lemma PlanUnique(b: Pinned, s: State, ns: nat, plan: Plan, other: Plan)
    requires StateValid(b, s) && s.cut.instant.ns == ns && Planned(b, s, ns, plan) && Planned(b, s, ns, other)
    ensures plan == other
  {
    if plan.BoundaryStep? || plan.ReactStep? {
      SomethingOrdinary(b, s, plan.at);
      if other.BoundaryStep? || other.ReactStep? {
        DueStepUnique(b, s, plan.at, other.at);
      }
    } else if other.BoundaryStep? || other.ReactStep? {
      SomethingOrdinary(b, s, other.at);
    } else if plan.SampleStep? && other.SampleStep? {
      assert plan.at.microstep == other.at.microstep;
    }
  }

  lemma SomethingOrdinary(b: Pinned, s: State, at: Instant)
    requires StateValid(b, s) && DueStep(b, s, at)
    ensures !NothingOrdinary(b, s, at.ns)
  {
  }

  lemma DueStepUnique(b: Pinned, s: State, at: Instant, other: Instant)
    requires StateValid(b, s) && DueStep(b, s, at) && DueStep(b, s, other)
    ensures at == other
  {
    var m: nat :| m <= at.microstep && Asks(b, s, at.ns, m);
    var n: nat :| n <= other.microstep && Asks(b, s, other.ns, n);
  }

  /** Looking at everyone's work and looking at the work of safe recipients finds the same work due: nothing
      queued is in the past. */
  lemma SameOrdinary(b: Pinned, s: State, ns: nat, e: Instant)
    requires StateValid(b, s) && OnTime(s) && s.cut.instant.ns == ns && e.ns <= ns
    ensures e in Ordinary(b, s) <==> e in SafeOrdinary(b, s, ns)
  {
    if e in Ordinary(b, s) {
      var i :| i in s.work && !Sampled(b, s.work[i].recipient)
        && s.work[i].recipient in Safe(b, s, s.work[i].eligible.ns) && s.work[i].eligible == e;
      assert s.work[i].eligible.ns >= ns;
    }
    if e in SafeOrdinary(b, s, ns) {
      var i :| i in s.work && s.work[i].recipient in Safe(b, s, ns) && !Sampled(b, s.work[i].recipient)
        && s.work[i].eligible == e;
      assert s.work[i].eligible.ns >= ns;
    }
  }

  method LeastOf(points: set<Instant>) returns (least: Option<Instant>)
    ensures least.None? <==> points == {}
    ensures least.Some? ==> least.value in points && forall p :: p in points ==> AtMost(least.value, p)
  {
    if points == {} {
      return None;
    }
    LeastInstant(points);
    var at :| at in points && forall p :: p in points ==> AtMost(at, p);
    return Some(at);
  }

  method GreatestOf(points: set<nat>) returns (greatest: nat)
    ensures forall m :: m in points ==> m <= greatest
    ensures if points == {} then greatest == 0 else greatest in points
  {
    greatest := 0;
    var left := points;
    while left != {}
      invariant left <= points && (left == points || greatest in points) && (left == points ==> greatest == 0)
      invariant forall m :: m in points ==> m in left || m <= greatest
    {
      var m :| m in left;
      left := left - {m};
      greatest := if m < greatest then greatest else m;
    }
  }

  /** The latest input microstep of the selected samples. */
  method LastInput(b: Pinned, s: State, ns: nat) returns (last: nat)
    requires StateValid(b, s)
    ensures forall i :: Input(b, s, ns, i) ==> s.work[i].eligible.microstep <= last
    ensures last == 0 || exists i :: Input(b, s, ns, i) && s.work[i].eligible.microstep == last
  {
    var sampled := SampleReady(b, s, ns);
    var inputs := set i | i in s.work && s.work[i].recipient in sampled && s.work[i].eligible.ns <= ns
      :: s.work[i].eligible.microstep;
    assert forall i :: Input(b, s, ns, i) ==> s.work[i].eligible.microstep in inputs;
    last := GreatestOf(inputs);
    if last != 0 {
      ghost var i :| i in s.work && s.work[i].recipient in sampled && s.work[i].eligible.ns <= ns
        && s.work[i].eligible.microstep == last;
      assert Input(b, s, ns, i);
    }
  }

  /** When everyone stands safe at the boundary and neither ordinary work, nor a timer, nor a sample is due,
      nothing is due at all. */
  lemma NothingDue(b: Pinned, s: State, ns: nat)
    requires PinnedValid(b) && StateValid(b, s) && Standing(b, s, ns) && s.intents == map[]
    requires NoOrdinary(b, s, ns) && SampleReady(b, s, ns) == {}
    requires forall key :: key in s.timers ==> s.timers[key].ns > ns
    ensures Settled(b, s, ns)
  {
    SomeSampleReady(b, s, ns);
    forall i | i in s.work ensures s.work[i].eligible.ns > ns {
      if s.work[i].eligible.ns <= ns {
        DueSomewhere(b, s, ns, i);
      }
    }
  }

  lemma SomeSampleReady(b: Pinned, s: State, ns: nat)
    requires StateValid(b, s)
    ensures SampleReady(b, s, ns) == {} <==> DueSamples(b, s, ns) == {}
  {
    if DueSamples(b, s, ns) != {} {
      Sampling.LowestLevel(DueSamples(b, s, ns), Levels(b));
    }
  }

  lemma DueSomewhere(b: Pinned, s: State, ns: nat, i: nat)
    requires StateValid(b, s) && Standing(b, s, ns) && i in s.work && s.work[i].eligible.ns <= ns
    ensures Sampled(b, s.work[i].recipient) ==> s.work[i].recipient in DueSamples(b, s, ns)
    ensures !Sampled(b, s.work[i].recipient) ==> s.work[i].eligible in Ordinary(b, s)
  {
    assert s.work[i].recipient in Safe(b, s, ns);
    assert s.work[i].recipient in Safe(b, s, s.work[i].eligible.ns);
  }

  /** The earliest ordinary work due by a physical time, if any. */
  method DueWork(b: Pinned, s: State, ns: nat, seal: bool) returns (due: Option<Instant>)
    requires StateValid(b, s) && s.cut.instant.ns == ns && OnTime(s)
    ensures due.None? ==> NoOrdinary(b, s, ns) && forall e :: e in SafeOrdinary(b, s, ns) ==> e.ns > ns
    ensures due.Some? ==> due.value in SafeOrdinary(b, s, ns) && due.value.ns <= ns
    ensures due.Some? ==> forall e :: e in SafeOrdinary(b, s, ns) ==> AtMost(due.value, e)
  {
    var earliest := LeastOf(if seal then Ordinary(b, s) else SafeOrdinary(b, s, ns));
    due := if earliest.Some? && earliest.value.ns <= ns then earliest else None;
    forall e: Instant | e.ns <= ns ensures e in Ordinary(b, s) <==> e in SafeOrdinary(b, s, ns) {
      SameOrdinary(b, s, ns, e);
    }
  }

  /** The earliest deadline, if it is due by a physical time. */
  method DueTimer(s: State, ns: nat) returns (firing: Option<Instant>)
    ensures firing.None? ==> forall key :: key in s.timers ==> s.timers[key].ns > ns
    ensures firing.Some? ==> firing.value.ns <= ns && exists key :: key in s.timers && s.timers[key] == firing.value
    ensures firing.Some? ==> forall key :: key in s.timers ==> AtMost(firing.value, s.timers[key])
  {
    var deadlines := set key | key in s.timers :: s.timers[key];
    assert forall key :: key in s.timers ==> s.timers[key] in deadlines;
    var timer := LeastOf(deadlines);
    firing := if timer.Some? && timer.value.ns <= ns then timer else None;
  }

  /** The next move of same-time settlement: what to run, and at which later microstep. */
  method PlanStep(b: Pinned, s: State, ns: nat, seal: bool) returns (plan: Plan)
    requires PinnedValid(b) && StateValid(b, s) && s.intents == map[] && s.cut.instant.ns == ns && OnTime(s)
    ensures Planned(b, s, ns, plan)
    ensures plan.Done? && Standing(b, s, ns) ==> Settled(b, s, ns)
  {
    var due := DueWork(b, s, ns, seal);
    var firing := DueTimer(s, ns);
    if due.None? && firing.None? {
      plan := PlanSample(b, s, ns);
    } else {
      plan := PlanDue(s.cut.instant.microstep + 1, ns, due, firing);
      DuePlanned(b, s, ns, due, firing, plan);
    }
  }

  /** The earliest due work, if any. */
  ghost predicate EarliestWork(b: Pinned, s: State, ns: nat, due: Option<Instant>)
    requires WatermarksValid(b, s) && QueuesValid(b, s)
  {
    if due.None? then
      forall e :: e in SafeOrdinary(b, s, ns) ==> e.ns > ns
    else
      && due.value in SafeOrdinary(b, s, ns) && due.value.ns == ns
      && forall e :: e in SafeOrdinary(b, s, ns) ==> AtMost(due.value, e)
  }

  /** The earliest due timer, if any. */
  ghost predicate EarliestTimer(s: State, ns: nat, firing: Option<Instant>) {
    if firing.None? then
      forall key :: key in s.timers ==> s.timers[key].ns > ns
    else
      && firing.value.ns == ns && (exists key :: key in s.timers && s.timers[key] == firing.value)
      && forall key :: key in s.timers ==> AtMost(firing.value, s.timers[key])
  }

  lemma DuePlanned(b: Pinned, s: State, ns: nat, due: Option<Instant>, firing: Option<Instant>, plan: Plan)
    requires StateValid(b, s) && s.cut.instant.ns == ns && OnTime(s)
    requires EarliestWork(b, s, ns, due) && EarliestTimer(s, ns, firing)
    requires Chooses(s.cut.instant.microstep + 1, ns, due, firing, plan)
    ensures Planned(b, s, ns, plan)
  {
    LeastAsked(b, s, ns, due, firing, plan.at);
    if firing.Some? {
      var key :| key in s.timers && s.timers[key] == firing.value;
    }
  }

  lemma LeastAsked(b: Pinned, s: State, ns: nat, due: Option<Instant>, firing: Option<Instant>, at: Instant)
    requires StateValid(b, s) && s.cut.instant.ns == ns && at.ns == ns
    requires EarliestWork(b, s, ns, due) && EarliestTimer(s, ns, firing) && (due.Some? || firing.Some?)
    requires at.microstep == Max(s.cut.instant.microstep + 1, FirstStep(due, firing))
    ensures DueStep(b, s, at)
  {
    var first := FirstStep(due, firing);
    if due.Some? && due.value.microstep == first {
      assert Asks(b, s, ns, first);
    } else {
      var key :| key in s.timers && s.timers[key] == firing.value;
      assert Asks(b, s, ns, first);
    }
    forall m: nat | Asks(b, s, ns, m) ensures first <= m {
      if e :| e in SafeOrdinary(b, s, ns) && e.ns <= ns && e.microstep == m {
        assert AtMost(due.value, e);
      }
    }
  }

  /** The earlier of the microsteps that due work and a due timer have. */
  function FirstStep(due: Option<Instant>, firing: Option<Instant>): nat
    requires due.Some? || firing.Some?
  {
    if due.None? then firing.value.microstep
    else if firing.None? || due.value.microstep < firing.value.microstep then due.value.microstep
    else firing.value.microstep
  }

  /** The step for due work and timers: no earlier than `next`, and timers first. */
  ghost predicate Chooses(next: nat, ns: nat, due: Option<Instant>, firing: Option<Instant>, plan: Plan) {
    && (due.Some? || firing.Some?) && (plan.BoundaryStep? || plan.ReactStep?)
    && plan.at == Instant(ns, Max(next, FirstStep(due, firing)))
    && (plan.BoundaryStep? <==> firing.Some? && AtMost(firing.value, plan.at))
  }

  /** The microstep due work or a due timer asks for, no earlier than `next`; timers go first. */
  method PlanDue(next: nat, ns: nat, due: Option<Instant>, firing: Option<Instant>) returns (plan: Plan)
    requires due.Some? || firing.Some?
    ensures Chooses(next, ns, due, firing, plan)
  {
    var at := Instant(ns, Max(next, FirstStep(due, firing)));
    plan := if firing.Some? && AtMost(firing.value, at) then BoundaryStep(at) else ReactStep(at);
  }

  /** With nothing ordinary due: the next sample level, or nothing left to do. */
  method PlanSample(b: Pinned, s: State, ns: nat) returns (plan: Plan)
    requires PinnedValid(b) && StateValid(b, s) && s.intents == map[] && s.cut.instant.ns == ns
    requires NothingOrdinary(b, s, ns)
    ensures Planned(b, s, ns, plan) && (plan.Done? || plan.SampleStep?)
    ensures plan.Done? && Standing(b, s, ns) ==> Settled(b, s, ns)
  {
    var sampled := SampleReady(b, s, ns);
    if sampled == {} {
      if Standing(b, s, ns) {
        NothingDue(b, s, ns);
      }
      return Done;
    }
    var last := LastInput(b, s, ns);
    return SampleStep(sampled, Instant(ns, Max(s.cut.instant.microstep + 1, last)));
  }
}
