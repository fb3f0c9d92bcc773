/** What a batch does, read off the whole of it: which work it adds, which deadlines are left, when it is legal. */
module Batches {
  import opened Replay
  import opened RunState
  import opened Time
  import opened Timers

  /** The messages and notices of a batch, in order. */
  function Emits(effects: seq<Effect>): (emits: seq<Effect>)
    ensures forall k :: 0 <= k < |emits| ==> emits[k].Emit?
  {
    if effects == [] then []
    else
      var last := effects[|effects| - 1];
      Emits(effects[..|effects| - 1]) + (if last.Emit? then [last] else [])
  }

  lemma {:induction false} EmitsJoin(a: seq<Effect>, c: seq<Effect>)
    ensures Emits(a + c) == Emits(a) + Emits(c)
    decreases |c|
  {
    if c == [] {
      assert a + c == a;
    } else {
      var n := |c| - 1;
      EmitsJoin(a, c[..n]);
      assert (a + c)[..|a + c| - 1] == a + c[..n];
    }
  }

  lemma {:induction false} EmitsAll(effects: seq<Effect>)
    requires forall k :: 0 <= k < |effects| ==> effects[k].Emit?
    ensures Emits(effects) == effects
  {
    if effects != [] {
      EmitsAll(effects[..|effects| - 1]);
      assert effects == effects[..|effects| - 1] + [effects[|effects| - 1]];
    }
  }

  /** An item of work is the one its message asked for, when the recipient may take it. */
  ghost predicate Carries(b: Pinned, item: WorkItem, emit: Effect, at: Instant) {
    && emit.Emit? && emit.recipient in b.partitions && item.recipient == emit.recipient
    && Arrives(b.partitions[emit.recipient].timing, emit.requested, at, emit.lag, item.eligible)
  }

  /** The queue gained one item for each message, under consecutive numbers, and lost none. */
  ghost predicate Gains(b: Pinned, before: map<nat, WorkItem>, first: nat, after: map<nat, WorkItem>, next: nat,
                        emits: seq<Effect>, at: Instant) {
    && next == first + |emits|
    && (forall i :: i in after <==> i in before || first <= i < next)
    && (forall i :: i in before ==> i in after && after[i] == before[i])
    && forall k :: 0 <= k < |emits| ==> first + k in after && Carries(b, after[first + k], emits[k], at)
  }

  /** The deadline a timer has after a batch: what the last effect that names it says. */
  function DeadlineAfter(timers: map<TimerKey, Instant>, effects: seq<Effect>, key: TimerKey): Option<Instant> {
    if effects == [] then (if key in timers then Some(timers[key]) else None)
    else
      var last := effects[|effects| - 1];
      if last.ScheduleTimer? && last.key == key then Some(last.due)
      else if last.CancelTimer? && last.key == key then None
      else DeadlineAfter(timers, effects[..|effects| - 1], key)
  }

  /** Deadlines are what the batch left, and it used up the identities it scheduled. */
  ghost predicate Sets(s: State, effects: seq<Effect>, next: State) {
    && (forall key :: key in next.timers <==> DeadlineAfter(s.timers, effects, key).Some?)
    && (forall key :: key in next.timers ==> Some(next.timers[key]) == DeadlineAfter(s.timers, effects, key))
    && forall key :: key in next.used <==> key in s.used || exists due :: ScheduleTimer(key, due) in effects
  }

  /** The k-th effect of a batch is allowed: a bound recipient, a timer identity never used before for a later
      deadline, or a deadline still active. */
  ghost predicate Allowed(b: Pinned, s: State, at: Instant, effects: seq<Effect>, k: nat)
    requires k < |effects|
  {
    match effects[k]
    case Emit(recipient, _, _) => recipient in b.partitions
    case ScheduleTimer(key, due) =>
      && key !in s.used && Less(at, due)
      && forall j, earlier :: 0 <= j < k ==> effects[j] != ScheduleTimer(key, earlier)
    case CancelTimer(key) => DeadlineAfter(s.timers, effects[..k], key).Some?
  }

  ghost predicate Lawful(b: Pinned, s: State, at: Instant, effects: seq<Effect>) {
    forall k :: 0 <= k < |effects| ==> Allowed(b, s, at, effects, k)
  }

  /** What a batch makes of a state. */
  ghost predicate Applied(b: Pinned, s: State, at: Instant, effects: seq<Effect>, next: State) {
    && next == s.(work := next.work, timers := next.timers, used := next.used, arrivals := next.arrivals)
    && Gains(b, s.work, s.arrivals, next.work, next.arrivals, Emits(effects), at) && Sets(s, effects, next)
  }

  /** The last effect of a batch applies to what the others left. */
  lemma {:induction false} EffectedLast(b: Pinned, s: State, at: Instant, effects: seq<Effect>)
    requires PinnedValid(b) && effects != []
    ensures Effected(b, s, at, effects) ==
      match Effected(b, s, at, effects[..|effects| - 1])
      case None => None
      case Some(t) => EffectOf(b, t, at, effects[|effects| - 1])
    decreases |effects|
  {
    var n := |effects| - 1;
    if n > 0 {
      var first := EffectOf(b, s, at, effects[0]);
      assert effects[..n][1..] == effects[1..][..n - 1];
      assert effects[1..][n - 1] == effects[n];
      if first.Some? {
        EffectedLast(b, first.value, at, effects[1..]);
      }
    } else {
      assert effects[..n] == [] && effects[1..] == [];
    }
  }

  /** A batch is taken exactly when every effect of it is allowed, and then adds and leaves exactly what it says. */
  lemma {:induction false} BatchExactly(b: Pinned, s: State, at: Instant, effects: seq<Effect>)
    requires PinnedValid(b) && (forall i :: i in s.work ==> i < s.arrivals)
    ensures Effected(b, s, at, effects).Some? <==> Lawful(b, s, at, effects)
    ensures Effected(b, s, at, effects).Some? ==> Applied(b, s, at, effects, Effected(b, s, at, effects).value)
    decreases |effects|
  {
    if effects != [] {
      var n := |effects| - 1;
      BatchExactly(b, s, at, effects[..n]);
      EffectedLast(b, s, at, effects);
      LawfulLast(b, s, at, effects);
      if Effected(b, s, at, effects[..n]).Some? {
        var t := Effected(b, s, at, effects[..n]).value;
        LastAllowed(b, s, t, at, effects);
        if EffectOf(b, t, at, effects[n]).Some? {
          LastApplied(b, s, t, at, effects, EffectOf(b, t, at, effects[n]).value);
        }
      }
    }
  }

  lemma LawfulLast(b: Pinned, s: State, at: Instant, effects: seq<Effect>)
    requires effects != []
    ensures Lawful(b, s, at, effects) <==>
      Lawful(b, s, at, effects[..|effects| - 1]) && Allowed(b, s, at, effects, |effects| - 1)
  {
    var n := |effects| - 1;
    forall k | 0 <= k < n ensures Allowed(b, s, at, effects, k) <==> Allowed(b, s, at, effects[..n], k) {
      assert effects[..n][..k] == effects[..k];
    }
  }

  lemma LastAllowed(b: Pinned, s: State, t: State, at: Instant, effects: seq<Effect>)
    requires effects != [] && Sets(s, effects[..|effects| - 1], t)
    requires PinnedValid(b)
    ensures EffectOf(b, t, at, effects[|effects| - 1]).Some? <==> Allowed(b, s, at, effects, |effects| - 1)
  {
    var n := |effects| - 1;
    if effects[n].ScheduleTimer? {
      var key := effects[n].key;
      assert (exists due :: ScheduleTimer(key, due) in effects[..n]) <==>
        exists j, due :: 0 <= j < n && effects[j] == ScheduleTimer(key, due);
    }
  }

  lemma LastApplied(b: Pinned, s: State, t: State, at: Instant, effects: seq<Effect>, next: State)
    requires PinnedValid(b) && effects != [] && (forall i :: i in s.work ==> i < s.arrivals)
    requires Applied(b, s, at, effects[..|effects| - 1], t)
    requires EffectOf(b, t, at, effects[|effects| - 1]) == Some(next)
    ensures Applied(b, s, at, effects, next)
  {
    var last := effects[|effects| - 1];
    EffectSets(b, t, at, last, next);
    LastGains(b, s, t, at, Emits(effects[..|effects| - 1]), last, next);
    SetsLast(s, t, effects, next, last);
  }

  lemma EffectSets(b: Pinned, t: State, at: Instant, effect: Effect, next: State)
    requires PinnedValid(b) && EffectOf(b, t, at, effect) == Some(next)
    ensures next == t.(work := next.work, timers := next.timers, used := next.used, arrivals := next.arrivals)
    ensures SetsOne(t, effect, next)
  {
  }

  /** What one effect makes of the deadlines. */
  ghost predicate SetsOne(t: State, effect: Effect, next: State) {
    match effect
    case Emit(_, _, _) => next.timers == t.timers && next.used == t.used
    case ScheduleTimer(key, due) => next.timers == t.timers[key := due] && next.used == t.used + {key}
    case CancelTimer(key) => next.timers == t.timers - {key} && next.used == t.used
  }

  lemma LastGains(b: Pinned, s: State, t: State, at: Instant, emits: seq<Effect>, last: Effect, next: State)
    requires PinnedValid(b) && (forall i :: i in s.work ==> i < s.arrivals)
    requires Gains(b, s.work, s.arrivals, t.work, t.arrivals, emits, at) && EffectOf(b, t, at, last) == Some(next)
    ensures Gains(b, s.work, s.arrivals, next.work, next.arrivals, emits + (if last.Emit? then [last] else []), at)
  {
    if last.Emit? {
      EligibleExactly(b.partitions[last.recipient].timing, last.requested, at, last.lag,
        next.work[t.arrivals].eligible);
      GainsOne(b, s, t, next, emits, last, at);
    } else {
      assert emits + [] == emits && next.work == t.work && next.arrivals == t.arrivals;
    }
  }

  lemma GainsOne(b: Pinned, s: State, t: State, next: State, emits: seq<Effect>, last: Effect, at: Instant)
    requires Gains(b, s.work, s.arrivals, t.work, t.arrivals, emits, at)
    requires (forall i :: i in s.work ==> i < s.arrivals) && next.arrivals == t.arrivals + 1
    requires t.arrivals in next.work && next.work == t.work[t.arrivals := next.work[t.arrivals]]
    requires Carries(b, next.work[t.arrivals], last, at)
    ensures Gains(b, s.work, s.arrivals, next.work, next.arrivals, emits + [last], at)
  {
  }

  lemma SetsLast(s: State, t: State, effects: seq<Effect>, next: State, last: Effect)
    requires effects != [] && last == effects[|effects| - 1] && Sets(s, effects[..|effects| - 1], t)
    requires SetsOne(t, last, next)
    ensures Sets(s, effects, next)
  {
    var n := |effects| - 1;
    assert effects == effects[..n] + [last];
    assert forall key, due :: ScheduleTimer(key, due) in effects <==>
      ScheduleTimer(key, due) in effects[..n] || last == ScheduleTimer(key, due);
  }
}
