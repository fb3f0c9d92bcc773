/** When what a host asks for takes effect: the boundary at which a request is published, and the instant it is for. */
module Admission {
  import opened NativeGrid
  import opened Replay
  import opened RunState
  import opened Time

  /** A live request is late when its stream, or the run, is closed to its time already. */
  predicate Late(s: State, r: Request)
    requires r.stream in s.watermarks
  {
    r.mapped <= s.watermarks[r.stream] || (s.sealed.Some? && r.mapped <= s.sealed.value)
  }

  /** A time at which a live request may be published: no earlier than the time it is mapped to and the time it asks
      for, after the cut, and when late beyond what its stream is closed to. */
  predicate Publishable(s: State, r: Request, ns: nat)
    requires r.stream in s.watermarks
  {
    && r.mapped <= ns && s.cut.instant.ns < ns && (r.ingressAt.Some? ==> r.ingressAt.value <= ns)
    && (Late(s, r) ==> s.watermarks[r.stream] < ns)
  }

  /** A live request is taken by a sealed run between its waves, for a known stream and target. A late one whose stream
      rejects lateness reserves nothing; every other is published at the earliest time it may be, for its own instant
      or, when that is earlier, the start of that time. */
  lemma AdmittedExactly(b: Pinned, s: State, r: Request)
    requires PinnedValid(b) && StateValid(b, s) && !s.faulted
    ensures Replayed(b, s, LiveIngress(r)).Some? <==>
      s.sealed.Some? && s.intents == map[] && r.stream in s.watermarks && r.target in b.partitions
    ensures Replayed(b, s, LiveIngress(r)).Some? ==>
      var next := Replayed(b, s, LiveIngress(r)).value;
      if Late(s, r) && r.reject then next == s.(cut := Cut(s.cut.index + 1, s.cut.instant))
      else AdmittedAs(s, r, next)
  {
    if s.sealed.Some? && s.intents == map[] && r.stream in s.watermarks && r.target in b.partitions {
      if !(Late(s, r) && r.reject) {
        AdmittedEarliest(b, s, r);
      }
    }
  }

  /** One command is reserved, at the earliest time it may be published. */
  ghost predicate AdmittedAs(s: State, r: Request, next: State)
    requires r.stream in s.watermarks
  {
    && s.arrivals in next.pending && next.pending[s.arrivals].CommandAt?
    && ReservedAs(s, next.pending[s.arrivals], next)
    && var command := next.pending[s.arrivals];
    && command.target == r.target && command.at == Later(r.at, Instant(command.boundary, 0))
    && Publishable(s, r, command.boundary) && forall ns: nat :: Publishable(s, r, ns) ==> command.boundary <= ns
  }

  lemma AdmittedEarliest(b: Pinned, s: State, r: Request)
    requires StateValid(b, s) && s.sealed.Some? && s.intents == map[] && r.stream in s.watermarks
    requires r.target in b.partitions && !(Late(s, r) && r.reject)
    ensures Reserved(b, s, r).Some? && AdmittedAs(s, r, Reserved(b, s, r).value)
  {
    var next := Reserved(b, s, r).value;
    assert next.pending[s.arrivals].at == Later(r.at, Instant(next.pending[s.arrivals].boundary, 0));
  }

  /** A plain submission is taken by a settled run with no limit open, for a known target and a publication beyond the
      seal and no later than its own instant: the one it asks for, or else the first beyond the seal. */
  lemma SubmittedExactly(b: Pinned, s: State, target: string, at: Instant, ingressAt: Option<nat>)
    requires PinnedValid(b) && StateValid(b, s) && !s.faulted
    ensures var next := Replayed(b, s, Submission(target, at, ingressAt));
      && (next.Some? <==>
            && s.sealed.Some? && s.runTarget.None? && target in b.partitions
            && exists ns: nat :: SubmittedFor(s.sealed.value, at, ingressAt, ns))
      && (next.Some? ==> exists ns: nat ::
            SubmittedFor(s.sealed.value, at, ingressAt, ns) && ReservedAs(s, CommandAt(ns, target, at), next.value))
  {
    if s.sealed.Some? && s.runTarget.None? && target in b.partitions {
      var boundary := if ingressAt.Some? then ingressAt.value else s.sealed.value + 1;
      if Replayed(b, s, Submission(target, at, ingressAt)).Some? {
        assert SubmittedFor(s.sealed.value, at, ingressAt, boundary);
        assert ReservedAs(s, CommandAt(boundary, target, at), Replayed(b, s, Submission(target, at, ingressAt)).value);
      }
    }
  }

  predicate SubmittedFor(sealed: nat, at: Instant, ingressAt: Option<nat>, ns: nat) {
    sealed < ns <= at.ns && ns == if ingressAt.Some? then ingressAt.value else sealed + 1
  }

  /** A reservation is filed under the next number, and nothing else changes but the cut. */
  ghost predicate ReservedAs(s: State, r: Reservation, next: State) {
    next == s.(cut := Cut(s.cut.index + 1, s.cut.instant), arrivals := s.arrivals + 1,
               pending := s.pending[s.arrivals := r])
  }

  /** A cancellation of a known target's command is taken by a sealed run; granted, it is published at the first time
      beyond the seal, and otherwise changes nothing. */
  lemma CanceledExactly(b: Pinned, s: State, target: string, granted: bool)
    requires PinnedValid(b) && StateValid(b, s) && !s.faulted
    ensures var next := Replayed(b, s, Cancellation(target, granted));
      && (next.Some? <==> s.sealed.Some? && target in b.partitions)
      && (next.Some? && !granted ==> next.value == s.(cut := Cut(s.cut.index + 1, s.cut.instant)))
      && (next.Some? && granted ==> ReservedAs(s, CancelAt(s.sealed.value + 1, target), next.value))
  {
  }

  /** A run limit is taken by a sealed run exactly when it lies beyond the seal; a fault exactly when it resolves the
      calls that are unresolved; and after a fault nothing is. */
  lemma ControlsExactly(b: Pinned, s: State, limit: nat, cause: Cause, resolved: set<string>, record: Record)
    requires PinnedValid(b) && StateValid(b, s)
    ensures Replayed(b, s, RunLimit(limit)).Some? <==> !s.faulted && s.sealed.Some? && s.sealed.value < limit
    ensures Replayed(b, s, FaultRecord(cause, resolved)).Some? <==> !s.faulted && resolved == s.intents.Keys
    ensures s.faulted ==> Replayed(b, s, record).None?
  {
  }

  /** A stream's watermark is taken between waves exactly when it closes the stream further; a source's progress when
      it goes on, and closes the stream, less its lateness, no less than it is. */
  lemma ClosuresExactly(b: Pinned, s: State, stream: string, ns: int, progress: int)
    requires PinnedValid(b) && StateValid(b, s) && !s.faulted
    ensures Replayed(b, s, Watermark(stream, ns)).Some? <==>
      stream in s.watermarks && s.intents == map[] && s.watermarks[stream] < ns
    ensures Replayed(b, s, SourceProgress(stream, progress, ns)).Some? <==>
      && stream in s.watermarks && s.intents == map[] && stream in b.lateness && ns == progress - b.lateness[stream]
      && s.watermarks[stream] <= ns && (stream in s.progress ==> s.progress[stream] < progress)
  {
  }

  /** Binding leaves everyone at time zero, nothing queued, nothing sealed, and every stream closed as configured: a
      state to start from exactly when the watermarks close what they must. */
  lemma BoundExactly(b: Pinned, watermarks: map<string, int>)
    requires PinnedValid(b)
    ensures StateValid(b, Bound(b, watermarks)) <==> Opening(b, watermarks)
    ensures var s := Bound(b, watermarks);
      && s.cut == Cut(0, Instant(0, 0)) && s.sealed.None? && s.runTarget.None? && !s.faulted
      && s.intents == map[] && s.work == map[] && s.timers == map[] && s.used == {} && s.pending == map[]
      && s.frontiers.Keys == b.partitions.Keys && s.watermarks == watermarks && s.progress == map[]
      && forall p :: p in s.frontiers ==> s.frontiers[p] == Frontier(Instant(0, 0), 0)
  {
  }
}
