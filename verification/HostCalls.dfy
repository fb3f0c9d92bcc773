/** What a host may do at the points where the coordinator lets it in, and what each call changes. */
module HostCalls {
  import opened Ingress
  import opened Replay
  import opened RunState
  import opened Time

  datatype Move =
    | Admit(request: Request)
    | Submit(target: string, at: Instant, ingressAt: Option<nat>)
    | Cancel(target: string, granted: bool)
    | CloseWatermark(stream: string, ns: int)
    | AssertProgress(stream: string, progress: int)

  type Script = seq<seq<Move>>

  /** What the host does next, and what is left of its script. */
  method NextMoves(script: Script) returns (moves: seq<Move>, rest: Script)
    requires |script| != 0
    ensures moves == script[0] && rest == script[1..]
  {
    moves, rest := script[0], script[1..];
  }

  ghost predicate GrowsOnly(a: map<string, int>, c: map<string, int>) {
    a.Keys == c.Keys && forall x :: x in a ==> a[x] <= c[x]
  }

  /** What host moves may change while the coordinator is between steps. */
  ghost predicate HostOnly(a: State, c: State) {
    && c == a.(cut := c.cut, pending := c.pending, arrivals := c.arrivals, watermarks := c.watermarks,
               defaultWatermark := c.defaultWatermark, progress := c.progress)
    && c.cut.instant == a.cut.instant && a.cut.index <= c.cut.index && (c.cut.index == a.cut.index ==> c == a)
    && GrowsOnly(a.watermarks, c.watermarks) && KeepsPending(a, c)
    && a.arrivals <= c.arrivals && forall i :: i in c.pending ==> i in a.pending || a.arrivals <= i
  }

  /** Reservations stay. */
  ghost predicate KeepsPending(s: State, next: State) {
    forall i :: i in s.pending ==> i in next.pending && next.pending[i] == s.pending[i]
  }

  lemma HostOnlyTransitive(a: State, c: State, d: State)
    requires HostOnly(a, c) && HostOnly(c, d)
    ensures HostOnly(a, d)
  {
  }

  lemma SafeStays(b: Pinned, a: State, c: State, ns: int)
    requires WatermarksValid(b, a) && WatermarksValid(b, c)
    requires GrowsOnly(a.watermarks, c.watermarks)
    ensures Safe(b, a, ns) <= Safe(b, c, ns)
  {
    SafeGrows(b.dependencies, a.watermarks, c.watermarks, ns, ns);
  }

  /** The record a host call leaves, absent when it is refused or changes nothing. */
  function HostRecord(b: Pinned, s: State, move: Move): Option<Record>
    requires WatermarksValid(b, s)
  {
    match move
    case Admit(request) => if Reserved(b, s, request).Some? then Some(LiveIngress(request)) else None
    case Submit(target, at, ingressAt) =>
      if Submitted(b, s, target, at, ingressAt).Some? then Some(Submission(target, at, ingressAt)) else None
    case Cancel(target, granted) =>
      if CancelReserved(b, s, target, granted).Some? then Some(Cancellation(target, granted)) else None
    case CloseWatermark(stream, ns) =>
      if stream in s.watermarks && s.intents == map[] && ns >= s.watermarks[stream] && ns != s.watermarks[stream]
      then Some(Watermark(stream, ns)) else None
    case AssertProgress(stream, progress) =>
      if stream !in s.watermarks || s.intents != map[] then None
      else
        var ns := progress - b.lateness[stream];
        if ns < s.watermarks[stream] || (stream in s.progress && progress <= s.progress[stream]) then None
        else Some(SourceProgress(stream, progress, ns))
  }

  function HostNext(b: Pinned, s: State, move: Move): State
    requires WatermarksValid(b, s) && HostRecord(b, s, move).Some?
  {
    match HostRecord(b, s, move).value
    case LiveIngress(request) => Reserved(b, s, request).value
    case Submission(target, at, ingressAt) => Submitted(b, s, target, at, ingressAt).value
    case Cancellation(target, granted) => CancelReserved(b, s, target, granted).value
    case Watermark(stream, ns) => Closed(b, s, stream, ns)
    case SourceProgress(stream, progress, ns) => Progressed(b, s, stream, progress, ns)
  }

  /** The record that would tell of a host call: progress closes its stream up to the pinned lateness. */
  function RecordOf(b: Pinned, move: Move): Option<Record> {
    match move
    case Admit(request) => Some(LiveIngress(request))
    case Submit(target, at, ingressAt) => Some(Submission(target, at, ingressAt))
    case Cancel(target, granted) => Some(Cancellation(target, granted))
    case CloseWatermark(stream, ns) => Some(Watermark(stream, ns))
    case AssertProgress(stream, progress) =>
      if stream in b.lateness then Some(SourceProgress(stream, progress, progress - b.lateness[stream])) else None
  }

  /** A host call leaves a record exactly when the replayer's own guard accepts that record, and with the same
      state. */
  lemma HostReplays(b: Pinned, s: State, move: Move)
    requires PinnedValid(b) && StateValid(b, s) && !s.faulted
    ensures HostRecord(b, s, move).Some? <==>
      RecordOf(b, move).Some? && Replayed(b, s, RecordOf(b, move).value).Some?
    ensures HostRecord(b, s, move).Some? ==>
      && HostRecord(b, s, move) == RecordOf(b, move)
      && Replayed(b, s, HostRecord(b, s, move).value) == Some(HostNext(b, s, move))
  {
  }

  /** What one host call makes of a state: what its record makes of it, or nothing. */
  function HostStep(b: Pinned, s: State, move: Move): State
    requires WatermarksValid(b, s)
  {
    if HostRecord(b, s, move).Some? then HostNext(b, s, move) else s
  }

  lemma HostStepKeeps(b: Pinned, s: State, move: Move)
    requires PinnedValid(b) && StateValid(b, s) && !s.faulted
    ensures StateValid(b, HostStep(b, s, move)) && !HostStep(b, s, move).faulted
  {
    HostReplays(b, s, move);
    if HostRecord(b, s, move).Some? {
      ReplayedKeeps(b, s, HostRecord(b, s, move).value);
      NextUnfaulted(b, s, move);
    }
  }

  lemma NextUnfaulted(b: Pinned, s: State, move: Move)
    requires WatermarksValid(b, s) && !s.faulted && HostRecord(b, s, move).Some?
    ensures !HostNext(b, s, move).faulted
  {
    match HostRecord(b, s, move).value
    case LiveIngress(request) => assert HostNext(b, s, move) == Reserved(b, s, request).value;
    case Submission(target, at, ingressAt) =>
      assert HostNext(b, s, move) == Submitted(b, s, target, at, ingressAt).value;
    case Cancellation(target, granted) => assert HostNext(b, s, move) == CancelReserved(b, s, target, granted).value;
    case Watermark(stream, ns) => assert HostNext(b, s, move) == Closed(b, s, stream, ns);
    case SourceProgress(stream, progress, ns) => assert HostNext(b, s, move) == Progressed(b, s, stream, progress, ns);
  }

  /** Host calls in order. */
  ghost function AfterMoves(b: Pinned, s: State, moves: seq<Move>): (r: State)
    requires PinnedValid(b) && StateValid(b, s) && !s.faulted
    ensures StateValid(b, r) && !r.faulted
  {
    if moves == [] then s
    else
      var before := AfterMoves(b, s, moves[..|moves| - 1]);
      HostStepKeeps(b, before, moves[|moves| - 1]);
      HostStep(b, before, moves[|moves| - 1])
  }

  lemma AfterOneMore(b: Pinned, s: State, moves: seq<Move>, i: nat)
    requires PinnedValid(b) && StateValid(b, s) && !s.faulted && i < |moves|
    ensures AfterMoves(b, s, moves[..i + 1]) == HostStep(b, AfterMoves(b, s, moves[..i]), moves[i])
  {
    assert moves[..i + 1][..i] == moves[..i];
  }

  /** A cancellation that reserves something. */
  predicate Disturbs(record: Record) {
    record.Cancellation? && record.granted
  }

  /** What one host call changes: host matters only; with nothing late pending, it leaves something at or before the
      cut behind exactly when it is a granted cancellation and the cut stands beyond the seal. */
  ghost predicate HostEffect(s: State, record: Record, next: State) {
    && HostOnly(s, next)
    && (NoLate(s, s.cut.instant.ns) ==>
          (!NoLate(next, s.cut.instant.ns) <==>
           Disturbs(record) && s.sealed.Some? && s.sealed.value < s.cut.instant.ns))
  }

  /** With no limit open, a run stands at its seal. */
  ghost predicate AtRest(s: State) {
    s.sealed.Some? && s.runTarget.None? ==> s.cut.instant.ns == s.sealed.value
  }

  lemma HostKeeps(b: Pinned, s: State, move: Move)
    requires PinnedValid(b) && StateValid(b, s) && AtRest(s) && HostRecord(b, s, move).Some?
    ensures HostEffect(s, HostRecord(b, s, move).value, HostNext(b, s, move))
  {
    if move.Admit? || move.Submit? || move.Cancel? {
      ReservingKeeps(b, s, move);
    } else {
      ClosingKeeps(b, s, move);
    }
  }

  lemma ReservingKeeps(b: Pinned, s: State, move: Move)
    requires StateValid(b, s) && AtRest(s) && HostRecord(b, s, move).Some?
    requires move.Admit? || move.Submit? || move.Cancel?
    ensures HostEffect(s, HostRecord(b, s, move).value, HostNext(b, s, move))
  {
    if move.Admit? {
      AdmitKeeps(b, s, move.request);
    } else if move.Submit? {
      SubmitKeeps(b, s, move.target, move.at, move.ingressAt);
    } else {
      CancelKeepsHost(b, s, move.target, move.granted);
    }
  }

  lemma ClosingKeeps(b: Pinned, s: State, move: Move)
    requires StateValid(b, s) && HostRecord(b, s, move).Some? && (move.CloseWatermark? || move.AssertProgress?)
    ensures HostEffect(s, HostRecord(b, s, move).value, HostNext(b, s, move))
  {
    if move.CloseWatermark? {
      CloseKeeps(b, s, move.stream, move.ns);
    } else {
      ProgressKeeps(b, s, move.stream, move.progress, move.progress - b.lateness[move.stream]);
    }
  }

  lemma AdmitKeeps(b: Pinned, s: State, request: Request)
    requires StateValid(b, s) && Reserved(b, s, request).Some?
    ensures HostEffect(s, LiveIngress(request), Reserved(b, s, request).value)
  {
    ReservedKeeps(b, s, request);
    assert Reserved(b, s, request).value.watermarks == s.watermarks;
    assert KeepsPending(s, Reserved(b, s, request).value);
  }

  /** A submission is refused while a limit is open, so it is reserved beyond the cut. */
  lemma SubmitKeeps(b: Pinned, s: State, target: string, at: Instant, ingressAt: Option<nat>)
    requires StateValid(b, s) && AtRest(s) && Submitted(b, s, target, at, ingressAt).Some?
    ensures HostEffect(s, Submission(target, at, ingressAt), Submitted(b, s, target, at, ingressAt).value)
  {
    assert Submitted(b, s, target, at, ingressAt).value.watermarks == s.watermarks;
  }

  lemma CancelKeepsHost(b: Pinned, s: State, target: string, granted: bool)
    requires StateValid(b, s) && CancelReserved(b, s, target, granted).Some?
    ensures HostEffect(s, Cancellation(target, granted), CancelReserved(b, s, target, granted).value)
  {
    assert CancelReserved(b, s, target, granted).value.watermarks == s.watermarks;
    if NoLate(s, s.cut.instant.ns) {
      LateCancel(b, s, target, granted);
    }
  }

  lemma CloseKeeps(b: Pinned, s: State, stream: string, ns: int)
    requires stream in s.watermarks && ns >= s.watermarks[stream]
    ensures HostEffect(s, Watermark(stream, ns), Closed(b, s, stream, ns))
  {
    assert Closed(b, s, stream, ns).pending == s.pending;
  }

  lemma ProgressKeeps(b: Pinned, s: State, stream: string, progress: int, ns: int)
    requires stream in s.watermarks && ns >= s.watermarks[stream]
    ensures HostEffect(s, SourceProgress(stream, progress, ns), Progressed(b, s, stream, progress, ns))
  {
    assert Progressed(b, s, stream, progress, ns).pending == s.pending;
  }
}
