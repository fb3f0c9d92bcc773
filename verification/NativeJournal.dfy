/** Native time along whole journals: a latched partition is granted grid point after grid point. */
module NativeJournal {
  import opened NativeGrid
  import opened Replay
  import opened RunState
  import opened Time

  /** Unresolved calls were granted from the frontiers that still stand. */
  ghost predicate CallsFromHere(b: Pinned, s: State) {
    forall p :: p in s.intents && p in s.frontiers && p in b.partitions && Latched(b.partitions[p].timing) ==>
      OneGridPoint(b.partitions[p].timing, s.frontiers[p].native, s.intents[p].native)
  }

  /** Native time stays, or moves to the very next grid point. */
  predicate OneGridPoint(t: Timing, before: nat, after: nat) {
    after == before || Boundary(t, before + 1) == Some(after)
  }

  lemma InvokedFromHere(b: Pinned, s: State, selected: set<string>, at: Instant, phase: Phase)
    requires PinnedValid(b) && StateValid(b, s) && InTime(b, s, at) && Invoked(b, s, selected, at, phase).Some?
    ensures CallsFromHere(b, Invoked(b, s, selected, at, phase).value)
  {
    forall p | p in selected && Latched(b.partitions[p].timing)
      ensures OneGridPoint(b.partitions[p].timing, s.frontiers[p].native,
        Grant(b.partitions[p].timing, s.frontiers[p], CallOf(phase, at)).value.native)
    {
      assert AtMost(s.frontiers[p].logical, s.cut.instant);
      GrantStep(b.partitions[p].timing, s.frontiers[p], CallOf(phase, at));
    }
  }

  ghost predicate MovesOneGridPoint(b: Pinned, s: State, next: State) {
    forall p :: p in s.frontiers && p in b.partitions && Latched(b.partitions[p].timing) ==>
      p in next.frontiers && OneGridPoint(b.partitions[p].timing, s.frontiers[p].native, next.frontiers[p].native)
  }

  lemma StandingStill(b: Pinned, s: State, next: State)
    requires CallsFromHere(b, s) && next.frontiers == s.frontiers
      && (next.intents == s.intents || next.intents == map[])
    ensures CallsFromHere(b, next) && MovesOneGridPoint(b, s, next)
  {
  }

  lemma Returning(b: Pinned, s: State, next: State)
    requires CallsFromHere(b, s) && next.frontiers == s.frontiers + s.intents && next.intents == map[]
    ensures CallsFromHere(b, next) && MovesOneGridPoint(b, s, next)
  {
  }

  /** Only invocations set calls, and only transactions move frontiers, to where the calls were granted. */
  ghost predicate FrontiersFollow(s: State, record: Record, next: State) {
    if record.Transaction? then next.frontiers == s.frontiers + s.intents && next.intents == map[]
    else next.frontiers == s.frontiers && (!record.Invocations? ==> next.intents == s.intents || next.intents == map[])
  }

  lemma ReservationsFollow(b: Pinned, s: State, record: Record)
    requires PinnedValid(b) && StateValid(b, s) && Replayed(b, s, record).Some?
    requires record.LiveIngress? || record.Submission? || record.Cancellation?
    ensures FrontiersFollow(s, record, Replayed(b, s, record).value)
  {
    if record.LiveIngress? {
      ReservedFollows(b, s, record.request);
    } else if record.Submission? {
      SubmittedFollows(b, s, record.target, record.at, record.ingressAt);
    } else {
      CancelFollows(b, s, record.target, record.granted);
    }
  }

  lemma ReservedFollows(b: Pinned, s: State, r: Request)
    requires Reserved(b, s, r).Some?
    ensures Reserved(b, s, r).value.frontiers == s.frontiers && Reserved(b, s, r).value.intents == s.intents
  {
  }

  lemma SubmittedFollows(b: Pinned, s: State, target: string, at: Instant, ingressAt: Option<nat>)
    requires Submitted(b, s, target, at, ingressAt).Some?
    ensures Submitted(b, s, target, at, ingressAt).value.frontiers == s.frontiers
    ensures Submitted(b, s, target, at, ingressAt).value.intents == s.intents
  {
  }

  lemma CancelFollows(b: Pinned, s: State, target: string, granted: bool)
    requires CancelReserved(b, s, target, granted).Some?
    ensures CancelReserved(b, s, target, granted).value.frontiers == s.frontiers
    ensures CancelReserved(b, s, target, granted).value.intents == s.intents
  {
  }

  lemma ControlsFollow(b: Pinned, s: State, record: Record)
    requires PinnedValid(b) && StateValid(b, s) && Replayed(b, s, record).Some?
    requires record.Watermark? || record.SourceProgress? || record.RunLimit? || record.Seal? || record.FaultRecord?
    ensures FrontiersFollow(s, record, Replayed(b, s, record).value)
  {
  }

  lemma WavesFollow(b: Pinned, s: State, record: Record)
    requires PinnedValid(b) && StateValid(b, s) && Replayed(b, s, record).Some?
    requires record.Invocations? || record.Transaction? || record.BoundaryRecord?
    ensures FrontiersFollow(s, record, Replayed(b, s, record).value)
  {
    if record.Transaction? {
      ReturnedKeeps(b, s, record.at, record.effects);
    } else if record.BoundaryRecord? {
      BoundedKeeps(b, s, record.at, record.notices);
    }
  }

  lemma OthersFollow(b: Pinned, s: State, record: Record)
    requires PinnedValid(b) && StateValid(b, s) && Replayed(b, s, record).Some? && !record.Invocations?
      && !record.Transaction?
    ensures FrontiersFollow(s, record, Replayed(b, s, record).value)
  {
    match record
    case BoundaryRecord(_, _) => WavesFollow(b, s, record);
    case LiveIngress(_) => ReservationsFollow(b, s, record);
    case Submission(_, _, _) => ReservationsFollow(b, s, record);
    case Cancellation(_, _) => ReservationsFollow(b, s, record);
    case _ => ControlsFollow(b, s, record);
  }

  /** Any record leaves a latched partition's native frontier alone or moves it to the next grid point. */
  lemma RecordOneGridPoint(b: Pinned, s: State, record: Record, next: State)
    requires PinnedValid(b) && StateValid(b, s) && CallsFromHere(b, s) && Replayed(b, s, record) == Some(next)
    ensures CallsFromHere(b, next) && MovesOneGridPoint(b, s, next)
  {
    if record.Transaction? {
      WavesFollow(b, s, record);
      Returning(b, s, next);
    } else if record.Invocations? {
      WavesFollow(b, s, record);
      InvokedFromHere(b, s, record.selected, record.at, record.phase);
      StandingStill(b, s, s.(frontiers := next.frontiers));
    } else {
      OthersFollow(b, s, record);
      StandingStill(b, s, next);
    }
  }

  /** Between two native frontiers one grid point apart lies no other. */
  lemma NoneBetween(t: Timing, before: nat, after: nat, point: int)
    requires Latched(t) && OneGridPoint(t, before, after) && OnGrid(t, point)
    ensures before <= after && (before < point <= after ==> point == after)
  {
    BoundaryIsLeast(t, before + 1, point);
  }

  /** A latched partition's native frontier after a journal. */
  ghost function NativeAfter(b: Pinned, s: State, journal: seq<Record>, p: string): nat
    requires PinnedValid(b) && StateValid(b, s) && p in b.partitions && ReplayAll(b, s, journal).Some?
  {
    ReplayAll(b, s, journal).value.frontiers[p].native
  }

  /** No native grid point is skipped: along any accepted journal, every grid point between a latched partition's
      first and last native frontier is its frontier after some prefix. */
  lemma {:induction false} JournalSkipsNoGridPoint(b: Pinned, s: State, journal: seq<Record>, p: string, point: int)
    requires PinnedValid(b) && StateValid(b, s) && s.intents == map[] && ReplayAll(b, s, journal).Some?
    requires p in b.partitions && Latched(b.partitions[p].timing) && OnGrid(b.partitions[p].timing, point)
    ensures CallsFromHere(b, ReplayAll(b, s, journal).value)
    ensures s.frontiers[p].native <= NativeAfter(b, s, journal, p)
    ensures s.frontiers[p].native < point <= NativeAfter(b, s, journal, p) ==> Visited(b, s, journal, p, point)
    decreases |journal|
  {
    if journal != [] {
      var shorter, last := journal[..|journal| - 1], journal[|journal| - 1];
      LastRecord(b, s, journal);
      JournalSkipsNoGridPoint(b, s, shorter, p, point);
      RecordOneGridPoint(b, ReplayAll(b, s, shorter).value, last, ReplayAll(b, s, journal).value);
      VisitedNext(b, s, shorter, last, journal, p, point, s.frontiers[p].native);
    }
  }

  /** One more record, at most one more grid point. */
  lemma VisitedNext(b: Pinned, s: State, shorter: seq<Record>, last: Record, journal: seq<Record>, p: string,
                    point: int, first: nat)
    requires PinnedValid(b) && StateValid(b, s) && p in b.partitions && journal == shorter + [last]
    requires ReplayAll(b, s, shorter).Some? && ReplayAll(b, s, journal).Some?
    requires Latched(b.partitions[p].timing) && OnGrid(b.partitions[p].timing, point)
    requires OneGridPoint(b.partitions[p].timing, NativeAfter(b, s, shorter, p), NativeAfter(b, s, journal, p))
    requires first < point <= NativeAfter(b, s, shorter, p) ==> Visited(b, s, shorter, p, point)
    ensures NativeAfter(b, s, shorter, p) <= NativeAfter(b, s, journal, p)
    ensures first < point <= NativeAfter(b, s, journal, p) ==> Visited(b, s, journal, p, point)
  {
    var before, after := NativeAfter(b, s, shorter, p), NativeAfter(b, s, journal, p);
    NoneBetween(b.partitions[p].timing, before, after, point);
    if first < point <= before {
      VisitedEarlier(b, s, shorter, last, p, point);
    } else if first < point <= after {
      VisitedLast(b, s, journal, p, point);
    }
  }

  lemma VisitedLast(b: Pinned, s: State, journal: seq<Record>, p: string, point: int)
    requires PinnedValid(b) && StateValid(b, s) && p in b.partitions
    requires ReplayAll(b, s, journal).Some? && NativeAfter(b, s, journal, p) == point
    ensures Visited(b, s, journal, p, point)
  {
    assert journal[..|journal|] == journal;
    assert Visits(b, s, journal, p, point, |journal|);
  }

  ghost predicate Visits(b: Pinned, s: State, journal: seq<Record>, p: string, point: int, i: nat)
    requires PinnedValid(b) && StateValid(b, s) && p in b.partitions
  {
    i <= |journal| && ReplayAll(b, s, journal[..i]).Some? && NativeAfter(b, s, journal[..i], p) == point
  }

  ghost predicate Visited(b: Pinned, s: State, journal: seq<Record>, p: string, point: int)
    requires PinnedValid(b) && StateValid(b, s) && p in b.partitions
  {
    exists i: nat :: Visits(b, s, journal, p, point, i)
  }

  lemma VisitedEarlier(b: Pinned, s: State, journal: seq<Record>, record: Record, p: string, point: int)
    requires PinnedValid(b) && StateValid(b, s) && p in b.partitions && Visited(b, s, journal, p, point)
    ensures Visited(b, s, journal + [record], p, point)
  {
    var i: nat :| Visits(b, s, journal, p, point, i);
    assert (journal + [record])[..i] == journal[..i];
    assert Visits(b, s, journal + [record], p, point, i);
  }
}
