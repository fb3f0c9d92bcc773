/** The run read back from its journal: what the last record that speaks of a thing says is what the state holds. */
module Readback {
  import opened Batches
  import opened Fates
  import opened NativeGrid
  import opened Replay
  import opened RunState
  import opened Time

  // ---- the journal's word ----

  /** The time sealed last. */
  function LastSeal(start: Option<nat>, journal: seq<Record>): Option<nat> {
    if journal == [] then start
    else if journal[|journal| - 1].Seal? then Some(journal[|journal| - 1].physicalNs)
    else LastSeal(start, journal[..|journal| - 1])
  }

  /** The limit given last, unless it was sealed since. */
  function OpenLimit(start: Option<nat>, journal: seq<Record>): Option<nat> {
    if journal == [] then start
    else
      var last, open := journal[|journal| - 1], OpenLimit(start, journal[..|journal| - 1]);
      if last.RunLimit? then Some(last.limit)
      else if last.Seal? && open == Some(last.physicalNs) then None
      else open
  }

  predicate Closes(record: Record, stream: string) {
    (record.Watermark? || record.SourceProgress?) && record.stream == stream
  }

  /** The time a stream was closed to last. */
  function LastClosed(start: int, journal: seq<Record>, stream: string): int {
    if journal == [] then start
    else if Closes(journal[|journal| - 1], stream) then journal[|journal| - 1].ns
    else LastClosed(start, journal[..|journal| - 1], stream)
  }

  /** The calls not yet resolved. */
  function Unresolved(start: set<string>, journal: seq<Record>): set<string> {
    if journal == [] then start
    else
      match journal[|journal| - 1]
      case Invocations(_, _, selected) => selected
      case Transaction(_, _) => {}
      case FaultRecord(_, _) => {}
      case _ => Unresolved(start, journal[..|journal| - 1])
  }

  /** The instant of the last merged wave that called a partition. */
  function LastCalled(start: Instant, calls: set<string>, journal: seq<Record>, p: string): Instant {
    if journal == [] then start
    else
      var last, shorter := journal[|journal| - 1], journal[..|journal| - 1];
      if last.Transaction? && p in Unresolved(calls, shorter) then last.at else LastCalled(start, calls, shorter, p)
  }

  // ---- one record ----

  /** What one record changes of it. */
  ghost predicate Reads(s: State, record: Record, next: State) {
    && next.sealed == (if record.Seal? then Some(record.physicalNs) else s.sealed)
    && next.runTarget == (if record.RunLimit? then Some(record.limit)
                          else if record.Seal? && s.runTarget == Some(record.physicalNs) then None else s.runTarget)
    && next.watermarks.Keys == s.watermarks.Keys
    && (forall x :: x in s.watermarks ==>
          next.watermarks[x] == if Closes(record, x) then record.ns else s.watermarks[x])
    && next.intents.Keys == (if record.Invocations? then record.selected
                             else if record.Transaction? || record.FaultRecord? then {} else s.intents.Keys)
    && next.frontiers.Keys == s.frontiers.Keys
    && (forall p :: p in s.frontiers ==>
          next.frontiers[p].logical == if record.Transaction? && p in s.intents then record.at
                                       else s.frontiers[p].logical)
    && next.faulted == record.FaultRecord?
  }

  /** What else one record changes: the progress a source asserted last, and which partitions a seal found at their
      native time. */
  ghost predicate Marks(s: State, record: Record, next: State) {
    && (forall x :: x in next.progress <==> x in s.progress || (record.SourceProgress? && record.stream == x))
    && (forall x :: x in next.progress ==>
          next.progress[x] == if record.SourceProgress? && record.stream == x then record.progress else s.progress[x])
    && (!record.Seal? ==> next.nativeSeals == s.nativeSeals)
    && (record.Seal? ==>
          && |next.nativeSeals| == |s.nativeSeals| + 1 && s.nativeSeals <= next.nativeSeals
          && next.nativeSeals[|s.nativeSeals|].cut == next.cut
          && forall p :: p in next.nativeSeals[|s.nativeSeals|].partitions <==>
               p in s.frontiers && s.frontiers[p].native == record.physicalNs)
  }

  lemma RecordMarks(b: Pinned, s: State, record: Record, next: State)
    requires PinnedValid(b) && StateValid(b, s) && Replayed(b, s, record) == Some(next)
    ensures Marks(s, record, next)
  {
    if record.Transaction? {
      ReturnedKeeps(b, s, record.at, record.effects);
    } else if record.BoundaryRecord? {
      BoundaryExactly(b, s, record.at, record.notices, next);
    } else if Requests(record) {
      RequestOnly(b, s, record, next);
    }
  }

  lemma WaveReads(b: Pinned, s: State, record: Record, next: State)
    requires PinnedValid(b) && StateValid(b, s) && Replayed(b, s, record) == Some(next)
    requires record.Invocations? || record.Transaction? || record.BoundaryRecord?
    ensures Reads(s, record, next)
  {
    if record.Transaction? {
      TransactionExactly(b, s, record.at, record.effects, next);
      ReturnedKeeps(b, s, record.at, record.effects);
    } else if record.BoundaryRecord? {
      BoundaryExactly(b, s, record.at, record.notices, next);
    } else {
      assert next == Calling(b, s, record.selected, record.at, record.phase);
    }
  }

  lemma RequestOnly(b: Pinned, s: State, record: Record, next: State)
    requires PinnedValid(b) && StateValid(b, s) && Replayed(b, s, record) == Some(next) && Requests(record)
    ensures Adds(s, next)
  {
    if record.LiveIngress? {
      AdmitFate(b, s, record.request, next);
    } else if record.Submission? {
      SubmitFate(b, s, record.target, record.at, record.ingressAt, next);
    } else {
      CancelFate(b, s, record.target, record.granted, next);
    }
  }

  lemma AddsReads(s: State, record: Record, next: State)
    requires Requests(record) && Adds(s, next) && !s.faulted
    ensures Reads(s, record, next)
  {
  }

  lemma ControlReads(b: Pinned, s: State, record: Record, next: State)
    requires PinnedValid(b) && StateValid(b, s) && Replayed(b, s, record) == Some(next)
    requires record.Watermark? || record.SourceProgress? || record.RunLimit? || record.Seal? || record.FaultRecord?
    ensures Reads(s, record, next)
  {
  }

  lemma RecordReads(b: Pinned, s: State, record: Record, next: State)
    requires PinnedValid(b) && StateValid(b, s) && Replayed(b, s, record) == Some(next)
    ensures Reads(s, record, next)
  {
    if record.Invocations? || record.Transaction? || record.BoundaryRecord? {
      WaveReads(b, s, record, next);
    } else if Requests(record) {
      RequestOnly(b, s, record, next);
      AddsReads(s, record, next);
    } else {
      ControlReads(b, s, record, next);
    }
  }

  // ---- the whole journal ----

  /** A state is what a journal says of it. */
  ghost predicate AsJournaled(s: State, journal: seq<Record>, t: State) {
    && t.sealed == LastSeal(s.sealed, journal) && t.runTarget == OpenLimit(s.runTarget, journal)
    && t.watermarks.Keys == s.watermarks.Keys
    && (forall x :: x in s.watermarks ==> t.watermarks[x] == LastClosed(s.watermarks[x], journal, x))
    && t.intents.Keys == Unresolved(s.intents.Keys, journal) && t.frontiers.Keys == s.frontiers.Keys
    && (forall p :: p in s.frontiers ==>
          t.frontiers[p].logical == LastCalled(s.frontiers[p].logical, s.intents.Keys, journal, p))
    && (journal != [] ==> t.faulted == journal[|journal| - 1].FaultRecord?)
  }

  /** After any accepted journal, the seal, the open limit, what every stream is closed to, the unresolved calls and
      where every partition stands are what its last records on them say. */
  lemma {:induction false} JournalReads(b: Pinned, s: State, journal: seq<Record>)
    requires PinnedValid(b) && StateValid(b, s) && ReplayAll(b, s, journal).Some?
    ensures AsJournaled(s, journal, ReplayAll(b, s, journal).value)
    decreases |journal|
  {
    if journal != [] {
      var n := |journal| - 1;
      LastRecord(b, s, journal);
      JournalReads(b, s, journal[..n]);
      RecordReads(b, ReplayAll(b, s, journal[..n]).value, journal[n], ReplayAll(b, s, journal).value);
      ReadsOn(s, journal, ReplayAll(b, s, journal[..n]).value, ReplayAll(b, s, journal).value);
    }
  }

  lemma ReadsOn(s: State, journal: seq<Record>, t: State, next: State)
    requires journal != [] && AsJournaled(s, journal[..|journal| - 1], t) && Reads(t, journal[|journal| - 1], next)
    ensures AsJournaled(s, journal, next)
  {
  }
}
