/** What the live loop may write, seals on its own authority included, and exactly when the offline replayer
    reproduces it. */
module LiveJournal {
  import opened Grants
  import opened HostCalls
  import opened Planning
  import opened Replay
  import opened RunState
  import opened Settlement
  import opened Time

  /** The live loop's own rule for a record: it seals whatever it has settled beyond its seal; everything else it
      reproduces as the replayer does. */
  ghost function LiveNext(b: Pinned, s: State, record: Record): (r: Option<State>)
    requires PinnedValid(b) && StateValid(b, s)
    ensures r.Some? ==> StateValid(b, r.value)
  {
    if s.faulted then None
    else if record.Seal? then
      if SealedFrom(b, s, record.physicalNs) && record.at == s.cut.instant then
        SealedKeeps(b, s, record.physicalNs);
        Some(Sealed(s, record.physicalNs))
      else None
    else if Replayed(b, s, record).None? then None
    else
      ReplayedKeeps(b, s, record);
      Replayed(b, s, record)
  }

  ghost predicate SealedFrom(b: Pinned, s: State, ns: nat)
    requires WatermarksValid(b, s)
  {
    Settled(b, s, ns) && (s.sealed.Some? ==> s.sealed.value < ns)
  }

  /** The live store after a journal. */
  ghost function LiveAll(b: Pinned, s: State, journal: seq<Record>): (r: Option<State>)
    requires PinnedValid(b) && StateValid(b, s)
    ensures r.Some? ==> StateValid(b, r.value)
  {
    if journal == [] then Some(s)
    else
      match LiveAll(b, s, journal[..|journal| - 1])
      case None => None
      case Some(t) => LiveNext(b, t, journal[|journal| - 1])
  }

  /** No granted cancellation since the last boundary control or seal. */
  ghost predicate Calm(journal: seq<Record>) {
    journal == [] ||
    var last := journal[|journal| - 1];
    last.BoundaryRecord? || last.Seal? || (!Disturbs(last) && Calm(journal[..|journal| - 1]))
  }

  /** Every seal was written in calm. */
  ghost predicate Undisturbed(journal: seq<Record>) {
    journal == [] ||
    var shorter := journal[..|journal| - 1];
    Undisturbed(shorter) && (journal[|journal| - 1].Seal? ==> Calm(shorter))
  }

  /** Records of the run itself, rather than of its host. */
  predicate Works(record: Record) {
    record.Invocations? || record.Transaction? || record.BoundaryRecord? || record.Seal?
  }

  /** A record of the loop's own making: its calls are its own selections, a transaction is what the engines return
      to them, a boundary stands at the cut or at the planned step, a seal lies before every engine's bound, a fault
      has its reason, and the host comes in only between waves. */
  ghost predicate OwnRecord(b: Pinned, w: World, s: State, record: Record)
    requires PinnedValid(b) && StateValid(b, s)
  {
    match record
    case Invocations(at, phase, selected) => OwnSelection(b, w, s, selected, at, phase)
    case Transaction(at, effects) => s.intents != map[] && at == s.cut.instant && effects == Proposals(w, s.cut.index)
    case BoundaryRecord(at, notices) =>
      && s.intents == map[] && notices == NoticesOf(b, w, s)
      && (at == s.cut.instant || Planned(b, s, at.ns, BoundaryStep(at)))
    case Seal(_, physicalNs) => forall h :: h in Bounds(w, s.cut.index) ==> h > physicalNs
    case FaultRecord(cause, _) => Justified(b, w, s, cause)
    case _ => s.intents == map[]
  }

  /** After these records everyone stood at a physical time and nothing late was pending there. */
  ghost predicate SweptBy(b: Pinned, s: State, journal: seq<Record>, ns: nat)
    requires PinnedValid(b) && StateValid(b, s)
  {
    && LiveAll(b, s, journal).Some?
    && Standing(b, LiveAll(b, s, journal).value, ns) && NoLate(LiveAll(b, s, journal).value, ns)
  }

  /** The loop has looked for due reservations since everyone reached a physical time. */
  ghost predicate Swept(b: Pinned, s: State, journal: seq<Record>, ns: nat)
    requires PinnedValid(b) && StateValid(b, s)
  {
    exists prefix :: prefix <= journal && SweptBy(b, s, prefix, ns)
  }

  /** How the loop goes about it: every record is its own or its host's, it seals only what it swept, and it does no
      more work once a seal was disturbed. */
  ghost predicate Careful(b: Pinned, w: World, s: State, journal: seq<Record>)
    requires PinnedValid(b) && StateValid(b, s)
  {
    journal == [] ||
    var shorter, last := journal[..|journal| - 1], journal[|journal| - 1];
    && Careful(b, w, s, shorter) && LiveAll(b, s, shorter).Some?
    && CarefulNext(b, w, s, shorter, LiveAll(b, s, shorter).value, last)
  }

  ghost predicate CarefulNext(b: Pinned, w: World, s: State, journal: seq<Record>, store: State, record: Record)
    requires PinnedValid(b) && StateValid(b, s) && StateValid(b, store)
  {
    && OwnRecord(b, w, store, record) && (Works(record) ==> Undisturbed(journal))
    && (record.Seal? ==> Swept(b, s, journal, record.physicalNs))
  }

  /** A run's journal and store. */
  ghost predicate Live(b: Pinned, w: World, s: State, journal: seq<Record>, store: State)
    requires PinnedValid(b) && StateValid(b, s)
  {
    LiveAll(b, s, journal) == Some(store) && Careful(b, w, s, journal)
  }

  ghost predicate Fresh(s: State) {
    !s.faulted && s.sealed.None? && s.pending == map[]
  }

  lemma LiveMore(b: Pinned, w: World, s: State, journal: seq<Record>, store: State, record: Record, next: State)
    requires PinnedValid(b) && StateValid(b, s) && Live(b, w, s, journal, store)
    requires StateValid(b, store) && LiveNext(b, store, record) == Some(next)
    requires CarefulNext(b, w, s, journal, store, record)
    ensures Live(b, w, s, journal + [record], next)
  {
    assert (journal + [record])[..|journal|] == journal;
  }

  lemma CalmMore(journal: seq<Record>, record: Record)
    ensures Calm(journal + [record]) <==> record.BoundaryRecord? || record.Seal? || (!Disturbs(record) && Calm(journal))
    ensures Undisturbed(journal + [record]) <==> Undisturbed(journal) && (record.Seal? ==> Calm(journal))
  {
    assert (journal + [record])[..|journal|] == journal;
  }

  /** The last step of a live journal. */
  lemma LiveLast(b: Pinned, w: World, s: State, journal: seq<Record>, store: State)
    requires PinnedValid(b) && StateValid(b, s) && Live(b, w, s, journal, store) && journal != []
    ensures var shorter := journal[..|journal| - 1];
      && LiveAll(b, s, shorter).Some? && Live(b, w, s, shorter, LiveAll(b, s, shorter).value)
      && LiveNext(b, LiveAll(b, s, shorter).value, journal[|journal| - 1]) == Some(store)
  {
  }

  lemma CarefulLast(b: Pinned, w: World, s: State, journal: seq<Record>, store: State)
    requires PinnedValid(b) && StateValid(b, s) && Live(b, w, s, journal, store) && journal != []
    ensures var shorter := journal[..|journal| - 1];
      && LiveAll(b, s, shorter).Some?
      && CarefulNext(b, w, s, shorter, LiveAll(b, s, shorter).value, journal[|journal| - 1])
  {
  }

  // ---- what a record does to reservations ----

  /** Reservations stay, and so does the seal. */
  ghost predicate KeepsAll(s: State, next: State) {
    next.sealed == s.sealed && KeepsPending(s, next)
  }

  /** New reservations lie beyond the seal. */
  ghost predicate ReservesBeyond(s: State, next: State) {
    next.sealed == s.sealed && forall i :: i in next.pending ==>
      (i in s.pending && next.pending[i] == s.pending[i])
        || (s.sealed.Some? && s.sealed.value < next.pending[i].boundary)
  }

  /** What a record does to reservations: they stay unless a boundary consumes them, new ones lie beyond the seal,
      and a granted cancellation's lies right after it. */
  ghost predicate Reserves(s: State, record: Record, next: State) {
    && ReservesBeyond(s, next) && (!record.BoundaryRecord? ==> KeepsAll(s, next))
    && (Disturbs(record) ==> s.sealed.Some? && !NoLate(next, s.sealed.value + 1))
  }

  lemma RecordReserves(b: Pinned, s: State, record: Record, next: State)
    requires PinnedValid(b) && StateValid(b, s) && LiveNext(b, s, record) == Some(next) && !record.Seal?
    ensures Reserves(s, record, next)
  {
    LiveIsReplayed(b, s, record);
    if record.LiveIngress? || record.Submission? || record.Cancellation? {
      HostReserves(b, s, record);
    } else if Works(record) {
      WaveReserves(b, s, record);
    } else {
      ControlReserves(b, s, record);
    }
  }

  lemma LiveIsReplayed(b: Pinned, s: State, record: Record)
    requires PinnedValid(b) && StateValid(b, s) && LiveNext(b, s, record).Some? && !record.Seal?
    ensures Replayed(b, s, record) == LiveNext(b, s, record)
  {
  }

  lemma HostReserves(b: Pinned, s: State, record: Record)
    requires PinnedValid(b) && StateValid(b, s) && Replayed(b, s, record).Some?
    requires record.LiveIngress? || record.Submission? || record.Cancellation?
    ensures Reserves(s, record, Replayed(b, s, record).value)
  {
    if record.LiveIngress? {
      AdmissionReserves(b, s, record.request);
    } else if record.Submission? {
      SubmissionReserves(b, s, record.target, record.at, record.ingressAt);
    } else {
      CancellationReserves(b, s, record.target, record.granted);
    }
  }

  lemma AdmissionReserves(b: Pinned, s: State, request: Request)
    requires StateValid(b, s) && Reserved(b, s, request).Some?
    ensures Reserves(s, LiveIngress(request), Reserved(b, s, request).value)
  {
  }

  lemma SubmissionReserves(b: Pinned, s: State, target: string, at: Instant, ingressAt: Option<nat>)
    requires StateValid(b, s) && Submitted(b, s, target, at, ingressAt).Some?
    ensures Reserves(s, Submission(target, at, ingressAt), Submitted(b, s, target, at, ingressAt).value)
  {
    assert forall i :: i in s.pending ==> i < s.arrivals;
  }

  lemma CancellationReserves(b: Pinned, s: State, target: string, granted: bool)
    requires StateValid(b, s) && CancelReserved(b, s, target, granted).Some?
    ensures Reserves(s, Cancellation(target, granted), CancelReserved(b, s, target, granted).value)
  {
    var next := CancelReserved(b, s, target, granted).value;
    assert forall i :: i in s.pending ==> i < s.arrivals;
    if granted {
      assert s.arrivals in next.pending && next.pending[s.arrivals].boundary == s.sealed.value + 1;
    }
  }

  lemma WaveReserves(b: Pinned, s: State, record: Record)
    requires PinnedValid(b) && StateValid(b, s) && Replayed(b, s, record).Some?
    requires record.Invocations? || record.Transaction? || record.BoundaryRecord?
    ensures Reserves(s, record, Replayed(b, s, record).value)
  {
    if record.Invocations? {
      InvokedCalls(b, s, record.selected, record.at, record.phase);
      assert Replayed(b, s, record).value.pending == s.pending;
    } else if record.Transaction? {
      ReturnedKeeps(b, s, record.at, record.effects);
      assert Replayed(b, s, record).value.pending == s.pending;
    } else {
      BoundedKeeps(b, s, record.at, record.notices);
      assert Replayed(b, s, record).value.pending == Consumed(b, s, record.at).pending;
    }
  }

  lemma ControlReserves(b: Pinned, s: State, record: Record)
    requires PinnedValid(b) && StateValid(b, s) && Replayed(b, s, record).Some?
    requires record.Watermark? || record.SourceProgress? || record.RunLimit? || record.FaultRecord?
    ensures Reserves(s, record, Replayed(b, s, record).value)
  {
    ControlLeaves(b, s, record);
  }

  lemma ControlLeaves(b: Pinned, s: State, record: Record)
    requires PinnedValid(b) && StateValid(b, s) && Replayed(b, s, record).Some?
    requires record.Watermark? || record.SourceProgress? || record.RunLimit? || record.FaultRecord?
    ensures Replayed(b, s, record).value.pending == s.pending && Replayed(b, s, record).value.sealed == s.sealed
  {
  }

  // ---- the exact condition ----

  /** A granted cancellation not followed by boundary control is still pending, right after the seal. */
  lemma {:induction false} HauntedUnlessCalm(b: Pinned, w: World, s: State, journal: seq<Record>, store: State)
    requires PinnedValid(b) && StateValid(b, s) && Live(b, w, s, journal, store)
    ensures !Calm(journal) ==> store.sealed.Some? && !NoLate(store, store.sealed.value + 1)
    decreases |journal|
  {
    if !Calm(journal) {
      var shorter, last := journal[..|journal| - 1], journal[|journal| - 1];
      LiveLast(b, w, s, journal, store);
      var before := LiveAll(b, s, shorter).value;
      RecordReserves(b, before, last, store);
      if !Disturbs(last) {
        HauntedUnlessCalm(b, w, s, shorter, before);
        var i :| i in before.pending && before.pending[i].boundary <= before.sealed.value + 1;
        assert store.pending[i] == before.pending[i];
      }
    }
  }

  lemma LaterIsLate(s: State, ns: nat, later: nat)
    requires !NoLate(s, ns) && ns <= later
    ensures !NoLate(s, later)
  {
  }

  lemma SealNext(b: Pinned, s: State, record: Record, next: State)
    requires PinnedValid(b) && StateValid(b, s) && record.Seal? && LiveNext(b, s, record) == Some(next)
    ensures SealedFrom(b, s, record.physicalNs) && next.sealed == Some(record.physicalNs) && next.pending == s.pending
  {
  }

  lemma SealStepReplays(b: Pinned, s: State, record: Record, next: State)
    requires PinnedValid(b) && Populated(b) && StateValid(b, s) && record.Seal? && LiveNext(b, s, record) == Some(next)
    ensures Replayed(b, s, record) == if NoLate(s, record.physicalNs) then Some(next) else None
  {
    SealReplays(b, s, record.physicalNs);
  }

  // ---- what the loop swept stays swept, in calm ----

  lemma TimeStep(b: Pinned, s: State, record: Record, next: State)
    requires PinnedValid(b) && StateValid(b, s) && LiveNext(b, s, record) == Some(next)
    ensures s.cut.instant.ns <= next.cut.instant.ns && SealedNoEarlier(s, next)
  {
    if record.Seal? {
      SealNext(b, s, record, next);
    } else {
      LiveIsReplayed(b, s, record);
      RecordOnward(b, s, record);
      RecordReserves(b, s, record, next);
    }
  }

  lemma {:induction false} TimeGrows(b: Pinned, w: World, s: State, journal: seq<Record>, store: State,
                                     prefix: seq<Record>)
    requires PinnedValid(b) && StateValid(b, s) && Live(b, w, s, journal, store) && prefix <= journal
    ensures LiveAll(b, s, prefix).Some? && LiveAll(b, s, prefix).value.cut.instant.ns <= store.cut.instant.ns
    decreases |journal|
  {
    if |prefix| == |journal| {
      assert prefix == journal;
    } else {
      var shorter := Shorter(journal, prefix);
      LiveLast(b, w, s, journal, store);
      TimeGrows(b, w, s, shorter, LiveAll(b, s, shorter).value, prefix);
      TimeStep(b, LiveAll(b, s, shorter).value, journal[|journal| - 1], store);
    }
  }

  /** With no limit open a run always stands at its seal. */
  lemma {:induction false} LiveAtRest(b: Pinned, w: World, s: State, journal: seq<Record>, store: State)
    requires PinnedValid(b) && StateValid(b, s) && Live(b, w, s, journal, store) && AtRest(s)
    ensures AtRest(store)
    decreases |journal|
  {
    if journal != [] {
      var shorter := journal[..|journal| - 1];
      LiveLast(b, w, s, journal, store);
      CarefulLast(b, w, s, journal, store);
      LiveAtRest(b, w, s, shorter, LiveAll(b, s, shorter).value);
      RestsNext(b, w, LiveAll(b, s, shorter).value, journal[|journal| - 1], store);
    }
  }

  /** A record that is no seal, between the stores before and after it. */
  ghost predicate Follows(b: Pinned, s: State, record: Record, next: State) {
    PinnedValid(b) && StateValid(b, s) && StateValid(b, next) && Replayed(b, s, record) == Some(next)
  }

  lemma LiveFollows(b: Pinned, s: State, record: Record, next: State)
    requires PinnedValid(b) && StateValid(b, s) && LiveNext(b, s, record) == Some(next) && !record.Seal?
    ensures Follows(b, s, record, next)
  {
  }

  lemma RestsNext(b: Pinned, w: World, s: State, record: Record, next: State)
    requires PinnedValid(b) && StateValid(b, s) && LiveNext(b, s, record) == Some(next) && AtRest(s)
    requires OwnRecord(b, w, s, record)
    ensures AtRest(next)
  {
    if record.Seal? {
      SealNext(b, s, record, next);
    } else {
      LiveFollows(b, s, record, next);
      if Works(record) {
        WorkRests(b, w, s, record, next);
      } else {
        OthersStand(b, s, record, next);
      }
    }
  }

  lemma WorkRests(b: Pinned, w: World, s: State, record: Record, next: State)
    requires Follows(b, s, record, next) && AtRest(s) && OwnRecord(b, w, s, record)
    requires record.Invocations? || record.Transaction? || record.BoundaryRecord?
    ensures AtRest(next)
  {
    if record.Invocations? {
      CallsRest(b, w, s, record.selected, record.at, record.phase);
      InvokedCalls(b, s, record.selected, record.at, record.phase);
    } else if record.Transaction? {
      ReturnedKeeps(b, s, record.at, record.effects);
    } else {
      BoundedKeeps(b, s, record.at, record.notices);
    }
  }

  /** The loop's own calls move time only under a run limit. */
  lemma CallsRest(b: Pinned, w: World, s: State, selected: set<string>, at: Instant, phase: Phase)
    requires StateValid(b, s) && OwnSelection(b, w, s, selected, at, phase)
    ensures at.ns == s.cut.instant.ns || s.runTarget.Some?
  {
  }

  lemma OthersStand(b: Pinned, s: State, record: Record, next: State)
    requires Follows(b, s, record, next) && !Works(record)
    ensures Stands(s, next, s.cut.instant.ns) && next.sealed == s.sealed
    ensures next.runTarget == s.runTarget || next.runTarget.Some?
  {
    if record.LiveIngress? || record.Submission? || record.Cancellation? {
      ReservingStands(b, s, record, next);
    } else if record.Watermark? || record.SourceProgress? {
      ClosingStands(b, s, record, next);
    }
  }

  lemma ReservingStands(b: Pinned, s: State, record: Record, next: State)
    requires Follows(b, s, record, next) && (record.LiveIngress? || record.Submission? || record.Cancellation?)
    ensures Stands(s, next, s.cut.instant.ns) && next.sealed == s.sealed && next.runTarget == s.runTarget
  {
    ReservingOnly(b, s, record, next);
    OnlyReservesStands(s, next);
  }

  lemma OnlyReservesStands(s: State, next: State)
    requires OnlyReserves(s, next)
    ensures Stands(s, next, s.cut.instant.ns) && next.sealed == s.sealed && next.runTarget == s.runTarget
  {
  }

  /** A reservation changes the cut and what is pending. */
  ghost predicate OnlyReserves(s: State, next: State) {
    && next == s.(cut := next.cut, arrivals := next.arrivals, pending := next.pending)
    && next.cut.instant == s.cut.instant && Renews(s, next)
  }

  lemma ReservingOnly(b: Pinned, s: State, record: Record, next: State)
    requires Follows(b, s, record, next) && (record.LiveIngress? || record.Submission? || record.Cancellation?)
    ensures OnlyReserves(s, next)
  {
    if record.LiveIngress? {
      ReservedOnly(b, s, record.request);
    } else if record.Submission? {
      SubmittedOnly(b, s, record.target, record.at, record.ingressAt);
    } else {
      CanceledOnly(b, s, record.target, record.granted);
    }
  }

  lemma ReservedOnly(b: Pinned, s: State, r: Request)
    requires Reserved(b, s, r).Some?
    ensures OnlyReserves(s, Reserved(b, s, r).value)
  {
  }

  lemma SubmittedOnly(b: Pinned, s: State, target: string, at: Instant, ingressAt: Option<nat>)
    requires Submitted(b, s, target, at, ingressAt).Some?
    ensures OnlyReserves(s, Submitted(b, s, target, at, ingressAt).value)
  {
  }

  lemma CanceledOnly(b: Pinned, s: State, target: string, granted: bool)
    requires CancelReserved(b, s, target, granted).Some?
    ensures OnlyReserves(s, CancelReserved(b, s, target, granted).value)
  {
  }

  lemma ClosingStands(b: Pinned, s: State, record: Record, next: State)
    requires Follows(b, s, record, next) && (record.Watermark? || record.SourceProgress?)
    ensures Stands(s, next, s.cut.instant.ns) && next.sealed == s.sealed && next.runTarget == s.runTarget
  {
    HostOnward(b, s, record);
    assert next.frontiers == s.frontiers;
  }

  /** Everyone stands at one physical time, and in calm nothing late is pending there. */
  ghost predicate SweptCalm(b: Pinned, s: State, calm: bool, ns: nat)
    requires WatermarksValid(b, s)
  {
    Standing(b, s, ns) && (calm ==> NoLate(s, ns))
  }

  /** One record, at one physical time beyond the seal, keeps that. */
  lemma SweptNext(b: Pinned, s: State, record: Record, next: State, calm: bool, ns: nat)
    requires Follows(b, s, record, next) && AtRest(s) && !record.Seal?
    requires (record.BoundaryRecord? ==> s.intents == map[]) && SweptCalm(b, s, calm, ns)
    requires next.cut.instant.ns == ns && (s.sealed.Some? ==> s.sealed.value < ns)
    ensures SweptCalm(b, next, record.BoundaryRecord? || (!Disturbs(record) && calm), ns)
  {
    if Works(record) {
      WorkSweeps(b, s, record, next, calm, ns);
    } else {
      OthersSweep(b, s, record, next, calm, ns);
    }
  }

  lemma WorkSweeps(b: Pinned, s: State, record: Record, next: State, calm: bool, ns: nat)
    requires Follows(b, s, record, next) && SweptCalm(b, s, calm, ns)
    requires record.BoundaryRecord? ==> s.intents == map[]
    requires record.Invocations? || record.Transaction? || record.BoundaryRecord?
    requires next.cut.instant.ns == ns
    ensures SweptCalm(b, next, record.BoundaryRecord? || calm, ns)
  {
    if record.Invocations? {
      InvokedCalls(b, s, record.selected, record.at, record.phase);
      assert next.pending == s.pending && Stands(s, next, ns);
    } else if record.Transaction? {
      ReturnSweeps(b, s, record.at, record.effects, next, ns);
    } else {
      BoundedKeeps(b, s, record.at, record.notices);
      BoundedWaves(b, s, record.at, record.notices);
      assert Stands(s, next, ns);
    }
    StandingStays(b, s, next, ns);
  }

  lemma ReturnSweeps(b: Pinned, s: State, at: Instant, effects: seq<Effect>, next: State, ns: nat)
    requires Follows(b, s, Transaction(at, effects), next) && next.cut.instant.ns == ns
    ensures Stands(s, next, ns) && next.pending == s.pending
  {
    ReturnedKeeps(b, s, at, effects);
    assert next.frontiers == s.frontiers + s.intents;
  }

  lemma OthersSweep(b: Pinned, s: State, record: Record, next: State, calm: bool, ns: nat)
    requires Follows(b, s, record, next) && !Works(record) && AtRest(s) && SweptCalm(b, s, calm, ns)
    requires s.sealed.Some? ==> s.sealed.value < ns
    ensures SweptCalm(b, next, !Disturbs(record) && calm, ns)
  {
    OthersStand(b, s, record, next);
    StandingStays(b, s, next, ns);
    if calm && !Disturbs(record) {
      OthersOnTime(b, s, record, next, ns);
    }
  }

  lemma OthersOnTime(b: Pinned, s: State, record: Record, next: State, ns: nat)
    requires Follows(b, s, record, next) && !Works(record) && AtRest(s) && !Disturbs(record)
    requires s.cut.instant.ns == ns && NoLate(s, ns) && (s.sealed.Some? ==> s.sealed.value < ns)
    ensures NoLate(next, ns)
  {
    if record.LiveIngress? {
      AdmissionIsNeverLate(b, s, record.request);
    } else if !record.Submission? && !record.Cancellation? {
      ControlLeaves(b, s, record);
    }
  }

  /** A seal is at the time of the cut. */
  lemma SealsNow(b: Pinned, s: State, record: Record, next: State)
    requires PinnedValid(b) && StateValid(b, s) && LiveNext(b, s, record) == Some(next)
    ensures record.Seal? ==> next.sealed == Some(next.cut.instant.ns)
  {
    if record.Seal? {
      SealNext(b, s, record, next);
    }
  }

  /** From where the loop looked for due reservations on, everyone stands at that time, and nothing late is pending
      unless a cancellation was granted since the last boundary control. */
  lemma {:induction false} SweptStays(b: Pinned, w: World, s: State, journal: seq<Record>, store: State,
                                      prefix: seq<Record>, ns: nat)
    requires PinnedValid(b) && StateValid(b, s) && Live(b, w, s, journal, store) && AtRest(s)
    requires prefix <= journal && SweptBy(b, s, prefix, ns) && store.cut.instant.ns == ns
    requires store.sealed.Some? ==> store.sealed.value < ns
    ensures SweptCalm(b, store, Calm(journal), ns)
    decreases |journal|
  {
    if |prefix| == |journal| {
      assert prefix == journal;
    } else {
      var shorter := Shorter(journal, prefix);
      var last := journal[|journal| - 1];
      LiveLast(b, w, s, journal, store);
      var before := LiveAll(b, s, shorter).value;
      TimeGrows(b, w, s, shorter, before, prefix);
      TimeStep(b, before, last, store);
      SweptStays(b, w, s, shorter, before, prefix, ns);
      LiveAtRest(b, w, s, shorter, before);
      CarefulLast(b, w, s, journal, store);
      SealsNow(b, before, last, store);
      LiveFollows(b, before, last, store);
      SweptNext(b, before, last, store, Calm(shorter), ns);
    }
  }

  /** What the live loop seals has nothing late pending exactly when no cancellation was granted since its last
      boundary control. */
  lemma SealedInCalm(b: Pinned, w: World, s: State, journal: seq<Record>, store: State, ns: nat)
    requires PinnedValid(b) && StateValid(b, s) && Live(b, w, s, journal, store) && AtRest(s)
    requires StateValid(b, store) && SealedFrom(b, store, ns) && Swept(b, s, journal, ns)
    ensures NoLate(store, ns) <==> Calm(journal)
  {
    HauntedUnlessCalm(b, w, s, journal, store);
    var prefix :| prefix <= journal && SweptBy(b, s, prefix, ns);
    SweptStays(b, w, s, journal, store, prefix, ns);
    if !Calm(journal) {
      LaterIsLate(store, store.sealed.value + 1, ns);
    }
  }

  lemma {:induction false} DisturbedSince(journal: seq<Record>, prefix: seq<Record>)
    requires prefix <= journal && !Calm(journal) && Calm(prefix)
    ensures exists k :: |prefix| <= k < |journal| && Disturbs(journal[k])
    decreases |journal|
  {
    assert |prefix| == |journal| ==> prefix == journal;
    if !Disturbs(journal[|journal| - 1]) {
      var shorter := Shorter(journal, prefix);
      DisturbedSince(shorter, prefix);
      var k :| |prefix| <= k < |shorter| && Disturbs(shorter[k]);
      assert Disturbs(journal[k]);
    }
  }

  /** What was swept beyond the seal was swept in calm. */
  lemma CalmWhenSwept(b: Pinned, w: World, s: State, journal: seq<Record>, store: State, ns: nat)
    requires PinnedValid(b) && StateValid(b, s) && Live(b, w, s, journal, store)
    requires NoLate(store, ns) && (store.sealed.Some? ==> store.sealed.value < ns)
    ensures Calm(journal)
  {
    HauntedUnlessCalm(b, w, s, journal, store);
    assert store.sealed.Some? ==> NoLate(store, store.sealed.value + 1);
  }

  /** A seal is disturbed only while its own time is being settled: the cancellation was granted after everyone stood
      there with nothing late pending. */
  lemma DisturbedWhileSettling(b: Pinned, w: World, s: State, journal: seq<Record>, store: State, prefix: seq<Record>,
                               ns: nat)
    requires PinnedValid(b) && StateValid(b, s) && Live(b, w, s, journal, store) && !Calm(journal)
    requires prefix <= journal && SweptBy(b, s, prefix, ns) && (store.sealed.Some? ==> store.sealed.value < ns)
    ensures exists k :: |prefix| <= k < |journal| && Disturbs(journal[k])
  {
    LiveUpto(b, w, s, journal, store, prefix);
    SealGrowsFrom(b, w, s, journal, store, prefix);
    CalmWhenSwept(b, w, s, prefix, LiveAll(b, s, prefix).value, ns);
    DisturbedSince(journal, prefix);
  }

  // ---- replay ----

  /** The replayer reproduces a live journal, and its store, if and only if every seal of it was written in calm:
      with no cancellation granted between the last boundary control before the seal and the seal. */
  lemma {:induction false} LiveReplays(b: Pinned, w: World, s: State, journal: seq<Record>, store: State)
    requires PinnedValid(b) && Populated(b) && StateValid(b, s) && Live(b, w, s, journal, store) && AtRest(s)
    ensures ReplayAll(b, s, journal) == if Undisturbed(journal) then Some(store) else None
    decreases |journal|
  {
    if journal != [] {
      var shorter, last := journal[..|journal| - 1], journal[|journal| - 1];
      LiveLast(b, w, s, journal, store);
      var before := LiveAll(b, s, shorter).value;
      LiveReplays(b, w, s, shorter, before);
      if last.Seal? {
        SealNext(b, before, last, store);
        SealedInCalm(b, w, s, shorter, before, last.physicalNs);
        SealStepReplays(b, before, last, store);
      } else {
        LiveIsReplayed(b, before, last);
      }
    }
  }

  // ---- what a disturbed seal does to the run ----

  /** A run is disturbed exactly when a reservation at or before its seal is still pending. */
  lemma {:induction false} LeftBehind(b: Pinned, w: World, s: State, journal: seq<Record>, store: State)
    requires PinnedValid(b) && StateValid(b, s) && Live(b, w, s, journal, store) && Fresh(s)
    ensures store.sealed.None? ==> Undisturbed(journal)
    ensures store.sealed.Some? ==> (NoLate(store, store.sealed.value) <==> Undisturbed(journal))
    decreases |journal|
  {
    if journal != [] {
      var shorter, last := journal[..|journal| - 1], journal[|journal| - 1];
      LiveLast(b, w, s, journal, store);
      var before := LiveAll(b, s, shorter).value;
      LeftBehind(b, w, s, shorter, before);
      if last.Seal? {
        SealNext(b, before, last, store);
        SealedInCalm(b, w, s, shorter, before, last.physicalNs);
      } else {
        RecordReserves(b, before, last, store);
        StillBehind(before, store, last.BoundaryRecord? || Undisturbed(shorter));
      }
    }
  }

  lemma StillBehind(s: State, next: State, clear: bool)
    requires ReservesBeyond(s, next) && (!clear ==> KeepsAll(s, next))
    requires clear && s.sealed.Some? ==> NoLate(s, s.sealed.value)
    ensures s.sealed.Some? ==> (NoLate(next, s.sealed.value) <==> NoLate(s, s.sealed.value))
  {
    if !clear && s.sealed.Some? && !NoLate(s, s.sealed.value) {
      var i :| i in s.pending && s.pending[i].boundary <= s.sealed.value;
      assert next.pending[i] == s.pending[i];
    }
  }

  lemma {:induction false} UndisturbedPrefix(journal: seq<Record>, i: nat)
    requires i <= |journal| && Undisturbed(journal)
    ensures Undisturbed(journal[..i])
    decreases |journal|
  {
    if i == |journal| {
      assert journal[..i] == journal;
    } else {
      var shorter := journal[..|journal| - 1];
      UndisturbedPrefix(shorter, i);
      assert shorter[..i] == journal[..i];
    }
  }

  lemma LivePrefix(b: Pinned, w: World, s: State, journal: seq<Record>, store: State, i: nat)
    requires PinnedValid(b) && StateValid(b, s) && Live(b, w, s, journal, store) && i <= |journal|
    ensures LiveAll(b, s, journal[..i]).Some? && Live(b, w, s, journal[..i], LiveAll(b, s, journal[..i]).value)
  {
    LiveUpto(b, w, s, journal, store, journal[..i]);
  }

  lemma {:induction false} LiveUpto(b: Pinned, w: World, s: State, journal: seq<Record>, store: State,
                                    prefix: seq<Record>)
    requires PinnedValid(b) && StateValid(b, s) && Live(b, w, s, journal, store) && prefix <= journal
    ensures LiveAll(b, s, prefix).Some? && Live(b, w, s, prefix, LiveAll(b, s, prefix).value)
    decreases |journal|
  {
    if |prefix| == |journal| {
      assert prefix == journal;
    } else {
      var shorter := Shorter(journal, prefix);
      LiveLast(b, w, s, journal, store);
      LiveUpto(b, w, s, shorter, LiveAll(b, s, shorter).value, prefix);
    }
  }

  /** The loop works only while undisturbed. */
  lemma WorksUndisturbed(b: Pinned, w: World, s: State, journal: seq<Record>, store: State, i: nat)
    requires PinnedValid(b) && StateValid(b, s) && Live(b, w, s, journal, store) && i < |journal| && Works(journal[i])
    ensures Undisturbed(journal[..i])
  {
    LivePrefix(b, w, s, journal, store, i + 1);
    CarefulLast(b, w, s, journal[..i + 1], LiveAll(b, s, journal[..i + 1]).value);
    PrefixMore(journal, i);
    PrefixOf(journal, i, i + 1);
  }

  /** One record of a live journal, between the stores before and after it. */
  lemma LiveStep(b: Pinned, w: World, s: State, journal: seq<Record>, store: State, i: nat)
    requires PinnedValid(b) && StateValid(b, s) && Live(b, w, s, journal, store) && i < |journal|
    ensures LiveAll(b, s, journal[..i]).Some? && LiveAll(b, s, journal[..i + 1]).Some?
    ensures LiveNext(b, LiveAll(b, s, journal[..i]).value, journal[i]) == LiveAll(b, s, journal[..i + 1])
    ensures Live(b, w, s, journal[..i], LiveAll(b, s, journal[..i]).value)
    ensures journal[i].Seal? ==> Swept(b, s, journal[..i], journal[i].physicalNs)
  {
    LivePrefix(b, w, s, journal, store, i);
    LivePrefix(b, w, s, journal, store, i + 1);
    PrefixMore(journal, i);
    PrefixOf(journal, i, i + 1);
    LiveLast(b, w, s, journal[..i + 1], LiveAll(b, s, journal[..i + 1]).value);
    CarefulLast(b, w, s, journal[..i + 1], LiveAll(b, s, journal[..i + 1]).value);
  }

  /** Every seal the live loop writes, replayable or not, is written settled and moves the seal forward; nothing
      late is then pending exactly when it is written in calm. */
  lemma LiveSealSettled(b: Pinned, w: World, s: State, journal: seq<Record>, store: State, i: nat)
    requires PinnedValid(b) && StateValid(b, s) && Live(b, w, s, journal, store) && AtRest(s)
    requires i < |journal| && journal[i].Seal?
    ensures LiveAll(b, s, journal[..i]).Some?
    ensures SealedFrom(b, LiveAll(b, s, journal[..i]).value, journal[i].physicalNs)
    ensures NoLate(LiveAll(b, s, journal[..i]).value, journal[i].physicalNs) <==> Calm(journal[..i])
    ensures store.sealed.Some? && journal[i].physicalNs <= store.sealed.value
  {
    LiveStep(b, w, s, journal, store, i);
    var before, after := LiveAll(b, s, journal[..i]).value, LiveAll(b, s, journal[..i + 1]).value;
    SealNext(b, before, journal[i], after);
    SealedInCalm(b, w, s, journal[..i], before, journal[i].physicalNs);
    SealGrowsFrom(b, w, s, journal, store, journal[..i + 1]);
  }

  predicate SealedNoEarlier(s: State, next: State) {
    s.sealed.Some? ==> next.sealed.Some? && s.sealed.value <= next.sealed.value
  }

  lemma {:induction false} SealGrowsFrom(b: Pinned, w: World, s: State, journal: seq<Record>, store: State,
                                         prefix: seq<Record>)
    requires PinnedValid(b) && StateValid(b, s) && Live(b, w, s, journal, store) && prefix <= journal
    ensures LiveAll(b, s, prefix).Some? && SealedNoEarlier(LiveAll(b, s, prefix).value, store)
    decreases |journal|
  {
    if |prefix| == |journal| {
      assert prefix == journal;
    } else {
      var shorter := Shorter(journal, prefix);
      LiveLast(b, w, s, journal, store);
      SealGrowsFrom(b, w, s, shorter, LiveAll(b, s, shorter).value, prefix);
      TimeStep(b, LiveAll(b, s, shorter).value, journal[|journal| - 1], store);
    }
  }

  lemma StaysDisturbed(journal: seq<Record>, i: nat, j: nat)
    requires i < j <= |journal| && journal[i].Seal? && !Calm(journal[..i])
    ensures !Undisturbed(journal[..j])
  {
    PrefixMore(journal, i);
    CalmMore(journal[..i], journal[i]);
    PrefixOf(journal, i + 1, j);
    if Undisturbed(journal[..j]) {
      UndisturbedPrefix(journal[..j], i + 1);
    }
  }

  /** A disturbed seal ends the run: after it no call is made, no boundary is consumed and nothing is sealed, and
      everything before it replays. */
  lemma DisturbedSealIsLast(b: Pinned, w: World, s: State, journal: seq<Record>, store: State, i: nat, j: nat)
    requires PinnedValid(b) && Populated(b) && StateValid(b, s) && Live(b, w, s, journal, store) && AtRest(s)
    requires i < j < |journal| && journal[i].Seal? && !Calm(journal[..i])
    ensures !Works(journal[j])
    ensures ReplayAll(b, s, journal[..i]).Some? && ReplayAll(b, s, journal[..i]) == LiveAll(b, s, journal[..i])
  {
    LivePrefix(b, w, s, journal, store, i);
    WorksUndisturbed(b, w, s, journal, store, i);
    if Works(journal[j]) {
      WorksUndisturbed(b, w, s, journal, store, j);
    }
    var before := journal[..i];
    LiveReplays(b, w, s, before, LiveAll(b, s, before).value);
    StaysDisturbed(journal, i, j);
  }

  /** Without granted cancellations a run is never disturbed, so its whole journal replays. */
  lemma {:induction false} NoCancelUndisturbed(journal: seq<Record>)
    requires forall i :: 0 <= i < |journal| ==> !Disturbs(journal[i])
    ensures Calm(journal) && Undisturbed(journal)
    decreases |journal|
  {
    if journal != [] {
      NoCancelUndisturbed(journal[..|journal| - 1]);
    }
  }

  // ---- faults and steps ----

  /** Why a journal ended, if it did. */
  ghost function FaultOf(journal: seq<Record>): Option<Cause> {
    if journal != [] && journal[|journal| - 1].FaultRecord? then Some(journal[|journal| - 1].cause) else None
  }

  /** A fault is written for a reason found in the state before it. */
  lemma FaultExplained(b: Pinned, w: World, s: State, journal: seq<Record>, store: State)
    requires PinnedValid(b) && StateValid(b, s) && Live(b, w, s, journal, store) && FaultOf(journal).Some?
    ensures LiveAll(b, s, journal[..|journal| - 1]).Some?
    ensures Justified(b, w, LiveAll(b, s, journal[..|journal| - 1]).value, FaultOf(journal).value)
  {
    CarefulLast(b, w, s, journal, store);
  }

  /** What a journal accounts for: each seal was written settled and beyond the one before it, and a fault for a
      reason found in the store before it. */
  ghost predicate Accounted(b: Pinned, w: World, s: State, journal: seq<Record>)
    requires PinnedValid(b) && StateValid(b, s)
  {
    && (forall i :: 0 <= i < |journal| && journal[i].Seal? ==>
          SealedFromAt(b, w, s, journal, i, journal[i].physicalNs))
    && (FaultOf(journal).Some? ==> JustifiedAt(b, w, s, journal[..|journal| - 1], FaultOf(journal).value))
  }

  ghost predicate SealedFromAt(b: Pinned, w: World, s: State, journal: seq<Record>, i: nat, ns: nat)
    requires PinnedValid(b) && StateValid(b, s) && i <= |journal|
  {
    LiveAll(b, s, journal[..i]).Some? && SealedFrom(b, LiveAll(b, s, journal[..i]).value, ns)
  }

  ghost predicate JustifiedAt(b: Pinned, w: World, s: State, journal: seq<Record>, cause: Cause)
    requires PinnedValid(b) && StateValid(b, s)
  {
    LiveAll(b, s, journal).Some? && Justified(b, w, LiveAll(b, s, journal).value, cause)
  }

  lemma LiveAccounted(b: Pinned, w: World, s: State, journal: seq<Record>, store: State)
    requires PinnedValid(b) && StateValid(b, s) && Live(b, w, s, journal, store) && AtRest(s)
    ensures Accounted(b, w, s, journal)
  {
    forall i | 0 <= i < |journal| && journal[i].Seal?
      ensures SealedFromAt(b, w, s, journal, i, journal[i].physicalNs)
    {
      LiveSealSettled(b, w, s, journal, store, i);
    }
    if FaultOf(journal).Some? {
      FaultExplained(b, w, s, journal, store);
    }
  }

  /** Waves and boundary controls so far. */
  ghost function Steps(journal: seq<Record>): nat {
    if journal == [] then 0
    else
      var last := journal[|journal| - 1];
      Steps(journal[..|journal| - 1]) + if last.Invocations? || last.BoundaryRecord? then 1 else 0
  }

  lemma StepsMore(journal: seq<Record>, record: Record)
    ensures Steps(journal + [record]) == Steps(journal) + if record.Invocations? || record.BoundaryRecord? then 1 else 0
  {
    assert (journal + [record])[..|journal|] == journal;
  }
}
