/** Runs of two partitions that go wrong: one in which unsealed settlement finds nobody ready for work that is due,
    because a stream closes while the partition it held back is still short of the boundary, and one whose last seal
    the replayer rejects, because a cancellation lands while its time is being settled. */
module PairRuns {
  import opened Cohorts
  import opened Grants
  import opened HostCalls
  import opened LiveJournal
  import opened NativeGrid
  import opened Planning
  import opened Replay
  import opened RunState
  import opened Settlement
  import opened Time

  /** Two reactive, event-driven partitions in no cohort: `held` waits for one stream, `free` for none. */
  ghost predicate IsPair(b: Pinned, held: string, free: string, x: string) {
    && PinnedValid(b) && held != free && b.streamed && !b.defaultStream && b.maxMicrosteps > 0 && b.cohorts == []
    && b.partitions.Keys == {held, free} && b.dependencies == map[held := {x}, free := {}] && b.lateness.Keys == {x}
    && forall p :: p in b.partitions ==>
      b.partitions[p].timing.mode == Des && b.partitions[p].sampleLevel.None? && b.partitions[p].reactive
  }

  /** Engines that bound the first run boundary at `aim` and return one message from their first advance. */
  function PairWorld(aim: nat, recipient: string): World {
    World((i: nat) => if i == 5 then [Emit(recipient, Instant(aim, 0), 0)] else [],
          (i: nat) => if i == 4 then [aim] else [])
  }

  /** Where the run stands: nothing but the queue pending, everyone at the times given. */
  ghost predicate Stage(s: State, held: string, free: string, x: string, cut: Cut, sealed: Option<nat>,
                        target: Option<nat>, heldAt: Instant, freeAt: Instant, work: map<nat, WorkItem>, closed: int) {
    && s.cut == cut && s.sealed == sealed && s.runTarget == target && !s.faulted && s.frontiers.Keys == {held, free}
    && s.frontiers[held].logical == heldAt && s.frontiers[free].logical == freeAt
    && s.work == work && s.timers == map[] && s.pending == map[] && s.watermarks == map[x := closed]
    && s.defaultWatermark.None? && (work == map[] ==> s.arrivals == 0)
  }

  const ZERO := Instant(0, 0)

  lemma PairSafe(b: Pinned, s: State, held: string, free: string, x: string, ns: nat)
    requires IsPair(b, held, free, x) && WatermarksValid(b, s) && x in s.watermarks
    ensures Safe(b, s, ns) == if ns <= s.watermarks[x] then {held, free} else {free}
  {
  }

  // ---- one record at a time ----

  /** A live journal nothing has disturbed. */
  ghost predicate Reaches(b: Pinned, w: World, s: State, journal: seq<Record>, t: State) {
    && PinnedValid(b) && StateValid(b, s) && StateValid(b, t) && Live(b, w, s, journal, t)
    && Calm(journal) && Undisturbed(journal)
  }

  lemma Adds(b: Pinned, w: World, s: State, journal: seq<Record>, t: State, record: Record, next: State)
    requires Reaches(b, w, s, journal, t) && !t.faulted && Replayed(b, t, record) == Some(next)
    requires OwnRecord(b, w, t, record) && !record.Seal?
    ensures StateValid(b, next) && Live(b, w, s, journal + [record], next) && Undisturbed(journal + [record])
    ensures Calm(journal + [record]) <==> !Disturbs(record)
  {
    ReplayedKeeps(b, t, record);
    LiveMore(b, w, s, journal, t, record, next);
    CalmMore(journal, record);
  }

  lemma Chain(b: Pinned, w: World, s: State, journal: seq<Record>, t: State, record: Record, next: State)
    requires Reaches(b, w, s, journal, t) && !t.faulted && Replayed(b, t, record) == Some(next)
    requires OwnRecord(b, w, t, record) && !record.Seal? && !Disturbs(record)
    ensures Reaches(b, w, s, journal + [record], next)
  {
    Adds(b, w, s, journal, t, record, next);
  }

  /** The state a transaction's effects apply to. */
  function Merged(s: State, at: Instant): State {
    s.(cut := NextCut(s, at), frontiers := s.frontiers + s.intents, intents := map[])
  }

  lemma MergedIdle(b: Pinned, called: State, at: Instant, effects: seq<Effect>, next: State)
    requires PinnedValid(b) && StateValid(b, called) && InTime(b, called, at)
    requires Returned(b, called, at, effects) == Some(next)
    ensures next.intents == map[]
  {
    ReturnedKeeps(b, called, at, effects);
  }

  /** Two records: the calls of a wave and the transaction that merges them. */
  function Wave(selected: set<string>, at: Instant, phase: Phase, effects: seq<Effect>): seq<Record> {
    [Invocations(at, phase, selected)] + [Transaction(at, effects)]
  }

  /** Calls of a wave, unresolved. */
  ghost predicate Calling(t: State, called: State, selected: set<string>, at: Instant) {
    && called.cut == Cut(t.cut.index + 1, at) && called.intents.Keys == selected && !called.faulted
    && forall p :: p in called.intents ==> called.intents[p].logical == at
  }

  lemma ChainCalls(b: Pinned, w: World, s: State, journal: seq<Record>, t: State, selected: set<string>, at: Instant,
                   phase: Phase) returns (called: State)
    requires Reaches(b, w, s, journal, t) && !t.faulted && OwnSelection(b, w, t, selected, at, phase)
    requires InTime(b, t, at) && Invoked(b, t, selected, at, phase).Some?
    ensures called == Invoked(b, t, selected, at, phase).value && Calling(t, called, selected, at)
    ensures Reaches(b, w, s, journal + [Invocations(at, phase, selected)], called)
  {
    called := Invoked(b, t, selected, at, phase).value;
    CallsMade(b, w, t, selected, at, phase);
    Chain(b, w, s, journal, t, Invocations(at, phase, selected), called);
  }

  lemma CallsMade(b: Pinned, w: World, t: State, selected: set<string>, at: Instant, phase: Phase)
    requires PinnedValid(b) && StateValid(b, t) && !t.faulted && OwnSelection(b, w, t, selected, at, phase)
    requires InTime(b, t, at) && Invoked(b, t, selected, at, phase).Some?
    ensures Replayed(b, t, Invocations(at, phase, selected)) == Invoked(b, t, selected, at, phase)
    ensures OwnRecord(b, w, t, Invocations(at, phase, selected))
    ensures Calling(t, Invoked(b, t, selected, at, phase).value, selected, at)
  {
    CallsStand(b, t, selected, at, phase);
    OwnCalls(b, w, t, selected, at, phase);
  }

  lemma OwnCalls(b: Pinned, w: World, t: State, selected: set<string>, at: Instant, phase: Phase)
    requires PinnedValid(b) && StateValid(b, t) && OwnSelection(b, w, t, selected, at, phase)
    ensures OwnRecord(b, w, t, Invocations(at, phase, selected))
  {
  }

  lemma CallsStand(b: Pinned, t: State, selected: set<string>, at: Instant, phase: Phase)
    requires PinnedValid(b) && StateValid(b, t) && !t.faulted
    requires InTime(b, t, at) && Invoked(b, t, selected, at, phase).Some?
    ensures Calling(t, Invoked(b, t, selected, at, phase).value, selected, at)
  {
    InvokedCalls(b, t, selected, at, phase);
  }

  lemma ChainWave(b: Pinned, w: World, s: State, journal: seq<Record>, t: State, selected: set<string>, at: Instant,
                  phase: Phase, effects: seq<Effect>, next: State)
    requires Reaches(b, w, s, journal, t) && !t.faulted && selected != {} && OwnSelection(b, w, t, selected, at, phase)
    requires InTime(b, t, at) && Invoked(b, t, selected, at, phase).Some?
    requires effects == Proposals(w, t.cut.index + 1)
    requires Effected(b, Merged(Invoked(b, t, selected, at, phase).value, at), at, effects) == Some(next)
    ensures Reaches(b, w, s, journal + Wave(selected, at, phase, effects), next) && next.intents == map[]
  {
    var called := ChainCalls(b, w, s, journal, t, selected, at, phase);
    ChainReturn(b, w, s, journal + [Invocations(at, phase, selected)], called, at, effects, next);
    WaveJoins(journal, selected, at, phase, effects);
  }

  lemma WaveJoins(journal: seq<Record>, selected: set<string>, at: Instant, phase: Phase, effects: seq<Effect>)
    ensures journal + [Invocations(at, phase, selected)] + [Transaction(at, effects)] ==
      journal + Wave(selected, at, phase, effects)
  {
  }

  lemma ChainReturn(b: Pinned, w: World, s: State, journal: seq<Record>, called: State, at: Instant,
                    effects: seq<Effect>, next: State)
    requires Reaches(b, w, s, journal, called) && !called.faulted && called.intents != map[]
    requires called.cut.instant == at && effects == Proposals(w, called.cut.index)
    requires forall p :: p in called.intents ==> called.intents[p].logical == at
    requires Effected(b, Merged(called, at), at, effects) == Some(next)
    ensures Reaches(b, w, s, journal + [Transaction(at, effects)], next) && next.intents == map[]
  {
    assert InTime(b, called, at);
    assert Returned(b, called, at, effects) == Some(next);
    MergedIdle(b, called, at, effects, next);
    Chain(b, w, s, journal, called, Transaction(at, effects), next);
  }

  /** One message, for the present: eligible one microstep on. */
  lemma Sends(b: Pinned, s: State, at: Instant, recipient: string)
    requires PinnedValid(b) && recipient in b.partitions && b.partitions[recipient].timing.mode == Des
    requires s.arrivals == 0 && s.work == map[] && at.microstep == 0
    ensures Effected(b, s, at, [Emit(recipient, at, 0)]) ==
      Some(s.(work := map[0 := WorkItem(recipient, Instant(at.ns, 1))], arrivals := 1))
  {
    var next := EffectOf(b, s, at, Emit(recipient, at, 0)).value;
    assert next.work == map[0 := WorkItem(recipient, Instant(at.ns, 1))];
    assert [Emit(recipient, at, 0)][1..] == [];
    assert Effected(b, next, at, []) == Some(next);
  }

  // ---- the start they share ----

  /** Reset, seal zero, run to twenty. */
  function Opening(held: string, free: string): seq<Record> {
    Wave({held, free}, ZERO, Reset, []) + [Seal(ZERO, 0)] + [RunLimit(20)]
  }

  lemma Resets(b: Pinned, w: World, held: string, free: string, x: string, aim: nat, recipient: string)
    returns (s: State)
    requires IsPair(b, held, free, x) && w == PairWorld(aim, recipient)
    ensures Reaches(b, w, Bound(b, map[x := 5]), Wave({held, free}, ZERO, Reset, []), s) && s.intents == map[]
    ensures Stage(s, held, free, x, Cut(2, ZERO), None, None, ZERO, ZERO, map[], 5)
  {
    var start := Bound(b, map[x := 5]);
    s := ResetGoes(b, w, held, free, x, start);
    assert Proposals(w, 1) == [];
    ChainWave(b, w, start, [], start, {held, free}, ZERO, Reset, [], s);
    assert [] + Wave({held, free}, ZERO, Reset, []) == Wave({held, free}, ZERO, Reset, []);
  }

  /** The reset and what it leaves. */
  lemma ResetGoes(b: Pinned, w: World, held: string, free: string, x: string, s: State) returns (next: State)
    requires IsPair(b, held, free, x) && s == Bound(b, map[x := 5])
    ensures StateValid(b, s) && OwnSelection(b, w, s, {held, free}, ZERO, Reset) && InTime(b, s, ZERO)
    ensures Invoked(b, s, {held, free}, ZERO, Reset).Some?
    ensures Effected(b, Merged(Invoked(b, s, {held, free}, ZERO, Reset).value, ZERO), ZERO, []) == Some(next)
    ensures Stage(next, held, free, x, Cut(2, ZERO), None, None, ZERO, ZERO, map[], 5)
  {
    assert WatermarksValid(b, s) && FrontiersValid(b, s) && QueuesValid(b, s);
    CallsGranted(b, s, {held, free}, ZERO, Reset);
    InvokedCalls(b, s, {held, free}, ZERO, Reset);
    next := Merged(Invoked(b, s, {held, free}, ZERO, Reset).value, ZERO);
  }

  lemma Opens(b: Pinned, w: World, held: string, free: string, x: string, aim: nat, recipient: string)
    returns (s: State)
    requires IsPair(b, held, free, x) && w == PairWorld(aim, recipient)
    ensures Reaches(b, w, Bound(b, map[x := 5]), Opening(held, free), s) && s.intents == map[]
    ensures Stage(s, held, free, x, Cut(4, ZERO), Some(0), Some(20), ZERO, ZERO, map[], 5)
  {
    var start, journal := Bound(b, map[x := 5]), Wave({held, free}, ZERO, Reset, []);
    var reset := Resets(b, w, held, free, x, aim, recipient);
    SealsZero(b, w, start, journal, reset, held, free, x);
    s := Limited(Sealed(reset, 0), 20);
    Chain(b, w, start, journal + [Seal(ZERO, 0)], Sealed(reset, 0), RunLimit(20), s);
  }

  lemma SealsZero(b: Pinned, w: World, start: State, journal: seq<Record>, s: State, held: string, free: string,
                  x: string)
    requires IsPair(b, held, free, x) && Reaches(b, w, start, journal, s) && s.intents == map[]
    requires Stage(s, held, free, x, Cut(2, ZERO), None, None, ZERO, ZERO, map[], 5) && Bounds(w, 2) == []
    ensures Reaches(b, w, start, journal + [Seal(ZERO, 0)], Sealed(s, 0))
  {
    SettledZero(b, s, held, free, x);
    assert SweptBy(b, start, journal, 0);
    LiveMore(b, w, start, journal, s, Seal(ZERO, 0), Sealed(s, 0));
    CalmMore(journal, Seal(ZERO, 0));
  }

  lemma SettledZero(b: Pinned, s: State, held: string, free: string, x: string)
    requires IsPair(b, held, free, x) && StateValid(b, s) && s.intents == map[]
    requires Stage(s, held, free, x, Cut(2, ZERO), None, None, ZERO, ZERO, map[], 5)
    ensures LiveNext(b, s, Seal(ZERO, 0)) == Some(Sealed(s, 0)) && Standing(b, s, 0) && NoLate(s, 0)
  {
    PairSafe(b, s, held, free, x, 0);
    assert SealedFrom(b, s, 0);
  }

  /** The engines bound the first boundary. */
  lemma Aims(w: World, s: State, held: string, free: string, x: string, aim: nat, recipient: string)
    requires w == PairWorld(aim, recipient) && 0 < aim <= 20
    requires Stage(s, held, free, x, Cut(4, ZERO), Some(0), Some(20), ZERO, ZERO, map[], 5)
    ensures Aim(w, s, aim) && GrantAt(s, aim) == Instant(aim, 0)
  {
    assert Bounds(w, 4) == [aim];
  }

  lemma ReplaysFromBound(b: Pinned, w: World, held: string, free: string, x: string, journal: seq<Record>, s: State)
    requires IsPair(b, held, free, x) && StateValid(b, Bound(b, map[x := 5]))
    requires Live(b, w, Bound(b, map[x := 5]), journal, s)
    ensures ReplayAll(b, Bound(b, map[x := 5]), journal) == if Undisturbed(journal) then Some(s) else None
  {
    assert held in b.partitions;
    LiveReplays(b, w, Bound(b, map[x := 5]), journal, s);
  }

  // ---- nobody ready ----

  lemma FreeAdvances(b: Pinned, held: string, free: string, x: string, s: State)
    requires IsPair(b, held, free, x) && StateValid(b, s) && s.intents == map[]
    requires Stage(s, held, free, x, Cut(4, ZERO), Some(0), Some(20), ZERO, ZERO, map[], 5)
    ensures Trailing(b, s, 10) == {free} && InTime(b, s, Instant(10, 0))
    ensures Invoked(b, s, {free}, Instant(10, 0), AdvancePhase).Some?
    ensures Stage(Merged(Invoked(b, s, {free}, Instant(10, 0), AdvancePhase).value, Instant(10, 0)), held, free, x,
      Cut(6, Instant(10, 0)), Some(0), Some(20), ZERO, Instant(10, 0), map[], 5)
  {
    PairSafe(b, s, held, free, x, 10);
    assert Trailing(b, s, 10) == {free};
    assert Scheduled(b, s, {free}, Instant(10, 0), AdvancePhase);
    InvokedCalls(b, s, {free}, Instant(10, 0), AdvancePhase);
  }

  /** The free partition advances to ten, where its engine bounds it, and sends the other work for ten; boundary
      control finds nothing due, and the host closes the stream to ten. */
  function Story(held: string, free: string, x: string): seq<Record> {
    Opening(held, free) + Wave({free}, Instant(10, 0), AdvancePhase, [Emit(held, Instant(10, 0), 0)])
    + [BoundaryRecord(Instant(10, 0), [])] + [Watermark(x, 10)]
  }

  /** Nothing is due for boundary control; then the host closes the stream. */
  lemma Closes(b: Pinned, held: string, free: string, x: string, s: State)
    requires IsPair(b, held, free, x) && StateValid(b, s) && s.intents == map[]
    requires Stage(s, held, free, x, Cut(6, Instant(10, 0)), Some(0), Some(20), ZERO, Instant(10, 0),
      map[0 := WorkItem(held, Instant(10, 1))], 5)
    ensures Replayed(b, s, BoundaryRecord(Instant(10, 0), [])) == Some(Consumed(b, s, Instant(10, 0)))
    ensures StateValid(b, Consumed(b, s, Instant(10, 0)))
    ensures var next := Consumed(b, s, Instant(10, 0));
      && Replayed(b, next, Watermark(x, 10)) == Some(Closed(b, next, x, 10))
      && Stage(Closed(b, next, x, 10), held, free, x, Cut(8, Instant(10, 0)), Some(0), Some(20), ZERO, Instant(10, 0),
           map[0 := WorkItem(held, Instant(10, 1))], 10)
  {
    assert Bounded(b, s, Instant(10, 0), []) == Some(Consumed(b, s, Instant(10, 0)));
    BoundedKeeps(b, s, Instant(10, 0), []);
  }

  /** The one step settlement can plan reacts to work of a partition that is safe and short of the boundary, and
      nobody is ready for it. */
  lemma Stranded(b: Pinned, w: World, held: string, free: string, x: string, s: State)
    requires IsPair(b, held, free, x) && StateValid(b, s)
    requires Stage(s, held, free, x, Cut(8, Instant(10, 0)), Some(0), Some(20), ZERO, Instant(10, 0),
      map[0 := WorkItem(held, Instant(10, 1))], 10)
    ensures !SafeStand(b, s, 10) && Justified(b, w, s, NobodyReady(Instant(10, 1)))
  {
    PairSafe(b, s, held, free, x, 10);
    StrandedWork(b, held, free, x, s);
    assert Ready(b, s, Instant(10, 1)) == {};
  }

  lemma StrandedWork(b: Pinned, held: string, free: string, x: string, s: State)
    requires IsPair(b, held, free, x) && StateValid(b, s) && Safe(b, s, 10) == {held, free}
    requires Stage(s, held, free, x, Cut(8, Instant(10, 0)), Some(0), Some(20), ZERO, Instant(10, 0),
      map[0 := WorkItem(held, Instant(10, 1))], 10)
    ensures DueStep(b, s, Instant(10, 1)) && OrdinaryDue(b, s, Instant(10, 1)) && !TimerBy(s, Instant(10, 1))
  {
    assert s.work[0].recipient == held && s.work[0].eligible in SafeOrdinary(b, s, 10);
    assert Asks(b, s, 10, 1);
  }

  lemma FreeSends(b: Pinned, w: World, held: string, free: string, x: string) returns (s: State)
    requires IsPair(b, held, free, x) && w == PairWorld(10, held)
    ensures Reaches(b, w, Bound(b, map[x := 5]),
      Opening(held, free) + Wave({free}, Instant(10, 0), AdvancePhase, [Emit(held, Instant(10, 0), 0)]), s)
    ensures s.intents == map[] && Stage(s, held, free, x, Cut(6, Instant(10, 0)), Some(0), Some(20), ZERO,
      Instant(10, 0), map[0 := WorkItem(held, Instant(10, 1))], 5)
  {
    var begun := Opens(b, w, held, free, x, 10, held);
    s := FreeGoes(b, w, held, free, x, begun);
    assert Proposals(w, 5) == [Emit(held, Instant(10, 0), 0)];
    ChainWave(b, w, Bound(b, map[x := 5]), Opening(held, free), begun, {free}, Instant(10, 0), AdvancePhase,
              [Emit(held, Instant(10, 0), 0)], s);
  }

  /** The wave to ten and what it leaves. */
  lemma FreeGoes(b: Pinned, w: World, held: string, free: string, x: string, s: State) returns (next: State)
    requires IsPair(b, held, free, x) && w == PairWorld(10, held) && StateValid(b, s) && s.intents == map[]
    requires Stage(s, held, free, x, Cut(4, ZERO), Some(0), Some(20), ZERO, ZERO, map[], 5)
    ensures OwnSelection(b, w, s, {free}, Instant(10, 0), AdvancePhase) && InTime(b, s, Instant(10, 0))
    ensures Invoked(b, s, {free}, Instant(10, 0), AdvancePhase).Some?
    ensures Effected(b, Merged(Invoked(b, s, {free}, Instant(10, 0), AdvancePhase).value, Instant(10, 0)),
      Instant(10, 0), [Emit(held, Instant(10, 0), 0)]) == Some(next)
    ensures Stage(next, held, free, x, Cut(6, Instant(10, 0)), Some(0), Some(20), ZERO, Instant(10, 0),
      map[0 := WorkItem(held, Instant(10, 1))], 5)
  {
    Aims(w, s, held, free, x, 10, held);
    FreeAdvances(b, held, free, x, s);
    var merged := Merged(Invoked(b, s, {free}, Instant(10, 0), AdvancePhase).value, Instant(10, 0));
    Sends(b, merged, Instant(10, 0), held);
    next := merged.(work := map[0 := WorkItem(held, Instant(10, 1))], arrivals := 1);
    assert 0 in next.work;
  }

  /** The live loop may write a journal that leaves unsealed settlement with work due and nobody ready, and then it
      fails for that reason. */
  lemma NobodyReadyReached(b: Pinned, held: string, free: string, x: string) returns (s: State)
    requires IsPair(b, held, free, x)
    ensures Reaches(b, PairWorld(10, held), Bound(b, map[x := 5]), Story(held, free, x), s)
    ensures ReplayAll(b, Bound(b, map[x := 5]), Story(held, free, x)) == Some(s)
    ensures s.cut.instant == Instant(10, 0) && !SafeStand(b, s, 10)
    ensures Justified(b, PairWorld(10, held), s, NobodyReady(Instant(10, 1)))
  {
    var w := PairWorld(10, held);
    s := StoryReached(b, w, held, free, x);
    Stranded(b, w, held, free, x, s);
    ReplaysFromBound(b, w, held, free, x, Story(held, free, x), s);
  }

  lemma SilentBoundary(b: Pinned, w: World, s: State, recipient: string)
    requires w == PairWorld(10, recipient) && s.cut.index == 6
    ensures NoticesOf(b, w, s) == []
  {
    assert Proposals(w, 7) == [];
  }

  lemma StoryReached(b: Pinned, w: World, held: string, free: string, x: string) returns (s: State)
    requires IsPair(b, held, free, x) && w == PairWorld(10, held)
    ensures Reaches(b, w, Bound(b, map[x := 5]), Story(held, free, x), s)
    ensures Stage(s, held, free, x, Cut(8, Instant(10, 0)), Some(0), Some(20), ZERO, Instant(10, 0),
      map[0 := WorkItem(held, Instant(10, 1))], 10)
  {
    var start, ten := Bound(b, map[x := 5]), Instant(10, 0);
    var journal := Opening(held, free) + Wave({free}, ten, AdvancePhase, [Emit(held, ten, 0)]);
    var sent := FreeSends(b, w, held, free, x);
    Closes(b, held, free, x, sent);
    SilentBoundary(b, w, sent, held);
    s := ClosedAfter(b, w, start, journal, sent, x, ten);
  }

  lemma ClosedAfter(b: Pinned, w: World, start: State, journal: seq<Record>, s: State, x: string, at: Instant)
    returns (next: State)
    requires Reaches(b, w, start, journal, s) && !s.faulted && s.intents == map[] && s.cut.instant == at
    requires NoticesOf(b, w, s) == [] && Replayed(b, s, BoundaryRecord(at, [])) == Some(Consumed(b, s, at))
    requires StateValid(b, Consumed(b, s, at))
    requires Replayed(b, Consumed(b, s, at), Watermark(x, 10)) == Some(Closed(b, Consumed(b, s, at), x, 10))
    ensures next == Closed(b, Consumed(b, s, at), x, 10)
    ensures Reaches(b, w, start, journal + [BoundaryRecord(at, [])] + [Watermark(x, 10)], next)
  {
    var consumed := Consumed(b, s, at);
    next := Closed(b, consumed, x, 10);
    Chain(b, w, start, journal, s, BoundaryRecord(at, []), consumed);
    Chain(b, w, start, journal + [BoundaryRecord(at, [])], consumed, Watermark(x, 10), next);
  }

  // ---- a disturbed seal ----

  lemma AllAdvance(b: Pinned, held: string, free: string, x: string, s: State)
    requires IsPair(b, held, free, x) && StateValid(b, s) && s.intents == map[]
    requires Stage(s, held, free, x, Cut(4, ZERO), Some(0), Some(20), ZERO, ZERO, map[], 5)
    ensures Trailing(b, s, 3) == {held, free} && InTime(b, s, Instant(3, 0))
    ensures Invoked(b, s, {held, free}, Instant(3, 0), AdvancePhase).Some?
    ensures Stage(Merged(Invoked(b, s, {held, free}, Instant(3, 0), AdvancePhase).value, Instant(3, 0)), held, free, x,
      Cut(6, Instant(3, 0)), Some(0), Some(20), Instant(3, 0), Instant(3, 0), map[], 5)
  {
    PairSafe(b, s, held, free, x, 3);
    assert Trailing(b, s, 3) == {held, free};
    assert Scheduled(b, s, {held, free}, Instant(3, 0), AdvancePhase);
    InvokedCalls(b, s, {held, free}, Instant(3, 0), AdvancePhase);
  }

  /** Everyone advances to three, where the free partition sends itself a message; nothing is due for boundary
      control. */
  function Advanced(held: string, free: string): seq<Record> {
    Opening(held, free) + Wave({held, free}, Instant(3, 0), AdvancePhase, [Emit(free, Instant(3, 0), 0)])
  }

  /** The free partition reacts to its message; at the poll after that a cancellation is granted, and three is
      sealed. */
  function DisturbedStory(held: string, free: string): seq<Record> {
    Advanced(held, free) + Wave({free}, Instant(3, 1), ReactPhase, []) + [Cancellation(free, true)]
    + [Seal(Instant(3, 1), 3)]
  }

  lemma AllSend(b: Pinned, w: World, held: string, free: string, x: string) returns (s: State)
    requires IsPair(b, held, free, x) && w == PairWorld(3, free)
    ensures Reaches(b, w, Bound(b, map[x := 5]), Advanced(held, free), s) && s.intents == map[]
    ensures Stage(s, held, free, x, Cut(6, Instant(3, 0)), Some(0), Some(20), Instant(3, 0), Instant(3, 0),
      map[0 := WorkItem(free, Instant(3, 1))], 5)
  {
    var begun := Opens(b, w, held, free, x, 3, free);
    s := AllGo(b, w, held, free, x, begun);
    assert Proposals(w, 5) == [Emit(free, Instant(3, 0), 0)];
    ChainWave(b, w, Bound(b, map[x := 5]), Opening(held, free), begun, {held, free}, Instant(3, 0), AdvancePhase,
              [Emit(free, Instant(3, 0), 0)], s);
  }

  /** The wave to three and what it leaves. */
  lemma AllGo(b: Pinned, w: World, held: string, free: string, x: string, s: State) returns (next: State)
    requires IsPair(b, held, free, x) && w == PairWorld(3, free) && StateValid(b, s) && s.intents == map[]
    requires Stage(s, held, free, x, Cut(4, ZERO), Some(0), Some(20), ZERO, ZERO, map[], 5)
    ensures OwnSelection(b, w, s, {held, free}, Instant(3, 0), AdvancePhase) && InTime(b, s, Instant(3, 0))
    ensures Invoked(b, s, {held, free}, Instant(3, 0), AdvancePhase).Some?
    ensures Effected(b, Merged(Invoked(b, s, {held, free}, Instant(3, 0), AdvancePhase).value, Instant(3, 0)),
      Instant(3, 0), [Emit(free, Instant(3, 0), 0)]) == Some(next)
    ensures Stage(next, held, free, x, Cut(6, Instant(3, 0)), Some(0), Some(20), Instant(3, 0), Instant(3, 0),
      map[0 := WorkItem(free, Instant(3, 1))], 5)
  {
    Aims(w, s, held, free, x, 3, free);
    AllAdvance(b, held, free, x, s);
    var merged := Merged(Invoked(b, s, {held, free}, Instant(3, 0), AdvancePhase).value, Instant(3, 0));
    Sends(b, merged, Instant(3, 0), free);
    next := merged.(work := map[0 := WorkItem(free, Instant(3, 1))], arrivals := 1);
    assert 0 in next.work;
  }

  /** Everyone stands at three and nothing is pending: the loop has looked for what is due. */
  lemma SweepsThree(b: Pinned, w: World, start: State, journal: seq<Record>, s: State, held: string, free: string,
                    x: string)
    requires IsPair(b, held, free, x) && Reaches(b, w, start, journal, s)
    requires Stage(s, held, free, x, Cut(6, Instant(3, 0)), Some(0), Some(20), Instant(3, 0), Instant(3, 0),
      map[0 := WorkItem(free, Instant(3, 1))], 5)
    ensures SweptBy(b, start, journal, 3)
  {
    StandsThree(b, s, held, free, x);
  }

  lemma StandsThree(b: Pinned, s: State, held: string, free: string, x: string)
    requires IsPair(b, held, free, x) && StateValid(b, s)
    requires Stage(s, held, free, x, Cut(6, Instant(3, 0)), Some(0), Some(20), Instant(3, 0), Instant(3, 0),
      map[0 := WorkItem(free, Instant(3, 1))], 5)
    ensures Standing(b, s, 3) && NoLate(s, 3)
  {
    PairSafe(b, s, held, free, x, 3);
  }

  /** The message is the one thing settlement can run next. */
  lemma FreeReady(b: Pinned, held: string, free: string, x: string, s: State)
    requires IsPair(b, held, free, x) && StateValid(b, s)
    requires Stage(s, held, free, x, Cut(6, Instant(3, 0)), Some(0), Some(20), Instant(3, 0), Instant(3, 0),
      map[0 := WorkItem(free, Instant(3, 1))], 5)
    ensures Ready(b, s, Instant(3, 1)) == {free} && Planned(b, s, 3, ReactStep(Instant(3, 1)))
  {
    PairSafe(b, s, held, free, x, 3);
    assert s.work[0].eligible in SafeOrdinary(b, s, 3);
    assert Asks(b, s, 3, 1);
    assert s.work[0].recipient in Ready(b, s, Instant(3, 1));
  }

  lemma Reacts(b: Pinned, w: World, held: string, free: string, x: string, s: State)
    requires IsPair(b, held, free, x) && StateValid(b, s) && s.intents == map[]
    requires Stage(s, held, free, x, Cut(6, Instant(3, 0)), Some(0), Some(20), Instant(3, 0), Instant(3, 0),
      map[0 := WorkItem(free, Instant(3, 1))], 5)
    ensures OwnSelection(b, w, s, {free}, Instant(3, 1), ReactPhase) && InTime(b, s, Instant(3, 1))
    ensures Invoked(b, s, {free}, Instant(3, 1), ReactPhase).Some?
  {
    var at := Instant(3, 1);
    FreeReady(b, held, free, x, s);
    assert Preferred(Ready(b, s, at), b.cohorts, Lifecycle(b)) == {free};
    assert Chosen(b, s, at, {free});
    CallsGranted(b, s, {free}, at, ReactPhase);
  }

  /** After it everyone stands settled at three, with zero sealed. */
  ghost predicate AtThree(s: State, held: string, free: string, x: string) {
    && s.cut.instant == Instant(3, 1) && s.sealed == Some(0) && s.intents == map[] && s.work == map[]
    && s.timers == map[] && s.watermarks == map[x := 5] && s.frontiers.Keys == {held, free} && !s.faulted
    && forall p :: p in s.frontiers ==> s.frontiers[p].logical.ns == 3
  }

  lemma Reacted(b: Pinned, held: string, free: string, x: string, s: State)
    requires IsPair(b, held, free, x) && StateValid(b, s) && s.intents == map[]
    requires Stage(s, held, free, x, Cut(6, Instant(3, 0)), Some(0), Some(20), Instant(3, 0), Instant(3, 0),
      map[0 := WorkItem(free, Instant(3, 1))], 5)
    requires InTime(b, s, Instant(3, 1)) && Invoked(b, s, {free}, Instant(3, 1), ReactPhase).Some?
    ensures var merged := Merged(Invoked(b, s, {free}, Instant(3, 1), ReactPhase).value, Instant(3, 1));
      && merged.cut.index == 8 && AtThree(merged, held, free, x)
      && Effected(b, merged, Instant(3, 1), []) == Some(merged)
  {
    InvokedCalls(b, s, {free}, Instant(3, 1), ReactPhase);
    assert Undispatched(s, {free}, Instant(3, 1), ReactPhase) == map[];
  }

  lemma ThreeSettled(b: Pinned, w: World, held: string, free: string, x: string) returns (s: State)
    requires IsPair(b, held, free, x) && w == PairWorld(3, free)
    ensures Reaches(b, w, Bound(b, map[x := 5]), Advanced(held, free) + Wave({free}, Instant(3, 1), ReactPhase, []), s)
    ensures s.cut.index == 8 && AtThree(s, held, free, x)
    ensures SweptBy(b, Bound(b, map[x := 5]), Advanced(held, free), 3)
  {
    var advanced := AllSend(b, w, held, free, x);
    SweepsThree(b, w, Bound(b, map[x := 5]), Advanced(held, free), advanced, held, free, x);
    s := ThreeReacts(b, w, Bound(b, map[x := 5]), Advanced(held, free), held, free, x, advanced);
  }

  lemma ThreeReacts(b: Pinned, w: World, start: State, journal: seq<Record>, held: string, free: string, x: string,
                    advanced: State) returns (s: State)
    requires IsPair(b, held, free, x) && w == PairWorld(3, free) && Reaches(b, w, start, journal, advanced)
    requires StateValid(b, advanced) && advanced.intents == map[]
    requires Stage(advanced, held, free, x, Cut(6, Instant(3, 0)), Some(0), Some(20), Instant(3, 0), Instant(3, 0),
      map[0 := WorkItem(free, Instant(3, 1))], 5)
    ensures Reaches(b, w, start, journal + Wave({free}, Instant(3, 1), ReactPhase, []), s)
    ensures s.cut.index == 8 && AtThree(s, held, free, x)
  {
    var at := Instant(3, 1);
    Reacts(b, w, held, free, x, advanced);
    Reacted(b, held, free, x, advanced);
    s := Merged(Invoked(b, advanced, {free}, at, ReactPhase).value, at);
    assert Proposals(w, 7) == [];
    ChainWave(b, w, start, journal, advanced, {free}, at, ReactPhase, [], s);
  }

  /** The live loop may write a journal that the replayer rejects, at its last seal. */
  lemma DisturbedReached(b: Pinned, held: string, free: string, x: string) returns (s: State)
    requires IsPair(b, held, free, x)
    ensures StateValid(b, Bound(b, map[x := 5])) && Fresh(Bound(b, map[x := 5]))
    ensures Live(b, PairWorld(3, free), Bound(b, map[x := 5]), DisturbedStory(held, free), s) && s.sealed == Some(3)
    ensures ReplayAll(b, Bound(b, map[x := 5]), DisturbedStory(held, free)) == None
  {
    var w, start := PairWorld(3, free), Bound(b, map[x := 5]);
    var settled := ThreeSettled(b, w, held, free, x);
    var journal := Advanced(held, free) + Wave({free}, Instant(3, 1), ReactPhase, []);
    s := CancelsThenSeals(b, w, held, free, x, start, journal, Advanced(held, free), settled);
    ReplaysFromBound(b, w, held, free, x, DisturbedStory(held, free), s);
  }

  /** After a granted cancellation the seal is live and disturbed. */
  lemma CancelsThenSeals(b: Pinned, w: World, held: string, free: string, x: string, start: State, journal: seq<Record>,
                         prefix: seq<Record>, t: State) returns (s: State)
    requires IsPair(b, held, free, x) && Reaches(b, w, start, journal, t) && AtThree(t, held, free, x)
    requires t.cut.index == 8 && prefix <= journal && SweptBy(b, start, prefix, 3) && Bounds(w, 9) == []
    ensures Live(b, w, start, journal + [Cancellation(free, true)] + [Seal(Instant(3, 1), 3)], s)
    ensures !Undisturbed(journal + [Cancellation(free, true)] + [Seal(Instant(3, 1), 3)]) && s.sealed == Some(3)
  {
    var cancellation, seal := Cancellation(free, true), Seal(Instant(3, 1), 3);
    var canceled, before := CancelReserved(b, t, free, true).value, journal + [cancellation];
    Adds(b, w, start, journal, t, cancellation, canceled);
    s := Sealed(canceled, 3);
    SealsThree(b, w, held, free, x, start, before, canceled, prefix);
    CalmMore(before, seal);
  }

  lemma SealsThree(b: Pinned, w: World, held: string, free: string, x: string, start: State, journal: seq<Record>,
                   s: State, prefix: seq<Record>)
    requires IsPair(b, held, free, x) && StateValid(b, start) && StateValid(b, s) && Live(b, w, start, journal, s)
    requires AtThree(s, held, free, x) && Undisturbed(journal) && prefix <= journal && SweptBy(b, start, prefix, 3)
    requires s.cut.index == 9 && Bounds(w, 9) == []
    ensures Live(b, w, start, journal + [Seal(Instant(3, 1), 3)], Sealed(s, 3))
  {
    SettledThree(b, held, free, x, s);
    LiveMore(b, w, start, journal, s, Seal(Instant(3, 1), 3), Sealed(s, 3));
  }

  lemma SettledThree(b: Pinned, held: string, free: string, x: string, s: State)
    requires IsPair(b, held, free, x) && StateValid(b, s) && AtThree(s, held, free, x)
    ensures LiveNext(b, s, Seal(Instant(3, 1), 3)) == Some(Sealed(s, 3))
  {
    PairSafe(b, s, held, free, x, 3);
    assert SealedFrom(b, s, 3);
  }

  /** There are such bindings. */
  lemma PairExists()
    ensures exists b, held, free, x :: IsPair(b, held, free, x)
  {
    var spec := Spec(Timing(Des, None, 0, true, false), true, false, None, 0);
    var b := Pinned(map["held" := spec, "free" := spec], [], true, false, map["held" := {"x"}, "free" := {}],
                    map["x" := 0], 8);
    assert "held" in b.partitions;
    assert IsPair(b, "held", "free", "x");
  }
}
