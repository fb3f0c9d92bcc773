/** The bitemporal store: lifetimes, fact versions and relation versions, read at a knowledge cut. */
module Ledger {
  import opened FactVersions
  import opened Ids
  import opened RelationGraph
  import opened RelationTables
  import opened Time
  import opened Timers
  import opened VersionSweep

  datatype Life = Life(created: Cut, removed: Option<Cut>)

  datatype FieldKey = FieldKey(ref: EntityRef, field: string)

  datatype Store = Store(
    registry: map<string, Descriptor>,
    cuts: seq<Cut>,
    lives: map<EntityRef, Life>,
    liveIds: map<string, EntityRef>,
    generations: map<string, nat>,
    writers: map<FieldKey, string>,
    facts: map<FieldKey, seq<Version>>,
    edges: Table,
    obligations: Table,
    timers: Timers)

  datatype Code =
    | CutCode | EntityUnknown | FieldInactive | EntityStale
    | CreateDuplicate | CreateRemove | Generation
    | WriteFrozen | FieldOwner | FactDuplicate | ProvisionalCreate
    | DuplicateMutation(kind: Kind) | IdReuse(kind: Kind) | Unidentified(kind: Kind) | StaleView(kind: Kind)
    | AlreadyEnded(kind: Kind) | NotStarted(kind: Kind) | AlreadyStarted(kind: Kind) | UncreatedEndpoint(kind: Kind)
    | RelationUnknown | ObligationDirection | ObligationBackdate | RelationLifetime | RelationIntegrity
    | TimerSchedule | TimerCancel

  datatype Answer<+T> = Answered(value: T) | Refused(code: Code)

  datatype Reading = Present(fact: Version) | Absent

  predicate Issued(s: Store, cut: Cut) {
    cut.index < |s.cuts| && s.cuts[cut.index] == cut
  }

  function Known(s: Store, ref: EntityRef, cut: Cut): Answer<Life> {
    if !Issued(s, cut) then Refused(CutCode)
    else if ref in s.lives && s.lives[ref].created.index <= cut.index then Answered(s.lives[ref])
    else Refused(EntityUnknown)
  }

  /** A removal is seen only from the cuts that know it. */
  predicate RemovedBy(life: Life, cut: Cut, at: Instant, left: bool) {
    && life.removed.Some? && life.removed.value.index <= cut.index
    && (if left then Less(life.removed.value.instant, at) else AtMost(life.removed.value.instant, at))
  }

  function Alive(s: Store, ref: EntityRef, cut: Cut, at: Instant): Answer<bool> {
    match Known(s, ref, cut)
    case Refused(code) => Refused(code)
    case Answered(life) => Answered(AtMost(life.created.instant, at) && !RemovedBy(life, cut, at, false))
  }

  function VersionsOf(s: Store, key: FieldKey): seq<Version> {
    if key in s.facts then s.facts[key] else []
  }

  /** The greatest version known at the record index that covers the instant (or its open left side), or -1. */
  function Newest(versions: seq<Version>, at: Instant, recordIndex: nat, left: bool): (index: int)
    ensures -1 <= index < |versions|
  {
    if versions == [] then -1
    else
      var last := |versions| - 1;
      if versions[last].ref.recordIndex <= recordIndex && Covers(versions[last].valid, at, left) then last
      else Newest(versions[..last], at, recordIndex, left)
  }

  function ReadingOf(versions: seq<Version>, index: int): Reading
    requires index < |versions|
  {
    if index < 0 || versions[index].Retraction? then Absent else Present(versions[index])
  }

  function Field(s: Store, key: FieldKey, at: Instant, cut: Cut): Answer<Reading> {
    if key !in s.writers then
      match Known(s, key.ref, cut)
      case Refused(code) => Refused(code)
      case Answered(_) => Refused(FieldInactive)
    else
      match Alive(s, key.ref, cut, at)
      case Refused(code) => Refused(code)
      case Answered(alive) =>
        Answered(if alive then ReadingOf(VersionsOf(s, key), Newest(VersionsOf(s, key), at, cut.index, false))
          else Absent)
  }

  /** The effective value on the open left side of a boundary. */
  function FieldBefore(s: Store, key: FieldKey, boundary: Instant, cut: Cut): Answer<Reading> {
    match Known(s, key.ref, cut)
    case Refused(code) => Refused(code)
    case Answered(life) =>
      Answered(
        if AtMost(boundary, life.created.instant) || RemovedBy(life, cut, boundary, true) then Absent
        else ReadingOf(VersionsOf(s, key), Newest(VersionsOf(s, key), boundary, cut.index, true)))
  }

  predicate Intersects(valid: Interval, start: Instant, end: Instant) {
    Less(valid.start, end) && (valid.end.None? || Less(start, valid.end.value))
  }

  /** The versions known at the record index that intersect an interval, in recording order. */
  function Overlapping(versions: seq<Version>, lo: Instant, hi: Instant, recordIndex: nat): seq<Version> {
    if versions == [] then []
    else
      var last := versions[|versions| - 1];
      Overlapping(versions[..|versions| - 1], lo, hi, recordIndex)
      + (if last.ref.recordIndex <= recordIndex && Intersects(last.valid, lo, hi) then [last] else [])
  }

  function History(s: Store, key: FieldKey, start: Instant, end: Instant, cut: Cut): Answer<seq<Version>> {
    match Known(s, key.ref, cut)
    case Refused(code) => Refused(code)
    case Answered(life) =>
      if key !in s.writers then Refused(FieldInactive)
      else
        var lo := Later(start, life.created.instant);
        var hi := if life.removed.Some? && life.removed.value.index <= cut.index
          && Less(life.removed.value.instant, end)
          then life.removed.value.instant else end;
        Answered(if AtMost(hi, lo) then [] else Overlapping(VersionsOf(s, key), lo, hi, cut.index))
  }

  /** The indexed lookup of `FactVersions.Select` and this scan give the same index. */
  lemma {:induction false} SelectIsNewest(versions: seq<Version>, at: Instant, recordIndex: nat, left: bool, index: int)
    ensures GreatestKnown(versions, at, recordIndex, left, index) <==> index == Newest(versions, at, recordIndex, left)
  {
    if versions != [] {
      var last := |versions| - 1;
      var shorter := versions[..last];
      if !(versions[last].ref.recordIndex <= recordIndex && Covers(versions[last].valid, at, left)) {
        SelectIsNewest(shorter, at, recordIndex, left, index);
        assert forall i :: 0 <= i < last ==> shorter[i] == versions[i];
        assert GreatestKnown(shorter, at, recordIndex, left, index) <==>
          GreatestKnown(versions, at, recordIndex, left, index);
      }
    }
  }

  /** Cut instants never decrease and cuts carry their own positions. */
  ghost predicate Journaled(cuts: seq<Cut>) {
    && cuts != [] && cuts[0] == Cut(0, Instant(0, 0))
    && (forall i :: 0 <= i < |cuts| ==> cuts[i].index == i)
    && (forall i, j :: 0 <= i <= j < |cuts| ==> AtMost(cuts[i].instant, cuts[j].instant))
  }

  /** The newest prefix no later than a physical time and an explicit cap. */
  ghost predicate IsCutAt(cuts: seq<Cut>, ns: nat, cap: Cut, found: Cut) {
    && found.index <= cap.index < |cuts| && cuts[found.index] == found && found.instant.ns <= ns
    && forall i :: found.index < i <= cap.index ==> cuts[i].instant.ns > ns
  }

  method CutAt(s: Store, ns: nat, cap: Cut) returns (found: Cut)
    requires Journaled(s.cuts) && Issued(s, cap)
    ensures IsCutAt(s.cuts, ns, cap, found)
  {
    var low, high := 0, cap.index + 1;
    while low < high
      invariant 0 <= low <= high <= cap.index + 1
      invariant forall i :: 0 <= i < low ==> s.cuts[i].instant.ns <= ns
      invariant forall i :: high <= i <= cap.index ==> s.cuts[i].instant.ns > ns
    {
      var middle := (low + high) / 2;
      if s.cuts[middle].instant.ns <= ns {
        low := middle + 1;
      } else {
        high := middle;
      }
    }
    found := s.cuts[low - 1];
  }

  function LastCut(s: Store): Cut
    requires s.cuts != []
  {
    s.cuts[|s.cuts| - 1]
  }

  // ---- what a later state may add ----

  ghost predicate LifeGrows(a: Life, b: Life, bound: nat) {
    && b.created == a.created
    && (b.removed == a.removed || (a.removed.None? && b.removed.value.index >= bound))
  }

  /** Lifetimes only begin, and only end once, at records from `bound` on. */
  ghost predicate LivesGrow(a: map<EntityRef, Life>, b: map<EntityRef, Life>, bound: nat) {
    && (forall ref :: ref in a ==> ref in b && LifeGrows(a[ref], b[ref], bound))
    && (forall ref :: ref in b && ref !in a ==> b[ref].created.index >= bound)
  }

  ghost predicate WritersGrow(a: Store, b: Store) {
    && (forall key :: key in a.writers ==> key in b.writers && b.writers[key] == a.writers[key])
    && (forall key :: key in b.writers && key !in a.writers ==> key.ref !in a.lives)
  }

  /** Versions are only appended, at records from `bound` on. */
  ghost predicate FactsGrow(a: seq<Version>, b: seq<Version>, bound: nat) {
    && a <= b
    && forall i :: |a| <= i < |b| ==> b[i].ref.recordIndex >= bound
  }

  ghost predicate LineGrows(a: seq<Entry>, b: seq<Entry>, bound: nat) {
    && a <= b
    && forall i :: |a| <= i < |b| ==> b[i].Version().recordIndex >= bound
  }

  function LineOf(t: Table, id: string): seq<Entry> {
    if id in t.versions then t.versions[id] else []
  }

  ghost predicate TableGrows(a: Table, b: Table, bound: nat) {
    forall id :: LineGrows(LineOf(a, id), LineOf(b, id), bound)
  }

  ghost predicate Grows(a: Store, b: Store, bound: nat) {
    && a.registry == b.registry
    && LivesGrow(a.lives, b.lives, bound) && WritersGrow(a, b)
    && (forall key :: FactsGrow(VersionsOf(a, key), VersionsOf(b, key), bound))
    && TableGrows(a.edges, b.edges, bound) && TableGrows(a.obligations, b.obligations, bound)
  }

  /** `b` is a later state of the same run: the journal of `a` is a prefix, and what was added is stamped
      with records `a` had not issued. */
  ghost predicate Extends(a: Store, b: Store) {
    a.cuts <= b.cuts && Grows(a, b, |a.cuts|)
  }

  lemma GrowsTransitive(a: Store, b: Store, c: Store, bound: nat)
    requires Grows(a, b, bound) && Grows(b, c, bound)
    ensures Grows(a, c, bound)
  {
    forall key ensures FactsGrow(VersionsOf(a, key), VersionsOf(c, key), bound) {
      assert FactsGrow(VersionsOf(a, key), VersionsOf(b, key), bound)
        && FactsGrow(VersionsOf(b, key), VersionsOf(c, key), bound);
    }
    TableGrowsTransitive(a.edges, b.edges, c.edges, bound);
    TableGrowsTransitive(a.obligations, b.obligations, c.obligations, bound);
  }

  lemma TableGrowsTransitive(a: Table, b: Table, c: Table, bound: nat)
    requires TableGrows(a, b, bound) && TableGrows(b, c, bound)
    ensures TableGrows(a, c, bound)
  {
    forall id ensures LineGrows(LineOf(a, id), LineOf(c, id), bound) {
      assert LineGrows(LineOf(a, id), LineOf(b, id), bound) && LineGrows(LineOf(b, id), LineOf(c, id), bound);
    }
  }

  lemma GrowsWeaker(a: Store, b: Store, bound: nat, lower: nat)
    requires Grows(a, b, bound) && lower <= bound
    ensures Grows(a, b, lower)
  {
    forall key ensures FactsGrow(VersionsOf(a, key), VersionsOf(b, key), lower) {
      assert FactsGrow(VersionsOf(a, key), VersionsOf(b, key), bound);
    }
    forall id ensures LineGrows(LineOf(a.edges, id), LineOf(b.edges, id), lower) {
      assert LineGrows(LineOf(a.edges, id), LineOf(b.edges, id), bound);
    }
    forall id ensures LineGrows(LineOf(a.obligations, id), LineOf(b.obligations, id), lower) {
      assert LineGrows(LineOf(a.obligations, id), LineOf(b.obligations, id), bound);
    }
  }

  lemma ExtendsTransitive(a: Store, b: Store, c: Store)
    requires Extends(a, b) && Extends(b, c)
    ensures Extends(a, c)
  {
    GrowsWeaker(b, c, |b.cuts|, |a.cuts|);
    GrowsTransitive(a, b, c, |a.cuts|);
  }

  // ---- knowledge stability ----

  /** Versions recorded after the cut do not reach a lookup at it. */
  lemma {:induction false} NewestKept(a: seq<Version>, b: seq<Version>, bound: nat, at: Instant, recordIndex: nat,
                                      left: bool)
    requires FactsGrow(a, b, bound) && recordIndex < bound
    ensures Newest(b, at, recordIndex, left) == Newest(a, at, recordIndex, left)
    ensures ReadingOf(b, Newest(b, at, recordIndex, left)) == ReadingOf(a, Newest(a, at, recordIndex, left))
    decreases |b|
  {
    if |a| < |b| {
      NewestKept(a, b[..|b| - 1], bound, at, recordIndex, left);
    } else {
      assert a == b;
    }
  }

  lemma {:induction false} OverlappingKept(a: seq<Version>, b: seq<Version>, bound: nat, lo: Instant, hi: Instant,
                                           recordIndex: nat)
    requires FactsGrow(a, b, bound) && recordIndex < bound
    ensures Overlapping(b, lo, hi, recordIndex) == Overlapping(a, lo, hi, recordIndex)
    decreases |b|
  {
    if |a| < |b| {
      OverlappingKept(a, b[..|b| - 1], bound, lo, hi, recordIndex);
    } else {
      assert a == b;
    }
  }

  lemma {:induction false} LatestKept(a: seq<Entry>, b: seq<Entry>, bound: nat, recordIndex: nat)
    requires LineGrows(a, b, bound) && recordIndex < bound
    ensures LatestAt(b, recordIndex) == LatestAt(a, recordIndex)
    decreases |b|
  {
    if |a| < |b| {
      LatestKept(a, b[..|b| - 1], bound, recordIndex);
    } else {
      assert a == b;
    }
  }

  /** What a reader at a cut of `a` learns about one generation and field, in all the ways it can ask. */
  lemma KnowledgeStable(a: Store, b: Store, cut: Cut, key: FieldKey, at: Instant)
    requires Extends(a, b) && Issued(a, cut)
    ensures Issued(b, cut)
    ensures Alive(b, key.ref, cut, at) == Alive(a, key.ref, cut, at)
    ensures Field(b, key, at, cut) == Field(a, key, at, cut)
    ensures FieldBefore(b, key, at, cut) == FieldBefore(a, key, at, cut)
  {
    assert FactsGrow(VersionsOf(a, key), VersionsOf(b, key), |a.cuts|);
    NewestKept(VersionsOf(a, key), VersionsOf(b, key), |a.cuts|, at, cut.index, false);
    NewestKept(VersionsOf(a, key), VersionsOf(b, key), |a.cuts|, at, cut.index, true);
  }

  lemma HistoryStable(a: Store, b: Store, cut: Cut, key: FieldKey, start: Instant, end: Instant)
    requires Extends(a, b) && Issued(a, cut)
    ensures History(b, key, start, end, cut) == History(a, key, start, end, cut)
  {
    assert FactsGrow(VersionsOf(a, key), VersionsOf(b, key), |a.cuts|);
    forall lo, hi
      ensures Overlapping(VersionsOf(b, key), lo, hi, cut.index) == Overlapping(VersionsOf(a, key), lo, hi, cut.index)
    {
      OverlappingKept(VersionsOf(a, key), VersionsOf(b, key), |a.cuts|, lo, hi, cut.index);
    }
  }

  lemma RelationsStable(a: Store, b: Store, cut: Cut, id: string)
    requires Extends(a, b) && Issued(a, cut)
    ensures EntryAt(b.edges, id, cut.index) == EntryAt(a.edges, id, cut.index)
    ensures EntryAt(b.obligations, id, cut.index) == EntryAt(a.obligations, id, cut.index)
  {
    assert LineGrows(LineOf(a.edges, id), LineOf(b.edges, id), |a.cuts|);
    assert LineGrows(LineOf(a.obligations, id), LineOf(b.obligations, id), |a.cuts|);
    LatestKept(LineOf(a.edges, id), LineOf(b.edges, id), |a.cuts|, cut.index);
    LatestKept(LineOf(a.obligations, id), LineOf(b.obligations, id), |a.cuts|, cut.index);
  }

  /** A prefix found by time stays the one found, capped by the same cut. */
  lemma CutStable(a: Store, b: Store, ns: nat, cap: Cut, found: Cut)
    requires Extends(a, b) && Issued(a, cap)
    ensures IsCutAt(a.cuts, ns, cap, found) <==> IsCutAt(b.cuts, ns, cap, found)
  {
    assert forall i :: 0 <= i < |a.cuts| ==> b.cuts[i] == a.cuts[i];
  }
}
