/** The invariant of a candidate under construction, and the step lemma of each kind of operation. */
module Building {
  import opened FactVersions
  import opened Ids
  import opened Ledger
  import opened RelationGraph
  import opened RelationTables
  import opened Soundness
  import opened Time
  import opened Timers
  import opened Transactions

  /** The bookkeeping of one candidate. */
  datatype Marks = Marks(
    creating: set<string>, removing: set<EntityRef>, mutated: set<(Kind, string)>, affected: set<string>)

  function Mutated(m: Marks, kind: Kind, id: string, relation: string): Marks {
    m.(mutated := m.mutated + {(kind, id)}, affected := m.affected + {relation})
  }

  ghost predicate InProgress(before: Store, s: Store, instant: Instant, index: nat, m: Marks) {
    && Sound(before) && index == |before.cuts| && AtMost(LastCut(before).instant, instant)
    && s.cuts == before.cuts
    && Consistent(s, index + 1, instant)
    && Grows(before, s, index)
    && LivesTouched(before, s, index, m.creating, m.removing)
    && RelationsTouched(before, s, m.mutated, m.affected)
  }

  lemma Opened(before: Store, instant: Instant, removing: set<EntityRef>)
    requires Sound(before) && AtMost(LastCut(before).instant, instant)
    ensures InProgress(before, before, instant, |before.cuts|, Marks({}, removing, {}, {}))
  {
    ConsistentLater(before, |before.cuts|, LastCut(before).instant, instant);
    forall ref | ref in before.lives
      ensures before.lives[ref].created.index != |before.cuts|
      ensures before.lives[ref].removed.Some? ==> before.lives[ref].removed.value.index != |before.cuts|
    {
      assert LifeWithin(before.lives[ref], |before.cuts|, LastCut(before).instant);
    }
  }

  /** What the marks say about relations depends on the tables only, what they say about lives on the lives. */
  lemma MarksKept(before: Store, s: Store, t: Store, index: nat, m: Marks)
    ensures t.edges == s.edges && t.obligations == s.obligations ==>
      (RelationsTouched(before, s, m.mutated, m.affected) ==> RelationsTouched(before, t, m.mutated, m.affected))
    ensures t.lives == s.lives && LivesTouched(before, s, index, m.creating, m.removing) ==>
      LivesTouched(before, t, index, m.creating, m.removing)
  {
  }

  // ---- lifetimes ----

  lemma TablesKept(s: Store, t: Store, bound: nat)
    requires TablesSound(s, bound) && t.registry == s.registry && s.lives.Keys <= t.lives.Keys
    requires t.edges == s.edges && t.obligations == s.obligations
    ensures TablesSound(t, bound)
  {
  }

  lemma CreateGrows(before: Store, s: Store, ref: EntityRef, fields: map<string, string>, cut: Cut)
    requires Grows(before, s, cut.index)
    requires ref !in s.lives && forall key :: key in s.writers ==> key.ref in s.lives
    ensures Grows(before, Created(s, ref, fields, cut), cut.index)
  {
    var t := Created(s, ref, fields, cut);
    assert forall key :: VersionsOf(t, key) == VersionsOf(s, key);
    assert LivesGrow(before.lives, t.lives, cut.index);
    assert WritersGrow(before, t);
  }

  lemma CreateStep(before: Store, s: Store, instant: Instant, index: nat, m: Marks, ref: EntityRef,
                   fields: map<string, string>)
    requires InProgress(before, s, instant, index, m)
    requires ref.id !in s.liveIds && ref.generation == NextGeneration(s, ref.id)
    requires forall r :: r in m.removing ==> r.id != ref.id
    ensures InProgress(before, Created(s, ref, fields, Cut(index, instant)), instant, index,
      m.(creating := m.creating + {ref.id}))
  {
    CreateConsistent(s, instant, index, ref, fields, m.removing, before, m.creating);
    CreateGrows(before, s, ref, fields, Cut(index, instant));
    CreateTouches(before, s, index, m.creating, m.removing, ref, fields, instant);
    MarksKept(before, s, Created(s, ref, fields, Cut(index, instant)), index, m);
  }

  lemma CreateConsistent(s: Store, instant: Instant, index: nat, ref: EntityRef, fields: map<string, string>,
                         removing: set<EntityRef>, before: Store, creating: set<string>)
    requires Consistent(s, index + 1, instant) && LivesTouched(before, s, index, creating, removing)
    requires ref.id !in s.liveIds && ref.generation == NextGeneration(s, ref.id)
    requires forall r :: r in removing ==> r.id != ref.id
    ensures Consistent(Created(s, ref, fields, Cut(index, instant)), index + 1, instant) && ref !in s.lives
  {
    assert LivesSound(Created(s, ref, fields, Cut(index, instant)), index + 1, instant) && ref !in s.lives by {
      RemovedEarlier(before, s, instant, index, creating, removing, ref);
      CreatedSound(s, ref, fields, index, instant);
    }
    TablesKept(s, Created(s, ref, fields, Cut(index, instant)), index + 1);
  }

  lemma RemovedEarlier(before: Store, s: Store, instant: Instant, index: nat, creating: set<string>,
                       removing: set<EntityRef>, ref: EntityRef)
    requires LivesSound(s, index + 1, instant) && LivesTouched(before, s, index, creating, removing)
    requires forall r :: r in removing ==> r.id != ref.id
    ensures forall r :: r in s.lives && r.id == ref.id && s.lives[r].removed.Some? ==>
      s.lives[r].removed.value.index < index
  {
    forall r | r in s.lives && r.id == ref.id && s.lives[r].removed.Some? ensures s.lives[r].removed.value.index < index
    {
      assert LifeWithin(s.lives[r], index + 1, instant);
    }
  }

  lemma CreateTouches(before: Store, s: Store, index: nat, creating: set<string>, removing: set<EntityRef>,
                      ref: EntityRef, fields: map<string, string>, instant: Instant)
    requires LivesTouched(before, s, index, creating, removing) && ref !in s.lives
      && LivesGrow(before.lives, s.lives, index)
    ensures LivesTouched(before, Created(s, ref, fields, Cut(index, instant)), index, creating + {ref.id}, removing)
  {
  }

  lemma RemoveStep(before: Store, s: Store, instant: Instant, index: nat, m: Marks, ref: EntityRef)
    requires InProgress(before, s, instant, index, m)
    requires ref in m.removing && ref.id !in m.creating && ref in s.lives && s.lives[ref].removed.None?
    ensures InProgress(before, Removed(s, ref, Cut(index, instant)), instant, index, m)
  {
    RemoveConsistent(s, instant, index, ref, m.removing, before, m.creating);
    RemoveGrows(before, s, ref, Cut(index, instant));
    RemoveTouches(before, s, index, m.creating, m.removing, ref, instant);
    MarksKept(before, s, Removed(s, ref, Cut(index, instant)), index, m);
  }

  lemma RemoveConsistent(s: Store, instant: Instant, index: nat, ref: EntityRef, removing: set<EntityRef>,
                         before: Store, creating: set<string>)
    requires Consistent(s, index + 1, instant) && LivesTouched(before, s, index, creating, removing)
    requires ref.id !in creating && ref in s.lives && s.lives[ref].removed.None?
    ensures Consistent(Removed(s, ref, Cut(index, instant)), index + 1, instant)
  {
    assert LifeWithin(s.lives[ref], index + 1, instant);
    RemovedSound(s, ref, index, instant);
    TablesKept(s, Removed(s, ref, Cut(index, instant)), index + 1);
  }

  lemma RemoveTouches(before: Store, s: Store, index: nat, creating: set<string>, removing: set<EntityRef>,
                      ref: EntityRef, instant: Instant)
    requires LivesTouched(before, s, index, creating, removing) && ref in s.lives && ref in removing
    ensures LivesTouched(before, Removed(s, ref, Cut(index, instant)), index, creating, removing)
  {
  }

  lemma RemoveGrows(before: Store, s: Store, ref: EntityRef, cut: Cut)
    requires Grows(before, s, cut.index) && ref in s.lives && s.lives[ref].removed.None?
    ensures Grows(before, Removed(s, ref, cut), cut.index)
  {
    var t := Removed(s, ref, cut);
    assert forall key :: VersionsOf(t, key) == VersionsOf(s, key);
    assert LivesGrow(before.lives, t.lives, cut.index);
  }

  // ---- facts ----

  lemma FactStep(before: Store, s: Store, instant: Instant, index: nat, m: Marks, key: FieldKey, version: Version,
                 timers: Timers)
    requires InProgress(before, s, instant, index, m)
    requires key in s.writers && version.ref.recordIndex == index && Agree(timers)
    requires forall k :: k in timers.active <==>
      k in s.timers.active || Arms(OfFact(version.ref), Some(version.valid), instant, k)
    ensures InProgress(before, Appended(s, key, version, timers), instant, index, m)
  {
    FactConsistent(s, instant, index, key, version, timers);
    FactGrows(before, s, key, version, timers, index);
    MarksKept(before, s, Appended(s, key, version, timers), index, m);
  }

  lemma FactConsistent(s: Store, instant: Instant, index: nat, key: FieldKey, version: Version, timers: Timers)
    requires Consistent(s, index + 1, instant) && key in s.writers && Agree(timers)
    requires forall k :: k in timers.active <==>
      k in s.timers.active || Arms(OfFact(version.ref), Some(version.valid), instant, k)
    ensures Consistent(Appended(s, key, version, timers), index + 1, instant)
  {
    AppendedCovered(s, key, version, timers, instant);
    DeadlinesAside(s.edges, EdgeKind, s.timers, timers, instant);
    DeadlinesAside(s.obligations, ObligationKind, s.timers, timers, instant);
    TablesKept(s, Appended(s, key, version, timers), index + 1);
  }

  lemma FactGrows(before: Store, s: Store, key: FieldKey, version: Version, timers: Timers, index: nat)
    requires Grows(before, s, index) && version.ref.recordIndex == index
    ensures Grows(before, Appended(s, key, version, timers), index)
  {
    var t := Appended(s, key, version, timers);
    forall k ensures FactsGrow(VersionsOf(before, k), VersionsOf(t, k), index) {
      assert FactsGrow(VersionsOf(before, k), VersionsOf(s, k), index);
    }
  }

  /** Relation deadlines do not change with timers of other subjects. */
  lemma DeadlinesAside(t: Table, kind: Kind, t0: Timers, t1: Timers, horizon: Instant)
    requires DeadlinesExact(t, kind, t0, horizon)
    requires forall id, version, at :: Less(horizon, at) ==>
      (BoundaryTimer(OfRelation(kind, id, version), at) in t1.active <==>
        BoundaryTimer(OfRelation(kind, id, version), at) in t0.active)
    ensures DeadlinesExact(t, kind, t1, horizon)
  {
    forall id, version, at | Less(horizon, at)
      ensures BoundaryTimer(OfRelation(kind, id, version), at) in t1.active <==>
        LatestBoundary(t, id, version, at, horizon)
    {
      assert BoundaryTimer(OfRelation(kind, id, version), at) in t1.active <==>
        BoundaryTimer(OfRelation(kind, id, version), at) in t0.active;
    }
  }

  // ---- timers ----

  /** Timers changed only where no boundary after the instant is concerned. */
  ghost predicate FutureKept(t0: Timers, t1: Timers, instant: Instant) {
    forall subject, at :: Less(instant, at) ==>
      (BoundaryTimer(subject, at) in t1.active <==> BoundaryTimer(subject, at) in t0.active)
  }

  lemma TimersStep(before: Store, s: Store, instant: Instant, index: nat, m: Marks, timers: Timers)
    requires InProgress(before, s, instant, index, m) && Agree(timers) && FutureKept(s.timers, timers, instant)
    ensures InProgress(before, s.(timers := timers), instant, index, m)
  {
    TimersConsistent(s, instant, index, timers);
    SameGrows(before, s, s.(timers := timers), index);
    MarksKept(before, s, s.(timers := timers), index, m);
  }

  lemma TimersConsistent(s: Store, instant: Instant, index: nat, timers: Timers)
    requires Consistent(s, index + 1, instant) && Agree(timers) && FutureKept(s.timers, timers, instant)
    ensures Consistent(s.(timers := timers), index + 1, instant)
  {
    DeadlinesAside(s.edges, EdgeKind, s.timers, timers, instant);
    DeadlinesAside(s.obligations, ObligationKind, s.timers, timers, instant);
    forall key, i, at | key in s.facts && 0 <= i < |s.facts[key]| && Due(Some(s.facts[key][i].valid), at, instant)
      ensures BoundaryTimer(OfFact(s.facts[key][i].ref), at) in timers.active
    {
      assert BoundaryTimer(OfFact(s.facts[key][i].ref), at) in s.timers.active;
    }
    TablesKept(s, s.(timers := timers), index + 1);
  }

  /** Growth concerns lives, writers, facts and relation tables only. */
  lemma SameGrows(before: Store, s: Store, t: Store, index: nat)
    requires Grows(before, s, index)
    requires t.registry == s.registry && t.lives == s.lives && t.writers == s.writers && t.facts == s.facts
    requires t.edges == s.edges && t.obligations == s.obligations
    ensures Grows(before, t, index)
  {
    assert forall key :: VersionsOf(t, key) == VersionsOf(s, key);
  }

  // ---- relations ----

  /** One identity's line got `entry` appended, with its deadlines following. */
  ghost predicate Extended(t: Table, r: Table, entry: Entry, t0: Timers, t1: Timers, instant: Instant) {
    && r.versions == t.versions[entry.Id() := LineOf(t, entry.Id()) + [entry]]
    && (Has(t, entry.Id()) ==> SameIdentity(Latest(t, entry.Id()), entry))
    && forall key :: key in t1.active <==>
      || (key in t0.active
          && !(Has(t, entry.Id()) && Arms(OfRelation(entry.Kind(), entry.Id(), Latest(t, entry.Id()).Version()),
                                          Latest(t, entry.Id()).Valid(), instant, key)))
      || Arms(entry.Watched(), entry.Valid(), instant, key)
  }

  lemma TableGrowsStep(t: Table, r: Table, entry: Entry, bound: nat)
    requires r.versions == t.versions[entry.Id() := LineOf(t, entry.Id()) + [entry]]
    requires entry.Version().recordIndex >= bound
    ensures TableGrows(t, r, bound)
  {
    forall id ensures LineGrows(LineOf(t, id), LineOf(r, id), bound) { }
  }

  lemma TouchedStep(a: Table, t: Table, r: Table, entry: Entry, mutated: set<(Kind, string)>, affected: set<string>)
    requires LinesTouched(a, t, entry.Kind(), mutated, affected) && (entry.Kind(), entry.Id()) !in mutated
    requires r.versions == t.versions[entry.Id() := LineOf(t, entry.Id()) + [entry]]
    requires Has(t, entry.Id()) ==> Latest(t, entry.Id()).RelationId() == entry.RelationId()
    ensures LinesTouched(a, r, entry.Kind(), mutated + {(entry.Kind(), entry.Id())}, affected + {entry.RelationId()})
  {
    assert LineOf(t, entry.Id()) == LineOf(a, entry.Id());
    assert Has(r, entry.Id()) && Latest(r, entry.Id()) == entry;
    assert forall id :: id != entry.Id() ==> LineOf(r, id) == LineOf(t, id);
    assert forall id :: id != entry.Id() && Has(r, id) ==> Has(t, id) && Latest(r, id) == Latest(t, id);
  }

  lemma TouchedMore(a: Table, b: Table, kind: Kind, mutated: set<(Kind, string)>, affected: set<string>,
                    more: set<(Kind, string)>, others: set<string>)
    requires LinesTouched(a, b, kind, mutated, affected) && mutated <= more && affected <= others
    ensures LinesTouched(a, b, kind, more, others)
  {
  }

  lemma RelationStep(before: Store, s: Store, instant: Instant, index: nat, m: Marks, r: Table, entry: Entry,
                     timers: Timers)
    requires InProgress(before, s, instant, index, m) && Agree(timers)
    requires TableSound(s, r, entry.Kind(), index + 1)
    requires Extended(TableOf(s, entry.Kind()), r, entry, s.timers, timers, instant)
    requires entry.Version().recordIndex == index && (entry.Kind(), entry.Id()) !in m.mutated
    requires Has(TableOf(s, entry.Kind()), entry.Id()) ==>
      Latest(TableOf(s, entry.Kind()), entry.Id()).Version() != entry.Version()
    ensures InProgress(before, WithTable(s, entry.Kind(), r, timers), instant, index,
      Mutated(m, entry.Kind(), entry.Id(), entry.RelationId()))
  {
    RelationConsistent(s, instant, index, r, entry, timers);
    RelationGrows(before, s, r, entry, timers, index);
    RelationTouches(before, s, m.mutated, m.affected, r, entry, timers);
    MarksKept(before, s, WithTable(s, entry.Kind(), r, timers), index, m);
  }

  lemma RelationConsistent(s: Store, instant: Instant, index: nat, r: Table, entry: Entry, timers: Timers)
    requires Consistent(s, index + 1, instant) && Agree(timers) && TableSound(s, r, entry.Kind(), index + 1)
    requires Extended(TableOf(s, entry.Kind()), r, entry, s.timers, timers, instant)
    requires Has(TableOf(s, entry.Kind()), entry.Id()) ==>
      Latest(TableOf(s, entry.Kind()), entry.Id()).Version() != entry.Version()
    ensures Consistent(WithTable(s, entry.Kind(), r, timers), index + 1, instant)
  {
    RelationDeadlines(s.facts, TableOf(s, entry.Kind()), TableOf(s, Other(entry.Kind())), r, entry, s.timers, timers,
      instant);
    ReplacedTables(s, r, entry.Kind(), timers, index + 1);
  }

  lemma ReplacedTables(s: Store, r: Table, kind: Kind, timers: Timers, bound: nat)
    requires TablesSound(s, bound) && TableSound(s, r, kind, bound)
    ensures TablesSound(WithTable(s, kind, r, timers), bound)
  {
  }

  lemma RelationTouches(before: Store, s: Store, mutated: set<(Kind, string)>, affected: set<string>, r: Table,
                        entry: Entry, timers: Timers)
    requires RelationsTouched(before, s, mutated, affected) && (entry.Kind(), entry.Id()) !in mutated
    requires r.versions ==
      TableOf(s, entry.Kind()).versions[entry.Id() := LineOf(TableOf(s, entry.Kind()), entry.Id()) + [entry]]
    requires Has(TableOf(s, entry.Kind()), entry.Id()) ==>
      Latest(TableOf(s, entry.Kind()), entry.Id()).RelationId() == entry.RelationId()
    ensures RelationsTouched(before, WithTable(s, entry.Kind(), r, timers), mutated + {(entry.Kind(), entry.Id())},
      affected + {entry.RelationId()})
  {
    var kind := entry.Kind();
    TouchedStep(TableOf(before, kind), TableOf(s, kind), r, entry, mutated, affected);
    TouchedMore(TableOf(before, Other(kind)), TableOf(s, Other(kind)), Other(kind), mutated, affected,
                mutated + {(kind, entry.Id())}, affected + {entry.RelationId()});
  }

  lemma RelationDeadlines(facts: map<FieldKey, seq<Version>>, t: Table, other: Table, r: Table, entry: Entry,
                          t0: Timers, t1: Timers, instant: Instant)
    requires Extended(t, r, entry, t0, t1, instant)
    requires Has(t, entry.Id()) ==> Latest(t, entry.Id()).Version() != entry.Version()
    requires DeadlinesExact(t, entry.Kind(), t0, instant) && DeadlinesExact(other, Other(entry.Kind()), t0, instant)
    requires Covered(facts, t0, instant)
    ensures DeadlinesExact(r, entry.Kind(), t1, instant) && DeadlinesExact(other, Other(entry.Kind()), t1, instant)
    ensures Covered(facts, t1, instant)
  {
    OthersKept(t, r, entry);
    DeadlinesFollow(t, r, entry.Kind(), entry, t0, t1, instant);
    OthersCovered(facts, other, entry.Kind(), Other(entry.Kind()), t0, t1, instant);
  }

  lemma RelationGrows(before: Store, s: Store, r: Table, entry: Entry, timers: Timers, index: nat)
    requires Grows(before, s, index)
    requires r.versions ==
      TableOf(s, entry.Kind()).versions[entry.Id() := LineOf(TableOf(s, entry.Kind()), entry.Id()) + [entry]]
    requires entry.Version().recordIndex == index
    ensures Grows(before, WithTable(s, entry.Kind(), r, timers), index)
  {
    var kind, next := entry.Kind(), WithTable(s, entry.Kind(), r, timers);
    TableGrowsStep(TableOf(s, kind), r, entry, index);
    TableGrowsTransitive(TableOf(before, kind), TableOf(s, kind), r, index);
    assert forall key :: VersionsOf(next, key) == VersionsOf(s, key);
  }

  // ---- commit ----

  function Committed(s: Store, instant: Instant): Store {
    s.(cuts := s.cuts + [Cut(|s.cuts|, instant)])
  }

  lemma CommitStep(before: Store, s: Store, instant: Instant, index: nat, m: Marks)
    requires InProgress(before, s, instant, index, m) && RelationsSound(s, index + 1)
    ensures Sound(Committed(s, instant)) && Extends(before, Committed(s, instant))
    ensures LastCut(Committed(s, instant)) == Cut(index, instant)
  {
    var t := Committed(s, instant);
    SameGrows(before, s, t, index);
    CommittedConsistent(s, instant, index);
    CommittedRelations(s, instant, index);
    CutsLater(s.cuts, instant);
  }

  lemma CutsLater(cuts: seq<Cut>, instant: Instant)
    requires Journaled(cuts) && AtMost(cuts[|cuts| - 1].instant, instant)
    ensures Journaled(cuts + [Cut(|cuts|, instant)])
  {
    var more := cuts + [Cut(|cuts|, instant)];
    assert forall i :: 0 <= i < |cuts| ==> more[i] == cuts[i] && AtMost(cuts[i].instant, cuts[|cuts| - 1].instant);
  }

  lemma CommittedConsistent(s: Store, instant: Instant, index: nat)
    requires Consistent(s, index + 1, instant)
    ensures Consistent(Committed(s, instant), index + 1, instant)
  {
    TablesKept(s, Committed(s, instant), index + 1);
  }

  lemma CommittedRelations(s: Store, instant: Instant, index: nat)
    requires TablesSound(s, index + 1) && RelationsSound(s, index + 1)
    ensures TablesSound(Committed(s, instant), index + 1) && RelationsSound(Committed(s, instant), index + 1)
  {
    TablesKept(s, Committed(s, instant), index + 1);
    assert Committed(s, instant).registry == s.registry;
    forall relation: string {:trigger RelationSound(Committed(s, instant), relation, index + 1)}
      ensures RelationSound(Committed(s, instant), relation, index + 1)
    {
      CommittedRelation(s, instant, index, relation);
    }
  }

  lemma CommittedRelation(s: Store, instant: Instant, index: nat, relation: string)
    requires TablesSound(s, index + 1) && RelationsSound(s, index + 1) && TablesSound(Committed(s, instant), index + 1)
    ensures RelationSound(Committed(s, instant), relation, index + 1)
  {
    assert RelationSound(s, relation, index + 1);
    if relation in s.registry {
      assert MergedOf(Committed(s, instant), relation, index + 1) == MergedOf(s, relation, index + 1);
      assert LifetimesHold(Committed(s, instant), relation);
    }
  }
}
