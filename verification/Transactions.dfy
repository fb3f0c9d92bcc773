/** The private transaction builder: operations change a candidate state, integrity is checked once on the
    merged result, and a commit publishes it as the next cut. */
module Transactions {
  import opened FactVersions
  import opened Ids
  import opened Ledger
  import opened RelationGraph
  import opened RelationTables
  import opened Soundness
  import opened Text
  import opened Time
  import opened Timers

  datatype Proposal =
    | Write(value: string, acquired: Stamp, mappedNs: int, valid: Interval)
    | Retract(reason: string, valid: Interval)

  function VersionFor(p: Proposal, available: Instant, producer: string, out: ItemRef): (version: Version)
    ensures version.ref == out && version.valid == p.valid
  {
    match p
    case Write(value, acquired, mapped, valid) => Fact(value, acquired, mapped, available, valid, producer, out)
    case Retract(reason, valid) => Retraction(reason, available, valid, producer, out)
  }

  /** The version that records a proposal: a write's value under its stamp and mapped time, or a retraction's reason,
      valid as proposed, from the wave's instant on, by the writer. */
  ghost predicate Records(p: Proposal, available: Instant, producer: string, out: ItemRef, v: Version) {
    && v.ref == out && v.producer == producer && v.available == available
    && match p
       case Write(value, acquired, mapped, valid) =>
         v.Fact? && v.value == value && v.acquired == acquired && v.mappedNs == mapped && v.valid == valid
       case Retract(reason, valid) => v.Retraction? && v.reason == reason && v.valid == valid
  }

  // ---- what a candidate keeps while its batches are applied ----

  /** Lives touched at this record are the announced removals and the recorded creations. */
  ghost predicate LivesTouched(before: Store, state: Store, index: nat, creating: set<string>,
                               removing: set<EntityRef>)
  {
    && (forall ref :: ref in state.lives && state.lives[ref].created.index == index ==> ref.id in creating)
    && (forall ref :: ref in before.lives && ref !in removing ==>
    ref in state.lives && state.lives[ref] == before.lives[ref])
    && (forall ref ::
    ref in state.lives && state.lives[ref].removed.Some? && state.lives[ref].removed.value.index == index ==>
          ref in removing)
  }

  /** A line changes only under a recorded mutation, and its relation is then marked affected. */
  ghost predicate LinesTouched(a: Table, b: Table, kind: Kind, mutated: set<(Kind, string)>, affected: set<string>) {
    forall id :: LineOf(b, id) != LineOf(a, id) ==>
      && (kind, id) in mutated
      && Has(b, id) && Latest(b, id).RelationId() in affected
      && (Has(a, id) ==> Latest(a, id).RelationId() == Latest(b, id).RelationId())
  }

  ghost predicate RelationsTouched(before: Store, state: Store, mutated: set<(Kind, string)>, affected: set<string>) {
    && LinesTouched(before.edges, state.edges, EdgeKind, mutated, affected)
    && LinesTouched(before.obligations, state.obligations, ObligationKind, mutated, affected)
  }

  /** The candidate's starting point is already consistent one record and any time later. */
  lemma ConsistentLater(s: Store, bound: nat, horizon: Instant, later: Instant)
    requires Consistent(s, bound, horizon) && AtMost(horizon, later)
    ensures Consistent(s, bound + 1, later)
  {
    LivesLater(s, bound, horizon, later);
    VersionedLater(s.edges, EdgeKind, bound);
    VersionedLater(s.obligations, ObligationKind, bound);
    CoveredLater(s.facts, s.timers, horizon, later);
    DeadlinesLater(s.edges, EdgeKind, s.timers, horizon, later);
    DeadlinesLater(s.obligations, ObligationKind, s.timers, horizon, later);
  }

  lemma LivesLater(s: Store, bound: nat, horizon: Instant, later: Instant)
    requires LivesSound(s, bound, horizon) && AtMost(horizon, later)
    ensures LivesSound(s, bound + 1, later)
  {
    forall ref | ref in s.lives ensures LifeWithin(s.lives[ref], bound + 1, later) {
      assert LifeWithin(s.lives[ref], bound, horizon);
    }
  }

  lemma VersionedLater(t: Table, kind: Kind, bound: nat)
    requires Versioned(t, kind, bound)
    ensures Versioned(t, kind, bound + 1)
  {
    forall id | id in t.versions ensures Line(t.versions[id], kind, id, bound + 1) {
      assert Line(t.versions[id], kind, id, bound);
    }
  }

  lemma CoveredLater(facts: map<FieldKey, seq<Version>>, timers: Timers, horizon: Instant, later: Instant)
    requires Covered(facts, timers, horizon) && AtMost(horizon, later)
    ensures Covered(facts, timers, later)
  {
    forall key, i, at | key in facts && 0 <= i < |facts[key]| && Due(Some(facts[key][i].valid), at, later)
      ensures BoundaryTimer(OfFact(facts[key][i].ref), at) in timers.active
    {
      assert Due(Some(facts[key][i].valid), at, horizon);
    }
  }

  lemma DeadlinesLater(t: Table, kind: Kind, timers: Timers, horizon: Instant, later: Instant)
    requires DeadlinesExact(t, kind, timers, horizon) && AtMost(horizon, later)
    ensures DeadlinesExact(t, kind, timers, later)
  {
    forall id, version, at | Less(later, at)
      ensures BoundaryTimer(OfRelation(kind, id, version), at) in timers.active <==>
        LatestBoundary(t, id, version, at, later)
    {
      assert LatestBoundary(t, id, version, at, later) <==> LatestBoundary(t, id, version, at, horizon);
    }
  }

  // ---- lifetimes ----

  function Created(s: Store, ref: EntityRef, fields: map<string, string>, cut: Cut): Store {
    s.(lives := s.lives[ref := Life(cut, None)],
       liveIds := s.liveIds[ref.id := ref],
       generations := s.generations[ref.id := ref.generation],
       writers := s.writers + WritersOf(ref, fields))
  }

  /** The pinned writer of every field selected for the generation. */
  function WritersOf(ref: EntityRef, fields: map<string, string>): (writers: map<FieldKey, string>)
    ensures forall key :: key in writers ==> key.ref == ref
  {
    map field | field in fields :: FieldKey(ref, field) := fields[field]
  }

  function NextGeneration(s: Store, id: string): nat {
    if id in s.generations then s.generations[id] + 1 else 0
  }

  lemma CreatedGenerations(lives: map<EntityRef, Life>, generations: map<string, nat>, ref: EntityRef, life: Life)
    requires GenerationsSound(lives, generations)
    requires ref.id in generations ==> ref.generation == generations[ref.id] + 1
    requires forall r :: r in lives && r.id == ref.id ==> Successive(lives[r], life)
    ensures ref !in lives && GenerationsSound(lives[ref := life], generations[ref.id := ref.generation])
  {
    assert forall r :: r in lives && r.id == ref.id ==> r.generation < ref.generation;
  }

  lemma CreatedSound(s: Store, ref: EntityRef, fields: map<string, string>, index: nat, instant: Instant)
    requires LivesSound(s, index + 1, instant)
    requires ref.id !in s.liveIds && ref.generation == NextGeneration(s, ref.id)
    requires forall r :: r in s.lives && r.id == ref.id && s.lives[r].removed.Some? ==>
      s.lives[r].removed.value.index < index
    ensures ref !in s.lives
    ensures LivesSound(Created(s, ref, fields, Cut(index, instant)), index + 1, instant)
  {
    var life := Life(Cut(index, instant), None);
    PredecessorsGone(s, ref, index, instant);
    CreatedGenerations(s.lives, s.generations, ref, life);
    CreatedLiveIds(s.lives, s.liveIds, ref, life);
    CreatedWithin(s.lives, ref, life, s.lives[ref := life], index + 1, instant);
    CreatedWriters(s, ref, fields, Cut(index, instant));
  }

  lemma CreatedWithin(lives: map<EntityRef, Life>, ref: EntityRef, life: Life, more: map<EntityRef, Life>, bound: nat,
                      horizon: Instant)
    requires more == lives[ref := life]
    requires forall r :: r in lives ==> LifeWithin(lives[r], bound, horizon)
    requires LifeWithin(life, bound, horizon)
    ensures forall r :: r in more ==> LifeWithin(more[r], bound, horizon)
  {
  }

  /** Earlier generations of a free identity have all been removed. */
  lemma PredecessorsGone(s: Store, ref: EntityRef, index: nat, instant: Instant)
    requires LivesSound(s, index + 1, instant) && ref.id !in s.liveIds
    requires forall r :: r in s.lives && r.id == ref.id && s.lives[r].removed.Some? ==>
      s.lives[r].removed.value.index < index
    ensures forall r :: r in s.lives && r.id == ref.id ==> Successive(s.lives[r], Life(Cut(index, instant), None))
  {
    forall r | r in s.lives && r.id == ref.id ensures Successive(s.lives[r], Life(Cut(index, instant), None)) {
      assert LifeWithin(s.lives[r], index + 1, instant);
    }
  }

  lemma CreatedWriters(s: Store, ref: EntityRef, fields: map<string, string>, cut: Cut)
    requires forall key :: key in s.writers ==> key.ref in s.lives
    requires forall key :: key in s.facts ==> key in s.writers
    ensures forall key :: key in Created(s, ref, fields, cut).writers ==> key.ref in Created(s, ref, fields, cut).lives
    ensures forall key :: key in Created(s, ref, fields, cut).facts ==> key in Created(s, ref, fields, cut).writers
  {
  }

  lemma CreatedLiveIds(lives: map<EntityRef, Life>, liveIds: map<string, EntityRef>, ref: EntityRef, life: Life)
    requires LiveIdsExact(lives, liveIds) && ref.id !in liveIds && life.removed.None?
    ensures LiveIdsExact(lives[ref := life], liveIds[ref.id := ref])
  {
  }

  function Removed(s: Store, ref: EntityRef, cut: Cut): Store
    requires ref in s.lives
  {
    s.(lives := s.lives[ref := s.lives[ref].(removed := Some(cut))], liveIds := s.liveIds - {ref.id})
  }

  lemma RemovedSound(s: Store, ref: EntityRef, index: nat, instant: Instant)
    requires LivesSound(s, index + 1, instant)
    requires ref in s.lives && s.lives[ref].removed.None? && s.lives[ref].created.index < index
    ensures LivesSound(Removed(s, ref, Cut(index, instant)), index + 1, instant)
  {
    var t := Removed(s, ref, Cut(index, instant));
    assert LifeWithin(s.lives[ref], index + 1, instant);
    forall r, q | r in t.lives && q in t.lives && r.id == q.id && r.generation < q.generation
      ensures Successive(t.lives[r], t.lives[q])
    {
      assert Successive(s.lives[r], s.lives[q]);
    }
    RemovedListed(s, ref, index, instant);
  }

  lemma RemovedListed(s: Store, ref: EntityRef, index: nat, instant: Instant)
    requires LivesSound(s, index + 1, instant) && ref in s.lives && s.lives[ref].removed.None?
    ensures var t := Removed(s, ref, Cut(index, instant));
      forall r :: r in t.lives && t.lives[r].removed.None? ==> r.id in t.liveIds && t.liveIds[r.id] == r
  {
    var t := Removed(s, ref, Cut(index, instant));
    forall r | r in t.lives && t.lives[r].removed.None? ensures r.id in t.liveIds && t.liveIds[r.id] == r {
      assert r.id in s.liveIds && s.liveIds[r.id] == r && s.liveIds[ref.id] == ref;
    }
  }

  // ---- facts ----

  function Appended(s: Store, key: FieldKey, version: Version, timers: Timers): Store {
    s.(facts := s.facts[key := VersionsOf(s, key) + [version]], timers := timers)
  }

  lemma AppendedCovered(s: Store, key: FieldKey, version: Version, timers: Timers, instant: Instant)
    requires Covered(s.facts, s.timers, instant)
    requires forall k :: k in timers.active <==>
      k in s.timers.active || Arms(OfFact(version.ref), Some(version.valid), instant, k)
    ensures Covered(Appended(s, key, version, timers).facts, timers, instant)
  {
    var facts: map<FieldKey, seq<Version>> := Appended(s, key, version, timers).facts;
    forall k: FieldKey, i, at | k in facts && 0 <= i < |facts[k]| && Due(Some(facts[k][i].valid), at, instant)
      ensures BoundaryTimer(OfFact(facts[k][i].ref), at) in timers.active
    {
      if k == key && i == |VersionsOf(s, key)| {
        assert Arms(OfFact(version.ref), Some(version.valid), instant, BoundaryTimer(OfFact(version.ref), at));
      } else {
        assert facts[k][i] == s.facts[k][i];
        assert BoundaryTimer(OfFact(s.facts[k][i].ref), at) in s.timers.active;
      }
    }
  }

  // ---- relations ----

  /** Timers changed only at the subjects of one relation identity, all of whose future boundaries are now those
      of `entry`. */
  lemma DeadlinesFollow(t: Table, r: Table, kind: Kind, entry: Entry, t0: Timers, t1: Timers, horizon: Instant)
    requires DeadlinesExact(t, kind, t0, horizon) && entry.Kind() == kind
    requires forall id :: id != entry.Id() ==>
      (Has(r, id) <==> Has(t, id)) && (Has(r, id) ==> Latest(r, id) == Latest(t, id))
    requires Has(r, entry.Id()) && Latest(r, entry.Id()) == entry
    requires Has(t, entry.Id()) ==> Latest(t, entry.Id()).Version() != entry.Version()
    requires forall key :: key in t1.active <==>
      || (key in t0.active
          && !(Has(t, entry.Id()) && Arms(OfRelation(kind, entry.Id(), Latest(t, entry.Id()).Version()),
                                          Latest(t, entry.Id()).Valid(), horizon, key)))
      || Arms(entry.Watched(), entry.Valid(), horizon, key)
    ensures DeadlinesExact(r, kind, t1, horizon)
  {
    forall id, version, at | Less(horizon, at)
      ensures BoundaryTimer(OfRelation(kind, id, version), at) in t1.active <==>
        LatestBoundary(r, id, version, at, horizon)
    {
      assert BoundaryTimer(OfRelation(kind, id, version), at) in t0.active <==>
        LatestBoundary(t, id, version, at, horizon);
    }
  }

  /** Timers of other subjects are as they were. */
  ghost predicate OthersActive(t0: Timers, t1: Timers, kind: Kind) {
    forall key: TimerKey :: (key.PartitionTimer? || key.subject.OfFact? || key.subject.kind != kind) ==>
      (key in t1.active <==> key in t0.active)
  }

  lemma OthersCovered(facts: map<FieldKey, seq<Version>>, t: Table, kind: Kind, other: Kind, t0: Timers, t1: Timers,
                      horizon: Instant)
    requires OthersActive(t0, t1, kind) && other != kind
    requires Covered(facts, t0, horizon) && DeadlinesExact(t, other, t0, horizon)
    ensures Covered(facts, t1, horizon) && DeadlinesExact(t, other, t1, horizon)
  {
    forall key, i, at | key in facts && 0 <= i < |facts[key]| && Due(Some(facts[key][i].valid), at, horizon)
      ensures BoundaryTimer(OfFact(facts[key][i].ref), at) in t1.active
    {
      assert BoundaryTimer(OfFact(facts[key][i].ref), at) in t0.active;
    }
    forall id, version, at | Less(horizon, at)
      ensures BoundaryTimer(OfRelation(other, id, version), at) in t1.active <==>
        LatestBoundary(t, id, version, at, horizon)
    {
      assert BoundaryTimer(OfRelation(other, id, version), at) in t1.active <==>
             BoundaryTimer(OfRelation(other, id, version), at) in t0.active;
    }
  }

  /** Every version a committed store holds is known at its last cut. */
  lemma {:induction false} LatestAtLast(versions: seq<Entry>, kind: Kind, id: string, bound: nat)
    requires Line(versions, kind, id, bound)
    ensures bound > 0 && LatestAt(versions, bound - 1) == Some(versions[|versions| - 1])
  {
    assert versions[|versions| - 1].Version().recordIndex < bound;
  }

  function WithTable(s: Store, kind: Kind, t: Table, timers: Timers): Store {
    if kind.EdgeKind? then s.(edges := t, timers := timers) else s.(obligations := t, timers := timers)
  }

  function Other(kind: Kind): Kind {
    if kind.EdgeKind? then ObligationKind else EdgeKind
  }

  // ---- integrity of the merged result ----

  /** The relations a commit re-checks: those with changed rows, and those incident to a removed generation. */
  function Rechecked(s: Store, affected: set<string>, removing: set<EntityRef>): set<string> {
    affected
    + (set ref, id
      | ref in removing && id in IdsFor(s.edges.byEndpoint, ref) && Has(s.edges, id) ::
      Latest(s.edges, id).RelationId())
    + (set ref, id | ref in removing && id in IdsFor(s.obligations.byEndpoint, ref) && Has(s.obligations, id) ::
         Latest(s.obligations, id).RelationId())
  }

  lemma UntouchedLines(a: Table, b: Table, kind: Kind, mutated: set<(Kind, string)>, affected: set<string>,
                       relation: string)
    requires LinesTouched(a, b, kind, mutated, affected) && relation !in affected
    ensures Untouched(a, b, relation)
  {
    forall id
      ensures Has(b, id) && Latest(b, id).RelationId() == relation ==> Has(a, id) && Latest(a, id) == Latest(b, id)
      ensures Has(a, id) && Latest(a, id).RelationId() == relation ==> Has(b, id) && Latest(b, id) == Latest(a, id)
    {
      assert LineOf(b, id) == LineOf(a, id) || Latest(b, id).RelationId() in affected;
    }
  }

  lemma UntouchedLifetimes(before: Store, state: Store, a: Table, b: Table, relation: string, removing: set<EntityRef>,
                           rechecked: set<string>)
    requires Untouched(a, b, relation) && Indexed(b) && relation !in rechecked
    requires forall ref, id :: ref in removing && id in IdsFor(b.byEndpoint, ref) && Has(b, id) ==>
      Latest(b, id).RelationId() in rechecked
    requires forall ref :: ref in before.lives && ref !in removing ==>
      ref in state.lives && state.lives[ref] == before.lives[ref]
    requires forall id :: InRelation(a, relation, id) ==> WithinLifetimes(before.lives, Latest(a, id))
    ensures forall id :: InRelation(b, relation, id) ==> WithinLifetimes(state.lives, Latest(b, id))
  {
    forall id | InRelation(b, relation, id) ensures WithinLifetimes(state.lives, Latest(b, id)) {
      assert InRelation(a, relation, id) && Latest(a, id) == Latest(b, id);
      forall e | e in Latest(b, id).Endpoints() ensures e !in removing {
        assert InEndpoint(b, e, id);
      }
    }
  }

  /** A relation that is not re-checked keeps what the last commit established for it. */
  lemma UncheckedStaysSound(before: Store, state: Store, index: nat, creating: set<string>, removing: set<EntityRef>,
                            mutated: set<(Kind, string)>, affected: set<string>, relation: string)
    requires TablesSound(before, index) && TablesSound(state, index + 1) && before.registry == state.registry
    requires RelationsTouched(before, state, mutated, affected)
      && LivesTouched(before, state, index, creating, removing)
    requires relation !in Rechecked(state, affected, removing)
    requires RelationSound(before, relation, index)
    ensures RelationSound(state, relation, index + 1)
  {
    if relation in state.registry {
      UntouchedLines(before.edges, state.edges, EdgeKind, mutated, affected, relation);
      UntouchedLines(before.obligations, state.obligations, ObligationKind, mutated, affected, relation);
      KindsHold(before.edges, EdgeKind, index);
      KindsHold(before.obligations, ObligationKind, index);
      KindsHold(state.edges, EdgeKind, index + 1);
      KindsHold(state.obligations, ObligationKind, index + 1);
      MergedUnchanged(state.registry[relation], before.edges, before.obligations, state.edges, state.obligations,
        relation);
      var rechecked := Rechecked(state, affected, removing);
      UntouchedLifetimes(before, state, before.edges, state.edges, relation, removing, rechecked);
      UntouchedLifetimes(before, state, before.obligations, state.obligations, relation, removing, rechecked);
    }
  }
}
