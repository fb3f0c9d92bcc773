/** What every committed store satisfies, and what it means for reads and deadlines after the cut. */
module Soundness {
  import opened FactVersions
  import opened Ids
  import opened Ledger
  import opened RelationGraph
  import opened RelationTables
  import opened Time
  import opened Timers
  import opened VersionSweep

  // ---- lifetimes ----

  /** A lifetime begins and ends by `horizon`, at records before `bound`, and ends at a later record. */
  ghost predicate LifeWithin(life: Life, bound: nat, horizon: Instant) {
    && life.created.index < bound && AtMost(life.created.instant, horizon)
    && (life.removed.Some? ==>
          && life.created.index < life.removed.value.index < bound
          && AtMost(life.created.instant, life.removed.value.instant) && AtMost(life.removed.value.instant, horizon))
  }

  /** Of two generations of one identity, the earlier was removed before the later was created. */
  ghost predicate Successive(earlier: Life, later: Life) {
    && earlier.removed.Some? && earlier.removed.value.index < later.created.index
    && AtMost(earlier.removed.value.instant, later.created.instant)
  }

  ghost predicate GenerationsSound(lives: map<EntityRef, Life>, generations: map<string, nat>) {
    && (forall ref :: ref in lives ==> ref.id in generations && ref.generation <= generations[ref.id])
    && (forall r, q :: r in lives && q in lives && r.id == q.id && r.generation == q.generation ==> r == q)
    && (forall r, q :: r in lives && q in lives && r.id == q.id && r.generation < q.generation ==>
    Successive(lives[r], lives[q]))
  }

  ghost predicate LiveIdsExact(lives: map<EntityRef, Life>, liveIds: map<string, EntityRef>) {
    && (forall ref :: ref in lives && lives[ref].removed.None? ==> ref.id in liveIds && liveIds[ref.id] == ref)
    && (forall id :: id in liveIds ==>
          liveIds[id].id == id && liveIds[id] in lives && lives[liveIds[id]].removed.None?)
  }

  ghost predicate LivesSound(s: Store, bound: nat, horizon: Instant) {
    && (forall ref :: ref in s.lives ==> LifeWithin(s.lives[ref], bound, horizon))
    && GenerationsSound(s.lives, s.generations)
    && LiveIdsExact(s.lives, s.liveIds)
    && (forall key :: key in s.writers ==> key.ref in s.lives)
    && (forall key :: key in s.facts ==> key in s.writers)
  }

  // ---- deadlines ----

  /** Every validity boundary after `horizon` of every fact version has an active timer. */
  ghost predicate Covered(facts: map<FieldKey, seq<Version>>, timers: Timers, horizon: Instant) {
    forall key, i, at ::
      (key in facts && 0 <= i < |facts[key]| && Due(Some(facts[key][i].valid), at, horizon)) ==>
        BoundaryTimer(OfFact(facts[key][i].ref), at) in timers.active
  }

  /** The deadline is a boundary after `horizon` of the latest version of its identity. */
  ghost predicate LatestBoundary(t: Table, id: string, version: ItemRef, at: Instant, horizon: Instant) {
    Has(t, id) && Latest(t, id).Version() == version && Due(Latest(t, id).Valid(), at, horizon)
  }

  /** Active relation deadlines after `horizon` are exactly the boundaries of latest versions after it. */
  ghost predicate DeadlinesExact(t: Table, kind: Kind, timers: Timers, horizon: Instant) {
    forall id, version, at :: Less(horizon, at) ==>
      (BoundaryTimer(OfRelation(kind, id, version), at) in timers.active <==>
        LatestBoundary(t, id, version, at, horizon))
  }

  // ---- relations ----

  predicate WithinLifetimes(lives: map<EntityRef, Life>, entry: Entry) {
    entry.Valid().Some? ==>
      forall e :: e in entry.Endpoints() ==> e in lives && WithinLife(lives[e], entry.Valid().value)
  }

  predicate WithinLife(life: Life, valid: Interval) {
    && AtMost(life.created.instant, valid.start)
    && (life.removed.Some? ==> valid.end.Some? && AtMost(valid.end.value, life.removed.value.instant))
  }

  /** Tables whose rows know their relation and endpoints. */
  ghost predicate TableSound(s: Store, t: Table, kind: Kind, bound: nat) {
    && Versioned(t, kind, bound) && Indexed(t)
    && forall id :: Has(t, id) ==> Latest(t, id).RelationId() in s.registry && Latest(t, id).Endpoints() <= s.lives.Keys
  }

  ghost predicate TablesSound(s: Store, bound: nat) {
    TableSound(s, s.edges, EdgeKind, bound) && TableSound(s, s.obligations, ObligationKind, bound)
  }

  lemma KindsHold(t: Table, kind: Kind, bound: nat)
    requires Versioned(t, kind, bound)
    ensures Holds(t, kind)
  {
    forall id | Has(t, id) ensures Latest(t, id).Kind() == kind {
      assert Line(t.versions[id], kind, id, bound);
    }
  }

  ghost function MergedOf(s: Store, relation: string, bound: nat): Graph
    requires TablesSound(s, bound) && relation in s.registry
  {
    KindsHold(s.edges, EdgeKind, bound);
    KindsHold(s.obligations, ObligationKind, bound);
    Merged(s.registry[relation], s.edges, s.obligations, relation)
  }

  ghost predicate LifetimesHold(s: Store, relation: string) {
    && (forall id :: InRelation(s.edges, relation, id) ==> WithinLifetimes(s.lives, Latest(s.edges, id)))
    && (forall id :: InRelation(s.obligations, relation, id) ==> WithinLifetimes(s.lives, Latest(s.obligations, id)))
  }

  /** One relation satisfies the whole specification: the merged graph is admissible at every instant and its
      latest intervals lie inside their endpoints' lifetimes. */
  ghost predicate RelationSound(s: Store, relation: string, bound: nat)
    requires TablesSound(s, bound)
  {
    relation in s.registry ==> GraphValid(MergedOf(s, relation, bound)) && LifetimesHold(s, relation)
  }

  ghost predicate RelationsSound(s: Store, bound: nat)
    requires TablesSound(s, bound)
  {
    forall relation :: RelationSound(s, relation, bound)
  }

  // ---- the whole store ----

  ghost predicate Consistent(s: Store, bound: nat, horizon: Instant) {
    && LivesSound(s, bound, horizon)
    && Agree(s.timers)
    && Covered(s.facts, s.timers, horizon)
    && TablesSound(s, bound)
    && DeadlinesExact(s.edges, EdgeKind, s.timers, horizon)
    && DeadlinesExact(s.obligations, ObligationKind, s.timers, horizon)
  }

  ghost predicate Sound(s: Store) {
    && Journaled(s.cuts)
    && Consistent(s, |s.cuts|, LastCut(s).instant)
    && RelationsSound(s, |s.cuts|)
  }

  // ---- consequences ----

  /** No instant sees two generations of one identity alive, whichever cut asks. */
  lemma OneGenerationAlive(s: Store, a: EntityRef, b: EntityRef, cut: Cut, at: Instant)
    requires Sound(s) && a.id == b.id
    requires Alive(s, a, cut, at) == Answered(true) && Alive(s, b, cut, at) == Answered(true)
    ensures a == b
  {
    assert a.generation < b.generation ==> Successive(s.lives[a], s.lives[b]);
    assert b.generation < a.generation ==> Successive(s.lives[b], s.lives[a]);
  }

  /** No boundary of any listed version lies in the half-open stretch after `a`, up to and including `b`. */
  ghost predicate NoBoundary(versions: seq<Version>, a: Instant, b: Instant) {
    forall i, at :: 0 <= i < |versions| && at in Boundaries(Some(versions[i].valid)) ==> !(Less(a, at) && AtMost(at, b))
  }

  lemma {:induction false} NewestSteady(versions: seq<Version>, a: Instant, b: Instant, recordIndex: nat)
    requires AtMost(a, b) && NoBoundary(versions, a, b)
    ensures Newest(versions, b, recordIndex, false) == Newest(versions, a, recordIndex, false)
  {
    if versions != [] {
      var last := versions[|versions| - 1];
      assert last.valid.start in Boundaries(Some(last.valid));
      assert last.valid.end.Some? ==> last.valid.end.value in Boundaries(Some(last.valid));
      var rest := versions[..|versions| - 1];
      assert forall i :: 0 <= i < |rest| ==> rest[i] == versions[i];
      NewestSteady(rest, a, b, recordIndex);
    }
  }

  /** One version's own timer is active at one of its boundaries after `a`, up to and including `b`. */
  predicate TimerDue(timers: Timers, subject: Subject, at: Instant, a: Instant, b: Instant) {
    && BoundaryTimer(subject, at) in timers.active && timers.active[BoundaryTimer(subject, at)] == at
    && Less(a, at) && AtMost(at, b)
  }

  /** One of a field's own versions has its timer due in between, at a boundary of that version. */
  ghost predicate FieldScheduled(s: Store, key: FieldKey, a: Instant, b: Instant) {
    exists i, at :: 0 <= i < |VersionsOf(s, key)| && at in Boundaries(Some(VersionsOf(s, key)[i].valid))
      && TimerDue(s.timers, OfFact(VersionsOf(s, key)[i].ref), at, a, b)
  }

  /** Lifetimes do not change after the last cut. */
  lemma AliveSteady(s: Store, ref: EntityRef, cut: Cut, a: Instant, b: Instant)
    requires Sound(s) && AtMost(LastCut(s).instant, a) && AtMost(a, b)
    ensures Alive(s, ref, cut, a) == Alive(s, ref, cut, b)
  {
    assert ref in s.lives ==> LifeWithin(s.lives[ref], |s.cuts|, LastCut(s).instant);
  }

  /** No silent expiry: whenever what a field reads, at any issued cut, changes between two instants after the
      last cut, the timer of one of its own versions is due in between, at a boundary of that version. */
  lemma NoSilentExpiry(s: Store, key: FieldKey, cut: Cut, a: Instant, b: Instant)
    requires Sound(s) && AtMost(LastCut(s).instant, a) && AtMost(a, b)
    requires Field(s, key, a, cut) != Field(s, key, b, cut)
    ensures FieldScheduled(s, key, a, b)
  {
    AliveSteady(s, key.ref, cut, a, b);
    var versions := VersionsOf(s, key);
    if NoBoundary(versions, a, b) {
      NewestSteady(versions, a, b, cut.index);
    } else {
      var i, at :| 0 <= i < |versions| && at in Boundaries(Some(versions[i].valid)) && Less(a, at) && AtMost(at, b);
      assert Due(Some(versions[i].valid), at, LastCut(s).instant);
      assert BoundaryTimer(OfFact(versions[i].ref), at) in s.timers.active;
      assert TimerDue(s.timers, OfFact(versions[i].ref), at, a, b);
    }
  }

  function TableOf(s: Store, kind: Kind): Table {
    if kind.EdgeKind? then s.edges else s.obligations
  }

  /** The latest version of an edge or obligation has its timer due in between, at one of its boundaries. */
  ghost predicate RelationScheduled(s: Store, kind: Kind, id: string, a: Instant, b: Instant)
    requires Has(TableOf(s, kind), id)
  {
    var entry := Latest(TableOf(s, kind), id);
    exists at :: at in Boundaries(entry.Valid()) && TimerDue(s.timers, OfRelation(kind, id, entry.Version()), at, a, b)
  }

  /** The same for edges and obligations: if the latest version of one is in force at one of two instants after the
      last cut and not at the other, that version's own deadline is due in between, at one of its boundaries. */
  lemma NoSilentRelationChange(s: Store, kind: Kind, id: string, a: Instant, b: Instant)
    requires Sound(s) && AtMost(LastCut(s).instant, a) && AtMost(a, b)
    requires Has(TableOf(s, kind), id) && Latest(TableOf(s, kind), id).Valid().Some?
    requires var valid := Latest(TableOf(s, kind), id).Valid().value; valid.Contains(a) != valid.Contains(b)
    ensures RelationScheduled(s, kind, id, a, b)
  {
    var table := TableOf(s, kind);
    var entry := Latest(table, id);
    var valid := entry.Valid().value;
    var at := if valid.Contains(a) then valid.end.value else valid.start;
    assert DeadlinesExact(table, kind, s.timers, LastCut(s).instant);
    assert LatestBoundary(table, id, entry.Version(), at, LastCut(s).instant);
    assert BoundaryTimer(OfRelation(kind, id, entry.Version()), at) in s.timers.active;
    assert at in Boundaries(entry.Valid()) && TimerDue(s.timers, OfRelation(kind, id, entry.Version()), at, a, b);
  }
}
