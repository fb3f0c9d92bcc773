/** What a committed operation comes to: the store after it, as a reader at its cut sees it. */
module Outcomes {
  import opened Building
  import opened Candidates
  import opened FactVersions
  import opened Ids
  import opened Ledger
  import opened Reading
  import opened RelationGraph
  import opened RelationTables
  import opened Soundness
  import opened Text
  import opened Time
  import opened Timers
  import opened Transactions

  // ---- facts ----

  /** Once committed, a write is what its field reads wherever it is valid and the generation alive, and a retraction
      makes the field read as absent there. */
  lemma WrittenReads(s: Store, instant: Instant, key: FieldKey, v: Version, at: Instant)
    requires Sound(Committed(s, instant)) && key in s.writers && key in s.facts && s.facts[key] != []
    requires v == s.facts[key][|s.facts[key]| - 1] && v.ref.recordIndex == |s.cuts|
    requires v.valid.Contains(at) && AliveAt(s.lives[key.ref], Cut(|s.cuts|, instant), at)
    ensures Field(Committed(s, instant), key, at, Cut(|s.cuts|, instant)) ==
      Answered(if v.Fact? then Present(v) else Absent)
  {
    var c, cut := Committed(s, instant), Cut(|s.cuts|, instant);
    KnownAtLast(c, key.ref);
    assert Readable(c, key, cut);
    assert GreatestKnown(VersionsOf(c, key), at, cut.index, false, |s.facts[key]| - 1);
    assert Answers(VersionsOf(c, key), at, cut, false, v);
    FieldExactly(c, key, at, cut, v);
    AbsentExactly(c, key, at, cut);
    OneAnswer(VersionsOf(c, key), at, cut, v);
  }

  /** A prefix has one answer. */
  lemma OneAnswer(versions: seq<Version>, at: Instant, cut: Cut, v: Version)
    requires Answers(versions, at, cut, false, v)
    ensures forall w :: Answers(versions, at, cut, false, w) ==> w == v
  {
    var i :| GreatestKnown(versions, at, cut.index, false, i) && i >= 0 && versions[i] == v;
    forall j | GreatestKnown(versions, at, cut.index, false, j) ensures j == i { }
  }

  /** Every generation of a committed store is known at its last cut. */
  lemma KnownAtLast(c: Store, ref: EntityRef)
    requires Sound(c) && ref in c.lives
    ensures CreatedBy(c, ref, LastCut(c)) && IssuedBy(c, LastCut(c))
    ensures c.lives[ref].removed.Some? ==> c.lives[ref].removed.value.index <= LastCut(c).index
  {
    assert LifeWithin(c.lives[ref], |c.cuts|, LastCut(c).instant);
  }

  // ---- lifetimes ----

  /** Once committed, a creation makes its generation alive from its instant on, with each selected field writable by
      its pinned writer and still without a value. */
  lemma CreatedReads(s: Store, ref: EntityRef, fields: map<string, string>, instant: Instant, at: Instant,
                     field: string)
    requires var c := Committed(Created(s, ref, fields, Cut(|s.cuts|, instant)), instant); Sound(c)
    requires ref !in s.lives && forall key :: key in s.facts ==> key.ref in s.lives
    ensures var c, cut := Committed(Created(s, ref, fields, Cut(|s.cuts|, instant)), instant), Cut(|s.cuts|, instant);
      && Alive(c, ref, cut, at) == Answered(AtMost(instant, at))
      && (field in fields ==>
            && FieldKey(ref, field) in c.writers && c.writers[FieldKey(ref, field)] == fields[field]
            && Field(c, FieldKey(ref, field), at, cut) == Answered(Absent))
      && ref.id in c.liveIds && c.liveIds[ref.id] == ref && NextGeneration(c, ref.id) == ref.generation + 1
      && forall other :: other != ref ==>
           (other in c.lives <==> other in s.lives) && (other in s.lives ==> c.lives[other] == s.lives[other])
  {
    var c, cut := Committed(Created(s, ref, fields, Cut(|s.cuts|, instant)), instant), Cut(|s.cuts|, instant);
    KnownAtLast(c, ref);
    AliveExactly(c, ref, cut, at);
    if field in fields {
      var key := FieldKey(ref, field);
      assert key in WritersOf(ref, fields) && VersionsOf(c, key) == [];
      assert Readable(c, key, cut);
    }
  }

  /** Once committed, a removal ends its generation at its instant, and leaves its identity free for the next one. */
  lemma RemovedReads(s: Store, ref: EntityRef, instant: Instant, at: Instant)
    requires ref in s.lives && s.lives[ref].removed.None?
    requires Sound(Committed(Removed(s, ref, Cut(|s.cuts|, instant)), instant))
    ensures var c, cut := Committed(Removed(s, ref, Cut(|s.cuts|, instant)), instant), Cut(|s.cuts|, instant);
      && Alive(c, ref, cut, at) == Answered(AtMost(s.lives[ref].created.instant, at) && Less(at, instant))
      && ref.id !in c.liveIds && NextGeneration(c, ref.id) == NextGeneration(s, ref.id)
      && forall other :: other != ref ==>
           (other in c.lives <==> other in s.lives) && (other in s.lives ==> c.lives[other] == s.lives[other])
  {
    var c, cut := Committed(Removed(s, ref, Cut(|s.cuts|, instant)), instant), Cut(|s.cuts|, instant);
    KnownAtLast(c, ref);
    AliveExactly(c, ref, cut, at);
  }

  // ---- relations ----

  ghost predicate InForce(valid: Option<Interval>, at: Instant) {
    valid.Some? && valid.value.Contains(at)
  }

  /** In force at some instant before another. */
  ghost predicate InForceBefore(valid: Option<Interval>, instant: Instant) {
    exists at: Instant :: InForce(valid, at) && Less(at, instant)
  }

  /** In force at some instant from another on. */
  ghost predicate InForceFrom(valid: Option<Interval>, instant: Instant) {
    exists at: Instant :: InForce(valid, at) && AtMost(instant, at)
  }

  /** A row may be ended while it is in force at the present or later: closed once it was in force before, canceled as
      long as it was not. A closed row is in force as it was before the present and no longer, a canceled one never. */
  lemma EndingExactly(kind: Kind, valid: Option<Interval>, instant: Instant, close: bool)
    ensures Ending(kind, valid, instant, close).Answered? <==>
      InForceFrom(valid, instant) && (close <==> InForceBefore(valid, instant))
    ensures Ending(kind, valid, instant, close).Answered? ==> forall at: Instant ::
      InForce(Ending(kind, valid, instant, close).value, at) <==> close && InForce(valid, at) && Less(at, instant)
    ensures Ending(kind, valid, instant, close) == Refused(AlreadyEnded(kind)) <==> !InForceFrom(valid, instant)
  {
    if valid.Some? {
      var v := valid.value;
      assert InForce(valid, v.start);
      if v.end.None? || Less(instant, v.end.value) {
        assert InForce(valid, Later(v.start, instant));
      }
    }
  }

  /** What ends a row: the same identity, as its successor version, by whoever ended it. */
  lemma SuccessorExactly(before: Store, kind: Kind, id: string, instant: Instant, close: bool, partition: string,
                         out: ItemRef, at: Instant)
    requires Has(TableOf(before, kind), id)
      && Ending(kind, Latest(TableOf(before, kind), id).Valid(), instant, close).Answered?
    ensures var prior, next := Latest(TableOf(before, kind), id),
        Successor(before, kind, id, instant, close, partition, out);
      && SameIdentity(prior, next) && next.Version() == out
      && (next.OfEdge? ==> next.edge.producer == partition)
      && (next.OfObligation? ==> next.obligation.producer == partition)
      && (InForce(next.Valid(), at) <==> close && InForce(prior.Valid(), at) && Less(at, instant))
  {
    EndingExactly(kind, Latest(TableOf(before, kind), id).Valid(), instant, close);
  }

  /** A prefix sees the last version of a row recorded in it. */
  lemma {:induction false} LatestExactly(versions: seq<Entry>, recordIndex: nat, entry: Entry)
    ensures LatestAt(versions, recordIndex) == Some(entry) <==> exists i :: SeenAt(versions, recordIndex, entry, i)
    ensures LatestAt(versions, recordIndex).None? <==>
      forall i :: 0 <= i < |versions| ==> versions[i].Version().recordIndex > recordIndex
  {
    if versions != [] {
      var n := |versions| - 1;
      LatestExactly(versions[..n], recordIndex, entry);
      if versions[n].Version().recordIndex <= recordIndex {
        assert versions[n] == entry ==> SeenAt(versions, recordIndex, entry, n);
      } else {
        forall i ensures SeenAt(versions, recordIndex, entry, i) <==> SeenAt(versions[..n], recordIndex, entry, i) { }
      }
    }
  }

  ghost predicate SeenAt(versions: seq<Entry>, recordIndex: nat, entry: Entry, i: int) {
    && 0 <= i < |versions| && versions[i] == entry && entry.Version().recordIndex <= recordIndex
    && forall j :: i < j < |versions| ==> versions[j].Version().recordIndex > recordIndex
  }

  /** A row lies within a lifetime exactly when the generation is alive whenever the row is in force. */
  lemma WithinLifeExactly(life: Life, valid: Interval)
    ensures WithinLife(life, valid) <==> forall at: Instant :: valid.Contains(at) ==>
      AtMost(life.created.instant, at) && (life.removed.Some? ==> Less(at, life.removed.value.instant))
  {
    assert valid.Contains(valid.start);
    if life.removed.Some? && (valid.end.None? || Less(life.removed.value.instant, valid.end.value)) {
      assert valid.Contains(Later(valid.start, life.removed.value.instant));
    }
  }

  /** A row of a relation's merged graph. */
  ghost predicate Lists(t: Table, relation: string, entry: Entry) {
    exists id :: InRelation(t, relation, id) && Latest(t, id) == entry
  }

  /** The merged graph of a relation holds the latest version of each of its rows and nothing else, edges and
      obligations each in the order of their identities. */
  lemma MergedExactly(s: Store, relation: string, bound: nat, edge: Edge, obligation: Obligation)
    requires TablesSound(s, bound) && relation in s.registry
    ensures MergedOf(s, relation, bound).descriptor == s.registry[relation]
    ensures edge in MergedOf(s, relation, bound).edges <==> Lists(s.edges, relation, OfEdge(edge))
    ensures obligation in MergedOf(s, relation, bound).obligations <==>
      Lists(s.obligations, relation, OfObligation(obligation))
    ensures forall i, j :: 0 <= i < j < |MergedOf(s, relation, bound).edges| ==>
      Precedes(MergedOf(s, relation, bound).edges[i].edgeId, MergedOf(s, relation, bound).edges[j].edgeId)
    ensures forall i, j :: 0 <= i < j < |MergedOf(s, relation, bound).obligations| ==>
      Precedes(MergedOf(s, relation, bound).obligations[i].obligationId,
        MergedOf(s, relation, bound).obligations[j].obligationId)
  {
    KindsHold(s.edges, EdgeKind, bound);
    KindsHold(s.obligations, ObligationKind, bound);
    IndexedIds(s.edges, relation);
    IndexedIds(s.obligations, relation);
    EdgesExactly(s.edges, relation, bound, edge);
    ObligationsExactly(s.obligations, relation, bound, obligation);
  }

  lemma EdgesExactly(t: Table, relation: string, bound: nat, edge: Edge)
    requires Versioned(t, EdgeKind, bound) && Indexed(t) && Holds(t, EdgeKind)
    requires forall id :: id in IdsFor(t.byRelation, relation) <==> InRelation(t, relation, id)
    ensures var ids := Ordered(IdsFor(t.byRelation, relation));
      && (edge in LatestEdges(t, ids) <==> Lists(t, relation, OfEdge(edge)))
      && forall i, j :: 0 <= i < j < |ids| ==>
           Precedes(LatestEdges(t, ids)[i].edgeId, LatestEdges(t, ids)[j].edgeId)
  {
    var ids := Ordered(IdsFor(t.byRelation, relation));
    forall i | 0 <= i < |ids| ensures ids[i] in ids && LatestEdges(t, ids)[i].edgeId == ids[i] {
      assert ids[i] in ids;
      assert Line(t.versions[ids[i]], EdgeKind, ids[i], bound);
    }
    EdgeListed(t, relation, ids, edge);
  }

  lemma EdgeListed(t: Table, relation: string, ids: seq<string>, edge: Edge)
    requires Holds(t, EdgeKind) && forall id :: id in ids <==> InRelation(t, relation, id)
    ensures Lists(t, relation, OfEdge(edge)) ==> edge in LatestEdges(t, ids)
  {
    if Lists(t, relation, OfEdge(edge)) {
      var id :| InRelation(t, relation, id) && Latest(t, id) == OfEdge(edge);
      assert id in ids;
      var k :| 0 <= k < |ids| && ids[k] == id;
      assert LatestEdges(t, ids)[k] == edge;
    }
  }

  lemma ObligationsExactly(t: Table, relation: string, bound: nat, obligation: Obligation)
    requires Versioned(t, ObligationKind, bound) && Indexed(t) && Holds(t, ObligationKind)
    requires forall id :: id in IdsFor(t.byRelation, relation) <==> InRelation(t, relation, id)
    ensures var ids := Ordered(IdsFor(t.byRelation, relation));
      && (obligation in LatestObligations(t, ids) <==> Lists(t, relation, OfObligation(obligation)))
      && forall i, j :: 0 <= i < j < |ids| ==>
           Precedes(LatestObligations(t, ids)[i].obligationId, LatestObligations(t, ids)[j].obligationId)
  {
    var ids := Ordered(IdsFor(t.byRelation, relation));
    forall i | 0 <= i < |ids| ensures ids[i] in ids && LatestObligations(t, ids)[i].obligationId == ids[i] {
      assert ids[i] in ids;
      assert Line(t.versions[ids[i]], ObligationKind, ids[i], bound);
    }
    ObligationListed(t, relation, ids, obligation);
  }

  lemma ObligationListed(t: Table, relation: string, ids: seq<string>, obligation: Obligation)
    requires Holds(t, ObligationKind) && forall id :: id in ids <==> InRelation(t, relation, id)
    ensures Lists(t, relation, OfObligation(obligation)) ==> obligation in LatestObligations(t, ids)
  {
    if Lists(t, relation, OfObligation(obligation)) {
      var id :| InRelation(t, relation, id) && Latest(t, id) == OfObligation(obligation);
      assert id in ids;
      var k :| 0 <= k < |ids| && ids[k] == id;
      assert LatestObligations(t, ids)[k] == obligation;
    }
  }
}
