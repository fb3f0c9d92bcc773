/** Versioned edges and obligations with their secondary indexes, and the merged graph of one relation. */
module RelationTables {
  import opened Ids
  import opened RelationGraph
  import opened Text
  import opened Time
  import opened Timers

  /** One version of an edge or of an obligation. */
  datatype Entry = OfEdge(edge: Edge) | OfObligation(obligation: Obligation) {
    function Kind(): Kind { if OfEdge? then EdgeKind else ObligationKind }
    function Id(): string { if OfEdge? then edge.edgeId else obligation.obligationId }
    function RelationId(): string { if OfEdge? then edge.relationId else obligation.relationId }
    function Valid(): Option<Interval> { if OfEdge? then edge.valid else obligation.valid }
    function Version(): ItemRef { if OfEdge? then edge.version else obligation.version }

    function Endpoints(): set<EntityRef> {
      if OfEdge? then {edge.source, edge.target} else {obligation.endpoint}
    }

    /** A later version of the same identity. */
    function Revised(valid: Option<Interval>, producer: string, version: ItemRef): (next: Entry)
      ensures SameIdentity(this, next) && next.Valid() == valid && next.Version() == version
    {
      match this
      case OfEdge(e) => OfEdge(e.(valid := valid, producer := producer, version := version))
      case OfObligation(o) => OfObligation(o.(valid := valid, producer := producer, version := version))
    }

    function Watched(): Subject { OfRelation(Kind(), Id(), Version()) }
  }

  /** Versions of one identity differ in validity, producer and version only. */
  predicate SameIdentity(a: Entry, b: Entry) {
    match (a, b)
    case (OfEdge(e), OfEdge(f)) =>
      e.edgeId == f.edgeId && e.relationId == f.relationId && e.source == f.source && e.target == f.target
    case (OfObligation(o), OfObligation(p)) =>
      && o.obligationId == p.obligationId && o.relationId == p.relationId
      && o.direction == p.direction && o.endpoint == p.endpoint
    case _ => false
  }

  datatype Table = Table(
    versions: map<string, seq<Entry>>,
    byRelation: map<string, set<string>>,
    byEndpoint: map<EntityRef, set<string>>)

  function IdsFor<K>(index: map<K, set<string>>, key: K): set<string> {
    if key in index then index[key] else {}
  }

  predicate Has(t: Table, id: string) {
    id in t.versions && t.versions[id] != []
  }

  function Latest(t: Table, id: string): Entry
    requires Has(t, id)
  {
    t.versions[id][|t.versions[id]| - 1]
  }

  /** The newest version a knowledge prefix holds, scanning back from the latest. */
  function LatestAt(versions: seq<Entry>, recordIndex: nat): Option<Entry> {
    if versions == [] then None
    else
      var last := versions[|versions| - 1];
      if last.Version().recordIndex <= recordIndex then Some(last)
      else LatestAt(versions[..|versions| - 1], recordIndex)
  }

  function EntryAt(t: Table, id: string, recordIndex: nat): Option<Entry> {
    if id in t.versions then LatestAt(t.versions[id], recordIndex) else None
  }

  /** Versions of one identity, at increasing records before `bound`. */
  ghost predicate Line(versions: seq<Entry>, kind: Kind, id: string, bound: nat) {
    && versions != []
    && (forall i :: 0 <= i < |versions| ==>
          && versions[i].Kind() == kind && versions[i].Id() == id && SameIdentity(versions[0], versions[i])
          && versions[i].Version().recordIndex < bound)
    && (forall i, j :: 0 <= i < j < |versions| ==>
    versions[i].Version().recordIndex < versions[j].Version().recordIndex)
  }

  ghost predicate Versioned(t: Table, kind: Kind, bound: nat) {
    forall id :: id in t.versions ==> Line(t.versions[id], kind, id, bound)
  }

  lemma LineAppend(versions: seq<Entry>, kind: Kind, id: string, bound: nat, entry: Entry)
    requires Line(versions, kind, id, bound) && SameIdentity(versions[|versions| - 1], entry)
    requires versions[|versions| - 1].Version().recordIndex < entry.Version().recordIndex < bound
    ensures Line(versions + [entry], kind, id, bound)
  {
    var more := versions + [entry];
    assert forall i :: 0 <= i < |versions| ==> more[i] == versions[i];
    assert forall i :: 0 <= i < |versions| ==>
      more[i].Version().recordIndex <= versions[|versions| - 1].Version().recordIndex;
  }

  /** The relation and incident indexes list exactly the right identities. */
  ghost predicate Indexed(t: Table) {
    && (forall id :: id in t.versions ==> t.versions[id] != [])
    && (forall relation: string, id :: InRelation(t, relation, id) <==> id in IdsFor(t.byRelation, relation))
    && (forall endpoint: EntityRef, id :: InEndpoint(t, endpoint, id) <==> id in IdsFor(t.byEndpoint, endpoint))
  }

  predicate InRelation(t: Table, relation: string, id: string) {
    Has(t, id) && Latest(t, id).RelationId() == relation
  }

  predicate InEndpoint(t: Table, endpoint: EntityRef, id: string) {
    Has(t, id) && endpoint in Latest(t, id).Endpoints()
  }

  function Listed<K>(index: map<K, set<string>>, key: K, id: string): map<K, set<string>> {
    index[key := IdsFor(index, key) + {id}]
  }

  /** List an identity under each of its endpoints. */
  method ListEndpoints(index: map<EntityRef, set<string>>, endpoints: seq<EntityRef>, id: string)
    returns (next: map<EntityRef, set<string>>)
    ensures forall e: EntityRef, other: string ::
      other in IdsFor(next, e) <==> other in IdsFor(index, e) || (other == id && e in endpoints)
  {
    next := index;
    for i := 0 to |endpoints|
      invariant forall e: EntityRef, other: string ::
        other in IdsFor(next, e) <==> other in IdsFor(index, e) || (other == id && e in endpoints[..i])
    {
      assert endpoints[..i + 1] == endpoints[..i] + [endpoints[i]];
      next := Listed(next, endpoints[i], id);
    }
    assert endpoints[..|endpoints|] == endpoints;
  }

  function EndpointList(entry: Entry): (endpoints: seq<EntityRef>)
    ensures forall e :: e in endpoints <==> e in entry.Endpoints()
  {
    if entry.OfEdge? then [entry.edge.source, entry.edge.target] else [entry.obligation.endpoint]
  }

  /** First version of a new identity. */
  method Add(t: Table, entry: Entry, ghost bound: nat) returns (r: Table)
    requires Indexed(t) && Versioned(t, entry.Kind(), bound) && entry.Id() !in t.versions
    requires entry.Version().recordIndex < bound
    ensures r.versions == t.versions[entry.Id() := [entry]]
    ensures Indexed(r) && Versioned(r, entry.Kind(), bound)
  {
    var byEndpoint := ListEndpoints(t.byEndpoint, EndpointList(entry), entry.Id());
    r := Table(t.versions[entry.Id() := [entry]], Listed(t.byRelation, entry.RelationId(), entry.Id()), byEndpoint);
    OthersKept(t, r, entry);
    forall relation: string, id ensures InRelation(r, relation, id) <==> id in IdsFor(r.byRelation, relation) {
      assert InRelation(t, relation, id) <==> id in IdsFor(t.byRelation, relation);
    }
    forall endpoint: EntityRef, id ensures InEndpoint(r, endpoint, id) <==> id in IdsFor(r.byEndpoint, endpoint) {
      assert InEndpoint(t, endpoint, id) <==> id in IdsFor(t.byEndpoint, endpoint);
    }
  }

  /** Append a version of a known identity; the indexes need no change. */
  function Revise(t: Table, entry: Entry): Table
    requires Has(t, entry.Id())
  {
    t.(versions := t.versions[entry.Id() := t.versions[entry.Id()] + [entry]])
  }

  lemma RevisedStaysIndexed(t: Table, entry: Entry)
    requires Indexed(t) && Has(t, entry.Id()) && SameIdentity(Latest(t, entry.Id()), entry)
    ensures Indexed(Revise(t, entry))
  {
    var r := Revise(t, entry);
    OthersKept(t, r, entry);
    var prior := Latest(t, entry.Id());
    assert prior.RelationId() == entry.RelationId() && prior.Endpoints() == entry.Endpoints();
    forall relation: string, id ensures InRelation(r, relation, id) <==> id in IdsFor(r.byRelation, relation) {
      assert InRelation(t, relation, id) <==> id in IdsFor(t.byRelation, relation);
    }
    forall endpoint: EntityRef, id ensures InEndpoint(r, endpoint, id) <==> id in IdsFor(r.byEndpoint, endpoint) {
      assert InEndpoint(t, endpoint, id) <==> id in IdsFor(t.byEndpoint, endpoint);
    }
  }

  /** A table changed at one identity keeps every other's latest row. */
  lemma OthersKept(t: Table, r: Table, entry: Entry)
    requires exists line :: line != [] && line[|line| - 1] == entry && r.versions == t.versions[entry.Id() := line]
    ensures Has(r, entry.Id()) && Latest(r, entry.Id()) == entry
    ensures forall id :: id != entry.Id() ==>
      (Has(r, id) <==> Has(t, id)) && (Has(r, id) ==> Latest(r, id) == Latest(t, id))
  {
  }

  /** The relation's latest rows in identity order, with its descriptor. */
  ghost function Merged(descriptor: Descriptor, edges: Table, obligations: Table, relation: string): Graph
    requires Indexed(edges) && Indexed(obligations)
    requires Holds(edges, EdgeKind) && Holds(obligations, ObligationKind)
  {
    Graph(descriptor, LatestEdges(edges, Ordered(IdsFor(edges.byRelation, relation))),
          LatestObligations(obligations, Ordered(IdsFor(obligations.byRelation, relation))))
  }

  ghost predicate Holds(t: Table, kind: Kind) {
    forall id :: Has(t, id) ==> Latest(t, id).Kind() == kind
  }

  function LatestEdges(t: Table, ids: seq<string>): (edges: seq<Edge>)
    requires forall id :: id in ids ==> Has(t, id) && Latest(t, id).OfEdge?
  {
    seq(|ids|, i requires 0 <= i < |ids| => assert ids[i] in ids; Latest(t, ids[i]).edge)
  }

  function LatestObligations(t: Table, ids: seq<string>): (obligations: seq<Obligation>)
    requires forall id :: id in ids ==> Has(t, id) && Latest(t, id).OfObligation?
  {
    seq(|ids|, i requires 0 <= i < |ids| => assert ids[i] in ids; Latest(t, ids[i]).obligation)
  }

  /** A relation none of whose identities was touched keeps its merged graph. */
  lemma MergedUnchanged(descriptor: Descriptor, e0: Table, o0: Table, e: Table, o: Table, relation: string)
    requires Indexed(e0) && Indexed(o0) && Indexed(e) && Indexed(o)
    requires Holds(e0, EdgeKind) && Holds(o0, ObligationKind) && Holds(e, EdgeKind) && Holds(o, ObligationKind)
    requires Untouched(e0, e, relation) && Untouched(o0, o, relation)
    ensures Merged(descriptor, e, o, relation) == Merged(descriptor, e0, o0, relation)
  {
    SameIds(e0, e, relation);
    SameIds(o0, o, relation);
  }

  lemma SameIds(t0: Table, t: Table, relation: string)
    requires Indexed(t0) && Indexed(t) && Untouched(t0, t, relation)
    ensures IdsFor(t.byRelation, relation) == IdsFor(t0.byRelation, relation)
    ensures forall id :: id in IdsFor(t.byRelation, relation) ==>
      Has(t, id) && Has(t0, id) && Latest(t, id) == Latest(t0, id)
  {
    forall id ensures id in IdsFor(t.byRelation, relation) <==> id in IdsFor(t0.byRelation, relation) {
      assert InRelation(t, relation, id) <==> id in IdsFor(t.byRelation, relation);
      assert InRelation(t0, relation, id) <==> id in IdsFor(t0.byRelation, relation);
    }
    forall id | id in IdsFor(t.byRelation, relation)
      ensures Has(t, id) && Has(t0, id) && Latest(t, id) == Latest(t0, id)
    {
      assert InRelation(t, relation, id);
    }
  }

  /** The latest rows of one relation are the same in both tables. */
  ghost predicate Untouched(t0: Table, t: Table, relation: string) {
    forall id {:trigger Has(t, id)} {:trigger Has(t0, id)} ::
      && (Has(t, id) && Latest(t, id).RelationId() == relation ==> Has(t0, id) && Latest(t0, id) == Latest(t, id))
      && (Has(t0, id) && Latest(t0, id).RelationId() == relation ==> Has(t, id) && Latest(t, id) == Latest(t0, id))
  }
}
