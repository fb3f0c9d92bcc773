/** Directed temporal relations: descriptors, versioned edges and obligations, and what it means for a
    merged relation graph to be admissible at every instant. */
module RelationGraph {
  import opened Ids
  import opened Time

  datatype Direction = TargetsPerSource | SourcesPerTarget | Undeclared(text: string)

  /** Explicit directional bounds; an absent maximum is declared infinity. */
  datatype Cardinality = Cardinality(minimum: nat, maximum: Option<nat>)

  datatype IdentityPolicy = ByEdgeId | ByEndpointPair

  datatype Descriptor = Descriptor(
    id: string, targetsPerSource: Cardinality, sourcesPerTarget: Cardinality, policy: IdentityPolicy)

  datatype Edge = Edge(
    edgeId: string, relationId: string, source: EntityRef, target: EntityRef,
    valid: Option<Interval>, producer: string, version: ItemRef)
  {
    function Pair(): (EntityRef, EntityRef) { (source, target) }
  }

  datatype Obligation = Obligation(
    obligationId: string, relationId: string, direction: Direction, endpoint: EntityRef,
    valid: Option<Interval>, producer: string, version: ItemRef)

  datatype Scope = Scope(direction: Direction, endpoint: EntityRef)

  datatype Graph = Graph(descriptor: Descriptor, edges: seq<Edge>, obligations: seq<Obligation>)

  /** A row of the graph, by position: equal rows listed twice stay two rows. */
  datatype Row = EdgeRow(index: nat) | ObligationRow(index: nat)

  predicate RowOf(g: Graph, row: Row) {
    match row
    case EdgeRow(i) => i < |g.edges|
    case ObligationRow(i) => i < |g.obligations|
  }

  ghost function Rows(g: Graph): (rows: set<Row>)
    ensures forall row :: row in rows <==> RowOf(g, row)
  {
    (set i | 0 <= i < |g.edges| :: EdgeRow(i)) + (set i | 0 <= i < |g.obligations| :: ObligationRow(i))
  }

  function ValidOf(g: Graph, row: Row): Option<Interval>
    requires RowOf(g, row)
  {
    match row
    case EdgeRow(i) => g.edges[i].valid
    case ObligationRow(i) => g.obligations[i].valid
  }

  function ScopesOf(g: Graph, row: Row): set<Scope>
    requires RowOf(g, row)
  {
    match row
    case EdgeRow(i) => {Scope(TargetsPerSource, g.edges[i].source), Scope(SourcesPerTarget, g.edges[i].target)}
    case ObligationRow(i) => {Scope(g.obligations[i].direction, g.obligations[i].endpoint)}
  }

  function Bound(d: Descriptor, direction: Direction): Cardinality {
    match direction
    case TargetsPerSource => d.targetsPerSource
    case SourcesPerTarget => d.sourcesPerTarget
    case Undeclared(_) => Cardinality(0, None)
  }

  /** Rows valid at an instant. */
  ghost function Live(g: Graph, at: Instant): set<Row> {
    set row | row in Rows(g) && ValidOf(g, row).Some? && ValidOf(g, row).value.Contains(at)
  }

  /** Rows valid on the open left side of an instant. */
  ghost function LiveBefore(g: Graph, at: Instant): set<Row> {
    set row | row in Rows(g) && ValidOf(g, row).Some? && ValidOf(g, row).value.CoversBefore(at)
  }

  ghost function Incident(g: Graph, live: set<Row>, scope: Scope): set<Row>
    requires live <= Rows(g)
  {
    set row | row in live && row.EdgeRow? && scope in ScopesOf(g, row)
  }

  ghost predicate PairsDisjoint(g: Graph, live: set<Row>)
    requires live <= Rows(g)
  {
    forall i: nat, j: nat :: EdgeRow(i) in live && EdgeRow(j) in live && g.edges[i].Pair() == g.edges[j].Pair() ==>
      i == j
  }

  ghost predicate ObligationsDisjoint(g: Graph, live: set<Row>)
    requires live <= Rows(g)
  {
    forall i: nat, j: nat ::
      (ObligationRow(i) in live && ObligationRow(j) in live
       && ScopesOf(g, ObligationRow(i)) == ScopesOf(g, ObligationRow(j))) ==> i == j
  }

  ghost predicate WithinMaximum(g: Graph, live: set<Row>, scope: Scope)
    requires live <= Rows(g)
  {
    Bound(g.descriptor, scope.direction).maximum.Some? ==>
      |Incident(g, live, scope)| <= Bound(g.descriptor, scope.direction).maximum.value
  }

  ghost predicate Activated(g: Graph, live: set<Row>, scope: Scope)
    requires live <= Rows(g)
  {
    exists i: nat :: ObligationRow(i) in live && scope in ScopesOf(g, ObligationRow(i))
  }

  ghost predicate MeetsMinimum(g: Graph, live: set<Row>, scope: Scope)
    requires live <= Rows(g)
  {
    Activated(g, live, scope) ==> |Incident(g, live, scope)| >= Bound(g.descriptor, scope.direction).minimum
  }

  /** The cardinality statement about one instant, over the rows valid then. */
  ghost predicate Admissible(g: Graph, live: set<Row>)
    requires live <= Rows(g)
  {
    && PairsDisjoint(g, live)
    && ObligationsDisjoint(g, live)
    && forall scope: Scope :: WithinMaximum(g, live, scope) && MeetsMinimum(g, live, scope)
  }

  ghost predicate AdmissibleAt(g: Graph, at: Instant) {
    Admissible(g, Live(g, at))
  }

  ghost predicate RowsDeclared(g: Graph) {
    && (forall i :: 0 <= i < |g.edges| ==> g.edges[i].relationId == g.descriptor.id)
    && (forall i :: 0 <= i < |g.obligations| ==>
          g.obligations[i].relationId == g.descriptor.id && !g.obligations[i].direction.Undeclared?)
  }

  ghost predicate PairIdentities(g: Graph) {
    g.descriptor.policy == ByEndpointPair ==>
      forall i, j :: 0 <= i < |g.edges| && 0 <= j < |g.edges| && g.edges[i].Pair() == g.edges[j].Pair() ==>
        g.edges[i].edgeId == g.edges[j].edgeId
  }

  /** The whole specification: declarations, the pair policy, and the statement about every instant. */
  ghost predicate GraphValid(g: Graph) {
    RowsDeclared(g) && PairIdentities(g) && forall at :: AdmissibleAt(g, at)
  }

  // ---- what it says ----

  /** Live edges from an endpoint, and to one. */
  ghost function EdgesFrom(g: Graph, live: set<Row>, e: EntityRef): set<Row>
    requires live <= Rows(g)
  {
    set row | row in live && row.EdgeRow? && g.edges[row.index].source == e
  }

  ghost function EdgesTo(g: Graph, live: set<Row>, e: EntityRef): set<Row>
    requires live <= Rows(g)
  {
    set row | row in live && row.EdgeRow? && g.edges[row.index].target == e
  }

  /** A live obligation asks for the minimum in a direction at an endpoint. */
  ghost predicate Obliged(g: Graph, live: set<Row>, direction: Direction, e: EntityRef)
    requires live <= Rows(g)
  {
    exists i: nat ::
      ObligationRow(i) in live && g.obligations[i].direction == direction && g.obligations[i].endpoint == e
  }

  /** A number of live edges that a cardinality allows. */
  predicate Allows(c: Cardinality, obliged: bool, n: nat) {
    (c.maximum.Some? ==> n <= c.maximum.value) && (obliged ==> c.minimum <= n)
  }

  ghost predicate JoinedOnce(g: Graph, live: set<Row>)
    requires live <= Rows(g)
  {
    forall i: nat, j: nat :: EdgeRow(i) in live && EdgeRow(j) in live && i != j ==>
      g.edges[i].source != g.edges[j].source || g.edges[i].target != g.edges[j].target
  }

  ghost predicate ObligedOnce(g: Graph, live: set<Row>)
    requires live <= Rows(g)
  {
    forall i: nat, j: nat :: ObligationRow(i) in live && ObligationRow(j) in live && i != j ==>
      g.obligations[i].direction != g.obligations[j].direction
        || g.obligations[i].endpoint != g.obligations[j].endpoint
  }

  ghost predicate Balanced(g: Graph, live: set<Row>, e: EntityRef)
    requires live <= Rows(g)
  {
    && Allows(g.descriptor.targetsPerSource, Obliged(g, live, TargetsPerSource, e), |EdgesFrom(g, live, e)|)
    && Allows(g.descriptor.sourcesPerTarget, Obliged(g, live, SourcesPerTarget, e), |EdgesTo(g, live, e)|)
  }

  /** Admissible rows: no pair joined twice, no endpoint obliged twice in one direction, every source within the bounds
      on its targets and every target within those on its sources, minima only where an obligation asks for them. */
  lemma AdmissibleExactly(g: Graph, live: set<Row>)
    requires live <= Rows(g) && RowsDeclared(g)
    ensures Admissible(g, live) <==>
      JoinedOnce(g, live) && ObligedOnce(g, live) && forall e: EntityRef :: Balanced(g, live, e)
  {
    forall e: EntityRef
      ensures Balanced(g, live, e) <==>
        && WithinMaximum(g, live, Scope(TargetsPerSource, e)) && MeetsMinimum(g, live, Scope(TargetsPerSource, e))
        && WithinMaximum(g, live, Scope(SourcesPerTarget, e)) && MeetsMinimum(g, live, Scope(SourcesPerTarget, e))
    {
      BalancedScopes(g, live, e);
    }
    forall i: nat, j: nat | ObligationRow(i) in live && ObligationRow(j) in live
      ensures ScopesOf(g, ObligationRow(i)) == ScopesOf(g, ObligationRow(j)) <==>
        g.obligations[i].direction == g.obligations[j].direction
          && g.obligations[i].endpoint == g.obligations[j].endpoint
    {
      assert Scope(g.obligations[i].direction, g.obligations[i].endpoint) in ScopesOf(g, ObligationRow(i));
    }
    assert ObligationsDisjoint(g, live) <==> ObligedOnce(g, live);
    assert PairsDisjoint(g, live) <==> JoinedOnce(g, live);
  }

  lemma BalancedScopes(g: Graph, live: set<Row>, e: EntityRef)
    requires live <= Rows(g)
    ensures Balanced(g, live, e) <==>
      && WithinMaximum(g, live, Scope(TargetsPerSource, e)) && MeetsMinimum(g, live, Scope(TargetsPerSource, e))
      && WithinMaximum(g, live, Scope(SourcesPerTarget, e)) && MeetsMinimum(g, live, Scope(SourcesPerTarget, e))
  {
    assert Incident(g, live, Scope(TargetsPerSource, e)) == EdgesFrom(g, live, e);
    assert Incident(g, live, Scope(SourcesPerTarget, e)) == EdgesTo(g, live, e);
    assert Activated(g, live, Scope(TargetsPerSource, e)) <==> Obliged(g, live, TargetsPerSource, e);
    assert Activated(g, live, Scope(SourcesPerTarget, e)) <==> Obliged(g, live, SourcesPerTarget, e);
  }
}
