/** The half-open interval sweep over a merged relation graph: it looks only at event points and only
    at the scopes touched there, yet decides the statement about every instant. */
module RelationSweep {
  import opened EventTable
  import opened Ids
  import opened Time
  import opened RelationGraph

  datatype Code =
    | RelationDeclaration | RelationPair | ObligationOverlap | RelationMaximum | RelationMinimum

  datatype Verdict = Accepted | Rejected(code: Code, at: Option<Instant>)

  datatype Change = Change(opens: bool, row: Row)

  /** The sweep's running indexes. */
  datatype State = State(pairs: set<(EntityRef, EntityRef)>, counts: map<Scope, int>, active: set<Scope>)

  function CountOf(counts: map<Scope, int>, scope: Scope): int {
    if scope in counts then counts[scope] else 0
  }

  predicate Fires(g: Graph, change: Change, at: Instant) {
    && RowOf(g, change.row)
    && ValidOf(g, change.row).Some?
    && var valid := ValidOf(g, change.row).value;
       if change.opens then valid.start == at else valid.end == Some(at)
  }

  /** The events recorded are exactly those of the rows in `done`, each once. */
  ghost predicate EventsOf(g: Graph, events: Events<Change>, done: set<Row>) {
    forall at ::
      && Distinct(ChangesAt(events, at))
      && forall change :: change in ChangesAt(events, at) <==> change.row in done && Fires(g, change, at)
  }

  lemma RecordAdds(g: Graph, events: Events<Change>, at: Instant, change: Change)
    requires forall t :: Distinct(ChangesAt(events, t)) && forall c :: c in ChangesAt(events, t) ==> Fires(g, c, t)
    requires Fires(g, change, at) && change !in ChangesAt(events, at)
    ensures forall t :: Distinct(ChangesAt(Record(events, at, change), t))
    ensures forall t, c :: c in ChangesAt(Record(events, at, change), t) <==>
      c in ChangesAt(events, t) || (c == change && t == at)
  {
    var r := Record(events, at, change);
    forall t ensures ChangesAt(r, t) == ChangesAt(events, t) + (if t == at then [change] else []) {
    }
  }

  method RecordRow(g: Graph, events: Events<Change>, row: Row, ghost done: set<Row>) returns (r: Events<Change>)
    requires RowOf(g, row) && row !in done && EventsOf(g, events, done)
    ensures EventsOf(g, r, done + {row})
  {
    r := events;
    if ValidOf(g, row).Some? {
      var valid := ValidOf(g, row).value;
      RecordAdds(g, r, valid.start, Change(true, row));
      r := Record(r, valid.start, Change(true, row));
      if valid.end.Some? {
        RecordAdds(g, r, valid.end.value, Change(false, row));
        r := Record(r, valid.end.value, Change(false, row));
      }
    }
  }

  /** The two declaration loops: reject ill-formed rows, otherwise collect the boundary events. */
  method CollectEvents(g: Graph) returns (verdict: Verdict, events: Events<Change>)
    ensures verdict.Accepted? ==> RowsDeclared(g) && PairIdentities(g) && EventsOf(g, events, Rows(g))
    ensures verdict.Rejected? ==>
      && verdict.at.None?
      && ((verdict.code == RelationDeclaration && !RowsDeclared(g))
      || (verdict.code == RelationPair && !PairIdentities(g)))
  {
    events := map[];
    var identities: map<(EntityRef, EntityRef), string> := map[];
    ghost var done: set<Row> := {};
    for k := 0 to |g.edges|
      invariant done == set i | 0 <= i < k :: EdgeRow(i)
      invariant EventsOf(g, events, done)
      invariant forall i :: 0 <= i < k ==> g.edges[i].relationId == g.descriptor.id
      invariant g.descriptor.policy == ByEndpointPair ==>
        forall i :: 0 <= i < k ==> g.edges[i].Pair() in identities && identities[g.edges[i].Pair()] == g.edges[i].edgeId
      invariant forall pair :: pair in identities ==>
        exists i :: 0 <= i < k && g.edges[i].Pair() == pair && g.edges[i].edgeId == identities[pair]
    {
      var edge := g.edges[k];
      if edge.relationId != g.descriptor.id {
        return Rejected(RelationDeclaration, None), events;
      }
      if g.descriptor.policy == ByEndpointPair {
        if edge.Pair() in identities && identities[edge.Pair()] != edge.edgeId {
          return Rejected(RelationPair, None), events;
        }
        identities := identities[edge.Pair() := edge.edgeId];
      }
      events := RecordRow(g, events, EdgeRow(k), done);
      done := done + {EdgeRow(k)};
    }
    for k := 0 to |g.obligations|
      invariant done == (set i | 0 <= i < |g.edges| :: EdgeRow(i)) + (set i | 0 <= i < k :: ObligationRow(i))
      invariant EventsOf(g, events, done)
      invariant forall i :: 0 <= i < k ==>
        g.obligations[i].relationId == g.descriptor.id && !g.obligations[i].direction.Undeclared?
    {
      var obligation := g.obligations[k];
      if obligation.relationId != g.descriptor.id || obligation.direction.Undeclared? {
        return Rejected(RelationDeclaration, None), events;
      }
      events := RecordRow(g, events, ObligationRow(k), done);
      done := done + {ObligationRow(k)};
    }
    verdict := Accepted;
  }

  /** The running indexes describe exactly the rows in `live`, none of which overlap. */
  ghost predicate Represents(g: Graph, live: set<Row>, s: State) {
    && live <= Rows(g)
    && PairsDisjoint(g, live)
    && ObligationsDisjoint(g, live)
    && (forall pair :: pair in s.pairs <==> exists i: nat :: EdgeRow(i) in live && g.edges[i].Pair() == pair)
    && (forall scope :: scope in s.active <==> Activated(g, live, scope))
    && (forall scope :: CountOf(s.counts, scope) == |Incident(g, live, scope)|)
  }

  predicate ScopeAdmitted(d: Descriptor, s: State, scope: Scope) {
    var bound := Bound(d, scope.direction);
    && (bound.maximum.Some? ==> CountOf(s.counts, scope) <= bound.maximum.value)
    && (scope in s.active ==> CountOf(s.counts, scope) >= bound.minimum)
  }

  lemma AdmissibleFromState(g: Graph, live: set<Row>, s: State)
    requires Represents(g, live, s)
    ensures Admissible(g, live) <==> forall scope :: ScopeAdmitted(g.descriptor, s, scope)
  {
    if Admissible(g, live) {
      forall scope ensures ScopeAdmitted(g.descriptor, s, scope) {
        assert WithinMaximum(g, live, scope) && MeetsMinimum(g, live, scope);
      }
    }
    if forall scope :: ScopeAdmitted(g.descriptor, s, scope) {
      forall scope: Scope ensures WithinMaximum(g, live, scope) && MeetsMinimum(g, live, scope) {
        assert ScopeAdmitted(g.descriptor, s, scope);
      }
    }
  }

  /** Scopes outside `affected` look the same in both states. */
  ghost predicate SameOutside(s: State, t: State, affected: set<Scope>) {
    forall scope :: scope !in affected ==>
      CountOf(s.counts, scope) == CountOf(t.counts, scope) && (scope in s.active <==> scope in t.active)
  }

  function Adjust(counts: map<Scope, int>, scope: Scope, delta: int): map<Scope, int> {
    counts[scope := CountOf(counts, scope) + delta]
  }

  function Closed(g: Graph, s: State, row: Row): State
    requires RowOf(g, row)
  {
    match row
    case EdgeRow(i) =>
      var e := g.edges[i];
      State(s.pairs - {e.Pair()},
            Adjust(Adjust(s.counts, Scope(TargetsPerSource, e.source), -1), Scope(SourcesPerTarget, e.target), -1),
            s.active)
    case ObligationRow(i) => s.(active := s.active - {Scope(g.obligations[i].direction, g.obligations[i].endpoint)})
  }

  function Opened(g: Graph, s: State, row: Row): State
    requires RowOf(g, row)
  {
    match row
    case EdgeRow(i) =>
      var e := g.edges[i];
      State(s.pairs + {e.Pair()},
            Adjust(Adjust(s.counts, Scope(TargetsPerSource, e.source), 1), Scope(SourcesPerTarget, e.target), 1),
            s.active)
    case ObligationRow(i) => s.(active := s.active + {Scope(g.obligations[i].direction, g.obligations[i].endpoint)})
  }

  lemma IncidentWithout(g: Graph, live: set<Row>, row: Row, scope: Scope)
    requires live <= Rows(g) && row in live
    ensures |Incident(g, live - {row}, scope)| ==
            |Incident(g, live, scope)| - (if row.EdgeRow? && scope in ScopesOf(g, row) then 1 else 0)
  {
    if row.EdgeRow? && scope in ScopesOf(g, row) {
      assert Incident(g, live - {row}, scope) == Incident(g, live, scope) - {row};
    } else {
      assert Incident(g, live - {row}, scope) == Incident(g, live, scope);
    }
  }

  lemma ClosedRepresents(g: Graph, live: set<Row>, s: State, row: Row)
    requires Represents(g, live, s) && row in live
    ensures Represents(g, live - {row}, Closed(g, s, row))
    ensures SameOutside(s, Closed(g, s, row), ScopesOf(g, row))
  {
    var rest, t := live - {row}, Closed(g, s, row);
    forall scope ensures CountOf(t.counts, scope) == |Incident(g, rest, scope)| {
      IncidentWithout(g, live, row, scope);
    }
    forall scope ensures scope in t.active <==> Activated(g, rest, scope) {
      if scope in t.active {
        var i: nat :| ObligationRow(i) in live && scope in ScopesOf(g, ObligationRow(i));
        assert ObligationRow(i) in rest;
      }
    }
    forall pair ensures pair in t.pairs <==> exists i: nat :: EdgeRow(i) in rest && g.edges[i].Pair() == pair {
      if pair in t.pairs {
        var i: nat :| EdgeRow(i) in live && g.edges[i].Pair() == pair;
        assert EdgeRow(i) in rest;
      }
    }
  }

  lemma OpenedRepresents(g: Graph, live: set<Row>, s: State, row: Row)
    requires Represents(g, live, s) && RowOf(g, row) && row !in live
    requires row.EdgeRow? ==> g.edges[row.index].Pair() !in s.pairs
    requires row.ObligationRow? ==>
      Scope(g.obligations[row.index].direction, g.obligations[row.index].endpoint) !in s.active
    ensures Represents(g, live + {row}, Opened(g, s, row))
    ensures SameOutside(s, Opened(g, s, row), ScopesOf(g, row))
  {
    var more, t := live + {row}, Opened(g, s, row);
    assert more - {row} == live;
    forall scope ensures CountOf(t.counts, scope) == |Incident(g, more, scope)| {
      IncidentWithout(g, more, row, scope);
    }
    forall scope ensures scope in t.active <==> Activated(g, more, scope) {
      if scope in t.active && scope in s.active {
        var i: nat :| ObligationRow(i) in live && scope in ScopesOf(g, ObligationRow(i));
        assert ObligationRow(i) in more;
      } else if scope in t.active {
        assert row in more && scope in ScopesOf(g, row);
      }
    }
    forall pair ensures pair in t.pairs <==> exists i: nat :: EdgeRow(i) in more && g.edges[i].Pair() == pair {
      if pair in s.pairs {
        var i: nat :| EdgeRow(i) in live && g.edges[i].Pair() == pair;
        assert EdgeRow(i) in more;
      }
    }
    forall i: nat, j: nat | ObligationRow(i) in more && ObligationRow(j) in more
                  && ScopesOf(g, ObligationRow(i)) == ScopesOf(g, ObligationRow(j))
      ensures i == j
    {
      var scope := Scope(g.obligations[i].direction, g.obligations[i].endpoint);
      assert scope in ScopesOf(g, ObligationRow(i)) && scope in ScopesOf(g, ObligationRow(j));
      assert Scope(g.obligations[j].direction, g.obligations[j].endpoint) == scope;
    }
  }

  /** `changes` filtered by sign; sorting by sign puts the closings first and keeps each block's order. */
  function OfSign(changes: seq<Change>, opens: bool): (r: seq<Change>)
    requires Distinct(changes)
    ensures Distinct(r)
    ensures forall c :: c in r <==> c in changes && c.opens == opens
  {
    if changes == [] then []
    else
      var rest := OfSign(changes[..|changes| - 1], opens);
      if changes[|changes| - 1].opens == opens then rest + [changes[|changes| - 1]] else rest
  }

  ghost function RowsIn(changes: seq<Change>): set<Row> {
    set c | c in changes :: c.row
  }

  /** Rows closing at an instant are live on its left; the others of its left side stay live. */
  lemma PointRows(g: Graph, at: Instant, closings: set<Row>, openings: set<Row>)
    requires forall row :: row in closings <==> Fires(g, Change(false, row), at)
    requires forall row :: row in openings <==> Fires(g, Change(true, row), at)
    ensures closings <= LiveBefore(g, at)
    ensures openings !! LiveBefore(g, at)
    ensures Live(g, at) == LiveBefore(g, at) - closings + openings
  {
    forall row | RowOf(g, row)
      ensures row in Live(g, at) <==> row in LiveBefore(g, at) - closings + openings
    {
    }
  }

  /** One more change of a block of equal sign brings one more row. */
  lemma RowsInMore(changes: seq<Change>, k: nat, opens: bool)
    requires k < |changes| && Distinct(changes) && forall c :: c in changes ==> c.opens == opens
    ensures changes[k].row !in RowsIn(changes[..k]) && RowsIn(changes[..k]) <= RowsIn(changes)
    ensures RowsIn(changes[..k + 1]) == RowsIn(changes[..k]) + {changes[k].row}
    ensures changes[k] in changes && changes[k].row in RowsIn(changes)
  {
    assert forall c :: c in changes[..k] ==> c != changes[k] && c in changes;
    assert changes[..k + 1] == changes[..k] + [changes[k]];
  }

  /** Apply one point's closings. Every removal finds its member. */
  method Close(g: Graph, s0: State, changes: seq<Change>, ghost live: set<Row>)
    returns (s: State, affected: set<Scope>)
    requires Represents(g, live, s0) && Distinct(changes)
    requires forall c :: c in changes ==> !c.opens && c.row in live
    ensures Represents(g, live - RowsIn(changes), s) && SameOutside(s0, s, affected)
  {
    s, affected := s0, {};
    ghost var now := live;
    for k := 0 to |changes|
      invariant now == live - RowsIn(changes[..k])
      invariant Represents(g, now, s) && SameOutside(s0, s, affected)
    {
      var row := changes[k].row;
      RowsInMore(changes, k, false);
      assert row.EdgeRow? ==> g.edges[row.index].Pair() in s.pairs;
      assert row.ObligationRow? ==>
        Scope(g.obligations[row.index].direction, g.obligations[row.index].endpoint) in s.active by
      {
        if row.ObligationRow? {
          assert Scope(g.obligations[row.index].direction, g.obligations[row.index].endpoint) in ScopesOf(g, row);
        }
      }
      ClosedRepresents(g, now, s, row);
      s, affected := Closed(g, s, row), affected + ScopesOf(g, row);
      now := now - {row};
    }
    assert changes[..|changes|] == changes;
  }

  /** Why a row may not open beside the live ones: its pair, or its obligation's scope, is taken. */
  function Clash(g: Graph, s: State, row: Row): Option<Code>
    requires RowOf(g, row)
  {
    match row
    case EdgeRow(i) => if g.edges[i].Pair() in s.pairs then Some(RelationPair) else None
    case ObligationRow(i) =>
      if Scope(g.obligations[i].direction, g.obligations[i].endpoint) in s.active then Some(ObligationOverlap) else None
  }

  ghost predicate Overlapping(g: Graph, live: set<Row>, code: Code)
    requires live <= Rows(g)
  {
    || (code == RelationPair && !PairsDisjoint(g, live))
    || (code == ObligationOverlap && !ObligationsDisjoint(g, live))
  }

  lemma ClashIsReal(g: Graph, now: set<Row>, s: State, row: Row, all: set<Row>)
    requires Represents(g, now, s) && RowOf(g, row) && row !in now && Clash(g, s, row).Some?
    requires now <= all && row in all && all <= Rows(g)
    ensures Overlapping(g, all, Clash(g, s, row).value)
  {
    match row
    case EdgeRow(i) =>
      var j: nat :| EdgeRow(j) in now && g.edges[j].Pair() == g.edges[i].Pair();
      assert EdgeRow(j) in all && EdgeRow(i) in all;
    case ObligationRow(i) =>
      var scope := Scope(g.obligations[i].direction, g.obligations[i].endpoint);
      var j: nat :| ObligationRow(j) in now && scope in ScopesOf(g, ObligationRow(j));
      assert ObligationRow(j) in all && ScopesOf(g, ObligationRow(i)) == ScopesOf(g, ObligationRow(j));
  }

  /** Apply one point's openings, refusing a pair or an obligation scope that is already live. */
  method Open(g: Graph, s0: State, changes: seq<Change>, touched: set<Scope>, ghost live: set<Row>)
    returns (overlap: Option<Code>, s: State, affected: set<Scope>)
    requires Represents(g, live, s0) && Distinct(changes)
    requires forall c :: c in changes ==> c.opens && RowOf(g, c.row) && c.row !in live
    ensures overlap.None? ==>
      && Represents(g, live + RowsIn(changes), s)
      && touched <= affected && SameOutside(s0, s, affected)
    ensures overlap.Some? ==>
      live + RowsIn(changes) <= Rows(g) && Overlapping(g, live + RowsIn(changes), overlap.value)
  {
    overlap, s, affected := None, s0, touched;
    ghost var now := live;
    for k := 0 to |changes|
      invariant overlap.None? && now == live + RowsIn(changes[..k])
      invariant Represents(g, now, s) && touched <= affected && SameOutside(s0, s, affected)
    {
      var row := changes[k].row;
      RowsInMore(changes, k, true);
      overlap := Clash(g, s, row);
      if overlap.Some? {
        ClashIsReal(g, now, s, row, live + RowsIn(changes));
        return;
      }
      OpenedRepresents(g, now, s, row);
      s, affected := Opened(g, s, row), affected + ScopesOf(g, row);
      now := now + {row};
    }
    assert changes[..|changes|] == changes;
  }

  /** Check the bounds of the touched scopes only. */
  method CheckAffected(g: Graph, s: State, affected: set<Scope>, ghost live: set<Row>) returns (failure: Option<Code>)
    requires Represents(g, live, s)
    ensures failure.None? ==> forall scope :: scope in affected ==> ScopeAdmitted(g.descriptor, s, scope)
    ensures failure.Some? ==>
      || (failure.value == RelationMaximum && exists scope :: !WithinMaximum(g, live, scope))
      || (failure.value == RelationMinimum && exists scope :: !MeetsMinimum(g, live, scope))
  {
    failure := None;
    var rest := affected;
    while rest != {}
      invariant rest <= affected
      invariant forall scope :: scope in affected - rest ==> ScopeAdmitted(g.descriptor, s, scope)
    {
      var scope :| scope in rest;
      var bound := Bound(g.descriptor, scope.direction);
      var count := CountOf(s.counts, scope);
      if bound.maximum.Some? && count > bound.maximum.value {
        assert !WithinMaximum(g, live, scope);
        return Some(RelationMaximum);
      }
      if scope in s.active && count < bound.minimum {
        assert !MeetsMinimum(g, live, scope);
        return Some(RelationMinimum);
      }
      rest := rest - {scope};
    }
  }

  /** What a rejection code at a point accuses the rows live there of. */
  ghost predicate Accuses(code: Code, g: Graph, live: set<Row>)
    requires live <= Rows(g)
  {
    match code
    case RelationPair => !PairsDisjoint(g, live)
    case ObligationOverlap => !ObligationsDisjoint(g, live)
    case RelationMaximum => exists scope :: !WithinMaximum(g, live, scope)
    case RelationMinimum => exists scope :: !MeetsMinimum(g, live, scope)
    case RelationDeclaration => false
  }

  /** One event point: closings, openings, then the touched scopes' bounds. */
  method SweepPoint(g: Graph, at: Instant, changes: seq<Change>, s0: State) returns (failure: Option<Code>, s: State)
    requires Distinct(changes)
    requires forall c :: c in changes <==> Fires(g, c, at)
    requires Represents(g, LiveBefore(g, at), s0) && Admissible(g, LiveBefore(g, at))
    ensures failure.None? ==> Represents(g, Live(g, at), s) && AdmissibleAt(g, at)
    ensures failure.Some? ==> Accuses(failure.value, g, Live(g, at))
  {
    var closings, openings := OfSign(changes, false), OfSign(changes, true);
    PointRows(g, at, RowsIn(closings), RowsIn(openings)) by {
      forall row ensures row in RowsIn(closings) <==> Fires(g, Change(false, row), at) {
        assert Change(false, row) in closings <==> Change(false, row) in changes;
      }
      forall row ensures row in RowsIn(openings) <==> Fires(g, Change(true, row), at) {
        assert Change(true, row) in openings <==> Change(true, row) in changes;
      }
    }
    ghost var before := LiveBefore(g, at);
    forall c | c in closings ensures c.row in before { assert c.row in RowsIn(closings); }
    forall c | c in openings ensures c.row !in before - RowsIn(closings) { assert c.row in RowsIn(openings); }
    var touched: set<Scope>;
    var s1, affected;
    s1, touched := Close(g, s0, closings, before);
    failure, s, affected := Open(g, s1, openings, touched, before - RowsIn(closings));
    if failure.None? {
      failure := CheckAffected(g, s, affected, Live(g, at));
      if failure.None? {
        AdmissibleFromState(g, before, s0);
        assert SameOutside(s0, s, affected);
        forall scope ensures ScopeAdmitted(g.descriptor, s, scope) {
          if scope !in affected {
            assert ScopeAdmitted(g.descriptor, s0, scope);
          }
        }
        AdmissibleFromState(g, Live(g, at), s);
      }
    }
  }

  /** Nothing changes between event points. */
  lemma SteadyRows(g: Graph, events: Events<Change>, at: Instant, later: Instant)
    requires EventsOf(g, events, Rows(g)) && AtMost(at, later)
    ensures (forall p :: p in events && Less(at, p) ==> Less(later, p)) ==> Live(g, later) == Live(g, at)
    ensures Less(at, later) && (forall p :: p in events && Less(at, p) ==> AtMost(later, p)) ==>
      LiveBefore(g, later) == Live(g, at)
  {
    forall row | RowOf(g, row) && ValidOf(g, row).Some?
      ensures ValidOf(g, row).value.start in events
      ensures ValidOf(g, row).value.end.Some? ==> ValidOf(g, row).value.end.value in events
    {
      var valid := ValidOf(g, row).value;
      assert Fires(g, Change(true, row), valid.start) && Change(true, row) in ChangesAt(events, valid.start);
      if valid.end.Some? {
        assert Fires(g, Change(false, row), valid.end.value)
          && Change(false, row) in ChangesAt(events, valid.end.value);
      }
    }
  }

  /** Before the first event nothing is live. */
  lemma NothingLive(g: Graph, events: Events<Change>, at: Instant)
    requires EventsOf(g, events, Rows(g))
    ensures (forall p :: p in events ==> Less(at, p)) ==> Live(g, at) == {}
    ensures (forall p :: p in events ==> AtMost(at, p)) ==> LiveBefore(g, at) == {}
  {
    forall row | RowOf(g, row) && ValidOf(g, row).Some?
      ensures ValidOf(g, row).value.start in events
    {
      var valid := ValidOf(g, row).value;
      assert Fires(g, Change(true, row), valid.start) && Change(true, row) in ChangesAt(events, valid.start);
    }
  }

  /** Every instant before all of `points` is admissible. */
  ghost predicate ClearBefore(g: Graph, points: set<Instant>) {
    forall t :: (forall p :: p in points ==> Less(t, p)) ==> AdmissibleAt(g, t)
  }

  /** `points` are the event points still ahead of `last`, and `live` the rows left live by it. */
  ghost predicate Ahead(g: Graph, events: Events<Change>, points: set<Instant>, last: Option<Instant>, live: set<Row>) {
    && points <= events.Keys
    && (last.None? ==> points == events.Keys && live == {})
    && (last.Some? ==> live == Live(g, last.value) && forall p :: p in events ==>
    (p in points <==> Less(last.value, p)))
  }

  lemma ClearInitially(g: Graph, events: Events<Change>)
    requires EventsOf(g, events, Rows(g))
    ensures Represents(g, {}, State({}, map[], {})) && Admissible(g, {}) && ClearBefore(g, events.Keys)
  {
    forall scope: Scope ensures Incident(g, {}, scope) == {} { }
    assert Admissible(g, {}) by {
      forall scope: Scope ensures WithinMaximum(g, {}, scope) && MeetsMinimum(g, {}, scope) {
        assert Incident(g, {}, scope) == {};
      }
    }
    forall t | forall p :: p in events.Keys ==> Less(t, p) ensures AdmissibleAt(g, t) { NothingLive(g, events, t); }
  }

  lemma LeftOfNext(g: Graph, events: Events<Change>, points: set<Instant>, last: Option<Instant>, live: set<Row>,
                   at: Instant)
    requires EventsOf(g, events, Rows(g)) && Ahead(g, events, points, last, live)
    requires at in points && forall p :: p in points ==> AtMost(at, p)
    ensures LiveBefore(g, at) == live
    ensures Ahead(g, events, points - {at}, Some(at), Live(g, at))
  {
    if last.Some? {
      SteadyRows(g, events, last.value, at);
    } else {
      NothingLive(g, events, at);
    }
  }

  lemma ClearAfter(g: Graph, events: Events<Change>, points: set<Instant>, at: Instant)
    requires EventsOf(g, events, Rows(g)) && ClearBefore(g, points) && AdmissibleAt(g, at)
    requires at in points && forall p :: p in points ==> AtMost(at, p)
    requires forall p :: p in events && Less(at, p) ==> p in points
    ensures ClearBefore(g, points - {at})
  {
    forall t | forall p :: p in points - {at} ==> Less(t, p) ensures AdmissibleAt(g, t) {
      if AtMost(at, t) {
        SteadyRows(g, events, at, t);
      } else {
        assert forall p :: p in points ==> Less(t, p);
      }
    }
  }

  /** The sweep over the sorted event points. */
  method Sweep(g: Graph, events: Events<Change>) returns (verdict: Verdict)
    requires EventsOf(g, events, Rows(g))
    ensures verdict.Accepted? ==> forall at :: AdmissibleAt(g, at)
    ensures verdict.Rejected? ==>
      && verdict.at.Some?
      && Accuses(verdict.code, g, Live(g, verdict.at.value))
      && forall t :: Less(t, verdict.at.value) ==> AdmissibleAt(g, t)
  {
    var points := events.Keys;
    var s := State({}, map[], {});
    ghost var live: set<Row> := {};
    ghost var last: Option<Instant> := None;
    ClearInitially(g, events);
    while points != {}
      invariant Ahead(g, events, points, last, live)
      invariant Represents(g, live, s) && Admissible(g, live)
      invariant ClearBefore(g, points)
    {
      LeastInstant(points);
      var at :| at in points && forall p :: p in points ==> AtMost(at, p);
      LeftOfNext(g, events, points, last, live, at);
      var failure;
      failure, s := SweepPoint(g, at, ChangesAt(events, at), s);
      if failure.Some? {
        return Rejected(failure.value, Some(at));
      }
      ClearAfter(g, events, points, at);
      points, live, last := points - {at}, Live(g, at), Some(at);
    }
    verdict := Accepted;
  }

  /** The validator: it accepts exactly the graphs that satisfy the statement about every instant, and a
      rejection at a point names a clause broken there, at the first instant where anything is broken. */
  method ValidateGraph(g: Graph) returns (verdict: Verdict)
    ensures verdict.Accepted? <==> GraphValid(g)
    ensures verdict.Rejected? && verdict.at.None? ==>
      (verdict.code == RelationDeclaration && !RowsDeclared(g)) || (verdict.code == RelationPair && !PairIdentities(g))
    ensures verdict.Rejected? && verdict.at.Some? ==>
      && Accuses(verdict.code, g, Live(g, verdict.at.value))
      && forall t :: Less(t, verdict.at.value) ==> AdmissibleAt(g, t)
  {
    var events;
    verdict, events := CollectEvents(g);
    if verdict.Accepted? {
      verdict := Sweep(g, events);
      if verdict.Rejected? {
        assert !AdmissibleAt(g, verdict.at.value);
      }
    }
  }
}
