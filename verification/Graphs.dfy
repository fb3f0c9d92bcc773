/** Finite directed graphs over partition names: paths, reachability, mutual reachability. */
module Graphs {

  /** Adjacency lists; the keys are the nodes. */
  type Graph<N> = map<N, seq<N>>

  ghost predicate Closed<N(!new)>(g: Graph<N>) {
    forall a, b :: Edge(g, a, b) ==> b in g
  }

  predicate Edge<N(==)>(g: Graph<N>, a: N, b: N) {
    a in g && b in g[a]
  }

  predicate IsPath<N(==)>(g: Graph<N>, p: seq<N>) {
    && |p| > 0
    && p[0] in g
    && forall i :: 0 <= i < |p| - 1 ==> Edge(g, p[i], p[i + 1])
  }

  predicate Joins<N(==)>(p: seq<N>, a: N, b: N) {
    |p| > 0 && p[0] == a && p[|p| - 1] == b
  }

  ghost predicate Reaches<N(!new)>(g: Graph<N>, a: N, b: N) {
    exists p :: IsPath(g, p) && Joins(p, a, b)
  }

  ghost predicate Mutual<N(!new)>(g: Graph<N>, a: N, b: N) {
    Reaches(g, a, b) && Reaches(g, b, a)
  }

  /** On a cycle: some path of at least one edge returns to the node. */
  ghost predicate OnCycle<N(!new)>(g: Graph<N>, a: N) {
    exists b :: Edge(g, a, b) && Reaches(g, b, a)
  }

  lemma ReachesSelf<N(!new)>(g: Graph<N>, a: N)
    requires a in g
    ensures Reaches(g, a, a)
  {
    assert IsPath(g, [a]) && Joins([a], a, a);
  }

  lemma ReachesTrans<N(!new)>(g: Graph<N>, a: N, b: N, c: N)
    requires Reaches(g, a, b) && Reaches(g, b, c)
    ensures Reaches(g, a, c)
  {
    var p :| IsPath(g, p) && Joins(p, a, b);
    var q :| IsPath(g, q) && Joins(q, b, c);
    var r := p + q[1..];
    forall i | 0 <= i < |r| - 1 ensures Edge(g, r[i], r[i + 1]) {
      if i >= |p| - 1 {
        assert r[i] == q[i - |p| + 1] && r[i + 1] == q[i - |p| + 2];
      }
    }
    assert IsPath(g, r) && Joins(r, a, c);
  }

  lemma ReachesEdge<N(!new)>(g: Graph<N>, a: N, b: N)
    requires Edge(g, a, b)
    ensures Reaches(g, a, b)
  {
    var p := [a, b];
    assert IsPath(g, p) && Joins(p, a, b);
  }

  /** Endpoints of a path are nodes. */
  lemma ReachesNodes<N(!new)>(g: Graph<N>, a: N, b: N)
    requires Closed(g) && Reaches(g, a, b)
    ensures a in g && b in g
  {
    var p :| IsPath(g, p) && Joins(p, a, b);
    if |p| > 1 {
      assert Edge(g, p[|p| - 2], p[|p| - 1]);
    }
  }

  /** A path out of a set crosses its border along some edge. */
  lemma {:induction false} Border<N(!new)>(g: Graph<N>, inside: set<N>, p: seq<N>, a: N, b: N) returns (x: N, y: N)
    requires Closed(g) && IsPath(g, p) && Joins(p, a, b) && a in inside && b !in inside
    ensures x in inside && y !in inside && Edge(g, x, y)
    ensures Reaches(g, a, x) && Reaches(g, y, b)
    decreases |p|
  {
    assert |p| > 1 && Edge(g, p[0], p[1]);
    ReachesSelf(g, a);
    if p[1] !in inside {
      x, y := p[0], p[1];
      TailPath(g, p);
    } else {
      TailPath(g, p);
      x, y := Border(g, inside, p[1..], p[1], b);
      ReachesEdge(g, a, p[1]);
      ReachesTrans(g, a, p[1], x);
    }
  }

  lemma TailPath<N(!new)>(g: Graph<N>, p: seq<N>)
    requires IsPath(g, p) && |p| > 1
    ensures p[1] in g ==> IsPath(g, p[1..]) && Joins(p[1..], p[1], p[|p| - 1]) && Reaches(g, p[1], p[|p| - 1])
  {
    var q := p[1..];
    assert forall i :: 0 <= i < |q| ==> q[i] == p[i + 1];
    if p[1] in g {
      assert IsPath(g, q) && Joins(q, p[1], p[|p| - 1]);
    }
  }

  /** A set closed under edges keeps everything its members reach. */
  lemma ClosedSetKeeps<N(!new)>(g: Graph<N>, s: set<N>, a: N, b: N)
    requires Closed(g) && Reaches(g, a, b) && a in s
    requires forall x, y :: x in s && Edge(g, x, y) ==> y in s
    ensures b in s
  {
    if b !in s {
      var p :| IsPath(g, p) && Joins(p, a, b);
      var x, y := Border(g, s, p, a, b);
    }
  }

  /** A set closed under incoming edges keeps everything that reaches its members. */
  lemma ClosedSetDraws<N(!new)>(g: Graph<N>, s: set<N>, a: N, b: N)
    requires Closed(g) && Reaches(g, a, b) && b in s
    requires forall x, y :: y in s && Edge(g, x, y) ==> x in s
    ensures a in s
  {
    if a !in s {
      ReachesNodes(g, a, b);
      var p :| IsPath(g, p) && Joins(p, a, b);
      var x, y := Border(g, g.Keys - s, p, a, b);
    }
  }
}
