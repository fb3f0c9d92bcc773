/** Ingress streams: which partitions a stream can affect, and which partitions its watermark makes safe. */
module Ingress {
  import opened Graphs

  type Streams<N, S> = map<N, set<S>>

  /** A stream bound to a partition that influences `p`. */
  ghost predicate Flows<N(!new), S(!new)>(g: Graph<N>, bound: Streams<N, S>, s: S, p: N) {
    exists q :: q in bound && s in bound[q] && Reaches(g, q, p)
  }

  /** The fixpoint asked for: each partition depends on exactly the streams of everything that reaches it. */
  ghost predicate IsDependency<N(!new), S(!new)>(g: Graph<N>, bound: Streams<N, S>, dependencies: Streams<N, S>) {
    && dependencies.Keys == g.Keys
    && forall p, s :: p in g ==> (s in dependencies[p] <==> Flows(g, bound, s, p))
  }

  ghost function Known<N(!new), S(!new)>(dependencies: Streams<N, S>): set<(N, S)>
  {
    set p, s | p in dependencies && s in dependencies[p] :: (p, s)
  }

  ghost function Everything<N(!new), S(!new)>(g: Graph<N>, bound: Streams<N, S>): set<(N, S)>
  {
    set p, q, s | p in g && q in bound && s in bound[q] :: (p, s)
  }

  /** Sound so far: the initial bindings are kept, and everything added flows. */
  ghost predicate Sound<N(!new), S(!new)>(g: Graph<N>, bound: Streams<N, S>, dependencies: Streams<N, S>) {
    && dependencies.Keys == g.Keys && bound.Keys == g.Keys
    && (forall p, s :: p in g && s in bound[p] ==> s in dependencies[p])
    && (forall p, s :: p in g && s in dependencies[p] ==> Flows(g, bound, s, p))
  }

  lemma PushFlows<N(!new), S(!new)>(g: Graph<N>, bound: Streams<N, S>, dependencies: Streams<N, S>, a: N, b: N)
    requires Closed(g) && bound.Keys == g.Keys && Sound(g, bound, dependencies) && Edge(g, a, b)
    ensures Sound(g, bound, dependencies[b := dependencies[b] + dependencies[a]])
  {
    forall s | s in dependencies[a] ensures Flows(g, bound, s, b) {
      var q :| q in bound && s in bound[q] && Reaches(g, q, a);
      ReachesEdge(g, a, b);
      ReachesTrans(g, q, a, b);
    }
  }

  lemma SoundIsBounded<N(!new), S(!new)>(g: Graph<N>, bound: Streams<N, S>, dependencies: Streams<N, S>)
    requires Sound(g, bound, dependencies)
    ensures Known(dependencies) <= Everything(g, bound)
  {
    forall pair | pair in Known(dependencies) ensures pair in Everything(g, bound) {
      assert Flows(g, bound, pair.1, pair.0);
    }
  }

  lemma Growth<N(!new), S(!new)>(before: Streams<N, S>, after: Streams<N, S>, p: N, s: S, all: set<(N, S)>)
    requires before.Keys == after.Keys && p in before && s in after[p] && s !in before[p]
    requires forall q :: q in before ==> before[q] <= after[q]
    requires Known(after) <= all
    ensures |all - Known(after)| < |all - Known(before)|
  {
    var less, more := all - Known(after), all - Known(before);
    assert Known(before) <= Known(after);
    assert (p, s) in more && (p, s) !in less;
    assert more == less + (more - less);
    assert |more| == |less| + |more - less|;
    assert (p, s) in more - less;
  }

  /** Stable under every edge. */
  ghost predicate Settled<N(!new), S(!new)>(g: Graph<N>, dependencies: Streams<N, S>) {
    forall a, b :: Edge(g, a, b) && a in dependencies && b in dependencies ==> dependencies[a] <= dependencies[b]
  }

  lemma SettledIsDependency<N(!new), S(!new)>(g: Graph<N>, bound: Streams<N, S>, dependencies: Streams<N, S>)
    requires Closed(g) && bound.Keys == g.Keys && Sound(g, bound, dependencies) && Settled(g, dependencies)
    ensures IsDependency(g, bound, dependencies)
  {
    forall p, s | p in g && Flows(g, bound, s, p) ensures s in dependencies[p] {
      var q :| q in bound && s in bound[q] && Reaches(g, q, p);
      var holders := set x | x in g && s in dependencies[x];
      ClosedSetKeeps(g, holders, q, p);
    }
  }

  /** The first `n` targets of a node already hold its streams. */
  ghost predicate SettledFrom<N(!new), S(!new)>(g: Graph<N>, dependencies: Streams<N, S>, source: N, n: nat) {
    source in g && n <= |g[source]| && source in dependencies &&
    forall j :: 0 <= j < n ==> g[source][j] in dependencies && dependencies[source] <= dependencies[g[source][j]]
  }

  ghost predicate SettledUpto<N(!new), S(!new)>(g: Graph<N>, dependencies: Streams<N, S>, order: seq<N>, n: nat) {
    n <= |order| && forall k :: 0 <= k < n ==> order[k] in g && SettledFrom(g, dependencies, order[k], |g[order[k]]|)
  }

  /** What is still missing from the largest dependency map. */
  ghost function Slack<N(!new), S(!new)>(g: Graph<N>, bound: Streams<N, S>, dependencies: Streams<N, S>): nat {
    |Everything(g, bound) - Known(dependencies)|
  }

  lemma NoGrowth<N(!new), S(!new)>(before: Streams<N, S>, source: N, target: N)
    requires source in before && target in before && before[source] <= before[target]
    ensures before[target := before[target] + before[source]] == before
  {
    assert before[target] + before[source] == before[target];
  }

  lemma EdgeGrowth<N(!new), S(!new)>(before: Streams<N, S>, target: N, extra: set<S>, all: set<(N, S)>)
    requires target in before && !(extra <= before[target])
    requires Known(before[target := before[target] + extra]) <= all
    ensures |all - Known(before[target := before[target] + extra])| < |all - Known(before)|
  {
    var s :| s in extra && s !in before[target];
    Growth(before, before[target := before[target] + extra], target, s, all);
  }

  /** One edge: the target takes the source's streams. */
  method PushEdge<N(==, !new), S(==, !new)>(g: Graph<N>, ghost bound: Streams<N, S>, before: Streams<N, S>, source: N,
                    target: N)
    returns (after: Streams<N, S>, changed: bool)
    requires Closed(g) && Sound(g, bound, before) && Edge(g, source, target)
    ensures Sound(g, bound, after)
    ensures !changed ==> after == before && before[source] <= before[target]
    ensures changed ==> Slack(g, bound, after) < Slack(g, bound, before)
  {
    PushFlows(g, bound, before, source, target);
    after := before[target := before[target] + before[source]];
    changed := !(before[source] <= before[target]);
    if changed {
      SoundIsBounded(g, bound, after);
      EdgeGrowth(before, target, before[source], Everything(g, bound));
    } else {
      NoGrowth(before, source, target);
    }
  }

  /** One partition's targets. */
  method PushFrom<N(==, !new), S(==, !new)>(g: Graph<N>, ghost bound: Streams<N, S>, before: Streams<N, S>, source: N)
    returns (after: Streams<N, S>, changed: bool)
    requires Closed(g) && Sound(g, bound, before) && source in g
    ensures Sound(g, bound, after)
    ensures !changed ==> after == before && SettledFrom(g, before, source, |g[source]|)
    ensures changed ==> Slack(g, bound, after) < Slack(g, bound, before)
  {
    after, changed := before, false;
    for j := 0 to |g[source]|
      invariant Sound(g, bound, after)
      invariant !changed ==> after == before && SettledFrom(g, before, source, j)
      invariant changed ==> Slack(g, bound, after) < Slack(g, bound, before)
    {
      var moved;
      assert Edge(g, source, g[source][j]);
      after, moved := PushEdge(g, bound, after, source, g[source][j]);
      changed := changed || moved;
    }
  }

  /** One pass over every partition. */
  method Pass<N(==, !new), S(==, !new)>(g: Graph<N>, order: seq<N>, ghost bound: Streams<N, S>, before: Streams<N, S>)
    returns (after: Streams<N, S>, changed: bool)
    requires Closed(g) && Sound(g, bound, before) && forall p :: p in g <==> p in order
    ensures Sound(g, bound, after)
    ensures !changed ==> after == before && SettledUpto(g, before, order, |order|)
    ensures changed ==> Slack(g, bound, after) < Slack(g, bound, before)
  {
    after, changed := before, false;
    for i := 0 to |order|
      invariant Sound(g, bound, after)
      invariant !changed ==> after == before && SettledUpto(g, before, order, i)
      invariant changed ==> Slack(g, bound, after) < Slack(g, bound, before)
    {
      var moved;
      assert order[i] in order;
      after, moved := PushFrom(g, bound, after, order[i]);
      changed := changed || moved;
    }
  }

  lemma InitiallySound<N(!new), S(!new)>(g: Graph<N>, bound: Streams<N, S>)
    requires bound.Keys == g.Keys
    ensures Sound(g, bound, bound)
  {
    forall p, s | p in g && s in bound[p] ensures Flows(g, bound, s, p) {
      ReachesSelf(g, p);
    }
  }

  /** Union to a fixed point. */
  method Propagate<N(==, !new), S(==, !new)>(g: Graph<N>, order: seq<N>, bound: Streams<N, S>)
    returns (dependencies: Streams<N, S>)
    requires Closed(g) && bound.Keys == g.Keys
    requires forall p :: p in g <==> p in order
    ensures IsDependency(g, bound, dependencies)
  {
    dependencies := bound;
    InitiallySound(g, bound);
    var changed := true;
    while changed
      invariant Sound(g, bound, dependencies)
      invariant !changed ==> SettledUpto(g, dependencies, order, |order|)
      decreases Slack(g, bound, dependencies), changed
    {
      dependencies, changed := Pass(g, order, bound, dependencies);
    }
    SettledEverywhere(g, dependencies, order);
    SettledIsDependency(g, bound, dependencies);
  }

  lemma SettledEverywhere<N(!new), S(!new)>(g: Graph<N>, dependencies: Streams<N, S>, order: seq<N>)
    requires SettledUpto(g, dependencies, order, |order|) && forall p :: p in g <==> p in order
    ensures Settled(g, dependencies)
  {
    forall a, b | Edge(g, a, b) && a in dependencies && b in dependencies ensures dependencies[a] <= dependencies[b] {
      var k :| 0 <= k < |order| && order[k] == a;
      assert SettledFrom(g, dependencies, order[k], |g[order[k]]|);
    }
  }

  /** Partitions whose every stream is closed to `ns`; all of them when nothing is declared. */
  function SafePartitions<N, S>(dependencies: Streams<N, S>, watermarks: map<S, int>, ns: int): set<N>
    requires forall p, s :: p in dependencies && s in dependencies[p] ==> s in watermarks
  {
    set p | p in dependencies && forall s :: s in dependencies[p] ==> watermarks[s] >= ns
  }

  /** A safe partition's whole upstream is safe. */
  lemma SafeUpstream<N(!new), S(!new)>(g: Graph<N>, bound: Streams<N, S>, dependencies: Streams<N, S>,
                       watermarks: map<S, int>, ns: int, q: N, p: N)
    requires Closed(g) && IsDependency(g, bound, dependencies)
    requires forall p, s :: p in dependencies && s in dependencies[p] ==> s in watermarks
    requires p in SafePartitions(dependencies, watermarks, ns) && Reaches(g, q, p)
    ensures q in SafePartitions(dependencies, watermarks, ns)
  {
    ReachesNodes(g, q, p);
    forall s | s in dependencies[q] ensures watermarks[s] >= ns {
      var r :| r in bound && s in bound[r] && Reaches(g, r, q);
      ReachesTrans(g, r, q, p);
      assert Flows(g, bound, s, p);
    }
  }

  /** Partitions of one engine, and of one cohort, are safe together. */
  lemma SafeTogether<N(!new), S(!new)>(g: Graph<N>, bound: Streams<N, S>, dependencies: Streams<N, S>,
                       watermarks: map<S, int>, ns: int, group: set<N>)
    requires Closed(g) && IsDependency(g, bound, dependencies)
    requires forall p, s :: p in dependencies && s in dependencies[p] ==> s in watermarks
    requires forall a, b :: a in group && b in group ==> Edge(g, a, b)
    ensures group <= SafePartitions(dependencies, watermarks, ns)
      || group !! SafePartitions(dependencies, watermarks, ns)
  {
    if p :| p in group && p in SafePartitions(dependencies, watermarks, ns) {
      forall q | q in group ensures q in SafePartitions(dependencies, watermarks, ns) {
        ReachesEdge(g, q, p);
        SafeUpstream(g, bound, dependencies, watermarks, ns, q, p);
      }
    }
  }

  /** Watermarks only open partitions up. */
  lemma SafeGrows<N(!new), S(!new)>(dependencies: Streams<N, S>, before: map<S, int>, after: map<S, int>, earlier: int,
                    later: int)
    requires forall p, s :: p in dependencies && s in dependencies[p] ==> s in before
    requires before.Keys == after.Keys && earlier <= later
    requires forall s :: s in before ==> before[s] <= after[s]
    ensures SafePartitions(dependencies, before, later) <= SafePartitions(dependencies, after, earlier)
  {
  }
}
