/** The bind-time cycle check: an iterative two-pass search for strongly connected components of the
    zero-lag partition graph. */
module Cycles {
  import opened Graphs

  /** A stacked node with the number of its children already taken from its iterator. */
  datatype Frame<+N> = Frame(node: N, next: nat)

  ghost predicate Enumerates<N(!new)>(order: seq<N>, nodes: set<N>) {
    && (forall i, j :: 0 <= i < j < |order| ==> order[i] != order[j])
    && (forall x :: x in order <==> x in nodes)
  }

  ghost function Elements<N(!new)>(s: seq<N>): (r: set<N>)
    ensures forall x :: x in r <==> x in s
  {
    set x | x in s
  }

  ghost function Stacked<N(!new)>(stack: seq<Frame<N>>): (r: set<N>)
    ensures forall x :: x in r <==> exists k :: 0 <= k < |stack| && stack[k].node == x
  {
    set k | 0 <= k < |stack| :: stack[k].node
  }

  /** What each node saw when it finished: `open[i]` are the nodes still stacked below `finished[i]`. They
      reach it; its children are finished by then or among them; and whatever was open stays open until
      it finishes. */
  ghost predicate Postorder<N(!new)>(g: Graph<N>, finished: seq<N>, open: seq<set<N>>) {
    && |open| == |finished|
    && (forall i, j :: 0 <= i < j < |finished| ==> finished[i] != finished[j])
    && (forall i :: 0 <= i < |finished| ==> finished[i] in g)
    && (forall i, a :: 0 <= i < |finished| && a in open[i] ==> Reaches(g, a, finished[i]) && a !in finished[..i + 1])
    && (forall i, c :: 0 <= i < |finished| && Edge(g, finished[i], c) ==> c in finished[..i + 1] || c in open[i])
    && (forall i, j, a :: 0 <= i <= j < |finished| && a in open[i] ==> a in finished[..j + 1] || a in open[j])
  }

  /** The stack is a path of unfinished nodes, and the children already taken from it have been seen. */
  ghost predicate Stacking<N(!new)>(g: Graph<N>, seen: set<N>, stack: seq<Frame<N>>) {
    && (forall i, j :: 0 <= i < j < |stack| ==> stack[i].node != stack[j].node)
    && (forall k :: 0 <= k < |stack| ==> stack[k].node in g && stack[k].next <= |g[stack[k].node]|)
    && (forall k :: 0 <= k < |stack| - 1 ==> Edge(g, stack[k].node, stack[k + 1].node))
    && (forall k, c :: 0 <= k < |stack| && 0 <= c < stack[k].next ==> g[stack[k].node][c] in seen)
  }

  /** The depth-first invariant between steps. */
  ghost predicate Searching<N(!new)>(g: Graph<N>, seen: set<N>, finished: seq<N>, open: seq<set<N>>,
                              stack: seq<Frame<N>>)
  {
    && Postorder(g, finished, open)
    && Stacking(g, seen, stack)
    && seen == Elements(finished) + Stacked(stack)
    && Elements(finished) !! Stacked(stack)
    && (forall i :: 0 <= i < |open| ==> open[i] <= seen)
  }

  /** Everything stacked reaches the top of the stack. */
  lemma StackReaches<N(!new)>(g: Graph<N>, stack: seq<Frame<N>>, k: nat)
    requires k < |stack|
    requires forall i :: 0 <= i < |stack| ==> stack[i].node in g
    requires forall i :: 0 <= i < |stack| - 1 ==> Edge(g, stack[i].node, stack[i + 1].node)
    ensures Reaches(g, stack[k].node, stack[|stack| - 1].node)
    decreases |stack| - k
  {
    if k == |stack| - 1 {
      ReachesSelf(g, stack[k].node);
    } else {
      StackReaches(g, stack, k + 1);
      ReachesEdge(g, stack[k].node, stack[k + 1].node);
      ReachesTrans(g, stack[k].node, stack[k + 1].node, stack[|stack| - 1].node);
    }
  }

  lemma FinishPostorder<N(!new)>(g: Graph<N>, finished: seq<N>, open: seq<set<N>>, node: N, below: set<N>)
    requires Postorder(g, finished, open)
    requires node in g && node !in finished && node !in below && Elements(finished) !! below
    requires forall a :: a in below ==> Reaches(g, a, node)
    requires forall c :: Edge(g, node, c) ==> c == node || c in finished || c in below
    requires forall i, a :: 0 <= i < |open| && a in open[i] ==> a == node || a in finished || a in below
    ensures Postorder(g, finished + [node], open + [below])
  {
    var done := finished + [node];
    assert forall i: nat {:trigger done[..i + 1]} :: i < |finished| ==> done[..i + 1] == finished[..i + 1];
    assert done[..|finished| + 1] == done;
  }

  lemma Finish<N(!new)>(g: Graph<N>, seen: set<N>, finished: seq<N>, open: seq<set<N>>, stack: seq<Frame<N>>)
    requires Searching(g, seen, finished, open, stack) && |stack| > 0
    requires stack[|stack| - 1].next == |g[stack[|stack| - 1].node]|
    ensures Searching(g, seen, finished + [stack[|stack| - 1].node], open + [Stacked(stack[..|stack| - 1])],
      stack[..|stack| - 1])
  {
    var top := |stack| - 1;
    var node, rest := stack[top].node, stack[..top];
    assert Stacked(stack) == Stacked(rest) + {node} && node !in Stacked(rest) by {
      assert forall k :: 0 <= k < top ==> stack[k] == rest[k];
    }
    forall a | a in Stacked(rest) ensures Reaches(g, a, node) {
      var k :| 0 <= k < top && rest[k].node == a;
      StackReaches(g, stack, k);
    }
    forall c | Edge(g, node, c) ensures c in seen {
      var i :| 0 <= i < |g[node]| && g[node][i] == c;
    }
    FinishPostorder(g, finished, open, node, Stacked(rest));
  }

  function Bump<N>(stack: seq<Frame<N>>): seq<Frame<N>>
    requires |stack| > 0
  {
    stack[|stack| - 1 := Frame(stack[|stack| - 1].node, stack[|stack| - 1].next + 1)]
  }

  /** The child the top iterator offers. */
  ghost predicate Offers<N(!new)>(g: Graph<N>, stack: seq<Frame<N>>, child: N) {
    |stack| > 0 &&
    var last := stack[|stack| - 1];
    last.node in g && last.next < |g[last.node]| && g[last.node][last.next] == child
  }

  /** Pass over a child already seen. */
  lemma Advance<N(!new)>(g: Graph<N>, seen: set<N>, finished: seq<N>, open: seq<set<N>>, stack: seq<Frame<N>>, child: N)
    requires Searching(g, seen, finished, open, stack) && Offers(g, stack, child) && child in seen
    ensures Searching(g, seen, finished, open, Bump(stack))
  {
    BumpKeeps(g, seen, stack, child);
  }

  lemma BumpKeeps<N(!new)>(g: Graph<N>, seen: set<N>, stack: seq<Frame<N>>, child: N)
    requires Stacking(g, seen, stack) && Offers(g, stack, child)
    ensures Stacking(g, seen + {child}, Bump(stack)) && Stacked(Bump(stack)) == Stacked(stack)
    ensures child in seen ==> Stacking(g, seen, Bump(stack))
  {
    var moved := Bump(stack);
    assert forall k :: 0 <= k < |stack| ==> moved[k].node == stack[k].node;
    assert forall x :: x in Stacked(moved) <==> x in Stacked(stack);
    assert child in seen ==> seen + {child} == seen;
  }

  lemma PushStacked<N(!new)>(stack: seq<Frame<N>>, child: N)
    ensures Stacked(stack + [Frame(child, 0)]) == Stacked(stack) + {child}
  {
    var more := stack + [Frame(child, 0)];
    assert more[|stack|].node == child && forall k :: 0 <= k < |stack| ==> more[k] == stack[k];
  }

  lemma PushKeeps<N(!new)>(g: Graph<N>, seen: set<N>, stack: seq<Frame<N>>, child: N)
    requires Stacking(g, seen, stack) && child in g && child !in Stacked(stack)
    requires |stack| > 0 ==> Edge(g, stack[|stack| - 1].node, child)
    ensures Stacking(g, seen, stack + [Frame(child, 0)])
    ensures Stacked(stack + [Frame(child, 0)]) == Stacked(stack) + {child}
  {
    PushStacked(stack, child);
    assert forall k :: 0 <= k < |stack| ==> stack[k].node in Stacked(stack);
  }

  /** Step into an unseen child: its parent's iterator moves past it and it is pushed. */
  lemma Descend<N(!new)>(g: Graph<N>, seen: set<N>, finished: seq<N>, open: seq<set<N>>, stack: seq<Frame<N>>, child: N)
    requires Searching(g, seen, finished, open, stack) && child in g && child !in seen && Offers(g, stack, child)
    ensures Searching(g, seen + {child}, finished, open, Bump(stack) + [Frame(child, 0)])
  {
    BumpKeeps(g, seen, stack, child);
    PushKeeps(g, seen + {child}, Bump(stack), child);
  }

  /** Start from an unseen root. */
  lemma Start<N(!new)>(g: Graph<N>, seen: set<N>, finished: seq<N>, open: seq<set<N>>, root: N)
    requires Searching(g, seen, finished, open, []) && root in g && root !in seen
    ensures Searching(g, seen + {root}, finished, open, [Frame(root, 0)])
  {
    PushKeeps(g, seen + {root}, [], root);
    assert [] + [Frame(root, 0)] == [Frame(root, 0)];
  }

  lemma SeenGrows<N>(nodes: set<N>, seen: set<N>, child: N)
    requires child in nodes && child !in seen
    ensures |nodes - (seen + {child})| < |nodes - seen|
  {
    assert nodes - seen == (nodes - (seen + {child})) + {child};
  }

  /** One root's search. */
  method Search<N(==, !new)>(g: Graph<N>, root: N, seen0: set<N>, finished0: seq<N>, ghost open0: seq<set<N>>)
    returns (seen: set<N>, finished: seq<N>, ghost open: seq<set<N>>)
    requires Closed(g) && Searching(g, seen0, finished0, open0, []) && root in g && root !in seen0
    ensures Searching(g, seen, finished, open, []) && seen0 + {root} <= seen
  {
    Start(g, seen0, finished0, open0, root);
    seen, finished, open := seen0 + {root}, finished0, open0;
    var stack := [Frame(root, 0)];
    while stack != []
      invariant Searching(g, seen, finished, open, stack) && seen0 + {root} <= seen
      decreases |g.Keys - seen|, |stack|, if stack == [] then 0
        else |g[stack[|stack| - 1].node]| - stack[|stack| - 1].next
    {
      var top := |stack| - 1;
      var node, next := stack[top].node, stack[top].next;
      if next == |g[node]| {
        Finish(g, seen, finished, open, stack);
        finished, open, stack := finished + [node], open + [Stacked(stack[..top])], stack[..top];
      } else {
        var child := g[node][next];
        assert Edge(g, node, child);
        if child !in seen {
          Descend(g, seen, finished, open, stack, child);
          SeenGrows(g.Keys, seen, child);
          seen, stack := seen + {child}, Bump(stack) + [Frame(child, 0)];
        } else {
          Advance(g, seen, finished, open, stack, child);
          stack := Bump(stack);
        }
      }
    }
  }

  ghost predicate FinishesLater<N(!new)>(g: Graph<N>, finished: seq<N>, u: N, i: nat) {
    exists j :: i < j < |finished| && Mutual(g, u, finished[j])
  }

  lemma LateFrom<N(!new)>(g: Graph<N>, finished: seq<N>, open: seq<set<N>>, u: N, m: nat, i: nat)
    requires Closed(g) && Postorder(g, finished, open) && Enumerates(finished, g.Keys)
    requires i < |finished| && Reaches(g, u, finished[i])
    requires m < |finished| && Mutual(g, u, finished[m])
    ensures Reaches(g, finished[i], u) || FinishesLater(g, finished, u, i)
    decreases |finished| - m
  {
    if m < i {
      var w, inside := finished[m], Elements(finished[..m + 1]);
      assert forall k :: 0 <= k <= m ==> finished[..m + 1][k] == finished[k];
      ReachesTrans(g, w, u, finished[i]);
      var p :| IsPath(g, p) && Joins(p, w, finished[i]);
      var x, y := Border(g, inside, p, w, finished[i]);
      var k :| 0 <= k <= m && finished[k] == x;
      assert finished[..k + 1] <= finished[..m + 1];
      assert y in open[k] && y in open[m];
      ReachesEdge(g, x, y);
      ReachesTrans(g, w, x, y);
      ReachesTrans(g, u, w, y);
      ReachesTrans(g, y, w, u);
      var q :| 0 <= q < |finished| && finished[q] == y;
      LateFrom(g, finished, open, u, q, i);
    }
  }

  /** What the finishing order is good for: if `u` reaches a finisher that does not reach it back, some node
      mutually reachable with `u` finishes later than that finisher. */
  ghost predicate LateFinishers<N(!new)>(g: Graph<N>, finished: seq<N>) {
    forall u, i: nat :: i < |finished| && Reaches(g, u, finished[i]) ==>
      Reaches(g, finished[i], u) || FinishesLater(g, finished, u, i)
  }

  lemma PostorderIsLate<N(!new)>(g: Graph<N>, finished: seq<N>, open: seq<set<N>>)
    requires Closed(g) && Postorder(g, finished, open) && Enumerates(finished, g.Keys)
    ensures LateFinishers(g, finished)
  {
    forall u, i: nat | i < |finished| && Reaches(g, u, finished[i])
      ensures Reaches(g, finished[i], u) || FinishesLater(g, finished, u, i)
    {
      ReachesNodes(g, u, finished[i]);
      ReachesSelf(g, u);
      var m :| 0 <= m < |finished| && finished[m] == u;
      LateFrom(g, finished, open, u, m, i);
    }
  }

  /** First pass: the finishing order of a depth-first search over every root. */
  method FinishingOrder<N(==, !new)>(g: Graph<N>, order: seq<N>) returns (finished: seq<N>)
    requires Closed(g) && Enumerates(order, g.Keys)
    ensures Enumerates(finished, g.Keys) && LateFinishers(g, finished)
  {
    var seen: set<N> := {};
    ghost var open: seq<set<N>> := [];
    finished := [];
    for r := 0 to |order|
      invariant Searching(g, seen, finished, open, [])
      invariant forall k :: 0 <= k < r ==> order[k] in seen
    {
      if order[r] !in seen {
        seen, finished, open := Search(g, order[r], seen, finished, open);
      }
    }
    assert forall x :: x in g ==> x in seen;
    PostorderIsLate(g, finished, open);
  }

  /** The set is closed under incoming edges. */
  ghost predicate Upstream<N(!new)>(g: Graph<N>, s: set<N>) {
    forall x, y :: y in s && Edge(g, x, y) ==> x in s
  }

  ghost predicate IsReverse<N(!new)>(g: Graph<N>, reverse: Graph<N>) {
    && reverse.Keys == g.Keys
    && forall x, y :: Edge(reverse, y, x) <==> Edge(g, x, y)
  }

  lemma AddReverse<N(!new)>(reverse: Graph<N>, source: N, target: N)
    requires target in reverse
    ensures forall x, y :: Edge(reverse[target := reverse[target] + [source]], y, x) <==>
      Edge(reverse, y, x) || (x == source && y == target)
  {
    var more := reverse[target] + [source];
    assert forall x :: x in more <==> x in reverse[target] || x == source;
    forall x, y
      ensures Edge(reverse[target := more], y, x) <==> Edge(reverse, y, x) || (x == source && y == target)
    {
      if y == target {
        assert reverse[target := more][y] == more;
      }
    }
  }

  /** The reversed lists after the sources of the first `n` nodes. */
  ghost predicate ReversedBy<N(!new)>(g: Graph<N>, reverse: Graph<N>, order: seq<N>, n: nat)
    requires n <= |order|
  {
    && reverse.Keys == g.Keys
    && forall x, y :: Edge(reverse, y, x) <==> Edge(g, x, y) && exists k :: 0 <= k < n && order[k] == x
  }

  method AddSource<N(==, !new)>(reverse: Graph<N>, source: N, targets: seq<N>) returns (r: Graph<N>)
    requires forall t :: t in targets ==> t in reverse
    ensures r.Keys == reverse.Keys
    ensures forall x, y :: Edge(r, y, x) <==> Edge(reverse, y, x) || (x == source && y in targets)
  {
    r := reverse;
    for j := 0 to |targets|
      invariant r.Keys == reverse.Keys
      invariant forall x, y :: Edge(r, y, x) <==> Edge(reverse, y, x) || (x == source && y in targets[..j])
    {
      assert targets[..j + 1] == targets[..j] + [targets[j]];
      AddReverse(r, source, targets[j]);
      r := r[targets[j] := r[targets[j]] + [source]];
    }
    assert targets[..|targets|] == targets;
  }

  /** The reversed adjacency lists. */
  method Reverse<N(==, !new)>(g: Graph<N>, order: seq<N>) returns (reverse: Graph<N>)
    requires Closed(g) && Enumerates(order, g.Keys)
    ensures IsReverse(g, reverse)
  {
    reverse := map p | p in g :: [];
    for i := 0 to |order|
      invariant ReversedBy(g, reverse, order, i)
    {
      var source := order[i];
      assert forall t :: t in g[source] ==> Edge(g, source, t);
      reverse := AddSource(reverse, source, g[source]);
    }
    assert forall x, y :: Edge(g, x, y) ==> x in order;
  }

  /** Collected and pending nodes are the ones newly seen, each listed once, and all reach the root. */
  ghost predicate Collecting<N(!new)>(g: Graph<N>, root: N, seen0: set<N>, seen: set<N>, component: seq<N>,
                               pending: seq<N>)
  {
    && seen == seen0 + Elements(component) + Elements(pending)
    && Elements(component) !! Elements(pending)
    && (Elements(component) + Elements(pending)) !! seen0
    && (forall i, j :: 0 <= i < j < |component| ==> component[i] != component[j])
    && (forall i, j :: 0 <= i < j < |pending| ==> pending[i] != pending[j])
    && (forall x :: x in Elements(component) + Elements(pending) ==> x in g && Reaches(g, x, root))
    && root in seen - seen0
  }

  lemma PopPending<N(!new)>(g: Graph<N>, root: N, seen0: set<N>, seen: set<N>, component: seq<N>, pending: seq<N>)
    requires Collecting(g, root, seen0, seen, component, pending) && |pending| > 0
    ensures Collecting(g, root, seen0, seen, component + [pending[|pending| - 1]], pending[..|pending| - 1])
  {
    var node, rest := pending[|pending| - 1], pending[..|pending| - 1];
    assert pending == rest + [node];
    assert Elements(pending) == Elements(rest) + {node} && node !in rest;
    assert Elements(component + [node]) == Elements(component) + {node};
  }

  lemma FindPending<N(!new)>(g: Graph<N>, root: N, seen0: set<N>, seen: set<N>, component: seq<N>, pending: seq<N>,
                      target: N, node: N)
    requires Closed(g) && Collecting(g, root, seen0, seen, component, pending)
    requires target in g && target !in seen && node in component && Edge(g, target, node)
    ensures Collecting(g, root, seen0, seen + {target}, component, pending + [target])
  {
    assert Elements(pending + [target]) == Elements(pending) + {target};
    assert node in Elements(component);
    ReachesEdge(g, target, node);
    ReachesTrans(g, target, node, root);
  }

  lemma Shrinks<N>(nodes: set<N>, before: set<N>, after: set<N>)
    requires before < after <= nodes
    ensures |nodes - after| < |nodes - before|
  {
    var x :| x in after && x !in before;
    SeenGrows(nodes, before, x);
    var left := nodes - (before + {x});
    assert left == (nodes - after) + (left - (nodes - after));
  }

  /** Queue the unseen sources of a node's incoming edges. */
  method Scan<N(==, !new)>(g: Graph<N>, reverse: Graph<N>, root: N, seen0: set<N>, before: set<N>, component: seq<N>,
                           popped: seq<N>, node: N)
    returns (seen: set<N>, pending: seq<N>)
    requires Closed(g) && IsReverse(g, reverse) && node in g && node in component && before <= seen0 + g.Keys
    requires Collecting(g, root, seen0, before, component, popped)
    ensures before <= seen <= seen0 + g.Keys && (seen == before ==> pending == popped)
    ensures Collecting(g, root, seen0, seen, component, pending)
    ensures forall x :: x in reverse[node] ==> x in seen
  {
    seen, pending := before, popped;
    var sources := reverse[node];
    for i := 0 to |sources|
      invariant before <= seen <= seen0 + g.Keys && (seen == before ==> pending == popped)
      invariant Collecting(g, root, seen0, seen, component, pending)
      invariant forall k :: 0 <= k < i ==> sources[k] in seen
    {
      var target := sources[i];
      assert Edge(reverse, node, target);
      if target !in seen {
        FindPending(g, root, seen0, seen, component, pending, target, node);
        seen, pending := seen + {target}, pending + [target];
      }
    }
  }

  /** Incoming edges of the collected nodes come from seen nodes. */
  ghost predicate Drawn<N(!new)>(g: Graph<N>, component: seq<N>, seen: set<N>) {
    forall x, y :: y in component && Edge(g, x, y) ==> x in seen
  }

  lemma DrawnStep<N(!new)>(g: Graph<N>, reverse: Graph<N>, component: seq<N>, node: N, before: set<N>, seen: set<N>)
    requires IsReverse(g, reverse) && node in g && Drawn(g, component, before) && before <= seen
    requires forall x :: x in reverse[node] ==> x in seen
    ensures Drawn(g, component + [node], seen)
  {
    forall x | Edge(g, x, node) ensures x in seen {
      assert Edge(reverse, node, x);
    }
  }

  lemma DrawnUpstream<N(!new)>(g: Graph<N>, root: N, seen0: set<N>, seen: set<N>, component: seq<N>)
    requires Upstream(g, seen0) && Drawn(g, component, seen) && Collecting(g, root, seen0, seen, component, [])
    ensures Upstream(g, seen)
  {
    forall x, y | y in seen && Edge(g, x, y) ensures x in seen {
      assert y in seen0 || y in component;
    }
  }

  /** Take one pending node into the component. */
  method Visit<N(==, !new)>(g: Graph<N>, reverse: Graph<N>, root: N, seen0: set<N>, before: set<N>, collected: seq<N>,
                 waiting: seq<N>)
    returns (seen: set<N>, component: seq<N>, pending: seq<N>)
    requires Closed(g) && IsReverse(g, reverse) && |waiting| > 0 && before <= seen0 + g.Keys
    requires Collecting(g, root, seen0, before, collected, waiting) && Drawn(g, collected, before)
    ensures seen <= seen0 + g.Keys && Collecting(g, root, seen0, seen, component, pending) && Drawn(g, component, seen)
    ensures |seen0 + g.Keys - seen| < |seen0 + g.Keys - before| || (seen == before && |pending| < |waiting|)
  {
    var node := waiting[|waiting| - 1];
    assert node in Elements(waiting);
    PopPending(g, root, seen0, before, collected, waiting);
    component := collected + [node];
    seen, pending := Scan(g, reverse, root, seen0, before, component, waiting[..|waiting| - 1], node);
    DrawnStep(g, reverse, collected, node, before, seen);
    if seen != before {
      Shrinks(seen0 + g.Keys, before, seen);
    }
  }

  /** One component: everything unseen that reaches the root, by the reversed edges. */
  method Collect<N(==, !new)>(g: Graph<N>, reverse: Graph<N>, root: N, seen0: set<N>)
    returns (component: seq<N>, seen: set<N>)
    requires Closed(g) && IsReverse(g, reverse) && root in g && root !in seen0 && Upstream(g, seen0)
    ensures Collecting(g, root, seen0, seen, component, [])
    ensures Upstream(g, seen)
  {
    var pending := [root];
    component, seen := [], seen0 + {root};
    ReachesSelf(g, root);
    while pending != []
      invariant seen <= seen0 + g.Keys
      invariant Collecting(g, root, seen0, seen, component, pending) && Drawn(g, component, seen)
      decreases |seen0 + g.Keys - seen|, |pending|
    {
      seen, component, pending := Visit(g, reverse, root, seen0, seen, component, pending);
    }
    DrawnUpstream(g, root, seen0, seen, component);
  }

  /** The collected set is the root's whole component, and nothing left unseen reaches it. */
  lemma IsComponent<N(!new)>(g: Graph<N>, finished: seq<N>, i: nat, seen0: set<N>, seen: set<N>, component: seq<N>)
    requires Closed(g) && LateFinishers(g, finished)
    requires i < |finished| && SeenFrom(finished, i + 1, seen0)
    requires Upstream(g, seen0) && Upstream(g, seen) && Collecting(g, finished[i], seen0, seen, component, [])
    ensures forall x :: x in component <==> Mutual(g, finished[i], x)
  {
    var root := finished[i];
    forall x ensures x in component <==> Mutual(g, root, x) {
      if x in component {
        assert x in Elements(component);
        if FinishesLater(g, finished, x, i) {
          var j :| i < j < |finished| && Mutual(g, x, finished[j]);
          ClosedSetDraws(g, seen0, x, finished[j]);
        }
      }
      if Mutual(g, root, x) {
        ClosedSetDraws(g, seen, x, root);
        if x in seen0 {
          ClosedSetDraws(g, seen0, root, x);
        }
      }
    }
  }

  /** A node's component. */
  ghost predicate ComponentOf<N(!new)>(g: Graph<N>, members: set<N>, root: N) {
    root in members && forall x :: x in members <==> Mutual(g, root, x)
  }

  /** The per-component test decides whether its members lie on cycles. */
  lemma CyclicComponent<N(!new)>(g: Graph<N>, members: set<N>, root: N)
    requires Closed(g) && ComponentOf(g, members, root)
    ensures |members| > 1 || Edge(g, root, root) ==> forall p :: p in members ==> OnCycle(g, p)
    ensures !(|members| > 1 || Edge(g, root, root)) ==> members == {root} && !OnCycle(g, root)
  {
    ReachesNodes(g, root, root);
    if OnCycle(g, root) {
      var q :| Edge(g, root, q) && Reaches(g, q, root);
      ReachesEdge(g, root, q);
      assert q in members;
    }
    if |members| > 1 {
      forall p | p in members ensures OnCycle(g, p) {
        Another(members, p);
        var q :| q in members && q != p;
        ReachesTrans(g, p, root, q);
        ReachesTrans(g, q, root, p);
        FirstEdge(g, p, q);
      }
    } else {
      SingleMember(members, root);
      if Edge(g, root, root) {
        ReachesSelf(g, root);
      }
    }
  }

  lemma Another<N>(s: set<N>, x: N)
    requires x in s && |s| > 1
    ensures exists y :: y in s && y != x
  {
    assert s == {x} + (s - {x});
    var y :| y in s - {x};
  }

  lemma SingleMember<N>(s: set<N>, x: N)
    requires x in s && |s| <= 1
    ensures s == {x}
  {
    assert s == {x} + (s - {x});
    assert |s - {x}| == 0;
  }

  lemma FirstEdge<N(!new)>(g: Graph<N>, p: N, q: N)
    requires Closed(g) && Mutual(g, p, q) && p != q
    ensures OnCycle(g, p)
  {
    var path :| IsPath(g, path) && Joins(path, p, q);
    assert |path| > 1 && Edge(g, path[0], path[1]);
    TailPath(g, path);
    ReachesTrans(g, path[1], q, p);
  }

  datatype Verdict<+N> = Accepted | CycleReentry(path: set<N>)

  ghost predicate IsScc<N(!new)>(g: Graph<N>, members: set<N>) {
    exists root :: ComponentOf(g, members, root)
  }

  ghost predicate Topological<N(!new)>(g: Graph<N>, components: seq<set<N>>) {
    forall j, k :: 0 <= j < k < |components| ==> Precedes(g, components[j], components[k])
  }

  /** Disjoint, and nothing of `later` reaches anything of `earlier`. */
  ghost predicate Precedes<N(!new)>(g: Graph<N>, earlier: set<N>, later: set<N>) {
    earlier !! later && forall x, y :: x in earlier && y in later ==> !Reaches(g, y, x)
  }

  ghost predicate Covers<N(!new)>(components: seq<set<N>>, seen: set<N>) {
    && (forall k :: 0 <= k < |components| ==> components[k] <= seen)
    && (forall x :: x in seen ==> exists k :: 0 <= k < |components| && x in components[k])
  }

  /** The components so far: each a whole component, listed once, none reaching an earlier one. */
  ghost predicate Found<N(!new)>(g: Graph<N>, components: seq<set<N>>, seen: set<N>) {
    && Covers(components, seen)
    && (forall k :: 0 <= k < |components| ==> IsScc(g, components[k]))
    && Topological(g, components)
  }

  lemma TopologicalStep<N(!new)>(g: Graph<N>, components: seq<set<N>>, seen: set<N>, members: set<N>)
    requires Closed(g) && Topological(g, components) && Upstream(g, seen) && members !! seen
    requires forall k :: 0 <= k < |components| ==> components[k] <= seen
    ensures Topological(g, components + [members])
  {
    assert Precedes(g, seen, members) by {
      forall x, y | x in seen && y in members ensures !Reaches(g, y, x) {
        if Reaches(g, y, x) {
          ClosedSetDraws(g, seen, y, x);
        }
      }
    }
    forall k | 0 <= k < |components| ensures Precedes(g, components[k], members) {
      assert components[k] <= seen;
    }
  }

  lemma CoverStep<N(!new)>(components: seq<set<N>>, seen: set<N>, members: set<N>)
    requires Covers(components, seen)
    ensures Covers(components + [members], seen + members)
  {
    var more := components + [members];
    assert more[|components|] == members && forall k :: 0 <= k < |components| ==> more[k] == components[k];
    forall x | x in seen ensures exists k :: 0 <= k < |more| && x in more[k] {
      var k :| 0 <= k < |components| && x in components[k];
      assert x in more[k];
    }
  }

  lemma FoundStep<N(!new)>(g: Graph<N>, components: seq<set<N>>, seen: set<N>, members: set<N>)
    requires Closed(g) && Found(g, components, seen) && Upstream(g, seen)
    requires members !! seen && IsScc(g, members)
    ensures Found(g, components + [members], seen + members)
  {
    CoverStep(components, seen, members);
    TopologicalStep(g, components, seen, members);
  }

  ghost predicate SeenFrom<N(!new)>(finished: seq<N>, i: nat, seen: set<N>) {
    forall j :: i <= j < |finished| ==> finished[j] in seen
  }

  lemma SeenStep<N(!new)>(finished: seq<N>, i: nat, seen: set<N>, after: set<N>)
    requires i < |finished| && SeenFrom(finished, i + 1, seen) && seen <= after && finished[i] in after
    ensures SeenFrom(finished, i, after)
  {
  }

  lemma SeenAll<N(!new)>(g: Graph<N>, finished: seq<N>, seen: set<N>)
    requires Enumerates(finished, g.Keys) && SeenFrom(finished, 0, seen)
    ensures g.Keys <= seen
  {
    forall p | p in g ensures p in seen {
      assert p in finished;
    }
  }

  /** The next unseen root's component, with the test for whether it is cyclic. */
  method NextComponent<N(==, !new)>(g: Graph<N>, reverse: Graph<N>, finished: seq<N>, i: nat, seen: set<N>)
    returns (members: set<N>, after: set<N>, cyclic: bool)
    requires Closed(g) && IsReverse(g, reverse) && LateFinishers(g, finished) && Enumerates(finished, g.Keys)
    requires i < |finished| && finished[i] !in seen && SeenFrom(finished, i + 1, seen)
    requires Upstream(g, seen)
    ensures IsScc(g, members) && finished[i] in members && members <= g.Keys && members !! seen
    ensures after == seen + members && Upstream(g, after)
    ensures forall p :: p in members ==> (OnCycle(g, p) <==> cyclic)
  {
    var root := finished[i];
    var component;
    component, after := Collect(g, reverse, root, seen);
    IsComponent(g, finished, i, seen, after, component);
    members := set x | x in component;
    assert members == Elements(component);
    ReachesSelf(g, root);
    assert ComponentOf(g, members, root);
    CyclicComponent(g, members, root);
    cyclic := |members| > 1 || root in g[root];
  }

  /** No unreactive node lies on a cycle. */
  ghost predicate Reenterable<N(!new)>(g: Graph<N>, reactive: set<N>, nodes: set<N>) {
    forall p :: p in nodes && OnCycle(g, p) ==> p in reactive
  }

  /** The component of the next unseen root: found, or refused for an unreactive member on a cycle. */
  method TakeRoot<N(==, !new)>(g: Graph<N>, reverse: Graph<N>, finished: seq<N>, i: nat, reactive: set<N>,
                               found: seq<set<N>>, before: set<N>)
    returns (verdict: Verdict<N>, components: seq<set<N>>, seen: set<N>)
    requires Closed(g) && IsReverse(g, reverse) && LateFinishers(g, finished) && Enumerates(finished, g.Keys)
    requires i < |finished| && finished[i] !in before && SeenFrom(finished, i + 1, before)
    requires before <= g.Keys && Upstream(g, before) && Found(g, found, before) && Reenterable(g, reactive, before)
    ensures verdict.CycleReentry? ==> Refuses(g, reactive, verdict.path)
    ensures verdict.Accepted? ==>
      && before <= seen <= g.Keys && finished[i] in seen && Upstream(g, seen)
      && Found(g, components, seen) && Reenterable(g, reactive, seen)
  {
    components := found;
    var members, cyclic;
    members, seen, cyclic := NextComponent(g, reverse, finished, i, before);
    if cyclic && exists p :: p in members && p !in reactive {
      verdict := CycleReentry(members);
    } else {
      FoundStep(g, found, before, members);
      components := found + [members];
      verdict := Accepted;
    }
  }

  /** A component of cycle nodes, one of them unreactive. */
  ghost predicate Refuses<N(!new)>(g: Graph<N>, reactive: set<N>, path: set<N>) {
    IsScc(g, path) && (forall p :: p in path ==> OnCycle(g, p)) && exists p :: p in path && p !in reactive
  }

  /** The cycle check: it accepts exactly when every partition on a cycle is reactive, and the components it
      computes are exactly the strongly connected components, in topological order. A refusal names the
      component of an unreactive partition on a cycle. */
  method CheckCycles<N(==, !new)>(g: Graph<N>, order: seq<N>, reactive: set<N>)
    returns (verdict: Verdict<N>, components: seq<set<N>>)
    requires Closed(g) && Enumerates(order, g.Keys)
    ensures verdict.Accepted? <==> Reenterable(g, reactive, g.Keys)
    ensures verdict.Accepted? ==> Found(g, components, g.Keys)
    ensures verdict.CycleReentry? ==> Refuses(g, reactive, verdict.path)
  {
    var reverse := Reverse(g, order);
    var finished := FinishingOrder(g, order);
    var seen: set<N> := {};
    components := [];
    var i := |finished|;
    while i > 0
      invariant 0 <= i <= |finished|
      invariant seen <= g.Keys && Upstream(g, seen) && SeenFrom(finished, i, seen)
      invariant Found(g, components, seen) && Reenterable(g, reactive, seen)
    {
      i := i - 1;
      ghost var before := seen;
      if finished[i] !in seen {
        verdict, components, seen := TakeRoot(g, reverse, finished, i, reactive, components, seen);
        if verdict.CycleReentry? {
          return;
        }
      }
      SeenStep(finished, i, before, seen);
    }
    SeenAll(g, finished, seen);
    verdict := Accepted;
  }
}
