/** Cohorts: declared overlaps merged into connected components at bind time, and the reactive ready set
    closed over them. */
module Cohorts {

  /** Two members declared together. */
  ghost predicate Linked<N(!new)>(cohorts: seq<seq<N>>, a: N, b: N) {
    exists k :: 0 <= k < |cohorts| && a in cohorts[k] && b in cohorts[k]
  }

  ghost predicate IsChain<N(!new)>(cohorts: seq<seq<N>>, p: seq<N>) {
    |p| > 0 && forall i :: 0 <= i < |p| - 1 ==> Linked(cohorts, p[i], p[i + 1])
  }

  /** Connected by overlapping declarations. */
  ghost predicate Chained<N(!new)>(cohorts: seq<seq<N>>, a: N, b: N) {
    exists p :: IsChain(cohorts, p) && p[0] == a && p[|p| - 1] == b
  }

  lemma ChainTrans<N(!new)>(cohorts: seq<seq<N>>, a: N, b: N, c: N)
    requires Chained(cohorts, a, b) && Chained(cohorts, b, c)
    ensures Chained(cohorts, a, c)
  {
    var p :| IsChain(cohorts, p) && p[0] == a && p[|p| - 1] == b;
    var q :| IsChain(cohorts, q) && q[0] == b && q[|q| - 1] == c;
    var r := p + q[1..];
    forall i | 0 <= i < |r| - 1 ensures Linked(cohorts, r[i], r[i + 1]) {
      if i >= |p| - 1 {
        assert r[i] == q[i - |p| + 1] && r[i + 1] == q[i - |p| + 2];
      }
    }
    assert IsChain(cohorts, r) && r[0] == a && r[|r| - 1] == c;
  }

  lemma ChainLink<N(!new)>(cohorts: seq<seq<N>>, k: nat, a: N, b: N)
    requires k < |cohorts| && a in cohorts[k] && b in cohorts[k]
    ensures Chained(cohorts, a, b)
  {
    var p := [a, b];
    assert IsChain(cohorts, p) && p[0] == a && p[|p| - 1] == b;
  }

  lemma ChainMore<N(!new)>(cohorts: seq<seq<N>>, more: seq<seq<N>>, a: N, b: N)
    requires cohorts <= more && Chained(cohorts, a, b)
    ensures Chained(more, a, b)
  {
    var p :| IsChain(cohorts, p) && p[0] == a && p[|p| - 1] == b;
    assert IsChain(more, p);
  }

  ghost predicate Member<N(!new)>(cohorts: seq<seq<N>>, a: N) {
    exists k :: 0 <= k < |cohorts| && a in cohorts[k]
  }

  ghost predicate Disjoint<N(!new)>(groups: seq<set<N>>) {
    forall i, j, a :: 0 <= i < |groups| && 0 <= j < |groups| && a in groups[i] && a in groups[j] ==> i == j
  }

  ghost predicate InGroup<N(!new)>(groups: seq<set<N>>, a: N) {
    exists i :: 0 <= i < |groups| && a in groups[i]
  }

  ghost predicate AllChained<N(!new)>(cohorts: seq<seq<N>>, group: set<N>) {
    forall a, b :: a in group && b in group ==> Chained(cohorts, a, b)
  }

  ghost predicate Holds<N(!new)>(groups: seq<set<N>>, cohort: seq<N>) {
    exists i :: 0 <= i < |groups| && forall a :: a in cohort ==> a in groups[i]
  }

  /** The groups merged from a declaration prefix. */
  ghost predicate Merged<N(!new)>(cohorts: seq<seq<N>>, groups: seq<set<N>>) {
    && Disjoint(groups)
    && (forall i :: 0 <= i < |groups| ==> groups[i] != {} && AllChained(cohorts, groups[i]))
    && (forall a :: InGroup(groups, a) ==> Member(cohorts, a))
    && (forall k :: 0 <= k < |cohorts| ==> Holds(groups, cohorts[k]))
  }

  function Members<N(!new)>(cohort: seq<N>): (r: set<N>)
    ensures forall a :: a in r <==> a in cohort
  {
    set a | a in cohort
  }

  /** Two members share a group exactly when overlapping declarations connect them. */
  ghost predicate SameGroup<N(!new)>(groups: seq<set<N>>, a: N, b: N) {
    exists i :: 0 <= i < |groups| && a in groups[i] && b in groups[i]
  }

  lemma {:induction false} ChainStaysInGroup<N(!new)>(cohorts: seq<seq<N>>, groups: seq<set<N>>, p: seq<N>, i: nat)
    requires Merged(cohorts, groups) && IsChain(cohorts, p)
    requires i < |groups| && p[0] in groups[i]
    ensures p[|p| - 1] in groups[i]
    decreases |p|
  {
    if |p| > 1 {
      assert Linked(cohorts, p[0], p[1]);
      var k :| 0 <= k < |cohorts| && p[0] in cohorts[k] && p[1] in cohorts[k];
      assert Holds(groups, cohorts[k]);
      var j :| 0 <= j < |groups| && forall a :: a in cohorts[k] ==> a in groups[j];
      assert j == i;
      var q := p[1..];
      assert forall m :: 0 <= m < |q| ==> q[m] == p[m + 1];
      ChainStaysInGroup(cohorts, groups, q, i);
    }
  }

  lemma GroupsAreComponents<N(!new)>(cohorts: seq<seq<N>>, groups: seq<set<N>>, a: N, b: N)
    requires Merged(cohorts, groups) && Member(cohorts, a)
    ensures SameGroup(groups, a, b) <==> Chained(cohorts, a, b)
  {
    if SameGroup(groups, a, b) {
      var i :| 0 <= i < |groups| && a in groups[i] && b in groups[i];
      assert AllChained(cohorts, groups[i]);
    }
    if Chained(cohorts, a, b) {
      var p :| IsChain(cohorts, p) && p[0] == a && p[|p| - 1] == b;
      var k :| 0 <= k < |cohorts| && a in cohorts[k];
      assert Holds(groups, cohorts[k]);
      var j :| 0 <= j < |groups| && forall x :: x in cohorts[k] ==> x in groups[j];
      ChainStaysInGroup(cohorts, groups, p, j);
    }
  }

  /** The canonical groups do not depend on the order of declarations or of their members. */
  lemma OrderIndependent<N(!new)>(c1: seq<seq<N>>, g1: seq<set<N>>, c2: seq<seq<N>>, g2: seq<set<N>>)
    requires Merged(c1, g1) && Merged(c2, g2)
    requires forall a, b :: Linked(c1, a, b) <==> Linked(c2, a, b)
    ensures (set g | g in g1) == (set g | g in g2)
  {
    GroupsCarryOver(c1, g1, c2, g2);
    GroupsCarryOver(c2, g2, c1, g1);
  }

  lemma GroupsCarryOver<N(!new)>(c1: seq<seq<N>>, g1: seq<set<N>>, c2: seq<seq<N>>, g2: seq<set<N>>)
    requires Merged(c1, g1) && Merged(c2, g2)
    requires forall a, b :: Linked(c1, a, b) <==> Linked(c2, a, b)
    ensures forall g :: g in g1 ==> g in g2
  {
    forall g | g in g1 ensures g in g2 {
      var i :| 0 <= i < |g1| && g1[i] == g;
      var a :| a in g;
      assert InGroup(g1, a) && Member(c1, a);
      var k :| 0 <= k < |c1| && a in c1[k];
      assert Linked(c1, a, a) && Linked(c2, a, a);
      assert Member(c2, a);
      GroupsAreComponents(c2, g2, a, a);
      ChainLink(c1, k, a, a);
      assert Chained(c1, a, a) <==> Chained(c2, a, a) by { ChainsAgree(c1, c2, a, a); }
      var j :| 0 <= j < |g2| && a in g2[j];
      forall b ensures b in g <==> b in g2[j] {
        ChainsAgree(c1, c2, a, b);
        ClassOf(c1, g1, a, i, b);
        ClassOf(c2, g2, a, j, b);
      }
      assert g == g2[j];
    }
  }

  lemma ChainsAgree<N(!new)>(c1: seq<seq<N>>, c2: seq<seq<N>>, a: N, b: N)
    requires forall x, y :: Linked(c1, x, y) <==> Linked(c2, x, y)
    ensures Chained(c1, a, b) <==> Chained(c2, a, b)
  {
    assert forall p: seq<N> :: IsChain(c1, p) <==> IsChain(c2, p);
  }

  lemma ClassOf<N(!new)>(cohorts: seq<seq<N>>, groups: seq<set<N>>, a: N, i: nat, b: N)
    requires Merged(cohorts, groups) && i < |groups| && a in groups[i]
    ensures b in groups[i] <==> Chained(cohorts, a, b)
  {
    if b in groups[i] {
      assert AllChained(cohorts, groups[i]);
    }
    if Chained(cohorts, a, b) {
      var p :| IsChain(cohorts, p) && p[0] == a && p[|p| - 1] == b;
      ChainStaysInGroup(cohorts, groups, p, i);
    }
  }

  /** `rest` are the earlier groups not absorbed; `merged` is the new cohort with the absorbed ones, all
      connected to `seed`. */
  ghost predicate Absorbing<N(!new)>(cohorts: seq<seq<N>>, groups: seq<set<N>>, upto: nat, rest: seq<set<N>>,
                              merged: set<N>, seed: N)
    requires upto <= |groups| && |cohorts| > 0
  {
    && seed in merged
    && (forall a :: a in cohorts[|cohorts| - 1] ==> a in merged)
    && (forall a :: a in merged ==> Chained(cohorts, seed, a) && Chained(cohorts, a, seed))
    && (forall a :: a in merged ==> Member(cohorts, a))
    && (forall i :: 0 <= i < |rest| ==> rest[i] in groups)
    && Disjoint(rest)
    && (forall i :: 0 <= i < upto ==> groups[i] in rest || groups[i] <= merged)
  }

  /** Absorbing an overlapping group keeps everything connected to the seed. */
  lemma Absorb<N(!new)>(cohorts: seq<seq<N>>, merged: set<N>, group: set<N>, seed: N)
    requires forall a :: a in merged ==> Chained(cohorts, seed, a) && Chained(cohorts, a, seed)
    requires AllChained(cohorts, group) && !(merged !! group)
    ensures forall a :: a in merged + group ==> Chained(cohorts, seed, a) && Chained(cohorts, a, seed)
  {
    var c :| c in merged && c in group;
    forall a | a in group ensures Chained(cohorts, seed, a) && Chained(cohorts, a, seed) {
      ChainTrans(cohorts, seed, c, a);
      ChainTrans(cohorts, a, c, seed);
    }
  }

  /** Split the groups into those overlapping the growing cohort, absorbed, and the rest. */
  method AbsorbPass<N(==, !new)>(groups: seq<set<N>>, start: set<N>, ghost cohorts: seq<seq<N>>, ghost seed: N)
    returns (rest: seq<set<N>>, merged: set<N>)
    requires |cohorts| > 0 && Absorbing(cohorts, groups, 0, [], start, seed) && Disjoint(groups)
    requires forall i :: 0 <= i < |groups| ==>
      AllChained(cohorts, groups[i]) && forall a :: a in groups[i] ==> Member(cohorts, a)
    ensures Absorbing(cohorts, groups, |groups|, rest, merged, seed) && start <= merged
    ensures |rest| <= |groups| && ((exists i :: 0 <= i < |groups| && !(groups[i] !! start)) ==> |rest| < |groups|)
  {
    rest, merged := [], start;
    for k := 0 to |groups|
      invariant Absorbing(cohorts, groups, k, rest, merged, seed) && start <= merged
      invariant forall i :: 0 <= i < |rest| ==> rest[i] in groups[..k]
      invariant |rest| <= k && ((exists i :: 0 <= i < k && !(groups[i] !! start)) ==> |rest| < k)
    {
      var group := groups[k];
      if !(merged !! group) {
        Absorb(cohorts, merged, group, seed);
        merged := merged + group;
      } else {
        assert groups[k] !! start;
        RestGrows(groups, k, rest);
        rest := rest + [group];
      }
    }
  }

  lemma RestGrows<N(!new)>(groups: seq<set<N>>, k: nat, rest: seq<set<N>>)
    requires k < |groups| && Disjoint(groups) && Disjoint(rest)
    requires forall i :: 0 <= i < |rest| ==> rest[i] in groups[..k]
    ensures Disjoint(rest + [groups[k]])
  {
    forall i, a | 0 <= i < |rest| && a in rest[i] ensures a !in groups[k] {
      var j :| 0 <= j < k && groups[j] == rest[i];
    }
  }

  /** Fold one more declaration into the groups. */
  method MergeOne<N(==, !new)>(groups: seq<set<N>>, cohort: seq<N>, ghost cohorts: seq<seq<N>>)
    returns (more: seq<set<N>>)
    requires Merged(cohorts, groups) && cohort != []
    ensures Merged(cohorts + [cohort], more)
  {
    ghost var declared := cohorts + [cohort];
    ghost var seed := cohort[0];
    PrefixFacts(cohorts, groups, cohort);
    var rest, merged := AbsorbPass(groups, Members(cohort), declared, seed);
    while exists i :: 0 <= i < |rest| && !(merged !! rest[i])
      invariant Absorbing(declared, groups, |groups|, rest, merged, seed)
      decreases |rest|
    {
      rest, merged := AbsorbMore(rest, merged, groups, declared, seed);
    }
    more := rest + [merged];
    Finished(cohorts, groups, cohort, rest, merged, seed);
  }

  lemma PrefixFacts<N(!new)>(cohorts: seq<seq<N>>, groups: seq<set<N>>, cohort: seq<N>)
    requires Merged(cohorts, groups) && cohort != []
    ensures forall i :: 0 <= i < |groups| ==>
      AllChained(cohorts + [cohort], groups[i]) && forall a :: a in groups[i] ==> Member(cohorts + [cohort], a)
    ensures Absorbing(cohorts + [cohort], groups, 0, [], Members(cohort), cohort[0])
  {
    var declared := cohorts + [cohort];
    assert declared[|cohorts|] == cohort;
    forall i, a, b | 0 <= i < |groups| && a in groups[i] && b in groups[i]
      ensures Chained(declared, a, b) && Member(declared, a)
    {
      assert AllChained(cohorts, groups[i]);
      ChainMore(cohorts, declared, a, b);
      assert InGroup(groups, a) && Member(cohorts, a);
      var k :| 0 <= k < |cohorts| && a in cohorts[k];
      assert a in declared[k];
    }
    forall a | a in cohort
      ensures Chained(declared, cohort[0], a) && Chained(declared, a, cohort[0]) && Member(declared, a)
    {
      ChainLink(declared, |cohorts|, cohort[0], a);
      ChainLink(declared, |cohorts|, a, cohort[0]);
      assert a in declared[|cohorts|];
    }
  }

  /** One more absorbing pass over the groups left. */
  method AbsorbMore<N(==, !new)>(left: seq<set<N>>, start: set<N>, ghost groups: seq<set<N>>,
                      ghost cohorts: seq<seq<N>>, ghost seed: N)
    returns (rest: seq<set<N>>, merged: set<N>)
    requires |cohorts| > 0 && Absorbing(cohorts, groups, |groups|, left, start, seed)
    requires forall i :: 0 <= i < |groups| ==>
      AllChained(cohorts, groups[i]) && forall a :: a in groups[i] ==> Member(cohorts, a)
    requires exists i :: 0 <= i < |left| && !(start !! left[i])
    ensures Absorbing(cohorts, groups, |groups|, rest, merged, seed) && |rest| < |left|
  {
    forall i | 0 <= i < |left|
      ensures AllChained(cohorts, left[i]) && forall a :: a in left[i] ==> Member(cohorts, a)
    {
      var j :| 0 <= j < |groups| && groups[j] == left[i];
    }
    rest, merged := AbsorbPass(left, start, cohorts, seed);
    forall i | 0 <= i < |groups| ensures groups[i] in rest || groups[i] <= merged {
      if groups[i] in left {
        var j :| 0 <= j < |left| && left[j] == groups[i];
      }
    }
  }

  lemma Finished<N(!new)>(cohorts: seq<seq<N>>, groups: seq<set<N>>, cohort: seq<N>, rest: seq<set<N>>, merged: set<N>,
                   seed: N)
    requires Merged(cohorts, groups) && cohort != []
    requires Absorbing(cohorts + [cohort], groups, |groups|, rest, merged, seed)
    requires forall i :: 0 <= i < |rest| ==> merged !! rest[i]
    ensures Merged(cohorts + [cohort], rest + [merged])
  {
    var declared, more := cohorts + [cohort], rest + [merged];
    PrefixFacts(cohorts, groups, cohort);
    assert more[|rest|] == merged && forall i :: 0 <= i < |rest| ==> more[i] == rest[i];
    forall a, b | a in merged && b in merged ensures Chained(declared, a, b) {
      ChainTrans(declared, a, seed, b);
    }
    forall k | 0 <= k < |declared| ensures Holds(more, declared[k]) {
      if k < |cohorts| {
        assert declared[k] == cohorts[k];
        StillHeld(groups, rest, merged, cohorts[k]);
      } else {
        assert declared[k] == declared[|declared| - 1];
        assert forall a :: a in declared[k] ==> a in more[|rest|];
      }
    }
    assert forall a :: InGroup(more, a) ==> Member(declared, a);
    RestAndMerged(rest, merged);
  }

  ghost function PositionOf<N>(groups: seq<set<N>>, group: set<N>): (position: nat)
    requires group in groups
    ensures position < |groups| && groups[position] == group
  {
    var i: nat :| i < |groups| && groups[i] == group;
    i
  }

  lemma StillHeld<N(!new)>(groups: seq<set<N>>, rest: seq<set<N>>, merged: set<N>, cohort: seq<N>)
    requires Holds(groups, cohort)
    requires forall i :: 0 <= i < |groups| ==> groups[i] in rest || groups[i] <= merged
    ensures Holds(rest + [merged], cohort)
  {
    var more := rest + [merged];
    var i :| 0 <= i < |groups| && forall a :: a in cohort ==> a in groups[i];
    var j := if groups[i] in rest then PositionOf(rest, groups[i]) else |rest|;
    assert groups[i] <= more[j];
    assert 0 <= j < |more| && forall a :: a in cohort ==> a in more[j];
  }

  lemma RestAndMerged<N(!new)>(rest: seq<set<N>>, merged: set<N>)
    requires Disjoint(rest) && forall i :: 0 <= i < |rest| ==> merged !! rest[i]
    ensures Disjoint(rest + [merged])
  {
  }

  predicate WellDeclared<N(==)>(cohort: seq<N>) {
    cohort != [] && forall i, j :: 0 <= i < j < |cohort| ==> cohort[i] != cohort[j]
  }

  datatype Result<+N> = Groups(groups: seq<set<N>>) | CohortError

  /** Canonical cohorts: refused exactly when a declaration is empty or repeats a member; otherwise the groups
      are the connected components of the declared overlaps. */
  method MergeCohorts<N(==, !new)>(cohorts: seq<seq<N>>) returns (r: Result<N>)
    ensures r.Groups? <==> forall k :: 0 <= k < |cohorts| ==>
      cohorts[k] != [] && forall i, j :: 0 <= i < j < |cohorts[k]| ==> cohorts[k][i] != cohorts[k][j]
    ensures r.Groups? ==> Merged(cohorts, r.groups)
    ensures r.Groups? ==> forall a, b :: Member(cohorts, a) ==> (SameGroup(r.groups, a, b) <==> Chained(cohorts, a, b))
  {
    var groups: seq<set<N>> := [];
    for k := 0 to |cohorts|
      invariant Merged(cohorts[..k], groups)
      invariant forall j :: 0 <= j < k ==> WellDeclared(cohorts[j])
    {
      if !WellDeclared(cohorts[k]) {
        return CohortError;
      }
      assert cohorts[..k + 1] == cohorts[..k] + [cohorts[k]];
      groups := MergeOne(groups, cohorts[k], cohorts[..k]);
    }
    assert cohorts[..|cohorts|] == cohorts;
    forall a, b | Member(cohorts, a) ensures SameGroup(groups, a, b) <==> Chained(cohorts, a, b) {
      GroupsAreComponents(cohorts, groups, a, b);
    }
    r := Groups(groups);
  }

  ghost predicate ClosedUnder<N(!new)>(groups: seq<set<N>>, s: set<N>) {
    forall i :: 0 <= i < |groups| && groups[i] * s != {} ==> groups[i] <= s
  }

  /** The least superset that contains a whole cohort whenever it contains a member. */
  ghost predicate LeastClosed<N(!new)>(groups: seq<set<N>>, start: set<N>, s: set<N>) {
    && start <= s && ClosedUnder(groups, s)
    && forall t: set<N> :: start <= t && ClosedUnder(groups, t) ==> s <= t
  }

  /** One pass over disjoint cohorts reaches the closure. */
  method Expand<N(==, !new)>(groups: seq<set<N>>, start: set<N>) returns (chosen: set<N>)
    requires Disjoint(groups)
    ensures LeastClosed(groups, start, chosen)
  {
    chosen := start;
    for k := 0 to |groups|
      invariant start <= chosen
      invariant forall i :: 0 <= i < k && groups[i] * chosen != {} ==> groups[i] <= chosen
      invariant forall i :: k <= i < |groups| ==> groups[i] * chosen == groups[i] * start
      invariant forall t: set<N> :: start <= t && ClosedUnder(groups, t) ==> chosen <= t
    {
      if chosen * groups[k] != {} {
        assert groups[k] * start != {};
        forall i | 0 <= i < |groups| && i != k ensures groups[i] * groups[k] == {} {
        }
        forall i | 0 <= i < |groups| && i != k ensures groups[i] * (chosen + groups[k]) == groups[i] * chosen {
        }
        forall t: set<N> | start <= t && ClosedUnder(groups, t) ensures chosen + groups[k] <= t {
          assert groups[k] * t != {};
        }
        chosen := chosen + groups[k];
      }
    }
  }

  /** Ready controllers, and the cohorts of ready members that hold a controller. */
  ghost function Controllers<N(!new)>(ready: set<N>, groups: seq<set<N>>, lifecycle: set<N>, upto: nat): set<N>
    requires upto <= |groups|
  {
    (ready * lifecycle) +
    set i, p | 0 <= i < upto && groups[i] * ready != {} && groups[i] * lifecycle != {} && p in groups[i] :: p
  }

  ghost function Preferred<N(!new)>(ready: set<N>, groups: seq<set<N>>, lifecycle: set<N>): set<N> {
    var controllers := Controllers(ready, groups, lifecycle, |groups|);
    if controllers != {} then controllers else ready
  }

  /** The reactive ready set: lifecycle controllers (with the cohorts they decide for) go first; whichever
      set is chosen is closed over its cohorts. `ready` is the due, safe, unsampled set. */
  method ReadyPartitions<N(==, !new)>(ready: set<N>, groups: seq<set<N>>, lifecycle: set<N>) returns (chosen: set<N>)
    requires Disjoint(groups)
    ensures LeastClosed(groups, Preferred(ready, groups, lifecycle), chosen)
    ensures forall b :: b in chosen <==>
      if SomeDecider(ready, groups, lifecycle) then DeciderBrings(ready, groups, lifecycle, b)
      else Brings(ready, groups, b)
  {
    var controllers := ready * lifecycle;
    for k := 0 to |groups|
      invariant controllers == Controllers(ready, groups, lifecycle, k)
    {
      if ready * groups[k] != {} && groups[k] * lifecycle != {} {
        controllers := controllers + groups[k];
      }
    }
    chosen := Expand(groups, if controllers != {} then controllers else ready);
    forall b
      ensures b in chosen <==>
        if SomeDecider(ready, groups, lifecycle) then DeciderBrings(ready, groups, lifecycle, b)
        else Brings(ready, groups, b)
    {
      ChosenExactly(ready, groups, lifecycle, chosen, b);
    }
  }

  // ---- who is chosen ----

  /** The same member, or members of one cohort. */
  ghost predicate Together<N(!new)>(groups: seq<set<N>>, a: N, b: N) {
    a == b || exists i :: 0 <= i < |groups| && a in groups[i] && b in groups[i]
  }

  /** A lifecycle controller, or a member of a cohort that holds one. */
  ghost predicate Decides<N(!new)>(groups: seq<set<N>>, lifecycle: set<N>, a: N) {
    exists c :: c in lifecycle && Together(groups, c, a)
  }

  lemma TogetherTrans<N(!new)>(groups: seq<set<N>>, a: N, b: N, c: N)
    requires Disjoint(groups) && Together(groups, a, b) && Together(groups, b, c)
    ensures Together(groups, a, c) && Together(groups, b, a)
  {
  }

  lemma ClosedTogether<N(!new)>(groups: seq<set<N>>, s: set<N>, a: N, b: N)
    requires ClosedUnder(groups, s) && a in s && Together(groups, a, b)
    ensures b in s
  {
    if a != b {
      var i :| 0 <= i < |groups| && a in groups[i] && b in groups[i];
      assert a in groups[i] * s;
    }
  }

  /** Closing over disjoint cohorts adds the members of the starting ones' cohorts. */
  lemma ClosureExactly<N(!new)>(groups: seq<set<N>>, start: set<N>, chosen: set<N>)
    requires Disjoint(groups) && LeastClosed(groups, start, chosen)
    ensures forall b :: b in chosen <==> exists a :: a in start && Together(groups, a, b)
  {
    var reached := set b | b in chosen && exists a :: a in start && Together(groups, a, b);
    forall b, c | b in reached && Together(groups, b, c) ensures c in reached {
      var a :| a in start && Together(groups, a, b);
      TogetherTrans(groups, a, b, c);
      ClosedTogether(groups, chosen, b, c);
    }
    forall i | 0 <= i < |groups| && groups[i] * reached != {} ensures groups[i] <= reached {
      var b :| b in groups[i] * reached;
      assert forall c :: c in groups[i] ==> Together(groups, b, c);
    }
    assert forall a :: a in start ==> Together(groups, a, a);
    assert start <= reached && ClosedUnder(groups, reached);
    forall a, b | a in start && Together(groups, a, b) ensures b in chosen {
      ClosedTogether(groups, chosen, a, b);
    }
  }

  lemma ControllersExactly<N(!new)>(ready: set<N>, groups: seq<set<N>>, lifecycle: set<N>, b: N)
    requires Disjoint(groups)
    ensures (exists c :: c in Controllers(ready, groups, lifecycle, |groups|) && Together(groups, c, b)) <==>
      exists a :: a in ready && Together(groups, a, b) && Decides(groups, lifecycle, a)
  {
    var controllers := Controllers(ready, groups, lifecycle, |groups|);
    if c :| c in controllers && Together(groups, c, b) {
      if c in ready * lifecycle {
        assert Together(groups, c, c);
      } else {
        var i :| 0 <= i < |groups| && groups[i] * ready != {} && groups[i] * lifecycle != {} && c in groups[i];
        var a, d :| a in groups[i] * ready && d in groups[i] * lifecycle;
        assert Together(groups, d, a) && Together(groups, a, c);
        TogetherTrans(groups, a, c, b);
      }
    }
    if a :| a in ready && Together(groups, a, b) && Decides(groups, lifecycle, a) {
      var d :| d in lifecycle && Together(groups, d, a);
      if d == a {
        assert a in controllers;
      } else {
        var i :| 0 <= i < |groups| && d in groups[i] && a in groups[i];
        assert a in groups[i] * ready && d in groups[i] * lifecycle;
        assert a in controllers;
      }
    }
  }

  /** Some member brings another in through its cohort: any, or only one that decides. */
  ghost predicate Brings<N(!new)>(ready: set<N>, groups: seq<set<N>>, b: N) {
    exists a :: a in ready && Together(groups, a, b)
  }

  ghost predicate DeciderBrings<N(!new)>(ready: set<N>, groups: seq<set<N>>, lifecycle: set<N>, b: N) {
    exists a :: a in ready && Together(groups, a, b) && Decides(groups, lifecycle, a)
  }

  ghost predicate SomeDecider<N(!new)>(ready: set<N>, groups: seq<set<N>>, lifecycle: set<N>) {
    exists a :: a in ready && Decides(groups, lifecycle, a)
  }

  /** Who reacts: as soon as a ready member decides on lifecycles, the cohorts of such members only; otherwise the
      cohorts of all ready members. */
  lemma ChosenExactly<N(!new)>(ready: set<N>, groups: seq<set<N>>, lifecycle: set<N>, chosen: set<N>, b: N)
    requires Disjoint(groups) && LeastClosed(groups, Preferred(ready, groups, lifecycle), chosen)
    ensures b in chosen <==>
      if SomeDecider(ready, groups, lifecycle) then DeciderBrings(ready, groups, lifecycle, b)
      else Brings(ready, groups, b)
  {
    ClosureExactly(groups, Preferred(ready, groups, lifecycle), chosen);
    ControllersExactly(ready, groups, lifecycle, b);
    SomeController(ready, groups, lifecycle);
  }

  lemma SomeController<N(!new)>(ready: set<N>, groups: seq<set<N>>, lifecycle: set<N>)
    requires Disjoint(groups)
    ensures Controllers(ready, groups, lifecycle, |groups|) != {} <==> SomeDecider(ready, groups, lifecycle)
  {
    var controllers := Controllers(ready, groups, lifecycle, |groups|);
    if c :| c in controllers {
      assert Together(groups, c, c);
      ControllersExactly(ready, groups, lifecycle, c);
    }
    if a :| a in ready && Decides(groups, lifecycle, a) {
      assert Together(groups, a, a);
      ControllersExactly(ready, groups, lifecycle, a);
    }
  }

  /** There always is such a closure, and only one. */
  lemma ClosureIs<N(!new)>(groups: seq<set<N>>, start: set<N>, chosen: set<N>)
    requires Disjoint(groups) && forall b :: b in chosen <==> exists a :: a in start && Together(groups, a, b)
    ensures LeastClosed(groups, start, chosen)
  {
    assert forall a :: a in start ==> Together(groups, a, a);
    forall i | 0 <= i < |groups| && groups[i] * chosen != {} ensures groups[i] <= chosen {
      var b :| b in groups[i] * chosen;
      var a :| a in start && Together(groups, a, b);
      forall c | c in groups[i] ensures c in chosen {
        assert Together(groups, b, c);
        TogetherTrans(groups, a, b, c);
      }
    }
    forall t: set<N> | start <= t && ClosedUnder(groups, t) ensures chosen <= t {
      forall b | b in chosen ensures b in t {
        var a :| a in start && Together(groups, a, b);
        ClosedTogether(groups, t, a, b);
      }
    }
  }

  lemma ChosenIs<N(!new)>(ready: set<N>, groups: seq<set<N>>, lifecycle: set<N>, chosen: set<N>)
    requires Disjoint(groups)
    requires forall b :: b in chosen <==>
      if SomeDecider(ready, groups, lifecycle) then DeciderBrings(ready, groups, lifecycle, b)
      else Brings(ready, groups, b)
    ensures LeastClosed(groups, Preferred(ready, groups, lifecycle), chosen)
  {
    SomeController(ready, groups, lifecycle);
    forall b ensures b in chosen <==>
      exists a :: a in Preferred(ready, groups, lifecycle) && Together(groups, a, b)
    {
      ControllersExactly(ready, groups, lifecycle, b);
    }
    ClosureIs(groups, Preferred(ready, groups, lifecycle), chosen);
  }
}
