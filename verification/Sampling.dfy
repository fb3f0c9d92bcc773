/** Settled samples: ancestor cones and levels compiled at bind time, which due contexts sample next, and
    the frames they publish. */
module Sampling {
  import opened Cycles
  import opened Graphs

  /** A strict ancestor: a path of at least one edge leads from `q` to `p`. */
  ghost predicate Ahead<N(!new)>(g: Graph<N>, q: N, p: N) {
    exists x :: Edge(g, x, p) && Reaches(g, q, x)
  }

  lemma AheadTrans<N(!new)>(g: Graph<N>, a: N, b: N, c: N)
    requires Ahead(g, a, b) && Ahead(g, b, c)
    ensures Ahead(g, a, c)
  {
    var x :| Edge(g, x, b) && Reaches(g, a, x);
    var y :| Edge(g, y, c) && Reaches(g, b, y);
    ReachesEdge(g, x, b);
    ReachesTrans(g, a, x, b);
    ReachesTrans(g, a, b, y);
  }

  lemma AheadEdge<N(!new)>(g: Graph<N>, q: N, x: N, p: N)
    requires Edge(g, q, x) && Ahead(g, x, p)
    ensures Ahead(g, q, p)
  {
    var y :| Edge(g, y, p) && Reaches(g, x, y);
    ReachesEdge(g, q, x);
    ReachesTrans(g, q, x, y);
  }

  /** A node ahead of itself is a node on a cycle. */
  lemma AheadOfItself<N(!new)>(g: Graph<N>, p: N)
    requires Closed(g)
    ensures Ahead(g, p, p) <==> OnCycle(g, p)
  {
    if Ahead(g, p, p) {
      var x :| Edge(g, x, p) && Reaches(g, p, x);
      if x == p {
        ReachesSelf(g, p);
      } else {
        ReachesEdge(g, x, p);
        FirstEdge(g, p, x);
      }
    }
    if OnCycle(g, p) {
      var b :| Edge(g, p, b) && Reaches(g, b, p);
      ReachesSelf(g, p);
      if b != p {
        ReachesNodes(g, b, p);
        var path :| IsPath(g, path) && Joins(path, b, p);
        var x, y := Border(g, g.Keys - {p}, path, b, p);
        assert y == p;
        ReachesEdge(g, p, b);
        ReachesTrans(g, p, b, x);
      }
    }
  }

  datatype Cone<+N> = Ancestors(nodes: set<N>) | SampleCycle

  /** The worklist's invariant: everything found is ahead of `p`, and everything that still has to be looked
      at is pending. */
  ghost predicate Climbing<N(!new)>(g: Graph<N>, p: N, ancestors: set<N>, pending: seq<N>) {
    && ancestors <= g.Keys && p !in ancestors
    && (forall q :: q in ancestors ==> Ahead(g, q, p))
    && (forall i :: 0 <= i < |pending| ==> pending[i] in g && Ahead(g, pending[i], p))
    && (forall q :: Edge(g, q, p) ==> q in ancestors || q in pending)
    && (forall q, x :: x in ancestors && Edge(g, q, x) ==> q in ancestors || q in pending)
  }

  lemma ClimbStep<N(!new)>(g: Graph<N>, reverse: Graph<N>, p: N, ancestors: set<N>, pending: seq<N>, node: N,
                    left: seq<N>)
    requires Closed(g) && IsReverse(g, reverse) && Climbing(g, p, ancestors, pending)
    requires pending == left + [node] && node != p
    requires node in reverse
    ensures node in ancestors ==> Climbing(g, p, ancestors, left)
    ensures node !in ancestors ==> Climbing(g, p, ancestors + {node}, left + reverse[node])
  {
    assert forall q :: q in pending <==> q in left || q == node;
    assert node == pending[|left|];
    forall q | q in reverse[node] ensures q in g && Ahead(g, q, p) {
      assert Edge(reverse, node, q);
      AheadEdge(g, q, node, p);
    }
    forall q | Edge(g, q, node) ensures q in reverse[node] {
      assert Edge(reverse, node, q);
    }
    assert forall i :: 0 <= i < |left| ==> left[i] == pending[i];
  }

  lemma ClimbDone<N(!new)>(g: Graph<N>, p: N, ancestors: set<N>)
    requires Closed(g) && Climbing(g, p, ancestors, [])
    ensures !Ahead(g, p, p)
    ensures forall q :: q in ancestors <==> Ahead(g, q, p)
  {
    forall q | Ahead(g, q, p) ensures q in ancestors {
      var x :| Edge(g, x, p) && Reaches(g, q, x);
      ClosedSetDraws(g, ancestors, q, x);
    }
  }

  lemma ClimbStart<N(!new)>(g: Graph<N>, reverse: Graph<N>, p: N)
    requires Closed(g) && IsReverse(g, reverse) && p in g
    ensures Climbing(g, p, {}, reverse[p])
  {
    forall q ensures q in reverse[p] <==> Edge(g, q, p) {
      assert Edge(reverse, p, q) <==> q in reverse[p];
    }
    forall i | 0 <= i < |reverse[p]| ensures reverse[p][i] in g && Ahead(g, reverse[p][i], p) {
      assert reverse[p][i] in reverse[p];
      ReachesSelf(g, reverse[p][i]);
    }
  }

  lemma PendingAhead<N(!new)>(g: Graph<N>, p: N, ancestors: set<N>, pending: seq<N>)
    requires Climbing(g, p, ancestors, pending) && pending != []
    ensures pending[|pending| - 1] in g && Ahead(g, pending[|pending| - 1], p)
  {
  }

  /** Take one pending node. */
  method ClimbOne<N(==, !new)>(g: Graph<N>, reverse: Graph<N>, p: N, before: set<N>, waiting: seq<N>)
    returns (looped: bool, ancestors: set<N>, pending: seq<N>)
    requires Closed(g) && IsReverse(g, reverse) && Climbing(g, p, before, waiting) && waiting != []
    ensures looped ==> Ahead(g, p, p)
    ensures !looped ==> Climbing(g, p, ancestors, pending)
    ensures !looped ==> |g.Keys - ancestors| < |g.Keys - before| || (ancestors == before && |pending| < |waiting|)
  {
    var node, left := waiting[|waiting| - 1], waiting[..|waiting| - 1];
    PendingAhead(g, p, before, waiting);
    looped, ancestors, pending := node == p, before, left;
    if !looped {
      ClimbStep(g, reverse, p, before, waiting, node, left);
      if node !in ancestors {
        SeenGrows(g.Keys, before, node);
        ancestors := ancestors + {node};
        pending := pending + reverse[node];
      }
    }
  }

  /** The transitive upstream set of an evaluator, or the discovery that it feeds itself. */
  method Climb<N(==, !new)>(g: Graph<N>, reverse: Graph<N>, p: N) returns (cone: Cone<N>)
    requires Closed(g) && IsReverse(g, reverse) && p in g
    ensures cone.SampleCycle? <==> Ahead(g, p, p)
    ensures cone.Ancestors? ==> forall q :: q in cone.nodes <==> Ahead(g, q, p)
  {
    var ancestors: set<N> := {};
    var pending := reverse[p];
    ClimbStart(g, reverse, p);
    while pending != []
      invariant Climbing(g, p, ancestors, pending)
      decreases |g.Keys - ancestors|, |pending|
    {
      var looped;
      looped, ancestors, pending := ClimbOne(g, reverse, p, ancestors, pending);
      if looped {
        return SampleCycle;
      }
    }
    ClimbDone(g, p, ancestors);
    cone := Ancestors(ancestors);
  }

  datatype Spec<N> = Spec(context: string, partition: N, upstream: set<N>, frameInputs: set<string>)

  datatype Compiled<N> =
    | Compiled(levels: map<string, nat>)
    | SampleDeclaration
    | SampleFeedback(context: string)
    | SampleConeIncomplete(context: string)
    | SampleInput(context: string)

  predicate UniqueSpecs<N(==)>(specs: seq<Spec<N>>) {
    forall i, j :: 0 <= i < j < |specs| ==>
      specs[i].context != specs[j].context && specs[i].partition != specs[j].partition
  }

  ghost function Cones<N(!new)>(g: Graph<N>, p: N): set<N> {
    set q | q in g && Ahead(g, q, p)
  }

  ghost predicate SpecAdmitted<N(!new)>(g: Graph<N>, specs: seq<Spec<N>>, evaluators: set<N>, spec: Spec<N>) {
    && spec.partition in g && spec.partition in evaluators
    && !OnCycle(g, spec.partition)
    && Cones(g, spec.partition) <= spec.upstream <= g.Keys
    && (forall c :: c in spec.frameInputs ==> exists k :: 0 <= k < |specs| && specs[k].context == c)
  }

  ghost function Level<N(!new)>(g: Graph<N>, specs: seq<Spec<N>>, p: N): nat {
    |SampledAbove(g, specs, p)|
  }

  ghost function SampledAbove<N(!new)>(g: Graph<N>, specs: seq<Spec<N>>, p: N): set<N> {
    set k | 0 <= k < |specs| && specs[k].partition in Cones(g, p) :: specs[k].partition
  }

  /** One declaration's checks, and its level. */
  method CheckSpec<N(==, !new)>(g: Graph<N>, reverse: Graph<N>, specs: seq<Spec<N>>, evaluators: set<N>, spec: Spec<N>)
    returns (refusal: Compiled<N>, level: nat)
    requires Closed(g) && IsReverse(g, reverse)
    ensures refusal.Compiled? <==> SpecAdmitted(g, specs, evaluators, spec)
    ensures refusal.Compiled? ==> level == Level(g, specs, spec.partition)
  {
    level := 0;
    if spec.partition !in g || spec.partition !in evaluators {
      return SampleDeclaration, 0;
    }
    AheadOfItself(g, spec.partition);
    var cone := Climb(g, reverse, spec.partition);
    if cone.SampleCycle? {
      return SampleFeedback(spec.context), 0;
    }
    ConeIsCones(g, cone.nodes, spec.partition);
    if !(cone.nodes <= spec.upstream) || !(spec.upstream <= g.Keys) {
      return SampleConeIncomplete(spec.context), 0;
    }
    var contexts := set k | 0 <= k < |specs| :: specs[k].context;
    if !(spec.frameInputs <= contexts) {
      return SampleInput(spec.context), 0;
    }
    var sampled := set k | 0 <= k < |specs| :: specs[k].partition;
    assert sampled * cone.nodes == SampledAbove(g, specs, spec.partition);
    refusal, level := Compiled(map[]), |sampled * cone.nodes|;
  }

  /** Compile the declarations. `evaluators` are the reactive partitions outside lifecycle control and cohorts.
      They are accepted exactly when every one is admissible, and each context's level is then the number of
      sampled strict ancestors. */
  method CompileSamples<N(==, !new)>(g: Graph<N>, order: seq<N>, specs: seq<Spec<N>>, evaluators: set<N>)
    returns (r: Compiled<N>)
    requires Closed(g) && Enumerates(order, g.Keys)
    ensures r.Compiled? <==>
      UniqueSpecs(specs) && forall k :: 0 <= k < |specs| ==> SpecAdmitted(g, specs, evaluators, specs[k])
    ensures r.Compiled? ==> forall k :: 0 <= k < |specs| ==>
      specs[k].context in r.levels && r.levels[specs[k].context] == Level(g, specs, specs[k].partition)
  {
    if !UniqueSpecs(specs) {
      return SampleDeclaration;
    }
    var reverse := Reverse(g, order);
    var levels: map<string, nat> := map[];
    for k := 0 to |specs|
      invariant forall j :: 0 <= j < k ==> SpecAdmitted(g, specs, evaluators, specs[j])
      invariant forall j :: 0 <= j < k ==>
        specs[j].context in levels && levels[specs[j].context] == Level(g, specs, specs[j].partition)
    {
      var refusal, level := CheckSpec(g, reverse, specs, evaluators, specs[k]);
      if !refusal.Compiled? {
        return refusal;
      }
      levels := levels[specs[k].context := level];
    }
    r := Compiled(levels);
  }

  lemma ConeIsCones<N(!new)>(g: Graph<N>, nodes: set<N>, p: N)
    requires Closed(g) && forall q :: q in nodes <==> Ahead(g, q, p)
    ensures nodes == Cones(g, p)
  {
    forall q | q in nodes ensures q in g {
      var x :| Edge(g, x, p) && Reaches(g, q, x);
      ReachesNodes(g, q, x);
    }
  }

  /** Levels rank strictly: a sampled ancestor has a smaller level. */
  lemma StrictRank<N(!new)>(g: Graph<N>, specs: seq<Spec<N>>, evaluators: set<N>, a: nat, b: nat)
    requires Closed(g) && a < |specs| && b < |specs|
    requires SpecAdmitted(g, specs, evaluators, specs[a])
    requires Ahead(g, specs[a].partition, specs[b].partition)
    ensures Level(g, specs, specs[a].partition) < Level(g, specs, specs[b].partition)
  {
    var p, q := specs[a].partition, specs[b].partition;
    AheadOfItself(g, p);
    var above, below := SampledAbove(g, specs, p), SampledAbove(g, specs, q);
    forall x | x in above ensures x in below {
      AheadTrans(g, x, p, q);
    }
    assert p in Cones(g, q) && p in below && p !in above;
    assert below == above + (below - above);
    assert |below| == |above| + |below - above|;
    assert p in below - above;
  }

  datatype Notice<N> = Notice(recipient: N, ns: nat, kind: string)

  datatype Selection<+N> = Selected(contexts: set<N>) | SampleTrigger | SampleCausality

  /** Evaluators with input due at a time, among those safe and settled there. */
  function Due<N(==)>(work: seq<Notice<N>>, ns: nat, levels: map<N, nat>, eligible: set<N>): set<N> {
    set k | 0 <= k < |work| && work[k].ns <= ns && work[k].recipient in levels && work[k].recipient in eligible
      :: work[k].recipient
  }

  /** Which of the due evaluators sample next: those at the lowest level. */
  function Lowest<N(==)>(due: set<N>, levels: map<N, nat>): set<N>
    requires forall p :: p in due ==> p in levels
  {
    set p | p in due && forall q :: q in due ==> levels[p] <= levels[q]
  }

  /** Input is due for an evaluator that is safe and settled. */
  ghost predicate InputFor<N(!new)>(work: seq<Notice<N>>, ns: nat, levels: map<N, nat>, eligible: set<N>, p: N) {
    p in levels && p in eligible && exists k :: 0 <= k < |work| && work[k].recipient == p && work[k].ns <= ns
  }

  /** A due notice of a kind its evaluator does not declare; the end of a validity counts as a field. */
  ghost predicate Undeclared<N(!new)>(notice: Notice<N>, ns: nat, triggers: map<N, set<string>>) {
    && notice.ns <= ns && notice.recipient in triggers
    && (notice.kind == "validity" ==> "field" !in triggers[notice.recipient])
    && (notice.kind != "validity" ==> notice.kind !in triggers[notice.recipient])
  }

  /** Input of a kind its evaluator does not declare. */
  predicate Untriggered<N(==)>(notice: Notice<N>, ns: nat, levels: map<N, nat>, triggers: map<N, set<string>>)
    requires triggers.Keys == levels.Keys
  {
    notice.ns <= ns && notice.recipient in levels && TriggerKind(notice.kind) !in triggers[notice.recipient]
  }

  /** `eligible` are the evaluators that are watermark-safe and settled at `ns`, `triggers` their declared kinds,
      `sampledAt` the physical time of their last frame. Undeclared input goes first, then input to what already
      sampled; otherwise the due evaluators of the lowest level are selected. */
  method SampleReady<N(==, !new)>(work: seq<Notice<N>>, ns: nat, levels: map<N, nat>, eligible: set<N>,
                                  triggers: map<N, set<string>>, sampledAt: map<N, nat>)
    returns (r: Selection<N>)
    requires triggers.Keys == levels.Keys
    ensures r.SampleTrigger? <==> exists k :: 0 <= k < |work| && Undeclared(work[k], ns, triggers)
    ensures r.SampleCausality? <==> (!r.SampleTrigger?
      && exists p :: InputFor(work, ns, levels, eligible, p) && p in sampledAt && sampledAt[p] == ns)
    ensures r.Selected? ==> r.contexts == Lowest(Due(work, ns, levels, eligible), levels)
    ensures r.Selected? ==> forall p :: p in r.contexts <==>
      && InputFor(work, ns, levels, eligible, p)
      && forall q :: InputFor(work, ns, levels, eligible, q) && q in levels ==> levels[p] <= levels[q]
    ensures r.Selected? ==> forall p :: p in r.contexts ==> p !in sampledAt || sampledAt[p] != ns
  {
    assert forall p :: p in Due(work, ns, levels, eligible) <==> InputFor(work, ns, levels, eligible, p);
    assert forall k :: 0 <= k < |work| ==>
      (Untriggered(work[k], ns, levels, triggers) <==> Undeclared(work[k], ns, triggers));
    for k := 0 to |work|
      invariant forall j :: 0 <= j < k ==> !Untriggered(work[j], ns, levels, triggers)
    {
      if Untriggered(work[k], ns, levels, triggers) {
        return SampleTrigger;
      }
    }
    var due := Due(work, ns, levels, eligible);
    if due == {} {
      return Selected({});
    }
    if exists p :: p in due && p in sampledAt && sampledAt[p] == ns {
      return SampleCausality;
    }
    LowestLevel(due, levels);
    var lowest :| lowest in due && forall q :: q in due ==> levels[lowest] <= levels[q];
    r := Selected(set p | p in due && levels[p] == levels[lowest]);
  }

  /** Validity expiries trigger as fields. */
  function TriggerKind(kind: string): string {
    if kind == "validity" then "field" else kind
  }

  lemma LowestLevel<N>(due: set<N>, levels: map<N, nat>)
    requires due != {} && forall p :: p in due ==> p in levels
    ensures exists p :: p in due && forall q :: q in due ==> levels[p] <= levels[q]
    ensures Lowest(due, levels) != {}
  {
    var p :| p in due;
    var rest := due - {p};
    if rest == {} {
      assert due == {p};
    } else {
      LowestLevel(rest, levels);
      var q :| q in rest && forall o :: o in rest ==> levels[q] <= levels[o];
      assert forall o :: o in due ==> o == p || o in rest;
      var least := if levels[p] <= levels[q] then p else q;
      assert least in due && forall o :: o in due ==> levels[least] <= levels[o];
    }
    var least :| least in due && forall q :: q in due ==> levels[least] <= levels[q];
    assert least in Lowest(due, levels);
  }

  /** A context of the lowest due level has no due context ahead of it. */
  lemma NothingDueAhead<N(!new)>(g: Graph<N>, specs: seq<Spec<N>>, evaluators: set<N>, levels: map<N, nat>, due: set<N>,
                                 a: nat, b: nat)
    requires Closed(g) && a < |specs| && b < |specs|
    requires SpecAdmitted(g, specs, evaluators, specs[a])
    requires forall k :: 0 <= k < |specs| ==>
      specs[k].partition in levels && levels[specs[k].partition] == Level(g, specs, specs[k].partition)
    requires (forall p :: p in due ==> p in levels) && specs[b].partition in Lowest(due, levels)
    requires specs[a].partition in due
    ensures !Ahead(g, specs[a].partition, specs[b].partition)
  {
    if Ahead(g, specs[a].partition, specs[b].partition) {
      StrictRank(g, specs, evaluators, a, b);
    }
  }

  /** One context's frames by physical time; a second frame at the latest time is refused. */
  function Publish(frames: seq<nat>, ns: nat): (r: seq<nat>) {
    if frames != [] && frames[|frames| - 1] == ns then frames else frames + [ns]
  }

  function PublishAll(frames: seq<nat>, attempts: seq<nat>): seq<nat>
    decreases |attempts|
  {
    if attempts == [] then frames else PublishAll(Publish(frames, attempts[0]), attempts[1..])
  }

  ghost predicate Increasing(frames: seq<nat>) {
    forall i, j :: 0 <= i < j < |frames| ==> frames[i] < frames[j]
  }

  /** Every time of a publication is recorded, and no other. */
  lemma {:induction false} AllRecorded(frames: seq<nat>, attempts: seq<nat>, ns: nat)
    ensures ns in PublishAll(frames, attempts) <==> ns in frames || ns in attempts
    decreases |attempts|
  {
    if attempts != [] {
      AllRecorded(Publish(frames, attempts[0]), attempts[1..], ns);
      assert attempts == [attempts[0]] + attempts[1..];
    }
  }

  /** Over any run of publications in simulated-time order, the recorded physical times increase strictly. */
  lemma {:induction false} FramesIncrease(frames: seq<nat>, attempts: seq<nat>)
    requires Increasing(frames)
    requires forall i, j :: 0 <= i < j < |attempts| ==> attempts[i] <= attempts[j]
    requires frames != [] && attempts != [] ==> frames[|frames| - 1] <= attempts[0]
    ensures Increasing(PublishAll(frames, attempts)) && frames <= PublishAll(frames, attempts)
    decreases |attempts|
  {
    if attempts != [] {
      var next := Publish(frames, attempts[0]);
      assert next[|next| - 1] == attempts[0];
      FramesIncrease(next, attempts[1..]);
    }
  }
}
