/** Native time of a partition: rounding up to its grid, and how accepted grants move its frontier. */
module NativeGrid {
  import opened Time

  datatype Mode = Des | FixedStep | Lockstep | RealTime

  datatype Timing = Timing(mode: Mode, stepNs: Option<int>, originNs: int, latch: bool, exactStop: bool)

  /** Timings with a native grid to latch to. */
  predicate Stepped(t: Timing) {
    (t.mode == FixedStep || t.mode == Lockstep) && t.stepNs.Some? && t.stepNs.value > 0
  }

  function Max(a: int, b: int): int {
    if a < b then b else a
  }

  /** Round up to the native grid; absent where the source raises. */
  function Boundary(t: Timing, ns: int): Option<int> {
    if t.mode != FixedStep && t.mode != Lockstep then Some(ns)
    else if t.mode == Lockstep && t.stepNs.None? then Some(ns)
    else if t.stepNs.None? || t.stepNs.value <= 0 then None
    else
      var step := t.stepNs.value;
      Some(t.originNs + Max(0, (ns - t.originNs + step - 1) / step) * step)
  }

  ghost predicate OnGrid(t: Timing, ns: int)
    requires Stepped(t)
  {
    exists k: nat :: ns == GridPoint(t, k)
  }

  function GridPoint(t: Timing, k: int): int
    requires Stepped(t)
  {
    t.originNs + k * t.stepNs.value
  }

  lemma MulMonotone(a: int, b: int, step: int)
    requires a <= b && step > 0
    ensures a * step <= b * step
  {
  }

  lemma RoundUp(n: int, step: int, q: int)
    requires step > 0 && q == (n + step - 1) / step
    ensures n <= q * step < n + step
  {
    var r := (n + step - 1) % step;
    assert n + step - 1 == q * step + r by {
      assert n + step - 1 == step * ((n + step - 1) / step) + r;
    }
  }

  lemma LeastMultiple(n: int, step: int, q: int, k: int)
    requires step > 0 && q * step < n + step && n <= k * step
    ensures q <= k
  {
    if k <= q - 1 {
      MulMonotone(k, q - 1, step);
    }
  }

  /** The boundary is the least grid point at or after the instant. */
  lemma BoundaryIsLeast(t: Timing, ns: int, other: int)
    requires Stepped(t)
    ensures Boundary(t, ns).Some? && ns <= Boundary(t, ns).value && OnGrid(t, Boundary(t, ns).value)
    ensures OnGrid(t, other) && ns <= other ==> Boundary(t, ns).value <= other
  {
    var step := t.stepNs.value;
    var q := (ns - t.originNs + step - 1) / step;
    RoundUp(ns - t.originNs, step, q);
    assert Boundary(t, ns).value == GridPoint(t, Max(0, q));
    if OnGrid(t, other) && ns <= other {
      var k: nat :| other == GridPoint(t, k);
      LeastMultiple(ns - t.originNs, step, q, k);
      MulMonotone(Max(0, q), k, step);
    }
  }

  datatype Frontier = Frontier(logical: Instant, native: nat)

  datatype Call = Advance(at: Instant) | React(at: Instant)

  /** The grant rule and the expected native frontier: absent when the grant is refused. Reactive, sample and
      reset calls leave native time alone. */
  function Grant(t: Timing, f: Frontier, call: Call): Option<Frontier> {
    match call
    case React(at) => Some(Frontier(at, f.native))
    case Advance(at) =>
      var next := Boundary(t, f.native + 1);
      var here := Boundary(t, at.ns);
      if (t.mode == FixedStep || t.mode == Lockstep) && !t.exactStop && t.stepNs.Some?
         && (next.None? || at.ns > next.value) then None
      else if t.mode == Des || t.exactStop || !t.latch then Some(Frontier(at, at.ns))
      else if here.None? then None
      else Some(Frontier(at, if here.value == at.ns then at.ns else f.native))
  }

  /** Grants come in simulated-time order: each at or after the frontier it advances. */
  ghost predicate Follows(f: Frontier, call: Call) {
    AtMost(f.logical, call.at)
  }

  ghost predicate Latched(t: Timing) {
    Stepped(t) && t.latch && !t.exactStop
  }

  /** One accepted grant keeps native time at or behind logical time, and moves a latched native frontier
      nowhere or to the very next grid point. */
  lemma GrantStep(t: Timing, f: Frontier, call: Call)
    requires Follows(f, call) && f.native <= f.logical.ns && Grant(t, f, call).Some?
    ensures var g := Grant(t, f, call).value;
      && g.logical == call.at && g.native <= g.logical.ns && f.native <= g.native
      && (Latched(t) ==> g.native == f.native || Some(g.native as int) == Boundary(t, f.native + 1))
  {
    if call.Advance? && Latched(t) {
      BoundaryIsLeast(t, call.at.ns, 0);
      BoundaryIsLeast(t, f.native + 1, call.at.ns);
    }
  }

  /** The frontiers of a run of grants, the start included, up to the first refused one. */
  function Run(t: Timing, f: Frontier, calls: seq<Call>): (trace: seq<Frontier>)
    ensures |trace| > 0 && trace[0] == f
    decreases |calls|
  {
    if calls == [] then [f]
    else
      match Grant(t, f, calls[0])
      case None => [f]
      case Some(g) => [f] + Run(t, g, calls[1..])
  }

  ghost predicate InOrder(f: Frontier, calls: seq<Call>) {
    && (calls != [] ==> Follows(f, calls[0]))
    && forall i :: 0 < i < |calls| ==> AtMost(calls[i - 1].at, calls[i].at)
  }

  /** No native grid point is skipped: over any run of accepted grants, every grid point between the first
      and the last native frontier is some frontier of the run, and native time never leads logical time. */
  lemma {:induction false} NoGridPointSkipped(t: Timing, f: Frontier, calls: seq<Call>, point: int)
    requires Latched(t) && f.native <= f.logical.ns && InOrder(f, calls)
    requires OnGrid(t, point)
    ensures var trace := Run(t, f, calls);
      && (forall i :: 0 <= i < |trace| ==> f.native <= trace[i].native <= trace[i].logical.ns)
      && (f.native < point <= trace[|trace| - 1].native ==> exists i :: 0 < i < |trace| && trace[i].native == point)
    decreases |calls|
  {
    if calls != [] && Grant(t, f, calls[0]).Some? {
      var g := Grant(t, f, calls[0]).value;
      GrantStep(t, f, calls[0]);
      assert InOrder(g, calls[1..]);
      NoGridPointSkipped(t, g, calls[1..], point);
      var trace, rest := Run(t, f, calls), Run(t, g, calls[1..]);
      assert trace == [f] + rest;
      if f.native < point <= trace[|trace| - 1].native {
        if point <= g.native {
          BoundaryIsLeast(t, f.native + 1, point);
          assert trace[1].native == point;
        } else {
          var i :| 0 < i < |rest| && rest[i].native == point;
          assert trace[i + 1].native == point;
        }
      }
    }
  }
}
