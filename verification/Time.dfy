/** Simulation time: instants ordered by nanosecond then microstep, half-open validity intervals,
    and cuts, the coordinates of a journal prefix. */
module Time {

  datatype Option<+T> = None | Some(value: T) {
    function GetOr(default: T): T {
      match this
      case Some(v) => v
      case None => default
    }
  }

  datatype Instant = Instant(ns: nat, microstep: nat)

  predicate Less(a: Instant, b: Instant) {
    a.ns < b.ns || (a.ns == b.ns && a.microstep < b.microstep)
  }

  predicate AtMost(a: Instant, b: Instant) {
    a == b || Less(a, b)
  }

  function Later(a: Instant, b: Instant): (r: Instant)
    ensures AtMost(a, r) && AtMost(b, r) && (r == a || r == b)
  {
    if Less(a, b) then b else a
  }

  /** Rows of an interval before the constructor's nonemptiness check. */
  datatype IntervalRow = Interval(start: Instant, end: Option<Instant>) {
    predicate Contains(at: Instant) {
      AtMost(start, at) && (end.None? || Less(at, end.value))
    }

    /** Coverage of the open left side of `boundary`: started before it, not ended before it. */
    predicate CoversBefore(boundary: Instant) {
      Less(start, boundary) && (end.None? || AtMost(boundary, end.value))
    }
  }

  type Interval = row: IntervalRow | row.end.None? || Less(row.start, row.end.value)
    witness IntervalRow.Interval(Instant(0, 0), None)

  datatype Cut = Cut(index: nat, instant: Instant)

  /** A nonempty finite set of instants has a least member: what sorting the event points gives. */
  lemma LeastInstant(points: set<Instant>)
    requires points != {}
    ensures exists at :: at in points && forall p :: p in points ==> AtMost(at, p)
  {
    var p :| p in points;
    var rest := points - {p};
    if rest == {} {
      assert points == {p};
    } else {
      LeastInstant(rest);
      var q :| q in rest && forall o :: o in rest ==> AtMost(q, o);
      var least := if Less(p, q) then p else q;
      assert forall o :: o in points ==> o == p || o in rest;
      assert least in points && forall o :: o in points ==> AtMost(least, o);
    }
  }

  /** Bisection point of a sorted sequence of instants: `bisect_left` when `left`, else `bisect_right`. */
  method Bisect(points: seq<Instant>, at: Instant, hi: nat, left: bool) returns (position: nat)
    requires hi <= |points|
    requires forall i, j :: 0 <= i < j < hi ==> AtMost(points[i], points[j])
    ensures position <= hi
    ensures forall i :: 0 <= i < position ==> Before(points[i], at, left)
    ensures forall i :: position <= i < hi ==> !Before(points[i], at, left)
  {
    var low, high := 0, hi;
    while low < high
      invariant 0 <= low <= high <= hi
      invariant forall i :: 0 <= i < low ==> Before(points[i], at, left)
      invariant forall i :: high <= i < hi ==> !Before(points[i], at, left)
    {
      var middle := (low + high) / 2;
      if Before(points[middle], at, left) {
        low := middle + 1;
      } else {
        high := middle;
      }
    }
    position := low;
  }

  /** The prefix a bisection counts: strictly before `at` when `left`, up to and including it otherwise. */
  predicate Before(point: Instant, at: Instant, left: bool) {
    if left then Less(point, at) else AtMost(point, at)
  }
}
