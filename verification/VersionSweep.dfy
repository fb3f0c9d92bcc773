/** The interval index over one key's versions: a sweep that keeps, between event points, the greatest
    version covering them. */
module VersionSweep {
  import opened EventTable
  import opened Time

  predicate Covers(valid: Interval, at: Instant, left: bool) {
    if left then valid.CoversBefore(at) else valid.Contains(at)
  }

  /** The naive scan's answer: the greatest version of `spans` covering the instant, or -1. */
  ghost predicate Greatest(spans: seq<Interval>, at: Instant, left: bool, winner: int) {
    && -1 <= winner < |spans|
    && (winner >= 0 ==> Covers(spans[winner], at, left))
    && forall j :: winner < j < |spans| ==> !Covers(spans[j], at, left)
  }

  datatype Compiled = Compiled(coordinates: seq<Instant>, winners: seq<int>)

  ghost predicate Ordered(points: seq<Instant>) {
    forall i, j :: 0 <= i < j < |points| ==> Less(points[i], points[j])
  }

  /** `position` is where a bisection of `points` for the instant lands. */
  ghost predicate IsPosition(points: seq<Instant>, at: Instant, left: bool, position: nat) {
    && position <= |points|
    && (forall i :: 0 <= i < position ==> Before(points[i], at, left))
    && forall i :: position <= i < |points| ==> !Before(points[i], at, left)
  }

  lemma PositionUnique(points: seq<Instant>, at: Instant, left: bool, p: nat, q: nat)
    requires IsPosition(points, at, left, p) && IsPosition(points, at, left, q)
    ensures p == q
  {
    assert p < |points| ==> !Before(points[p], at, left);
    assert q < |points| ==> !Before(points[q], at, left);
  }

  function WinnerAt(c: Compiled, position: nat): int
    requires position <= |c.winners|
  {
    if position == 0 then -1 else c.winners[position - 1]
  }

  /** Lookups that lie before every point of `points` are answered like the naive scan. */
  ghost predicate AnswersBefore(spans: seq<Interval>, c: Compiled, points: set<Instant>) {
    && |c.coordinates| == |c.winners|
    && Ordered(c.coordinates)
    && forall at, left, position {:trigger IsPosition(c.coordinates, at, left, position)} ::
         (forall p :: p in points ==> !Before(p, at, left)) && IsPosition(c.coordinates, at, left, position) ==>
           Greatest(spans, at, left, WinnerAt(c, position))
  }

  ghost predicate IsIndexOf(spans: seq<Interval>, c: Compiled) {
    AnswersBefore(spans, c, {})
  }

  datatype Change = Change(index: nat, added: bool)

  predicate Fires(spans: seq<Interval>, change: Change, at: Instant) {
    && change.index < |spans|
    && if change.added then spans[change.index].start == at else spans[change.index].end == Some(at)
  }

  /** The events of the first `n` versions, each once. */
  ghost predicate EventsOf(spans: seq<Interval>, events: Events<Change>, n: nat) {
    forall at ::
      && Distinct(ChangesAt(events, at))
      && forall c :: c in ChangesAt(events, at) <==> c.index < n && Fires(spans, c, at)
  }

  lemma RecordAdds(events: Events<Change>, at: Instant, change: Change)
    ensures forall t ::
      (ChangesAt(Record(events, at, change), t) == ChangesAt(events, t) + (if t == at then [change] else []))
  {
  }

  lemma VersionEvents(spans: seq<Interval>, events: Events<Change>, i: nat, after: Events<Change>)
    requires i < |spans| && EventsOf(spans, events, i)
    requires forall t ::
      (ChangesAt(after, t) == ChangesAt(events, t)
       + (if t == spans[i].start then [Change(i, true)] else [])
       + (if spans[i].end == Some(t) then [Change(i, false)] else []))
    ensures EventsOf(spans, after, i + 1)
  {
    forall t ensures Distinct(ChangesAt(after, t)) && forall c :: c in ChangesAt(after, t) <==>
      c.index < i + 1 && Fires(spans, c, t)
    {
      var prior, starting, ending := ChangesAt(events, t),
        (if t == spans[i].start then [Change(i, true)] else []),
        (if spans[i].end == Some(t) then [Change(i, false)] else []);
      assert forall c :: c in prior ==> c.index < i;
      assert starting == [] || ending == [];
      assert Distinct(prior + (starting + ending)) && prior + (starting + ending) == prior + starting + ending;
    }
  }

  method CollectEvents(spans: seq<Interval>) returns (events: Events<Change>)
    ensures EventsOf(spans, events, |spans|)
  {
    events := map[];
    for i := 0 to |spans|
      invariant EventsOf(spans, events, i)
    {
      ghost var before := events;
      RecordAdds(events, spans[i].start, Change(i, true));
      events := Record(events, spans[i].start, Change(i, true));
      if spans[i].end.Some? {
        RecordAdds(events, spans[i].end.value, Change(i, false));
        events := Record(events, spans[i].end.value, Change(i, false));
      }
      VersionEvents(spans, before, i, events);
    }
  }

  ghost function ActiveAt(spans: seq<Interval>, at: Instant, left: bool): set<nat> {
    set i: nat | i < |spans| && Covers(spans[i], at, left)
  }

  ghost function Named(changes: seq<Change>, added: bool): set<nat> {
    set c | c in changes && c.added == added :: c.index
  }

  lemma NamedPrefix(changes: seq<Change>, k: nat, added: bool)
    requires k < |changes|
    ensures Named(changes[..k + 1], added) ==
            Named(changes[..k], added) + (if changes[k].added == added then {changes[k].index} else {})
  {
    assert changes[..k + 1] == changes[..k] + [changes[k]];
  }

  /** One point's changes; the heap (kept by its contract: push, greatest element, pop) may hold stale
      versions, but after the purge its greatest element is the greatest active version. */
  method ApplyPoint(spans: seq<Interval>, at: Instant, changes: seq<Change>, active0: set<nat>, heap0: set<nat>)
    returns (active: set<nat>, heap: set<nat>, winner: int)
    requires Distinct(changes)
    requires forall c :: c in changes <==> Fires(spans, c, at)
    requires active0 == ActiveAt(spans, at, true) && active0 <= heap0
    requires forall i :: i in heap0 ==> i < |spans|
    ensures active == ActiveAt(spans, at, false) && active <= heap
    ensures forall i :: i in heap ==> i < |spans|
    ensures winner == -1 <==> active == {}
    ensures winner != -1 ==> winner >= 0 && winner in active && forall i :: i in active ==> i <= winner
  {
    active, heap := active0, heap0;
    for k := 0 to |changes|
      invariant active == active0 - Named(changes[..k], false) + Named(changes[..k], true)
      invariant active <= heap && forall i :: i in heap ==> i < |spans|
    {
      NamedPrefix(changes, k, true);
      NamedPrefix(changes, k, false);
      var change := changes[k];
      assert Fires(spans, change, at);
      assert forall c :: c in changes[..k] ==> c in changes && c != change;
      if change.added {
        active, heap := active + {change.index}, heap + {change.index};
      } else {
        assert change.index in active;
        active := active - {change.index};
      }
    }
    assert changes[..|changes|] == changes;
    assert active == ActiveAt(spans, at, false) by {
      forall i: nat | i < |spans| ensures i in active <==> Covers(spans[i], at, false) {
        assert Change(i, true) in changes <==> Fires(spans, Change(i, true), at);
        assert Change(i, false) in changes <==> Fires(spans, Change(i, false), at);
      }
    }
    winner := -1;
    while heap != {} && winner == -1
      invariant active <= heap && forall i :: i in heap ==> i < |spans|
      invariant winner != -1 ==> winner >= 0 && winner in active && forall i :: i in heap ==> i <= winner
      decreases |heap|, winner == -1
    {
      GreatestNat(heap);
      var top :| top in heap && forall i :: i in heap ==> i <= top;
      if top in active {
        winner := top;
      } else {
        heap := heap - {top};
      }
    }
  }

  lemma GreatestNat(s: set<nat>)
    requires s != {}
    ensures exists m :: m in s && forall i :: i in s ==> i <= m
  {
    var x :| x in s;
    var rest := s - {x};
    if rest == {} {
      assert s == {x};
    } else {
      GreatestNat(rest);
      var y :| y in rest && forall i :: i in rest ==> i <= y;
      assert forall i :: i in s ==> i == x || i in rest;
      var m := if x < y then y else x;
      assert m in s && forall i :: i in s ==> i <= m;
    }
  }

  /** Between event points the covering versions do not change. */
  lemma Steady(spans: seq<Interval>, events: Events<Change>, point: Instant, at: Instant, left: bool)
    requires EventsOf(spans, events, |spans|)
    requires Before(point, at, left)
    requires forall p :: p in events && Less(point, p) ==> !Before(p, at, left)
    ensures ActiveAt(spans, at, left) == ActiveAt(spans, point, false)
  {
    EventPoints(spans, events);
  }

  lemma NothingYet(spans: seq<Interval>, events: Events<Change>, at: Instant, left: bool)
    requires EventsOf(spans, events, |spans|)
    requires forall p :: p in events ==> !Before(p, at, left)
    ensures ActiveAt(spans, at, left) == {}
  {
    EventPoints(spans, events);
  }

  lemma EventPoints(spans: seq<Interval>, events: Events<Change>)
    requires EventsOf(spans, events, |spans|)
    ensures forall i :: 0 <= i < |spans| ==>
      spans[i].start in events && (spans[i].end.Some? ==> spans[i].end.value in events)
  {
    forall i | 0 <= i < |spans|
      ensures spans[i].start in events && (spans[i].end.Some? ==> spans[i].end.value in events)
    {
      assert Change(i, true) in ChangesAt(events, spans[i].start);
      if spans[i].end.Some? {
        assert Change(i, false) in ChangesAt(events, spans[i].end.value);
      }
    }
  }

  /** `points` are the event points ahead of `last`, whose active versions are `active`. */
  ghost predicate Ahead(spans: seq<Interval>, events: Events<Change>, points: set<Instant>, last: Option<Instant>,
                        active: set<nat>)
  {
    && points <= events.Keys
    && (last.None? ==> points == events.Keys && active == {})
    && (last.Some? ==>
         && active == ActiveAt(spans, last.value, false)
         && forall p :: p in events ==> (p in points <==> Less(last.value, p)))
  }

  /** The compressed index as far as swept: its last winner is the current one. */
  ghost predicate Current(c: Compiled, last: Option<Instant>, winner: int) {
    && |c.coordinates| == |c.winners|
    && (last.None? ==> c.coordinates == [])
    && (last.Some? ==> c.coordinates != [] && c.winners[|c.winners| - 1] == winner
                       && forall i :: 0 <= i < |c.coordinates| ==> AtMost(c.coordinates[i], last.value))
  }

  function Compress(c: Compiled, point: Instant, winner: int): Compiled
    requires |c.coordinates| == |c.winners|
  {
    if c.winners == [] || c.winners[|c.winners| - 1] != winner
    then Compiled(c.coordinates + [point], c.winners + [winner])
    else c
  }

  lemma CompressAnswers(spans: seq<Interval>, events: Events<Change>, points: set<Instant>, last: Option<Instant>,
                        c: Compiled, before: int, at: Instant, winner: int)
    requires EventsOf(spans, events, |spans|)
    requires points <= events.Keys && (last.None? ==> points == events.Keys)
    requires last.Some? ==> forall p :: p in events ==> (p in points <==> Less(last.value, p))
    requires AnswersBefore(spans, c, points) && Current(c, last, before)
    requires at in points && forall p :: p in points ==> AtMost(at, p)
    requires Greatest(spans, at, false, winner)
    ensures AnswersBefore(spans, Compress(c, at, winner), points - {at})
    ensures Current(Compress(c, at, winner), Some(at), winner)
  {
    var d := Compress(c, at, winner);
    assert forall i :: 0 <= i < |c.coordinates| ==> Less(c.coordinates[i], at);
    forall t, left, position: nat
      | (forall p :: p in points - {at} ==> !Before(p, t, left)) && IsPosition(d.coordinates, t, left, position)
      ensures Greatest(spans, t, left, WinnerAt(d, position))
    {
      if Before(at, t, left) {
        Steady(spans, events, at, t, left);
        assert forall i: nat :: i < |spans| ==> (Covers(spans[i], t, left) <==> i in ActiveAt(spans, t, left));
        assert forall i: nat :: i < |spans| ==> (Covers(spans[i], at, false) <==> i in ActiveAt(spans, at, false));
        assert forall i :: 0 <= i < |d.coordinates| ==>
          AtMost(d.coordinates[i], at) && Before(d.coordinates[i], t, left);
        PositionUnique(d.coordinates, t, left, position, |d.coordinates|);
      } else {
        assert forall p :: p in points ==> !Before(p, t, left);
        assert d != c ==> d.coordinates[|c.coordinates|] == at;
        assert forall i :: 0 <= i < |c.coordinates| ==> d.coordinates[i] == c.coordinates[i];
        assert IsPosition(c.coordinates, t, left, position);
      }
    }
  }

  /** Compile the sweep index of a knowledge prefix. */
  method Compile(spans: seq<Interval>) returns (c: Compiled)
    ensures IsIndexOf(spans, c)
  {
    var events := CollectEvents(spans);
    var points := events.Keys;
    var active: set<nat>, heap: set<nat> := {}, {};
    var winner: int := -1;
    ghost var last: Option<Instant> := None;
    c := Compiled([], []);
    forall at, left | forall p :: p in points ==> !Before(p, at, left) ensures Greatest(spans, at, left, -1) {
      NothingYet(spans, events, at, left);
      assert forall i: nat :: i < |spans| ==> (Covers(spans[i], at, left) <==> i in ActiveAt(spans, at, left));
    }
    while points != {}
      invariant Ahead(spans, events, points, last, active)
      invariant active <= heap && forall i :: i in heap ==> i < |spans|
      invariant Current(c, last, winner) && AnswersBefore(spans, c, points)
    {
      LeastInstant(points);
      var at :| at in points && forall p :: p in points ==> AtMost(at, p);
      assert ActiveAt(spans, at, true) == active by {
        if last.Some? {
          Steady(spans, events, last.value, at, true);
        } else {
          NothingYet(spans, events, at, true);
        }
      }
      ghost var before := winner;
      active, heap, winner := ApplyPoint(spans, at, ChangesAt(events, at), active, heap);
      assert Greatest(spans, at, false, winner) by {
        assert forall i: nat :: i < |spans| ==> (Covers(spans[i], at, false) <==> i in active);
      }
      CompressAnswers(spans, events, points, last, c, before, at, winner);
      c := Compress(c, at, winner);
      points, last := points - {at}, Some(at);
    }
  }
}
