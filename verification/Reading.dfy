/** What a reader of the store is told: which version, in which lifetime, and what was written last. */
module Reading {
  import opened Building
  import opened FactVersions
  import opened Ids
  import opened Ledger
  import opened RelationGraph
  import opened RelationTables
  import opened Soundness
  import opened Text
  import opened Time
  import opened Timers
  import opened Transactions

  // ---- instants ----

  /** An interval covers the open left side of a boundary exactly when it contains every instant from some point before
      the boundary on, up to the boundary. */
  lemma LeftLimit(valid: Interval, boundary: Instant)
    ensures valid.CoversBefore(boundary) <==> exists from: Instant :: ContainsFrom(valid, from, boundary)
  {
    if valid.CoversBefore(boundary) {
      assert ContainsFrom(valid, valid.start, boundary);
    }
    if from: Instant :| ContainsFrom(valid, from, boundary) {
      assert valid.Contains(from);
      if valid.end.Some? && Less(valid.end.value, boundary) {
        assert valid.Contains(Later(from, valid.end.value));
      }
    }
  }

  ghost predicate ContainsFrom(valid: Interval, from: Instant, boundary: Instant) {
    Less(from, boundary) && forall at: Instant :: AtMost(from, at) && Less(at, boundary) ==> valid.Contains(at)
  }

  // ---- lifetimes ----

  /** A generation that a knowledge prefix has seen created. */
  ghost predicate CreatedBy(s: Store, ref: EntityRef, cut: Cut) {
    ref in s.lives && s.lives[ref].created.index <= cut.index
  }

  /** A prefix the store has issued. */
  ghost predicate IssuedBy(s: Store, cut: Cut) {
    cut.index < |s.cuts| && s.cuts[cut.index] == cut
  }

  /** Alive at an instant, as far as a prefix knows: created by then, and not removed by then at a record it knows. */
  ghost predicate AliveAt(life: Life, cut: Cut, at: Instant) {
    && AtMost(life.created.instant, at)
    && !(life.removed.Some? && life.removed.value.index <= cut.index && AtMost(life.removed.value.instant, at))
  }

  lemma AliveExactly(s: Store, ref: EntityRef, cut: Cut, at: Instant)
    ensures Alive(s, ref, cut, at) == Refused(CutCode) <==> !IssuedBy(s, cut)
    ensures Alive(s, ref, cut, at) == Refused(EntityUnknown) <==> IssuedBy(s, cut) && !CreatedBy(s, ref, cut)
    ensures Alive(s, ref, cut, at) == Answered(true) <==>
      IssuedBy(s, cut) && CreatedBy(s, ref, cut) && AliveAt(s.lives[ref], cut, at)
    ensures Alive(s, ref, cut, at) == Answered(false) <==>
      IssuedBy(s, cut) && CreatedBy(s, ref, cut) && !AliveAt(s.lives[ref], cut, at)
  {
  }

  // ---- fields ----

  /** The version a prefix answers with: the last one recorded in it that covers the instant, or its open left side. */
  ghost predicate Answers(versions: seq<Version>, at: Instant, cut: Cut, left: bool, v: Version) {
    exists i :: GreatestKnown(versions, at, cut.index, left, i) && i >= 0 && versions[i] == v
  }

  /** A field that may be read: of a generation the prefix has seen created, and selected for it. */
  ghost predicate Readable(s: Store, key: FieldKey, cut: Cut) {
    IssuedBy(s, cut) && CreatedBy(s, key.ref, cut) && key in s.writers
  }

  /** A read of a field at an instant answers with a fact exactly when the generation is alive then and that fact is the
      version it has; a retraction, like no version at all, reads as absent; and what cannot be read is refused for its
      own reason. */
  lemma FieldExactly(s: Store, key: FieldKey, at: Instant, cut: Cut, v: Version)
    ensures Field(s, key, at, cut).Answered? <==> Readable(s, key, cut)
    ensures Readable(s, key, cut) ==>
      (Field(s, key, at, cut) == Answered(Present(v)) <==>
         AliveAt(s.lives[key.ref], cut, at) && Answers(VersionsOf(s, key), at, cut, false, v) && v.Fact?)
    ensures Field(s, key, at, cut) == Refused(CutCode) <==> !IssuedBy(s, cut)
    ensures Field(s, key, at, cut) == Refused(EntityUnknown) <==> IssuedBy(s, cut) && !CreatedBy(s, key.ref, cut)
    ensures Field(s, key, at, cut) == Refused(FieldInactive) <==>
      IssuedBy(s, cut) && CreatedBy(s, key.ref, cut) && key !in s.writers
  {
    AliveExactly(s, key.ref, cut, at);
    NewestAnswers(VersionsOf(s, key), at, cut, false, v);
  }

  /** And it reads as absent exactly when the generation is not alive then, or its version is none or a retraction. */
  lemma AbsentExactly(s: Store, key: FieldKey, at: Instant, cut: Cut)
    requires Readable(s, key, cut)
    ensures Field(s, key, at, cut) == Answered(Absent) <==>
      !AliveAt(s.lives[key.ref], cut, at)
      || forall v :: Answers(VersionsOf(s, key), at, cut, false, v) ==> v.Retraction?
  {
    var versions := VersionsOf(s, key);
    var newest := Newest(versions, at, cut.index, false);
    forall i ensures GreatestKnown(versions, at, cut.index, false, i) <==> i == newest {
      SelectIsNewest(versions, at, cut.index, false, i);
    }
    if newest >= 0 {
      assert Answers(versions, at, cut, false, versions[newest]);
    }
  }

  lemma NewestAnswers(versions: seq<Version>, at: Instant, cut: Cut, left: bool, v: Version)
    ensures ReadingOf(versions, Newest(versions, at, cut.index, left)) == Present(v) <==>
      Answers(versions, at, cut, left, v) && v.Fact?
  {
    forall i ensures GreatestKnown(versions, at, cut.index, left, i) <==> i == Newest(versions, at, cut.index, left) {
      SelectIsNewest(versions, at, cut.index, left, i);
    }
  }

  /** Alive on the open left side of a boundary. */
  ghost predicate AliveBefore(life: Life, cut: Cut, boundary: Instant) {
    && Less(life.created.instant, boundary)
    && !(life.removed.Some? && life.removed.value.index <= cut.index && Less(life.removed.value.instant, boundary))
  }

  /** A read on the open left side of a boundary, likewise. */
  lemma FieldBeforeExactly(s: Store, key: FieldKey, boundary: Instant, cut: Cut, v: Version)
    ensures FieldBefore(s, key, boundary, cut).Answered? <==> IssuedBy(s, cut) && CreatedBy(s, key.ref, cut)
    ensures FieldBefore(s, key, boundary, cut).Answered? ==>
      (FieldBefore(s, key, boundary, cut) == Answered(Present(v)) <==>
         && AliveBefore(s.lives[key.ref], cut, boundary)
         && Answers(VersionsOf(s, key), boundary, cut, true, v) && v.Fact?)
    ensures FieldBefore(s, key, boundary, cut) == Refused(CutCode) <==> !IssuedBy(s, cut)
    ensures FieldBefore(s, key, boundary, cut) == Refused(EntityUnknown) <==>
      IssuedBy(s, cut) && !CreatedBy(s, key.ref, cut)
  {
    NewestAnswers(VersionsOf(s, key), boundary, cut, true, v);
  }

  // ---- the left side is a limit ----

  /** The latest of the events of some versions that lie before a boundary, no earlier than a given instant. */
  function LastEvent(versions: seq<Version>, boundary: Instant, from: Instant): (last: Instant)
    requires Less(from, boundary)
    ensures AtMost(from, last) && Less(last, boundary)
    ensures forall i :: 0 <= i < |versions| ==>
      && (Less(versions[i].valid.start, boundary) ==> AtMost(versions[i].valid.start, last))
      && (versions[i].valid.end.Some? && Less(versions[i].valid.end.value, boundary) ==>
            AtMost(versions[i].valid.end.value, last))
  {
    if versions == [] then from
    else
      var v, n := versions[|versions| - 1], |versions| - 1;
      var last := LastEvent(versions[..n], boundary, from);
      var started := if Less(v.valid.start, boundary) then Later(last, v.valid.start) else last;
      if v.valid.end.Some? && Less(v.valid.end.value, boundary) then Later(started, v.valid.end.value) else started
  }

  lemma SameCover(valid: Interval, last: Instant, at: Instant, boundary: Instant)
    requires AtMost(last, at) && Less(at, boundary)
    requires Less(valid.start, boundary) ==> AtMost(valid.start, last)
    requires valid.end.Some? && Less(valid.end.value, boundary) ==> AtMost(valid.end.value, last)
    ensures valid.Contains(at) <==> valid.CoversBefore(boundary)
  {
  }

  /** A read on the open left side of a boundary gives what reads give from some point before the boundary on. */
  lemma FieldBeforeIsLimit(s: Store, key: FieldKey, boundary: Instant, cut: Cut) returns (from: Instant)
    requires Readable(s, key, cut) && boundary != Instant(0, 0)
    ensures Less(from, boundary)
    ensures forall at :: AtMost(from, at) && Less(at, boundary) ==>
      Field(s, key, at, cut) == FieldBefore(s, key, boundary, cut)
  {
    var life, versions := s.lives[key.ref], VersionsOf(s, key);
    from := LastEvent(versions, boundary, LastTurn(life, boundary));
    forall at | AtMost(from, at) && Less(at, boundary)
      ensures Field(s, key, at, cut) == FieldBefore(s, key, boundary, cut)
    {
      SameVersions(versions, at, boundary, from, cut.index);
      SameLife(life, cut, at, boundary);
    }
  }

  lemma SameVersions(versions: seq<Version>, at: Instant, boundary: Instant, from: Instant, recordIndex: nat)
    requires AtMost(from, at) && Less(at, boundary)
    requires forall i :: 0 <= i < |versions| ==>
      && (Less(versions[i].valid.start, boundary) ==> AtMost(versions[i].valid.start, from))
      && (versions[i].valid.end.Some? && Less(versions[i].valid.end.value, boundary) ==>
            AtMost(versions[i].valid.end.value, from))
    ensures Newest(versions, at, recordIndex, false) == Newest(versions, boundary, recordIndex, true)
  {
    forall i | 0 <= i < |versions|
      ensures versions[i].valid.Contains(at) <==> versions[i].valid.CoversBefore(boundary)
    {
      SameCover(versions[i].valid, from, at, boundary);
    }
    SameNewest(versions, at, boundary, recordIndex);
  }

  lemma SameLife(life: Life, cut: Cut, at: Instant, boundary: Instant)
    requires boundary != Instant(0, 0) && AtMost(LastTurn(life, boundary), at) && Less(at, boundary)
    ensures AliveAt(life, cut, at) <==> AliveBefore(life, cut, boundary)
  {
  }

  lemma {:induction false} SameNewest(versions: seq<Version>, at: Instant, boundary: Instant, recordIndex: nat)
    requires forall i :: 0 <= i < |versions| ==>
      (versions[i].valid.Contains(at) <==> versions[i].valid.CoversBefore(boundary))
    ensures Newest(versions, at, recordIndex, false) == Newest(versions, boundary, recordIndex, true)
  {
    if versions != [] {
      SameNewest(versions[..|versions| - 1], at, boundary, recordIndex);
    }
  }

  /** The last turn of a lifetime before a boundary, or the beginning of time. */
  function LastTurn(life: Life, boundary: Instant): (turn: Instant)
    requires boundary != Instant(0, 0)
    ensures Less(turn, boundary)
    ensures Less(life.created.instant, boundary) ==> AtMost(life.created.instant, turn)
    ensures life.removed.Some? && Less(life.removed.value.instant, boundary) ==>
      AtMost(life.removed.value.instant, turn)
  {
    var born := if Less(life.created.instant, boundary) then life.created.instant else Instant(0, 0);
    if life.removed.Some? && Less(life.removed.value.instant, boundary) then Later(born, life.removed.value.instant)
    else born
  }

  // ---- histories ----

  /** A version is part of a history: the prefix knows it, and it is valid at some instant asked for at which the
      generation was alive. */
  ghost predicate Told(life: Life, v: Version, start: Instant, end: Instant, cut: Cut) {
    v.ref.recordIndex <= cut.index && exists at: Instant :: ToldAt(life, v, start, end, cut, at)
  }

  ghost predicate ToldAt(life: Life, v: Version, start: Instant, end: Instant, cut: Cut, at: Instant) {
    AtMost(start, at) && Less(at, end) && AliveAt(life, cut, at) && v.valid.Contains(at)
  }

  /** Some versions of a key, in recording order. */
  ghost predicate Picks(versions: seq<Version>, order: seq<nat>, picked: seq<Version>) {
    && |order| == |picked|
    && (forall k :: 0 <= k < |order| ==> order[k] < |versions| && picked[k] == versions[order[k]])
    && forall k, l :: 0 <= k < l < |order| ==> order[k] < order[l]
  }

  /** A history holds exactly the versions told, each once, in the order they were recorded. */
  lemma HistoryExactly(s: Store, key: FieldKey, start: Instant, end: Instant, cut: Cut) returns (order: seq<nat>)
    ensures History(s, key, start, end, cut).Answered? <==> Readable(s, key, cut)
    ensures Readable(s, key, cut) ==>
      && Picks(VersionsOf(s, key), order, History(s, key, start, end, cut).value)
      && forall i: nat :: i in order <==>
           i < |VersionsOf(s, key)| && Told(s.lives[key.ref], VersionsOf(s, key)[i], start, end, cut)
    ensures History(s, key, start, end, cut) == Refused(CutCode) <==> !IssuedBy(s, cut)
    ensures History(s, key, start, end, cut) == Refused(EntityUnknown) <==>
      IssuedBy(s, cut) && !CreatedBy(s, key.ref, cut)
    ensures History(s, key, start, end, cut) == Refused(FieldInactive) <==>
      IssuedBy(s, cut) && CreatedBy(s, key.ref, cut) && key !in s.writers
  {
    order := [];
    if Readable(s, key, cut) {
      var life, versions := s.lives[key.ref], VersionsOf(s, key);
      var lo, hi := Later(start, life.created.instant), LastTold(life, end, cut);
      forall v: Version ensures Told(life, v, start, end, cut) <==>
        v.ref.recordIndex <= cut.index && Less(lo, hi) && Intersects(v.valid, lo, hi)
      {
        ToldExactly(life, v, start, end, cut);
      }
      if Less(lo, hi) {
        order := OverlappingPicks(versions, lo, hi, cut.index);
      }
    }
  }

  /** The end of what a history may tell. */
  function LastTold(life: Life, end: Instant, cut: Cut): Instant {
    if life.removed.Some? && life.removed.value.index <= cut.index && Less(life.removed.value.instant, end)
    then life.removed.value.instant else end
  }

  lemma ToldExactly(life: Life, v: Version, start: Instant, end: Instant, cut: Cut)
    ensures var lo, hi := Later(start, life.created.instant), LastTold(life, end, cut);
      Told(life, v, start, end, cut) <==>
        v.ref.recordIndex <= cut.index && Less(lo, hi) && Intersects(v.valid, lo, hi)
  {
    var lo, hi := Later(start, life.created.instant), LastTold(life, end, cut);
    if v.ref.recordIndex <= cut.index && Less(lo, hi) && Intersects(v.valid, lo, hi) {
      assert ToldAt(life, v, start, end, cut, Later(lo, v.valid.start));
    }
  }

  lemma {:induction false} OverlappingPicks(versions: seq<Version>, lo: Instant, hi: Instant, recordIndex: nat)
    returns (order: seq<nat>)
    ensures Picks(versions, order, Overlapping(versions, lo, hi, recordIndex))
    ensures forall i: nat :: i in order <==>
      i < |versions| && versions[i].ref.recordIndex <= recordIndex && Intersects(versions[i].valid, lo, hi)
  {
    order := [];
    if versions != [] {
      var n := |versions| - 1;
      order := OverlappingPicks(versions[..n], lo, hi, recordIndex);
      if versions[n].ref.recordIndex <= recordIndex && Intersects(versions[n].valid, lo, hi) {
        PicksLast(versions, order, Overlapping(versions[..n], lo, hi, recordIndex));
        order := order + [n];
      } else {
        assert Overlapping(versions, lo, hi, recordIndex) == Overlapping(versions[..n], lo, hi, recordIndex);
      }
    }
  }

  lemma PicksLast(versions: seq<Version>, order: seq<nat>, picked: seq<Version>)
    requires versions != [] && Picks(versions[..|versions| - 1], order, picked)
    ensures Picks(versions, order + [|versions| - 1], picked + [versions[|versions| - 1]])
  {
  }
}
