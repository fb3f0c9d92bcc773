/** The kernel's deadline records beside the timer queue's active set: every pending record is active at its
    due instant, and boundary timers follow the validity intervals they were armed for. */
module Timers {
  import opened Ids
  import opened Time

  datatype Kind = EdgeKind | ObligationKind

  /** What a boundary timer watches: one version of a fact, an edge or an obligation. */
  datatype Subject = OfFact(version: ItemRef) | OfRelation(kind: Kind, id: string, version: ItemRef)

  datatype TimerKey = BoundaryTimer(subject: Subject, at: Instant) | PartitionTimer(partition: string, id: string)

  datatype Progress = Pending | Canceled | Fired

  datatype Timer = Timer(due: Instant, progress: Progress)

  datatype Timers = Timers(records: map<TimerKey, Timer>, active: map<TimerKey, Instant>)

  ghost predicate Agree(t: Timers) {
    && (forall key :: key in t.active <==> key in t.records && t.records[key].progress.Pending?)
    && (forall key :: key in t.active ==> t.active[key] == t.records[key].due)
    && (forall key :: key in t.records && key.BoundaryTimer? ==> t.records[key].due == key.at)
  }

  function Schedule(t: Timers, key: TimerKey, due: Instant): Timers {
    Timers(t.records[key := Timer(due, Pending)], t.active[key := due])
  }

  function Cancel(t: Timers, key: TimerKey): Timers
    requires key in t.records
  {
    Timers(t.records[key := t.records[key].(progress := Canceled)], t.active - {key})
  }

  /** Both ends of an interval, as far as they exist. */
  function Boundaries(valid: Option<Interval>): seq<Instant> {
    if valid.None? then []
    else [valid.value.start] + (if valid.value.end.Some? then [valid.value.end.value] else [])
  }

  predicate Due(valid: Option<Interval>, boundary: Instant, now: Instant) {
    boundary in Boundaries(valid) && Less(now, boundary)
  }

  /** Arm a timer for every boundary of a version still to come. */
  method Arm(t: Timers, subject: Subject, valid: Option<Interval>, now: Instant) returns (r: Timers)
    requires Agree(t)
    ensures Agree(r)
    ensures forall key :: key in r.active <==> key in t.active || Arms(subject, valid, now, key)
    ensures forall key :: key in r.records <==> key in t.records || Arms(subject, valid, now, key)
  {
    r := t;
    var boundaries := Boundaries(valid);
    for i := 0 to |boundaries|
      invariant Agree(r)
      invariant forall key :: key in r.active <==> key in t.active || ArmsFirst(subject, boundaries[..i], now, key)
      invariant forall key :: key in r.records <==> key in t.records || ArmsFirst(subject, boundaries[..i], now, key)
    {
      assert boundaries[..i + 1] == boundaries[..i] + [boundaries[i]];
      if Less(now, boundaries[i]) {
        r := Schedule(r, BoundaryTimer(subject, boundaries[i]), boundaries[i]);
      }
    }
    assert boundaries[..|boundaries|] == boundaries;
  }

  /** `key` is the timer of a future boundary of the subject. */
  predicate Arms(subject: Subject, valid: Option<Interval>, now: Instant, key: TimerKey) {
    key.BoundaryTimer? && key.subject == subject && Due(valid, key.at, now)
  }

  predicate ArmsFirst(subject: Subject, boundaries: seq<Instant>, now: Instant, key: TimerKey) {
    key.BoundaryTimer? && key.subject == subject && key.at in boundaries && Less(now, key.at)
  }

  /** Cancel the active timers of a replaced version's boundaries still to come. */
  method Disarm(t: Timers, subject: Subject, valid: Option<Interval>, now: Instant) returns (r: Timers)
    requires Agree(t)
    ensures Agree(r) && r.records.Keys == t.records.Keys
    ensures forall key :: key in r.active <==> key in t.active && !Arms(subject, valid, now, key)
  {
    r := t;
    var boundaries := Boundaries(valid);
    for i := 0 to |boundaries|
      invariant Agree(r) && r.records.Keys == t.records.Keys
      invariant forall key :: key in r.active <==> key in t.active && !ArmsFirst(subject, boundaries[..i], now, key)
    {
      assert boundaries[..i + 1] == boundaries[..i] + [boundaries[i]];
      var key := BoundaryTimer(subject, boundaries[i]);
      if Less(now, boundaries[i]) && key in r.active {
        r := Cancel(r, key);
      }
    }
    assert boundaries[..|boundaries|] == boundaries;
  }

  /** Fire every active timer due by `now`: exactly those leave the active set. */
  method Fire(t: Timers, now: Instant) returns (r: Timers, fired: set<TimerKey>)
    requires Agree(t)
    ensures Agree(r) && r.records.Keys == t.records.Keys
    ensures fired == set key | key in t.active && AtMost(t.active[key], now)
    ensures r.active == t.active - fired
    ensures forall key :: key in fired ==> r.records[key].progress.Fired?
  {
    fired := set key | key in t.active && AtMost(t.active[key], now);
    r := Timers(t.records, t.active - fired);
    var left := fired;
    while left != {}
      invariant left <= fired && r.active == t.active - fired && r.records.Keys == t.records.Keys
      invariant forall key :: key in r.records ==>
        r.records[key] == (if key in fired - left then t.records[key].(progress := Fired) else t.records[key])
    {
      var key :| key in left;
      r := r.(records := r.records[key := r.records[key].(progress := Fired)]);
      left := left - {key};
    }
  }
}
