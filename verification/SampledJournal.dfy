/** Frames along whole journals: an evaluator publishes at the instants of transactions, and those never go back. */
module SampledJournal {
  import opened Replay
  import opened RunState
  import opened Time
  import Sampling

  /** The physical times at which a context is published, for any choice of the transactions that publish it. */
  ghost function Published(journal: seq<Record>, publishes: nat -> bool): seq<nat> {
    if journal == [] then []
    else
      var k := |journal| - 1;
      Published(journal[..k], publishes)
        + if journal[k].Transaction? && publishes(k) then [journal[k].at.ns] else []
  }

  lemma {:induction false} PublishedAll(journal: seq<Record>, publishes: nat -> bool, k: nat)
    requires k < |journal| && journal[k].Transaction? && publishes(k)
    ensures journal[k].at.ns in Published(journal, publishes)
    decreases |journal|
  {
    if k < |journal| - 1 {
      PublishedAll(journal[..|journal| - 1], publishes, k);
    }
  }

  ghost predicate Ordered(times: seq<nat>, last: nat) {
    && (forall i, j :: 0 <= i < j < |times| ==> times[i] <= times[j])
    && forall i :: 0 <= i < |times| ==> times[i] <= last
  }

  lemma OrderedMore(times: seq<nat>, last: nat, more: seq<nat>, now: nat)
    requires Ordered(times, last) && last <= now && (more == [] || more == [now])
    ensures Ordered(times + more, now)
  {
  }

  lemma TimeOnward(b: Pinned, s: State, record: Record, next: State)
    requires PinnedValid(b) && StateValid(b, s) && Replayed(b, s, record) == Some(next)
    ensures s.cut.instant.ns <= next.cut.instant.ns && (record.Transaction? ==> next.cut.instant.ns == record.at.ns)
  {
    RecordOnward(b, s, record);
    if record.Transaction? {
      WaveOnward(b, s, record.at, record.effects);
    }
  }

  /** One record publishes at its own time, if it is a publishing transaction. */
  lemma PublishesNext(b: Pinned, s: State, record: Record, next: State, times: seq<nat>, publishing: bool)
    requires PinnedValid(b) && StateValid(b, s) && Replayed(b, s, record) == Some(next)
    requires Ordered(times, s.cut.instant.ns)
    ensures Ordered(times + if record.Transaction? && publishing then [record.at.ns] else [], next.cut.instant.ns)
  {
    TimeOnward(b, s, record, next);
    OrderedMore(times, s.cut.instant.ns, if record.Transaction? && publishing then [record.at.ns] else [],
                next.cut.instant.ns);
  }

  /** The states around the last record of an accepted journal. */
  lemma LastOf(b: Pinned, s: State, journal: seq<Record>) returns (before: State, next: State)
    requires PinnedValid(b) && StateValid(b, s) && journal != [] && ReplayAll(b, s, journal).Some?
    ensures ReplayAll(b, s, journal[..|journal| - 1]) == Some(before) && StateValid(b, before)
    ensures ReplayAll(b, s, journal) == Some(next) == Replayed(b, before, journal[|journal| - 1])
  {
    LastRecord(b, s, journal);
    before := ReplayAll(b, s, journal[..|journal| - 1]).value;
    next := ReplayAll(b, s, journal).value;
  }

  /** Along an accepted journal publications come in simulated-time order, none after the cut. */
  lemma {:induction false} PublishedInOrder(b: Pinned, s: State, journal: seq<Record>, publishes: nat -> bool)
    requires PinnedValid(b) && StateValid(b, s) && ReplayAll(b, s, journal).Some?
    ensures Ordered(Published(journal, publishes), ReplayAll(b, s, journal).value.cut.instant.ns)
    decreases |journal|
  {
    if journal != [] {
      var shorter, last := journal[..|journal| - 1], journal[|journal| - 1];
      var before, next := LastOf(b, s, journal);
      PublishedInOrder(b, s, shorter, publishes);
      PublishesNext(b, before, last, next, Published(shorter, publishes), publishes(|shorter|));
    }
  }

  /** So a context's recorded physical times increase strictly along any accepted journal, and none is missed. */
  lemma FramesIncrease(b: Pinned, s: State, journal: seq<Record>, publishes: nat -> bool)
    requires PinnedValid(b) && StateValid(b, s) && ReplayAll(b, s, journal).Some?
    ensures Sampling.Increasing(Sampling.PublishAll([], Published(journal, publishes)))
    ensures forall k :: 0 <= k < |journal| && journal[k].Transaction? && publishes(k) ==>
      journal[k].at.ns in Sampling.PublishAll([], Published(journal, publishes))
  {
    PublishedInOrder(b, s, journal, publishes);
    forall k | 0 <= k < |journal| && journal[k].Transaction? && publishes(k)
      ensures journal[k].at.ns in Sampling.PublishAll([], Published(journal, publishes))
    {
      PublishedAll(journal, publishes, k);
      Sampling.AllRecorded([], Published(journal, publishes), journal[k].at.ns);
    }
    Sampling.FramesIncrease([], Published(journal, publishes));
  }
}
