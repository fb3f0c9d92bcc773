/** The candidate itself: its operations in the order a wave applies them, the integrity check, the commit. */
module Candidates {
  import opened Building
  import opened FactVersions
  import opened Ids
  import opened Ledger
  import opened RelationGraph
  import RelationSweep
  import opened RelationTables
  import opened Soundness
  import opened Text
  import opened Time
  import opened Timers
  import opened Transactions

  class Candidate {
    const before: Store
    const instant: Instant
    const index: nat
    const bootstrap: bool
    const removing: set<EntityRef>
    var state: Store
    var items: nat
    var creating: set<string>
    var mutated: set<FieldKey>
    var relationMutated: set<(Kind, string)>
    var affected: set<string>

    ghost predicate Valid()
      reads this
    {
      && InProgress(before, state, instant, index, Marks(creating, removing, relationMutated, affected))
      && affected <= before.registry.Keys
    }

    /** `removing` is what the merged batches announce; the cut will be the journal's next. */
    constructor (store: Store, instant: Instant, bootstrap: bool, removing: set<EntityRef>)
      requires Sound(store) && AtMost(LastCut(store).instant, instant)
      ensures Valid() && before == store && state == store && this.instant == instant && this.bootstrap == bootstrap
      ensures this.removing == removing && index == |store.cuts| && affected == {}
    {
      before, state, this.instant, index, this.bootstrap, this.removing :=
        store, store, instant, |store.cuts|, bootstrap, removing;
      items, creating, mutated, relationMutated, affected := 0, {}, {}, {}, {};
      Opened(store, instant, removing);
    }

    /** The journal coordinate of the next item. */
    function Out(): (out: ItemRef)
      reads this
      ensures out == ItemRef(index, items)
    {
      ItemRef(index, items)
    }

    /** Take over a state and its marks once the step to them is justified; one journal item longer. */
    method Install(next: Store, m: Marks)
      requires InProgress(before, next, instant, index, m) && m.removing == removing
        && m.affected <= before.registry.Keys
      modifies this`state, this`creating, this`relationMutated, this`affected, this`items
      ensures Valid() && state == next && items == old(items) + 1
      ensures creating == m.creating && relationMutated == m.mutated && affected == m.affected
    {
      state, creating, relationMutated, affected, items := next, m.creating, m.mutated, m.affected, items + 1;
    }

    method Create(ref: EntityRef, fields: map<string, string>) returns (refused: Option<Code>)
      requires Valid()
      modifies this
      ensures Valid()
      ensures refused.None? <==>
        && (forall r :: r in removing ==> r.id != ref.id)
        && ref.id !in old(creating) && ref.id !in old(state).liveIds
        && ref.generation == NextGeneration(old(state), ref.id)
      ensures refused.None? ==>
        && state == Created(old(state), ref, fields, Cut(index, instant))
        && state == old(state).(lives := state.lives, liveIds := state.liveIds, generations := state.generations,
                                writers := state.writers)
      ensures refused.Some? ==> state == old(state)
    {
      if exists r :: r in removing && r.id == ref.id {
        return Some(CreateRemove);
      }
      if ref.id in creating || ref.id in state.liveIds {
        return Some(CreateDuplicate);
      }
      if ref.generation != NextGeneration(state, ref.id) {
        return Some(Generation);
      }
      var m := Marks(creating, removing, relationMutated, affected);
      CreateStep(before, state, instant, index, m, ref, fields);
      Install(Created(state, ref, fields, Cut(index, instant)), m.(creating := m.creating + {ref.id}));
      return None;
    }

    predicate Live(ref: EntityRef)
      reads this
    {
      ref in state.lives && state.lives[ref].removed.None?
    }

    method Remove(ref: EntityRef) returns (refused: Option<Code>)
      requires Valid() && ref in removing
      modifies this
      ensures Valid()
      ensures refused.None? <==>
        && ref in old(state).lives && old(state).lives[ref].removed.None? && ref.id !in old(creating)
      ensures refused.None? ==>
        && state == Removed(old(state), ref, Cut(index, instant))
        && state == old(state).(lives := state.lives, liveIds := state.liveIds)
      ensures refused.Some? ==> state == old(state)
    {
      if !Live(ref) {
        return Some(EntityStale);
      }
      if ref.id in creating {
        return Some(CreateRemove);
      }
      var m := Marks(creating, removing, relationMutated, affected);
      RemoveStep(before, state, instant, index, m, ref);
      Install(Removed(state, ref, Cut(index, instant)), m);
      return None;
    }

    /** A fact write or retraction by the pinned writer, with a timer for each boundary still to come. */
    method Propose(key: FieldKey, partition: string, p: Proposal) returns (refused: Option<Code>)
      requires Valid()
      modifies this
      ensures Valid()
      ensures refused.None? <==>
        && key.ref in old(state).lives && old(state).lives[key.ref].removed.None? && key.ref !in removing
        && key in old(state).writers && old(state).writers[key] == partition
        && key !in old(mutated) && (bootstrap || key.ref.id !in old(creating))
      ensures refused.None? ==>
        && key in state.facts && |state.facts[key]| == |VersionsOf(old(state), key)| + 1
        && var v := state.facts[key][|state.facts[key]| - 1];
        && Records(p, instant, partition, old(Out()), v)
        && state == old(state).(facts := old(state).facts[key := VersionsOf(old(state), key) + [v]],
                                timers := state.timers)
        && (forall k :: k in state.timers.active <==>
              k in old(state).timers.active || Arms(OfFact(v.ref), Some(v.valid), instant, k))
        && key in mutated
      ensures refused.Some? ==> state == old(state)
    {
      if !Live(key.ref) {
        return Some(EntityStale);
      }
      if key.ref in removing {
        return Some(WriteFrozen);
      }
      if !(key in state.writers && state.writers[key] == partition) {
        return Some(FieldOwner);
      }
      if key in mutated {
        return Some(FactDuplicate);
      }
      if !bootstrap && key.ref.id in creating {
        return Some(ProvisionalCreate);
      }
      RecordOnce(key, VersionFor(p, instant, partition, Out()));
      return None;
    }

    /** Record a version of a key that this candidate will not write again. */
    method RecordOnce(key: FieldKey, version: Version)
      requires Valid() && key in state.writers && version.ref.recordIndex == index
      modifies this`state, this`creating, this`mutated, this`relationMutated, this`affected, this`items
      ensures Valid() && state == Appended(old(state), key, version, state.timers) && mutated == old(mutated) + {key}
      ensures state.facts == old(state).facts[key := VersionsOf(old(state), key) + [version]]
      ensures forall k :: k in state.timers.active <==>
        k in old(state).timers.active || Arms(OfFact(version.ref), Some(version.valid), instant, k)
    {
      Record(key, version);
      label Recorded:
      mutated := mutated + {key};
      OnlyMarked@Recorded();
    }

    /** Which keys were written already is no part of the invariant. */
    twostate lemma OnlyMarked()
      requires old(Valid()) && unchanged(`state, `creating, `relationMutated, `affected, `items)
      ensures Valid()
    {
    }

    /** Append a version to its key's history and arm its boundaries. */
    method Record(key: FieldKey, version: Version)
      requires Valid() && key in state.writers && version.ref.recordIndex == index
      modifies this`state, this`creating, this`relationMutated, this`affected, this`items
      ensures Valid() && state == Appended(old(state), key, version, state.timers)
      ensures creating == old(creating) && relationMutated == old(relationMutated) && affected == old(affected)
      ensures forall k :: k in state.timers.active <==>
        k in old(state).timers.active || Arms(OfFact(version.ref), Some(version.valid), instant, k)
    {
      var timers := Arm(state.timers, OfFact(version.ref), Some(version.valid), instant);
      var m := Marks(creating, removing, relationMutated, affected);
      FactStep(before, state, instant, index, m, key, version, timers);
      Install(Appended(state, key, version, timers), m);
    }

    /** A timer needs an identity never used before and a strictly later due instant. */
    method ScheduleTimer(partition: string, id: string, due: Instant) returns (refused: Option<Code>)
      requires Valid()
      modifies this
      ensures Valid()
      ensures refused.None? <==>
        id != "" && PartitionTimer(partition, id) !in old(state).timers.records && Less(instant, due)
      ensures refused.None? ==>
        && state == old(state).(timers := state.timers)
        && state.timers.active == old(state).timers.active[PartitionTimer(partition, id) := due]
        && state.timers.records.Keys == old(state).timers.records.Keys + {PartitionTimer(partition, id)}
      ensures refused.Some? ==> state == old(state)
    {
      var key := PartitionTimer(partition, id);
      if id == "" || key in state.timers.records || AtMost(due, instant) {
        return Some(TimerSchedule);
      }
      var timers := Schedule(state.timers, key, due);
      var m := Marks(creating, removing, relationMutated, affected);
      TimersStep(before, state, instant, index, m, timers);
      Install(state.(timers := timers), m);
      return None;
    }

    method CancelTimer(partition: string, id: string) returns (refused: Option<Code>)
      requires Valid()
      modifies this
      ensures Valid()
      ensures refused.None? <==> PartitionTimer(partition, id) in old(state).timers.active
      ensures refused.None? ==>
        && state == old(state).(timers := state.timers)
        && state.timers.active == old(state).timers.active - {PartitionTimer(partition, id)}
        && state.timers.records.Keys == old(state).timers.records.Keys
        && state.timers.records[PartitionTimer(partition, id)].progress.Canceled?
      ensures refused.Some? ==> state == old(state)
    {
      var key := PartitionTimer(partition, id);
      if !(key in state.timers.records && state.timers.records[key].progress.Pending?) {
        return Some(TimerCancel);
      }
      var timers := Cancel(state.timers, key);
      var m := Marks(creating, removing, relationMutated, affected);
      TimersStep(before, state, instant, index, m, timers);
      Install(state.(timers := timers), m);
      return None;
    }

    /** Boundary control: fire exactly the active deadlines due by the instant. */
    method FireTimers() returns (fired: set<TimerKey>)
      requires Valid()
      modifies this
      ensures Valid() && affected == old(affected) && relationMutated == old(relationMutated)
      ensures fired == set key | key in old(state).timers.active && AtMost(old(state).timers.active[key], instant)
      ensures state == old(state).(timers := state.timers) && state.timers.active == old(state).timers.active - fired
    {
      var timers;
      timers, fired := Fire(state.timers, instant);
      var m := Marks(creating, removing, relationMutated, affected);
      TimersStep(before, state, instant, index, m, timers);
      Install(state.(timers := timers), m);
    }

    // ---- relations ----

    predicate EndpointsKnown(endpoints: seq<EntityRef>, read: Cut)
      reads this
    {
      forall i :: 0 <= i < |endpoints| ==>
        if bootstrap then endpoints[i] in state.lives else Known(state, endpoints[i], read).Answered?
    }

    /** Endpoints of a new row: known at the read cut, or created already in the bootstrap wave. */
    method CheckEndpoints(kind: Kind, endpoints: seq<EntityRef>, read: Cut) returns (refused: Option<Code>)
      ensures refused.None? <==> EndpointsKnown(endpoints, read)
      ensures refused.None? ==> forall i :: 0 <= i < |endpoints| ==> endpoints[i] in state.lives
    {
      for i := 0 to |endpoints|
        invariant EndpointsKnown(endpoints[..i], read)
      {
        assert endpoints[..i + 1] == endpoints[..i] + [endpoints[i]];
        if bootstrap {
          if endpoints[i] !in state.lives {
            return Some(UncreatedEndpoint(kind));
          }
        } else {
          var known := Known(state, endpoints[i], read);
          if known.Refused? {
            return Some(known.code);
          }
        }
      }
      assert endpoints[..|endpoints|] == endpoints;
      return None;
    }

    /** A new row: its identity never used, its relation registered, its endpoints known; an obligation also
        declares its direction and is not backdated. */
    predicate Assertable(entry: Entry, read: Cut)
      reads this
      requires entry.Valid().Some?
    {
      && (entry.Kind(), entry.Id()) !in relationMutated && entry.Id() !in TableOf(state, entry.Kind()).versions
      && entry.RelationId() in state.registry && EndpointsKnown(EndpointList(entry), read)
      && (entry.OfObligation? ==> !entry.obligation.direction.Undeclared? && AtMost(instant, entry.Valid().value.start))
    }

    method CheckAssertion(entry: Entry, read: Cut) returns (refused: Option<Code>)
      requires entry.Valid().Some?
      ensures refused.None? <==> Assertable(entry, read)
      ensures refused.None? ==> entry.Endpoints() <= state.lives.Keys
    {
      var kind := entry.Kind();
      if (kind, entry.Id()) in relationMutated {
        return Some(DuplicateMutation(kind));
      }
      if entry.Id() in TableOf(state, kind).versions {
        return Some(IdReuse(kind));
      }
      if entry.OfObligation? && entry.obligation.direction.Undeclared? {
        return Some(ObligationDirection);
      }
      if entry.RelationId() !in state.registry {
        return Some(RelationUnknown);
      }
      refused := CheckEndpoints(kind, EndpointList(entry), read);
      if refused.None? && entry.OfObligation? && Less(entry.Valid().value.start, instant) {
        return Some(ObligationBackdate);
      }
    }

    /** Assert an edge or activate an obligation. */
    method Assert(entry: Entry, read: Cut) returns (refused: Option<Code>)
      requires Valid() && entry.Version() == Out() && entry.Valid().Some?
      modifies this`state, this`creating, this`relationMutated, this`affected, this`items
      ensures Valid()
      ensures refused.None? <==> old(Assertable(entry, read))
      ensures refused.None? ==> state == WithTable(old(state), entry.Kind(), TableOf(state, entry.Kind()), state.timers)
      ensures refused.None? ==>
        TableOf(state, entry.Kind()).versions == TableOf(old(state), entry.Kind()).versions[entry.Id() := [entry]]
      ensures refused.None? ==> affected == old(affected) + {entry.RelationId()}
      ensures refused.Some? ==> state == old(state)
    {
      refused := CheckAssertion(entry, read);
      if refused.None? {
        var m := Marks(creating, removing, relationMutated, affected);
        var next, marks := Started(before, state, instant, index, m, entry);
        Install(next, marks);
      }
    }

    /** Close or cancel an edge, end or cancel an obligation: only from a view that saw its latest version. */
    method End(kind: Kind, id: string, close: bool, partition: string, readIndex: nat) returns (refused: Option<Code>)
      requires Valid()
      modifies this`state, this`creating, this`relationMutated, this`affected, this`items
      ensures Valid()
      ensures refused.None? <==>
        (kind, id) !in old(relationMutated) && Endable(before, kind, id, readIndex, instant, close)
      ensures refused.None? ==>
        && Superseded(before, old(state), state, kind, id, instant, close, partition, old(Out()))
        && Latest(TableOf(before, kind), id).RelationId() in affected
      ensures refused.Some? ==> state == old(state)
    {
      var m := Marks(creating, removing, relationMutated, affected);
      var next, marks;
      refused, next, marks := Ended(before, state, instant, index, m, kind, id, readIndex, close, partition, Out());
      if refused.None? {
        Install(next, marks);
      }
    }

    // ---- integrity and commit ----

    /** Re-checking only the affected and incident relations decides the integrity of every relation. */
    method Validate() returns (refused: Option<Code>)
      requires Valid()
      ensures refused.None? <==> RelationsSound(state, index + 1)
    {
      RecheckedRegistered(state, affected, removing, index + 1);
      refused := CheckRelations(state, Ordered(Rechecked(state, affected, removing)), index + 1);
      if refused.Some? {
        return;
      }
      UncheckedSound(before, state, instant, index, Marks(creating, removing, relationMutated, affected));
      return None;
    }

    /** A commit publishes the next cut exactly when every relation is sound; what it publishes is sound again,
        and everything issued before reads as before. */
    method Commit() returns (result: Answer<Store>)
      requires Valid()
      ensures result.Answered? <==> RelationsSound(state, index + 1)
      ensures result.Answered? ==>
        result.value == Committed(state, instant) && Sound(result.value) && Extends(before, result.value)
        && Recorded(before, result.value)
    {
      var refused := Validate();
      if refused.Some? {
        return Refused(refused.value);
      }
      ghost var m := Marks(creating, removing, relationMutated, affected);
      CommitStep(before, state, instant, index, m);
      assert Published(before, state, instant, m, Committed(state, instant));
      return Answered(Committed(state, instant));
    }
  }

  method CheckLifetimes(lives: map<EntityRef, Life>, t: Table, ids: seq<string>) returns (ok: bool)
    requires forall id :: id in ids ==> Has(t, id)
    ensures ok <==> forall id :: id in ids ==> WithinLifetimes(lives, Latest(t, id))
  {
    for i := 0 to |ids|
      invariant forall id :: id in ids[..i] ==> WithinLifetimes(lives, Latest(t, id))
    {
      assert ids[i] in ids;
      if !WithinLifetimes(lives, Latest(t, ids[i])) {
        return false;
      }
      assert ids[..i + 1] == ids[..i] + [ids[i]];
    }
    assert ids[..|ids|] == ids;
    return true;
  }

  /** One relation's latest rows against their endpoints' lifetimes, then the sweep of the merged graph. */
  method CheckRelation(s: Store, relation: string, bound: nat) returns (refused: Option<Code>)
    requires TablesSound(s, bound) && relation in s.registry
    ensures refused.None? <==> RelationSound(s, relation, bound)
    ensures refused == Some(RelationLifetime) <==> !LifetimesHold(s, relation)
  {
    KindsHold(s.edges, EdgeKind, bound);
    KindsHold(s.obligations, ObligationKind, bound);
    IndexedIds(s.edges, relation);
    IndexedIds(s.obligations, relation);
    var edges, obligations :=
      Ordered(IdsFor(s.edges.byRelation, relation)), Ordered(IdsFor(s.obligations.byRelation, relation));
    var edgesLive := CheckLifetimes(s.lives, s.edges, edges);
    var obligationsLive := CheckLifetimes(s.lives, s.obligations, obligations);
    if !(edgesLive && obligationsLive) {
      return Some(RelationLifetime);
    }
    var verdict := RelationSweep.ValidateGraph(
      Graph(s.registry[relation], LatestEdges(s.edges, edges), LatestObligations(s.obligations, obligations)));
    return if verdict.Accepted? then None else Some(RelationIntegrity);
  }

  /** In identity order, until the first refusal. */
  method CheckRelations(s: Store, order: seq<string>, bound: nat) returns (refused: Option<Code>)
    requires TablesSound(s, bound) && forall relation :: relation in order ==> relation in s.registry
    ensures refused.None? <==> forall relation :: relation in order ==> RelationSound(s, relation, bound)
  {
    for i := 0 to |order|
      invariant forall relation :: relation in order[..i] ==> RelationSound(s, relation, bound)
    {
      assert order[i] in order;
      refused := CheckRelation(s, order[i], bound);
      if refused.Some? {
        return;
      }
      assert order[..i + 1] == order[..i] + [order[i]];
    }
    assert order[..|order|] == order;
    return None;
  }

  lemma UncheckedSound(before: Store, s: Store, instant: Instant, index: nat, m: Marks)
    requires InProgress(before, s, instant, index, m)
    requires forall relation :: relation in Rechecked(s, m.affected, m.removing) ==>
      RelationSound(s, relation, index + 1)
    ensures RelationsSound(s, index + 1)
  {
    forall relation: string {:trigger RelationSound(s, relation, index + 1)}
      ensures RelationSound(s, relation, index + 1)
    {
      if relation !in Rechecked(s, m.affected, m.removing) {
        assert RelationSound(before, relation, index);
        UncheckedStaysSound(before, s, index, m.creating, m.removing, m.mutated, m.affected, relation);
      }
    }
  }

  lemma RecheckedRegistered(s: Store, affected: set<string>, removing: set<EntityRef>, bound: nat)
    requires TablesSound(s, bound) && affected <= s.registry.Keys
    ensures Rechecked(s, affected, removing) <= s.registry.Keys
  {
  }

  lemma IndexedIds(t: Table, relation: string)
    requires Indexed(t)
    ensures forall id :: id in IdsFor(t.byRelation, relation) <==> InRelation(t, relation, id)
  {
    forall id ensures id in IdsFor(t.byRelation, relation) <==> InRelation(t, relation, id) {
      assert InRelation(t, relation, id) <==> id in IdsFor(t.byRelation, relation);
    }
  }

  /** A prefix lookup that finds the latest version's coordinate found the latest version. */
  lemma VisibleIsLatest(t: Table, kind: Kind, id: string, readIndex: nat, bound: nat)
    requires Versioned(t, kind, bound)
    ensures EntryAt(t, id, readIndex).Some? ==> Has(t, id)
    ensures Has(t, id) ==>
      bound > 0 && EntryAt(t, id, bound - 1) == Some(Latest(t, id)) && Latest(t, id).Version().recordIndex < bound
    ensures (EntryAt(t, id, readIndex).Some?
      && EntryAt(t, id, readIndex).value.Version() == Latest(t, id).Version()) ==>
      EntryAt(t, id, readIndex).value == Latest(t, id)
  {
    if id in t.versions {
      assert Line(t.versions[id], kind, id, bound);
      LatestAtLast(t.versions[id], kind, id, bound);
      FoundIn(t.versions[id], readIndex);
    }
  }

  lemma {:induction false} FoundIn(versions: seq<Entry>, readIndex: nat)
    ensures LatestAt(versions, readIndex).Some? ==> LatestAt(versions, readIndex).value in versions
  {
    if versions != [] {
      FoundIn(versions[..|versions| - 1], readIndex);
    }
  }

  /** What a close (or, for a row not yet started, a cancellation) makes of the validity of the latest version. */
  function Ending(kind: Kind, valid: Option<Interval>, instant: Instant, close: bool): Answer<Option<Interval>> {
    if valid.None? || (valid.value.end.Some? && AtMost(valid.value.end.value, instant)) then Refused(AlreadyEnded(kind))
    else if close then
      if Less(valid.value.start, instant) then Answered(Some(IntervalRow.Interval(valid.value.start, Some(instant))))
      else Refused(NotStarted(kind))
    else if Less(valid.value.start, instant) then Refused(AlreadyStarted(kind))
    else Answered(None)
  }

  /** The reader's prefix holds the latest committed version, and that version can still be ended this way. */
  predicate Endable(before: Store, kind: Kind, id: string, readIndex: nat, instant: Instant, close: bool) {
    && Has(TableOf(before, kind), id)
    && EntryAt(TableOf(before, kind), id, readIndex) == Some(Latest(TableOf(before, kind), id))
    && Ending(kind, Latest(TableOf(before, kind), id).Valid(), instant, close).Answered?
  }

  function Successor(before: Store, kind: Kind, id: string, instant: Instant, close: bool, partition: string,
                     out: ItemRef): (next: Entry)
    requires Has(TableOf(before, kind), id)
      && Ending(kind, Latest(TableOf(before, kind), id).Valid(), instant, close).Answered?
    ensures SameIdentity(Latest(TableOf(before, kind), id), next) && next.Version() == out
  {
    Latest(TableOf(before, kind), id).Revised(
      Ending(kind, Latest(TableOf(before, kind), id).Valid(), instant, close).value, partition, out)
  }

  /** The row's line got the ending version; nothing but its table and the timers changed. */
  ghost predicate Superseded(before: Store, s: Store, next: Store, kind: Kind, id: string, instant: Instant,
                             close: bool,
                             partition: string, out: ItemRef)
  {
    && Has(TableOf(before, kind), id)
    && Ending(kind, Latest(TableOf(before, kind), id).Valid(), instant, close).Answered?
    && next == WithTable(s, kind, TableOf(next, kind), next.timers)
    && TableOf(next, kind).versions == TableOf(s, kind).versions[id :=
         LineOf(TableOf(before, kind), id) + [Successor(before, kind, id, instant, close, partition, out)]]
  }

  method PlanEnding(before: Store, kind: Kind, id: string, readIndex: nat, instant: Instant, close: bool)
    returns (refused: Option<Code>)
    requires Journaled(before.cuts) && Versioned(TableOf(before, kind), kind, |before.cuts|)
    ensures refused.None? <==> Endable(before, kind, id, readIndex, instant, close)
  {
    var t := TableOf(before, kind);
    VisibleIsLatest(t, kind, id, readIndex, |before.cuts|);
    var visible, latest := EntryAt(t, id, readIndex), EntryAt(t, id, LastCut(before).index);
    if visible.None? || latest.None? {
      return Some(Unidentified(kind));
    }
    if latest.value.Version() != visible.value.Version() {
      return Some(StaleView(kind));
    }
    var ending := Ending(kind, latest.value.Valid(), instant, close);
    return if ending.Refused? then Some(ending.code) else None;
  }

  /** A row not yet touched by the candidate is the one committed before. */
  lemma SoundTables(before: Store, s: Store, instant: Instant, index: nat, m: Marks, kind: Kind, id: string)
    requires InProgress(before, s, instant, index, m) && (kind, id) !in m.mutated
    ensures Journaled(before.cuts) && Versioned(TableOf(before, kind), kind, |before.cuts|)
    ensures LineOf(TableOf(s, kind), id) == LineOf(TableOf(before, kind), id)
    ensures Has(TableOf(before, kind), id) ==>
      && Latest(TableOf(before, kind), id).Version().recordIndex < index
      && Latest(TableOf(before, kind), id).Kind() == kind && Latest(TableOf(before, kind), id).Id() == id
      && Latest(TableOf(before, kind), id).RelationId() in before.registry
  {
    if Has(TableOf(before, kind), id) {
      assert Line(TableOf(before, kind).versions[id], kind, id, index);
    }
  }

  lemma MutatedWithin(m: Marks, kind: Kind, id: string, relation: string, registered: set<string>)
    requires m.affected <= registered && relation in registered
    ensures Mutated(m, kind, id, relation).affected <= registered
  {
  }

  lemma TablesInProgress(before: Store, s: Store, instant: Instant, index: nat, m: Marks, kind: Kind)
    requires InProgress(before, s, instant, index, m)
    ensures TableSound(s, TableOf(s, kind), kind, index + 1) && Agree(s.timers)
  {
  }

  /** The state with the first version of a new row. */
  method Started(before: Store, s: Store, instant: Instant, index: nat, m: Marks, entry: Entry)
    returns (next: Store, marks: Marks)
    requires InProgress(before, s, instant, index, m) && m.affected <= before.registry.Keys
    requires entry.Id() !in TableOf(s, entry.Kind()).versions && entry.Version().recordIndex == index
    requires (entry.Kind(), entry.Id()) !in m.mutated
    requires entry.RelationId() in s.registry && entry.Endpoints() <= s.lives.Keys
    ensures InProgress(before, next, instant, index, marks)
    ensures marks == Mutated(m, entry.Kind(), entry.Id(), entry.RelationId())
    ensures marks.affected <= before.registry.Keys
    ensures next == WithTable(s, entry.Kind(), TableOf(next, entry.Kind()), next.timers)
    ensures TableOf(next, entry.Kind()).versions == TableOf(s, entry.Kind()).versions[entry.Id() := [entry]]
  {
    TablesInProgress(before, s, instant, index, m, entry.Kind());
    var r, timers := FirstVersion(s, entry, instant, index);
    RelationStep(before, s, instant, index, m, r, entry, timers);
    MutatedWithin(m, entry.Kind(), entry.Id(), entry.RelationId(), before.registry.Keys);
    next, marks := WithTable(s, entry.Kind(), r, timers), Mutated(m, entry.Kind(), entry.Id(), entry.RelationId());
  }

  /** The state with the next version of a known row. */
  method Continued(before: Store, s: Store, instant: Instant, index: nat, m: Marks, prior: Entry, entry: Entry)
    returns (next: Store)
    requires InProgress(before, s, instant, index, m)
    requires Has(TableOf(s, entry.Kind()), entry.Id()) && Latest(TableOf(s, entry.Kind()), entry.Id()) == prior
    requires SameIdentity(prior, entry) && prior.Version().recordIndex < index == entry.Version().recordIndex
    requires (entry.Kind(), entry.Id()) !in m.mutated
    ensures InProgress(before, next, instant, index,
      Mutated(m, entry.Kind(), entry.Id(), entry.RelationId()))
    ensures next == WithTable(s, entry.Kind(), Revise(TableOf(s, entry.Kind()), entry), next.timers)
  {
    TablesInProgress(before, s, instant, index, m, entry.Kind());
    var r, timers := NextVersion(s, prior, entry, instant, index);
    RelationStep(before, s, instant, index, m, r, entry, timers);
    next := WithTable(s, entry.Kind(), r, timers);
  }

  /** The state with a row ended, when the caller's view and the row allow it. */
  method Ended(before: Store, s: Store, instant: Instant, index: nat, m: Marks, kind: Kind, id: string, readIndex: nat,
               close: bool,
               partition: string, out: ItemRef)
    returns (refused: Option<Code>, next: Store, marks: Marks)
    requires InProgress(before, s, instant, index, m) && out.recordIndex == index && m.affected <= before.registry.Keys
    ensures refused.None? <==> (kind, id) !in m.mutated && Endable(before, kind, id, readIndex, instant, close)
    ensures refused.None? ==> InProgress(before, next, instant, index, marks)
    ensures refused.None? ==>
      && Has(TableOf(before, kind), id) && Latest(TableOf(before, kind), id).RelationId() in before.registry
      && marks == Mutated(m, kind, id, Latest(TableOf(before, kind), id).RelationId())
      && marks.affected <= before.registry.Keys
      && Superseded(before, s, next, kind, id, instant, close, partition, out)
  {
    next, marks := s, m;
    if (kind, id) in m.mutated {
      return Some(DuplicateMutation(kind)), next, marks;
    }
    SoundTables(before, s, instant, index, m, kind, id);
    refused := PlanEnding(before, kind, id, readIndex, instant, close);
    if refused.None? {
      var prior := Latest(TableOf(before, kind), id);
      MutatedWithin(m, kind, id, prior.RelationId(), before.registry.Keys);
      marks := Mutated(m, kind, id, prior.RelationId());
      next := Continued(before, s, instant, index, m, prior,
        Successor(before, kind, id, instant, close, partition, out));
    }
  }

  method FirstVersion(s: Store, entry: Entry, instant: Instant, index: nat) returns (r: Table, timers: Timers)
    requires TableSound(s, TableOf(s, entry.Kind()), entry.Kind(), index + 1) && Agree(s.timers)
    requires entry.Id() !in TableOf(s, entry.Kind()).versions && entry.Version().recordIndex == index
    requires entry.RelationId() in s.registry && entry.Endpoints() <= s.lives.Keys
    ensures TableSound(s, r, entry.Kind(), index + 1) && Agree(timers)
    ensures r.versions == TableOf(s, entry.Kind()).versions[entry.Id() := [entry]]
    ensures Extended(TableOf(s, entry.Kind()), r, entry, s.timers, timers, instant)
  {
    var t := TableOf(s, entry.Kind());
    r := Add(t, entry, index + 1);
    timers := Arm(s.timers, entry.Watched(), entry.Valid(), instant);
    OthersKept(t, r, entry);
    assert LineOf(t, entry.Id()) + [entry] == [entry];
  }

  method NextVersion(s: Store, prior: Entry, entry: Entry, instant: Instant, index: nat)
    returns (r: Table, timers: Timers)
    requires TableSound(s, TableOf(s, entry.Kind()), entry.Kind(), index + 1) && Agree(s.timers)
    requires Has(TableOf(s, entry.Kind()), entry.Id()) && Latest(TableOf(s, entry.Kind()), entry.Id()) == prior
    requires SameIdentity(prior, entry) && prior.Version().recordIndex < index == entry.Version().recordIndex
    ensures TableSound(s, r, entry.Kind(), index + 1) && Agree(timers)
    ensures r == Revise(TableOf(s, entry.Kind()), entry)
    ensures Extended(TableOf(s, entry.Kind()), r, entry, s.timers, timers, instant)
  {
    var t := TableOf(s, entry.Kind());
    assert prior.Watched() == OfRelation(entry.Kind(), entry.Id(), prior.Version());
    timers := Disarm(s.timers, prior.Watched(), prior.Valid(), instant);
    timers := Arm(timers, entry.Watched(), entry.Valid(), instant);
    r := Revise(t, entry);
    RevisedVersioned(t, entry, index);
    RevisedStaysIndexed(t, entry);
    RevisedScope(s, t, entry);
  }

  lemma RevisedVersioned(t: Table, entry: Entry, index: nat)
    requires Versioned(t, entry.Kind(), index + 1) && entry.Version().recordIndex == index
    requires Has(t, entry.Id()) && SameIdentity(Latest(t, entry.Id()), entry)
    requires Latest(t, entry.Id()).Version().recordIndex < index
    ensures Versioned(Revise(t, entry), entry.Kind(), index + 1)
  {
    LineAppend(t.versions[entry.Id()], entry.Kind(), entry.Id(), index + 1, entry);
  }

  lemma RevisedScope(s: Store, t: Table, entry: Entry)
    requires forall id :: Has(t, id) ==>
      Latest(t, id).RelationId() in s.registry && Latest(t, id).Endpoints() <= s.lives.Keys
    requires Has(t, entry.Id()) && SameIdentity(Latest(t, entry.Id()), entry)
    ensures forall id :: Has(Revise(t, entry), id) ==>
      Latest(Revise(t, entry), id).RelationId() in s.registry
        && Latest(Revise(t, entry), id).Endpoints() <= s.lives.Keys
  {
    OthersKept(t, Revise(t, entry), entry);
  }

  // ---- whole runs ----

  /** The store before the first record. */
  function Empty(registry: map<string, Descriptor>): Store {
    Store(registry, [Cut(0, Instant(0, 0))], map[], map[], map[], map[], map[],
          Table(map[], map[], map[]), Table(map[], map[], map[]), Timers(map[], map[]))
  }

  lemma EmptySound(registry: map<string, Descriptor>)
    ensures Sound(Empty(registry)) && forall id :: NextGeneration(Empty(registry), id) == 0
  {
    var s := Empty(registry);
    forall relation: string {:trigger RelationSound(s, relation, 1)} ensures RelationSound(s, relation, 1) {
      if relation in registry {
        NoRowsValid(MergedOf(s, relation, 1));
      }
    }
  }

  lemma NoRowsValid(g: Graph)
    requires g.edges == [] && g.obligations == []
    ensures GraphValid(g)
  {
    assert Rows(g) == {};
    forall at ensures AdmissibleAt(g, at) {
      forall scope: Scope ensures WithinMaximum(g, Live(g, at), scope) && MeetsMinimum(g, Live(g, at), scope) {
        assert Incident(g, Live(g, at), scope) == {};
      }
    }
  }

  // ---- runs ----

  /** What a candidate publishes: its state, once every relation is sound, under the next cut. */
  ghost predicate Published(before: Store, s: Store, instant: Instant, m: Marks, next: Store) {
    && InProgress(before, s, instant, |before.cuts|, m) && RelationsSound(s, |before.cuts| + 1)
    && next == Committed(s, instant)
  }

  /** One record: some candidate published it. */
  ghost predicate Recorded(before: Store, next: Store) {
    exists s, instant, m :: Published(before, s, instant, m, next)
  }

  /** Records that change nothing here, controls and invocations, add their cut as an empty candidate would. */
  lemma CutRecorded(before: Store, instant: Instant)
    requires Sound(before) && AtMost(LastCut(before).instant, instant)
    ensures Recorded(before, Committed(before, instant))
  {
    var m := Marks({}, {}, {}, {});
    Opened(before, instant, {});
    assert Rechecked(before, {}, {}) == {};
    UncheckedSound(before, before, instant, |before.cuts|, m);
    assert Published(before, before, instant, m, Committed(before, instant));
  }

  lemma RecordedSound(before: Store, next: Store)
    requires Recorded(before, next)
    ensures Sound(next) && Extends(before, next)
  {
    var s, instant, m :| Published(before, s, instant, m, next);
    PublishedSound(before, s, instant, m, next);
  }

  lemma PublishedSound(before: Store, s: Store, instant: Instant, m: Marks, next: Store)
    requires Published(before, s, instant, m, next)
    ensures Sound(next) && Extends(before, next)
  {
    CommitStep(before, s, instant, |before.cuts|, m);
  }

  /** A run from the empty store: every next store is one record, committed from the one before. */
  ghost predicate Committing(run: seq<Store>) {
    && (|run| > 0 ==> exists registry :: run[0] == Empty(registry))
    && forall i :: 0 < i < |run| ==> Recorded(run[i - 1], run[i])
  }

  /** Along a run every store is sound, and extends every earlier one. */
  lemma {:induction false} RunExtends(run: seq<Store>, i: nat, j: nat)
    requires Committing(run) && i <= j < |run|
    ensures Sound(run[j]) && Extends(run[i], run[j])
    decreases j
  {
    if j == 0 {
      var registry :| run[0] == Empty(registry);
      EmptySound(registry);
    } else {
      RecordedSound(run[j - 1], run[j]);
    }
    if i == j {
      assert forall key :: FactsGrow(VersionsOf(run[i], key), VersionsOf(run[i], key), |run[i].cuts|);
    } else {
      RunExtends(run, i, j - 1);
      ExtendsTransitive(run[i], run[j - 1], run[j]);
    }
  }

  /** Over a whole run of commits, every read at a cut issued by any state answers the same in every later state. */
  lemma KnowledgeNeverChanges(run: seq<Store>, i: nat, j: nat, cut: Cut, key: FieldKey, id: string, at: Instant,
                              end: Instant, ns: nat)
    requires Committing(run) && i <= j < |run| && Issued(run[i], cut)
    ensures Alive(run[j], key.ref, cut, at) == Alive(run[i], key.ref, cut, at)
    ensures Field(run[j], key, at, cut) == Field(run[i], key, at, cut)
    ensures FieldBefore(run[j], key, at, cut) == FieldBefore(run[i], key, at, cut)
    ensures History(run[j], key, at, end, cut) == History(run[i], key, at, end, cut)
    ensures EntryAt(run[j].edges, id, cut.index) == EntryAt(run[i].edges, id, cut.index)
    ensures EntryAt(run[j].obligations, id, cut.index) == EntryAt(run[i].obligations, id, cut.index)
    ensures forall found :: IsCutAt(run[j].cuts, ns, cut, found) <==> IsCutAt(run[i].cuts, ns, cut, found)
  {
    RunExtends(run, i, j);
    KnowledgeStable(run[i], run[j], cut, key, at);
    HistoryStable(run[i], run[j], cut, key, at, end);
    RelationsStable(run[i], run[j], cut, id);
    forall found ensures IsCutAt(run[j].cuts, ns, cut, found) <==> IsCutAt(run[i].cuts, ns, cut, found) {
      CutStable(run[i], run[j], ns, cut, found);
    }
  }
}
