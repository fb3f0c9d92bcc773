/** Pending timers and recipient work: heaps shared by forks and copied on first write. A heap is kept by
    its contract (push, a least entry, pop), so its internal layout does not appear. */
module Queues {
  import opened Arrivals
  import opened Storage
  import opened Text
  import opened Time

  type TimerKey = seq<string>

  type Deadline = (Instant, TimerKey)

  class TimerHeap {
    var entries: set<Deadline>

    constructor (entries: set<Deadline>)
      ensures this.entries == entries
    {
      this.entries := entries;
    }
  }

  /** Deadlines compare by time, then by identity, as the heap's entries do. */
  predicate FallsBefore(a: Deadline, b: Deadline) {
    Less(a.0, b.0) || (a.0 == b.0 && KeyPrecedes(a.1, b.1))
  }

  lemma DeadlinesOrdered(a: Deadline, b: Deadline, c: Deadline)
    ensures a == b || FallsBefore(a, b) || FallsBefore(b, a)
    ensures !FallsBefore(a, a) && (FallsBefore(a, b) && FallsBefore(b, c) ==> FallsBefore(a, c))
  {
    KeyTrichotomy(a.1, b.1);
    KeyTrichotomy(a.1, a.1);
    if KeyPrecedes(a.1, b.1) && KeyPrecedes(b.1, c.1) {
      KeyTransitive(a.1, b.1, c.1);
    }
  }

  predicate IsLeast(entries: set<Deadline>, e: Deadline) {
    e in entries && forall o :: o in entries ==> o == e || FallsBefore(e, o)
  }

  lemma LeastDeadline(entries: set<Deadline>)
    requires entries != {}
    ensures exists e :: IsLeast(entries, e)
  {
    var e :| e in entries;
    var rest := entries - {e};
    if rest == {} {
      assert entries == {e};
      assert IsLeast(entries, e);
    } else {
      LeastDeadline(rest);
      var f :| IsLeast(rest, f);
      forall o | o in rest && o != f && FallsBefore(e, f) ensures FallsBefore(e, o) {
        DeadlinesOrdered(e, f, o);
      }
      DeadlinesOrdered(e, f, e);
      assert IsLeast(entries, if FallsBefore(e, f) then e else f);
    }
  }

  /** Active deadlines in an overlay, with a heap that may hold canceled entries until they surface. */
  class TimerQueue {
    var heap: TimerHeap
    var active: Overlay<TimerKey, Instant>
    var owned: bool
    /** What the overlay of active deadlines reads as. */
    ghost var live: map<TimerKey, Instant>
    /** Every identity ever indexed along this fork chain. */
    ghost var used: set<TimerKey>

    /** The heap lists every active deadline, and whatever else it lists is stale. */
    static ghost predicate Indexes(entries: set<Deadline>, live: map<TimerKey, Instant>, used: set<TimerKey>) {
      && (forall key :: key in live ==> (live[key], key) in entries)
      && (forall e :: e in entries ==> e.1 in used && (e.1 in live ==> live[e.1] == e.0))
    }

    ghost predicate Valid()
      reads this, heap, active, active.Repr
    {
      active.Valid() && active.View() == live && Indexes(heap.entries, live, used)
    }

    constructor ()
      ensures Valid() && live == map[] && owned && used == {} && fresh(heap) && fresh(active)
    {
      heap := new TimerHeap({});
      active := new Overlay.Flat(map[]);
      owned, live, used := true, map[], {};
    }

    constructor Over(heap: TimerHeap, active: Overlay<TimerKey, Instant>, ghost live: map<TimerKey, Instant>,
                     ghost used: set<TimerKey>)
      requires active.Valid() && active.View() == live && Indexes(heap.entries, live, used)
      ensures this.heap == heap && this.active == active && !owned && this.live == live && this.used == used
      ensures Valid()
    {
      this.heap, this.active, owned, this.live, this.used := heap, active, false, live, used;
    }

    /** Nothing this queue writes is read by `other`: neither a layer of its overlay nor a heap written in place. */
    ghost predicate ApartFrom(other: TimerQueue)
      reads this, other, other.active
    {
      && this != other && active != other.active && active !in other.active.Repr
      && (owned ==> heap != other.heap)
    }

    /** Open a candidate over the shared deadlines. From here neither side writes the heap in place, and the fork is
        apart from every older queue. */
    method Fork() returns (other: TimerQueue)
      requires Valid()
      modifies this`owned
      ensures fresh(other) && fresh(other.active) && other.Valid() && !other.owned && Valid() && !owned
      ensures other.live == live && other.used == used && other.heap == heap
      ensures if active.Layers() then other.active.OnlyReads(active) else active !in other.active.Repr
      ensures forall q: TimerQueue :: old(allocated(q) && q.Valid()) ==> other.ApartFrom(q)
    {
      var forked := active.Fork();
      other := new TimerQueue.Over(heap, forked, live, used);
      owned := false;
    }

    /** The heap this queue may write in place. */
    ghost function OwnHeap(): set<TimerHeap>
      reads this`heap, this`owned
    {
      if owned then {heap} else {}
    }

    method Detach()
      requires Valid()
      modifies this`heap, this`owned
      ensures Valid() && owned && heap.entries == old(heap.entries)
      ensures if old(owned) then owned && heap == old(heap) else owned ==> fresh(heap)
    {
      if !owned {
        heap := new TimerHeap(heap.entries);
        owned := true;
      }
    }

    /** Index a never-reused identity. */
    method Add(key: TimerKey, due: Instant)
      requires Valid() && key !in used
      modifies this`heap, this`owned, this`live, this`used, active`writes, active`deleted, OwnHeap()
      ensures Valid() && live == old(live)[key := due] && used == old(used) + {key}
      ensures if old(owned) then owned && heap == old(heap) else owned ==> fresh(heap)
    {
      Detach();
      active.Set(key, due);
      live, used := live[key := due], used + {key};
      heap.entries := heap.entries + {(due, key)};
    }

    /** A queue whose objects are left alone keeps its deadlines. */
    twostate lemma LeftAlone()
      requires old(Valid()) && unchanged(this) && unchanged(heap)
      requires forall o :: o in old(active.Repr) ==> unchanged(o)
      ensures Valid()
    {
    }

    /** A queue that reads nothing of this one does not notice what is indexed here, now or later. */
    method AddApart(other: TimerQueue, key: TimerKey, due: Instant)
      requires Valid() && other.Valid() && ApartFrom(other) && key !in used
      modifies this`heap, this`owned, this`live, this`used, active`writes, active`deleted, OwnHeap()
      ensures Valid() && live == old(live)[key := due]
      ensures other.Valid() && other.live == old(other.live) && ApartFrom(other)
    {
      Add(key, due);
      other.LeftAlone();
    }

    /** What a parent's write does to a fork just taken: the shared heap is copied first, so the fork is intact unless
        it reads through the parent's overlay. */
    static method WriteBesideFork(parent: TimerQueue, key: TimerKey, due: Instant) returns (fork: TimerQueue)
      requires parent.Valid() && key !in parent.used
      modifies parent`heap, parent`owned, parent`live, parent`used, parent.active`writes, parent.active`deleted
      ensures fresh(fork) && fork.live == old(parent.live)
      ensures parent.Valid() && parent.live == old(parent.live)[key := due]
      ensures fork.active.Valid()
      ensures fork.active.View() == if old(parent.active.Layers()) then parent.live else fork.live
      ensures fork.Valid() <==> !old(parent.active.Layers())
    {
      fork := parent.Fork();
      AddBelow(parent, fork, key, due);
    }

    static method AddBelow(parent: TimerQueue, fork: TimerQueue, key: TimerKey, due: Instant)
      requires parent.Valid() && fork.Valid() && parent != fork && !parent.owned && key !in parent.used
      requires fork.active != parent.active && fork.live == parent.live
      requires parent.active in fork.active.Repr ==> fork.active.OnlyReads(parent.active)
      modifies parent`heap, parent`owned, parent`live, parent`used, parent.active`writes, parent.active`deleted
      ensures parent.Valid() && parent.live == old(parent.live)[key := due] && fork.active.Valid()
      ensures fork.active.View() == if parent.active in fork.active.Repr then parent.live else fork.live
      ensures fork.Valid() <==> parent.active !in fork.active.Repr
    {
      assert forall e :: e in parent.heap.entries ==> e.1 != key;
      assert key !in parent.live;
      parent.Add(key, due);
      fork.active.BesideWrite(parent.active);
    }

    /** Forget an active deadline; its heap entry goes stale. An absent identity is refused. */
    method Cancel(key: TimerKey) returns (found: bool)
      requires Valid()
      modifies this`live, active`writes, active`deleted
      ensures Valid() && found == (key in old(live)) && live == old(live) - {key}
    {
      found := active.Delete(key);
      live := live - {key};
    }

    /** Discard a stale entry, or one whose deadline goes with it. */
    method Discard(entry: Deadline)
      requires Valid() && entry in heap.entries && entry.1 !in live
      modifies this`heap, this`owned, OwnHeap()
      ensures Valid() && heap.entries == old(heap.entries) - {entry}
      ensures if old(owned) then owned && heap == old(heap) else owned ==> fresh(heap)
    {
      Detach();
      heap.entries := heap.entries - {entry};
    }

    /** The least active deadline, discarding stale entries on the way. */
    method Earliest() returns (top: Option<Deadline>)
      requires Valid()
      modifies this`heap, this`owned, OwnHeap()
      ensures Valid() && (top.None? <==> live == map[])
      ensures if old(owned) then owned && heap == old(heap) else owned ==> fresh(heap)
      ensures top.Some? ==> top.value in heap.entries && IsNext(live, top.value.1) && live[top.value.1] == top.value.0
    {
      top := None;
      var stale := true;
      while stale
        invariant Valid()
        invariant if old(owned) then owned && heap == old(heap) else owned ==> fresh(heap)
        invariant !stale && top.None? ==> live == map[]
        invariant !stale && top.Some? ==>
          top.value in heap.entries && IsNext(live, top.value.1) && live[top.value.1] == top.value.0
        decreases |heap.entries|, stale
      {
        stale, top := Surface();
      }
    }

    /** The head of the heap, discarded if it is stale. */
    method Surface() returns (stale: bool, top: Option<Deadline>)
      requires Valid()
      modifies this`heap, this`owned, OwnHeap()
      ensures Valid() && |heap.entries| <= old(|heap.entries|)
      ensures if old(owned) then owned && heap == old(heap) else owned ==> fresh(heap)
      ensures stale ==> |heap.entries| < old(|heap.entries|)
      ensures !stale && top.None? ==> live == map[]
      ensures !stale && top.Some? ==>
        top.value in heap.entries && IsNext(live, top.value.1) && live[top.value.1] == top.value.0
    {
      if heap.entries == {} {
        assert live.Keys == {};
        return false, None;
      }
      LeastDeadline(heap.entries);
      var least :| IsLeast(heap.entries, least);
      var due := active.Lookup(least.1);
      if due.Some? {
        return false, Some(least);
      }
      Discard(least);
      return true, None;
    }

    /** Remove an active entry from the heap and the index together. */
    method Pop(top: Deadline)
      requires Valid() && top in heap.entries && top.1 in live
      modifies this`heap, this`owned, this`live, active`writes, active`deleted, OwnHeap()
      ensures Valid() && live == old(live) - {top.1}
      ensures if old(owned) then owned && heap == old(heap) else owned ==> fresh(heap)
    {
      Detach();
      heap.entries := heap.entries - {top};
      var found := active.Delete(top.1);
      live := live - {top.1};
    }

    /** Remove everything due at `at`, by deadline and then by identity: exactly the due identities, each once. */
    method Take(at: Instant) returns (keys: seq<TimerKey>)
      requires Valid()
      modifies this`heap, this`owned, this`live, active`writes, active`deleted, OwnHeap()
      ensures Valid()
      ensures if old(owned) then owned && heap == old(heap) else owned ==> fresh(heap)
      ensures forall key :: key in keys <==> key in old(live) && AtMost(old(live)[key], at)
      ensures forall i, j :: 0 <= i < j < |keys| ==>
        && keys[i] != keys[j]
        && (Less(old(live)[keys[i]], old(live)[keys[j]])
            || (old(live)[keys[i]] == old(live)[keys[j]] && KeyPrecedes(keys[i], keys[j])))
      ensures live == map key | key in old(live) && !AtMost(old(live)[key], at) :: old(live)[key]
    {
      keys := PopAll(at);
      DrainedAll(old(live), live, keys, at);
    }

    /** Pop due deadlines until there is none. */
    method PopAll(at: Instant) returns (keys: seq<TimerKey>)
      requires Valid()
      modifies this`heap, this`owned, this`live, active`writes, active`deleted, OwnHeap()
      ensures Valid()
      ensures if old(owned) then owned && heap == old(heap) else owned ==> fresh(heap)
      ensures Taking(old(live), live, keys, at) && NoneDue(live, at)
    {
      keys := [];
      while true
        invariant Valid() && Taking(old(live), live, keys, at)
        invariant if old(owned) then owned && heap == old(heap) else owned ==> fresh(heap)
        decreases |live|
      {
        ghost var left := live;
        var key := PopDue(at);
        if key.None? {
          break;
        }
        TakingStep(old(live), left, keys, at, key.value);
        keys := keys + [key.value];
      }
    }

    /** Pop the least active deadline if it is due. */
    method PopDue(at: Instant) returns (key: Option<TimerKey>)
      requires Valid()
      modifies this`heap, this`owned, this`live, active`writes, active`deleted, OwnHeap()
      ensures Valid()
      ensures if old(owned) then owned && heap == old(heap) else owned ==> fresh(heap)
      ensures key.None? ==> live == old(live) && NoneDue(live, at)
      ensures key.Some? ==>
        IsNext(old(live), key.value) && AtMost(old(live)[key.value], at) && live == old(live) - {key.value}
    {
      var top := Earliest();
      if top.None? || !AtMost(top.value.0, at) {
        return None;
      }
      Pop(top.value);
      return Some(top.value.1);
    }

    static ghost predicate NoneDue(left: map<TimerKey, Instant>, at: Instant) {
      forall key :: key in left ==> !AtMost(left[key], at)
    }

    /** A removal in progress: with the last key put back, that key comes next and is due. */
    static ghost predicate Taking(before: map<TimerKey, Instant>, left: map<TimerKey, Instant>, keys: seq<TimerKey>,
                                  at: Instant)
      decreases |keys|
    {
      if keys == [] then
        left == before
      else
        var n := |keys| - 1;
        && keys[n] in before && keys[n] !in left && AtMost(before[keys[n]], at)
        && var previous := left[keys[n] := before[keys[n]]];
        && IsNext(previous, keys[n]) && Taking(before, previous, keys[..n], at)
    }

    static lemma TakingStep(before: map<TimerKey, Instant>, left: map<TimerKey, Instant>, keys: seq<TimerKey>,
                            at: Instant, key: TimerKey)
      requires Taking(before, left, keys, at) && IsNext(left, key) && AtMost(left[key], at)
      ensures Taking(before, left - {key}, keys + [key], at)
      ensures |left - {key}| < |left|
    {
      TakingDrains(before, left, keys, at);
      var rest := left - {key};
      assert rest[key := before[key]] == left;
      assert rest.Keys == left.Keys - {key};
      assert (keys + [key])[..|keys|] == keys;
    }

    static lemma {:induction false} TakingDrains(before: map<TimerKey, Instant>, left: map<TimerKey, Instant>,
                                                 keys: seq<TimerKey>, at: Instant)
      requires Taking(before, left, keys, at)
      ensures Drained(before, left, keys, at)
      decreases |keys|
    {
      if keys != [] {
        var n := |keys| - 1;
        TakingDrains(before, left[keys[n] := before[keys[n]]], keys[..n], at);
        DrainedStep(before, left, keys[..n], at, keys[n]);
        assert keys[..n] + [keys[n]] == keys;
      }
    }

    static lemma DrainedStep(before: map<TimerKey, Instant>, left: map<TimerKey, Instant>, keys: seq<TimerKey>,
                             at: Instant, key: TimerKey)
      requires key in before && key !in left && AtMost(before[key], at)
      requires Drained(before, left[key := before[key]], keys, at) && IsNext(left[key := before[key]], key)
      ensures Drained(before, left, keys + [key], at)
    {
      var previous := left[key := before[key]];
      assert previous.Keys == left.Keys + {key};
      assert key !in keys;
    }

    /** The earliest of what is left, by deadline and then by identity. */
    static ghost predicate IsNext(left: map<TimerKey, Instant>, key: TimerKey) {
      key in left && forall k :: k in left && k != key ==> FallsBefore((left[key], key), (left[k], k))
    }

    static lemma DrainedAll(before: map<TimerKey, Instant>, left: map<TimerKey, Instant>, keys: seq<TimerKey>,
                            at: Instant)
      requires Taking(before, left, keys, at) && NoneDue(left, at)
      ensures Drained(before, left, keys, at)
      ensures forall key :: key in keys <==> key in before && AtMost(before[key], at)
      ensures left == map key | key in before && !AtMost(before[key], at) :: before[key]
    {
      TakingDrains(before, left, keys, at);
    }

    /** `keys` were removed from `before` in order, all due and all before what is left. */
    static ghost predicate Drained(before: map<TimerKey, Instant>, left: map<TimerKey, Instant>, keys: seq<TimerKey>,
                                   at: Instant) {
      && (forall key :: key in left ==> key in before && before[key] == left[key])
      && (forall key :: key in before <==> key in left || key in keys)
      && (forall key :: key in keys ==> key !in left && AtMost(before[key], at))
      && (forall i, j :: 0 <= i < j < |keys| ==>
            keys[i] != keys[j] && FallsBefore((before[keys[i]], keys[i]), (before[keys[j]], keys[j])))
      && (forall key, other :: key in keys && other in left ==> FallsBefore((before[key], key), (left[other], other)))
    }
  }

  class WorkHeap {
    var entries: set<Arrival>

    constructor (entries: set<Arrival>)
      ensures this.entries == entries
    {
      this.entries := entries;
    }
  }

  /** Recipient-indexed pending work: overlays from arrival to work and from recipient to heap. Forks share the
      heaps and read through the overlays; only the newest fork is written. */
  class WorkQueue {
    var items: Overlay<nat, Work>
    var heaps: Overlay<string, WorkHeap>
    var owned: set<string>
    var sequence: nat
    /** What is pending, by arrival. */
    ghost var pending: map<nat, Work>
    /** Each recipient's heap. */
    ghost var shelf: map<string, WorkHeap>
    /** Arrival numbers dispatched along this fork chain. */
    ghost var dispatched: set<nat>

    /** No heap written in place serves two recipients. */
    static ghost predicate OwnsApart(shelf: map<string, WorkHeap>, owned: set<string>) {
      owned <= shelf.Keys && forall r, t :: r in owned && t in shelf && r != t ==> shelf[r] != shelf[t]
    }

    /** What each recipient's heap lists. */
    static ghost function EntriesOf(shelf: map<string, WorkHeap>): map<string, set<Arrival>>
      reads shelf.Values
    {
      map r | r in shelf :: shelf[r].entries
    }

    ghost function Entries(): map<string, set<Arrival>>
      reads this`shelf, shelf.Values
    {
      EntriesOf(shelf)
    }

    /** The overlays read as the pending work and the recipients' heaps. */
    ghost predicate Layered()
      reads this, items, items.Repr, heaps, heaps.Repr
    {
      items.Valid() && heaps.Valid() && items.View() == pending && heaps.View() == shelf
    }

    ghost predicate Valid()
      reads this, items, items.Repr, heaps, heaps.Repr, shelf.Values
    {
      Layered() && OwnsApart(shelf, owned) && Accounts(pending, EntriesOf(shelf), dispatched, sequence)
    }

    constructor ()
      ensures Valid() && pending == map[] && sequence == 0 && shelf == map[] && owned == {} && dispatched == {}
    {
      items := new Overlay.Flat(map[]);
      heaps := new Overlay.Flat(map[]);
      owned, sequence, pending, shelf, dispatched := {}, 0, map[], map[], {};
    }

    /** A queue over a fork of each overlay of another queue. */
    constructor Over(items: Overlay<nat, Work>, heaps: Overlay<string, WorkHeap>, sequence: nat,
                     ghost pending: map<nat, Work>, ghost shelf: map<string, WorkHeap>, ghost dispatched: set<nat>)
      requires items.Valid() && heaps.Valid() && items.View() == pending && heaps.View() == shelf
      requires Accounts(pending, EntriesOf(shelf), dispatched, sequence)
      ensures this.items == items && this.heaps == heaps && owned == {}
      ensures Valid() && this.pending == pending && this.shelf == shelf
      ensures this.sequence == sequence && this.dispatched == dispatched
    {
      this.items, this.heaps, owned, this.sequence := items, heaps, {}, sequence;
      this.pending, this.shelf, this.dispatched := pending, shelf, dispatched;
    }

    /** The heaps this queue may write in place. */
    ghost function OwnHeaps(): set<WorkHeap>
      reads this`owned, this`shelf
    {
      set r | r in owned && r in shelf :: shelf[r]
    }

    /** The heap this queue may write in place for one recipient. */
    ghost function OwnHeap(recipient: string): (own: set<WorkHeap>)
      reads this`owned, this`shelf
      ensures own <= OwnHeaps()
    {
      set r | r == recipient && r in owned && r in shelf :: shelf[r]
    }

    /** Nothing this queue writes is read by `other`. */
    ghost predicate ApartFrom(other: WorkQueue)
      reads this, other, other.items, other.heaps
    {
      && this != other && items != other.items && heaps != other.heaps
      && items !in other.items.Repr && heaps !in other.heaps.Repr
      && OwnHeaps() !! other.shelf.Values
    }

    /** Share the committed heaps and read through the overlays. The fork is apart from every older queue. */
    method Fork() returns (other: WorkQueue)
      requires Valid()
      ensures fresh(other) && fresh(other.items) && fresh(other.heaps) && other.Valid() && other.owned == {}
      ensures other.pending == pending && other.shelf == shelf
      ensures other.sequence == sequence && other.dispatched == dispatched
      ensures if items.Layers() then other.items.OnlyReads(items) else items !in other.items.Repr
      ensures if heaps.Layers() then other.heaps.OnlyReads(heaps) else heaps !in other.heaps.Repr
      ensures forall q: WorkQueue :: old(allocated(q) && q.Valid()) ==> other.ApartFrom(q)
    {
      var forkedItems := items.Fork();
      var forkedHeaps := heaps.Fork();
      other := new WorkQueue.Over(forkedItems, forkedHeaps, sequence, pending, shelf, dispatched);
    }

    static lemma OwnsMore(shelf: map<string, WorkHeap>, owned: set<string>, recipient: string, heap: WorkHeap)
      requires OwnsApart(shelf, owned) && heap !in shelf.Values
      requires heap.entries == if recipient in shelf then shelf[recipient].entries else {}
      ensures OwnsApart(shelf[recipient := heap], owned + {recipient})
      ensures EntriesOf(shelf[recipient := heap]) == Opened(EntriesOf(shelf), recipient)
    {
      assert forall r :: r in shelf ==> shelf[r] in shelf.Values;
    }

    /** Copy a recipient's heap before its first write in this queue. */
    method Own(recipient: string) returns (heap: WorkHeap)
      requires Valid()
      modifies this`owned, this`shelf, heaps`writes, heaps`deleted
      ensures Valid() && owned == old(owned) + {recipient} && recipient in shelf && heap == shelf[recipient]
      ensures shelf == old(shelf)[recipient := heap]
      ensures if recipient in old(owned) then shelf == old(shelf) else fresh(heap)
      ensures OwnHeaps() <= old(OwnHeaps()) + {heap}
    {
      var held := heaps.Lookup(recipient);
      if recipient in owned {
        return held.value;
      }
      heap := new WorkHeap(if held.Some? then held.value.entries else {});
      Copy(recipient, heap);
    }

    method Copy(recipient: string, heap: WorkHeap)
      requires Valid() && recipient !in owned && heap !in shelf.Values
      requires heap.entries == if recipient in shelf then shelf[recipient].entries else {}
      modifies this`owned, this`shelf, heaps`writes, heaps`deleted
      ensures Valid() && owned == old(owned) + {recipient}
      ensures shelf == old(shelf)[recipient := heap] && OwnHeaps() <= old(OwnHeaps()) + {heap}
    {
      AccountsOpened(pending, Entries(), dispatched, sequence, recipient);
      OwnsMore(shelf, owned, recipient, heap);
      Shelve(recipient, heap);
    }

    /** Put a recipient's copied heap into this queue's overlay. */
    method Shelve(recipient: string, heap: WorkHeap)
      requires Layered()
      modifies this`shelf, this`owned, heaps`writes, heaps`deleted
      ensures Layered() && shelf == old(shelf)[recipient := heap] && owned == old(owned) + {recipient}
    {
      heaps.Set(recipient, heap);
      assert items.Valid() && items.View() == pending;
      shelf, owned := shelf[recipient := heap], owned + {recipient};
    }

    /** Enqueue once under the next arrival number. */
    method Append(work: Work)
      requires Valid()
      modifies this`owned, this`shelf, this`pending, this`sequence
      modifies items`writes, items`deleted, heaps`writes, heaps`deleted, OwnHeap(work.recipient)
      ensures Valid() && pending == old(pending)[old(sequence) := work] && sequence == old(sequence) + 1
      ensures owned == old(owned) + {work.recipient} && fresh(OwnHeaps() - old(OwnHeaps()))
      ensures work.recipient in old(owned) <==> shelf == old(shelf)
    {
      var heap := Own(work.recipient);
      Push(heap, work);
    }

    /** A queue whose objects are left alone keeps its contents. */
    twostate lemma LeftAlone()
      requires old(Valid()) && unchanged(this)
      requires forall o :: o in old(items.Repr) ==> unchanged(o)
      requires forall o :: o in old(heaps.Repr) ==> unchanged(o)
      requires forall h :: h in old(shelf.Values) ==> unchanged(h)
      ensures Valid()
    {
    }

    /** A queue that reads nothing of this one does not notice what is enqueued here, now or later. */
    method AppendApart(other: WorkQueue, work: Work)
      requires Valid() && other.Valid() && ApartFrom(other)
      modifies this`owned, this`shelf, this`pending, this`sequence
      modifies items`writes, items`deleted, heaps`writes, heaps`deleted, OwnHeap(work.recipient)
      ensures Valid() && pending == old(pending)[old(sequence) := work]
      ensures other.Valid() && other.pending == old(other.pending) && ApartFrom(other)
    {
      Append(work);
      assert ApartFrom(other);
      other.LeftAlone();
    }

    method Push(heap: WorkHeap, work: Work)
      requires Valid() && work.recipient in owned && heap == shelf[work.recipient]
      modifies this`pending, this`sequence, items`writes, items`deleted, heap
      ensures Valid() && pending == old(pending)[old(sequence) := work] && sequence == old(sequence) + 1
    {
      AccountsAppend(pending, Entries(), dispatched, sequence, work);
      Relist(heap, work.recipient, heap.entries + {(work.eligible, sequence)}, pending[sequence := work], dispatched,
             sequence + 1);
      Enter(work);
      assert Accounts(pending, EntriesOf(shelf), dispatched, sequence);
    }

    /** Rewrite the heap of a recipient in place, so that the heaps list the work given. */
    method Relist(heap: WorkHeap, recipient: string, entries: set<Arrival>, ghost items: map<nat, Work>,
                  ghost dispatched: set<nat>, ghost sequence: nat)
      requires Layered() && OwnsApart(shelf, owned) && recipient in owned && heap == shelf[recipient]
      requires Accounts(items, Entries()[recipient := entries], dispatched, sequence)
      modifies heap
      ensures Layered() && OwnsApart(shelf, owned) && heap.entries == entries
      ensures Accounts(items, EntriesOf(shelf), dispatched, sequence)
    {
      ghost var listed := Entries()[recipient := entries];
      heap.entries := entries;
      assert EntriesOf(shelf) == listed;
    }

    method Enter(work: Work)
      requires Layered()
      modifies this`pending, this`sequence, items`writes, items`deleted
      ensures Layered() && pending == old(pending)[old(sequence) := work] && sequence == old(sequence) + 1
    {
      items.Set(sequence, work);
      assert items.Valid() && heaps.Valid() && heaps.View() == shelf;
      pending, sequence := pending[sequence := work], sequence + 1;
    }

    /** Recipients whose earliest work is due. */
    method Ready(at: Instant) returns (recipients: set<string>)
      requires Valid()
      ensures forall r :: r in recipients <==> exists i :: Due(pending, i, r, at)
    {
      recipients := {};
      var keys := heaps.Keys();
      for k := 0 to |keys|
        invariant forall r :: r in recipients <==> r in keys[..k] && exists i :: Due(pending, i, r, at)
      {
        assert keys[..k + 1] == keys[..k] + [keys[k]];
        var heap := heaps.Lookup(keys[k]);
        assert Lists(Entries()[keys[k]], pending, keys[k]);
        DueIffListed(heap.value.entries, pending, keys[k], at);
        if exists e :: e in heap.value.entries && AtMost(e.0, at) {
          recipients := recipients + {keys[k]};
        }
      }
      assert keys[..|keys|] == keys;
    }

    /** The earliest pending eligibility across recipients. */
    method Earliest() returns (at: Option<Instant>)
      requires Valid()
      ensures at.None? <==> pending == map[]
      ensures at.Some? ==>
        && (exists i :: i in pending && pending[i].eligible == at.value)
        && forall i :: i in pending ==> AtMost(at.value, pending[i].eligible)
    {
      at := None;
      var keys := heaps.Keys();
      for k := 0 to |keys|
        invariant EarliestOf(at, pending, keys[..k])
      {
        var heap := heaps.Lookup(keys[k]);
        var entries := heap.value.entries;
        assert entries == EntriesOf(shelf)[keys[k]];
        assert keys[..k + 1] == keys[..k] + [keys[k]];
        if entries != {} {
          LeastArrival(entries);
          var head :| head in entries && forall o :: o in entries ==> o == head || ArrivesBefore(head, o);
          EarliestMore(at, pending, keys[..k], keys[k], entries, head);
          if at.None? || Less(head.0, at.value) {
            at := Some(head.0);
          }
        } else {
          NothingListed(entries, pending, keys[k]);
        }
      }
      assert forall i :: i in pending ==> pending[i].recipient in keys[..|keys|];
      assert at.None? ==> pending.Keys == {};
    }

    /** Pop a pending arrival off a heap this queue owns, and its work with it. */
    method Pop(heap: WorkHeap, recipient: string, next: Arrival) returns (work: Work)
      requires Valid() && recipient in owned && heap == shelf[recipient] && next in heap.entries
      modifies this`pending, this`dispatched, items`writes, items`deleted, heap
      ensures Valid() && heap.entries == old(heap.entries) - {next}
      ensures next.1 in old(pending) && work == old(pending)[next.1] && pending == old(pending) - {next.1}
      ensures dispatched == old(dispatched) + {next.1}
    {
      AccountsPop(pending, Entries(), dispatched, sequence, recipient, next);
      var found := items.Lookup(next.1);
      work := found.value;
      Relist(heap, recipient, heap.entries - {next}, pending - {next.1}, dispatched + {next.1}, sequence);
      label Relisted:
      Leave(next.1);
      HeapsAlone@Relisted();
    }

    method Leave(index: nat)
      requires Layered() && index in pending
      modifies this`pending, this`dispatched, items`writes, items`deleted
      ensures Layered() && pending == old(pending) - {index} && dispatched == old(dispatched) + {index}
    {
      var found := items.Delete(index);
      assert heaps.Valid() && heaps.View() == shelf;
      pending, dispatched := pending - {index}, dispatched + {index};
    }

    /** Dispatch the recipient's due work in arrival order: each due item exactly once, nothing else touched. */
    method Take(recipient: string, at: Instant) returns (result: seq<Work>, ghost order: seq<nat>)
      requires Valid()
      modifies this`owned, this`shelf, this`pending, this`dispatched
      modifies items`writes, items`deleted, heaps`writes, heaps`deleted, OwnHeap(recipient)
      ensures Valid() && owned == old(owned) + {recipient} && fresh(OwnHeaps() - old(OwnHeaps()))
      ensures Served(old(pending), pending, order, recipient, at) && Answers(old(pending), order, result)
      ensures ExactlyDue(old(pending), order, recipient, at) && InArrivalOrder(old(pending), order)
      ensures dispatched == old(dispatched) + set i | i in order
    {
      var heap := Own(recipient);
      assert fresh(OwnHeaps() - old(OwnHeaps()));
      result, order := Drain(heap, recipient, at);
      DispatchAll(old(pending), pending, order, result, recipient, at, old(dispatched), dispatched, sequence);
      ServedInOrder(old(pending), pending, order, recipient, at);
    }

    /** Pop the head of an owned heap if it is due. */
    method PopDue(heap: WorkHeap, recipient: string, at: Instant) returns (work: Option<Work>, ghost next: Arrival)
      requires Valid() && recipient in owned && heap == shelf[recipient]
      modifies this`pending, this`dispatched, items`writes, items`deleted, heap
      ensures Valid()
      ensures work.None? ==>
        Exhausted(pending, recipient, at) && pending == old(pending) && dispatched == old(dispatched)
      ensures work.Some? ==>
        && IsHead(old(pending), recipient, next) && AtMost(next.0, at) && work.value == old(pending)[next.1]
        && pending == old(pending) - {next.1} && dispatched == old(dispatched) + {next.1}
    {
      next := (at, 0);
      assert Lists(EntriesOf(shelf)[recipient], pending, recipient);
      ListsAll(heap.entries, pending, recipient);
      if heap.entries != {} {
        LeastArrival(heap.entries);
        var head :| head in heap.entries && forall o :: o in heap.entries ==> o == head || ArrivesBefore(head, o);
        if AtMost(head.0, at) {
          var popped := Pop(heap, recipient, head);
          return Some(popped), head;
        }
      }
      HeadNotDue(heap.entries, pending, recipient, at);
      work := None;
    }

    /** Pop due heads until there is none. */
    method Drain(heap: WorkHeap, recipient: string, at: Instant) returns (result: seq<Work>, ghost order: seq<nat>)
      requires Valid() && recipient in owned && heap == shelf[recipient]
      modifies this`pending, this`dispatched, items`writes, items`deleted, heap
      ensures Valid() && Exhausted(pending, recipient, at)
      ensures Dispatching(old(pending), pending, order, result, recipient, at)
    {
      result, order := [], [];
      while true
        invariant Valid() && Dispatching(old(pending), pending, order, result, recipient, at)
        decreases |pending|
      {
        ghost var left := pending;
        var work, next := PopDue(heap, recipient, at);
        if work.None? {
          break;
        }
        DispatchingStep(old(pending), left, order, result, recipient, at, next);
        result, order := result + [work.value], order + [next.1];
      }
    }

    /** A queue that reads nothing of this one does not notice what is dispatched here, now or later. */
    method TakeApart(other: WorkQueue, recipient: string, at: Instant)
      returns (result: seq<Work>, ghost order: seq<nat>)
      requires Valid() && other.Valid() && ApartFrom(other)
      modifies this`owned, this`shelf, this`pending, this`dispatched
      modifies items`writes, items`deleted, heaps`writes, heaps`deleted, OwnHeap(recipient)
      ensures Valid() && Served(old(pending), pending, order, recipient, at) && Answers(old(pending), order, result)
      ensures other.Valid() && other.pending == old(other.pending) && ApartFrom(other)
    {
      result, order := Take(recipient, at);
      other.LeftAlone();
    }

    /** What a parent's write does to a fork just taken. Through a layered overlay the fork sees the new arrival or the
        new heap; a heap the parent owned is written in place and then lists an arrival the fork does not hold. */
    static method WriteBesideFork(parent: WorkQueue, work: Work) returns (fork: WorkQueue)
      requires parent.Valid()
      modifies parent`owned, parent`shelf, parent`pending, parent`sequence
      modifies parent.items`writes, parent.items`deleted, parent.heaps`writes, parent.heaps`deleted
      modifies parent.OwnHeap(work.recipient)
      ensures fresh(fork) && fork.pending == old(parent.pending) && fork.shelf == old(parent.shelf)
      ensures parent.Valid() && parent.pending == old(parent.pending)[old(parent.sequence) := work]
      ensures fork.items.Valid() && fork.heaps.Valid()
      ensures fork.items.View() == if old(parent.items.Layers()) then parent.pending else old(parent.pending)
      ensures fork.heaps.View() == if old(parent.heaps.Layers()) then parent.shelf else old(parent.shelf)
      ensures fork.Valid() <==>
        !old(parent.items.Layers()) && !old(parent.heaps.Layers()) && work.recipient !in old(parent.owned)
    {
      fork := parent.Fork();
      AppendBelow(parent, fork, work);
    }

    static method AppendBelow(parent: WorkQueue, fork: WorkQueue, work: Work)
      requires parent.Valid() && fork.Valid() && parent != fork && fork.shelf == parent.shelf
      requires fork.items != parent.items && fork.heaps != parent.heaps && fork.pending == parent.pending
      requires parent.items in fork.items.Repr ==> fork.items.OnlyReads(parent.items)
      requires parent.heaps in fork.heaps.Repr ==> fork.heaps.OnlyReads(parent.heaps)
      modifies parent`owned, parent`shelf, parent`pending, parent`sequence
      modifies parent.items`writes, parent.items`deleted, parent.heaps`writes, parent.heaps`deleted
      modifies parent.OwnHeap(work.recipient)
      ensures parent.Valid() && parent.pending == old(parent.pending)[old(parent.sequence) := work]
      ensures fork.items.Valid() && fork.heaps.Valid()
      ensures fork.items.View() == if parent.items in fork.items.Repr then parent.pending else fork.pending
      ensures fork.heaps.View() == if parent.heaps in fork.heaps.Repr then parent.shelf else fork.shelf
      ensures fork.Valid() <==>
        parent.items !in fork.items.Repr && parent.heaps !in fork.heaps.Repr && work.recipient !in old(parent.owned)
    {
      ghost var index, mine := parent.sequence, work.recipient in parent.owned;
      AppendUnder(parent, fork.items, fork.heaps, work);
      if mine {
        Missed(parent, fork, index, work);
      } else {
        fork.HeapsAlone();
      }
    }

    static method AppendUnder(parent: WorkQueue, arrivals: Overlay<nat, Work>, shelves: Overlay<string, WorkHeap>,
                              work: Work)
      requires parent.Valid() && arrivals.Valid() && shelves.Valid()
      requires arrivals != parent.items && shelves != parent.heaps
      requires parent.items in arrivals.Repr ==> arrivals.OnlyReads(parent.items)
      requires parent.heaps in shelves.Repr ==> shelves.OnlyReads(parent.heaps)
      modifies parent`owned, parent`shelf, parent`pending, parent`sequence
      modifies parent.items`writes, parent.items`deleted, parent.heaps`writes, parent.heaps`deleted
      modifies parent.OwnHeap(work.recipient)
      ensures parent.Valid() && parent.pending == old(parent.pending)[old(parent.sequence) := work]
      ensures work.recipient in old(parent.owned) <==> parent.shelf == old(parent.shelf)
      ensures arrivals.Valid() && shelves.Valid()
      ensures arrivals.View() == if parent.items in arrivals.Repr then parent.pending else old(arrivals.View())
      ensures shelves.View() == if parent.heaps in shelves.Repr then parent.shelf else old(shelves.View())
    {
      AppendUnderItems(parent, arrivals, work);
      shelves.BesideWrite(parent.heaps);
    }

    static method AppendUnderItems(parent: WorkQueue, arrivals: Overlay<nat, Work>, work: Work)
      requires parent.Valid() && arrivals != parent.items && arrivals.Valid()
      requires parent.items in arrivals.Repr ==> arrivals.OnlyReads(parent.items)
      modifies parent`owned, parent`shelf, parent`pending, parent`sequence
      modifies parent.items`writes, parent.items`deleted, parent.heaps`writes, parent.heaps`deleted
      modifies parent.OwnHeap(work.recipient)
      ensures parent.Valid() && parent.pending == old(parent.pending)[old(parent.sequence) := work]
      ensures work.recipient in old(parent.owned) <==> parent.shelf == old(parent.shelf)
      ensures arrivals.Valid()
      ensures arrivals.View() == if parent.items in arrivals.Repr then parent.pending else old(arrivals.View())
    {
      parent.Append(work);
      arrivals.BesideWrite(parent.items);
    }

    /** Heaps left alone still list what they did. */
    twostate lemma HeapsAlone()
      requires shelf == old(shelf) && forall h :: h in old(shelf.Values) ==> unchanged(h)
      ensures EntriesOf(shelf) == old(EntriesOf(shelf))
    {
    }

    /** A queue that shares a recipient's heap holds the arrivals listed there. */
    static lemma Missed(parent: WorkQueue, fork: WorkQueue, index: nat, work: Work)
      requires Accounts(parent.pending, EntriesOf(parent.shelf), parent.dispatched, parent.sequence)
      requires index in parent.pending && parent.pending[index] == work && index !in fork.pending
      requires fork.shelf == parent.shelf
      ensures !fork.Valid()
    {
      assert Lists(EntriesOf(parent.shelf)[work.recipient], parent.pending, work.recipient);
      assert (work.eligible, index) in EntriesOf(fork.shelf)[work.recipient];
    }
  }
}
