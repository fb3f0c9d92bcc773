/** Finite sets in their canonical order: numbers ascending, partition timers by the text of their names. */
module Listing {
  import opened Text
  import opened Timers

  ghost predicate Ascends(order: seq<nat>) {
    forall i, j :: 0 <= i < j < |order| ==> order[i] < order[j]
  }

  predicate IsLeast(ids: set<nat>, least: nat) {
    least in ids && forall id :: id in ids ==> least <= id
  }

  lemma LeastExists(ids: set<nat>)
    requires ids != {}
    ensures exists least :: IsLeast(ids, least)
  {
    var some :| some in ids;
    var rest := ids - {some};
    if rest == {} {
      assert ids == {some};
      assert IsLeast(ids, some);
    } else {
      LeastExists(rest);
      var least :| IsLeast(rest, least);
      assert forall id :: id in ids ==> id == some || id in rest;
      assert IsLeast(ids, if some < least then some else least);
    }
  }

  /** A set of numbers in ascending order, each once. */
  function Numbered(ids: set<nat>): (order: seq<nat>)
    ensures Ascends(order) && (forall id :: id in order <==> id in ids)
  {
    if ids == {} then []
    else
      LeastExists(ids);
      var least :| IsLeast(ids, least);
      [least] + Numbered(ids - {least})
  }

  /** How many numbers of a set come before one. */
  function Rank(ids: set<nat>, id: nat): nat {
    |set other | other in ids && other < id|
  }

  lemma NumberedUnfolds(ids: set<nat>)
    requires ids != {}
    ensures IsLeast(ids, Numbered(ids)[0]) && Numbered(ids) == [Numbered(ids)[0]] + Numbered(ids - {Numbered(ids)[0]})
  {
  }

  lemma RankNext(ids: set<nat>, least: nat, id: nat)
    requires IsLeast(ids, least) && id in ids && id != least
    ensures Rank(ids, id) == Rank(ids - {least}, id) + 1
  {
    assert (set other | other in ids && other < id) ==
      (set other | other in ids - {least} && other < id) + {least};
  }

  lemma RankFirst(ids: set<nat>, least: nat)
    requires IsLeast(ids, least)
    ensures Rank(ids, least) == 0
  {
    assert (set other | other in ids && other < least) == {};
  }

  /** Each number stands at its rank. */
  lemma {:induction false} NumberedByRank(ids: set<nat>, k: nat)
    requires k < |Numbered(ids)|
    ensures Numbered(ids)[k] in ids && Rank(ids, Numbered(ids)[k]) == k
    decreases |ids|
  {
    var order := Numbered(ids);
    assert order[k] in order;
    NumberedUnfolds(ids);
    if k == 0 {
      RankFirst(ids, order[0]);
    } else {
      assert order[k] == Numbered(ids - {order[0]})[k - 1] && order[0] < order[k];
      NumberedByRank(ids - {order[0]}, k - 1);
      RankNext(ids, order[0], order[k]);
    }
  }

  lemma {:induction false} NumberedAll(ids: set<nat>)
    ensures |Numbered(ids)| == |ids|
    decreases |ids|
  {
    if ids != {} {
      NumberedUnfolds(ids);
      NumberedAll(ids - {Numbered(ids)[0]});
    }
  }

  /** The text a partition timer is sorted by. */
  function NameOf(key: TimerKey): seq<string>
    requires key.PartitionTimer?
  {
    [key.partition, key.id]
  }

  ghost predicate ByName(order: seq<TimerKey>) {
    && (forall i :: 0 <= i < |order| ==> order[i].PartitionTimer?)
    && forall i, j :: 0 <= i < j < |order| ==> KeyPrecedes(NameOf(order[i]), NameOf(order[j]))
  }

  predicate IsFirstTimer(keys: set<TimerKey>, first: TimerKey)
    requires forall key :: key in keys ==> key.PartitionTimer?
  {
    first in keys && forall key :: key in keys ==> key == first || KeyPrecedes(NameOf(first), NameOf(key))
  }

  lemma FirstTimerExists(keys: set<TimerKey>)
    requires keys != {} && forall key :: key in keys ==> key.PartitionTimer?
    ensures exists first :: IsFirstTimer(keys, first)
  {
    var some :| some in keys;
    var rest := keys - {some};
    if rest == {} {
      assert keys == {some};
      assert IsFirstTimer(keys, some);
    } else {
      FirstTimerExists(rest);
      var first :| IsFirstTimer(rest, first);
      KeyTrichotomy(NameOf(some), NameOf(first));
      forall key | key in rest && KeyPrecedes(NameOf(some), NameOf(first))
        ensures KeyPrecedes(NameOf(some), NameOf(key))
      {
        if key != first {
          KeyTransitive(NameOf(some), NameOf(first), NameOf(key));
        }
      }
      assert NameOf(some)[0] == some.partition && NameOf(first)[0] == first.partition;
      assert NameOf(some)[1] == some.id && NameOf(first)[1] == first.id;
      assert IsFirstTimer(keys, if KeyPrecedes(NameOf(some), NameOf(first)) then some else first);
    }
  }

  lemma FirstTimerUnique(keys: set<TimerKey>)
    requires forall key :: key in keys ==> key.PartitionTimer?
    ensures forall a, c :: IsFirstTimer(keys, a) && IsFirstTimer(keys, c) ==> a == c
  {
    forall a, c | IsFirstTimer(keys, a) && IsFirstTimer(keys, c) ensures a == c {
      KeyTrichotomy(NameOf(a), NameOf(c));
    }
  }

  /** A set of partition timers in the order of their names, each once. */
  function Named(keys: set<TimerKey>): (order: seq<TimerKey>)
    requires forall key :: key in keys ==> key.PartitionTimer?
    ensures ByName(order) && (forall key :: key in order <==> key in keys)
  {
    if keys == {} then []
    else
      FirstTimerExists(keys);
      FirstTimerUnique(keys);
      var first :| IsFirstTimer(keys, first);
      [first] + Named(keys - {first})
  }

  /** How many partition timers of a set have names before one's. */
  function NameRank(keys: set<TimerKey>, key: TimerKey): nat
    requires key.PartitionTimer? && forall other :: other in keys ==> other.PartitionTimer?
  {
    |set other | other in keys && KeyPrecedes(NameOf(other), NameOf(key))|
  }

  lemma NamedUnfolds(keys: set<TimerKey>)
    requires keys != {} && forall key :: key in keys ==> key.PartitionTimer?
    ensures IsFirstTimer(keys, Named(keys)[0]) && Named(keys) == [Named(keys)[0]] + Named(keys - {Named(keys)[0]})
  {
  }

  lemma NameRankNext(keys: set<TimerKey>, first: TimerKey, key: TimerKey)
    requires (forall other :: other in keys ==> other.PartitionTimer?) && IsFirstTimer(keys, first)
    requires key in keys && key != first
    ensures NameRank(keys, key) == NameRank(keys - {first}, key) + 1
  {
    assert (set other | other in keys && KeyPrecedes(NameOf(other), NameOf(key))) ==
      (set other | other in keys - {first} && KeyPrecedes(NameOf(other), NameOf(key))) + {first};
  }

  lemma NameRankFirst(keys: set<TimerKey>, first: TimerKey)
    requires (forall other :: other in keys ==> other.PartitionTimer?) && IsFirstTimer(keys, first)
    ensures NameRank(keys, first) == 0
  {
    forall other | other in keys ensures !KeyPrecedes(NameOf(other), NameOf(first)) {
      KeyTrichotomy(NameOf(other), NameOf(first));
    }
    assert (set other | other in keys && KeyPrecedes(NameOf(other), NameOf(first))) == {};
  }

  /** Each timer stands at the rank of its name. */
  lemma {:induction false} NamedByRank(keys: set<TimerKey>, k: nat)
    requires (forall key :: key in keys ==> key.PartitionTimer?) && k < |Named(keys)|
    ensures Named(keys)[k] in keys && NameRank(keys, Named(keys)[k]) == k
    decreases |keys|
  {
    var order := Named(keys);
    assert order[k] in order;
    NamedUnfolds(keys);
    if k == 0 {
      NameRankFirst(keys, order[0]);
    } else {
      assert order[k] == Named(keys - {order[0]})[k - 1];
      KeyTrichotomy(NameOf(order[0]), NameOf(order[0]));
      NamedByRank(keys - {order[0]}, k - 1);
      NameRankNext(keys, order[0], order[k]);
    }
  }
}
