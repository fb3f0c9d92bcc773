/** Shared storage behind candidate states: prefix-limited append lists and layered write overlays. */
module Storage {
  import opened Time

  /** The list object that forks share. */
  class Buffer<T> {
    var items: seq<T>

    constructor (items: seq<T>)
      ensures this.items == items
    {
      this.items := items;
    }
  }

  /** A stable prefix of shared append storage. */
  class AppendList<T> {
    var data: Buffer<T>
    var length: nat

    ghost predicate Valid()
      reads this, data
    {
      length <= |data.items|
    }

    ghost function Contents(): seq<T>
      requires Valid()
      reads this, data
    {
      data.items[..length]
    }

    constructor (data: Buffer<T>, length: nat)
      requires length <= |data.items|
      ensures Valid() && this.data == data && this.length == length
    {
      this.data, this.length := data, length;
    }

    /** Share the storage, keep this exact prefix. */
    method Fork() returns (other: AppendList<T>)
      requires Valid()
      ensures fresh(other) && other.Valid() && other.Contents() == Contents()
    {
      other := new AppendList(data, length);
    }

    /** Append to this list alone: whichever lists share the storage, committed or abandoned, longer or
        shorter, none of them changes its contents. */
    method Append(value: T)
      requires Valid()
      modifies this, data
      ensures Valid() && Contents() == old(Contents()) + [value]
      ensures forall l: AppendList<T> :: l != this && old(allocated(l) && l.Valid()) ==>
        l.Valid() && l.Contents() == old(l.Contents())
    {
      if |data.items| != length {
        data := new Buffer(data.items[..length]);
      }
      data.items := data.items + [value];
      length := length + 1;
    }

    /** Indexing with negative positions counted from the end; absent outside the prefix. */
    method Get(index: int) returns (value: Option<T>)
      requires Valid()
      ensures 0 <= index < length ==> value == Some(Contents()[index])
      ensures index < 0 <= index + length ==> value == Some(Contents()[length + index])
      ensures value.None? <==> index >= length || index + length < 0
    {
      var position := if index < 0 then index + length else index;
      if !(0 <= position < length) {
        return None;
      }
      value := Some(data.items[position]);
    }
  }

  const FLATTEN_DEPTH: nat := 16

  /** A private write layer over a committed mapping: another overlay, or a flat dictionary. */
  class Overlay<K(==, !new), V> {
    var parent: Overlay?<K, V>
    var flat: map<K, V>
    var writes: map<K, V>
    var deleted: set<K>
    var depth: nat
    ghost var Repr: set<Overlay<K, V>>

    ghost predicate Valid()
      reads this, Repr
      decreases Repr
      ensures Valid() ==> this in Repr
    {
      && this in Repr
      && writes.Keys !! deleted
      && depth < FLATTEN_DEPTH
      && (parent == null ==> depth == 0)
      && (parent != null ==>
           && parent in Repr && parent.Repr <= Repr && this !in parent.Repr
           && parent.Valid() && depth == parent.depth + 1)
    }

    ghost function BaseView(): map<K, V>
      requires Valid()
      reads this, Repr
      decreases Repr, 0
    {
      if parent == null then flat else parent.View()
    }

    /** The one flat map this stack of layers stands for. */
    ghost function View(): map<K, V>
      requires Valid()
      reads this, Repr
      decreases Repr, 1
    {
      (BaseView() - deleted) + writes
    }

    constructor Flat(base: map<K, V>)
      ensures Valid() && View() == base && Repr == {this}
    {
      parent, flat, writes, deleted, depth := null, base, map[], {}, 0;
      Repr := {this};
    }

    /** A layer over another overlay, flattened into a dictionary at the depth bound. */
    constructor Over(base: Overlay<K, V>)
      requires base.Valid()
      ensures Valid() && View() == base.View()
      ensures Repr <= {this} + base.Repr && writes == map[] && deleted == {}
      ensures if base.depth + 1 < FLATTEN_DEPTH then parent == base else Repr == {this}
    {
      var copy: map<K, V> := map[];
      if base.depth + 1 >= FLATTEN_DEPTH {
        copy := base.ToDict();
        parent, depth, Repr := null, 0, {this};
      } else {
        parent, depth, Repr := base, base.depth + 1, {this} + base.Repr;
      }
      flat, writes, deleted := copy, map[], {};
    }

    /** A fork reads through this layer, rather than through its base or a flat copy. */
    predicate Layers()
      reads this
    {
      (writes != map[] || deleted != {}) && depth + 1 < FLATTEN_DEPTH
    }

    /** A layer that holds nothing of its own over another. */
    ghost predicate OnlyReads(base: Overlay<K, V>)
      reads this
    {
      parent == base && writes == map[] && deleted == {}
    }

    /** Open a fresh candidate over this layer, or over its base when this layer holds nothing. */
    method Fork() returns (other: Overlay<K, V>)
      requires Valid()
      ensures fresh(other) && other.Valid() && other.View() == View()
      ensures other.Repr <= {other} + Repr
      ensures if Layers() then other.OnlyReads(this) else this !in other.Repr
    {
      if writes == map[] && deleted == {} {
        assert View() == BaseView();
        if parent == null {
          other := new Overlay.Flat(flat);
        } else {
          other := new Overlay.Over(parent);
        }
      } else {
        other := new Overlay.Over(this);
      }
    }

    /** The layer walk. */
    method Lookup(key: K) returns (value: Option<V>)
      requires Valid()
      ensures value == if key in View() then Some(View()[key]) else None
    {
      var layer: Overlay<K, V> := this;
      while true
        invariant layer.Valid()
        invariant key in View() <==> key in layer.View()
        invariant key in View() ==> View()[key] == layer.View()[key]
        decreases layer.depth
      {
        if key in layer.deleted {
          return None;
        }
        if key in layer.writes {
          return Some(layer.writes[key]);
        }
        if layer.parent == null {
          return if key in layer.flat then Some(layer.flat[key]) else None;
        }
        layer := layer.parent;
      }
    }

    /** Overwrite here only: an overlay whose layers do not include this one keeps its view. */
    method Set(key: K, value: V)
      requires Valid()
      modifies this`writes, this`deleted
      ensures Valid() && View() == old(View())[key := value]
      ensures forall o: Overlay<K, V> :: old(allocated(o) && o.Valid()) && this !in o.Repr ==>
        o.Valid() && o.View() == old(o.View())
    {
      assert parent != null ==> this !in parent.Repr;
      ghost var base := BaseView();
      deleted := deleted - {key};
      writes := writes[key := value];
      assert BaseView() == base;
    }

    /** Writes of another overlay show through a layer that only reads it, and nowhere else. */
    twostate lemma BesideWrite(base: Overlay<K, V>)
      requires old(Valid()) && base.Valid() && base != this
      requires base in old(Repr) ==> old(OnlyReads(base))
      requires forall o :: o in old(Repr) && o != base ==> unchanged(o)
      requires base in old(Repr) ==> base.Repr == old(base.Repr) && base.depth == old(base.depth)
      ensures Valid() && View() == if base in Repr then base.View() else old(View())
    {
    }

    /** What a later write of its parent does to a fork: it shows through exactly when the fork is layered on the
        parent, that is when the parent held something of its own and was not flattened. */
    static method WriteBesideFork(parent: Overlay<K, V>, key: K, value: V) returns (fork: Overlay<K, V>)
      requires parent.Valid()
      modifies parent`writes, parent`deleted
      ensures fresh(fork) && fork.Valid() && parent.Valid()
      ensures parent.View() == old(parent.View())[key := value]
      ensures fork.View() == if old(parent.Layers()) then old(parent.View())[key := value] else old(parent.View())
    {
      fork := parent.Fork();
      parent.Set(key, value);
    }

    /** Delete here only; an absent key is refused. */
    method Delete(key: K) returns (found: bool)
      requires Valid()
      modifies this`writes, this`deleted
      ensures Valid() && found == (key in old(View()))
      ensures View() == old(View()) - {key}
      ensures forall o: Overlay<K, V> :: old(allocated(o) && o.Valid()) && this !in o.Repr ==>
        o.Valid() && o.View() == old(o.View())
    {
      var current := Lookup(key);
      found := current.Some?;
      if found {
        ghost var base := BaseView();
        writes := writes - {key};
        deleted := deleted + {key};
        assert BaseView() == base;
      }
    }

    /** Iteration: own writes, then the base's keys that are neither overwritten nor deleted here. */
    method Keys() returns (keys: seq<K>)
      requires Valid()
      ensures forall i, j :: 0 <= i < j < |keys| ==> keys[i] != keys[j]
      ensures forall key :: key in keys <==> key in View()
      decreases Repr
    {
      keys := Enumerate(writes.Keys);
      var below: seq<K>;
      if parent == null {
        below := Enumerate(flat.Keys);
      } else {
        below := parent.Keys();
      }
      for i := 0 to |below|
        invariant forall i, j :: 0 <= i < j < |keys| ==> keys[i] != keys[j]
        invariant forall key :: key in keys <==> key in writes || (key in below[..i] && key !in deleted)
      {
        assert below[..i + 1] == below[..i] + [below[i]];
        if below[i] !in writes && below[i] !in deleted {
          assert below[i] !in below[..i];
          keys := keys + [below[i]];
        }
      }
      assert below[..|below|] == below;
    }

    /** The flat copy made at the depth bound. */
    method ToDict() returns (copy: map<K, V>)
      requires Valid()
      ensures copy == View()
    {
      ghost var view := View();
      copy := map[];
      var keys := Keys();
      assert forall key :: key in keys <==> key in view;
      for i := 0 to |keys|
        invariant forall key :: key in copy <==> key in keys[..i]
        invariant forall key :: key in copy ==> key in view && copy[key] == view[key]
      {
        assert keys[i] in keys;
        var value := Lookup(keys[i]);
        copy := copy[keys[i] := value.value];
        assert keys[..i + 1] == keys[..i] + [keys[i]];
      }
      assert keys[..|keys|] == keys;
      assert copy.Keys == view.Keys;
    }
  }

  method Enumerate<K(==, !new)>(s: set<K>) returns (items: seq<K>)
    ensures forall i, j :: 0 <= i < j < |items| ==> items[i] != items[j]
    ensures forall x :: x in items <==> x in s
  {
    items := [];
    var rest := s;
    while rest != {}
      invariant rest <= s
      invariant forall i, j :: 0 <= i < j < |items| ==> items[i] != items[j]
      invariant forall x :: x in items <==> x in s - rest
    {
      var x :| x in rest;
      assert x !in items;
      items, rest := items + [x], rest - {x};
    }
  }
}
