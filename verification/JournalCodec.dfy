/** Positional journal frames: lists, mappings and known typed records packed into tagged lists, and back. */
module JournalCodec {
  import opened Text

  /** A portable wire tree. Floats are opaque. */
  datatype Value =
    | Null
    | Bool(b: bool)
    | Int(i: int)
    | Float(bits: nat)
    | Str(s: string)
    | List(items: seq<Value>)
    | Dict(entries: map<string, Value>)

  /** Known record shapes: the positional field names of each type tag. */
  type Shapes = map<string, seq<string>>

  predicate WellShaped(shapes: Shapes) {
    forall t :: t in shapes ==> forall i, j :: 0 <= i < j < |shapes[t]| ==> shapes[t][i] != shapes[t][j]
  }

  const TYPE := "$type"
  const FIELDS := "fields"

  /** A mapping that spells exactly a known typed record. */
  predicate IsRecord(shapes: Shapes, entries: map<string, Value>) {
    && entries.Keys == {TYPE, FIELDS}
    && entries[TYPE].Str? && entries[FIELDS].Dict?
    && entries[TYPE].s in shapes
    && entries[FIELDS].entries.Keys == set n | n in shapes[entries[TYPE].s]
  }

  function Pack(shapes: Shapes, v: Value): Value
    decreases v, 1
  {
    match v
    case List(items) => List([Int(0)] + PackAll(shapes, items))
    case Dict(entries) =>
      if IsRecord(shapes, entries) then
        var fields := entries[FIELDS].entries;
        List([Int(2), entries[TYPE]] + PackFields(shapes, v, fields, shapes[entries[TYPE].s]))
      else
        List([Int(1)] + PackPairs(shapes, v, entries, Ordered(entries.Keys)))
    case _ => v
  }

  function PackAll(shapes: Shapes, items: seq<Value>): (r: seq<Value>)
    ensures |r| == |items|
    decreases items, 0
  {
    if items == [] then [] else [Pack(shapes, items[0])] + PackAll(shapes, items[1..])
  }

  function PackFields(shapes: Shapes, v: Value, fields: map<string, Value>, names: seq<string>): (r: seq<Value>)
    requires v.Dict? && FIELDS in v.entries && v.entries[FIELDS] == Dict(fields)
    requires forall n :: n in names ==> n in fields
    ensures |r| == |names|
    decreases v, 0, |names|
  {
    if names == [] then [] else
      assert names[0] in names;
      assert fields[names[0]] < v.entries[FIELDS] < v;
      [Pack(shapes, fields[names[0]])] + PackFields(shapes, v, fields, names[1..])
  }

  function PackPairs(shapes: Shapes, v: Value, entries: map<string, Value>, keys: seq<string>): (r: seq<Value>)
    requires v == Dict(entries) && forall k :: k in keys ==> k in entries
    ensures |r| == |keys|
    decreases v, 0, |keys|
  {
    if keys == [] then [] else
      assert keys[0] in keys;
      [List([Str(keys[0]), Pack(shapes, entries[keys[0]])])] + PackPairs(shapes, v, entries, keys[1..])
  }

  datatype Result<+T> = Ok(value: T) | CodecError

  function Unpack(shapes: Shapes, v: Value): Result<Value>
    decreases v, 1
  {
    if !v.List? then Ok(v)
    else if v.items == [] || !v.items[0].Int? then CodecError
    else if v.items[0].i == 0 then
      match UnpackAll(shapes, v.items[1..])
      case Ok(items) => Ok(List(items))
      case CodecError => CodecError
    else if v.items[0].i == 1 then UnpackPairs(shapes, v.items[1..], map[])
    else if v.items[0].i == 2 && |v.items| >= 2 && v.items[1].Str? && v.items[1].s in shapes
            && |v.items| == |shapes[v.items[1].s]| + 2 then
      match UnpackAll(shapes, v.items[2..])
      case Ok(items) => Ok(Dict(map[TYPE := v.items[1], FIELDS := Dict(Zip(shapes[v.items[1].s], items))]))
      case CodecError => CodecError
    else CodecError
  }

  function UnpackAll(shapes: Shapes, items: seq<Value>): (r: Result<seq<Value>>)
    ensures r.Ok? ==> |r.value| == |items|
    decreases items, 0
  {
    if items == [] then Ok([])
    else
      match Unpack(shapes, items[0])
      case CodecError => CodecError
      case Ok(first) =>
        match UnpackAll(shapes, items[1..])
        case CodecError => CodecError
        case Ok(rest) => Ok([first] + rest)
  }

  function UnpackPairs(shapes: Shapes, pairs: seq<Value>, known: map<string, Value>): Result<Value>
    decreases pairs, 0
  {
    if pairs == [] then Ok(Dict(known))
    else
      var pair := pairs[0];
      if !pair.List? || |pair.items| != 2 || !pair.items[0].Str? || pair.items[0].s in known then CodecError
      else
        match Unpack(shapes, pair.items[1])
        case CodecError => CodecError
        case Ok(value) => UnpackPairs(shapes, pairs[1..], known[pair.items[0].s := value])
  }

  function Zip(names: seq<string>, items: seq<Value>): map<string, Value>
    requires |items| == |names|
  {
    if names == [] then map[] else Zip(names[1..], items[1..])[names[0] := items[0]]
  }

  lemma {:induction false} ZipEntries(names: seq<string>, items: seq<Value>)
    requires |items| == |names|
    requires forall i, j :: 0 <= i < j < |names| ==> names[i] != names[j]
    ensures forall n :: n in Zip(names, items) <==> n in names
    ensures forall i :: 0 <= i < |names| ==> Zip(names, items)[names[i]] == items[i]
  {
    if names != [] {
      ZipEntries(names[1..], items[1..]);
      assert forall i :: 0 < i < |names| ==> names[i] == names[1..][i - 1] && items[i] == items[1..][i - 1];
    }
  }

  lemma {:induction false} UnpackPackAll(shapes: Shapes, items: seq<Value>)
    requires WellShaped(shapes)
    ensures UnpackAll(shapes, PackAll(shapes, items)) == Ok(items)
    decreases items, 0
  {
    if items != [] {
      RoundTrip(shapes, items[0]);
      UnpackPackAll(shapes, items[1..]);
      var packed := PackAll(shapes, items);
      assert packed[0] == Pack(shapes, items[0]) && packed[1..] == PackAll(shapes, items[1..]);
      assert [items[0]] + items[1..] == items;
    }
  }

  ghost function Positional(fields: map<string, Value>, names: seq<string>): (r: seq<Value>)
    requires forall n :: n in names ==> n in fields
    ensures |r| == |names| && forall i :: 0 <= i < |names| ==> names[i] in fields && r[i] == fields[names[i]]
  {
    if names == [] then [] else
      assert names[0] in names;
      [fields[names[0]]] + Positional(fields, names[1..])
  }

  lemma {:induction false} UnpackPackFields(shapes: Shapes, v: Value, fields: map<string, Value>, names: seq<string>)
    requires WellShaped(shapes)
    requires v.Dict? && FIELDS in v.entries && v.entries[FIELDS] == Dict(fields)
    requires forall n :: n in names ==> n in fields
    ensures UnpackAll(shapes, PackFields(shapes, v, fields, names)) == Ok(Positional(fields, names))
    decreases v, 0, |names|
  {
    if names != [] {
      assert names[0] in names;
      assert fields[names[0]] < v.entries[FIELDS] < v;
      RoundTrip(shapes, fields[names[0]]);
      UnpackPackFields(shapes, v, fields, names[1..]);
      var packed := PackFields(shapes, v, fields, names);
      assert packed[0] == Pack(shapes, fields[names[0]]) && packed[1..] == PackFields(shapes, v, fields, names[1..]);
    }
  }

  ghost function Restrict(entries: map<string, Value>, keys: seq<string>): map<string, Value>
    requires forall k :: k in keys ==> k in entries
  {
    map k | k in keys :: entries[k]
  }

  lemma RestrictStep(entries: map<string, Value>, keys: seq<string>, known: map<string, Value>)
    requires keys != [] && forall k :: k in keys ==> k in entries
    ensures known[keys[0] := entries[keys[0]]] + Restrict(entries, keys[1..]) == known + Restrict(entries, keys)
  {
    assert forall k :: k in keys <==> k == keys[0] || k in keys[1..];
  }

  lemma RestrictAll(entries: map<string, Value>, keys: seq<string>)
    requires forall k :: k in keys <==> k in entries
    ensures map[] + Restrict(entries, keys) == entries
  {
    assert (map[] + Restrict(entries, keys)).Keys == entries.Keys;
  }

  lemma UnpackPair(shapes: Shapes, key: string, packed: Value, value: Value, rest: seq<Value>,
                   known: map<string, Value>)
    requires Unpack(shapes, packed) == Ok(value) && key !in known
    ensures UnpackPairs(shapes, [List([Str(key), packed])] + rest, known) ==
      UnpackPairs(shapes, rest, known[key := value])
  {
    var pairs := [List([Str(key), packed])] + rest;
    assert pairs[0] == List([Str(key), packed]) && pairs[1..] == rest;
  }

  lemma {:induction false} UnpackPackPairs(shapes: Shapes, v: Value, entries: map<string, Value>, keys: seq<string>,
                                           known: map<string, Value>)
    requires WellShaped(shapes)
    requires v == Dict(entries) && forall k :: k in keys ==> k in entries && k !in known
    requires forall i, j :: 0 <= i < j < |keys| ==> keys[i] != keys[j]
    ensures UnpackPairs(shapes, PackPairs(shapes, v, entries, keys), known) == Ok(Dict(known + Restrict(entries, keys)))
    decreases v, 0, |keys|
  {
    if keys == [] {
      assert known + Restrict(entries, keys) == known;
    } else {
      var key := keys[0];
      assert key in keys;
      RoundTrip(shapes, entries[key]);
      UnpackPair(shapes, key, Pack(shapes, entries[key]), entries[key], PackPairs(shapes, v, entries, keys[1..]),
        known);
      forall k | k in keys[1..] ensures k !in known[key := entries[key]] {
        var i :| 0 <= i < |keys| - 1 && keys[1..][i] == k;
        assert keys[i + 1] == k;
      }
      UnpackPackPairs(shapes, v, entries, keys[1..], known[key := entries[key]]);
      RestrictStep(entries, keys, known);
    }
  }

  lemma {:induction false} RoundTripList(shapes: Shapes, v: Value)
    requires WellShaped(shapes) && v.List?
    ensures Unpack(shapes, Pack(shapes, v)) == Ok(v)
    decreases v, 1
  {
    UnpackPackAll(shapes, v.items);
    assert Pack(shapes, v).items[1..] == PackAll(shapes, v.items);
  }

  lemma ZipPositional(fields: map<string, Value>, names: seq<string>)
    requires forall i, j :: 0 <= i < j < |names| ==> names[i] != names[j]
    requires fields.Keys == set n | n in names
    ensures Zip(names, Positional(fields, names)) == fields
  {
    ZipEntries(names, Positional(fields, names));
    var zipped := Zip(names, Positional(fields, names));
    assert forall n :: n in zipped <==> n in fields;
    forall n | n in zipped ensures zipped[n] == fields[n] {
      var i :| 0 <= i < |names| && names[i] == n;
    }
  }

  lemma UnpackRecord(shapes: Shapes, t: string, packed: seq<Value>, items: seq<Value>)
    requires t in shapes && |packed| == |shapes[t]| && UnpackAll(shapes, packed) == Ok(items)
    ensures Unpack(shapes, List([Int(2), Str(t)] + packed)) ==
      Ok(Dict(map[TYPE := Str(t), FIELDS := Dict(Zip(shapes[t], items))]))
  {
    assert ([Int(2), Str(t)] + packed)[2..] == packed;
  }

  lemma {:induction false} RoundTripRecord(shapes: Shapes, v: Value)
    requires WellShaped(shapes) && v.Dict? && IsRecord(shapes, v.entries)
    ensures Unpack(shapes, Pack(shapes, v)) == Ok(v)
    decreases v, 1
  {
    var t, fields := v.entries[TYPE].s, v.entries[FIELDS].entries;
    UnpackPackFields(shapes, v, fields, shapes[t]);
    ZipPositional(fields, shapes[t]);
    UnpackRecord(shapes, t, PackFields(shapes, v, fields, shapes[t]), Positional(fields, shapes[t]));
    assert map[TYPE := Str(t), FIELDS := Dict(fields)] == v.entries;
  }

  lemma UnpackMapping(shapes: Shapes, pairs: seq<Value>)
    ensures Unpack(shapes, List([Int(1)] + pairs)) == UnpackPairs(shapes, pairs, map[])
  {
    assert ([Int(1)] + pairs)[1..] == pairs;
  }

  lemma {:induction false} RoundTripMapping(shapes: Shapes, v: Value)
    requires WellShaped(shapes) && v.Dict? && !IsRecord(shapes, v.entries)
    ensures Unpack(shapes, Pack(shapes, v)) == Ok(v)
    decreases v, 1
  {
    var keys := Ordered(v.entries.Keys);
    EachOnce(v.entries.Keys);
    UnpackPackPairs(shapes, v, v.entries, keys, map[]);
    UnpackMapping(shapes, PackPairs(shapes, v, v.entries, keys));
    RestrictAll(v.entries, keys);
  }

  /** Frames are lossless: every portable tree comes back, typed records and look-alike mappings included. */
  lemma {:induction false} RoundTrip(shapes: Shapes, v: Value)
    requires WellShaped(shapes)
    ensures Unpack(shapes, Pack(shapes, v)) == Ok(v)
    decreases v, 2
  {
    match v
    case List(_) => RoundTripList(shapes, v);
    case Dict(entries) =>
      if IsRecord(shapes, entries) {
        RoundTripRecord(shapes, v);
      } else {
        RoundTripMapping(shapes, v);
      }
    case _ =>
  }

  /** Distinct trees pack to distinct frames. */
  lemma PackInjective(shapes: Shapes, v: Value, w: Value)
    requires WellShaped(shapes) && Pack(shapes, v) == Pack(shapes, w)
    ensures v == w
  {
    RoundTrip(shapes, v);
    RoundTrip(shapes, w);
  }

  /** The nesting check of a resource budget: containers count, their children are one deeper. */
  ghost predicate WithinDepth(v: Value, depth: nat)
    decreases v
  {
    match v
    case List(items) => forall i :: 0 <= i < |items| ==> depth > 0 && WithinDepth(items[i], depth - 1)
    case Dict(entries) => forall k :: k in entries ==> depth > 0 && WithinDepth(entries[k], depth - 1)
    case _ => true
  }

  lemma {:induction false} DeeperIsWithin(v: Value, depth: nat, more: nat)
    requires WithinDepth(v, depth) && depth <= more
    ensures WithinDepth(v, more)
    decreases v
  {
    match v
    case List(items) =>
      forall i | 0 <= i < |items|
        ensures WithinDepth(items[i], more - 1) { DeeperIsWithin(items[i], depth - 1, more - 1); }
    case Dict(entries) =>
      forall k | k in entries
        ensures WithinDepth(entries[k], more - 1) { DeeperIsWithin(entries[k], depth - 1, more - 1); }
    case _ =>
  }

  ghost predicate AllWithin(items: seq<Value>, depth: nat) {
    forall i :: 0 <= i < |items| ==> WithinDepth(items[i], depth)
  }

  lemma {:induction false} PackAllDepth(shapes: Shapes, items: seq<Value>, depth: nat)
    requires AllWithin(items, depth)
    ensures AllWithin(PackAll(shapes, items), 2 * depth + 1)
    decreases items, 0
  {
    if items != [] {
      PackedDepth(shapes, items[0], depth);
      PackAllDepth(shapes, items[1..], depth);
    }
  }

  lemma {:induction false} PackFieldsDepth(shapes: Shapes, v: Value, fields: map<string, Value>, names: seq<string>,
                                           depth: nat)
    requires v.Dict? && FIELDS in v.entries && v.entries[FIELDS] == Dict(fields)
    requires forall n :: n in names ==> n in fields && WithinDepth(fields[n], depth)
    ensures AllWithin(PackFields(shapes, v, fields, names), 2 * depth + 1)
    decreases v, 0, |names|
  {
    if names != [] {
      assert names[0] in names;
      assert fields[names[0]] < v.entries[FIELDS] < v;
      PackedDepth(shapes, fields[names[0]], depth);
      PackFieldsDepth(shapes, v, fields, names[1..], depth);
    }
  }

  lemma {:induction false} PackPairsDepth(shapes: Shapes, v: Value, entries: map<string, Value>, keys: seq<string>,
                                          depth: nat)
    requires v == Dict(entries)
    requires forall k :: k in keys ==> k in entries && WithinDepth(entries[k], depth)
    ensures AllWithin(PackPairs(shapes, v, entries, keys), 2 * depth + 2)
    decreases v, 0, |keys|
  {
    if keys != [] {
      assert keys[0] in keys;
      PackedDepth(shapes, entries[keys[0]], depth);
      PackPairsDepth(shapes, v, entries, keys[1..], depth);
    }
  }

  lemma TaggedDepth(tag: seq<Value>, items: seq<Value>, depth: nat)
    requires forall i :: 0 <= i < |tag| ==> tag[i].Int? || tag[i].Str?
    requires depth > 0 && AllWithin(items, depth - 1)
    ensures WithinDepth(List(tag + items), depth)
  {
  }

  lemma {:induction false} RecordDepth(shapes: Shapes, v: Value, depth: nat)
    requires v.Dict? && IsRecord(shapes, v.entries) && WithinDepth(v, depth)
    ensures WithinDepth(Pack(shapes, v), 2 * depth + 1)
    decreases v, 1
  {
    var fields, names := v.entries[FIELDS].entries, shapes[v.entries[TYPE].s];
    assert WithinDepth(v.entries[FIELDS], depth - 1);
    var packed := PackFields(shapes, v, fields, names);
    if names == [] {
      assert packed == [];
    } else {
      assert names[0] in names && names[0] in fields;
      PackFieldsDepth(shapes, v, fields, names, depth - 2);
      AllDeeper(packed, 2 * (depth - 2) + 1, 2 * depth);
    }
    TaggedDepth([Int(2), v.entries[TYPE]], packed, 2 * depth + 1);
  }

  lemma PairsWithin(shapes: Shapes, v: Value, keys: seq<string>, depth: nat)
    requires v.Dict? && WithinDepth(v, depth) && keys != [] && forall k :: k in keys ==> k in v.entries
    ensures depth > 0 && AllWithin(PackPairs(shapes, v, v.entries, keys), 2 * depth)
    decreases v, 1
  {
    assert keys[0] in keys && keys[0] in v.entries;
    assert depth > 0;
    PackPairsDepth(shapes, v, v.entries, keys, depth - 1);
  }

  lemma {:induction false} MappingDepth(shapes: Shapes, v: Value, depth: nat)
    requires v.Dict? && !IsRecord(shapes, v.entries) && WithinDepth(v, depth)
    ensures WithinDepth(Pack(shapes, v), 2 * depth + 1)
    decreases v, 2
  {
    var keys := Ordered(v.entries.Keys);
    EachOnce(v.entries.Keys);
    var packed := PackPairs(shapes, v, v.entries, keys);
    if keys != [] {
      PairsWithin(shapes, v, keys, depth);
    }
    assert Pack(shapes, v) == List([Int(1)] + packed);
    TaggedDepth([Int(1)], packed, 2 * depth + 1);
  }

  /** The packed tree nests at most 2d + 1 deep, so it fits the 2d + 2 budget derived for it. */
  lemma {:induction false} PackedDepth(shapes: Shapes, v: Value, depth: nat)
    requires WithinDepth(v, depth)
    ensures WithinDepth(Pack(shapes, v), 2 * depth + 1)
    decreases v, 3
  {
    match v
    case List(items) =>
      if items == [] {
        assert PackAll(shapes, items) == [];
      } else {
        assert WithinDepth(items[0], depth - 1);
        PackAllDepth(shapes, items, depth - 1);
        AllDeeper(PackAll(shapes, items), 2 * depth - 1, 2 * depth);
      }
      TaggedDepth([Int(0)], PackAll(shapes, items), 2 * depth + 1);
    case Dict(entries) =>
      if IsRecord(shapes, entries) {
        RecordDepth(shapes, v, depth);
      } else {
        MappingDepth(shapes, v, depth);
      }
    case _ =>
  }

  lemma AllDeeper(items: seq<Value>, depth: nat, more: nat)
    requires AllWithin(items, depth) && depth <= more
    ensures AllWithin(items, more)
  {
    forall i | 0 <= i < |items| ensures WithinDepth(items[i], more) { DeeperIsWithin(items[i], depth, more); }
  }

  /** Nested one-key mappings reach the bound exactly, so no smaller multiple would do. */
  function Nested(depth: nat): Value {
    if depth == 0 then Dict(map[]) else Dict(map["k" := Nested(depth - 1)])
  }

  lemma OnlyKey(keys: seq<string>, key: string)
    requires forall k :: k in keys <==> k == key
    requires forall i, j :: 0 <= i < j < |keys| ==> keys[i] != keys[j]
    ensures keys == [key]
  {
    assert |keys| <= 1 || keys[0] != keys[1];
    assert key in keys;
    assert forall i :: 0 <= i < |keys| ==> keys[i] in keys;
  }

  lemma PackNested(shapes: Shapes, inner: Value)
    ensures Pack(shapes, Dict(map["k" := inner])) == List([Int(1), List([Str("k"), Pack(shapes, inner)])])
  {
    var v := Dict(map["k" := inner]);
    assert "k" in v.entries && "k" != TYPE && "k" != FIELDS;
    assert !IsRecord(shapes, v.entries);
    var keys := Ordered(v.entries.Keys);
    EachOnce(v.entries.Keys);
    OnlyKey(keys, "k");
    assert PackPairs(shapes, v, v.entries, keys[1..]) == [];
  }

  lemma PairDepth(inner: Value, depth: nat)
    requires depth > 1 && !WithinDepth(inner, depth - 2)
    ensures !WithinDepth(List([Int(1), List([Str("k"), inner])]), depth)
  {
    var pair := List([Str("k"), inner]);
    assert pair.items[1] == inner && !WithinDepth(pair, depth - 1);
    assert List([Int(1), pair]).items[1] == pair;
  }

  lemma {:induction false} DepthBoundTight(shapes: Shapes, depth: nat)
    ensures WithinDepth(Nested(depth), depth)
    ensures !WithinDepth(Pack(shapes, Nested(depth)), 2 * depth)
  {
    var v := Nested(depth);
    if depth == 0 {
      assert Pack(shapes, v).items[0] == Int(1);
    } else {
      DepthBoundTight(shapes, depth - 1);
      PackNested(shapes, Nested(depth - 1));
      PairDepth(Pack(shapes, Nested(depth - 1)), 2 * depth);
    }
  }
}
