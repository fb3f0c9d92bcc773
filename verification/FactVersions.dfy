/** One key's bitemporal versions: compact append-only columns shared between forks, each holder reading
    its own prefix, with a two-mode interval index and a cache of four compiled sweeps. */
module FactVersions {
  import opened Ids
  import opened Time
  import opened VersionSweep

  datatype Stamp = Stamp(clockId: string, numerator: int, denominator: int, mappingId: string)

  /** A public version; the frozen value and the retraction's reason are opaque text. */
  datatype Version =
    | Fact(value: string, acquired: Stamp, mappedNs: int, available: Instant, valid: Interval, producer: string,
      ref: ItemRef)
    | Retraction(reason: string, available: Instant, valid: Interval, producer: string, ref: ItemRef)

  /** One row across the seven value columns; a retraction stores its reason as the value and no stamp. */
  datatype Row = Row(
    value: string, acquired: Option<Stamp>, mappedNs: Option<int>, available: Instant, valid: Interval,
    producer: string, item: nat)

  function RowFor(version: Version): Row {
    match version
    case Fact(value, acquired, mappedNs, available, valid, producer, ref) =>
      Row(value, Some(acquired), Some(mappedNs), available, valid, producer, ref.itemIndex)
    case Retraction(reason, available, valid, producer, ref) =>
      Row(reason, None, None, available, valid, producer, ref.itemIndex)
  }

  /** Rows only ever hold a stamp together with its mapped time. */
  predicate Complete(row: Row) {
    row.acquired.Some? ==> row.mappedNs.Some?
  }

  function Materialize(row: Row, index: nat): Version
    requires Complete(row)
  {
    var ref := ItemRef(index, row.item);
    if row.acquired.None? then Retraction(row.value, row.available, row.valid, row.producer, ref)
    else Fact(row.value, row.acquired.value, row.mappedNs.value, row.available, row.valid, row.producer, ref)
  }

  ghost function Spans(rows: seq<Row>): (spans: seq<Interval>)
    ensures |spans| == |rows|
  {
    seq(|rows|, i requires 0 <= i < |rows| => rows[i].valid)
  }

  ghost function Versions(rows: seq<Row>, indices: seq<nat>): (versions: seq<Version>)
    requires |indices| == |rows| && forall i :: 0 <= i < |rows| ==> Complete(rows[i])
    ensures |versions| == |rows|
  {
    seq(|rows|, i requires 0 <= i < |rows| => Materialize(rows[i], indices[i]))
  }

  lemma VersionsAppend(rows: seq<Row>, indices: seq<nat>, version: Version, index: nat)
    requires |indices| == |rows| && forall i :: 0 <= i < |rows| ==> Complete(rows[i])
    requires version.ref.recordIndex == index
    ensures Complete(RowFor(version))
    ensures Versions(rows + [RowFor(version)], indices + [index]) == Versions(rows, indices) + [version]
  {
    assert Materialize(RowFor(version), index) == version;
  }

  /** The naive scan over the versions a reader at `recordIndex` knows: the greatest one covering the instant
      (or its open left side), or -1. */
  ghost predicate GreatestKnown(versions: seq<Version>, at: Instant, recordIndex: nat, left: bool, index: int) {
    && -1 <= index < |versions|
    && (index >= 0 ==> versions[index].ref.recordIndex <= recordIndex && Covers(versions[index].valid, at, left))
    && forall j :: index < j < |versions| && versions[j].ref.recordIndex <= recordIndex ==>
    !Covers(versions[j].valid, at, left)
  }

  /** Only open-ended intervals, with starts that never decrease: two bisections answer every lookup. */
  ghost predicate Monotone(rows: seq<Row>) {
    && (forall i :: 0 <= i < |rows| ==> rows[i].valid.end.None?)
    && (forall i :: 0 < i < |rows| ==> AtMost(rows[i - 1].valid.start, rows[i].valid.start))
  }

  lemma MonotoneAppend(rows: seq<Row>, row: Row)
    ensures Monotone(rows + [row]) <==>
      Monotone(rows) && row.valid.end.None? && (|rows| > 0 ==> AtMost(rows[|rows| - 1].valid.start, row.valid.start))
  {
    var more := rows + [row];
    assert more[|rows|] == row && forall i :: 0 <= i < |rows| ==> more[i] == rows[i];
  }

  lemma {:induction false} MonotoneOrder(rows: seq<Row>)
    requires Monotone(rows)
    ensures forall i, j :: 0 <= i <= j < |rows| ==> AtMost(rows[i].valid.start, rows[j].valid.start)
  {
    if |rows| > 1 {
      var last := |rows| - 1;
      MonotoneOrder(rows[..last]);
      assert forall i :: 0 <= i < last ==> rows[i] == rows[..last][i];
      assert AtMost(rows[last - 1].valid.start, rows[last].valid.start);
    }
  }

  /** The prefix a reader knows answers for the whole of what its holder reads. */
  lemma GreatestOfPrefix(rows: seq<Row>, indices: seq<nat>, count: nat, at: Instant, recordIndex: nat, left: bool,
                         index: int)
    requires |indices| == |rows| && forall i :: 0 <= i < |rows| ==> Complete(rows[i])
    requires count <= |rows| && forall i :: 0 <= i < |rows| ==> (i < count <==> indices[i] <= recordIndex)
    requires Greatest(Spans(rows[..count]), at, left, index)
    ensures GreatestKnown(Versions(rows, indices), at, recordIndex, left, index)
  {
    var versions, known := Versions(rows, indices), Spans(rows[..count]);
    assert forall i :: 0 <= i < |rows| ==>
      versions[i].valid == rows[i].valid && versions[i].ref.recordIndex == indices[i];
    assert forall i :: 0 <= i < count ==> known[i] == rows[i].valid;
  }

  /** The storage forks share: parallel columns, and the sweeps compiled from their prefixes. */
  class Columns {
    var rows: seq<Row>
    var indices: seq<nat>
    var starts: seq<Instant>
    var cache: map<nat, Compiled>
    var order: seq<nat>

    ghost predicate Aligned()
      reads this
    {
      && |indices| == |rows| && |starts| == |rows|
      && (forall i :: 0 <= i < |rows| ==> Complete(rows[i]) && starts[i] == rows[i].valid.start)
      && (forall i, j :: 0 <= i < j < |rows| ==> indices[i] <= indices[j])
    }

    /** Every cached sweep is the index of the prefix it is filed under. */
    ghost predicate CacheCurrent()
      reads this
    {
      && (forall count :: count in cache ==> count <= |rows| && IsIndexOf(Spans(rows[..count]), cache[count]))
      && |order| <= 4
      && (forall i, j :: 0 <= i < j < |order| ==> order[i] != order[j])
      && (forall count :: count in cache <==> count in order)
    }

    ghost predicate Valid()
      reads this
    {
      Aligned() && CacheCurrent()
    }

    constructor Empty()
      ensures Valid() && rows == [] && indices == []
    {
      rows, indices, starts, cache, order := [], [], [], map[], [];
    }

    /** A divergent fork's private copy of a prefix, with an empty cache. */
    constructor Prefix(source: Columns, length: nat)
      requires source.Valid() && length <= |source.rows|
      ensures Valid() && rows == source.rows[..length] && indices == source.indices[..length]
    {
      rows, indices, starts := source.rows[..length], source.indices[..length], source.starts[..length];
      cache, order := map[], [];
    }

    method Append(row: Row, index: nat)
      requires Valid() && Complete(row)
      requires |indices| > 0 ==> indices[|indices| - 1] <= index
      modifies this
      ensures Valid()
      ensures rows == old(rows) + [row] && indices == old(indices) + [index]
    {
      rows, indices, starts := rows + [row], indices + [index], starts + [row.valid.start];
      assert forall count :: count in cache ==> rows[..count] == old(rows)[..count];
    }

    /** What filing one more sweep keeps: everything, or all but the oldest once four are filed. */
    ghost function Kept(): seq<nat>
      reads this
    {
      if |order| == 4 then order[1..] else order
    }

    /** File a compiled sweep last, evicting the oldest of four; the others stay as they were. */
    method Remember(count: nat, compiled: Compiled)
      requires Valid() && count <= |rows| && count !in cache && IsIndexOf(Spans(rows[..count]), compiled)
      modifies this`cache, this`order
      ensures Valid() && order == old(Kept()) + [count] && cache[count] == compiled
      ensures forall kept :: kept in old(Kept()) ==> kept in cache && cache[kept] == old(cache)[kept]
    {
      if |order| == 4 {
        cache, order := cache - {order[0]}, order[1..];
      }
      cache, order := cache[count := compiled], order + [count];
    }

    /** The monotone mode: the last known version starting by the instant. */
    method LatestStart(length: nat, count: nat, at: Instant, left: bool) returns (index: int)
      requires Aligned() && count <= length <= |rows| && Monotone(rows[..length])
      ensures Greatest(Spans(rows[..count]), at, left, index)
    {
      MonotoneOrder(rows[..length]);
      assert forall i :: 0 <= i < count ==> rows[i] == rows[..length][i] && starts[i] == rows[i].valid.start;
      var position: int := Bisect(starts, at, count, left);
      index := position - 1;
      assert forall i :: 0 <= i < count ==> Spans(rows[..count])[i] == rows[i].valid;
    }

    /** The general mode: one compiled sweep a knowledge prefix, reused while it stays cached. */
    method CompiledWinner(count: nat, at: Instant, left: bool) returns (index: int)
      requires Valid() && count <= |rows|
      modifies this`cache, this`order
      ensures Valid()
      ensures Greatest(Spans(rows[..count]), at, left, index)
    {
      if count !in cache {
        var spans := seq(count, i requires 0 <= i < count reads this requires count <= |rows| => rows[i].valid);
        assert spans == Spans(rows[..count]);
        var sweep := Compile(spans);
        Remember(count, sweep);
      }
      var compiled := cache[count];
      var position := Bisect(compiled.coordinates, at, |compiled.coordinates|, left);
      assert IsPosition(compiled.coordinates, at, left, position);
      index := WinnerAt(compiled, position);
    }
  }

  class FactVersions {
    const columns: Columns
    const length: nat
    const monotone: bool

    /** The versions this holder reads. */
    ghost function Contents(): seq<Version>
      requires Valid()
      reads this, columns
    {
      Versions(columns.rows[..length], columns.indices[..length])
    }

    ghost predicate Valid()
      reads this, columns
    {
      && columns.Valid()
      && length <= |columns.rows|
      && (monotone <==> Monotone(columns.rows[..length]))
    }

    constructor Empty()
      ensures Valid() && Contents() == [] && fresh(columns)
    {
      columns := new Columns.Empty();
      length, monotone := 0, true;
    }

    constructor Over(columns: Columns, length: nat, monotone: bool)
      requires columns.Valid() && length <= |columns.rows| && (monotone <==> Monotone(columns.rows[..length]))
      ensures Valid() && this.columns == columns && this.length == length
    {
      this.columns, this.length, this.monotone := columns, length, monotone;
    }

    /** Append a version for the holder returned. Every holder issued before, whatever prefix it reads and
        whichever columns it shares, keeps its contents; abandoned suffixes never leak in. */
    method WithVersion(version: Version, index: nat) returns (next: FactVersions)
      requires Valid()
      requires version.ref.recordIndex == index
      requires length > 0 ==> columns.indices[length - 1] <= index
      modifies columns
      ensures fresh(next) && next.Valid() && next.Contents() == old(Contents()) + [version]
      ensures next.columns == columns || fresh(next.columns)
      ensures forall f: FactVersions :: allocated(f) && old(allocated(f) && f.Valid()) ==>
        f.Valid() && f.Contents() == old(f.Contents())
    {
      var target := columns;
      if |columns.indices| != length {
        target := new Columns.Prefix(columns, length);
      }
      next := Appended(target, version, index);
      forall f: FactVersions | allocated(f) && old(allocated(f) && f.Valid())
        ensures f.Valid() && f.Contents() == old(f.Contents())
      {
        HolderKept(f);
      }
    }

    /** The holder one version further on columns that now end where this holder does. */
    method Appended(target: Columns, version: Version, index: nat) returns (next: FactVersions)
      requires Valid() && target.Valid() && version.ref.recordIndex == index
      requires target.rows == columns.rows[..length] && target.indices == columns.indices[..length]
      requires length > 0 ==> columns.indices[length - 1] <= index
      modifies target
      ensures fresh(next) && next.Valid() && next.columns == target && next.Contents() == old(Contents()) + [version]
      ensures old(target.rows) <= target.rows && old(target.indices) <= target.indices
    {
      var open := version.valid.end.None?
        && (length == 0 || AtMost(target.starts[length - 1], version.valid.start));
      MonotoneAppend(target.rows, RowFor(version));
      VersionsAppend(target.rows, target.indices, version, index);
      target.Append(RowFor(version), index);
      assert target.rows[..length + 1] == target.rows && target.indices[..length + 1] == target.indices;
      next := new FactVersions.Over(target, length + 1, monotone && open);
    }

    /** A holder whose columns only grew keeps its contents. */
    static twostate lemma HolderKept(f: FactVersions)
      requires old(f.Valid()) && f.columns.Valid()
      requires old(f.columns.rows) <= f.columns.rows && old(f.columns.indices) <= f.columns.indices
      ensures f.Valid() && f.Contents() == old(f.Contents())
    {
      assert f.columns.rows[..f.length] == old(f.columns.rows[..f.length]);
      assert f.columns.indices[..f.length] == old(f.columns.indices[..f.length]);
    }

    /** How many of this prefix's versions a reader at the record index knows. */
    method KnownCount(recordIndex: nat) returns (count: nat)
      requires Valid()
      ensures count <= length
      ensures forall i :: 0 <= i < length ==> (i < count <==> columns.indices[i] <= recordIndex)
    {
      var low, high := 0, length;
      while low < high
        invariant 0 <= low <= high <= length
        invariant forall i :: 0 <= i < low ==> columns.indices[i] <= recordIndex
        invariant forall i :: high <= i < length ==> columns.indices[i] > recordIndex
      {
        var middle := (low + high) / 2;
        if columns.indices[middle] <= recordIndex {
          low := middle + 1;
        } else {
          high := middle;
        }
      }
      count := low;
    }

    /** The indexed lookup agrees with a naive scan of the whole prefix: the greatest version the reader
        knows that covers the instant (or its open left side), in both index modes. Only the shared cache
        changes, so every holder of the columns keeps its contents. */
    method Select(at: Instant, recordIndex: nat, left: bool) returns (index: int)
      requires Valid()
      modifies columns`cache, columns`order
      ensures Valid() && Contents() == old(Contents())
      ensures GreatestKnown(Contents(), at, recordIndex, left, index)
      ensures forall f: FactVersions :: allocated(f) && old(allocated(f) && f.Valid()) ==>
        f.Valid() && f.Contents() == old(f.Contents())
    {
      var count := KnownCount(recordIndex);
      if monotone {
        index := columns.LatestStart(length, count, at, left);
      } else {
        index := columns.CompiledWinner(count, at, left);
      }
      assert columns.rows[..length][..count] == columns.rows[..count];
      GreatestOfPrefix(columns.rows[..length], columns.indices[..length], count, at, recordIndex, left, index);
    }
  }
}
