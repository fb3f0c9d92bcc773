/** Text order: identities are visited in code-point order, as the source's `sorted` visits them. */
module Text {

  predicate Precedes(a: string, b: string) {
    b != [] && (a == [] || a[0] < b[0] || (a[0] == b[0] && Precedes(a[1..], b[1..])))
  }

  lemma {:induction false} Trichotomy(a: string, b: string)
    ensures a == b || Precedes(a, b) || Precedes(b, a)
    ensures !(Precedes(a, b) && Precedes(b, a)) && !Precedes(a, a)
  {
    if a != [] && b != [] && a[0] == b[0] {
      Trichotomy(a[1..], b[1..]);
      assert a == [a[0]] + a[1..] && b == [b[0]] + b[1..];
    }
    if a != [] {
      Trichotomy(a[1..], a[1..]);
    }
  }

  lemma {:induction false} Transitive(a: string, b: string, c: string)
    requires Precedes(a, b) && Precedes(b, c)
    ensures Precedes(a, c)
  {
    if a != [] && a[0] == b[0] && b[0] == c[0] {
      Transitive(a[1..], b[1..], c[1..]);
    }
  }

  /** Tuples of text, as compared field by field. */
  predicate KeyPrecedes(a: seq<string>, b: seq<string>) {
    b != [] && (a == [] || Precedes(a[0], b[0]) || (a[0] == b[0] && KeyPrecedes(a[1..], b[1..])))
  }

  lemma {:induction false} KeyTrichotomy(a: seq<string>, b: seq<string>)
    ensures a == b || KeyPrecedes(a, b) || KeyPrecedes(b, a)
    ensures !(KeyPrecedes(a, b) && KeyPrecedes(b, a)) && !KeyPrecedes(a, a)
  {
    if a != [] && b != [] {
      Trichotomy(a[0], b[0]);
      if a[0] == b[0] {
        KeyTrichotomy(a[1..], b[1..]);
        assert a == [a[0]] + a[1..] && b == [b[0]] + b[1..];
      }
    }
    if a != [] {
      Trichotomy(a[0], a[0]);
      KeyTrichotomy(a[1..], a[1..]);
    }
  }

  lemma {:induction false} KeyTransitive(a: seq<string>, b: seq<string>, c: seq<string>)
    requires KeyPrecedes(a, b) && KeyPrecedes(b, c)
    ensures KeyPrecedes(a, c)
  {
    if a != [] {
      if Precedes(a[0], b[0]) && Precedes(b[0], c[0]) {
        Transitive(a[0], b[0], c[0]);
      } else if a[0] == b[0] && b[0] == c[0] {
        KeyTransitive(a[1..], b[1..], c[1..]);
      }
    }
  }

  predicate IsFirst(ids: set<string>, first: string) {
    first in ids && forall id :: id in ids ==> id == first || Precedes(first, id)
  }

  lemma FirstExists(ids: set<string>)
    requires ids != {}
    ensures exists first :: IsFirst(ids, first)
  {
    var some :| some in ids;
    var rest := ids - {some};
    if rest == {} {
      assert ids == {some};
      assert IsFirst(ids, some);
    } else {
      FirstExists(rest);
      var first :| IsFirst(rest, first);
      Trichotomy(some, first);
      forall id | id in rest && Precedes(some, first) ensures Precedes(some, id) {
        if id != first { Transitive(some, first, id); }
      }
      assert IsFirst(ids, if Precedes(some, first) then some else first);
    }
  }

  lemma FirstUnique(ids: set<string>)
    ensures forall a, b :: IsFirst(ids, a) && IsFirst(ids, b) ==> a == b
  {
    forall a, b | IsFirst(ids, a) && IsFirst(ids, b) ensures a == b {
      Trichotomy(a, b);
    }
  }

  ghost predicate Ascending(ids: seq<string>) {
    forall i, j :: 0 <= i < j < |ids| ==> Precedes(ids[i], ids[j])
  }

  /** A set of identities in order, each once. */
  function Ordered(ids: set<string>): (order: seq<string>)
    ensures Ascending(order) && (forall id :: id in order <==> id in ids)
  {
    if ids == {} then []
    else
      FirstExists(ids);
      FirstUnique(ids);
      var first :| IsFirst(ids, first);
      [first] + Ordered(ids - {first})
  }

  lemma EachOnce(ids: set<string>)
    ensures forall i, j :: 0 <= i < j < |Ordered(ids)| ==> Ordered(ids)[i] != Ordered(ids)[j]
  {
    forall i, j | 0 <= i < j < |Ordered(ids)| ensures Ordered(ids)[i] != Ordered(ids)[j] {
      Trichotomy(Ordered(ids)[i], Ordered(ids)[j]);
    }
  }
}
