/** Sorting by a strict order, and why the sorted form of a set of elements is unique. */
module Ordering {

  function Elements<T>(s: seq<T>): set<T> {
    set x | x in s
  }

  predicate NoDuplicates<T(==)>(s: seq<T>) {
    forall i, j | 0 <= i < j < |s| :: s[i] != s[j]
  }

  ghost predicate StrictOrderOn<T>(less: (T, T) -> bool, s: set<T>) {
    && (forall x | x in s :: !less(x, x))
    && (forall x, y, z | x in s && y in s && z in s && less(x, y) && less(y, z) :: less(x, z))
    && (forall x, y | x in s && y in s && x != y :: less(x, y) || less(y, x))
  }

  ghost predicate Ascending<T>(less: (T, T) -> bool, s: seq<T>) {
    forall i, j | 0 <= i < j < |s| :: less(s[i], s[j])
  }

  function Insert<T>(x: T, s: seq<T>, less: (T, T) -> bool): seq<T> {
    if s == [] then [x]
    else if less(x, s[0]) then [x] + s
    else [s[0]] + Insert(x, s[1..], less)
  }

  /** The library sort: any correct one, since the result is unique (see SortedFormIsUnique). */
  function Sort<T>(s: seq<T>, less: (T, T) -> bool): seq<T> {
    if s == [] then [] else Insert(s[0], Sort(s[1..], less), less)
  }

  lemma {:induction false} InsertPermutes<T>(x: T, s: seq<T>, less: (T, T) -> bool)
    ensures multiset(Insert(x, s, less)) == multiset(s) + multiset{x}
  {
    if s != [] && !less(x, s[0]) {
      InsertPermutes(x, s[1..], less);
      assert s == [s[0]] + s[1..];
    }
  }

  lemma {:induction false} InsertAscends<T>(x: T, s: seq<T>, less: (T, T) -> bool)
    requires Ascending(less, s) && x !in s
    requires StrictOrderOn(less, Elements(s) + {x})
    ensures Ascending(less, Insert(x, s, less))
  {
    if s != [] {
      var all := Elements(s) + {x};
      assert s[0] in all && x in all && forall i | 0 <= i < |s| :: s[i] in all;
      if !less(x, s[0]) {
        var rest := s[1..];
        assert Elements(rest) + {x} <= all;
        InsertAscends(x, rest, less);
        var r := Insert(x, rest, less);
        InsertPermutes(x, rest, less);
        forall i | 0 <= i < |r| ensures less(s[0], r[i]) {
          assert r[i] in multiset(r);
          assert r[i] == x || r[i] in rest;
        }
      }
    }
  }

  lemma {:induction false} SortPermutes<T>(s: seq<T>, less: (T, T) -> bool)
    ensures multiset(Sort(s, less)) == multiset(s)
  {
    if s != [] {
      SortPermutes(s[1..], less);
      InsertPermutes(s[0], Sort(s[1..], less), less);
      assert s == [s[0]] + s[1..];
    }
  }

  lemma SortKeeps<T>(s: seq<T>, less: (T, T) -> bool)
    ensures |Sort(s, less)| == |s|
    ensures Elements(Sort(s, less)) == Elements(s)
  {
    SortPermutes(s, less);
    PermutationKeeps(Sort(s, less), s);
  }

  lemma PermutationKeeps<T>(a: seq<T>, b: seq<T>)
    requires multiset(a) == multiset(b)
    ensures |a| == |b|
    ensures Elements(a) == Elements(b)
  {
    assert |a| == |multiset(a)| && |b| == |multiset(b)|;
    forall x ensures x in Elements(a) <==> x in Elements(b) {
      assert x in a <==> x in multiset(a);
      assert x in b <==> x in multiset(b);
    }
  }

  lemma {:induction false} SortAscends<T>(s: seq<T>, less: (T, T) -> bool)
    requires NoDuplicates(s)
    requires StrictOrderOn(less, Elements(s))
    ensures Ascending(less, Sort(s, less))
  {
    if s != [] {
      assert Elements(s[1..]) <= Elements(s);
      SortAscends(s[1..], less);
      SortKeeps(s[1..], less);
      var r := Sort(s[1..], less);
      forall x | x in r ensures x in s[1..] { assert x in Elements(r); }
      assert Elements(r) + {s[0]} == Elements(s);
      InsertAscends(s[0], r, less);
    }
  }

  /** Two ascending lists of the same elements are the same list. */
  lemma {:induction false} SortedFormIsUnique<T>(a: seq<T>, b: seq<T>, less: (T, T) -> bool)
    requires Ascending(less, a) && Ascending(less, b)
    requires Elements(a) == Elements(b)
    requires StrictOrderOn(less, Elements(a))
    ensures a == b
  {
    if a == [] {
      assert forall i | 0 <= i < |b| :: b[i] in Elements(b);
    } else {
      assert a[0] in Elements(b);
      SameHead(a, b, less);
      TailElements(a, less);
      TailElements(b, less);
      SortedFormIsUnique(a[1..], b[1..], less);
      assert a == [a[0]] + a[1..] && b == [b[0]] + b[1..];
    }
  }

  lemma SameHead<T>(a: seq<T>, b: seq<T>, less: (T, T) -> bool)
    requires Ascending(less, a) && Ascending(less, b) && a != [] && b != []
    requires Elements(a) == Elements(b)
    requires StrictOrderOn(less, Elements(a))
    ensures a[0] == b[0]
  {
    assert a[0] in Elements(a) && b[0] in Elements(b);
    var i :| 0 <= i < |b| && b[i] == a[0];
    var j :| 0 <= j < |a| && a[j] == b[0];
    assert forall k | 0 < k < |b| :: less(b[0], b[k]);
    assert forall k | 0 < k < |a| :: less(a[0], a[k]);
  }

  lemma TailElements<T>(a: seq<T>, less: (T, T) -> bool)
    requires Ascending(less, a) && a != []
    requires StrictOrderOn(less, Elements(a))
    ensures Elements(a[1..]) == Elements(a) - {a[0]}
    ensures Ascending(less, a[1..])
  {
    forall x | x in a[1..] ensures x != a[0] && x in a {
      var i :| 0 <= i < |a[1..]| && a[1..][i] == x;
      assert a[i + 1] == x && less(a[0], a[i + 1]);
      assert a[0] in Elements(a);
    }
    forall x | x in a && x != a[0] ensures x in a[1..] {
      var i :| 0 <= i < |a| && a[i] == x;
      assert a[1..][i - 1] == x;
    }
  }

  /** Sorting forgets the order of its input. */
  lemma SortIsCanonical<T>(a: seq<T>, b: seq<T>, less: (T, T) -> bool)
    requires NoDuplicates(a) && NoDuplicates(b)
    requires Elements(a) == Elements(b)
    requires StrictOrderOn(less, Elements(a))
    ensures Sort(a, less) == Sort(b, less)
  {
    SortAscends(a, less);
    SortAscends(b, less);
    SortKeeps(a, less);
    SortKeeps(b, less);
    SortedFormIsUnique(Sort(a, less), Sort(b, less), less);
  }

  // ---- listing a finite set of ids ---------------------------------------------------------

  function SortedIds(ids: set<int>): (r: seq<int>)
    ensures forall i | 0 <= i < |r| :: r[i] in ids
  {
    if ids == {} then [] else [Least(ids)] + SortedIds(ids - {Least(ids)})
  }

  function Least(ids: set<int>): (least: int)
    requires ids != {}
    ensures least in ids && forall x | x in ids :: least <= x
    decreases |ids|, 1
  {
    LeastExists(ids);
    var least :| least in ids && forall x | x in ids :: least <= x;
    least
  }

  ghost function Pick<T>(s: set<T>): (x: T)
    requires s != {}
    ensures x in s
  {
    var x :| x in s;
    x
  }

  lemma {:induction false} LeastExists(ids: set<int>)
    requires ids != {}
    ensures exists least :: least in ids && forall x | x in ids :: least <= x
    decreases |ids|, 0
  {
    var a := Pick(ids);
    var others := ids - {a};
    if others == {} {
      assert forall x | x in ids :: x == a || x in others;
    } else {
      LeastExists(others);
      var b := Least(others);
      var least := if a < b then a else b;
      assert forall x | x in ids :: x == a || x in others;
      assert least in ids && forall x | x in ids :: least <= x;
    }
  }

  lemma {:induction false} SortedIdsListAll(ids: set<int>)
    ensures Elements(SortedIds(ids)) == ids
    ensures forall i, j | 0 <= i < j < |SortedIds(ids)| :: SortedIds(ids)[i] < SortedIds(ids)[j]
  {
    if ids != {} {
      var least := Least(ids);
      var rest := SortedIds(ids - {least});
      SortedIdsListAll(ids - {least});
      assert forall i | 0 <= i < |rest| :: rest[i] in ids - {least};
      assert Elements([least] + rest) == {least} + Elements(rest);
    }
  }
}
