/**
 * Python's `sorted(xs, key=k, reverse=True)` and `xs.sort(key=k, reverse=True)`:
 * a stable sort into descending key order. The order is given as `geq`,
 * "the first argument's key is at least the second's".
 */
module Sorting {

  /** `geq` is total and transitive, as the comparison of numbers or of strings is. */
  ghost predicate TotalPreorder<T(!new)>(geq: (T, T) -> bool) {
    && (forall a, b :: geq(a, b) || geq(b, a))
    && (forall a, b, c :: geq(a, b) && geq(b, c) ==> geq(a, c))
  }

  /** Every element is at least every later one. */
  ghost predicate SortedDesc<T>(s: seq<T>, geq: (T, T) -> bool) {
    forall i, j :: 0 <= i < j < |s| ==> geq(s[i], s[j])
  }

  /**
   * Inserts `x` in front of the first element it is at least as large as,
   * so that `x` stays ahead of equal elements that came after it.
   */
  function Insert<T>(x: T, s: seq<T>, geq: (T, T) -> bool): (r: seq<T>)
    ensures multiset(r) == multiset(s) + multiset{x}
    ensures |r| == |s| + 1
  {
    if s == [] || geq(x, s[0]) then [x] + s
    else
      assert s == [s[0]] + s[1..];
      [s[0]] + Insert(x, s[1..], geq)
  }

  /** Stable descending insertion sort. */
  function SortDesc<T>(s: seq<T>, geq: (T, T) -> bool): (r: seq<T>)
    ensures multiset(r) == multiset(s)
    ensures |r| == |s|
  {
    if s == [] then []
    else
      assert s == [s[0]] + s[1..];
      Insert(s[0], SortDesc(s[1..], geq), geq)
  }

  lemma {:induction false} InsertSorted<T(!new)>(x: T, s: seq<T>, geq: (T, T) -> bool)
    requires TotalPreorder(geq)
    requires SortedDesc(s, geq)
    ensures SortedDesc(Insert(x, s, geq), geq)
  {
    if s == [] || geq(x, s[0]) {
    } else {
      InsertSorted(x, s[1..], geq);
      var r := Insert(x, s, geq);
      var t := Insert(x, s[1..], geq);
      assert r == [s[0]] + t;
      forall j | 0 < j < |r| ensures geq(r[0], r[j]) {
        assert r[j] in multiset(t);
        assert r[j] in multiset(s[1..]) + multiset{x};
        if r[j] == x {
        } else {
          assert r[j] in s[1..];
        }
      }
    }
  }

  /** The output of `SortDesc` is in descending order: this is the `reverse=True` promise. */
  lemma {:induction false} SortDescSorted<T(!new)>(s: seq<T>, geq: (T, T) -> bool)
    requires TotalPreorder(geq)
    ensures SortedDesc(SortDesc(s, geq), geq)
  {
    if s != [] {
      SortDescSorted(s[1..], geq);
      InsertSorted(s[0], SortDesc(s[1..], geq), geq);
    }
  }

  /** `a` and `b` have equal keys: each is at least the other. */
  predicate Tied<T>(a: T, b: T, geq: (T, T) -> bool) {
    geq(a, b) && geq(b, a)
  }

  /** `[a]` when `a`'s key equals `v`'s, else nothing. */
  function TieOf<T>(a: T, v: T, geq: (T, T) -> bool): seq<T> {
    if Tied(a, v, geq) then [a] else []
  }

  /** The elements of `s` whose key equals that of `v`, in their order in `s`. */
  function Ties<T>(s: seq<T>, v: T, geq: (T, T) -> bool): seq<T> {
    if s == [] then [] else TieOf(s[0], v, geq) + Ties(s[1..], v, geq)
  }

  lemma TiesCons<T>(a: T, s: seq<T>, v: T, geq: (T, T) -> bool)
    ensures Ties([a] + s, v, geq) == TieOf(a, v, geq) + Ties(s, v, geq)
  {
    assert ([a] + s)[1..] == s;
  }

  /** Of two elements where the first is not at least the second, at most one has `v`'s key. */
  lemma NotBothTied<T(!new)>(x: T, y: T, v: T, geq: (T, T) -> bool)
    requires TotalPreorder(geq)
    requires !geq(x, y)
    ensures TieOf(x, v, geq) == [] || TieOf(y, v, geq) == []
  {
  }

  /** Inserting puts `x` ahead of every element with the same key. */
  lemma {:induction false} InsertTies<T(!new)>(x: T, s: seq<T>, v: T, geq: (T, T) -> bool)
    requires TotalPreorder(geq)
    ensures Ties(Insert(x, s, geq), v, geq) == TieOf(x, v, geq) + Ties(s, v, geq)
  {
    if s == [] || geq(x, s[0]) {
      TiesCons(x, s, v, geq);
    } else {
      InsertTies(x, s[1..], v, geq);
      NotBothTied(x, s[0], v, geq);
      TiesPast(s[0], Insert(x, s[1..], geq), s[1..], x, v, geq);
      assert Insert(x, s, geq) == [s[0]] + Insert(x, s[1..], geq);
      assert s == [s[0]] + s[1..];
    }
  }

  /** An element whose key differs from `x`'s key class can be passed over without reordering the ties. */
  lemma TiesPast<T>(a: T, t: seq<T>, u: seq<T>, x: T, v: T, geq: (T, T) -> bool)
    requires TieOf(x, v, geq) == [] || TieOf(a, v, geq) == []
    requires Ties(t, v, geq) == TieOf(x, v, geq) + Ties(u, v, geq)
    ensures Ties([a] + t, v, geq) == TieOf(x, v, geq) + Ties([a] + u, v, geq)
  {
    TiesCons(a, t, v, geq);
    TiesCons(a, u, v, geq);
    if TieOf(a, v, geq) == [] {
      assert Ties([a] + t, v, geq) == Ties(t, v, geq);
      assert Ties([a] + u, v, geq) == Ties(u, v, geq);
    } else {
      assert Ties(t, v, geq) == Ties(u, v, geq);
    }
  }

  /**
   * The sort is stable: the elements with any one key come out in the
   * order they went in.
   */
  lemma {:induction false} SortDescStable<T(!new)>(s: seq<T>, v: T, geq: (T, T) -> bool)
    requires TotalPreorder(geq)
    ensures Ties(SortDesc(s, geq), v, geq) == Ties(s, v, geq)
  {
    if s != [] {
      SortDescStable(s[1..], v, geq);
      InsertTies(s[0], SortDesc(s[1..], geq), v, geq);
    }
  }
}
