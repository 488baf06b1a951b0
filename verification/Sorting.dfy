/** Stable sorting by the `(order, id)` key, and why a sorted list is determined by what it holds. */
module Sorting {
  import opened Strings

  datatype SortKey = SortKey(order: string, id: string)

  predicate KeyLess(a: SortKey, b: SortKey) {
    Less(a.order, b.order) || (a.order == b.order && Less(a.id, b.id))
  }

  lemma KeyLessTotal(a: SortKey, b: SortKey)
    ensures KeyLess(a, b) || a == b || KeyLess(b, a)
  {
    LessTotal(a.order, b.order);
    LessTotal(a.id, b.id);
  }

  lemma KeyLessTransitive(a: SortKey, b: SortKey, c: SortKey)
    requires KeyLess(a, b) && KeyLess(b, c)
    ensures KeyLess(a, c)
  {
    hide Less;
    if Less(a.order, b.order) && Less(b.order, c.order) {
      LessTransitive(a.order, b.order, c.order);
    } else if a.order == b.order == c.order {
      LessTransitive(a.id, b.id, c.id);
    }
  }

  lemma KeyLessIrreflexive(a: SortKey)
    ensures !KeyLess(a, a)
  {
    LessIrreflexive(a.order);
    LessIrreflexive(a.id);
  }

  function Insert<T>(key: T -> SortKey, x: T, xs: seq<T>): seq<T> {
    if xs == [] || KeyLess(key(x), key(xs[0])) then [x] + xs else [xs[0]] + Insert(key, x, xs[1..])
  }

  /** What Python's stable `sort(key=...)` returns. */
  function Sort<T>(key: T -> SortKey, xs: seq<T>): seq<T> {
    if xs == [] then [] else Insert(key, xs[|xs| - 1], Sort(key, xs[..|xs| - 1]))
  }

  ghost predicate Sorted<T>(key: T -> SortKey, xs: seq<T>) {
    forall i, j | 0 <= i < j < |xs| :: KeyLess(key(xs[i]), key(xs[j]))
  }

  ghost predicate DistinctKeys<T>(key: T -> SortKey, xs: seq<T>) {
    forall i, j | 0 <= i < j < |xs| :: key(xs[i]) != key(xs[j])
  }

  lemma {:induction false} InsertContents<T>(key: T -> SortKey, x: T, xs: seq<T>, y: T)
    ensures y in Insert(key, x, xs) <==> y == x || y in xs
  {
    if xs != [] && !KeyLess(key(x), key(xs[0])) {
      InsertContents(key, x, xs[1..], y);
      assert xs == [xs[0]] + xs[1..];
    }
  }

  lemma {:induction false} SortContents<T>(key: T -> SortKey, xs: seq<T>, y: T)
    ensures y in Sort(key, xs) <==> y in xs
  {
    if xs != [] {
      SortContents(key, xs[..|xs| - 1], y);
      InsertContents(key, xs[|xs| - 1], Sort(key, xs[..|xs| - 1]), y);
      assert xs == xs[..|xs| - 1] + [xs[|xs| - 1]];
    }
  }

  lemma SortedCons<T>(key: T -> SortKey, x: T, xs: seq<T>)
    requires Sorted(key, xs) && forall y | y in xs :: KeyLess(key(x), key(y))
    ensures Sorted(key, [x] + xs)
  {
  }

  lemma {:induction false} InsertSorted<T>(key: T -> SortKey, x: T, xs: seq<T>)
    requires Sorted(key, xs) && forall y | y in xs :: key(y) != key(x)
    ensures Sorted(key, Insert(key, x, xs))
  {
    if xs == [] {
    } else if KeyLess(key(x), key(xs[0])) {
      forall y | y in xs ensures KeyLess(key(x), key(y)) {
        FirstIsLeast(key, xs, y);
        if y != xs[0] {
          KeyLessTransitive(key(x), key(xs[0]), key(y));
        }
      }
      SortedCons(key, x, xs);
    } else {
      assert xs[0] in xs;
      KeyLessTotal(key(x), key(xs[0]));
      InsertSorted(key, x, xs[1..]);
      RestHolds(key, xs);
      forall y | y in Insert(key, x, xs[1..]) ensures KeyLess(key(xs[0]), key(y)) {
        InsertContents(key, x, xs[1..], y);
        if y != x {
          FirstIsLeast(key, xs, y);
        }
      }
      SortedCons(key, xs[0], Insert(key, x, xs[1..]));
    }
  }

  lemma {:induction false} SortIsSorted<T>(key: T -> SortKey, xs: seq<T>)
    requires DistinctKeys(key, xs)
    ensures Sorted(key, Sort(key, xs))
  {
    if xs != [] {
      var front, last := xs[..|xs| - 1], xs[|xs| - 1];
      SortIsSorted(key, front);
      forall y | y in Sort(key, front) ensures key(y) != key(last) {
        SortContents(key, front, y);
        var i :| 0 <= i < |front| && front[i] == y;
      }
      InsertSorted(key, last, Sort(key, front));
    }
  }

  /** Two sorted lists holding the same things are the same list. */
  lemma {:induction false} SortedIsUnique<T>(key: T -> SortKey, xs: seq<T>, ys: seq<T>)
    requires Sorted(key, xs) && Sorted(key, ys) && forall z :: z in xs <==> z in ys
    ensures xs == ys
  {
    if xs == [] || ys == [] {
      NoMembers(xs);
      NoMembers(ys);
    } else {
      assert xs[0] in xs && ys[0] in ys;
      FirstIsLeast(key, xs, ys[0]);
      FirstIsLeast(key, ys, xs[0]);
      KeyLessIrreflexive(key(xs[0]));
      if xs[0] != ys[0] {
        KeyLessTransitive(key(xs[0]), key(ys[0]), key(xs[0]));
      }
      RestHolds(key, xs);
      RestHolds(key, ys);
      SortedIsUnique(key, xs[1..], ys[1..]);
      assert xs == [xs[0]] + xs[1..] && ys == [ys[0]] + ys[1..];
    }
  }

  lemma NoMembers<T>(xs: seq<T>)
    ensures (forall z :: z !in xs) ==> xs == []
  {
    if xs != [] {
      assert xs[0] in xs;
    }
  }

  lemma FirstIsLeast<T>(key: T -> SortKey, xs: seq<T>, y: T)
    requires Sorted(key, xs) && y in xs
    ensures xs[0] == y || KeyLess(key(xs[0]), key(y))
  {
  }

  lemma RestHolds<T>(key: T -> SortKey, xs: seq<T>)
    requires Sorted(key, xs) && xs != []
    ensures Sorted(key, xs[1..])
    ensures forall z :: z in xs[1..] <==> z in xs && z != xs[0]
  {
    KeyLessIrreflexive(key(xs[0]));
    forall z ensures z in xs[1..] <==> z in xs && z != xs[0] {
      if z in xs && z != xs[0] {
        var j :| 0 <= j < |xs| && xs[j] == z;
        assert xs[1..][j - 1] == z;
      }
    }
  }

  // ---- Filtering and mapping -------------------------------------------------------------------

  function Filter<T>(p: T -> bool, xs: seq<T>): seq<T> {
    if xs == [] then []
    else Filter(p, xs[..|xs| - 1]) + (if p(xs[|xs| - 1]) then [xs[|xs| - 1]] else [])
  }

  lemma {:induction false} FilterContents<T>(p: T -> bool, xs: seq<T>, y: T)
    ensures y in Filter(p, xs) <==> y in xs && p(y)
  {
    if xs != [] {
      FilterContents(p, xs[..|xs| - 1], y);
      assert xs == xs[..|xs| - 1] + [xs[|xs| - 1]];
    }
  }

  lemma {:induction false} FilterSorted<T>(key: T -> SortKey, p: T -> bool, xs: seq<T>)
    requires Sorted(key, xs)
    ensures Sorted(key, Filter(p, xs))
  {
    if xs != [] {
      var front, last := xs[..|xs| - 1], xs[|xs| - 1];
      FilterSorted(key, p, front);
      forall y | y in Filter(p, front) ensures KeyLess(key(y), key(last)) {
        FilterContents(p, front, y);
        var i :| 0 <= i < |front| && front[i] == y;
      }
    }
  }

  lemma {:induction false} FilterDistinct<T>(key: T -> SortKey, p: T -> bool, xs: seq<T>)
    requires DistinctKeys(key, xs)
    ensures DistinctKeys(key, Filter(p, xs))
  {
    if xs != [] {
      var front, last := xs[..|xs| - 1], xs[|xs| - 1];
      FilterDistinct(key, p, front);
      forall y | y in Filter(p, front) ensures key(y) != key(last) {
        FilterContents(p, front, y);
        var i :| 0 <= i < |front| && front[i] == y;
      }
    }
  }

  function Map<T, U>(f: T -> U, xs: seq<T>): (ys: seq<U>)
    ensures |ys| == |xs| && forall i | 0 <= i < |xs| :: ys[i] == f(xs[i])
  {
    seq(|xs|, i requires 0 <= i < |xs| => f(xs[i]))
  }

  lemma MapContents<T, U>(f: T -> U, xs: seq<T>)
    ensures forall y :: y in Map(f, xs) <==> exists x :: x in xs && f(x) == y
  {
    forall y ensures y in Map(f, xs) <==> exists x :: x in xs && f(x) == y {
      if y in Map(f, xs) {
        var i :| 0 <= i < |xs| && Map(f, xs)[i] == y;
        assert xs[i] in xs && f(xs[i]) == y;
      }
      if x :| x in xs && f(x) == y {
        var i :| 0 <= i < |xs| && xs[i] == x;
        assert Map(f, xs)[i] == y;
      }
    }
  }

  lemma MapConcat<T, U>(f: T -> U, xs: seq<T>, ys: seq<T>)
    ensures Map(f, xs + ys) == Map(f, xs) + Map(f, ys)
  {
  }

  lemma {:induction false} InsertCommutesWithMap<T, U>(key: T -> SortKey, keyOf: U -> SortKey, f: T -> U, x: T, xs: seq<T>)
    requires forall y | y in [x] + xs :: keyOf(f(y)) == key(y)
    ensures Insert(keyOf, f(x), Map(f, xs)) == Map(f, Insert(key, x, xs))
  {
    assert x in [x] + xs && forall y | y in xs :: y in [x] + xs;
    if xs != [] {
      assert Map(f, xs) == [f(xs[0])] + Map(f, xs[1..]);
      if !KeyLess(key(x), key(xs[0])) {
        InsertCommutesWithMap(key, keyOf, f, x, xs[1..]);
      }
    }
  }

  /** Sorting rendered things by a key that survives the rendering is rendering the sorted. */
  lemma {:induction false} SortCommutesWithMap<T, U>(key: T -> SortKey, keyOf: U -> SortKey, f: T -> U, xs: seq<T>)
    requires forall y | y in xs :: keyOf(f(y)) == key(y)
    ensures Sort(keyOf, Map(f, xs)) == Map(f, Sort(key, xs))
  {
    if xs != [] {
      var front, last := xs[..|xs| - 1], xs[|xs| - 1];
      assert Map(f, xs)[..|xs| - 1] == Map(f, front);
      SortCommutesWithMap(key, keyOf, f, front);
      forall y | y in [last] + Sort(key, front) ensures keyOf(f(y)) == key(y) {
        SortContents(key, front, y);
      }
      InsertCommutesWithMap(key, keyOf, f, last, Sort(key, front));
    }
  }

  lemma {:induction false} FilterCommutesWithMap<T, U>(p: T -> bool, q: U -> bool, f: T -> U, xs: seq<T>)
    requires forall y | y in xs :: q(f(y)) == p(y)
    ensures Filter(q, Map(f, xs)) == Map(f, Filter(p, xs))
  {
    if xs != [] {
      var front, last := xs[..|xs| - 1], xs[|xs| - 1];
      assert Map(f, xs)[..|xs| - 1] == Map(f, front);
      FilterCommutesWithMap(p, q, f, front);
    }
  }
}
