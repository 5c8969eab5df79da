/** Strictly sorted lists of distinct elements, shared by the span join, the
    knowledge ranking and the browser's event window. */
module SortedLists {

  ghost predicate StrictOrder<T(!new)>(less: (T, T) -> bool) {
    && (forall x :: !less(x, x))
    && (forall x, y, z :: less(x, y) && less(y, z) ==> less(x, z))
  }

  /** Any two different elements of the set are ordered. */
  ghost predicate TotalOn<T(!new)>(less: (T, T) -> bool, s: set<T>) {
    forall x, y | x in s && y in s && x != y :: less(x, y) || less(y, x)
  }

  predicate Sorted<T>(less: (T, T) -> bool, xs: seq<T>) {
    forall i, j | 0 <= i < j < |xs| :: less(xs[i], xs[j])
  }

  ghost function Elements<T>(xs: seq<T>): set<T> {
    set x | x in xs
  }

  lemma ElementsAppend<T>(xs: seq<T>, ys: seq<T>)
    ensures Elements(xs + ys) == Elements(xs) + Elements(ys)
  {
  }

  /** `xs` lists exactly `s`, in order. */
  ghost predicate Lists<T(!new)>(less: (T, T) -> bool, xs: seq<T>, s: set<T>) {
    Sorted(less, xs) && Elements(xs) == s
  }

  function Insert<T(==)>(less: (T, T) -> bool, x: T, xs: seq<T>): seq<T> {
    if xs == [] || less(x, xs[0]) then [x] + xs
    else if x == xs[0] then xs
    else [xs[0]] + Insert(less, x, xs[1..])
  }

  lemma {:induction false} InsertElements<T(!new)>(less: (T, T) -> bool, x: T, xs: seq<T>)
    ensures Elements(Insert(less, x, xs)) == Elements(xs) + {x}
    decreases |xs|
  {
    if xs == [] {
      assert Insert(less, x, xs) == [x];
    } else {
      assert xs == [xs[0]] + xs[1..];
      var rest := Insert(less, x, xs[1..]);
      InsertElements(less, x, xs[1..]);
      assert Elements(xs) == {xs[0]} + Elements(xs[1..]);
      assert Elements([xs[0]] + rest) == {xs[0]} + Elements(rest);
      assert Elements([x] + xs) == {x} + Elements(xs);
    }
  }

  lemma SortedCons<T(!new)>(less: (T, T) -> bool, x: T, xs: seq<T>)
    ensures Sorted(less, [x] + xs) <==> Sorted(less, xs) && forall y | y in xs :: less(x, y)
  {
    var all := [x] + xs;
    assert forall i | 0 <= i < |xs| :: xs[i] == all[i + 1];
    if Sorted(less, all) {
      forall y | y in xs ensures less(x, y) {
        var i :| 0 <= i < |xs| && xs[i] == y;
        assert less(all[0], all[i + 1]);
      }
      forall i, j | 0 <= i < j < |xs| ensures less(xs[i], xs[j]) {
        assert less(all[i + 1], all[j + 1]);
      }
    }
  }

  lemma {:induction false} InsertSorted<T(!new)>(less: (T, T) -> bool, x: T, xs: seq<T>)
    requires StrictOrder(less) && Sorted(less, xs)
    requires forall y | y in xs && y != x :: less(x, y) || less(y, x)
    ensures Sorted(less, Insert(less, x, xs))
    decreases |xs|
  {
    if xs != [] {
      var rest := xs[1..];
      assert xs == [xs[0]] + rest;
      SortedCons(less, xs[0], rest);
      if less(x, xs[0]) {
        SortedCons(less, x, xs);
      } else if x != xs[0] {
        InsertSorted(less, x, rest);
        InsertElements(less, x, rest);
        forall y | y in Insert(less, x, rest) ensures less(xs[0], y) {
          assert y in Elements(rest) + {x};
        }
        SortedCons(less, xs[0], Insert(less, x, rest));
      }
    }
  }

  lemma InsertLists<T(!new)>(less: (T, T) -> bool, x: T, xs: seq<T>, s: set<T>)
    requires StrictOrder(less) && Lists(less, xs, s) && TotalOn(less, s + {x})
    ensures Lists(less, Insert(less, x, xs), s + {x})
  {
    InsertElements(less, x, xs);
    assert forall y | y in xs :: y in s + {x};
    InsertSorted(less, x, xs);
  }

  /** Order and elements determine the list. */
  lemma {:induction false} SortedUnique<T(!new)>(less: (T, T) -> bool, xs: seq<T>, ys: seq<T>)
    requires StrictOrder(less) && Sorted(less, xs) && Sorted(less, ys)
    requires Elements(xs) == Elements(ys)
    ensures xs == ys
    decreases |xs|
  {
    assert xs != [] ==> xs[0] in Elements(xs);
    assert ys != [] ==> ys[0] in Elements(ys);
    if xs != [] {
      var j :| 0 <= j < |ys| && ys[j] == xs[0];
      var i :| 0 <= i < |xs| && xs[i] == ys[0];
      assert i == 0 && xs[0] == ys[0];
      RestElements(less, xs);
      RestElements(less, ys);
      SortedUnique(less, xs[1..], ys[1..]);
    }
  }

  lemma RestElements<T(!new)>(less: (T, T) -> bool, xs: seq<T>)
    requires StrictOrder(less) && Sorted(less, xs) && xs != []
    ensures Elements(xs[1..]) == Elements(xs) - {xs[0]}
  {
    assert xs == [xs[0]] + xs[1..];
    assert forall y | y in xs[1..] :: less(xs[0], y);
  }

  lemma {:induction false} SortedLength<T(!new)>(less: (T, T) -> bool, xs: seq<T>)
    requires StrictOrder(less) && Sorted(less, xs)
    ensures |Elements(xs)| == |xs|
    decreases |xs|
  {
    if xs != [] {
      assert xs == [xs[0]] + xs[1..];
      RestElements(less, xs);
      SortedLength(less, xs[1..]);
      assert xs[0] in Elements(xs);
    }
  }

  /** The elements of a set that precede `x`. */
  ghost function Preceding<T>(less: (T, T) -> bool, s: set<T>, x: T): set<T> {
    set y | y in s && less(y, x)
  }

  /** An element stands behind exactly the elements that precede it. */
  lemma RankIsPosition<T(!new)>(less: (T, T) -> bool, xs: seq<T>, k: nat)
    requires StrictOrder(less) && Sorted(less, xs) && k < |xs|
    ensures |Preceding(less, Elements(xs), xs[k])| == k
  {
    var ahead := Preceding(less, Elements(xs), xs[k]);
    SortedLength(less, xs[..k]);
    forall y ensures y in ahead <==> y in Elements(xs[..k]) {
      if y in ahead {
        var i :| 0 <= i < |xs| && xs[i] == y;
        assert i < k && xs[..k][i] == y;
      }
    }
    assert ahead == Elements(xs[..k]);
  }

  lemma {:induction false} SubsetOfSameSize<T>(s: set<T>, t: set<T>)
    requires s <= t && |s| == |t|
    ensures s == t
  {
    assert |t - s| == |t| - |s|;
  }

  /** The sorted listing of a finite set. */
  ghost function Listing<T(!new)>(less: (T, T) -> bool, s: set<T>): (xs: seq<T>)
    requires StrictOrder(less) && TotalOn(less, s)
    ensures Lists(less, xs, s)
  {
    if s == {} then []
    else
      var x :| x in s;
      InsertLists(less, x, Listing(less, s - {x}), s - {x});
      assert s - {x} + {x} == s;
      Insert(less, x, Listing(less, s - {x}))
  }

  /** Some element of a set, as an iteration in no particular order takes it. */
  method Pick<T>(s: set<T>) returns (x: T)
    requires s != {}
    ensures x in s
  {
    x :| x in s;
  }

  /** The listing of a list's elements, built by insertion in any order. */
  method SortDistinct<T(==, !new)>(less: (T, T) -> bool, items: seq<T>) returns (xs: seq<T>)
    requires forall x, y | x in items && y in items && x != y :: less(x, y) || less(y, x)
    requires StrictOrder(less)
    ensures Lists(less, xs, Elements(items))
  {
    xs := [];
    var i := 0;
    while i < |items|
      invariant 0 <= i <= |items|
      invariant Lists(less, xs, Elements(items[..i]))
    {
      InsertLists(less, items[i], xs, Elements(items[..i]));
      assert Elements(items[..i + 1]) == Elements(items[..i]) + {items[i]};
      xs := Insert(less, items[i], xs);
      i := i + 1;
    }
    assert items[..i] == items;
  }
}
