/** The browser's bounded event window: each delivery is filtered in, sorted and
    cut, and the window stays the newest part of everything seen. */
module BoundedMerge {
  import opened SortedLists

  const WINDOW := 160

  datatype Event = Event(id: int, sequence: int, body: int)

  predicate InOrder(a: Event, b: Event) { a.sequence < b.sequence }

  /** One id per sequence, and one event per id. */
  ghost predicate OneToOne(events: set<Event>) {
    forall a, b | a in events && b in events && (a.id == b.id || a.sequence == b.sequence) :: a == b
  }

  /** `xs.slice(-n)`. */
  function LastN<T>(xs: seq<T>, n: nat): seq<T> {
    if |xs| <= n then xs else xs[|xs| - n..]
  }

  lemma OneToOneTotal(events: set<Event>)
    requires OneToOne(events)
    ensures StrictOrder(InOrder) && TotalOn(InOrder, events)
  {
  }

  /** The newest events of a set, oldest first. */
  ghost function Newest(events: set<Event>): seq<Event>
    requires OneToOne(events)
  {
    OneToOneTotal(events);
    LastN(Listing(InOrder, events), WINDOW)
  }

  /** The filter keeps an entry when no earlier one has its id or its sequence. */
  method KeepFirst(all: seq<Event>) returns (kept: seq<Event>)
    requires OneToOne(Elements(all))
    ensures Elements(kept) == Elements(all)
  {
    kept := [];
    var i := 0;
    while i < |all|
      invariant 0 <= i <= |all| && Elements(kept) == Elements(all[..i])
    {
      var j := 0;
      while all[j].id != all[i].id && all[j].sequence != all[i].sequence
        invariant 0 <= j <= i
        invariant forall k | 0 <= k < j :: all[k].id != all[i].id && all[k].sequence != all[i].sequence
        decreases i - j
      {
        j := j + 1;
      }
      ghost var before := kept;
      if j == i { kept := kept + [all[i]]; }
      assert all[j] in Elements(all) && all[i] in Elements(all);
      assert all[..i + 1] == all[..i] + [all[i]];
      assert j < i ==> all[j] in all[..i];
      assert Elements(kept) == Elements(before) + {all[i]};
      i := i + 1;
    }
    assert all[..i] == all;
  }

  /** One delivery: append, filter, sort, cut. */
  method Merge(events: seq<Event>, incoming: Event) returns (window: seq<Event>)
    requires OneToOne(Elements(events) + {incoming})
    ensures window == Newest(Elements(events) + {incoming})
  {
    ElementsAppend(events, [incoming]);
    assert Elements([incoming]) == {incoming};
    var kept := KeepFirst(events + [incoming]);
    OneToOneTotal(Elements(events) + {incoming});
    assert forall x | x in kept :: x in Elements(kept);
    var sorted := SortDistinct(InOrder, kept);
    SortedUnique(InOrder, sorted, Listing(InOrder, Elements(events) + {incoming}));
    window := LastN(sorted, WINDOW);
  }

  // ---- Cutting early loses nothing ------------------------------------------------

  /** Inserting above a prefix leaves the prefix alone. */
  lemma {:induction false} InsertAbove(x: Event, d: seq<Event>, w: seq<Event>)
    requires forall y | y in d :: InOrder(y, x)
    ensures Insert(InOrder, x, d + w) == d + Insert(InOrder, x, w)
    decreases |d|
  {
    if d == [] {
      assert d + w == w;
    } else {
      assert d[0] in d && (d + w)[1..] == d[1..] + w;
      InsertAbove(x, d[1..], w);
      assert d + Insert(InOrder, x, w) == [d[0]] + (d[1..] + Insert(InOrder, x, w));
    }
  }

  /** Inserting at or below the top of a prefix leaves what follows alone. */
  lemma {:induction false} InsertBelow(x: Event, d: seq<Event>, w: seq<Event>)
    requires d != [] && !InOrder(d[|d| - 1], x) && (x.sequence == d[|d| - 1].sequence ==> x == d[|d| - 1])
    ensures Insert(InOrder, x, d + w) == Insert(InOrder, x, d) + w
    decreases |d|
  {
    assert (d + w)[1..] == d[1..] + w;
    if InOrder(x, d[0]) {
      assert [x] + (d + w) == ([x] + d) + w;
    } else if x != d[0] {
      InsertBelow(x, d[1..], w);
      assert [d[0]] + (Insert(InOrder, x, d[1..]) + w) == ([d[0]] + Insert(InOrder, x, d[1..])) + w;
    }
  }

  lemma InsertSize(x: Event, xs: seq<Event>)
    ensures |xs| <= |Insert(InOrder, x, xs)| <= |xs| + 1
  {
    if xs != [] { InsertSize(x, xs[1..]); }
  }

  /** Keeping only the last `|w|` before an insertion does not change the last
      `|w|` after it. */
  lemma CutThenInsert(d: seq<Event>, w: seq<Event>, x: Event)
    requires Sorted(InOrder, d + w) && OneToOne(Elements(d + w) + {x}) && d != []
    ensures LastN(Insert(InOrder, x, w), |w|) == LastN(Insert(InOrder, x, d + w), |w|)
  {
    hide Sorted, OneToOne, LastN, Insert, Elements, InOrder;
    InsertSize(x, w);
    PrefixBelow(d, w, x);
    if InOrder(d[|d| - 1], x) {
      InsertAbove(x, d, w);
      LastOfConcat(d, Insert(InOrder, x, w), |w|);
    } else {
      InsertBelow(x, d, w);
      LastOfConcat(Insert(InOrder, x, d), w, |w|);
      InsertFront(x, w);
      LastOfConcat([x], w, |w|);
    }
  }

  lemma LastOfConcat<T>(d: seq<T>, t: seq<T>, n: nat)
    requires n <= |t|
    ensures LastN(d + t, n) == LastN(t, n)
  {
  }

  lemma InsertFront(x: Event, w: seq<Event>)
    requires w != [] ==> InOrder(x, w[0])
    ensures Insert(InOrder, x, w) == [x] + w
  {
  }

  lemma PrefixBelow(d: seq<Event>, w: seq<Event>, x: Event)
    requires Sorted(InOrder, d + w) && OneToOne(Elements(d + w) + {x}) && d != []
    ensures InOrder(d[|d| - 1], x) ==> forall y | y in d :: InOrder(y, x)
    ensures !InOrder(d[|d| - 1], x) && w != [] ==> InOrder(x, w[0])
    ensures x.sequence == d[|d| - 1].sequence ==> x == d[|d| - 1]
  {
    var xs, n := d + w, |d| - 1;
    assert xs[n] == d[n] && xs[n] in Elements(xs);
    forall y | y in d ensures y == d[n] || InOrder(y, d[n]) {
      var i :| 0 <= i < |d| && d[i] == y;
      if i < n { assert InOrder(xs[i], xs[n]); }
    }
    if w != [] { assert InOrder(xs[n], xs[n + 1]) && xs[n + 1] == w[0]; }
  }

  lemma ListingInsert(xs: seq<Event>, x: Event)
    requires Sorted(InOrder, xs) && OneToOne(Elements(xs) + {x})
    ensures StrictOrder(InOrder) && TotalOn(InOrder, Elements(xs) + {x})
    ensures Listing(InOrder, Elements(xs) + {x}) == Insert(InOrder, x, xs)
  {
    OneToOneTotal(Elements(xs) + {x});
    InsertLists(InOrder, x, xs, Elements(xs));
    SortedUnique(InOrder, Insert(InOrder, x, xs), Listing(InOrder, Elements(xs) + {x}));
  }

  lemma NewestStep(seen: set<Event>, x: Event)
    requires OneToOne(seen + {x}) && OneToOne(seen)
    ensures OneToOne(Elements(Newest(seen)) + {x})
    ensures Newest(Elements(Newest(seen)) + {x}) == Newest(seen + {x})
  {
    OneToOneTotal(seen);
    var all, cut := Listing(InOrder, seen), Newest(seen);
    CutSorted(all);
    assert OneToOne(Elements(cut) + {x});
    ListingInsert(all, x);
    ListingInsert(cut, x);
    CutStep(all, x);
    hide Sorted, OneToOne, TotalOn, StrictOrder, Insert, LastN, Elements;
  }

  lemma CutStep(all: seq<Event>, x: Event)
    requires Sorted(InOrder, all) && OneToOne(Elements(all) + {x})
    ensures LastN(Insert(InOrder, x, LastN(all, WINDOW)), WINDOW) == LastN(Insert(InOrder, x, all), WINDOW)
  {
    hide Sorted, OneToOne, Insert, Elements;
    if |all| > WINDOW {
      var cut := LastN(all, WINDOW);
      assert all == all[..|all| - WINDOW] + cut;
      CutThenInsert(all[..|all| - WINDOW], cut, x);
    }
  }

  lemma CutSorted(all: seq<Event>)
    requires Sorted(InOrder, all)
    ensures Sorted(InOrder, LastN(all, WINDOW)) && Elements(LastN(all, WINDOW)) <= Elements(all)
  {
  }

  lemma SeenGrows(deliveries: seq<Event>, i: nat)
    requires i < |deliveries| && OneToOne(Elements(deliveries))
    ensures Elements(deliveries[..i + 1]) == Elements(deliveries[..i]) + {deliveries[i]}
    ensures OneToOne(Elements(deliveries[..i + 1])) && OneToOne(Elements(deliveries[..i]))
  {
    assert deliveries[..i + 1] == deliveries[..i] + [deliveries[i]];
    ElementsAppend(deliveries[..i], [deliveries[i]]);
    assert Elements([deliveries[i]]) == {deliveries[i]};
    assert forall x | x in deliveries[..i + 1] :: x in Elements(deliveries);
  }

  /** Folding the handler over any order and repetition of deliveries gives the
      160 newest distinct events seen, strictly increasing. */
  method MergeAll(deliveries: seq<Event>) returns (window: seq<Event>)
    requires OneToOne(Elements(deliveries))
    ensures window == Newest(Elements(deliveries))
    ensures Sorted(InOrder, window)
    ensures |window| == if |Elements(deliveries)| <= WINDOW then |Elements(deliveries)| else WINDOW
    ensures forall x, y | x in window && y in Elements(deliveries) && y !in window :: InOrder(y, x)
  {
    hide Newest, OneToOne, Sorted;
    window := [];
    var i := 0;
    assert Elements(deliveries[..0]) == {};
    NewestOfNone();
    while i < |deliveries|
      invariant 0 <= i <= |deliveries|
      invariant OneToOne(Elements(deliveries[..i])) && window == Newest(Elements(deliveries[..i]))
    {
      SeenGrows(deliveries, i);
      NewestStep(Elements(deliveries[..i]), deliveries[i]);
      window := Merge(window, deliveries[i]);
      i := i + 1;
    }
    assert deliveries[..i] == deliveries;
    NewestIsTop(Elements(deliveries));
  }

  lemma NewestOfNone()
    ensures OneToOne({}) && Newest({}) == []
  {
    OneToOneTotal({});
    SortedLength(InOrder, Listing(InOrder, {}));
  }

  lemma NewestIsTop(events: set<Event>)
    requires OneToOne(events)
    ensures Sorted(InOrder, Newest(events)) && |Newest(events)| == (if |events| <= WINDOW then |events| else WINDOW)
    ensures forall x, y | x in Newest(events) && y in events && y !in Newest(events) :: InOrder(y, x)
  {
    OneToOneTotal(events);
    var all := Listing(InOrder, events);
    SortedLength(InOrder, all);
    CutSorted(all);
    forall x, y | x in Newest(events) && y in events && y !in Newest(events) ensures InOrder(y, x) {
      assert y in Elements(all);
      CutIsTop(all, x, y);
    }
  }

  lemma CutIsTop(all: seq<Event>, x: Event, y: Event)
    requires Sorted(InOrder, all) && x in LastN(all, WINDOW) && y in all && y !in LastN(all, WINDOW)
    ensures InOrder(y, x)
  {
    var cut := LastN(all, WINDOW);
    var shift := |all| - |cut|;
    var j :| 0 <= j < |all| && all[j] == y;
    var i :| 0 <= i < |cut| && cut[i] == x;
    assert all == all[..shift] + cut;
    assert forall k | shift <= k < |all| :: all[k] in cut;
    assert all[shift + i] == x;
  }
}
