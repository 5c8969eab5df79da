/** Parent-child spans joined through a sliding lookback window. */
module TraceJoin {
  import opened Options
  import opened SortedLists

  datatype Span = Span(trace: int, id: int, parent: Option<int>, service: int, endTime: int, failed: bool, charge: bool)

  datatype Line = Line(start: nat, end: nat, spans: seq<Span>)

  type SpanKey = (int, int)

  datatype Entry = Entry(span: Span, start: nat, end: nat)

  /** Server-bound edges, by (source, target) service. */
  datatype Graph = Graph(edges: map<(int, int), int>, payment: int)

  datatype Obs =
    | ComponentError(span: Span, edge: int)
    | Relation(parent: Span, child: Span, edge: int)

  function KeyOf(s: Span): SpanKey { (s.trace, s.id) }

  // ---- The span index ---------------------------------------------------------

  function AddLine(index: map<SpanKey, Entry>, line: Line, n: nat): map<SpanKey, Entry>
    requires n <= |line.spans|
  {
    if n == 0 then index
    else AddLine(index, line, n - 1)[KeyOf(line.spans[n - 1]) := Entry(line.spans[n - 1], line.start, line.end)]
  }

  /** The `spans` dictionary: later occurrences of a span id replace earlier ones. */
  function Index(lines: seq<Line>): map<SpanKey, Entry> {
    if lines == [] then map[]
    else
      var last := lines[|lines| - 1];
      AddLine(Index(lines[..|lines| - 1]), last, |last.spans|)
  }

  method BuildIndex(lines: seq<Line>) returns (index: map<SpanKey, Entry>)
    ensures index == Index(lines)
  {
    index := map[];
    var i := 0;
    while i < |lines|
      invariant 0 <= i <= |lines| && index == Index(lines[..i])
    {
      ghost var before := index;
      var j := 0;
      while j < |lines[i].spans|
        invariant 0 <= j <= |lines[i].spans| && index == AddLine(before, lines[i], j)
      {
        var span := lines[i].spans[j];
        index := index[KeyOf(span) := Entry(span, lines[i].start, lines[i].end)];
        j := j + 1;
      }
      assert lines[..i + 1][..i] == lines[..i];
      i := i + 1;
    }
    assert lines[..i] == lines;
  }

  /** Where spans occur. */
  ghost function Entries(lines: seq<Line>): set<Entry> {
    set i, j | 0 <= i < |lines| && 0 <= j < |lines[i].spans| ::
      Entry(lines[i].spans[j], lines[i].start, lines[i].end)
  }

  ghost predicate UniqueIds(lines: seq<Line>) {
    forall a, b | a in Entries(lines) && b in Entries(lines) && KeyOf(a.span) == KeyOf(b.span) :: a == b
  }

  ghost predicate Indexes(index: map<SpanKey, Entry>, entries: set<Entry>) {
    && (forall k | k in index :: index[k] in entries && KeyOf(index[k].span) == k)
    && (forall e | e in entries :: KeyOf(e.span) in index)
  }

  lemma {:induction false} LineIndexed(index: map<SpanKey, Entry>, line: Line, n: nat, before: set<Entry>)
    requires n <= |line.spans| && Indexes(index, before)
    ensures Indexes(AddLine(index, line, n), before + set j | 0 <= j < n :: Entry(line.spans[j], line.start, line.end))
  {
    if n > 0 { LineIndexed(index, line, n - 1, before); }
  }

  lemma {:induction false} IndexHoldsEntries(lines: seq<Line>)
    ensures Indexes(Index(lines), Entries(lines))
    decreases |lines|
  {
    if lines != [] {
      var n := |lines| - 1;
      IndexHoldsEntries(lines[..n]);
      LineIndexed(Index(lines[..n]), lines[n], |lines[n].spans|, Entries(lines[..n]));
      assert Entries(lines) == Entries(lines[..n]) + set j | 0 <= j < |lines[n].spans| :: Entry(lines[n].spans[j], lines[n].start, lines[n].end);
    }
  }

  /** With unique ids the index finds every span where it occurs. */
  lemma IndexFinds(lines: seq<Line>, e: Entry)
    requires UniqueIds(lines)
    ensures e in Entries(lines) <==> KeyOf(e.span) in Index(lines) && Index(lines)[KeyOf(e.span)] == e
  {
    IndexHoldsEntries(lines);
  }

  // ---- Observations of one line ----------------------------------------------

  function Max(a: nat, b: nat): nat { if a < b then b else a }

  predicate IsError(graph: Graph, s: Span) {
    s.failed && s.charge && (s.service, graph.payment) in graph.edges
  }

  /** `p` is the parent of `c` over a bound edge. */
  predicate Linked(graph: Graph, p: Span, c: Span) {
    p.trace == c.trace && c.parent == Some(p.id) && (p.service, c.service) in graph.edges
  }

  /** What a poll sees for the line that ends at `end`: the failed client spans
      of that line, and the pairs completed by it. */
  ghost function ObsAt(entries: set<Entry>, graph: Graph, end: nat): set<Obs> {
    (set e | e in entries && e.end == end && IsError(graph, e.span) ::
       ComponentError(e.span, graph.edges[(e.span.service, graph.payment)]))
    + (set p, c | p in entries && c in entries && Linked(graph, p.span, c.span) && Max(p.end, c.end) == end ::
         Relation(p.span, c.span, graph.edges[(p.span.service, c.span.service)]))
  }

  function Rank(o: Obs): (int, int, int, int, int) {
    match o
    case ComponentError(s, edge) => (s.endTime, 0, s.trace, s.id, edge)
    case Relation(p, c, edge) => (c.endTime, 1, c.trace, p.id, c.id)
  }

  /** Observation order: end time, then identity. */
  predicate ObsLess(a: Obs, b: Obs) {
    var p, q := Rank(a), Rank(b);
    p.0 < q.0 || (p.0 == q.0 &&
    (p.1 < q.1 || (p.1 == q.1 &&
    (p.2 < q.2 || (p.2 == q.2 &&
    (p.3 < q.3 || (p.3 == q.3 && p.4 < q.4)))))))
  }

  lemma ObsOrder()
    ensures StrictOrder(ObsLess)
  {
  }

  /** The entries an index stands for. */
  ghost function Found(index: map<SpanKey, Entry>): set<Entry> {
    set k | k in index :: index[k]
  }

  ghost predicate OneEntryPerId(entries: set<Entry>) {
    forall a, b | a in entries && b in entries && KeyOf(a.span) == KeyOf(b.span) :: a == b
  }

  lemma FoundUnique(lines: seq<Line>)
    ensures OneEntryPerId(Found(Index(lines)))
    ensures UniqueIds(lines) ==> Found(Index(lines)) == Entries(lines)
  {
    IndexHoldsEntries(lines);
    if UniqueIds(lines) {
      forall e | e in Entries(lines) ensures e in Found(Index(lines)) {
        IndexFinds(lines, e);
      }
    }
  }

  lemma ObsTotal(entries: set<Entry>, graph: Graph, end: nat)
    requires OneEntryPerId(entries)
    ensures TotalOn(ObsLess, ObsAt(entries, graph, end))
  {
    forall x, y | x in ObsAt(entries, graph, end) && y in ObsAt(entries, graph, end) && x != y
      ensures ObsLess(x, y) || ObsLess(y, x)
    {
      if x.ComponentError? && y.ComponentError? {
        var a :| a in entries && a.span == x.span;
        var b :| b in entries && b.span == y.span;
      } else if x.Relation? && y.Relation? {
        var a :| a in entries && a.span == x.child;
        var b :| b in entries && b.span == y.child;
        var c :| c in entries && c.span == x.parent;
        var d :| d in entries && d.span == y.parent;
      }
    }
  }

  /** The observation list of one line, whatever order the index is walked in. */
  ghost function ObsList(lines: seq<Line>, graph: Graph, end: nat): (xs: seq<Obs>)
    ensures Lists(ObsLess, xs, ObsAt(Found(Index(lines)), graph, end))
  {
    ObsOrder();
    FoundUnique(lines);
    ObsTotal(Found(Index(lines)), graph, end);
    Listing(ObsLess, ObsAt(Found(Index(lines)), graph, end))
  }

  lemma ObsListUnique(lines: seq<Line>, graph: Graph, end: nat, xs: seq<Obs>)
    requires Lists(ObsLess, xs, ObsAt(Found(Index(lines)), graph, end))
    ensures xs == ObsList(lines, graph, end)
  {
    ObsOrder();
    SortedUnique(ObsLess, xs, ObsList(lines, graph, end));
  }

  // ---- The join loop ------------------------------------------------------------

  /** An observation with the end of the line that completes it. */
  type Candidate = (nat, Obs)

  /** The candidates behind `prior` whose failed span or child is among `children`. */
  ghost function Candidates(entries: set<Entry>, children: set<Entry>, graph: Graph, prior: nat): set<Candidate> {
    (set e | e in children && e.end > prior && IsError(graph, e.span) ::
       (e.end, ComponentError(e.span, graph.edges[(e.span.service, graph.payment)])))
    + (set p, c | p in entries && c in children && Linked(graph, p.span, c.span) && Max(p.end, c.end) > prior ::
         (Max(p.end, c.end), Relation(p.span, c.span, graph.edges[(p.span.service, c.span.service)])))
  }

  lemma CandidatesAt(entries: set<Entry>, graph: Graph, prior: nat, end: nat, o: Obs)
    requires end > prior
    ensures (end, o) in Candidates(entries, entries, graph, prior) <==> o in ObsAt(entries, graph, end)
  {
    if (end, o) in Candidates(entries, entries, graph, prior) && o.Relation? {
      var p, c :| p in entries && c in entries && Linked(graph, p.span, c.span) && Max(p.end, c.end) == end && o.parent == p.span && o.child == c.span;
    }
  }

  lemma NoCandidates(entries: set<Entry>, graph: Graph, prior: nat)
    ensures Candidates(entries, {}, graph, prior) == {}
  {
  }

  lemma CandidatesGrow(entries: set<Entry>, children: set<Entry>, child: Entry, graph: Graph, prior: nat)
    ensures Candidates(entries, children + {child}, graph, prior) ==
            Candidates(entries, children, graph, prior) + Candidates(entries, {child}, graph, prior)
  {
  }

  function ChildCandidates(index: map<SpanKey, Entry>, graph: Graph, prior: nat, child: Entry): seq<Candidate> {
    (if child.end > prior && IsError(graph, child.span)
     then [(child.end, ComponentError(child.span, graph.edges[(child.span.service, graph.payment)]))] else [])
    + (if child.span.parent.None? || (child.span.trace, child.span.parent.value) !in index then []
       else
         var parent := index[(child.span.trace, child.span.parent.value)];
         var edge := (parent.span.service, child.span.service);
         if edge !in graph.edges || Max(parent.end, child.end) <= prior then []
         else [(Max(parent.end, child.end), Relation(parent.span, child.span, graph.edges[edge]))])
  }

  /** Looking the parent up by key finds every pair the child is part of. */
  lemma ChildLookup(index: map<SpanKey, Entry>, graph: Graph, prior: nat, key: SpanKey)
    requires key in index && forall k | k in index :: KeyOf(index[k].span) == k
    ensures Elements(ChildCandidates(index, graph, prior, index[key])) == Candidates(Found(index), {index[key]}, graph, prior)
  {
    var child := index[key];
    var found, wanted := ChildCandidates(index, graph, prior, child), Candidates(Found(index), {child}, graph, prior);
    forall o | o in wanted ensures o in found {
      if o.1.Relation? {
        var p :| p in Found(index) && Linked(graph, p.span, child.span) && o.0 == Max(p.end, child.end) && o.1.parent == p.span;
        assert index[KeyOf(p.span)] == p;
      }
    }
    forall o | o in found ensures o in wanted {
      if o.1.Relation? {
        assert index[(child.span.trace, child.span.parent.value)] in Found(index);
      }
    }
  }

  method Collect(index: map<SpanKey, Entry>, graph: Graph, prior: nat) returns (items: seq<Candidate>)
    requires forall k | k in index :: KeyOf(index[k].span) == k
    ensures Elements(items) == Candidates(Found(index), Found(index), graph, prior)
  {
    hide ChildCandidates, Candidates;
    items := [];
    var todo := index.Keys;
    ghost var seen: set<Entry> := {};
    NoCandidates(Found(index), graph, prior);
    while todo != {}
      invariant todo <= index.Keys
      invariant seen == set k | k in index && k !in todo :: index[k]
      invariant Elements(items) == Candidates(Found(index), seen, graph, prior)
      decreases |todo|
    {
      var key :| key in todo;
      ChildLookup(index, graph, prior, key);
      CandidatesGrow(Found(index), seen, index[key], graph, prior);
      ElementsAppend(items, ChildCandidates(index, graph, prior, index[key]));
      items := items + ChildCandidates(index, graph, prior, index[key]);
      todo := todo - {key};
      seen := seen + {index[key]};
    }
    assert seen == Found(index);
  }

  /** The smallest (or largest) line end among the candidates. */
  method Select(items: seq<Candidate>, smallest: bool) returns (end: nat)
    requires items != []
    ensures exists i :: 0 <= i < |items| && items[i].0 == end
    ensures forall i | 0 <= i < |items| :: if smallest then end <= items[i].0 else items[i].0 <= end
  {
    end := items[0].0;
    var i := 1;
    while i < |items|
      invariant 1 <= i <= |items|
      invariant exists j :: 0 <= j < i && items[j].0 == end
      invariant forall j | 0 <= j < i :: if smallest then end <= items[j].0 else items[j].0 <= end
    {
      if (smallest && items[i].0 < end) || (!smallest && items[i].0 > end) { end := items[i].0; }
      i := i + 1;
    }
  }

  method At(items: seq<Candidate>, end: nat) returns (obs: seq<Obs>)
    ensures Elements(obs) == set c | c in items && c.0 == end :: c.1
  {
    obs := [];
    var i := 0;
    while i < |items|
      invariant 0 <= i <= |items|
      invariant Elements(obs) == set c | c in items[..i] && c.0 == end :: c.1
    {
      ghost var before := obs;
      if items[i].0 == end { obs := obs + [items[i].1]; }
      assert items[..i + 1] == items[..i] + [items[i]];
      assert Elements(obs) == Elements(before) + if items[i].0 == end then {items[i].1} else {};
      i := i + 1;
    }
    assert items[..i] == items;
  }

  /** The line end to accept behind `prior`, with its observations: the smallest
      end that has any, or the largest; None when none has. */
  ghost predicate Selects(lines: seq<Line>, graph: Graph, prior: nat, smallest: bool, accepted: Option<nat>, obs: seq<Obs>) {
    match accepted
    case None => obs == [] && forall end: nat | end > prior :: ObsList(lines, graph, end) == []
    case Some(best) =>
      && best > prior && obs == ObsList(lines, graph, best) != []
      && forall end: nat | end > prior && ObsList(lines, graph, end) != [] :: if smallest then best <= end else end <= best
  }

  /** What a poll accepts behind `prior`: the first line that has any observation
      (the last one on entry), with exactly its observations in order. */
  method Observe(lines: seq<Line>, graph: Graph, prior: nat, smallest: bool) returns (accepted: Option<nat>, obs: seq<Obs>)
    ensures Selects(lines, graph, prior, smallest, accepted, obs)
  {
    var index := BuildIndex(lines);
    FoundUnique(lines);
    IndexHoldsEntries(lines);
    var items := Collect(index, graph, prior);
    forall end: nat | end > prior && ObsList(lines, graph, end) != []
      ensures exists i :: 0 <= i < |items| && items[i].0 == end
    {
      var o := ObsList(lines, graph, end)[0];
      assert o in Elements(ObsList(lines, graph, end));
      CandidatesAt(Found(index), graph, prior, end, o);
      assert (end, o) in Elements(items);
    }
    if items == [] { return None, []; }
    var end := Select(items, smallest);
    assert end > prior by {
      var i :| 0 <= i < |items| && items[i].0 == end;
      assert items[i] in Elements(items);
    }
    var found := At(items, end);
    forall o ensures o in Elements(found) <==> o in ObsAt(Found(index), graph, end) {
      CandidatesAt(Found(index), graph, prior, end, o);
      assert o in Elements(found) <==> (end, o) in Elements(items);
    }
    ObsOrder();
    ObsTotal(Found(index), graph, end);
    accepted := Some(end);
    obs := SortDistinct(ObsLess, found);
    ObsListUnique(lines, graph, end, obs);
    var i :| 0 <= i < |items| && items[i].0 == end;
    assert items[i].1 in Elements(found);
  }
}
