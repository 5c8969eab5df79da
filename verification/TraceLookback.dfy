/** A lookback that is too short, worked through on one small file. */
module TraceLookback {
  import opened Options
  import opened SortedLists
  import opened SpoolLog
  import opened SpoolReader
  import opened TraceJoin
  import opened TraceReader

  const PARENT := Span(1, 1, None, 1, 0, false, false)
  const CHILD_A := Span(1, 2, Some(1), 2, 0, false, false)
  const CHILD_B := Span(1, 3, Some(1), 2, 0, false, false)

  function DemoSpans(line: Bytes): seq<Span> {
    if line == [1, 10] then [PARENT] else if line == [2, 10] then [CHILD_A, CHILD_B] else []
  }

  function DemoFact(o: Obs): Fact {
    Fact(if o.Relation? then o.child.id else 0, 0, true, Plain(0.0))
  }

  ghost function DemoSource(): Source {
    Source(DemoSpans, Graph(map[(1, 2) := 7], 9), DemoFact, 1)
  }

  /** A parent on one line and its two children on the next. */
  const DEMO_FILE: Bytes := [1, 10, 2, 10]

  function DemoConfig(extract: (Bytes, nat) -> Option<seq<Fact>>): Config {
    Config(Traces, 5, 1024, 100, 0, None, at => 0, extract)
  }

  /** The two records of the file. */
  lemma DemoLines()
    ensures NextEnd(DEMO_FILE, 0) == Some(2) && NextEnd(DEMO_FILE, 2) == Some(4) && NextEnd(DEMO_FILE, 4) == None
    ensures RecordStart(DEMO_FILE, 2)
    ensures WindowEnds(DEMO_FILE, 0, 5, 1024) == [2, 4] && WindowEnds(DEMO_FILE, 2, 5, 1024) == [4]
    ensures LinesIn(DemoSource(), DEMO_FILE, 0, 4) == [Line(0, 2, [PARENT]), Line(2, 4, [CHILD_A, CHILD_B])]
    ensures LinesIn(DemoSource(), DEMO_FILE, 2, 4) == [Line(2, 4, [CHILD_A, CHILD_B])]
    ensures LookbackStart(DEMO_FILE, 0, 1) == 0 && LookbackStart(DEMO_FILE, 2, 1) == 2
  {
    NextEndUnique(DEMO_FILE, 0, 2);
    NextEndUnique(DEMO_FILE, 2, 4);
    NextEndUnique(DEMO_FILE, 1, 2);
    assert DEMO_FILE[0..2] == [1, 10] && DEMO_FILE[2..4] == [2, 10];
    assert WindowEnds(DEMO_FILE, 4, 3, 1020) == [] && WindowEnds(DEMO_FILE, 4, 4, 1022) == [];
    assert WindowEnds(DEMO_FILE, 2, 4, 1022) == [4] && WindowEnds(DEMO_FILE, 2, 5, 1024) == [4];
    assert LinesIn(DemoSource(), DEMO_FILE, 4, 4) == [];
  }

  ghost function DemoEntries(): set<Entry> {
    {Entry(PARENT, 0, 2), Entry(CHILD_A, 2, 4), Entry(CHILD_B, 2, 4)}
  }

  lemma DemoIndexed()
    ensures var both := [Line(0, 2, [PARENT]), Line(2, 4, [CHILD_A, CHILD_B])];
            Found(Index(both)) == DemoEntries() && Found(Index([both[1]])) == DemoEntries() - {Entry(PARENT, 0, 2)}
  {
    var both := [Line(0, 2, [PARENT]), Line(2, 4, [CHILD_A, CHILD_B])];
    assert both[0].spans[0] == PARENT && both[1].spans[0] == CHILD_A && both[1].spans[1] == CHILD_B;
    assert Entries(both) == DemoEntries();
    assert [both[1]][0].spans[0] == CHILD_A && [both[1]][0].spans[1] == CHILD_B;
    assert Entries([both[1]]) == DemoEntries() - {Entry(PARENT, 0, 2)};
    FoundUnique(both);
    FoundUnique([both[1]]);
  }

  /** The second line completes two relations with the parent in sight, none without. */
  lemma DemoObs()
    ensures var g := DemoSource().graph;
            && ObsAt(DemoEntries(), g, 2) == {}
            && ObsAt(DemoEntries(), g, 4) == {Relation(PARENT, CHILD_A, 7), Relation(PARENT, CHILD_B, 7)}
            && ObsAt(DemoEntries() - {Entry(PARENT, 0, 2)}, g, 4) == {}
  {
    var g := DemoSource().graph;
    var p, a, b := Entry(PARENT, 0, 2), Entry(CHILD_A, 2, 4), Entry(CHILD_B, 2, 4);
    forall x, y | x in DemoEntries() && y in DemoEntries()
      ensures Linked(g, x.span, y.span) <==> x == p && (y == a || y == b)
    {
    }
    assert p in DemoEntries() && a in DemoEntries() && Linked(g, p.span, a.span) && b in DemoEntries() && Linked(g, p.span, b.span);
    forall e | e in DemoEntries() ensures !IsError(g, e.span) {
    }
  }

  lemma DemoLists()
    ensures var both := [Line(0, 2, [PARENT]), Line(2, 4, [CHILD_A, CHILD_B])];
            var g := DemoSource().graph;
            && ObsList(both, g, 2) == []
            && ObsList(both, g, 4) == [Relation(PARENT, CHILD_A, 7), Relation(PARENT, CHILD_B, 7)]
            && ObsList([both[1]], g, 4) == []
  {
    hide ObsList, Index, ObsAt, Found;
    var both, g := [Line(0, 2, [PARENT]), Line(2, 4, [CHILD_A, CHILD_B])], DemoSource().graph;
    DemoIndexed();
    DemoObs();
    var list := [Relation(PARENT, CHILD_A, 7), Relation(PARENT, CHILD_B, 7)];
    assert Elements(list) == {Relation(PARENT, CHILD_A, 7), Relation(PARENT, CHILD_B, 7)};
    ObsListUnique(both, g, 4, list);
    ObsListUnique(both, g, 2, []);
    ObsListUnique([both[1]], g, 4, []);
  }

  function DemoWorld(): World {
    World(1, DEMO_FILE, [Cursor(1, 0, 0, 0, 1)], [])
  }

  lemma DemoFirstPoll(extract: (Bytes, nat) -> Option<seq<Fact>>, now: int)
    requires now >= 0
    ensures var r := Record(2, 4, [DemoFact(Relation(PARENT, CHILD_A, 7)), DemoFact(Relation(PARENT, CHILD_B, 7))]);
            TracePlan(DemoConfig(extract), DemoSource(), DemoWorld(), now) == PlanRecord(DemoConfig(extract), DemoWorld(), r, now)
  {
    DemoLines();
    DemoLists();
    hide NextEnd, WindowEnds, LinesIn, LookbackStart, ObsList, PlanRecord;
    var v := TraceView(DemoConfig(extract), DemoSource(), DEMO_FILE, 0);
    var facts := [DemoFact(Relation(PARENT, CHILD_A, 7)), DemoFact(Relation(PARENT, CHILD_B, 7))];
    assert v(0) == [] && v(2) == facts;
    assert [2, 4][1..] == [4];
    assert FirstRecord(v, 2, [4]) == Some(Record(2, 4, facts));
  }

  lemma DemoLaterPoll(extract: (Bytes, nat) -> Option<seq<Fact>>, w: World, now: int)
    requires w.fileId == 1 && w.bytes == DEMO_FILE && Matches(w) && Current(w) == Cursor(2, 2, 1, 1, 1)
    ensures TracePlan(DemoConfig(extract), DemoSource(), w, now) ==
            Plan(if InForce(DemoConfig(extract), now) then PartialRecordChanged else Unbound, None, None)
    ensures TraceNext(DemoConfig(extract), DemoSource(), w, Poll(now)) == w
  {
    DemoLines();
    DemoLists();
    hide NextEnd, WindowEnds, LinesIn, LookbackStart, ObsList;
    var v := TraceView(DemoConfig(extract), DemoSource(), DEMO_FILE, 2);
    assert v(2) == [];
    assert FirstRecord(v, 4, []) == None;
    assert FirstRecord(v, 2, [4]) == None;
  }

  lemma DemoFirstStep(extract: (Bytes, nat) -> Option<seq<Fact>>, now: int)
    requires now >= 0
    ensures var r := Record(2, 4, [DemoFact(Relation(PARENT, CHILD_A, 7)), DemoFact(Relation(PARENT, CHILD_B, 7))]);
            var cfg, w, e := DemoConfig(extract), DemoWorld(), Event(CHILD_A.id, 0, now, 0, 100 >= now, Plain(0.0));
            && PlanRecord(cfg, w, r, now) == Plan(Admitted, Some(e), Some(Position(2, 1)))
            && Apply(cfg, w, PlanRecord(cfg, w, r, now), false) == World(1, DEMO_FILE, [Cursor(1, 0, 0, 0, 1), Cursor(2, 2, 1, 1, 1)], [e])
  {
    DemoLines();
    hide NextEnd, WindowEnds, EntryOffset;
    assert CountWithin([2, 4], 0, 2) == 1 by {
      assert CountWithin([4], 0, 2) == CountWithin([], 0, 2) == 0 && [2, 4][1..] == [4];
    }
    assert Twin([], CHILD_A.id) == None;
    var cfg, w, e := DemoConfig(extract), DemoWorld(), Event(CHILD_A.id, 0, now, 0, 100 >= now, Plain(0.0));
    assert Save(cfg, w.(events := [e]), Position(2, 1)).cursors == [Cursor(1, 0, 0, 0, 1), Cursor(2, 2, 1, 1, 1)];
  }

  /** A lookback shorter than the distance to the parent's line loses a fact and
      stops the reader: the first poll stores one of the record's two relations,
      and every later poll of the file finds the record changed and stays. */
  lemma LookbackLosesFact(extract: (Bytes, nat) -> Option<seq<Fact>>, first: int, later: int)
    requires first >= 0
    ensures var cfg, src := DemoConfig(extract), DemoSource();
            var w1 := TraceNext(cfg, src, DemoWorld(), Poll(first));
            && w1 == World(1, DEMO_FILE, [Cursor(1, 0, 0, 0, 1), Cursor(2, 2, 1, 1, 1)],
                           [Event(CHILD_A.id, 0, first, 0, 100 >= first, Plain(0.0))])
            && TracePlan(cfg, src, w1, later).reason == (if InForce(cfg, later) then PartialRecordChanged else Unbound)
            && TraceNext(cfg, src, w1, Poll(later)) == w1
  {
    hide TracePlan, PlanRecord, DemoConfig, DemoSource, DemoFact, Apply, RecordStart, NextEnd;
    var cfg, src := DemoConfig(extract), DemoSource();
    DemoFirstPoll(extract, first);
    DemoFirstStep(extract, first);
    var w1 := World(1, DEMO_FILE, [Cursor(1, 0, 0, 0, 1), Cursor(2, 2, 1, 1, 1)], [Event(CHILD_A.id, 0, first, 0, 100 >= first, Plain(0.0))]);
    assert TraceNext(cfg, src, DemoWorld(), Poll(first)) == w1;
    DemoLaterPoll(extract, w1, later);
  }
}
