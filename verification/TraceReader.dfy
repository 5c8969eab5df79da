/** The trace poll over bytes: when its sliding lookback loses nothing. */
module TraceReader {
  import opened Options
  import opened SortedLists
  import opened SpoolLog
  import opened SpoolReader
  import opened SpoolFacts
  import opened SpoolExactlyOnce
  import opened TraceJoin

  /** What fixes a trace reader: its spans per record, the bound graph, the fact
      built from an observation, and how far it looks back. */
  datatype Source = Source(spansOf: Bytes -> seq<Span>, graph: Graph, toFact: Obs -> Fact, lookback: nat)

  function LinesIn(src: Source, bytes: Bytes, lo: nat, hi: nat): seq<Line>
    requires lo <= |bytes|
    decreases |bytes| - lo
  {
    if lo >= hi then []
    else
      match NextEnd(bytes, lo)
      case None => []
      case Some(end) => [Line(lo, end, src.spansOf(bytes[lo..end]))] + LinesIn(src, bytes, end, hi)
  }

  /** Where a poll that resumes at `prior` begins to read: at the first record
      start found after seeking back, never behind `prior`. */
  function LookbackStart(bytes: Bytes, prior: nat, lookback: nat): (start: nat)
    requires prior <= |bytes|
    ensures start <= prior
    ensures RecordStart(bytes, prior) ==> RecordStart(bytes, start)
  {
    if prior <= lookback then 0
    else
      match NextEnd(bytes, prior - lookback)
      case None => prior
      case Some(end) => if end <= prior then end else prior
  }

  function FactsOf(src: Source, obs: seq<Obs>): (facts: seq<Fact>)
    ensures |facts| == |obs|
  {
    seq(|obs|, i requires 0 <= i < |obs| => src.toFact(obs[i]))
  }

  /** The facts a poll that read `[lo, hi)` sees for the record at `pos`. */
  ghost function WindowFactsAt(src: Source, bytes: Bytes, lo: nat, hi: nat, pos: nat): seq<Fact>
    requires lo <= |bytes| && pos <= |bytes|
  {
    match NextEnd(bytes, pos)
    case None => []
    case Some(end) => FactsOf(src, ObsList(LinesIn(src, bytes, lo, hi), src.graph, end))
  }

  /** A trace poll's view: lookback plus the new lines it may read. */
  ghost function TraceView(cfg: Config, src: Source, bytes: Bytes, prior: nat): nat -> seq<Fact>
    requires prior <= |bytes|
  {
    var hi := Last(WindowEnds(bytes, prior, cfg.maxLines, cfg.maxBytes), prior);
    (pos: nat) => if pos <= |bytes| then WindowFactsAt(src, bytes, LookbackStart(bytes, prior, src.lookback), hi, pos) else []
  }

  /** The reader's ideal: every record joined with the whole file before it. */
  ghost predicate JoinsHistory(cfg: Config, src: Source) {
    cfg.kind == Traces
    && forall prefix: Bytes, pos: nat | pos < |prefix| && NextEnd(prefix, pos) == Some(|prefix|) ::
         cfg.extract(prefix, pos) == Some(WindowFactsAt(src, prefix, 0, |prefix|, pos))
  }

  // ---- Where spans occur -----------------------------------------------------------

  ghost predicate Occurs(src: Source, bytes: Bytes, e: Entry) {
    && RecordStart(bytes, e.start) && NextEnd(bytes, e.start) == Some(e.end)
    && e.span in src.spansOf(bytes[e.start..e.end])
  }

  /** No span id is written twice in the file. */
  ghost predicate UniqueSpans(src: Source, bytes: Bytes) {
    forall a, b | Occurs(src, bytes, a) && Occurs(src, bytes, b) && KeyOf(a.span) == KeyOf(b.span) :: a == b
  }

  lemma OccursLater(src: Source, bytes: Bytes, more: Bytes, e: Entry)
    requires Occurs(src, bytes, e)
    ensures Occurs(src, bytes + more, e)
  {
    NextEndStable(bytes, more, e.start);
    assert (bytes + more)[e.start..e.end] == bytes[e.start..e.end];
  }

  /** A record that ends inside a prefix was already whole in that prefix. */
  lemma OccursEarlier(src: Source, bytes: Bytes, more: Bytes, e: Entry)
    requires Occurs(src, bytes + more, e) && e.end <= |bytes|
    ensures Occurs(src, bytes, e)
  {
    assert forall k | 0 <= k < |bytes| :: (bytes + more)[k] == bytes[k];
    NextEndUnique(bytes, e.start, e.end);
    assert (bytes + more)[e.start..e.end] == bytes[e.start..e.end];
  }

  lemma {:induction false} EntriesIn(src: Source, bytes: Bytes, lo: nat, hi: nat, e: Entry)
    requires RecordStart(bytes, lo)
    ensures e in Entries(LinesIn(src, bytes, lo, hi)) <==> Occurs(src, bytes, e) && lo <= e.start < hi
    decreases |bytes| - lo
  {
    if lo < hi && NextEnd(bytes, lo).Some? {
      var end := NextEnd(bytes, lo).value;
      var first := Line(lo, end, src.spansOf(bytes[lo..end]));
      EntriesIn(src, bytes, end, hi, e);
      EntriesCons(first, LinesIn(src, bytes, end, hi), e);
      if Occurs(src, bytes, e) && lo < e.start { NextEndWithin(bytes, lo, e.start); }
    }
  }

  lemma EntriesCons(first: Line, rest: seq<Line>, e: Entry)
    ensures e in Entries([first] + rest) <==>
              (e.span in first.spans && e.start == first.start && e.end == first.end) || e in Entries(rest)
  {
    var all := [first] + rest;
    if e in Entries(rest) {
      var i, j :| 0 <= i < |rest| && 0 <= j < |rest[i].spans| && e == Entry(rest[i].spans[j], rest[i].start, rest[i].end);
      assert all[i + 1] == rest[i];
    }
    if e.span in first.spans && e.start == first.start && e.end == first.end {
      var j :| 0 <= j < |first.spans| && first.spans[j] == e.span;
      assert all[0].spans[j] == e.span;
    }
  }

  /** Two record starts whose records share a byte are the same. */
  lemma SameRecord(bytes: Bytes, a: nat, b: nat)
    requires RecordStart(bytes, a) && RecordStart(bytes, b) && NextEnd(bytes, a).Some? && NextEnd(bytes, b) == NextEnd(bytes, a)
    ensures a == b
  {
    if a < b { NextEndWithin(bytes, a, b); }
    if b < a { NextEndWithin(bytes, b, a); }
  }

  /** A pair the record at `pos` completes. */
  ghost predicate Completes(src: Source, bytes: Bytes, pos: nat, p: Entry, c: Entry)
    requires pos <= |bytes|
  {
    Occurs(src, bytes, p) && Occurs(src, bytes, c) && Linked(src.graph, p.span, c.span)
    && NextEnd(bytes, pos) == Some(Max(p.end, c.end))
  }

  /** No pair completed by the record at `pos` begins before `lo`. */
  ghost predicate PartnersSince(src: Source, bytes: Bytes, pos: nat, lo: nat)
    requires pos <= |bytes|
  {
    forall p, c | Completes(src, bytes, pos, p, c) :: lo <= p.start && lo <= c.start
  }

  /** The observations of the record at `pos` among the lines of `[lo, hi)`. */
  ghost predicate Sees(src: Source, bytes: Bytes, lo: nat, hi: nat, pos: nat, o: Obs)
    requires pos <= |bytes|
  {
    match o
    case ComponentError(s, edge) =>
      exists e :: Occurs(src, bytes, e) && lo <= e.start < hi && NextEnd(bytes, pos) == Some(e.end)
                  && e.span == s && IsError(src.graph, s) && edge == src.graph.edges[(s.service, src.graph.payment)]
    case Relation(ps, cs, edge) =>
      exists p, c :: Completes(src, bytes, pos, p, c) && lo <= p.start < hi && lo <= c.start < hi
                  && p.span == ps && c.span == cs && edge == src.graph.edges[(ps.service, cs.service)]
  }

  lemma ListSees(src: Source, bytes: Bytes, lo: nat, hi: nat, pos: nat)
    requires UniqueSpans(src, bytes) && RecordStart(bytes, lo) && pos <= |bytes| && NextEnd(bytes, pos).Some?
    ensures forall o :: o in Elements(ObsList(LinesIn(src, bytes, lo, hi), src.graph, NextEnd(bytes, pos).value))
                        <==> Sees(src, bytes, lo, hi, pos, o)
  {
    var lines, end := LinesIn(src, bytes, lo, hi), NextEnd(bytes, pos).value;
    forall e ensures e in Entries(lines) <==> Occurs(src, bytes, e) && lo <= e.start < hi {
      EntriesIn(src, bytes, lo, hi, e);
    }
    assert UniqueIds(lines);
    FoundUnique(lines);
    forall o ensures o in ObsAt(Entries(lines), src.graph, end) <==> Sees(src, bytes, lo, hi, pos, o) {
      SeesObsAt(src, bytes, lo, hi, pos, o, lines);
    }
  }

  lemma SeesObsAt(src: Source, bytes: Bytes, lo: nat, hi: nat, pos: nat, o: Obs, lines: seq<Line>)
    requires pos <= |bytes| && NextEnd(bytes, pos).Some?
    requires forall e :: e in Entries(lines) <==> Occurs(src, bytes, e) && lo <= e.start < hi
    ensures o in ObsAt(Entries(lines), src.graph, NextEnd(bytes, pos).value) <==> Sees(src, bytes, lo, hi, pos, o)
  {
    hide Entries, Occurs, NextEnd;
    var end := NextEnd(bytes, pos).value;
    if Sees(src, bytes, lo, hi, pos, o) && o.Relation? {
      var p, c :| Completes(src, bytes, pos, p, c) && lo <= p.start < hi && lo <= c.start < hi
                  && p.span == o.parent && c.span == o.child;
      assert p in Entries(lines) && c in Entries(lines);
    }
    if o in ObsAt(Entries(lines), src.graph, end) && o.Relation? {
      var p, c :| p in Entries(lines) && c in Entries(lines) && Linked(src.graph, p.span, c.span) && Max(p.end, c.end) == end
                  && p.span == o.parent && c.span == o.child;
      assert Completes(src, bytes, pos, p, c);
    }
  }

  // ---- When the window sees everything ---------------------------------------------

  /** The observation list of the record at `pos` over the whole file before it. */
  ghost function WholeList(src: Source, bytes: Bytes, pos: nat): seq<Obs>
    requires pos <= |bytes| && NextEnd(bytes, pos).Some?
  {
    var end := NextEnd(bytes, pos).value;
    ObsList(LinesIn(src, bytes[..end], 0, end), src.graph, end)
  }

  ghost function WindowList(src: Source, bytes: Bytes, lo: nat, hi: nat, pos: nat): seq<Obs>
    requires lo <= |bytes| && pos <= |bytes| && NextEnd(bytes, pos).Some?
  {
    ObsList(LinesIn(src, bytes, lo, hi), src.graph, NextEnd(bytes, pos).value)
  }

  lemma OccursBefore(src: Source, bytes: Bytes, pos: nat, end: nat, e: Entry)
    requires pos <= |bytes| && NextEnd(bytes, pos) == Some(end) && Occurs(src, bytes, e) && e.end <= end
    ensures e.start <= pos
  {
    if pos < e.start { NextEndWithin(bytes, pos, e.start); }
  }

  lemma PrefixOccurs(src: Source, bytes: Bytes, end: nat)
    requires end <= |bytes|
    ensures forall e :: Occurs(src, bytes[..end], e) <==> Occurs(src, bytes, e) && e.end <= end
  {
    var prefix, more := bytes[..end], bytes[end..];
    assert bytes == prefix + more;
    forall e ensures Occurs(src, prefix, e) <==> Occurs(src, bytes, e) && e.end <= end {
      if Occurs(src, prefix, e) { OccursLater(src, prefix, more, e); }
      if Occurs(src, bytes, e) && e.end <= end { OccursEarlier(src, prefix, more, e); }
    }
  }

  lemma PrefixSees(src: Source, bytes: Bytes, pos: nat, end: nat, hi: nat, o: Obs)
    requires pos <= |bytes| && NextEnd(bytes, pos) == Some(end) && RecordStart(bytes, pos) && pos < hi
    ensures NextEnd(bytes[..end], pos) == Some(end)
    ensures Sees(src, bytes[..end], 0, end, pos, o) ==> Sees(src, bytes, 0, hi, pos, o)
    ensures Sees(src, bytes, 0, hi, pos, o) ==> Sees(src, bytes[..end], 0, end, pos, o)
  {
    var prefix := bytes[..end];
    NextEndUnique(prefix, pos, end);
    PrefixOccurs(src, bytes, end);
    forall e | Occurs(src, prefix, e) ensures e.start < e.end { }
    hide Occurs, NextEnd, Sees;
    if Sees(src, bytes, 0, hi, pos, o) { PrefixSeesEarlier(src, bytes, pos, end, hi, o); }
    if Sees(src, prefix, 0, end, pos, o) { PrefixSeesLater(src, bytes, pos, end, hi, o); }
  }

  lemma PrefixSeesEarlier(src: Source, bytes: Bytes, pos: nat, end: nat, hi: nat, o: Obs)
    requires pos <= |bytes| && NextEnd(bytes, pos) == Some(end) && NextEnd(bytes[..end], pos) == Some(end)
    requires forall e :: Occurs(src, bytes[..end], e) <==> Occurs(src, bytes, e) && e.end <= end
    requires forall e | Occurs(src, bytes[..end], e) :: e.start < e.end
    requires Sees(src, bytes, 0, hi, pos, o)
    ensures Sees(src, bytes[..end], 0, end, pos, o)
  {
    hide Occurs, NextEnd, IsError;
    match o {
      case ComponentError(s, _) =>
        var e :| Occurs(src, bytes, e) && NextEnd(bytes, pos) == Some(e.end) && e.span == s;
        assert Occurs(src, bytes[..end], e);
      case Relation(ps, cs, _) =>
        var p, c :| Completes(src, bytes, pos, p, c) && p.span == ps && c.span == cs;
        assert Completes(src, bytes[..end], pos, p, c);
    }
  }

  lemma PrefixSeesLater(src: Source, bytes: Bytes, pos: nat, end: nat, hi: nat, o: Obs)
    requires pos <= |bytes| && NextEnd(bytes, pos) == Some(end) && RecordStart(bytes, pos) && pos < hi
    requires NextEnd(bytes[..end], pos) == Some(end)
    requires forall e :: Occurs(src, bytes[..end], e) <==> Occurs(src, bytes, e) && e.end <= end
    requires Sees(src, bytes[..end], 0, end, pos, o)
    ensures Sees(src, bytes, 0, hi, pos, o)
  {
    hide Occurs, NextEnd, RecordStart, IsError;
    forall e | Occurs(src, bytes, e) && e.end <= end ensures e.start <= pos {
      OccursBefore(src, bytes, pos, end, e);
    }
    match o {
      case ComponentError(s, _) =>
        var e :| Occurs(src, bytes[..end], e) && NextEnd(bytes[..end], pos) == Some(e.end) && e.span == s;
        assert Occurs(src, bytes, e);
      case Relation(ps, cs, _) =>
        var p, c :| Completes(src, bytes[..end], pos, p, c) && p.span == ps && c.span == cs;
        assert Completes(src, bytes, pos, p, c);
    }
  }

  lemma PartnersWithin(src: Source, bytes: Bytes, pos: nat, p: Entry, c: Entry)
    requires RecordStart(bytes, pos) && Completes(src, bytes, pos, p, c)
    ensures p.start <= pos && c.start <= pos
  {
    if pos < p.start { NextEndWithin(bytes, pos, p.start); }
    if pos < c.start { NextEndWithin(bytes, pos, c.start); }
  }

  /** Narrowing the window to `[lo, hi)` hides an observation of the record at
      `pos` exactly when one of its pairs begins before `lo`. */
  lemma NarrowedExactIff(src: Source, bytes: Bytes, lo: nat, hi: nat, pos: nat)
    requires UniqueSpans(src, bytes) && RecordStart(bytes, pos) && lo <= pos < hi && NextEnd(bytes, pos).Some?
    ensures forall o :: Sees(src, bytes, lo, hi, pos, o) ==> Sees(src, bytes, 0, hi, pos, o)
    ensures (forall o :: Sees(src, bytes, 0, hi, pos, o) ==> Sees(src, bytes, lo, hi, pos, o))
            <==> PartnersSince(src, bytes, pos, lo)
  {
    hide NextEnd, Occurs;
    if PartnersSince(src, bytes, pos, lo) {
      forall o | Sees(src, bytes, 0, hi, pos, o) ensures Sees(src, bytes, lo, hi, pos, o) {
        NarrowedSees(src, bytes, lo, hi, pos, o);
      }
    } else {
      var p, c :| Completes(src, bytes, pos, p, c) && (p.start < lo || c.start < lo);
      var o := Relation(p.span, c.span, src.graph.edges[(p.span.service, c.span.service)]);
      PartnersWithin(src, bytes, pos, p, c);
      assert Sees(src, bytes, 0, hi, pos, o);
      assert !Sees(src, bytes, lo, hi, pos, o);
    }
  }

  lemma NarrowedSees(src: Source, bytes: Bytes, lo: nat, hi: nat, pos: nat, o: Obs)
    requires RecordStart(bytes, pos) && lo <= pos < hi && NextEnd(bytes, pos).Some?
    requires PartnersSince(src, bytes, pos, lo) && Sees(src, bytes, 0, hi, pos, o)
    ensures Sees(src, bytes, lo, hi, pos, o)
  {
    match o {
      case ComponentError(s, _) =>
        var e :| Occurs(src, bytes, e) && NextEnd(bytes, pos) == Some(e.end) && e.span == s;
        SameRecord(bytes, e.start, pos);
      case Relation(ps, cs, _) =>
        var p, c :| Completes(src, bytes, pos, p, c) && p.start < hi && c.start < hi && p.span == ps && c.span == cs;
        assert lo <= p.start && lo <= c.start;
    }
  }

  /** The windowed join equals the join over the whole file, record by record,
      exactly when no pair completed there reaches back before the window; a
      window that loses something loses items of the list. */
  lemma WindowExactIff(src: Source, bytes: Bytes, lo: nat, hi: nat, pos: nat)
    requires UniqueSpans(src, bytes) && RecordStart(bytes, lo) && RecordStart(bytes, pos)
    requires lo <= pos < hi && NextEnd(bytes, pos).Some?
    ensures WindowList(src, bytes, lo, hi, pos) == WholeList(src, bytes, pos) <==> PartnersSince(src, bytes, pos, lo)
    ensures Elements(WindowList(src, bytes, lo, hi, pos)) <= Elements(WholeList(src, bytes, pos))
    ensures |WindowList(src, bytes, lo, hi, pos)| == |WholeList(src, bytes, pos)| <==> PartnersSince(src, bytes, pos, lo)
  {
    hide Sees, NextEnd, Index, Found, ObsAt, LinesIn, Occurs, RecordStart, PartnersSince, IsError, ObsLess;
    var end := NextEnd(bytes, pos).value;
    var window, whole := WindowList(src, bytes, lo, hi, pos), WholeList(src, bytes, pos);
    WholeListSees(src, bytes, hi, pos);
    ListSees(src, bytes, lo, hi, pos);
    NarrowedExactIff(src, bytes, lo, hi, pos);
    ObsOrder();
    if Elements(window) == Elements(whole) { SortedUnique(ObsLess, window, whole); }
    SortedLength(ObsLess, window);
    SortedLength(ObsLess, whole);
    if |window| == |whole| { SubsetOfSameSize(Elements(window), Elements(whole)); }
    if PartnersSince(src, bytes, pos, lo) {
      assert Elements(window) == Elements(whole);
    } else {
      var o :| Sees(src, bytes, 0, hi, pos, o) && !Sees(src, bytes, lo, hi, pos, o);
      assert o in Elements(whole) && o !in Elements(window);
    }
  }

  lemma WholeListSees(src: Source, bytes: Bytes, hi: nat, pos: nat)
    requires UniqueSpans(src, bytes) && RecordStart(bytes, pos) && pos < hi && NextEnd(bytes, pos).Some?
    ensures forall o :: o in Elements(WholeList(src, bytes, pos)) <==> Sees(src, bytes, 0, hi, pos, o)
  {
    hide Sees, Index, Found, ObsAt, LinesIn, IsError, ObsLess;
    var end := NextEnd(bytes, pos).value;
    var prefix := bytes[..end];
    assert bytes == prefix + bytes[end..];
    assert UniqueSpans(src, prefix) by {
      forall a, b | Occurs(src, prefix, a) && Occurs(src, prefix, b) && KeyOf(a.span) == KeyOf(b.span) ensures a == b {
        OccursLater(src, prefix, bytes[end..], a);
        OccursLater(src, prefix, bytes[end..], b);
      }
    }
    forall o ensures Sees(src, prefix, 0, end, pos, o) <==> Sees(src, bytes, 0, hi, pos, o) {
      PrefixSees(src, bytes, pos, end, hi, o);
    }
    NextEndUnique(prefix, pos, end);
    ListSees(src, prefix, 0, end, pos);
  }

  // ---- The lookback -------------------------------------------------------------------

  lemma LookbackMonotone(bytes: Bytes, a: nat, b: nat, lookback: nat)
    requires RecordStart(bytes, a) && RecordStart(bytes, b) && a <= b
    ensures LookbackStart(bytes, a, lookback) <= LookbackStart(bytes, b, lookback)
  {
    if a > lookback > 0 {
      NextEndWithin(bytes, a - lookback, a);
      NextEndWithin(bytes, b - lookback, b);
      var end := NextEnd(bytes, a - lookback).value;
      if b - lookback < end { NextEndUnique(bytes, b - lookback, end); }
    }
  }

  /** Every pair the record at `pos` completes lies within the lookback measured
      from that record itself. */
  ghost predicate WithinLookback(src: Source, bytes: Bytes, pos: nat)
    requires pos <= |bytes|
  {
    PartnersSince(src, bytes, pos, LookbackStart(bytes, pos, src.lookback))
  }

  ghost predicate Resumes(bytes: Bytes, prior: nat, pos: nat, hi: nat) {
    RecordStart(bytes, prior) && prior <= pos < hi
  }

  /** A record's observation list is the same at every poll that can reach it,
      and is the join over the whole file, exactly when its pairs lie within the
      lookback measured from its own line. */
  lemma ListStableIff(src: Source, bytes: Bytes, pos: nat)
    requires UniqueSpans(src, bytes) && RecordStart(bytes, pos) && NextEnd(bytes, pos).Some?
    ensures (forall prior: nat, hi: nat | Resumes(bytes, prior, pos, hi) ::
               WindowList(src, bytes, LookbackStart(bytes, prior, src.lookback), hi, pos) == WholeList(src, bytes, pos))
            <==> WithinLookback(src, bytes, pos)
  {
    hide NextEnd, LookbackStart, LinesIn, WindowList, WholeList, PartnersSince;
    if WithinLookback(src, bytes, pos) {
      forall prior: nat, hi: nat | Resumes(bytes, prior, pos, hi)
        ensures WindowList(src, bytes, LookbackStart(bytes, prior, src.lookback), hi, pos) == WholeList(src, bytes, pos)
      {
        WindowStable(src, bytes, prior, hi, pos);
      }
    } else {
      assert Resumes(bytes, pos, pos, pos + 1);
      WindowExactIff(src, bytes, LookbackStart(bytes, pos, src.lookback), pos + 1, pos);
    }
  }

  lemma WindowStable(src: Source, bytes: Bytes, prior: nat, hi: nat, pos: nat)
    requires UniqueSpans(src, bytes) && RecordStart(bytes, pos) && NextEnd(bytes, pos).Some?
    requires RecordStart(bytes, prior) && prior <= pos < hi && WithinLookback(src, bytes, pos)
    ensures WindowList(src, bytes, LookbackStart(bytes, prior, src.lookback), hi, pos) == WholeList(src, bytes, pos)
  {
    hide NextEnd, LookbackStart, LinesIn, WindowList, WholeList, Completes;
    LookbackMonotone(bytes, prior, pos, src.lookback);
    WindowExactIff(src, bytes, LookbackStart(bytes, prior, src.lookback), hi, pos);
  }

  ghost predicate JoinsLocally(src: Source, bytes: Bytes) {
    UniqueSpans(src, bytes)
    && forall pos: nat | RecordStart(bytes, pos) && NextEnd(bytes, pos).Some? :: WithinLookback(src, bytes, pos)
  }

  // ---- The trace poll is the poll of the run model ---------------------------------------

  lemma {:induction false} SameChoice(v1: nat -> seq<Fact>, v2: nat -> seq<Fact>, bytes: Bytes, start: nat, ends: seq<nat>)
    requires RecordStart(bytes, start) && Chain(bytes, start, ends)
    requires forall pos: nat | RecordStart(bytes, pos) && start <= pos < Last(ends, start) :: v1(pos) == v2(pos)
    ensures FirstRecord(v1, start, ends) == FirstRecord(v2, start, ends)
    ensures LastRecord(v1, start, ends) == LastRecord(v2, start, ends)
    decreases |ends|
  {
    if ends != [] {
      ChainGrows(bytes, ends[0], ends[1..]);
      assert Last(ends, start) == Last(ends[1..], ends[0]);
      SameChoice(v1, v2, bytes, ends[0], ends[1..]);
    }
  }

  lemma ViewExact(cfg: Config, src: Source, bytes: Bytes, prior: nat, pos: nat)
    requires JoinsHistory(cfg, src) && JoinsLocally(src, bytes)
    requires RecordStart(bytes, prior) && RecordStart(bytes, pos)
    requires prior <= pos < Last(WindowEnds(bytes, prior, cfg.maxLines, cfg.maxBytes), prior)
    ensures TraceView(cfg, src, bytes, prior)(pos) == View(cfg, bytes)(pos)
  {
    hide LinesIn, LookbackStart, WindowEnds, ObsList, Chain, WithinLookback, UniqueSpans;
    var hi := Last(WindowEnds(bytes, prior, cfg.maxLines, cfg.maxBytes), prior);
    WindowFacts(cfg, bytes, prior);
    NextEndWithin(bytes, pos, hi);
    var end := NextEnd(bytes, pos).value;
    var prefix := bytes[..end];
    NextEndUnique(prefix, pos, end);
    WindowStable(src, bytes, prior, hi, pos);
    assert cfg.extract(prefix, pos) == Some(WindowFactsAt(src, prefix, 0, |prefix|, pos));
    assert RecordFacts(cfg, bytes, pos) == FactsOf(src, WholeList(src, bytes, pos));
  }

  ghost function TracePlan(cfg: Config, src: Source, w: World, now: int): Plan {
    PlanWith(cfg, w, TraceView(cfg, src, w.bytes, PriorOffset(cfg, w)), now)
  }

  lemma TracePollExact(cfg: Config, src: Source, w: World, now: int)
    requires JoinsHistory(cfg, src) && JoinsLocally(src, w.bytes) && Good(cfg, w)
    ensures TracePlan(cfg, src, w, now) == PlanPoll(cfg, w, now)
  {
    hide LookbackStart, LinesIn, WindowEnds, JoinsHistory, JoinsLocally, Chain, FirstRecord, LastRecord, PlanRecord, TraceView, View, EntryOffset;
    var prior := PriorOffset(cfg, w);
    if prior < |w.bytes| {
      var ends := WindowEnds(w.bytes, prior, cfg.maxLines, cfg.maxBytes);
      WindowFacts(cfg, w.bytes, prior);
      forall pos: nat | RecordStart(w.bytes, pos) && prior <= pos < Last(ends, prior)
        ensures TraceView(cfg, src, w.bytes, prior)(pos) == View(cfg, w.bytes)(pos)
      {
        ViewExact(cfg, src, w.bytes, prior, pos);
      }
      SameChoice(TraceView(cfg, src, w.bytes, prior), View(cfg, w.bytes), w.bytes, prior, ends);
    }
  }

  ghost function TraceNext(cfg: Config, src: Source, w: World, step: Step): World {
    match step
    case Append(more) => w.(bytes := w.bytes + more)
    case Poll(now) => Apply(cfg, w, TracePlan(cfg, src, w, now), false)
    case CrashedPoll(now) => Apply(cfg, w, TracePlan(cfg, src, w, now), true)
  }

  ghost function TraceRun(cfg: Config, src: Source, w: World, steps: seq<Step>): World {
    if steps == [] then w else TraceNext(cfg, src, TraceRun(cfg, src, w, steps[..|steps| - 1]), steps[|steps| - 1])
  }

  lemma LocalEarlier(src: Source, bytes: Bytes, more: Bytes)
    requires JoinsLocally(src, bytes + more)
    ensures JoinsLocally(src, bytes)
  {
    hide NextEnd, LookbackStart;
    forall e | Occurs(src, bytes, e) ensures Occurs(src, bytes + more, e) {
      OccursLater(src, bytes, more, e);
    }
    forall pos: nat | RecordStart(bytes, pos) && NextEnd(bytes, pos).Some? ensures WithinLookback(src, bytes, pos) {
      LookbackStable(bytes, more, pos, src.lookback);
      NextEndStable(bytes, more, pos);
      assert WithinLookback(src, bytes + more, pos);
      forall p, c | Completes(src, bytes, pos, p, c) ensures Completes(src, bytes + more, pos, p, c) {
      }
    }
  }

  lemma LookbackStable(bytes: Bytes, more: Bytes, pos: nat, lookback: nat)
    requires RecordStart(bytes, pos) && NextEnd(bytes, pos).Some?
    ensures RecordStart(bytes + more, pos)
    ensures LookbackStart(bytes + more, pos, lookback) == LookbackStart(bytes, pos, lookback)
  {
    if pos > lookback {
      if lookback == 0 {
        NextEndStable(bytes, more, pos);
      } else {
        NextEndWithin(bytes, pos - lookback, pos);
        NextEndStable(bytes, more, pos - lookback);
      }
    }
  }

  /** Over every run of a file whose span ids are unique and whose pairs lie
      within the lookback, the sliding-window reader and the reader that joins
      the whole history are the same, so all of `ExactlyOnce` holds of it. */
  lemma {:induction false} TraceRunExact(cfg: Config, src: Source, w0: World, steps: seq<Step>) returns (verdicts: seq<Verdict>)
    requires cfg.maxLines >= 1 && Good(cfg, w0) && Matches(w0) && JoinsHistory(cfg, src)
    requires JoinsLocally(src, TraceRun(cfg, src, w0, steps).bytes)
    ensures TraceRun(cfg, src, w0, steps) == Run(cfg, w0, steps)
    ensures Refines(cfg, w0, TraceRun(cfg, src, w0, steps), steps, verdicts)
    decreases |steps|
  {
    hide Refines, JoinsHistory, JoinsLocally, TracePlan, PlanPoll, Good, Apply;
    if steps != [] {
      var n := |steps| - 1;
      var w := TraceRun(cfg, src, w0, steps[..n]);
      StepKeepsBytes(cfg, src, w, steps[n]);
      match steps[n] {
        case Append(more) => LocalEarlier(src, w.bytes, more);
        case Poll(_) =>
        case CrashedPoll(_) =>
      }
      var vs := TraceRunExact(cfg, src, w0, steps[..n]);
      var vs' := ExactlyOnce(cfg, w0, steps[..n]);
      match steps[n] {
        case Append(_) =>
        case Poll(now) => TracePollExact(cfg, src, w, now);
        case CrashedPoll(now) => TracePollExact(cfg, src, w, now);
      }
    }
    verdicts := ExactlyOnce(cfg, w0, steps);
  }

  lemma StepKeepsBytes(cfg: Config, src: Source, w: World, step: Step)
    ensures !step.Append? ==> TraceNext(cfg, src, w, step).bytes == w.bytes
  {
    hide TracePlan, Refused, Admit, Save;
    if !step.Append? {
      var plan := TracePlan(cfg, src, w, step.now);
      if plan.save.Some? {
        SaveKeepsStore(cfg, w, plan.save.value);
        if plan.admit.Some? { SaveKeepsStore(cfg, w.(events := Admit(w.events, plan.admit.value)), plan.save.value); }
      }
    }
  }

  // ---- When it loses something -------------------------------------------------------------

  /** A cursor inside a record whose windowed list has become too short never
      offers the record's remaining items again: the poll stalls, or it moves
      past the record. */
  lemma ShortWindowLosesItems(cfg: Config, src: Source, w: World, now: int)
    requires cfg.maxLines >= 1 && cfg.kind == Traces && Good(cfg, w) && Matches(w) && Current(w).index > 0
    requires var pos := Current(w).offset;
             |TraceView(cfg, src, w.bytes, pos)(pos)| <= Current(w).index
    ensures var plan, pos := TracePlan(cfg, src, w, now), Current(w).offset;
            if plan.save.None? then plan.admit.None? && TraceNext(cfg, src, w, Poll(now)) == w
            else plan.save.value.offset > pos
    ensures var plan, pos := TracePlan(cfg, src, w, now), Current(w).offset;
            plan.save.None? ==> plan.reason == if InForce(cfg, now) then PartialRecordChanged else Unbound
  {
    hide LookbackStart, LinesIn, FactsBetween, TraceView, Normalize, WindowEnds, NextEnd, RecordFacts, Save, Refused, Admit;
    var pos := Current(w).offset;
    var ends, view := Ends(cfg, w), TraceView(cfg, src, w.bytes, pos);
    TargetFacts(cfg, w);
    FirstInWindow(view, w.bytes, pos, ends);
  }

  lemma {:induction false} FirstInWindow(view: nat -> seq<Fact>, bytes: Bytes, start: nat, ends: seq<nat>)
    requires start <= |bytes| && Chain(bytes, start, ends)
    ensures var r := FirstRecord(view, start, ends);
            r.Some? ==> start <= r.value.start < r.value.end && r.value.facts == view(r.value.start) != []
    decreases |ends|
  {
    if ends != [] { FirstInWindow(view, bytes, ends[0], ends[1..]); }
  }
}
