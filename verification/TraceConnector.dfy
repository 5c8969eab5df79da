/** The trace poll, step by step: read the lookback and the new lines, join, accept
    one line, deliver one item. */
module TraceConnector {
  import opened Options
  import opened SortedLists
  import opened SpoolLog
  import opened SpoolReader
  import opened SpoolFacts
  import opened SpoolExactlyOnce
  import opened SpoolConnector
  import opened TraceJoin
  import opened TraceReader

  /** The end of any record that begins inside a chain is one of its ends. */
  lemma {:induction false} EndInChain(bytes: Bytes, start: nat, ends: seq<nat>, pos: nat)
    requires RecordStart(bytes, start) && Chain(bytes, start, ends)
    requires RecordStart(bytes, pos) && start <= pos < Last(ends, start)
    ensures NextEnd(bytes, pos).Some? && NextEnd(bytes, pos).value in ends
    decreases |ends|
  {
    if ends != [] {
      assert Last(ends, start) == Last(ends[1..], ends[0]);
      if start < pos {
        NextEndWithin(bytes, start, pos);
        EndInChain(bytes, ends[0], ends[1..], pos);
      }
    }
  }

  /** The start of the line that ends at `end`. */
  function StartOf(start: nat, ends: seq<nat>, end: nat): nat
    requires end in ends
    decreases |ends|
  {
    if ends[0] == end then start else StartOf(ends[0], ends[1..], end)
  }

  /** An observation list is nonempty only at the end of a line that was read. */
  lemma ObservedLineEnd(src: Source, bytes: Bytes, lo: nat, prior: nat, ends: seq<nat>, end: nat)
    requires RecordStart(bytes, lo) && lo <= prior && RecordStart(bytes, prior) && Chain(bytes, prior, ends)
    requires prior < end && ObsList(LinesIn(src, bytes, lo, Last(ends, prior)), src.graph, end) != []
    ensures end in ends
  {
    var lines := LinesIn(src, bytes, lo, Last(ends, prior));
    var o := ObsList(lines, src.graph, end)[0];
    assert o in Elements(ObsList(lines, src.graph, end));
    IndexHoldsEntries(lines);
    var e: Entry :| e in Found(Index(lines)) && e.end == end;
    EntriesIn(src, bytes, lo, Last(ends, prior), e);
    if e.start < prior { NextEndWithin(bytes, e.start, prior); }
    EndInChain(bytes, prior, ends, e.start);
  }

  /** The smallest (largest) end with observations is that of the first (last)
      record with facts. */
  lemma {:induction false} SmallestIsFirst(view: nat -> seq<Fact>, bytes: Bytes, start: nat, ends: seq<nat>, end: nat)
    requires start <= |bytes| && Chain(bytes, start, ends) && end in ends
    requires view(StartOf(start, ends, end)) != []
    requires forall e | e in ends && e < end :: view(StartOf(start, ends, e)) == []
    ensures FirstRecord(view, start, ends) == Some(Record(StartOf(start, ends, end), end, view(StartOf(start, ends, end))))
    decreases |ends|
  {
    if ends[0] != end {
      var rest := ends[1..];
      assert ends[0] in ends && end in rest;
      ChainOrder(bytes, ends[0], rest, end);
      forall e | e in rest && e < end ensures view(StartOf(ends[0], rest, e)) == [] {
        assert e in ends;
        ChainOrder(bytes, ends[0], rest, e);
      }
      SmallestIsFirst(view, bytes, ends[0], rest, end);
    }
  }

  lemma {:induction false} LargestIsLast(view: nat -> seq<Fact>, bytes: Bytes, start: nat, ends: seq<nat>, end: nat)
    requires start <= |bytes| && Chain(bytes, start, ends) && end in ends
    requires view(StartOf(start, ends, end)) != []
    requires forall e | e in ends && e > end :: view(StartOf(start, ends, e)) == []
    ensures LastRecord(view, start, ends) == Some(Record(StartOf(start, ends, end), end, view(StartOf(start, ends, end))))
    decreases |ends|
  {
    var rest := ends[1..];
    forall e | e in rest ensures e in ends && e > ends[0] && StartOf(ends[0], rest, e) == StartOf(start, ends, e) {
      ChainOrder(bytes, ends[0], rest, e);
    }
    if ends[0] == end {
      NoRecord(view, bytes, ends[0], rest);
    } else {
      LargestIsLast(view, bytes, ends[0], rest, end);
    }
  }

  lemma {:induction false} ChainOrder(bytes: Bytes, start: nat, ends: seq<nat>, e: nat)
    requires start <= |bytes| && Chain(bytes, start, ends) && e in ends
    ensures e > start
    decreases |ends|
  {
    if ends[0] != e { ChainOrder(bytes, ends[0], ends[1..], e); }
  }

  lemma {:induction false} NoRecord(view: nat -> seq<Fact>, bytes: Bytes, start: nat, ends: seq<nat>)
    requires start <= |bytes| && Chain(bytes, start, ends)
    requires forall e | e in ends :: view(StartOf(start, ends, e)) == []
    ensures FirstRecord(view, start, ends) == None && LastRecord(view, start, ends) == None
    decreases |ends|
  {
    if ends != [] {
      assert ends[0] in ends;
      forall e | e in ends[1..] ensures view(StartOf(ends[0], ends[1..], e)) == [] {
        assert e in ends;
        ChainOrder(bytes, ends[0], ends[1..], e);
      }
      NoRecord(view, bytes, ends[0], ends[1..]);
    }
  }

  /** A chain's ends are record ends, each with the start `StartOf` finds. */
  lemma {:induction false} StartOfEnd(bytes: Bytes, start: nat, ends: seq<nat>, end: nat)
    requires RecordStart(bytes, start) && Chain(bytes, start, ends) && end in ends
    ensures var pos := StartOf(start, ends, end);
            RecordStart(bytes, pos) && start <= pos < end && NextEnd(bytes, pos) == Some(end)
    decreases |ends|
  {
    if ends[0] != end { StartOfEnd(bytes, ends[0], ends[1..], end); }
  }

  /** The accepted line of a poll is the record the run model works on. */
  ghost predicate Accepts(cfg: Config, src: Source, w: World, accepted: Option<nat>, obs: seq<Obs>)
    requires PriorOffset(cfg, w) <= |w.bytes|
  {
    var prior := PriorOffset(cfg, w);
    var ends := WindowEnds(w.bytes, prior, cfg.maxLines, cfg.maxBytes);
    var view := TraceView(cfg, src, w.bytes, prior);
    var chosen := if Matches(w) then FirstRecord(view, prior, ends) else LastRecord(view, prior, ends);
    match accepted
    case None => chosen == None
    case Some(end) => end in ends && chosen == Some(Record(StartOf(prior, ends, end), end, FactsOf(src, obs)))
  }

  lemma ViewAtEnd(cfg: Config, src: Source, bytes: Bytes, prior: nat, end: nat)
    requires RecordStart(bytes, prior)
    requires var ends := WindowEnds(bytes, prior, cfg.maxLines, cfg.maxBytes); Chain(bytes, prior, ends) && end in ends
    ensures var ends := WindowEnds(bytes, prior, cfg.maxLines, cfg.maxBytes);
            var lines := LinesIn(src, bytes, LookbackStart(bytes, prior, src.lookback), Last(ends, prior));
            TraceView(cfg, src, bytes, prior)(StartOf(prior, ends, end)) == FactsOf(src, ObsList(lines, src.graph, end))
  {
    StartOfEnd(bytes, prior, WindowEnds(bytes, prior, cfg.maxLines, cfg.maxBytes), end);
    hide LookbackStart, LinesIn, WindowEnds, ObsList;
  }

  lemma AcceptedIsChosen(cfg: Config, src: Source, w: World, accepted: Option<nat>, obs: seq<Obs>)
    requires RecordStart(w.bytes, PriorOffset(cfg, w))
    requires var prior := PriorOffset(cfg, w);
             var hi := Last(WindowEnds(w.bytes, prior, cfg.maxLines, cfg.maxBytes), prior);
             var lines := LinesIn(src, w.bytes, LookbackStart(w.bytes, prior, src.lookback), hi);
             Selects(lines, src.graph, prior, Matches(w), accepted, obs)
    ensures Accepts(cfg, src, w, accepted, obs)
  {
    hide LookbackStart, LinesIn, WindowEnds, Chain, FirstRecord, LastRecord, Matches, EntryOffset, TraceView, StartOf, NextEnd;
    var prior := PriorOffset(cfg, w);
    var ends, view := WindowEnds(w.bytes, prior, cfg.maxLines, cfg.maxBytes), TraceView(cfg, src, w.bytes, prior);
    var lines := LinesIn(src, w.bytes, LookbackStart(w.bytes, prior, src.lookback), Last(ends, prior));
    WindowFacts(cfg, w.bytes, prior);
    forall e | e in ends
      ensures e > prior && (view(StartOf(prior, ends, e)) == [] <==> ObsList(lines, src.graph, e) == [])
    {
      ChainOrder(w.bytes, prior, ends, e);
      ViewAtEnd(cfg, src, w.bytes, prior, e);
    }
    if accepted.None? {
      forall e | e in ends ensures view(StartOf(prior, ends, e)) == [] {
        assert ObsList(lines, src.graph, e) == [];
      }
      NoRecord(view, w.bytes, prior, ends);
    } else {
      ObservedLineEnd(src, w.bytes, LookbackStart(w.bytes, prior, src.lookback), prior, ends, accepted.value);
      ViewAtEnd(cfg, src, w.bytes, prior, accepted.value);
      if Matches(w) {
        SmallestIsFirst(view, w.bytes, prior, ends, accepted.value);
      } else {
        LargestIsLast(view, w.bytes, prior, ends, accepted.value);
      }
    }
  }

  class OtelTraceConnector {
    const base: OtelSpoolConnector
    const src: Source

    constructor (base: OtelSpoolConnector, src: Source)
      ensures this.base == base && this.src == src
    {
      this.base, this.src := base, src;
    }

    /** Decode the lines of a stretch, lookback and new bytes alike. */
    method ReadLines(bytes: Bytes, lo: nat, hi: nat) returns (lines: seq<Line>)
      requires lo <= |bytes|
      ensures lines == LinesIn(src, bytes, lo, hi)
    {
      lines := [];
      var pos := lo;
      while pos < hi
        invariant pos <= |bytes|
        invariant LinesIn(src, bytes, lo, hi) == lines + LinesIn(src, bytes, pos, hi)
        decreases |bytes| - pos
      {
        var end := NextEnd(bytes, pos);
        if end.None? { return; }
        lines := lines + [Line(pos, end.value, src.spansOf(bytes[pos..end.value]))];
        pos := end.value;
      }
    }

    method FindStart(start: nat, ends: seq<nat>, end: nat) returns (pos: nat)
      requires end in ends
      ensures pos == StartOf(start, ends, end)
    {
      pos := start;
      var i := 0;
      while ends[i] != end
        invariant 0 <= i < |ends| && end in ends[i..] && StartOf(start, ends, end) == StartOf(pos, ends[i..], end)
        decreases |ends| - i
      {
        assert ends[i..][1..] == ends[i + 1..];
        pos := ends[i];
        i := i + 1;
      }
    }

    /** One trace poll: its effect is the `Poll` step of the sliding-window run. */
    method Poll(fileId: int, bytes: Bytes, now: int) returns (reason: Reason)
      requires base.repository.Valid() && base.repository.OnlyFresh() && base.cfg.kind == Traces
      requires var w := base.repository.AsWorld(fileId, bytes);
               Matches(w) ==> RecordStart(bytes, Current(w).offset)
      modifies base.repository
      ensures base.repository.Valid() && base.repository.OnlyFresh()
      ensures base.repository.AsWorld(fileId, bytes) ==
              TraceNext(base.cfg, src, old(base.repository.AsWorld(fileId, bytes)), SpoolReader.Poll(now))
      ensures reason == TracePlan(base.cfg, src, old(base.repository.AsWorld(fileId, bytes)), now).reason
    {
      hide Save, PlanRecord, WindowEnds, Chain, FirstRecord, LastRecord, NextEnd, EntryOffset, LookbackStart, LinesIn, TraceView, StartOf;
      var w := World(fileId, bytes, base.repository.cursors, base.repository.events);
      if !InForce(base.cfg, now) { return Unbound; }
      var prior := PriorOffset(base.cfg, w);
      if |bytes| <= prior { return NoNewEvidence; }
      var ends := ReadWindow(bytes, prior, base.cfg.maxLines, base.cfg.maxBytes);
      if ends == [] { return NoCompleteRecord; }
      var lines := ReadLines(bytes, LookbackStart(bytes, prior, src.lookback), Last(ends, prior));
      var accepted, obs := Observe(lines, src.graph, prior, Matches(w));
      AcceptedIsChosen(base.cfg, src, w, accepted, obs);
      if accepted.None? {
        if PriorIndex(w) > 0 { return PartialRecordChanged; }
        base.SaveCursor(fileId, bytes, Position(Last(ends, prior), 0));
        return NoMatch;
      }
      var start := FindStart(prior, ends, accepted.value);
      reason := base.Deliver(fileId, bytes, Record(start, accepted.value, FactsOf(src, obs)), now);
    }
  }
}
