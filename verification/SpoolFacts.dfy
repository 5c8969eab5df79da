/** The stream of facts a file holds, and how cursor positions cut it. */
module SpoolFacts {
  import opened Options
  import opened SpoolLog
  import opened SpoolReader

  /** All facts of the records that begin in `[lo, hi)`, in file order. */
  ghost function FactsBetween(cfg: Config, bytes: Bytes, lo: nat, hi: nat): seq<Fact>
    requires lo <= |bytes|
    decreases |bytes| - lo
  {
    if lo >= hi then []
    else
      match NextEnd(bytes, lo)
      case None => []
      case Some(end) => RecordFacts(cfg, bytes, lo) + FactsBetween(cfg, bytes, end, hi)
  }

  ghost function LinesBetween(bytes: Bytes, lo: nat, hi: nat): nat
    requires lo <= |bytes|
    decreases |bytes| - lo
  {
    if lo >= hi then 0
    else
      match NextEnd(bytes, lo)
      case None => 0
      case Some(end) => 1 + LinesBetween(bytes, end, hi)
  }

  function Take<T>(xs: seq<T>, n: nat): seq<T> {
    if n <= |xs| then xs[..n] else xs
  }

  /** Every fact before a cursor position, counted from record start `lo`. */
  ghost function Upto(cfg: Config, bytes: Bytes, lo: nat, offset: nat, index: nat): seq<Fact>
    requires lo <= |bytes| && offset <= |bytes|
  {
    FactsBetween(cfg, bytes, lo, offset) + Take(RecordFacts(cfg, bytes, offset), index)
  }

  /** The fact a position points at: the first one not before it. */
  ghost function NextFact(cfg: Config, bytes: Bytes, offset: nat, index: nat): Option<Fact>
    requires offset <= |bytes|
    decreases |bytes| - offset
  {
    match NextEnd(bytes, offset)
    case None => None
    case Some(end) =>
      var facts := RecordFacts(cfg, bytes, offset);
      if index < |facts| then Some(facts[index]) else NextFact(cfg, bytes, end, 0)
  }

  lemma RecordFactsStable(cfg: Config, bytes: Bytes, more: Bytes, pos: nat)
    requires pos <= |bytes| && NextEnd(bytes, pos).Some?
    ensures RecordFacts(cfg, bytes + more, pos) == RecordFacts(cfg, bytes, pos)
  {
    NextEndStable(bytes, more, pos);
    var end := NextEnd(bytes, pos).value;
    assert (bytes + more)[..end] == bytes[..end];
  }

  lemma {:induction false} BetweenStable(cfg: Config, bytes: Bytes, more: Bytes, lo: nat, hi: nat)
    requires lo <= |bytes| && RecordStart(bytes, hi)
    ensures FactsBetween(cfg, bytes + more, lo, hi) == FactsBetween(cfg, bytes, lo, hi)
    ensures LinesBetween(bytes + more, lo, hi) == LinesBetween(bytes, lo, hi)
    decreases |bytes| - lo
  {
    if lo < hi {
      NextEndWithin(bytes, lo, hi);
      NextEndStable(bytes, more, lo);
      RecordFactsStable(cfg, bytes, more, lo);
      BetweenStable(cfg, bytes, more, NextEnd(bytes, lo).value, hi);
    }
  }

  lemma {:induction false} NextFactStable(cfg: Config, bytes: Bytes, more: Bytes, offset: nat, index: nat)
    requires offset <= |bytes| && NextFact(cfg, bytes, offset, index).Some?
    ensures NextFact(cfg, bytes + more, offset, index) == NextFact(cfg, bytes, offset, index)
    decreases |bytes| - offset
  {
    NextEndStable(bytes, more, offset);
    RecordFactsStable(cfg, bytes, more, offset);
    if index >= |RecordFacts(cfg, bytes, offset)| {
      NextFactStable(cfg, bytes, more, NextEnd(bytes, offset).value, 0);
    }
  }

  lemma {:induction false} BetweenSplit(cfg: Config, bytes: Bytes, lo: nat, mid: nat, hi: nat)
    requires lo <= mid <= hi && RecordStart(bytes, mid)
    ensures FactsBetween(cfg, bytes, lo, hi) == FactsBetween(cfg, bytes, lo, mid) + FactsBetween(cfg, bytes, mid, hi)
    ensures LinesBetween(bytes, lo, hi) == LinesBetween(bytes, lo, mid) + LinesBetween(bytes, mid, hi)
    decreases |bytes| - lo
  {
    hide NextEnd, RecordFacts;
    if lo < mid {
      NextEndWithin(bytes, lo, mid);
      var end := NextEnd(bytes, lo).value;
      BetweenSplit(cfg, bytes, end, mid, hi);
      var a, b, c := RecordFacts(cfg, bytes, lo), FactsBetween(cfg, bytes, end, mid), FactsBetween(cfg, bytes, mid, hi);
      assert FactsBetween(cfg, bytes, lo, mid) == a + b && FactsBetween(cfg, bytes, lo, hi) == a + (b + c);
      assert a + (b + c) == (a + b) + c;
    } else {
      assert FactsBetween(cfg, bytes, lo, mid) == [];
    }
  }

  lemma BetweenOne(cfg: Config, bytes: Bytes, pos: nat, end: nat)
    requires pos <= |bytes| && NextEnd(bytes, pos) == Some(end)
    ensures FactsBetween(cfg, bytes, pos, end) == RecordFacts(cfg, bytes, pos)
    ensures LinesBetween(bytes, pos, end) == 1
  {
    assert FactsBetween(cfg, bytes, end, end) == [];
  }

  /** Records without facts do not move the fact a position points at. */
  lemma {:induction false} NextFactPastEmpty(cfg: Config, bytes: Bytes, lo: nat, hi: nat)
    requires lo <= hi && RecordStart(bytes, hi) && FactsBetween(cfg, bytes, lo, hi) == []
    ensures NextFact(cfg, bytes, lo, 0) == NextFact(cfg, bytes, hi, 0)
    decreases |bytes| - lo
  {
    if lo < hi {
      NextEndWithin(bytes, lo, hi);
      NextFactPastEmpty(cfg, bytes, NextEnd(bytes, lo).value, hi);
    }
  }

  predicate IsRecord(cfg: Config, bytes: Bytes, r: Record) {
    && RecordStart(bytes, r.start) && NextEnd(bytes, r.start) == Some(r.end)
    && r.facts == RecordFacts(cfg, bytes, r.start) && r.facts != []
  }

  /** Choosing the first record with facts skips none. */
  lemma {:induction false} FirstSkipsNothing(cfg: Config, bytes: Bytes, start: nat, ends: seq<nat>)
    requires RecordStart(bytes, start) && Chain(bytes, start, ends)
    ensures match FirstRecord(View(cfg, bytes), start, ends)
            case None => FactsBetween(cfg, bytes, start, Last(ends, start)) == []
            case Some(r) =>
              && IsRecord(cfg, bytes, r) && start <= r.start && r.end <= Last(ends, start)
              && FactsBetween(cfg, bytes, start, r.start) == []
    decreases |ends|
  {
    if ends != [] {
      ChainGrows(bytes, ends[0], ends[1..]);
      assert Last(ends, start) == Last(ends[1..], ends[0]);
      FirstSkipsNothing(cfg, bytes, ends[0], ends[1..]);
    }
  }

  /** Choosing the last record with facts leaves none behind it in the window. */
  lemma {:induction false} LastLeavesNothing(cfg: Config, bytes: Bytes, start: nat, ends: seq<nat>)
    requires RecordStart(bytes, start) && Chain(bytes, start, ends)
    ensures match LastRecord(View(cfg, bytes), start, ends)
            case None => FactsBetween(cfg, bytes, start, Last(ends, start)) == []
            case Some(r) =>
              && IsRecord(cfg, bytes, r) && start <= r.start && r.end <= Last(ends, start)
              && FactsBetween(cfg, bytes, r.end, Last(ends, start)) == []
    decreases |ends|
  {
    if ends != [] {
      ChainGrows(bytes, ends[0], ends[1..]);
      assert Last(ends, start) == Last(ends[1..], ends[0]);
      LastLeavesNothing(cfg, bytes, ends[0], ends[1..]);
    }
  }

  /** `line_number` grows by the number of record ends passed. */
  lemma {:induction false} CountIsLines(bytes: Bytes, lo: nat, start: nat, ends: seq<nat>, hi: nat)
    requires lo <= start && RecordStart(bytes, start) && Chain(bytes, start, ends)
    requires start <= hi <= Last(ends, start) && RecordStart(bytes, hi)
    ensures CountWithin(ends, lo, hi) == LinesBetween(bytes, start, hi)
    decreases |ends|
  {
    if ends != [] {
      assert Last(ends, start) == Last(ends[1..], ends[0]);
      if hi > start {
        NextEndWithin(bytes, start, hi);
        CountIsLines(bytes, lo, ends[0], ends[1..], hi);
      } else {
        CountBeyond(bytes, lo, ends[0], ends[1..], hi);
      }
    }
  }

  lemma {:induction false} CountBeyond(bytes: Bytes, lo: nat, start: nat, ends: seq<nat>, hi: nat)
    requires start <= |bytes| && Chain(bytes, start, ends) && hi <= start
    ensures CountWithin(ends, lo, hi) == 0
    decreases |ends|
  {
    if ends != [] { CountBeyond(bytes, lo, ends[0], ends[1..], hi); }
  }
}
