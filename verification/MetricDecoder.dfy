/** From OTLP histogram points to one cumulative snapshot and its three metrics. */
module MetricDecoder {
  import opened Options
  import opened SpoolIntervals
  import opened SpoolReader

  /** A data point as parsed: numbers and timestamps that do not parse are None. */
  datatype Point = Point(charge: bool, ok: bool, count: Option<real>, total: Option<real>, observed: Option<int>, start: Option<int>)

  /** A point that counts: of the charge method, with numbers that are not
      negative and a positive timestamp. Its start may still be missing. */
  datatype Kept = Kept(ok: bool, count: real, total: real, observed: int, start: Option<int>)

  function Keep(p: Point): (kept: Option<Kept>)
    ensures kept.Some? ==> kept.value.count >= 0.0 && kept.value.total >= 0.0 && kept.value.observed > 0
    ensures kept.Some? && kept.value.start.Some? ==> kept.value.start.value > 0
  {
    if p.charge && p.count.Some? && p.count.value >= 0.0 && p.total.Some? && p.total.value >= 0.0
       && p.observed.Some? && p.observed.value > 0
    then Some(Kept(p.ok, p.count.value, p.total.value, p.observed.value,
                   if p.start.Some? && p.start.value > 0 then p.start else None))
    else None
  }

  function KeepAll(points: seq<Point>): seq<Kept> {
    if points == [] then []
    else
      var n := |points| - 1;
      KeepAll(points[..n]) + match Keep(points[n]) case Some(k) => [k] case None => []
  }

  function Amounts(k: Kept): Totals {
    Totals(k.count, if k.ok then 0.0 else k.count, k.total)
  }

  /** Requests, failures and duration of kept points. */
  function TotalsOf(points: seq<Kept>): Totals {
    if points == [] then ZERO else Plus(TotalsOf(points[..|points| - 1]), Amounts(points[|points| - 1]))
  }

  /** `observed` is the latest point and `start` the earliest start, or the
      observation itself when no point has one. */
  predicate Spans(points: seq<Kept>, observed: int, start: int) {
    && (exists k :: k in points && k.observed == observed)
    && (forall k | k in points :: k.observed <= observed)
    && (forall k | k in points && k.start.Some? :: start <= k.start.value)
    && ((exists k :: k in points && k.start == Some(start)) || (start == observed && forall k | k in points :: k.start.None?))
  }

  /** The filter and the folds of the decoder. A histogram without a kept point, or
      without a single request, yields nothing. */
  method DecodeHistogram(points: seq<Point>) returns (snapshot: Option<Snapshot>)
    ensures snapshot.None? <==> KeepAll(points) == [] || TotalsOf(KeepAll(points)).requests <= 0.0
    ensures snapshot.Some? ==>
              snapshot.value.totals == TotalsOf(KeepAll(points)) && Spans(KeepAll(points), snapshot.value.observed, snapshot.value.start)
  {
    var kept: seq<Kept> := [];
    var i := 0;
    while i < |points|
      invariant 0 <= i <= |points| && kept == KeepAll(points[..i])
    {
      assert points[..i + 1][..i] == points[..i];
      var k := Keep(points[i]);
      if k.Some? { kept := kept + [k.value]; }
      i := i + 1;
    }
    assert points[..i] == points;
    if kept == [] { return None; }
    snapshot := Fold(kept);
  }

  method Fold(kept: seq<Kept>) returns (snapshot: Option<Snapshot>)
    requires kept != []
    ensures snapshot.None? <==> TotalsOf(kept).requests <= 0.0
    ensures snapshot.Some? ==> snapshot.value.totals == TotalsOf(kept) && Spans(kept, snapshot.value.observed, snapshot.value.start)
  {
    var observed, start: Option<int>, totals := kept[0].observed, None, ZERO;
    var i := 0;
    while i < |kept|
      invariant 0 <= i <= |kept| && totals == TotalsOf(kept[..i])
      invariant exists k :: k in kept && k.observed == observed
      invariant forall j | 0 <= j < i :: kept[j].observed <= observed
      invariant start.None? ==> forall j | 0 <= j < i :: kept[j].start.None?
      invariant start.Some? ==> exists k :: k in kept && k.start == start
      invariant start.Some? ==> forall j | 0 <= j < i && kept[j].start.Some? :: start.value <= kept[j].start.value
    {
      assert kept[..i + 1][..i] == kept[..i] && kept[i] in kept;
      totals := Plus(totals, Amounts(kept[i]));
      if kept[i].observed > observed { observed := kept[i].observed; }
      if kept[i].start.Some? && (start.None? || kept[i].start.value < start.value) { start := kept[i].start; }
      i := i + 1;
    }
    assert kept[..i] == kept;
    snapshot := if totals.requests <= 0.0 then None
                else Some(Snapshot(observed, totals, if start.Some? then start.value else observed));
  }

  /** Counting point by point or group by group gives the same totals. */
  lemma {:induction false} TotalsAdd(a: seq<Kept>, b: seq<Kept>)
    ensures TotalsOf(a + b) == Plus(TotalsOf(a), TotalsOf(b))
    decreases |b|
  {
    if b == [] {
      assert a + b == a;
    } else {
      var n := |b| - 1;
      assert (a + b)[..|a + b| - 1] == a + b[..n];
      TotalsAdd(a, b[..n]);
    }
  }

  lemma {:induction false} TotalsBounded(points: seq<Point>)
    ensures var t := TotalsOf(KeepAll(points)); 0.0 <= t.failed <= t.requests && t.duration >= 0.0
    decreases |points|
  {
    if points != [] {
      var n := |points| - 1;
      TotalsBounded(points[..n]);
      if Keep(points[n]).Some? {
        assert KeepAll(points)[..|KeepAll(points)| - 1] == KeepAll(points[..n]);
      } else {
        assert KeepAll(points) == KeepAll(points[..n]);
      }
    }
  }

  /** Every decoded snapshot is one the interval ledger accepts, and its own error
      rate is a ratio. */
  lemma DecodedIsWellformed(points: seq<Point>, s: Snapshot, ids: seq<int>)
    requires s.totals == TotalsOf(KeepAll(points)) && s.totals.requests > 0.0 && ids != []
    ensures Wellformed(Scrape(s, ids))
    ensures 0.0 <= ErrorRate(s.totals) <= 1.0
  {
    TotalsBounded(points);
    RatioAtMostOne(s.totals.failed, s.totals.requests);
  }

  predicate IsMetric(fact: Fact) { fact.reading.Cumulative? }

  /** The order of a record's facts: by measure, then by instant, then by raw hash. */
  function Rank(measure: Measure): nat {
    match measure case ErrorRateOf => 0 case MeanLatency => 1 case RequestCount => 2
  }

  predicate Precedes(a: Fact, b: Fact)
    requires IsMetric(a) && IsMetric(b)
  {
    var x, y := Rank(a.reading.measure), Rank(b.reading.measure);
    x < y || (x == y && (a.observed < b.observed || (a.observed == b.observed && a.key <= b.key)))
  }

  ghost predicate Lists(facts: seq<Fact>, s: Snapshot, m: Measure) {
    exists f :: f in facts && IsMetric(f) && f.reading.snapshot == s && f.reading.measure == m
  }

  /** The three facts of each snapshot, and nothing else, in that order. */
  ghost predicate DecodedList(facts: seq<Fact>, snapshots: set<Snapshot>) {
    && (forall f | f in facts :: IsMetric(f) && f.reading.snapshot in snapshots && f.observed == f.reading.snapshot.observed)
    && (forall s, m: Measure | s in snapshots :: Lists(facts, s, m))
    && (forall i, j | 0 <= i < j < |facts| :: IsMetric(facts[i]) && IsMetric(facts[j]) && Precedes(facts[i], facts[j]))
  }

  /** Sorted this way, a record starts with a fact of its earliest snapshot. */
  lemma DecodedEarliestFirst(facts: seq<Fact>, snapshots: set<Snapshot>)
    requires DecodedList(facts, snapshots)
    ensures EarliestFirst(facts)
  {
    if facts != [] {
      forall f | f in facts ensures facts[0].reading.snapshot.observed <= f.observed {
        assert Lists(facts, f.reading.snapshot, ErrorRateOf);
        var rate :| rate in facts && IsMetric(rate) && rate.reading.snapshot == f.reading.snapshot && rate.reading.measure == ErrorRateOf;
        var i :| 0 <= i < |facts| && facts[i] == rate;
        assert i > 0 ==> Precedes(facts[0], facts[i]);
      }
    }
  }

  /** What a record's item is published with; None when the record is dropped. */
  function ShownValue(facts: seq<Fact>, events: seq<Event>, k: nat): Option<real>
    requires k < |facts| && IsMetric(facts[0]) && IsMetric(facts[k])
  {
    if IntervalFacts(facts, events) == [] then None else Some(IntervalFacts(facts, events)[k].reading.value)
  }

  /** What it would be published with alone, from the growth of its own counters. */
  function OwnValue(fact: Fact, events: seq<Event>): Option<real>
    requires IsMetric(fact)
  {
    match IntervalOf(fact.reading.snapshot, Sources(events))
    case None => None
    case Some(i) => Some(MeasureValue(fact.reading.measure, i.amounts))
  }

  /** The amounts agree as far as a measure can tell, without division. */
  predicate SameGrowth(measure: Measure, a: Totals, b: Totals) {
    match measure
    case RequestCount => a.requests == b.requests
    case ErrorRateOf => a.failed * b.requests == b.failed * a.requests
    case MeanLatency => a.duration * b.requests == b.duration * a.requests
  }

  lemma FractionsEqual(a: real, b: real, c: real, d: real)
    requires b > 0.0 && d > 0.0
    ensures a / b == c / d <==> a * d == c * b
  {
    var p, q := a / b, c / d;
    assert p * b == a && q * d == c;
    assert a * d - c * b == (p - q) * (b * d);
    assert b * d > 0.0;
    if p != q { assert (p - q) * (b * d) != 0.0; }
  }

  lemma MeasuresEqual(measure: Measure, a: Totals, b: Totals)
    requires a.requests > 0.0 && b.requests > 0.0
    ensures MeasureValue(measure, a) == MeasureValue(measure, b) <==> SameGrowth(measure, a, b)
  {
    FractionsEqual(a.failed, a.requests, b.failed, b.requests);
    FractionsEqual(a.duration, a.requests, b.duration, b.requests);
  }

  /** One interval, taken from the first item, serves the whole record. On any
      store an item comes out as its own counters would have it if and only if both
      snapshots have an interval and their growth agrees for the item's measure, or
      neither has one. In particular this holds of every item that carries the
      first item's snapshot. */
  lemma OneIntervalPerRecord(facts: seq<Fact>, events: seq<Event>, k: nat)
    requires k < |facts| && IsMetric(facts[0]) && IsMetric(facts[k])
    ensures var first := IntervalOf(facts[0].reading.snapshot, Sources(events));
            var own := IntervalOf(facts[k].reading.snapshot, Sources(events));
            && (ShownValue(facts, events, k) == OwnValue(facts[k], events) <==>
                  (first.None? && own.None?)
                  || (first.Some? && own.Some? && SameGrowth(facts[k].reading.measure, first.value.amounts, own.value.amounts)))
            && (facts[k].reading.snapshot == facts[0].reading.snapshot ==>
                  ShownValue(facts, events, k) == OwnValue(facts[k], events))
  {
    hide IntervalOf, MeasureValue;
    var first := IntervalOf(facts[0].reading.snapshot, Sources(events));
    var own := IntervalOf(facts[k].reading.snapshot, Sources(events));
    if first.Some? && own.Some? {
      IntervalGrows(facts[0].reading.snapshot, Sources(events));
      IntervalGrows(facts[k].reading.snapshot, Sources(events));
      MeasuresEqual(facts[k].reading.measure, first.value.amounts, own.value.amounts);
    }
  }

  lemma IntervalGrows(s: Snapshot, sources: seq<Source>)
    requires IntervalOf(s, sources).Some?
    ensures IntervalOf(s, sources).value.amounts.requests > 0.0
  {
  }

  function CountFact(key: int, s: Snapshot): Fact {
    Fact(key, s.observed, true, Cumulative(RequestCount, s, s.totals.requests))
  }

  lemma FirstInterval(s: Snapshot)
    requires s.totals.requests > 0.0 && s.totals.failed >= 0.0 && s.totals.duration >= 0.0
    ensures IntervalOf(s, []) == Some(Interval(s.start, s.observed, s.totals, true))
  {
    assert PriorSource([], s.observed) == None;
  }

  /** Two histograms with different counts in one record, on an empty store: the
      second one's requests are published as the first one's. */
  lemma SecondHistogramMispublished(a: Snapshot, b: Snapshot)
    requires a.totals.requests > 0.0 && a.totals.failed >= 0.0 && a.totals.duration >= 0.0
    requires b.totals.requests > 0.0 && b.totals.failed >= 0.0 && b.totals.duration >= 0.0
    requires a.totals.requests != b.totals.requests
    ensures var facts := [CountFact(1, a), CountFact(2, b)];
            && ShownValue(facts, [], 1) == Some(a.totals.requests)
            && OwnValue(facts[1], []) == Some(b.totals.requests)
            && ShownValue(facts, [], 1) != OwnValue(facts[1], [])
  {
    FirstInterval(a);
    FirstInterval(b);
    hide IntervalOf;
    assert Sources([]) == [];
  }
}
