/** Cumulative histogram snapshots turned into reset-aware interval amounts. */
module SpoolIntervals {
  import opened Options

  datatype Totals = Totals(requests: real, failed: real, duration: real)

  const ZERO := Totals(0.0, 0.0, 0.0)

  /** What a decoded record says: counters since `start`, read at `observed`. */
  datatype Snapshot = Snapshot(observed: int, totals: Totals, start: int)

  /** A stored source event; only metric events carry cumulative totals. */
  datatype Source = Source(id: int, observed: int, totals: Option<Totals>)

  datatype Interval = Interval(start: int, end: int, amounts: Totals, reset: bool)

  predicate Earlier(a: Source, b: Source) {
    a.observed < b.observed || (a.observed == b.observed && a.id < b.id)
  }

  predicate Eligible(source: Source, before: int) {
    source.observed < before && source.totals.Some?
  }

  /** The latest metric source strictly before an instant, ties broken by id. */
  function PriorSource(sources: seq<Source>, before: int): (prior: Option<Source>)
    ensures prior.None? ==> forall s | s in sources :: !Eligible(s, before)
    ensures prior.Some? ==> prior.value in sources && Eligible(prior.value, before)
    ensures prior.Some? ==>
              forall s | s in sources && Eligible(s, before) :: !Earlier(prior.value, s)
  {
    if sources == [] then None
    else
      var last := sources[|sources| - 1];
      var rest := PriorSource(sources[..|sources| - 1], before);
      if Eligible(last, before) && (rest.None? || Earlier(rest.value, last)) then Some(last) else rest
  }

  predicate Shrinks(now: Totals, before: Totals) {
    now.requests < before.requests || now.failed < before.failed || now.duration < before.duration
  }

  function Minus(a: Totals, b: Totals): Totals {
    Totals(a.requests - b.requests, a.failed - b.failed, a.duration - b.duration)
  }

  function Plus(a: Totals, b: Totals): Totals {
    Totals(a.requests + b.requests, a.failed + b.failed, a.duration + b.duration)
  }

  /** The interval a snapshot reports against the sources stored so far;
      None when the source drops it as empty. */
  function IntervalOf(current: Snapshot, sources: seq<Source>): Option<Interval> {
    var prior := PriorSource(sources, current.observed);
    var reset := prior.None? || Shrinks(current.totals, prior.value.totals.value);
    var baseline := if reset then ZERO else prior.value.totals.value;
    var start := if reset then current.start else prior.value.observed;
    var amounts := Minus(current.totals, baseline);
    if amounts.requests <= 0.0 || amounts.failed < 0.0 || amounts.duration < 0.0 then None
    else Some(Interval(start, current.observed, amounts, reset))
  }

  // ---- The cap on the sources read ---------------------------------------

  const SOURCE_LIMIT := 256

  /** What a read of the newest `limit` rows of a binding may return: the order of
      rows of one instant is not fixed. */
  ghost predicate Recent(rows: seq<Source>, sources: seq<Source>, limit: nat) {
    && multiset(rows) <= multiset(sources)
    && |rows| == (if limit <= |sources| then limit else |sources|)
    && forall r, s | r in rows && s in sources && multiset(rows)[s] < multiset(sources)[s] :: s.observed <= r.observed
  }

  /** The rows at least as new as an instant. */
  function NoOlder(sources: seq<Source>, at: int): seq<Source> {
    if sources == [] then []
    else NoOlder(sources[..|sources| - 1], at) + if sources[|sources| - 1].observed >= at then [sources[|sources| - 1]] else []
  }

  lemma {:induction false} NoOlderCounts(sources: seq<Source>, at: int, s: Source)
    ensures multiset(NoOlder(sources, at))[s] == if s.observed >= at then multiset(sources)[s] else 0
    decreases |sources|
  {
    if sources != [] {
      var n := |sources| - 1;
      assert sources == sources[..n] + [sources[n]];
      NoOlderCounts(sources[..n], at, s);
    }
  }

  lemma SmallerMultiset<T>(a: multiset<T>, b: multiset<T>)
    requires a <= b && a != b
    ensures |a| < |b|
  {
    assert |b| == |a| + |b - a| by { assert b == a + (b - a); }
    assert b - a != multiset{};
  }

  /** Unless the limit cuts into them, a read returns every row at least as new as
      a given instant. */
  lemma RecentHasNewer(rows: seq<Source>, sources: seq<Source>, limit: nat, s: Source)
    requires Recent(rows, sources, limit) && s in sources && |NoOlder(sources, s.observed)| <= limit
    ensures s in rows
  {
    if multiset(rows)[s] < multiset(sources)[s] {
      SmallerMultiset(multiset(rows), multiset(sources));
      var newer := multiset(NoOlder(sources, s.observed));
      forall x ensures multiset(rows)[x] <= newer[x] {
        NoOlderCounts(sources, s.observed, x);
        if x in multiset(rows) { assert x in rows && s.observed <= x.observed; }
      }
      assert multiset(rows) <= newer;
      NoOlderCounts(sources, s.observed, s);
      SmallerMultiset(multiset(rows), newer);
    } else {
      assert s in multiset(rows);
    }
  }

  /** With as many rows at an instant or after it as the limit, a read returns no
      older one. */
  lemma RecentIsNewer(rows: seq<Source>, sources: seq<Source>, limit: nat, at: int)
    requires Recent(rows, sources, limit) && |NoOlder(sources, at)| >= limit
    ensures forall r | r in rows :: r.observed >= at
  {
    hide NoOlder;
    var newer := multiset(NoOlder(sources, at));
    forall r | r in rows ensures r.observed >= at {
      if r.observed < at {
        forall x ensures newer[x] <= multiset(rows)[x] { NoOlderCounts(sources, at, x); }
        NoOlderCounts(sources, at, r);
        assert newer <= multiset(rows) && r in multiset(rows);
        SmallerMultiset(newer, multiset(rows));
      }
    }
  }

  predicate UniqueIds(sources: seq<Source>) {
    forall a, b | a in sources && b in sources && a.id == b.id :: a == b
  }

  /** The limit on the rows read changes no interval as long as no more than that
      many rows are as new as the prior source or newer. */
  lemma CapHarmless(rows: seq<Source>, sources: seq<Source>, s: Snapshot)
    requires Recent(rows, sources, SOURCE_LIMIT) && UniqueIds(sources)
    requires var prior := PriorSource(sources, s.observed);
             prior.Some? ==> |NoOlder(sources, prior.value.observed)| <= SOURCE_LIMIT
    ensures PriorSource(rows, s.observed) == PriorSource(sources, s.observed)
    ensures IntervalOf(s, rows) == IntervalOf(s, sources)
  {
    hide PriorSource, NoOlder;
    var whole, part := PriorSource(sources, s.observed), PriorSource(rows, s.observed);
    forall r | r in rows ensures r in sources { assert r in multiset(rows) && r in multiset(sources); }
    if whole.Some? {
      RecentHasNewer(rows, sources, SOURCE_LIMIT, whole.value);
      assert part.Some?;
      assert !Earlier(part.value, whole.value) && !Earlier(whole.value, part.value);
    }
  }

  /** A scrape that arrives when that many rows are as new as itself or newer is
      taken for a first one: its interval reports its counters from zero. */
  lemma CapForgets(rows: seq<Source>, sources: seq<Source>, s: Snapshot)
    requires Recent(rows, sources, SOURCE_LIMIT) && |NoOlder(sources, s.observed)| >= SOURCE_LIMIT
    requires s.totals.requests > 0.0 && s.totals.failed >= 0.0 && s.totals.duration >= 0.0
    ensures IntervalOf(s, rows) == Some(Interval(s.start, s.observed, s.totals, true))
  {
    RecentIsNewer(rows, sources, SOURCE_LIMIT, s.observed);
    hide PriorSource, Recent, NoOlder;
    assert PriorSource(rows, s.observed).None?;
  }

  // ---- A run of scrapes ------------------------------------------------

  /** Everything that reaches the store of one binding, in arrival order. A
      scrape is admitted as one source event per derived metric. */
  datatype Feed =
    | Foreign(source: Source)
    | Scrape(snapshot: Snapshot, ids: seq<int>)

  datatype Entry = Entry(snapshot: Snapshot, interval: Interval)

  datatype Books = Books(sources: seq<Source>, ledger: seq<Entry>)

  function Rows(snapshot: Snapshot, ids: seq<int>): seq<Source> {
    seq(|ids|, i requires 0 <= i < |ids| => Source(ids[i], snapshot.observed, Some(snapshot.totals)))
  }

  function Take(books: Books, feed: Feed): Books {
    match feed
    case Foreign(source) => books.(sources := books.sources + [source])
    case Scrape(snapshot, ids) =>
      match IntervalOf(snapshot, books.sources)
      case None => books
      case Some(interval) =>
        Books(books.sources + Rows(snapshot, ids), books.ledger + [Entry(snapshot, interval)])
  }

  function Replay(feeds: seq<Feed>): Books {
    if feeds == [] then Books([], [])
    else Take(Replay(feeds[..|feeds| - 1]), feeds[|feeds| - 1])
  }

  /** The decoder emits only positive counts; scrapes arrive in time order, and
      foreign events carry no totals. */
  predicate Wellformed(feed: Feed) {
    match feed
    case Foreign(source) => source.totals.None?
    case Scrape(s, ids) =>
      ids != [] && s.totals.requests > 0.0 && s.totals.failed >= 0.0 && s.totals.duration >= 0.0
  }

  ghost predicate InTimeOrder(feeds: seq<Feed>) {
    forall i, j | 0 <= i < j < |feeds| && feeds[i].Scrape? && feeds[j].Scrape? ::
      feeds[i].snapshot.observed < feeds[j].snapshot.observed
  }

  function Sum(entries: seq<Entry>): Totals {
    if entries == [] then ZERO
    else Plus(Sum(entries[..|entries| - 1]), entries[|entries| - 1].interval.amounts)
  }

  /** Where the epoch of the last entry begins: its most recent reset. */
  function EpochStart(ledger: seq<Entry>): (k: nat)
    requires ledger != []
    ensures k < |ledger|
    ensures forall i | k < i < |ledger| :: !ledger[i].interval.reset
    ensures ledger[k].interval.reset || k == 0
  {
    if ledger[|ledger| - 1].interval.reset || |ledger| == 1 then |ledger| - 1
    else EpochStart(ledger[..|ledger| - 1])
  }

  predicate RowOf(entry: Entry, s: Source) {
    s.observed == entry.snapshot.observed && s.totals == Some(entry.snapshot.totals)
  }

  /** The newest metric rows of the store are those of the last ledger entry. */
  ghost predicate Mirrors(books: Books) {
    if books.ledger == [] then forall s | s in books.sources :: s.totals.None?
    else
      var last := books.ledger[|books.ledger| - 1];
      && (exists s :: s in books.sources && RowOf(last, s))
      && (forall s | s in books.sources && s.totals.Some? ::
            s.observed < last.snapshot.observed || RowOf(last, s))
  }

  predicate LastBefore(books: Books, now: int) {
    books.ledger == [] || books.ledger[|books.ledger| - 1].snapshot.observed < now
  }

  /** In time order, the prior source is the last admitted scrape. */
  lemma PriorIsLastEntry(books: Books, now: int)
    requires Mirrors(books) && LastBefore(books, now)
    ensures var prior := PriorSource(books.sources, now);
            if books.ledger == [] then prior.None?
            else prior.Some? && RowOf(books.ledger[|books.ledger| - 1], prior.value)
  {
    if books.ledger != [] {
      var row :| row in books.sources && RowOf(books.ledger[|books.ledger| - 1], row);
      assert Eligible(row, now);
    }
  }

  lemma TakeKeepsMirror(books: Books, feed: Feed)
    requires Mirrors(books) && Wellformed(feed)
    requires feed.Scrape? ==> LastBefore(books, feed.snapshot.observed)
    ensures Mirrors(Take(books, feed))
  {
    var after := Take(books, feed);
    if after.ledger == books.ledger {
      if books.ledger != [] {
        var row :| row in books.sources && RowOf(books.ledger[|books.ledger| - 1], row);
        assert row in after.sources;
      }
    } else {
      var rows := Rows(feed.snapshot, feed.ids);
      assert rows[0] in after.sources;
      assert forall s | s in after.sources :: s in books.sources || s in rows;
    }
  }

  lemma {:induction false} RunKeepsMirror(feeds: seq<Feed>, now: int)
    requires forall f | f in feeds :: Wellformed(f)
    requires InTimeOrder(feeds)
    requires forall f | f in feeds && f.Scrape? :: f.snapshot.observed < now
    ensures Mirrors(Replay(feeds)) && LastBefore(Replay(feeds), now)
    decreases |feeds|
  {
    if feeds != [] {
      var n := |feeds| - 1;
      var feed := feeds[n];
      RunKeepsMirror(feeds[..n], now);
      if feed.Scrape? {
        RunKeepsMirror(feeds[..n], feed.snapshot.observed);
      }
      TakeKeepsMirror(Replay(feeds[..n]), feed);
    }
  }

  /** One scrape: its interval starts where the last admitted one ended and
      carries exactly the growth since then, or starts a new epoch from zero. */
  lemma ScrapeContinuesLedger(books: Books, s: Snapshot)
    requires Mirrors(books) && LastBefore(books, s.observed)
    ensures var i := IntervalOf(s, books.sources);
            i.Some? ==>
              && i.value.end == s.observed
              && (books.ledger == [] ==> i.value.reset)
              && (i.value.reset ==> i.value.amounts == s.totals && i.value.start == s.start)
              && (!i.value.reset ==>
                    var last := books.ledger[|books.ledger| - 1].snapshot;
                    i.value.amounts == Minus(s.totals, last.totals) && i.value.start == last.observed)
  {
    PriorIsLastEntry(books, s.observed);
  }

  lemma {:induction false} SumSnoc(entries: seq<Entry>, e: Entry)
    ensures Sum(entries + [e]) == Plus(Sum(entries), e.interval.amounts)
  {
    assert (entries + [e])[..|entries|] == entries;
  }

  ghost predicate Conserved(ledger: seq<Entry>, k: nat)
    requires k < |ledger|
  {
    var upto := ledger[..k + 1];
    var first := EpochStart(upto);
    ledger[first].interval.reset && Sum(upto[first..]) == ledger[k].snapshot.totals
  }

  ghost predicate Abuts(ledger: seq<Entry>, k: nat)
    requires k < |ledger|
  {
    ledger[k].interval.end == ledger[k].snapshot.observed
    && (!ledger[k].interval.reset ==> k > 0 && ledger[k].interval.start == ledger[k - 1].interval.end)
  }

  lemma PrefixFacts(ledger: seq<Entry>, e: Entry, k: nat)
    requires k < |ledger|
    ensures Conserved(ledger + [e], k) == Conserved(ledger, k)
    ensures Abuts(ledger + [e], k) == Abuts(ledger, k)
  {
    assert (ledger + [e])[..k + 1] == ledger[..k + 1];
  }

  lemma ExtendConserved(ledger: seq<Entry>, e: Entry)
    requires ledger != [] ==> Conserved(ledger, |ledger| - 1)
    requires ledger == [] ==> e.interval.reset
    requires e.interval.amounts ==
             if e.interval.reset then e.snapshot.totals
             else Minus(e.snapshot.totals, ledger[|ledger| - 1].snapshot.totals)
    ensures Conserved(ledger + [e], |ledger|)
  {
    var all := ledger + [e];
    assert all[..|ledger| + 1] == all && all[..|ledger|] == ledger;
    if e.interval.reset {
      assert all[|ledger|..] == [] + [e];
      SumSnoc([], e);
    } else {
      assert ledger[..|ledger|] == ledger;
      var first := EpochStart(ledger);
      assert EpochStart(all) == first;
      assert all[first..] == ledger[first..] + [e];
      SumSnoc(ledger[first..], e);
    }
  }

  /** Interval conservation over any run: at every admitted scrape, the amounts
      since the last reset add up to the counters read there, and an interval
      that is not a reset begins where the previous one ended. */
  lemma {:induction false} IntervalsConserve(feeds: seq<Feed>)
    requires forall f | f in feeds :: Wellformed(f)
    requires InTimeOrder(feeds)
    ensures forall k | 0 <= k < |Replay(feeds).ledger| ::
              Conserved(Replay(feeds).ledger, k) && Abuts(Replay(feeds).ledger, k)
    decreases |feeds|
  {
    hide PriorSource, IntervalOf, EpochStart, Sum, Mirrors, Conserved;
    if feeds != [] {
      var n := |feeds| - 1;
      var feed, before, after := feeds[n], Replay(feeds[..n]), Replay(feeds);
      IntervalsConserve(feeds[..n]);
      if after.ledger != before.ledger {
        var entry := after.ledger[|before.ledger|];
        RunKeepsMirror(feeds[..n], feed.snapshot.observed);
        ScrapeContinuesLedger(before, feed.snapshot);
        ExtendConserved(before.ledger, entry);
        if before.ledger != [] {
          assert Abuts(before.ledger, |before.ledger| - 1);
        }
        forall k | 0 <= k < |after.ledger| ensures Conserved(after.ledger, k) && Abuts(after.ledger, k) {
          if k < |before.ledger| { PrefixFacts(before.ledger, entry, k); }
        }
      }
    }
  }

  /** A scrape is dropped exactly when no request completed since the last
      admitted one and no counter went back, so dropping it loses no requests. */
  lemma DroppedExactlyWhenIdle(feeds: seq<Feed>, s: Snapshot, ids: seq<int>)
    requires forall f | f in feeds + [Scrape(s, ids)] :: Wellformed(f)
    requires InTimeOrder(feeds + [Scrape(s, ids)])
    ensures var books := Replay(feeds);
            IntervalOf(s, books.sources).None? <==>
              && books.ledger != []
              && !Shrinks(s.totals, books.ledger[|books.ledger| - 1].snapshot.totals)
              && s.totals.requests == books.ledger[|books.ledger| - 1].snapshot.totals.requests
  {
    var all := feeds + [Scrape(s, ids)];
    assert Wellformed(all[|feeds|]);
    assert forall i | 0 <= i < |feeds| :: feeds[i] == all[i];
    RunKeepsMirror(feeds, s.observed);
    PriorIsLastEntry(Replay(feeds), s.observed);
  }

  function ErrorRate(amounts: Totals): real
    requires amounts.requests > 0.0
  {
    amounts.failed / amounts.requests
  }

  lemma RatioNotNegative(part: real, whole: real)
    requires whole > 0.0 && part >= 0.0
    ensures part / whole >= 0.0
  {
  }

  lemma IntervalAmounts(s: Snapshot, sources: seq<Source>)
    requires IntervalOf(s, sources).Some?
    ensures var i := IntervalOf(s, sources).value;
            var base := if i.reset then ZERO else PriorSource(sources, s.observed).value.totals.value;
            i.amounts == Minus(s.totals, base) && i.amounts.requests > 0.0 && i.amounts.failed >= 0.0
  {
    hide PriorSource;
  }

  lemma RatioAtMostOne(part: real, whole: real)
    requires whole > 0.0
    ensures part / whole <= 1.0 <==> part <= whole
  {
    var ratio := part / whole;
    assert ratio * whole == part;
    assert (ratio - 1.0) * whole == part - whole;
  }

  /** The published error rate is a ratio exactly when the interval's success
      count did not go back. */
  lemma ErrorRateIsRatio(s: Snapshot, sources: seq<Source>)
    requires IntervalOf(s, sources).Some?
    ensures var interval := IntervalOf(s, sources).value;
            var base := if interval.reset then ZERO else PriorSource(sources, s.observed).value.totals.value;
            (0.0 <= ErrorRate(interval.amounts) <= 1.0) <==>
              s.totals.requests - s.totals.failed >= base.requests - base.failed
  {
    IntervalAmounts(s, sources);
    hide IntervalOf, PriorSource;
    var amounts := IntervalOf(s, sources).value.amounts;
    RatioNotNegative(amounts.failed, amounts.requests);
    RatioAtMostOne(amounts.failed, amounts.requests);
  }

  // ---- Out of time order ---------------------------------------------------------

  function Newest(ledger: seq<Entry>): Entry
    requires ledger != []
  {
    ledger[|ledger| - 1]
  }

  /** What has been reported since the last reset. */
  function EpochSum(ledger: seq<Entry>): Totals
    requires ledger != []
  {
    Sum(ledger[EpochStart(ledger)..])
  }

  /** The books balance: the reports since the last reset are the counters last read. */
  ghost predicate Balanced(ledger: seq<Entry>)
    requires ledger != []
  {
    Conserved(ledger, |ledger| - 1)
  }

  lemma BalancedMeans(ledger: seq<Entry>)
    requires ledger != []
    ensures Balanced(ledger) <==> ledger[EpochStart(ledger)].interval.reset && EpochSum(ledger) == Newest(ledger).snapshot.totals
  {
    assert ledger[..|ledger|] == ledger;
  }

  lemma EpochExtends(ledger: seq<Entry>, e: Entry)
    requires ledger != [] && !e.interval.reset
    ensures EpochStart(ledger + [e]) == EpochStart(ledger)
    ensures EpochSum(ledger + [e]) == Plus(EpochSum(ledger), e.interval.amounts)
  {
    var all, first := ledger + [e], EpochStart(ledger);
    assert all[..|ledger|] == ledger;
    assert all[first..] == ledger[first..] + [e];
    SumSnoc(ledger[first..], e);
  }

  /** Conservation at one admitted scrape, whenever it arrives and whatever else
      the store holds: balanced books stay balanced if and only if the scrape opens
      a new epoch or the counters of its prior source are those of the newest
      ledger entry. What is reported beyond the counters read is exactly the growth
      from that prior to the newest entry. */
  lemma BalancedIff(books: Books, s: Snapshot, ids: seq<int>)
    requires books.ledger != [] && Balanced(books.ledger) && IntervalOf(s, books.sources).Some?
    ensures var reset, after := IntervalOf(s, books.sources).value.reset, Take(books, Scrape(s, ids)).ledger;
            var prior, newest := PriorSource(books.sources, s.observed), Newest(books.ledger).snapshot.totals;
            && |after| == |books.ledger| + 1 && (!reset ==> prior.Some?)
            && (Balanced(after) <==> reset || prior.value.totals == Some(newest))
            && EpochSum(after) == if reset then s.totals else Plus(s.totals, Minus(newest, prior.value.totals.value))
  {
    hide Balanced, PriorSource, EpochStart, EpochSum;
    var after := Take(books, Scrape(s, ids)).ledger;
    var e := Newest(after);
    BalancedMeans(books.ledger);
    BalancedMeans(after);
    if e.interval.reset {
      OpensEpoch(books.ledger, e);
    } else {
      EpochExtends(books.ledger, e);
    }
  }

  lemma OpensEpoch(ledger: seq<Entry>, e: Entry)
    requires e.interval.reset
    ensures EpochStart(ledger + [e]) == |ledger| && EpochSum(ledger + [e]) == e.interval.amounts
  {
    assert (ledger + [e])[|ledger|..] == [] + [e];
    SumSnoc([], e);
  }

  ghost predicate HasRow(sources: seq<Source>, entry: Entry) {
    exists row :: row in sources && RowOf(entry, row)
  }

  ghost predicate HasEntry(ledger: seq<Entry>, row: Source) {
    exists k :: 0 <= k < |ledger| && RowOf(ledger[k], row)
  }

  predicate Ascending(ledger: seq<Entry>) {
    forall i, j | 0 <= i < j < |ledger| :: ledger[i].snapshot.observed < ledger[j].snapshot.observed
  }

  /** Counts grow along the entries from `first` on. */
  predicate Climbs(ledger: seq<Entry>, first: nat) {
    forall i, j | first <= i < j < |ledger| :: ledger[i].snapshot.totals.requests < ledger[j].snapshot.totals.requests
  }

  /** Books kept in time order: each ledger entry has its rows in the store, each
      metric row belongs to an entry, and counters climb within the last epoch. */
  ghost predicate Orderly(books: Books) {
    && Ascending(books.ledger)
    && (forall e | e in books.ledger :: HasRow(books.sources, e))
    && (forall row | row in books.sources && row.totals.Some? :: HasEntry(books.ledger, row))
    && (books.ledger != [] ==> Climbs(books.ledger, EpochStart(books.ledger)))
  }

  lemma OrderlyMirrors(books: Books)
    requires Orderly(books)
    ensures Mirrors(books)
  {
    if books.ledger == [] {
      assert forall row | row in books.sources && row.totals.Some? :: HasEntry(books.ledger, row);
    } else {
      var last := books.ledger[|books.ledger| - 1];
      assert HasRow(books.sources, last);
      forall s | s in books.sources && s.totals.Some? ensures s.observed < last.snapshot.observed || RowOf(last, s) {
        assert HasEntry(books.ledger, s);
      }
    }
  }

  lemma TakeKeepsOrder(books: Books, feed: Feed)
    requires Orderly(books) && Wellformed(feed)
    requires feed.Scrape? ==> LastBefore(books, feed.snapshot.observed)
    ensures Orderly(Take(books, feed))
  {
    hide HasRow, HasEntry, Ascending, Climbs, EpochStart, RowOf, PriorSource;
    var after := Take(books, feed);
    var added := after.sources[|books.sources|..];
    assert after.sources == books.sources + added;
    OrderlyMirrors(books);
    forall e | e in after.ledger ensures HasRow(after.sources, e) {
      if e in books.ledger { RowStays(books.sources, added, e); } else { OwnRow(books.sources, feed.snapshot, feed.ids, e); }
    }
    if after.ledger == books.ledger {
      assert forall row | row in after.sources && row.totals.Some? :: row in books.sources;
    } else {
      var e := after.ledger[|books.ledger|];
      forall row | row in after.sources && row.totals.Some? ensures HasEntry(after.ledger, row) {
        if row in books.sources { EntryStays(books.ledger, e, row); } else { OwnEntry(books.ledger, e, feed.ids, row); }
      }
      PriorIsLastEntry(books, feed.snapshot.observed);
      LedgerClimbs(books, feed.snapshot, e);
    }
  }

  lemma RowStays(sources: seq<Source>, more: seq<Source>, e: Entry)
    requires HasRow(sources, e)
    ensures HasRow(sources + more, e)
  {
    var row :| row in sources && RowOf(e, row);
    assert row in sources + more;
  }

  lemma OwnRow(sources: seq<Source>, s: Snapshot, ids: seq<int>, e: Entry)
    requires ids != [] && e.snapshot == s
    ensures HasRow(sources + Rows(s, ids), e)
  {
    assert RowOf(e, Rows(s, ids)[0]) && Rows(s, ids)[0] in sources + Rows(s, ids);
  }

  lemma EntryStays(ledger: seq<Entry>, e: Entry, row: Source)
    requires HasEntry(ledger, row)
    ensures HasEntry(ledger + [e], row)
  {
    var k :| 0 <= k < |ledger| && RowOf(ledger[k], row);
    assert RowOf((ledger + [e])[k], row);
  }

  lemma OwnEntry(ledger: seq<Entry>, e: Entry, ids: seq<int>, row: Source)
    requires row in Rows(e.snapshot, ids)
    ensures HasEntry(ledger + [e], row)
  {
    assert RowOf((ledger + [e])[|ledger|], row);
  }

  lemma LedgerClimbs(books: Books, s: Snapshot, e: Entry)
    requires Orderly(books) && Mirrors(books) && LastBefore(books, s.observed)
    requires IntervalOf(s, books.sources) == Some(e.interval) && e.snapshot == s
    ensures Ascending(books.ledger + [e]) && Climbs(books.ledger + [e], EpochStart(books.ledger + [e]))
  {
    PriorIsLastEntry(books, s.observed);
    hide PriorSource, Mirrors, HasRow, HasEntry, Climbs, EpochStart;
    LaterLast(books.ledger, e);
    HigherLast(books.ledger, e);
  }

  lemma LaterLast(ledger: seq<Entry>, e: Entry)
    requires Ascending(ledger) && (ledger != [] ==> ledger[|ledger| - 1].snapshot.observed < e.snapshot.observed)
    ensures Ascending(ledger + [e])
  {
  }

  lemma HigherLast(ledger: seq<Entry>, e: Entry)
    requires ledger != [] ==> Climbs(ledger, EpochStart(ledger))
    requires ledger != [] && !e.interval.reset ==> ledger[|ledger| - 1].snapshot.totals.requests < e.snapshot.totals.requests
    ensures Climbs(ledger + [e], EpochStart(ledger + [e]))
  {
    hide Climbs, EpochStart, EpochSum;
    if ledger == [] {
      ClimbsAlone(ledger + [e], EpochStart(ledger + [e]));
    } else if e.interval.reset {
      OpensEpoch(ledger, e);
      ClimbsAlone(ledger + [e], |ledger|);
    } else {
      EpochExtends(ledger, e);
      ClimbsOn(ledger, EpochStart(ledger), e);
    }
  }

  lemma ClimbsAlone(ledger: seq<Entry>, first: nat)
    requires |ledger| <= first + 1
    ensures Climbs(ledger, first)
  {
  }

  lemma ClimbsOn(ledger: seq<Entry>, first: nat, e: Entry)
    requires ledger != [] && Climbs(ledger, first)
    requires ledger[|ledger| - 1].snapshot.totals.requests < e.snapshot.totals.requests
    ensures Climbs(ledger + [e], first)
  {
    var n := |ledger|;
    forall i, j | first <= i < j < n + 1
      ensures (ledger + [e])[i].snapshot.totals.requests < (ledger + [e])[j].snapshot.totals.requests
    {
      assert j == n && i < n - 1 ==> ledger[i].snapshot.totals.requests < ledger[n - 1].snapshot.totals.requests;
    }
  }

  lemma {:induction false} RunKeepsOrder(feeds: seq<Feed>)
    requires forall f | f in feeds :: Wellformed(f)
    requires InTimeOrder(feeds)
    ensures Orderly(Replay(feeds))
    decreases |feeds|
  {
    hide Orderly, Take, LastBefore;
    if feeds == [] {
      assert Orderly(Books([], [])) by { EmptyOrderly(); }
    } else {
      var n := |feeds| - 1;
      RunKeepsOrder(feeds[..n]);
      if feeds[n].Scrape? { RunKeepsMirror(feeds[..n], feeds[n].snapshot.observed); }
      TakeKeepsOrder(Replay(feeds[..n]), feeds[n]);
    }
  }

  lemma EmptyOrderly()
    ensures Orderly(Books([], []))
  {
  }

  /** The prior source is one of the newest entry exactly for a scrape that is
      later than that entry; an older prior in the same epoch has a smaller count. */
  lemma OlderPriorIsSmaller(books: Books, s: Snapshot)
    requires Orderly(books) && books.ledger != [] && books.ledger[EpochStart(books.ledger)].snapshot.observed < s.observed
    ensures var prior, newest := PriorSource(books.sources, s.observed), Newest(books.ledger);
            && prior.Some?
            && (RowOf(newest, prior.value) <==> newest.snapshot.observed < s.observed)
            && (s.observed <= newest.snapshot.observed ==> prior.value.totals.value.requests < newest.snapshot.totals.requests)
  {
    hide EpochStart, PriorSource;
    var ledger, first := books.ledger, EpochStart(books.ledger);
    var prior := PriorSource(books.sources, s.observed);
    EntryBounds(books, ledger[first], s.observed);
    assert HasEntry(ledger, prior.value);
    var k :| 0 <= k < |ledger| && RowOf(ledger[k], prior.value);
    assert ledger[first].snapshot.observed <= ledger[k].snapshot.observed;
    assert first <= k;
    if Newest(ledger).snapshot.observed < s.observed {
      EntryBounds(books, Newest(ledger), s.observed);
    }
  }

  /** The prior source is no older than an entry before the scrape. */
  lemma EntryBounds(books: Books, e: Entry, now: int)
    requires Orderly(books) && e in books.ledger && e.snapshot.observed < now
    ensures var prior := PriorSource(books.sources, now);
            && prior.Some? && prior.value in books.sources && prior.value.totals.Some? && prior.value.observed < now
            && e.snapshot.observed <= prior.value.observed
  {
    hide PriorSource;
    assert HasRow(books.sources, e);
    var row :| row in books.sources && RowOf(e, row);
    assert Eligible(row, now);
    var prior := PriorSource(books.sources, now);
    assert prior.Some? && !Earlier(prior.value, row) && Eligible(prior.value, now);
  }

  /** After any run in time order, one more scrape of the running epoch, whenever
      it was taken: if it is admitted without a reset, the books stay balanced if
      and only if it is later than every scrape admitted before. */
  lemma LateScrapeIff(feeds: seq<Feed>, s: Snapshot, ids: seq<int>)
    requires forall f | f in feeds :: Wellformed(f)
    requires InTimeOrder(feeds) && Replay(feeds).ledger != []
    requires Replay(feeds).ledger[EpochStart(Replay(feeds).ledger)].snapshot.observed < s.observed
    requires var i := IntervalOf(s, Replay(feeds).sources); i.Some? && !i.value.reset
    ensures var books, after := Replay(feeds), Replay(feeds + [Scrape(s, ids)]);
            && after.ledger != []
            && (Balanced(after.ledger) <==> Newest(books.ledger).snapshot.observed < s.observed)
            && EpochSum(after.ledger) ==
               Plus(s.totals, Minus(Newest(books.ledger).snapshot.totals, PriorSource(books.sources, s.observed).value.totals.value))
  {
    var books := Replay(feeds);
    assert (feeds + [Scrape(s, ids)])[..|feeds|] == feeds;
    hide Replay, PriorSource, EpochStart, Orderly, Conserved, EpochSum;
    RunKeepsOrder(feeds);
    IntervalsConserve(feeds);
    OlderPriorIsSmaller(books, s);
    BalancedIff(books, s, ids);
  }

  function At(t: int, requests: real): Snapshot {
    Snapshot(t, Totals(requests, 0.0, 0.0), 1)
  }

  function Scraped(t: int, requests: real): Feed {
    Scrape(At(t, requests), [t])
  }

  lemma FirstScrape(t: int, x: real)
    requires x > 0.0
    ensures var books := Replay([Scraped(t, x)]);
            && books.sources == [Source(t, t, Some(At(t, x).totals))]
            && books.ledger == [Entry(At(t, x), Interval(1, t, At(t, x).totals, true))]
  {
    assert [Scraped(t, x)][..0] == [];
    assert Replay([]) == Books([], []);
    assert PriorSource([], t) == None;
  }

  lemma PriorOfTwo(a: Source, b: Source, before: int)
    requires Eligible(a, before) && (Eligible(b, before) ==> Earlier(a, b))
    ensures PriorSource([a], before) == Some(a)
    ensures PriorSource([a, b], before) == Some(if Eligible(b, before) then b else a)
  {
    hide PriorSource;
    assert a in [a] && a in [a, b] && b in [a, b];
  }

  lemma SecondScrape(t: int, x: real, t': int, z: real)
    requires 0.0 < x < z && t < t'
    ensures var books := Replay([Scraped(t, x), Scraped(t', z)]);
            && books.sources == [Source(t, t, Some(At(t, x).totals)), Source(t', t', Some(At(t', z).totals))]
            && books.ledger == [Entry(At(t, x), Interval(1, t, At(t, x).totals, true)),
                                Entry(At(t', z), Interval(t, t', Totals(z - x, 0.0, 0.0), false))]
  {
    var one, two := [Scraped(t, x)], [Scraped(t, x), Scraped(t', z)];
    assert two[..1] == one;
    FirstScrape(t, x);
    PriorOfTwo(Source(t, t, Some(At(t, x).totals)), Source(t', t', Some(At(t', z).totals)), t');
    hide PriorSource, Replay;
    assert Replay(two) == Take(Replay(one), Scraped(t', z)) by { ReplayLast(one, Scraped(t', z)); }
  }

  lemma ReplayLast(feeds: seq<Feed>, f: Feed)
    ensures Replay(feeds + [f]) == Take(Replay(feeds), f)
  {
    assert (feeds + [f])[..|feeds|] == feeds;
  }

  /** Counters that only ever grew, read out of order, are counted twice: of three
      scrapes the last two of which arrive the wrong way round, the growth between
      the two earlier readings and the newest is reported again. */
  lemma SwappedScrapesCountTwice(t1: int, t2: int, t3: int, x: real, y: real, z: real)
    requires t1 < t2 < t3 && 0.0 < x < y <= z
    ensures var after := Replay([Scraped(t1, x), Scraped(t3, z), Scraped(t2, y)]).ledger;
            && after != [] && !Balanced(after) && EpochSum(after).requests == z + (y - x) > z
  {
    var two, late := [Scraped(t1, x), Scraped(t3, z)], Scraped(t2, y);
    SecondScrape(t1, x, t3, z);
    PriorOfTwo(Source(t1, t1, Some(At(t1, x).totals)), Source(t3, t3, Some(At(t3, z).totals)), t2);
    var books := Replay(two);
    assert two + [late] == [Scraped(t1, x), Scraped(t3, z), Scraped(t2, y)];
    assert EpochStart(books.ledger) == 0 by { assert EpochStart(books.ledger[..1]) == 0; }
    hide PriorSource, Replay, EpochStart, EpochSum, Balanced;
    assert InTimeOrder(two);
    LateScrapeIff(two, At(t2, y), [t2]);
  }

  /** 30 requests reported as 40. */
  lemma LateScrapeCountsTwice()
    ensures var after := Replay([Scraped(1, 10.0), Scraped(3, 30.0), Scraped(2, 20.0)]).ledger;
            after != [] && !Balanced(after) && EpochSum(after).requests == 40.0
  {
    hide Replay, Balanced, EpochSum;
    SwappedScrapesCountTwice(1, 2, 3, 10.0, 20.0, 30.0);
  }
}
