/** The metric reader over a whole run: the events it stores are a feed of scrapes
    in time order, so their intervals add up. */
module SpoolMetrics {
  import opened Options
  import opened SpoolLog
  import opened SpoolReader
  import opened SpoolIntervals
  import opened SpoolFacts
  import opened SpoolExactlyOnce

  // ---- What the file holds ----------------------------------------------------

  /** The facts of one histogram: all carry its snapshot. */
  predicate OfOneScrape(facts: seq<Fact>, s: Snapshot) {
    && s.totals.requests > 0.0 && s.totals.failed >= 0.0 && s.totals.duration >= 0.0
    && forall f | f in facts :: f.reading.Cumulative? && f.reading.snapshot == s && f.observed == s.observed
  }

  predicate HasFacts(cfg: Config, bytes: Bytes, pos: nat) {
    RecordStart(bytes, pos) && NextEnd(bytes, pos).Some? && RecordFacts(cfg, bytes, pos) != []
  }

  ghost predicate ScrapedAt(cfg: Config, bytes: Bytes, pos: nat, s: Snapshot) {
    HasFacts(cfg, bytes, pos) && OfOneScrape(RecordFacts(cfg, bytes, pos), s)
  }

  /** Every record with facts holds one histogram, and later records were read later. */
  ghost predicate ScrapesInOrder(cfg: Config, bytes: Bytes) {
    && (forall pos | HasFacts(cfg, bytes, pos) :: exists s :: ScrapedAt(cfg, bytes, pos, s))
    && (forall p, q, s, t | p < q && ScrapedAt(cfg, bytes, p, s) && ScrapedAt(cfg, bytes, q, t) :: s.observed < t.observed)
  }

  lemma HasFactsLater(cfg: Config, bytes: Bytes, more: Bytes, pos: nat)
    requires HasFacts(cfg, bytes, pos)
    ensures HasFacts(cfg, bytes + more, pos) && RecordFacts(cfg, bytes + more, pos) == RecordFacts(cfg, bytes, pos)
  {
    hide NextEnd, RecordFacts;
    NextEndStable(bytes, more, pos);
    RecordFactsStable(cfg, bytes, more, pos);
  }

  lemma OrderEarlier(cfg: Config, bytes: Bytes, more: Bytes)
    requires ScrapesInOrder(cfg, bytes + more)
    ensures ScrapesInOrder(cfg, bytes)
  {
    hide HasFacts, RecordFacts, OfOneScrape;
    forall pos | HasFacts(cfg, bytes, pos) ensures exists s :: ScrapedAt(cfg, bytes, pos, s) {
      HasFactsLater(cfg, bytes, more, pos);
      var s :| ScrapedAt(cfg, bytes + more, pos, s);
      assert ScrapedAt(cfg, bytes, pos, s);
    }
    forall p, q, s, t | p < q && ScrapedAt(cfg, bytes, p, s) && ScrapedAt(cfg, bytes, q, t) ensures s.observed < t.observed {
      HasFactsLater(cfg, bytes, more, p);
      HasFactsLater(cfg, bytes, more, q);
      assert ScrapedAt(cfg, bytes + more, p, s) && ScrapedAt(cfg, bytes + more, q, t);
    }
  }

  // ---- The feed behind a store --------------------------------------------------

  /** The event shows the amounts of the entry's interval. */
  predicate Publishes(entry: Entry, e: Event) {
    && entry.interval.amounts.requests > 0.0 && e.observed == entry.snapshot.observed && e.reading.Cumulative?
    && e.reading.snapshot == entry.snapshot.(start := entry.interval.start)
    && e.reading.value == MeasureValue(e.reading.measure, entry.interval.amounts)
  }

  ghost predicate FromLedger(ledger: seq<Entry>, e: Event) {
    exists k :: 0 <= k < |ledger| && Publishes(ledger[k], e)
  }

  /** The store is the feed's store, entry by entry and event by event. */
  ghost predicate Behind(events: seq<Event>, feeds: seq<Feed>) {
    && (forall f | f in feeds :: f.Scrape? && Wellformed(f)) && InTimeOrder(feeds)
    && Replay(feeds).sources == Sources(events)
    && |Replay(feeds).ledger| == |feeds|
    && (forall k | 0 <= k < |feeds| :: Replay(feeds).ledger[k].snapshot == feeds[k].snapshot)
    && (forall e | e in events :: FromLedger(Replay(feeds).ledger, e))
  }

  /** No record with facts lies between the cursor and `at`. */
  ghost predicate Reaches(cfg: Config, bytes: Bytes, offset: nat, at: nat) {
    at <= offset || (offset <= |bytes| && FactsBetween(cfg, bytes, offset, at) == [])
  }

  /** The last scrape of the feed is the record at `at`, which the cursor has reached. */
  ghost predicate Fed(cfg: Config, w: World, feeds: seq<Feed>, at: nat)
    requires Matches(w)
  {
    && Behind(w.events, feeds)
    && (feeds != [] ==>
          feeds[|feeds| - 1].Scrape? && ScrapedAt(cfg, w.bytes, at, feeds[|feeds| - 1].snapshot) && Reaches(cfg, w.bytes, Current(w).offset, at))
  }

  lemma ReachesLater(cfg: Config, bytes: Bytes, from: nat, offset: nat, at: nat)
    requires Reaches(cfg, bytes, from, at) && from <= offset && RecordStart(bytes, offset)
    ensures Reaches(cfg, bytes, offset, at)
  {
    if offset < at { BetweenSplit(cfg, bytes, from, offset, at); }
  }

  lemma ReachesStable(cfg: Config, bytes: Bytes, more: Bytes, offset: nat, at: nat)
    requires Reaches(cfg, bytes, offset, at) && RecordStart(bytes, at)
    ensures Reaches(cfg, bytes + more, offset, at)
  {
    if offset < at { BetweenStable(cfg, bytes, more, offset, at); }
  }

  /** What a poll works on is the last scrape's record or a later one. */
  lemma TargetNotBefore(cfg: Config, bytes: Bytes, offset: nat, at: nat, r: Record)
    requires Reaches(cfg, bytes, offset, at) && RecordStart(bytes, at) && IsRecord(cfg, bytes, r) && offset <= r.start
    ensures at <= r.start
  {
    if r.start < at {
      NextEndWithin(bytes, r.start, at);
      BetweenSplit(cfg, bytes, offset, r.start, at);
      BetweenSplit(cfg, bytes, r.start, r.end, at);
      BetweenOne(cfg, bytes, r.start, r.end);
    }
  }

  // ---- Storing one more event -----------------------------------------------------

  /** Rows of an instant are no prior source at that instant. */
  lemma {:induction false} PriorIgnoresRows(sources: seq<Source>, s: Snapshot, ids: seq<int>)
    ensures IntervalOf(s, sources + Rows(s, ids)) == IntervalOf(s, sources)
    ensures PriorSource(sources + Rows(s, ids), s.observed) == PriorSource(sources, s.observed)
    decreases |ids|
  {
    if ids == [] {
      assert sources + Rows(s, ids) == sources;
    } else {
      var n := |ids| - 1;
      PriorIgnoresRows(sources, s, ids[..n]);
      assert (sources + Rows(s, ids))[..|sources| + n] == sources + Rows(s, ids[..n]);
    }
  }

  /** One more row of the last scrape changes no interval. */
  lemma GrowLast(front: seq<Feed>, s: Snapshot, ids: seq<int>, key: int)
    requires IntervalOf(s, Replay(front).sources).Some?
    ensures var before, after := Replay(front + [Scrape(s, ids)]), Replay(front + [Scrape(s, ids + [key])]);
            && IntervalOf(s, before.sources).Some? && after.ledger == before.ledger
            && before.ledger == Replay(front).ledger + [Entry(s, IntervalOf(s, before.sources).value)]
            && after.sources == before.sources + [Source(key, s.observed, Some(s.totals))]
  {
    hide IntervalOf;
    ReplayLast(front, Scrape(s, ids));
    ReplayLast(front, Scrape(s, ids + [key]));
    PriorIgnoresRows(Replay(front).sources, s, ids);
    assert Rows(s, ids + [key]) == Rows(s, ids) + [Source(key, s.observed, Some(s.totals))];
  }

  lemma PublishedLater(ledger: seq<Entry>, more: seq<Entry>, e: Event)
    requires FromLedger(ledger, e)
    ensures FromLedger(ledger + more, e)
  {
    var k :| 0 <= k < |ledger| && Publishes(ledger[k], e);
    assert Publishes((ledger + more)[k], e);
  }

  lemma SourcesSnoc(events: seq<Event>, e: Event, s: Snapshot)
    requires e.observed == s.observed && e.reading.Cumulative? && e.reading.snapshot.totals == s.totals
    ensures Sources(events + [e]) == Sources(events) + [Source(e.key, s.observed, Some(s.totals))]
  {
  }

  /** Another event of the last scrape. */
  lemma SameScrape(events: seq<Event>, feeds: seq<Feed>, e: Event, s: Snapshot) returns (feeds': seq<Feed>)
    requires Behind(events, feeds) && feeds != [] && feeds[|feeds| - 1].snapshot == s
    requires var i := IntervalOf(s, Sources(events)); i.Some? && Publishes(Entry(s, i.value), e)
    ensures Behind(events + [e], feeds') && |feeds'| == |feeds| && feeds'[|feeds| - 1].Scrape? && feeds'[|feeds| - 1].snapshot == s
  {
    hide IntervalOf, Publishes, FromLedger, Replay;
    var n := |feeds| - 1;
    var front, ids := feeds[..n], feeds[n].ids;
    assert feeds == front + [Scrape(s, ids)] && feeds[n] in feeds;
    AdmittedLast(front, s, ids);
    feeds' := front + [Scrape(s, ids + [e.key])];
    GrowLast(front, s, ids, e.key);
    var ledger := Replay(feeds).ledger;
    assert ledger[n] == Entry(s, IntervalOf(s, Sources(events)).value);
    SourcesSnoc(events, e, s) by { PublishesTotals(ledger[n], e); }
    assert FromLedger(ledger, e) by { ShownBy(ledger, n, e); }
    forall f | f in feeds' ensures f.Scrape? && Wellformed(f) {
      if f in front { assert f in feeds; }
    }
    forall i, j | 0 <= i < j < |feeds'| ensures feeds'[i].snapshot.observed < feeds'[j].snapshot.observed {
      assert feeds[i].snapshot.observed < feeds[j].snapshot.observed;
    }
    forall k | 0 <= k < |feeds'| ensures Replay(feeds').ledger[k].snapshot == feeds'[k].snapshot {
      assert Replay(feeds).ledger[k].snapshot == feeds[k].snapshot;
    }
  }

  lemma AdmittedLast(front: seq<Feed>, s: Snapshot, ids: seq<int>)
    requires |Replay(front + [Scrape(s, ids)]).ledger| == |front| + 1
    ensures IntervalOf(s, Replay(front).sources).Some?
  {
    ReplayLast(front, Scrape(s, ids));
    LedgerAtMost(front);
  }

  lemma {:induction false} LedgerAtMost(feeds: seq<Feed>)
    ensures |Replay(feeds).ledger| <= |feeds|
    decreases |feeds|
  {
    if feeds != [] { LedgerAtMost(feeds[..|feeds| - 1]); }
  }

  lemma PublishesTotals(entry: Entry, e: Event)
    requires Publishes(entry, e)
    ensures e.observed == entry.snapshot.observed && e.reading.Cumulative? && e.reading.snapshot.totals == entry.snapshot.totals
  {
  }

  lemma ShownBy(ledger: seq<Entry>, k: nat, e: Event)
    requires k < |ledger| && Publishes(ledger[k], e)
    ensures FromLedger(ledger, e)
  {
  }

  /** The first event of a later scrape. */
  lemma NextScrape(events: seq<Event>, feeds: seq<Feed>, e: Event, s: Snapshot) returns (feeds': seq<Feed>)
    requires Behind(events, feeds) && (feeds != [] ==> feeds[|feeds| - 1].snapshot.observed < s.observed)
    requires s.totals.requests > 0.0 && s.totals.failed >= 0.0 && s.totals.duration >= 0.0
    requires var i := IntervalOf(s, Sources(events)); i.Some? && Publishes(Entry(s, i.value), e)
    ensures Behind(events + [e], feeds') && feeds' != [] && feeds'[|feeds'| - 1].Scrape? && feeds'[|feeds'| - 1].snapshot == s
  {
    hide IntervalOf, Publishes, FromLedger, Replay;
    feeds' := feeds + [Scrape(s, [e.key])];
    ReplayLast(feeds, Scrape(s, [e.key]));
    var entry := Entry(s, IntervalOf(s, Sources(events)).value);
    var ledger, ledger' := Replay(feeds).ledger, Replay(feeds').ledger;
    assert ledger' == ledger + [entry];
    SourcesSnoc(events, e, s) by { PublishesTotals(entry, e); }
    assert Rows(s, [e.key]) == [Source(e.key, s.observed, Some(s.totals))];
    ShownBy(ledger', |ledger|, e);
    forall x | x in events ensures FromLedger(ledger', x) { PublishedLater(ledger, [entry], x); }
  }

  // ---- One step, and a whole run -----------------------------------------------------

  /** What a poll that stores an event worked on. */
  lemma StoredOf(cfg: Config, w: World, step: Step, e: Event, s: Snapshot)
    requires cfg.maxLines >= 1 && cfg.kind == Metrics && Good(cfg, w) && Matches(w)
    requires !step.Append? && PlanPoll(cfg, w, step.now).admit == Some(e)
    requires Target(cfg, w).Some? && ScrapedAt(cfg, w.bytes, Target(cfg, w).value.start, s)
    ensures var i := IntervalOf(s, Sources(w.events)); i.Some? && Publishes(Entry(s, i.value), e)
  {
    hide NextEnd, FactsBetween, FirstRecord, WindowEnds, Chain, IntervalOf, PlanPoll;
    TargetFacts(cfg, w);
    PlanByTarget(cfg, w, step.now);
    var r := Target(cfg, w).value;
    assert r.facts[0] in r.facts && r.facts[Item(w, r)] in r.facts;
    IntervalAmounts(s, Sources(w.events));
  }

  lemma IntervalAmounts(s: Snapshot, sources: seq<Source>)
    ensures IntervalOf(s, sources).Some? ==> IntervalOf(s, sources).value.amounts.requests > 0.0
  {
  }

  lemma PollFeeds(cfg: Config, w: World, step: Step, feeds: seq<Feed>, at: nat) returns (feeds': seq<Feed>, at': nat)
    requires cfg.maxLines >= 1 && cfg.kind == Metrics && Good(cfg, w) && Matches(w) && !step.Append?
    requires ScrapesInOrder(cfg, w.bytes) && Fed(cfg, w, feeds, at)
    requires Matches(Next(cfg, w, step)) && Good(cfg, Next(cfg, w, step)) && Current(w).offset <= Current(Next(cfg, w, step)).offset
    ensures Fed(cfg, Next(cfg, w, step), feeds', at')
  {
    hide NextEnd, FactsBetween, FirstRecord, WindowEnds, Chain, IntervalOf, Behind, PlanPoll, Save, RecordFacts, Twin;
    var w', plan, c := Next(cfg, w, step), PlanPoll(cfg, w, step.now), Current(w);
    PollStores(cfg, w, step);
    TargetFacts(cfg, w);
    if w'.events == w.events {
      feeds', at' := feeds, at;
      if feeds != [] { ReachesLater(cfg, w.bytes, c.offset, Current(w').offset, at); }
    } else {
      var e := plan.admit.value;
      PlanByTarget(cfg, w, step.now);
      var r := Target(cfg, w).value;
      assert HasFacts(cfg, w.bytes, r.start);
      var s :| ScrapedAt(cfg, w.bytes, r.start, s);
      StoredOf(cfg, w, step, e, s);
      at' := r.start;
      ReachesLater(cfg, w.bytes, c.offset, Current(w').offset, at');
      if feeds != [] && at == r.start {
        SameSnapshot(cfg, w.bytes, at, s, feeds[|feeds| - 1].snapshot);
        feeds' := SameScrape(w.events, feeds, e, s);
      } else {
        if feeds != [] { TargetNotBefore(cfg, w.bytes, c.offset, at, r); }
        feeds' := NextScrape(w.events, feeds, e, s);
      }
    }
  }

  lemma SameSnapshot(cfg: Config, bytes: Bytes, pos: nat, s: Snapshot, t: Snapshot)
    requires ScrapedAt(cfg, bytes, pos, s) && ScrapedAt(cfg, bytes, pos, t)
    ensures s == t
  {
    assert RecordFacts(cfg, bytes, pos)[0] in RecordFacts(cfg, bytes, pos);
  }

  /** A poll stores at most the event it offers. */
  lemma PollStores(cfg: Config, w: World, step: Step)
    requires !step.Append?
    ensures var w', plan := Next(cfg, w, step), PlanPoll(cfg, w, step.now);
            && w'.bytes == w.bytes
            && (w'.events != w.events ==> plan.admit.Some? && w'.events == w.events + [plan.admit.value])
  {
    hide PlanPoll, Save, Refused, Twin;
    var plan := PlanPoll(cfg, w, step.now);
    if plan.save.Some? {
      SaveKeepsStore(cfg, w, plan.save.value);
      if plan.admit.Some? { SaveKeepsStore(cfg, w.(events := Admit(w.events, plan.admit.value)), plan.save.value); }
    }
  }

  /** Over every run of appends, polls and crashes on a file whose scrapes are in
      order, the store stays that of a feed of whole scrapes in time order: a
      scrape counts once however its items were stored, retried or skipped. */
  lemma {:induction false} RunFeeds(cfg: Config, w0: World, steps: seq<Step>, feeds0: seq<Feed>, at0: nat)
    returns (feeds: seq<Feed>, at: nat)
    requires cfg.maxLines >= 1 && cfg.kind == Metrics && Good(cfg, w0) && Matches(w0) && Fed(cfg, w0, feeds0, at0)
    requires ScrapesInOrder(cfg, Run(cfg, w0, steps).bytes)
    ensures Matches(Run(cfg, w0, steps)) && Fed(cfg, Run(cfg, w0, steps), feeds, at)
    decreases |steps|
  {
    hide Good, Refines, Fed, ScrapesInOrder, PlanPoll, Apply;
    feeds, at := feeds0, at0;
    if steps != [] {
      var n := |steps| - 1;
      var w, step := Run(cfg, w0, steps[..n]), steps[n];
      StepOrder(cfg, w, step);
      feeds, at := RunFeeds(cfg, w0, steps[..n], feeds0, at0);
      var vs := ExactlyOnce(cfg, w0, steps[..n]);
      StepLater(cfg, w, step);
      match step {
        case Append(more) => AppendFed(cfg, w, more, feeds, at);
        case Poll(_) => feeds, at := PollFeeds(cfg, w, step, feeds, at);
        case CrashedPoll(_) => feeds, at := PollFeeds(cfg, w, step, feeds, at);
      }
    }
  }

  lemma StepOrder(cfg: Config, w: World, step: Step)
    requires ScrapesInOrder(cfg, Next(cfg, w, step).bytes)
    ensures ScrapesInOrder(cfg, w.bytes)
  {
    hide ScrapesInOrder, PlanPoll, Apply;
    match step {
      case Append(more) => OrderEarlier(cfg, w.bytes, more);
      case Poll(_) => PollStores(cfg, w, step);
      case CrashedPoll(_) => PollStores(cfg, w, step);
    }
  }

  lemma StepLater(cfg: Config, w: World, step: Step)
    requires cfg.maxLines >= 1 && Good(cfg, w) && Matches(w)
    ensures var w' := Next(cfg, w, step); Good(cfg, w') && Matches(w') && Current(w).offset <= Current(w').offset
  {
    hide Next, Good;
    var one := [step];
    assert one[..0] == [] && Run(cfg, w, []) == w && Run(cfg, w, one) == Next(cfg, w, step);
    var vs := ExactlyOnce(cfg, w, one);
  }

  lemma AppendFed(cfg: Config, w: World, more: Bytes, feeds: seq<Feed>, at: nat)
    requires Matches(w) && Fed(cfg, w, feeds, at)
    ensures Matches(Next(cfg, w, Append(more))) && Fed(cfg, Next(cfg, w, Append(more)), feeds, at)
  {
    hide Behind, RecordFacts, NextEnd, FactsBetween;
    if feeds != [] {
      HasFactsLater(cfg, w.bytes, more, at);
      ReachesStable(cfg, w.bytes, more, Current(w).offset, at);
    }
  }

  ghost predicate ShownIn(entry: Entry, events: seq<Event>) {
    exists e :: e in events && e.observed == entry.snapshot.observed
  }

  /** An empty store is that of the empty feed. */
  lemma NothingFed(cfg: Config, w: World)
    requires Matches(w) && w.events == []
    ensures Fed(cfg, w, [], 0)
  {
    assert Sources([]) == [];
  }

  /** Conservation over the reader's runs, from an empty store or any store that is
      fed so far: after any run there is a ledger of scrapes, oldest first, such that
      every stored event shows the amounts of the ledger entry of its instant, every
      entry is shown by some stored event, the amounts since the last reset add up to
      the counters read at each entry, and entries that are not resets abut. */
  lemma RunConserves(cfg: Config, w0: World, steps: seq<Step>, feeds0: seq<Feed>, at0: nat) returns (ledger: seq<Entry>)
    requires cfg.maxLines >= 1 && cfg.kind == Metrics && Good(cfg, w0) && Matches(w0)
    requires w0.events == [] || Fed(cfg, w0, feeds0, at0)
    requires ScrapesInOrder(cfg, Run(cfg, w0, steps).bytes)
    ensures Ascending(ledger)
    ensures forall e | e in Run(cfg, w0, steps).events :: FromLedger(ledger, e)
    ensures forall entry | entry in ledger :: ShownIn(entry, Run(cfg, w0, steps).events)
    ensures forall k | 0 <= k < |ledger| :: Conserved(ledger, k) && Abuts(ledger, k)
  {
    hide Good, ScrapesInOrder, Run, ScrapedAt, Reaches, Conserved, Abuts, Ascending, FromLedger, Climbs;
    var w := Run(cfg, w0, steps);
    var feeds, at := feeds0, at0;
    if w0.events == [] {
      NothingFed(cfg, w0);
      feeds, at := [], 0;
    }
    feeds, at := RunFeeds(cfg, w0, steps, feeds, at);
    ledger := Replay(feeds).ledger;
    IntervalsConserve(feeds);
    RunKeepsOrder(feeds);
    forall entry | entry in ledger ensures ShownIn(entry, w.events) {
      assert HasRow(Sources(w.events), entry);
      RowIsEvent(w.events, entry);
    }
  }

  lemma RowIsEvent(events: seq<Event>, entry: Entry)
    requires HasRow(Sources(events), entry)
    ensures ShownIn(entry, events)
  {
    var row :| row in Sources(events) && RowOf(entry, row);
    var i :| 0 <= i < |events| && Sources(events)[i] == row;
    assert events[i] in events && events[i].observed == entry.snapshot.observed;
  }
}
