/** A bounded snapshot plus the resumed stream, compared with the latest
    projections at the cursor delivered. */
module LiveSnapshot {
  import opened Options
  import opened SortedLists
  import opened LiveOutbox
  import opened LiveStream
  import LiveTransactions

  /** Newest first, ties broken by case id, both descending. */
  predicate Newer(a: Projection, b: Projection) {
    a.generatedAt > b.generatedAt || (a.generatedAt == b.generatedAt && a.caseId > b.caseId)
  }

  lemma NewerOrder()
    ensures StrictOrder(Newer)
  {
  }

  ghost function LatestActive(t: Tables, c: int): Option<Projection> {
    match Latest(LogOf(t, c))
    case None => None
    case Some(p) => if p.resolved then None else Some(p)
  }

  ghost function ActiveProjections(t: Tables): set<Projection> {
    set c | c in t.cases && LatestActive(t, c).Some? :: LatestActive(t, c).value
  }

  lemma ActiveTotal(t: Tables)
    requires Good(t)
    ensures StrictOrder(Newer) && TotalOn(Newer, ActiveProjections(t))
    ensures forall c | LatestActive(t, c).Some? :: LatestActive(t, c).value.caseId == c && LatestActive(t, c).value in ActiveProjections(t)
  {
    NewerOrder();
    forall c | LatestActive(t, c).Some?
      ensures LatestActive(t, c).value.caseId == c && LatestActive(t, c).value in ActiveProjections(t)
    {
      GoodParts(t, c);
      assert c in t.cases;
    }
  }

  /** The `incidents` of the live snapshot: the newest active projections. */
  ghost function SnapshotRows(t: Tables, limit: nat): (rows: seq<Projection>)
    requires Good(t)
    ensures forall p | p in rows :: p in ActiveProjections(t)
  {
    ActiveTotal(t);
    First(Listing(Newer, ActiveProjections(t)), limit)
  }

  ghost function SnapshotMap(t: Tables): (m: map<int, Projection>)
    requires Good(t)
    ensures forall c :: c in m <==> LatestActive(t, c).Some? && LatestActive(t, c).value in SnapshotRows(t, SNAPSHOT_LIMIT)
    ensures forall c | c in m :: Some(m[c]) == LatestActive(t, c)
  {
    ActiveTotal(t);
    map c | c in t.cases && LatestActive(t, c).Some? && LatestActive(t, c).value in SnapshotRows(t, SNAPSHOT_LIMIT)
      :: LatestActive(t, c).value
  }

  /** The active projections that are newer than a given one. */
  ghost function Ahead(t: Tables, p: Projection): set<Projection> {
    Preceding(Newer, ActiveProjections(t), p)
  }

  /** An active case with as many newer active projections as the row limit. */
  ghost predicate CutOff(t: Tables, c: int) {
    LatestActive(t, c).Some? && |Ahead(t, LatestActive(t, c).value)| >= SNAPSHOT_LIMIT
  }

  /** An element is among the first `n` of a listing exactly when fewer than `n`
      elements precede it. */
  lemma AmongFirst<T(!new)>(less: (T, T) -> bool, xs: seq<T>, s: set<T>, x: T, n: nat)
    requires StrictOrder(less) && Lists(less, xs, s) && x in s
    ensures x in First(xs, n) <==> |Preceding(less, s, x)| < n
  {
    assert x in Elements(xs);
    var k :| 0 <= k < |xs| && xs[k] == x;
    RankIsPosition(less, xs, k);
    assert Elements(xs) == s;
    if k < n { assert First(xs, n)[k] == x; }
    if x in First(xs, n) {
      var i :| 0 <= i < |First(xs, n)| && First(xs, n)[i] == x;
      assert xs[i] == x && !less(x, x);
      assert i == k;
    }
  }

  /** Those are exactly the active cases the limit leaves out of the snapshot. */
  lemma CutOffByCount(t: Tables, c: int)
    requires Good(t) && LatestActive(t, c).Some?
    ensures CutOff(t, c) <==> LatestActive(t, c).value !in SnapshotRows(t, SNAPSHOT_LIMIT)
  {
    hide Good, LatestActive, ActiveProjections, Newer, First, Preceding;
    ActiveTotal(t);
    AmongFirst(Newer, Listing(Newer, ActiveProjections(t)), ActiveProjections(t), LatestActive(t, c).value, SNAPSHOT_LIMIT);
  }

  /** With no more active cases than the limit, none is left out. */
  lemma SmallTenantNotCut(t: Tables, c: int)
    requires |ActiveProjections(t)| <= SNAPSHOT_LIMIT
    ensures !CutOff(t, c)
  {
    if LatestActive(t, c).Some? {
      var p := LatestActive(t, c).value;
      if c in t.cases {
        assert p in ActiveProjections(t) && p !in Ahead(t, p);
      }
      SmallerSet(Ahead(t, p), ActiveProjections(t));
    }
  }

  lemma SmallerSet<T>(part: set<T>, whole: set<T>)
    requires part <= whole
    ensures |part| <= |whole| && (part != whole ==> |part| < |whole|)
  {
    assert |whole - part| == |whole| - |part|;
    if part != whole { assert whole - part != {}; }
  }

  function Lookup(m: map<int, Projection>, c: int): Option<Projection> {
    if c in m then Some(m[c]) else None
  }

  /** The last outbox row of a case among `lo + 1 .. hi`. */
  ghost function LastRow(outbox: map<nat, Live>, c: int, lo: nat, hi: nat): Option<Live> {
    if hi <= lo then None
    else if hi in outbox && outbox[hi].caseId == c then Some(outbox[hi])
    else LastRow(outbox, c, lo, hi - 1)
  }

  /** What the outbox says about a case at cursor `n`: its latest projection, unless resolved. */
  ghost function ActiveAt(outbox: map<nat, Live>, c: int, n: nat): Option<Projection> {
    match SummaryAt(outbox, c, n)
    case None => None
    case Some(p) => if p.resolved then None else Some(p)
  }

  lemma {:induction false} FoldByLastRow(m: map<int, Projection>, outbox: map<nat, Live>, c: int, lo: nat, hi: nat)
    requires RowsAgree(outbox)
    ensures Lookup(Fold(m, outbox, lo, hi), c) ==
            match LastRow(outbox, c, lo, hi)
            case None => Lookup(m, c)
            case Some(row) => if row.completed || row.summary.resolved then None else Some(row.summary)
    decreases hi
  {
    if hi > lo { FoldByLastRow(m, outbox, c, lo, hi - 1); }
  }

  lemma {:induction false} SummaryByLastRow(outbox: map<nat, Live>, c: int, lo: nat, hi: nat)
    requires lo <= hi
    ensures SummaryAt(outbox, c, hi) ==
            match LastRow(outbox, c, lo, hi) case None => SummaryAt(outbox, c, lo) case Some(row) => Some(row.summary)
    decreases hi
  {
    if hi > lo { SummaryByLastRow(outbox, c, lo, hi - 1); }
  }

  lemma {:induction false} SummaryStable(outbox: map<nat, Live>, later: map<nat, Live>, c: int, n: nat)
    requires Dense(outbox) && Extends(outbox, later) && n <= |outbox|
    ensures SummaryAt(later, c, n) == SummaryAt(outbox, c, n)
  {
    if n > 0 { SummaryStable(outbox, later, c, n - 1); }
  }

  lemma LatestAtSnapshot(t: Tables, later: map<nat, Live>, c: int)
    requires Good(t) && Extends(t.outbox, later)
    ensures ActiveAt(later, c, |t.outbox|) == LatestActive(t, c)
  {
    GoodParts(t, c);
    SummaryStable(t.outbox, later, c, |t.outbox|);
    if Latest(LogOf(t, c)).None? { NoRowsOf(t, c, |t.outbox|); }
  }

  lemma {:induction false} NoRowsOf(t: Tables, c: int, n: nat)
    requires RowsGood(t) && LogOf(t, c) == NO_LOG
    ensures SummaryAt(t.outbox, c, n) == None
  {
    if n > 0 {
      NoRowsOf(t, c, n - 1);
      assert n in t.outbox ==> SummaryStored(t, t.outbox[n]);
    }
  }

  /** The page shows a case as the outbox has it at the page's cursor. */
  ghost predicate ShowsLatest(s: Session, c: int) {
    Lookup(s.client.incidents, c) == ActiveAt(s.outbox, c, s.client.sequence)
  }

  /** The case was heard of since the snapshot, last by a row that is not the
      completion of an unresolved case; or the snapshot did not cut it off. */
  ghost predicate HeardOf(t: Tables, s: Session, c: int) {
    match LastRow(s.outbox, c, |t.outbox|, s.client.sequence)
    case Some(row) => row.completed ==> row.summary.resolved
    case None => !CutOff(t, c)
  }

  lemma CutOffActive(t: Tables, c: int)
    requires CutOff(t, c)
    ensures LatestActive(t, c).Some?
  {
  }

  lemma CaseRebuiltIff(t: Tables, s: Session, c: int)
    requires Good(t) && Extends(t.outbox, s.outbox) && RowsAgree(s.outbox) && |t.outbox| <= s.client.sequence
    requires s.client.incidents == Fold(SnapshotMap(t), s.outbox, |t.outbox|, s.client.sequence)
    ensures ShowsLatest(s, c) <==> HeardOf(t, s, c)
  {
    hide Good, SnapshotRows, Fold, LastRow, SummaryAt, LatestActive, CutOff;
    if LatestActive(t, c).Some? { CutOffByCount(t, c); }
    if CutOff(t, c) { CutOffActive(t, c); }
    FoldByLastRow(SnapshotMap(t), s.outbox, c, |t.outbox|, s.client.sequence);
    SummaryByLastRow(s.outbox, c, |t.outbox|, s.client.sequence);
    LatestAtSnapshot(t, s.outbox, c);
  }

  lemma GoodAgrees(t: Tables)
    requires Good(t)
    ensures Dense(t.outbox) && RowsAgree(t.outbox)
  {
    forall n | n in t.outbox ensures t.outbox[n].summary.caseId == t.outbox[n].caseId {
      assert SummaryStored(t, t.outbox[n]);
    }
  }

  /** Snapshot plus stream, over any session with any commits, disconnects and
      resumes: the page shows, for every case, the latest unresolved projection at
      the delivered cursor if and only if the case was heard of since the snapshot
      or the snapshot's limit did not cut it off. */
  lemma SnapshotPlusStream(t: Tables, steps: seq<LiveStream.Step>)
    requires Good(t)
    ensures var s := Run(Opened(t.outbox, SnapshotMap(t)), steps);
            forall c :: ShowsLatest(s, c) <==> HeardOf(t, s, c)
  {
    hide Good, SnapshotMap, Fold, Run, RowsAgree, ShowsLatest, HeardOf;
    GoodAgrees(t);
    DeliveredExactly(t.outbox, SnapshotMap(t), steps);
    forall c
      ensures var s := Run(Opened(t.outbox, SnapshotMap(t)), steps); ShowsLatest(s, c) <==> HeardOf(t, s, c)
    {
      CaseRebuiltIff(t, Run(Opened(t.outbox, SnapshotMap(t)), steps), c);
    }
  }

  /** Any two instants of any interleaving of writers are related as the session's
      growth step asks, and a page that has caught up with good tables holds their
      latest projections. */
  lemma WritersGrow(steps: seq<LiveTransactions.Step>, k: nat)
    requires k <= |steps|
    ensures var now, later := LiveTransactions.Run(steps[..k]).committed, LiveTransactions.Run(steps).committed;
            && Good(now) && Good(later)
            && Dense(later.outbox) && RowsAgree(later.outbox) && Extends(now.outbox, later.outbox)
            && forall c :: ActiveAt(later.outbox, c, |later.outbox|) == LatestActive(later, c)
  {
    hide Good, RowsAgree, Dense, Extends, ActiveAt, LatestActive, LiveTransactions.Inv, LogGrows;
    var now, later := LiveTransactions.Run(steps[..k]).committed, LiveTransactions.Run(steps).committed;
    LiveTransactions.Serializable(steps[..k]);
    LiveTransactions.Serializable(steps);
    LiveTransactions.RunGrows(steps, k);
    GoodAgrees(later);
    ExtendsSelf(later.outbox);
    forall c ensures ActiveAt(later.outbox, c, |later.outbox|) == LatestActive(later, c) {
      LatestAtSnapshot(later, later.outbox, c);
    }
  }
}
