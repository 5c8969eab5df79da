/** Cases the live snapshot does cut off: runs in which case after case posts its
    first checkpoint, and what a page opened afterwards shows. */
module LiveCutOff {
  import opened Options
  import opened SortedLists
  import opened LiveOutbox
  import opened LiveTransactions
  import opened LiveSnapshot
  import LiveStream

  function FirstProjection(c: nat): Projection {
    Projection(c, 1, 1, 1, 1, false, c, 0)
  }

  function FirstEvent(c: nat): Event {
    Event(c, c, 1, 1, 1, false)
  }

  function FirstLog(c: nat): CaseLog {
    CaseLog(map[1 := FirstProjection(c)], map[1 := FirstEvent(c)], map[], map[])
  }

  function Checkpoint(c: nat): Commit {
    Initialize(FirstProjection(c), FirstEvent(c))
  }

  /** One writer, from its first statement to its commit. */
  function Writer(c: nat): seq<LiveTransactions.Step> {
    [Begin(c, Checkpoint(c)), LockCase(c), Read(c), LockTenant(c), Insert(c), Finish(c)]
  }

  /** The cases 1 to n post their first checkpoints, one after the other. */
  function Checkpoints(n: nat): seq<LiveTransactions.Step> {
    if n == 0 then [] else Checkpoints(n - 1) + Writer(n)
  }

  /** The tables then: one projection, one event and one outbox row each. */
  ghost predicate Checkpointed(t: Tables, n: nat) {
    (forall c :: LogAfter(t, c, n)) && OutboxAfter(t.outbox, n)
  }

  predicate LogAfter(t: Tables, c: int, n: nat) {
    LogOf(t, c) == if 1 <= c <= n then FirstLog(c) else NO_LOG
  }

  ghost predicate OutboxAfter(outbox: map<nat, Live>, n: nat) {
    Dense(outbox) && |outbox| == n && forall k | k in outbox :: outbox[k].eventId == k
  }

  /** Nobody is writing, and later ids are unused. */
  ghost predicate Quiet(s: LiveTransactions.State, n: nat) {
    s.txns == map[] && s.caseLocks == map[] && s.tenantLock == None && forall id | id in s.outcomes :: id <= n
  }

  lemma Accepted(t: Tables, n: nat)
    requires Checkpointed(t, n)
    ensures WellFormed(Checkpoint(n + 1)) && Decide(t, Checkpoint(n + 1)) == Accept
  {
    assert LogAfter(t, n + 1, n);
    hide Top, Dense;
  }

  lemma TopIs(t: Tables, n: nat)
    requires Checkpointed(t, n)
    ensures Top(t.outbox.Keys) == n
  {
    DenseTop(t.outbox);
    hide Top;
  }

  /** The snapshot row a first checkpoint stages, and all it has written in the end. */
  function StagedRow(c: nat): Delta {
    NO_ROWS.(projections := map[1 := FirstProjection(c)])
  }

  function AllRows(c: nat): Delta {
    Delta(map[1 := FirstProjection(c)], map[1 := FirstEvent(c)], map[c := Live(c, c, false, FirstProjection(c))])
  }

  /** What the insert of a first checkpoint sees: nothing is in its way. */
  lemma NothingInTheWay(t: Tables, n: nat)
    requires Checkpointed(t, n)
    ensures var view := Overlay(t, n + 1, StagedRow(n + 1));
            view.outbox == t.outbox && !Violates(view, FirstProjection(n + 1), FirstEvent(n + 1))
  {
    hide Dense, FirstLog;
    var c := n + 1;
    assert LogAfter(t, c, n);
    SeesOwnRow(t, c);
    forall k | k in t.outbox ensures t.outbox[k].eventId != c { InDense(t.outbox, k); }
    hide Overlay, Checkpointed, LogOf;
  }

  lemma SeesOwnRow(t: Tables, c: nat)
    requires LogOf(t, c) == NO_LOG
    ensures var view := Overlay(t, c, StagedRow(c));
            view.outbox == t.outbox && LogOf(view, c) == CaseLog(map[1 := FirstProjection(c)], map[], map[], map[])
  {
    assert t.outbox + map[] == t.outbox;
    assert NO_LOG.projections + map[1 := FirstProjection(c)] == map[1 := FirstProjection(c)];
  }

  lemma InDense<V>(m: map<nat, V>, k: nat)
    requires Dense(m) && k in m
    ensures 1 <= k <= |m|
  {
  }

  lemma OutboxLeaves(outbox: map<nat, Live>, row: Live, n: nat)
    requires OutboxAfter(outbox, n) && row.eventId == n + 1
    ensures OutboxAfter(outbox + map[n + 1 := row], n + 1)
  {
    DenseSnoc(outbox, row);
    assert outbox + map[n + 1 := row] == outbox[|outbox| + 1 := row];
    hide Dense;
  }

  /** What its commit leaves. */
  lemma CommitLeaves(t: Tables, n: nat)
    requires Checkpointed(t, n)
    ensures Checkpointed(Overlay(t, n + 1, AllRows(n + 1)), n + 1)
  {
    hide OutboxAfter;
    var c := n + 1;
    var t' := Overlay(t, c, AllRows(c));
    OutboxLeaves(t.outbox, Live(c, c, false, FirstProjection(c)), n);
    forall d ensures LogAfter(t', d, c) {
      assert LogAfter(t, d, n);
    }
  }

  /** Writer `c` is the only one and stands at a phase. */
  function Alone(s: LiveTransactions.State, c: nat, phase: Phase, delta: Delta, tenantLock: Option<int>): LiveTransactions.State {
    s.(txns := map[c := Txn(Checkpoint(c), phase, delta)], caseLocks := map[c := c], tenantLock := tenantLock)
  }

  lemma Begins(s: LiveTransactions.State, n: nat)
    requires Quiet(s, n)
    ensures var c := n + 1;
            Next(s, Begin(c, Checkpoint(c))) == s.(txns := map[c := Txn(Checkpoint(c), Waiting, NO_ROWS)])
  {
    assert WellFormed(Checkpoint(n + 1));
    hide WellFormed, Checkpoint;
  }

  lemma Locks(s: LiveTransactions.State, c: nat)
    requires s.caseLocks == map[] && s.tenantLock == None
    ensures Next(s.(txns := map[c := Txn(Checkpoint(c), Waiting, NO_ROWS)]), LockCase(c)) == Alone(s, c, Reading, NO_ROWS, None)
  {
    assert CaseOf(Txn(Checkpoint(c), Waiting, NO_ROWS)) == c;
    hide Checkpoint;
  }

  /** A read that accepts, and the tenant lock when it is free. */
  lemma ReadStep(s: LiveTransactions.State, id: int)
    requires id in s.txns && s.txns[id].phase == Reading && Decide(s.committed, s.txns[id].commit) == Accept && s.tenantLock == None
    ensures var txn := s.txns[id];
            var staged := NO_ROWS.(projections := map[txn.commit.projection.projectionRevision := txn.commit.projection]);
            Next(Next(s, Read(id)), LockTenant(id)) ==
            s.(txns := s.txns[id := Txn(txn.commit, Staged, staged)][id := Txn(txn.commit, Inserting(0), staged)], tenantLock := Some(id))
  {
    hide Decide, End, EventsOf;
  }

  lemma Stages(s: LiveTransactions.State, n: nat)
    requires Checkpointed(s.committed, n)
    ensures var c := n + 1;
            Next(Next(Alone(s, c, Reading, NO_ROWS, None), Read(c)), LockTenant(c)) == Alone(s, c, Inserting(0), StagedRow(c), Some(c))
  {
    hide Checkpointed, Decide, WellFormed, Next;
    var c := n + 1;
    Accepted(s.committed, n);
    ReadStep(Alone(s, c, Reading, NO_ROWS, None), c);
    assert map[c := Txn(Checkpoint(c), Reading, NO_ROWS)][c := Txn(Checkpoint(c), Staged, StagedRow(c))][c := Txn(Checkpoint(c), Inserting(0), StagedRow(c))]
        == map[c := Txn(Checkpoint(c), Inserting(0), StagedRow(c))];
  }

  lemma MovesOn(s: LiveTransactions.State, c: nat, phase: Phase, delta: Delta, lock: Option<int>, phase': Phase, delta': Delta)
    ensures var alone := Alone(s, c, phase, delta, lock);
            alone.(txns := alone.txns[c := Txn(Checkpoint(c), phase', delta')]) == Alone(s, c, phase', delta', lock)
  {
    assert map[c := Txn(Checkpoint(c), phase, delta)][c := Txn(Checkpoint(c), phase', delta')] == map[c := Txn(Checkpoint(c), phase', delta')];
  }

  /** The rows one insert adds to what was staged. */
  lemma AddsRows(t: Tables, n: nat)
    requires Checkpointed(t, n)
    ensures var c, view := n + 1, Overlay(t, n + 1, StagedRow(n + 1));
            && !Violates(view, FirstProjection(c), FirstEvent(c))
            && Delta(StagedRow(c).projections, StagedRow(c).events[1 := FirstEvent(c)],
                     StagedRow(c).outbox[Top(view.outbox.Keys) + 1 := Live(c, c, false, FirstProjection(c))]) == AllRows(c)
  {
    hide Checkpointed, Violates, Overlay, Top;
    NothingInTheWay(t, n);
    TopIs(t, n);
  }

  /** An insert that no key turns down. */
  lemma InsertStep(s: LiveTransactions.State, id: int, done: nat, delta: Delta)
    requires id in s.txns && s.txns[id].phase == Inserting(done) && done < |EventsOf(s.txns[id].commit)|
    requires var txn := s.txns[id];
             var p, e, view := txn.commit.projection, EventsOf(txn.commit)[done], Overlay(s.committed, CaseOf(txn), txn.delta);
             && !Violates(view, p, e)
             && delta == Delta(txn.delta.projections, txn.delta.events[e.sequence := e],
                               txn.delta.outbox[Top(view.outbox.Keys) + 1 := Live(e.id, p.caseId, e.completed, p)])
    ensures Next(s, Insert(id)) == s.(txns := s.txns[id := Txn(s.txns[id].commit, Inserting(done + 1), delta)])
  {
    hide Overlay, Violates, Top, EventsOf, End;
  }

  lemma Inserts(s: LiveTransactions.State, n: nat)
    requires Checkpointed(s.committed, n)
    ensures var c := n + 1;
            Next(Alone(s, c, Inserting(0), StagedRow(c), Some(c)), Insert(c)) == Alone(s, c, Inserting(1), AllRows(c), Some(c))
  {
    hide Checkpointed, Overlay, Violates, Top, StagedRow, AllRows, Next;
    var c := n + 1;
    AddsRows(s.committed, n);
    InsertStep(Alone(s, c, Inserting(0), StagedRow(c), Some(c)), c, 0, AllRows(c));
    MovesOn(s, c, Inserting(0), StagedRow(c), Some(c), Inserting(1), AllRows(c));
  }

  lemma EndsAlone(s: LiveTransactions.State, c: nat, phase: Phase, delta: Delta, outcome: Outcome)
    ensures var s' := End(Alone(s, c, phase, delta, Some(c)), c, outcome);
            && s'.txns == map[] && s'.caseLocks == map[] && s'.tenantLock == None
            && s'.outcomes == s.outcomes[c := outcome]
  {
    hide Checkpoint;
  }

  /** The last statement, written out. */
  lemma FinishStep(s: LiveTransactions.State, id: int)
    requires id in s.txns && s.txns[id].phase == Inserting(|EventsOf(s.txns[id].commit)|) && s.txns[id].commit.Initialize?
    ensures Next(s, Finish(id)) ==
            End(s, id, Committed).(committed := Overlay(s.committed, CaseOf(s.txns[id]), s.txns[id].delta),
                                   history := s.history + [s.txns[id].commit])
  {
    hide Overlay, EventsOf, End;
  }

  lemma Finishes(s: LiveTransactions.State, n: nat)
    requires Quiet(s, n) && Checkpointed(s.committed, n)
    ensures var c := n + 1;
            var s6 := Next(Alone(s, c, Inserting(1), AllRows(c), Some(c)), Finish(c));
            Quiet(s6, c) && Checkpointed(s6.committed, c)
  {
    hide Checkpointed, Overlay, AllRows, FirstEvent, End, Next;
    var c := n + 1;
    CommitLeaves(s.committed, n);
    EndsAlone(s, c, Inserting(1), AllRows(c), Committed);
    FinishStep(Alone(s, c, Inserting(1), AllRows(c), Some(c)), c);
    OutcomesLater(s.outcomes, s.outcomes[c := Committed], n, c);
  }

  lemma OutcomesLater(outcomes: map<int, Outcome>, after: map<int, Outcome>, n: nat, c: nat)
    requires (forall id | id in outcomes :: id <= n) && n < c && after == outcomes[c := Committed]
    ensures forall id | id in after :: id <= c
  {
  }

  lemma QuietLocks(s: LiveTransactions.State, n: nat)
    requires Quiet(s, n)
    ensures s.caseLocks == map[] && s.tenantLock == None
  {
  }

  /** A writer that runs alone gets through all its statements. */
  lemma WriterRuns(s: LiveTransactions.State, n: nat)
    requires Quiet(s, n) && Checkpointed(s.committed, n)
    ensures var c := n + 1;
            var s4 := Next(Next(Next(Next(s, Begin(c, Checkpoint(c))), LockCase(c)), Read(c)), LockTenant(c));
            var s6 := Next(Next(s4, Insert(c)), Finish(c));
            Quiet(s6, c) && Checkpointed(s6.committed, c)
  {
    hide Checkpointed, Next, Quiet, Checkpoint;
    assert s.caseLocks == map[] && s.tenantLock == None by { QuietLocks(s, n); }
    Begins(s, n);
    Locks(s, n + 1);
    Stages(s, n);
    Inserts(s, n);
    Finishes(s, n);
  }

  lemma RunSnoc(steps: seq<LiveTransactions.Step>, step: LiveTransactions.Step)
    ensures Run(steps + [step]) == Next(Run(steps), step)
  {
    assert (steps + [step])[..|steps|] == steps;
  }

  lemma RunWriter(steps: seq<LiveTransactions.Step>, c: nat)
    ensures var s1 := Next(Run(steps), Begin(c, Checkpoint(c)));
            var s4 := Next(Next(Next(s1, LockCase(c)), Read(c)), LockTenant(c));
            Run(steps + Writer(c)) == Next(Next(s4, Insert(c)), Finish(c))
  {
    hide Run, Next, Checkpoint;
    var a := steps + [Begin(c, Checkpoint(c))];
    var b := a + [LockCase(c)] + [Read(c)];
    var d := b + [LockTenant(c)] + [Insert(c)];
    RunSnoc(steps, Begin(c, Checkpoint(c)));
    RunSnoc(a, LockCase(c));
    RunSnoc(a + [LockCase(c)], Read(c));
    RunSnoc(b, LockTenant(c));
    RunSnoc(b + [LockTenant(c)], Insert(c));
    RunSnoc(d, Finish(c));
    assert steps + Writer(c) == d + [Finish(c)];
  }

  /** For every n there is a run that leaves the tables good with n cases. */
  lemma {:induction false} CheckpointsRun(n: nat)
    ensures Good(Run(Checkpoints(n)).committed)
    ensures Quiet(Run(Checkpoints(n)), n) && Checkpointed(Run(Checkpoints(n)).committed, n)
  {
    hide Good, Quiet, Checkpointed, Next, Inv;
    Serializable(Checkpoints(n));
    if n == 0 {
      NothingYet();
    } else {
      CheckpointsRun(n - 1);
      RunWriter(Checkpoints(n - 1), n);
      WriterRuns(Run(Checkpoints(n - 1)), n - 1);
    }
  }

  lemma NothingYet()
    ensures Quiet(START, 0) && Checkpointed(START.committed, 0)
  {
    assert |NO_TABLES.outbox| == 0;
  }

  // ---- Who is cut off -----------------------------------------------------------

  lemma OneProjection(c: nat)
    ensures Latest(FirstLog(c)) == Some(FirstProjection(c))
  {
    assert FirstLog(c).projections.Keys == {1};
  }

  lemma ActiveCase(t: Tables, n: nat, c: int)
    requires Checkpointed(t, n)
    ensures LatestActive(t, c) == if 1 <= c <= n then Some(FirstProjection(c)) else None
    ensures 1 <= c <= n ==> c in t.cases
  {
    assert LogAfter(t, c, n);
    if 1 <= c <= n { OneProjection(c); }
    hide Top;
  }

  /** The first checkpoints of the cases after `lo`, up to `n`. */
  function LaterOnes(lo: nat, n: nat): set<Projection> {
    set c: nat | lo < c <= n :: FirstProjection(c)
  }

  lemma {:induction false} LaterCount(lo: nat, n: nat)
    requires lo <= n
    ensures |LaterOnes(lo, n)| == n - lo
    decreases n
  {
    if lo < n {
      LaterCount(lo, n - 1);
      assert LaterOnes(lo, n) == LaterOnes(lo, n - 1) + {FirstProjection(n)};
      assert FirstProjection(n) !in LaterOnes(lo, n - 1);
    } else {
      assert LaterOnes(lo, n) == {};
    }
  }

  lemma AheadOf(t: Tables, n: nat, c: nat)
    requires Checkpointed(t, n) && 1 <= c <= n
    ensures Ahead(t, FirstProjection(c)) == LaterOnes(c, n)
  {
    forall d ensures LatestActive(t, d) == (if 1 <= d <= n then Some(FirstProjection(d)) else None) && (1 <= d <= n ==> d in t.cases) {
      ActiveCase(t, n, d);
    }
    hide LatestActive, Checkpointed;
    forall p ensures p in Ahead(t, FirstProjection(c)) <==> p in LaterOnes(c, n) {
      if p in Ahead(t, FirstProjection(c)) {
        var d :| d in t.cases && LatestActive(t, d).Some? && LatestActive(t, d).value == p;
        assert p == FirstProjection(d);
      }
      if p in LaterOnes(c, n) {
        var d: nat :| c < d <= n && FirstProjection(d) == p;
        assert LatestActive(t, d) == Some(p) && p in ActiveProjections(t);
      }
    }
  }

  /** After n first checkpoints exactly the cases with a hundred or more later ones
      are cut off: of 101 cases, the first. */
  lemma CutOffAfter(n: nat, c: int)
    ensures var t := Run(Checkpoints(n)).committed;
            Good(t) && (CutOff(t, c) <==> 1 <= c <= n - LiveStream.SNAPSHOT_LIMIT)
  {
    var t := Run(Checkpoints(n)).committed;
    CheckpointsRun(n);
    hide Run, Good;
    ActiveCase(t, n, c);
    if 1 <= c <= n {
      AheadOf(t, n, c);
      LaterCount(c, n);
    }
    hide LatestActive, Ahead, Checkpointed;
  }

  /** A case cut off stays off the page, over any session, for as long as no row of
      its own arrives, though the outbox has it as an active case. */
  lemma InvisibleUntilHeard(t: Tables, steps: seq<LiveStream.Step>, c: int)
    requires Good(t) && CutOff(t, c)
    requires LastRow(LiveStream.Run(LiveStream.Opened(t.outbox, SnapshotMap(t)), steps).outbox, c, |t.outbox|,
                     LiveStream.Run(LiveStream.Opened(t.outbox, SnapshotMap(t)), steps).client.sequence).None?
    ensures var s := LiveStream.Run(LiveStream.Opened(t.outbox, SnapshotMap(t)), steps);
            c !in s.client.incidents && ActiveAt(s.outbox, c, s.client.sequence) == LatestActive(t, c) && LatestActive(t, c).Some?
  {
    hide Good, LiveStream.Run, LiveStream.RowsAgree, LiveStream.Fold, CutOff, LastRow, SummaryAt, LatestActive, SnapshotRows;
    var s := LiveStream.Run(LiveStream.Opened(t.outbox, SnapshotMap(t)), steps);
    GoodAgrees(t);
    LiveStream.DeliveredExactly(t.outbox, SnapshotMap(t), steps);
    CutOffActive(t, c);
    CutOffByCount(t, c);
    FoldByLastRow(SnapshotMap(t), s.outbox, c, |t.outbox|, s.client.sequence);
    SummaryByLastRow(s.outbox, c, |t.outbox|, s.client.sequence);
    LatestAtSnapshot(t, s.outbox, c);
  }

  /** After n first checkpoints a page opens: it shows none of the first n - 100
      cases, each of them active and not resolved. */
  lemma OldestInvisible(n: nat, c: nat)
    requires 1 <= c <= n - LiveStream.SNAPSHOT_LIMIT
    ensures var t := Run(Checkpoints(n)).committed;
            && Good(t) && LatestActive(t, c) == Some(FirstProjection(c))
            && var s := LiveStream.Opened(t.outbox, SnapshotMap(t));
               c !in s.client.incidents && !ShowsLatest(s, c)
  {
    hide LiveTransactions.Run, Checkpoints;
    var t := Run(Checkpoints(n)).committed;
    CheckpointsRun(n);
    CutOffAfter(n, c);
    ActiveCase(t, n, c);
    hide Good, LatestActive, CutOff, SnapshotRows, Checkpointed, ActiveAt, LastRow, FirstProjection;
    assert LiveStream.Run(LiveStream.Opened(t.outbox, SnapshotMap(t)), []) == LiveStream.Opened(t.outbox, SnapshotMap(t));
    NoRowYet(t.outbox, c, |t.outbox|);
    InvisibleUntilHeard(t, [], c);
  }

  /** The input: 101 cases post their first checkpoints, and the page that opens
      then does not show the first of them. */
  lemma FirstOf101Invisible()
    ensures var t := Run(Checkpoints(101)).committed;
            Good(t) && LatestActive(t, 1).Some? && 1 !in LiveStream.Opened(t.outbox, SnapshotMap(t)).client.incidents
  {
    hide Run, Checkpoints, Good, LatestActive, SnapshotMap, FirstProjection;
    OldestInvisible(101, 1);
  }

  lemma NoRowYet(outbox: map<nat, Live>, c: int, n: nat)
    ensures LastRow(outbox, c, n, n).None?
  {
  }
}
