/** Concurrent writers of one tenant: transactions as steps that take the case
    lock, read, stage, take the tenant lock, allocate and commit. Every statement
    sees the committed rows and its own. */
module LiveTransactions {
  import opened Options
  import opened LiveOutbox

  /** Rows a transaction has written and not yet committed. */
  datatype Delta = Delta(projections: map<nat, Projection>, events: map<nat, Event>, outbox: map<nat, Live>)

  const NO_ROWS := Delta(map[], map[], map[])

  datatype Phase = Waiting | Reading | Staged | Inserting(done: nat)

  datatype Txn = Txn(commit: Commit, phase: Phase, delta: Delta)

  datatype Outcome = Committed | Answered(decision: Decision) | Aborted

  /** `history` lists the commits in commit order. */
  datatype State = State(
    committed: Tables, caseLocks: map<int, int>, tenantLock: Option<int>,
    txns: map<int, Txn>, outcomes: map<int, Outcome>, history: seq<Commit>)

  const START := State(NO_TABLES, map[], None, map[], map[], [])

  datatype Step =
    | Begin(id: int, commit: Commit)
    | LockCase(id: int)
    | Read(id: int)
    | LockTenant(id: int)
    | Insert(id: int)
    | Finish(id: int)
    | Abort(id: int)

  function Overlay(t: Tables, c: int, d: Delta): Tables {
    var log := LogOf(t, c);
    Tables(t.cases[c := log.(projections := log.projections + d.projections, events := log.events + d.events)],
           t.outbox + d.outbox)
  }

  /** The transaction is over: both locks are released with it. */
  function End(s: State, id: int, outcome: Outcome): State
    requires id in s.txns
  {
    s.(txns := s.txns - {id}, outcomes := s.outcomes[id := outcome],
       caseLocks := map c | c in s.caseLocks && s.caseLocks[c] != id :: s.caseLocks[c],
       tenantLock := if s.tenantLock == Some(id) then None else s.tenantLock)
  }

  function CaseOf(txn: Txn): int { txn.commit.projection.caseId }

  /** Each step of one writer; a step that is not enabled changes nothing. */
  ghost function Next(s: State, step: Step): State {
    if step.Begin? then
      if step.id in s.txns || step.id in s.outcomes || !WellFormed(step.commit) then s
      else s.(txns := s.txns[step.id := Txn(step.commit, Waiting, NO_ROWS)])
    else if step.id !in s.txns then s
    else
      var id, txn := step.id, s.txns[step.id];
      match step
      case LockCase(_) =>
        if txn.phase != Waiting || CaseOf(txn) in s.caseLocks then s
        else s.(caseLocks := s.caseLocks[CaseOf(txn) := id], txns := s.txns[id := txn.(phase := Reading)])
      case Read(_) => if txn.phase != Reading then s else NextRead(s, id)
      case LockTenant(_) =>
        if txn.phase != Staged || s.tenantLock.Some? then s
        else s.(tenantLock := Some(id), txns := s.txns[id := txn.(phase := Inserting(0))])
      case Insert(_) =>
        if !txn.phase.Inserting? || txn.phase.done >= |EventsOf(txn.commit)| then s else NextInsert(s, id)
      case Finish(_) =>
        if txn.phase != Inserting(|EventsOf(txn.commit)|) then s else NextFinish(s, id)
      case Abort(_) => End(s, id, Aborted)
  }

  /** The reads under the case lock, and the snapshot row when they accept. */
  ghost function NextRead(s: State, id: int): State
    requires id in s.txns
  {
    var txn := s.txns[id];
    var p, decision := txn.commit.projection, Decide(s.committed, txn.commit);
    if decision != Accept then End(s, id, Answered(decision))
    else s.(txns := s.txns[id := txn.(phase := Staged, delta := NO_ROWS.(projections := map[p.projectionRevision := p]))])
  }

  ghost function NextInsert(s: State, id: int): State
    requires id in s.txns && s.txns[id].phase.Inserting? && s.txns[id].phase.done < |EventsOf(s.txns[id].commit)|
  {
    var txn := s.txns[id];
    var p, e, view := txn.commit.projection, EventsOf(txn.commit)[txn.phase.done], Overlay(s.committed, CaseOf(txn), txn.delta);
    if Violates(view, p, e) then End(s, id, Aborted)
    else
      var delta := txn.delta.(
        events := txn.delta.events[e.sequence := e],
        outbox := txn.delta.outbox[Top(view.outbox.Keys) + 1 := Live(e.id, p.caseId, e.completed, p)]);
      s.(txns := s.txns[id := Txn(txn.commit, Inserting(txn.phase.done + 1), delta)])
  }

  ghost function NextFinish(s: State, id: int): State
    requires id in s.txns
  {
    var txn := s.txns[id];
    End(s, id, Committed).(
      committed := Record(Overlay(s.committed, CaseOf(txn), txn.delta), txn.commit),
      history := s.history + [txn.commit])
  }

  ghost function Run(steps: seq<Step>): State {
    if steps == [] then START else Next(Run(steps[..|steps| - 1]), steps[|steps| - 1])
  }

  // ---- Invariant --------------------------------------------------------------------

  predicate HoldsCase(phase: Phase) { phase.Reading? || phase.Staged? || phase.Inserting? }

  /** What a transaction has done is what the serial transaction would have done
      by now on the tables as they are committed at this moment. */
  ghost predicate OnTrack(t: Tables, txn: Txn) {
    var p := txn.commit.projection;
    match txn.phase
    case Waiting => txn.delta == NO_ROWS
    case Reading => txn.delta == NO_ROWS
    case Staged =>
      && Decide(t, txn.commit) == Accept
      && txn.delta == NO_ROWS.(projections := map[p.projectionRevision := p])
    case Inserting(done) =>
      && Decide(t, txn.commit) == Accept && done <= |EventsOf(txn.commit)|
      && InsertEvents(Stage(t, p), p, EventsOf(txn.commit)[..done]) == Some(Overlay(t, CaseOf(txn), txn.delta))
  }

  ghost predicate Locked(s: State) {
    && (forall id | id in s.txns && HoldsCase(s.txns[id].phase) ::
          CaseOf(s.txns[id]) in s.caseLocks && s.caseLocks[CaseOf(s.txns[id])] == id)
    && (forall id | id in s.txns && s.txns[id].phase.Inserting? :: s.tenantLock == Some(id))
    && (forall c | c in s.caseLocks :: s.caseLocks[c] in s.txns && HoldsCase(s.txns[s.caseLocks[c]].phase))
    && (s.tenantLock.Some? ==> s.tenantLock.value in s.txns && s.txns[s.tenantLock.value].phase.Inserting?)
  }

  /** Commit `i` of the history was accepted by the tables before it. */
  ghost predicate TookEffect(history: seq<Commit>, i: nat)
    requires i < |history|
  {
    var t, commit := Serial(history[..i]), history[i];
    Decide(t, commit) == Accept
    && InsertEvents(Stage(t, commit.projection), commit.projection, EventsOf(commit)).Some?
  }

  ghost predicate Inv(s: State) {
    && s.committed == Serial(s.history) && Good(s.committed)
    && (forall commit | commit in s.history :: WellFormed(commit))
    && (forall i | 0 <= i < |s.history| :: TookEffect(s.history, i))
    && Locked(s)
    && (forall id | id in s.txns :: WellFormed(s.txns[id].commit) && OnTrack(s.committed, s.txns[id]))
  }

  lemma OverlayStage(t: Tables, p: Projection)
    ensures Overlay(t, p.caseId, NO_ROWS.(projections := map[p.projectionRevision := p])) == Stage(t, p)
  {
    var log := LogOf(t, p.caseId);
    assert log.projections + map[p.projectionRevision := p] == log.projections[p.projectionRevision := p];
    assert log.events + map[] == log.events && t.outbox + map[] == t.outbox;
  }

  lemma OverlayInsert(t: Tables, p: Projection, d: Delta, e: Event)
    ensures var view := Overlay(t, p.caseId, d);
            var n, row := Top(view.outbox.Keys) + 1, Live(e.id, p.caseId, e.completed, p);
            Overlay(t, p.caseId, d.(events := d.events[e.sequence := e], outbox := d.outbox[n := row])) == InsertEvent(view, p, e)
  {
    var view, log := Overlay(t, p.caseId, d), LogOf(t, p.caseId);
    var n, row := Top(view.outbox.Keys) + 1, Live(e.id, p.caseId, e.completed, p);
    hide Top;
    PlusUpdate(log.events, d.events, e.sequence, e);
    PlusUpdate(t.outbox, d.outbox, n, row);
  }

  lemma PlusUpdate<V>(a: map<nat, V>, b: map<nat, V>, k: nat, v: V)
    ensures a + b[k := v] == (a + b)[k := v]
  {
  }

  /** A commit on one case leaves the staged work on every other case on track. */
  lemma OthersOnTrack(t: Tables, t': Tables, txn: Txn)
    requires OnTrack(t, txn) && !txn.phase.Inserting?
    requires LogOf(t', CaseOf(txn)) == LogOf(t, CaseOf(txn))
    ensures OnTrack(t', txn)
  {
    hide Top;
  }

  lemma ReadKeeps(s: State, id: int)
    requires Inv(s) && id in s.txns && s.txns[id].phase == Reading
    ensures Inv(NextRead(s, id))
  {
    hide Good, Serial, TookEffect, WellFormed, Decide, InsertEvents, Stage;
    EndKeeps(s, id, Answered(Decide(s.committed, s.txns[id].commit)));
  }

  lemma EndKeeps(s: State, id: int, outcome: Outcome)
    requires Inv(s) && id in s.txns
    ensures Inv(End(s, id, outcome))
  {
    hide Good, Serial, TookEffect, WellFormed, OnTrack;
  }

  lemma InsertKeeps(s: State, id: int)
    requires Inv(s) && id in s.txns && s.txns[id].phase.Inserting? && s.txns[id].phase.done < |EventsOf(s.txns[id].commit)|
    ensures Inv(NextInsert(s, id))
  {
    hide Good, Serial, TookEffect, WellFormed, Decide, Violates, Stage, Top, InsertEvents, Overlay, InsertEvent;
    EndKeeps(s, id, Aborted);
    if !Violates(Overlay(s.committed, CaseOf(s.txns[id]), s.txns[id].delta), s.txns[id].commit.projection, EventsOf(s.txns[id].commit)[s.txns[id].phase.done]) {
      assert OnTrack(s.committed, s.txns[id]);
      InsertOnTrack(s, id);
    }
  }

  lemma InsertOnTrack(s: State, id: int)
    requires id in s.txns && s.txns[id].phase.Inserting? && s.txns[id].phase.done < |EventsOf(s.txns[id].commit)|
    requires OnTrack(s.committed, s.txns[id]) && NextInsert(s, id) != End(s, id, Aborted)
    ensures OnTrack(s.committed, NextInsert(s, id).txns[id])
  {
    hide Decide, Violates, Stage, Top, Overlay, InsertEvent;
    var txn := s.txns[id];
    var done, events := txn.phase.done, EventsOf(txn.commit);
    OverlayInsert(s.committed, txn.commit.projection, txn.delta, events[done]);
    assert events[..done + 1][..done] == events[..done];
  }

  lemma FinishKeeps(s: State, id: int)
    requires Inv(s) && id in s.txns && s.txns[id].phase == Inserting(|EventsOf(s.txns[id].commit)|)
    ensures Inv(NextFinish(s, id))
    ensures NextFinish(s, id).committed == Apply(s.committed, s.txns[id].commit)
  {
    hide Good, Serial, WellFormed, Decide, Stage, Top, Record, InsertEvents;
    var txn, s' := s.txns[id], NextFinish(s, id);
    var events := EventsOf(txn.commit);
    assert OnTrack(s.committed, txn) && WellFormed(txn.commit);
    assert events[..|events|] == events;
    assert s'.committed == Apply(s.committed, txn.commit);
    ApplyGood(s.committed, txn.commit);
    SerialSnoc(s.history, txn.commit);
    EndKeeps(s, id, Committed);
    forall other | other in s'.txns ensures OnTrack(s'.committed, s'.txns[other]) {
      assert OnTrack(s.committed, s.txns[other]);
      OtherCaseKept(s.committed, txn, CaseOf(s.txns[other]));
      if HoldsCase(s.txns[other].phase) { OthersOnTrack(s.committed, s'.committed, s.txns[other]); }
    }
  }

  lemma OtherCaseKept(t: Tables, txn: Txn, c: int)
    ensures c != CaseOf(txn) ==> LogOf(Record(Overlay(t, CaseOf(txn), txn.delta), txn.commit), c) == LogOf(t, c)
  {
    RecordKeeps(Overlay(t, CaseOf(txn), txn.delta), txn.commit);
    hide Record;
  }

  lemma SerialSnoc(history: seq<Commit>, commit: Commit)
    ensures Serial(history + [commit]) == Apply(Serial(history), commit)
    ensures (forall i | 0 <= i < |history| :: TookEffect(history, i)) ==>
              forall i | 0 <= i < |history| :: TookEffect(history + [commit], i)
  {
    assert (history + [commit])[..|history|] == history;
    hide Serial, Apply, Decide, InsertEvents, Stage;
    forall i | 0 <= i < |history| && TookEffect(history, i) ensures TookEffect(history + [commit], i) {
      assert (history + [commit])[..i] == history[..i];
    }
  }

  lemma StepKeeps(s: State, step: Step)
    requires Inv(s)
    ensures Inv(Next(s, step))
    ensures Grows(s.committed, Next(s, step).committed)
  {
    hide Good, Serial, TookEffect, WellFormed, Decide, Stage, Top, InsertEvents, Overlay, OnTrack, NextRead, NextInsert, NextFinish, End, Apply, Grows;
    GrowsSelf(s.committed);
    if !step.Begin? && step.id in s.txns {
      var phase := s.txns[step.id].phase;
      match step {
        case LockCase(id) => LockKeeps(s, step);
        case Read(id) => if phase == Reading { ReadKeeps(s, id); OnlyFinishCommits(s, id); }
        case LockTenant(id) => LockKeeps(s, step);
        case Insert(id) =>
          if phase.Inserting? && phase.done < |EventsOf(s.txns[id].commit)| { InsertKeeps(s, id); OnlyFinishCommits(s, id); }
        case Finish(id) =>
          if phase == Inserting(|EventsOf(s.txns[id].commit)|) {
            FinishKeeps(s, id);
            ApplyGrows(s.committed, s.txns[id].commit);
          }
        case Abort(id) => EndKeeps(s, id, Aborted); OnlyFinishCommits(s, id);
      }
    } else {
      BeginKeeps(s, step);
    }
  }

  lemma GrowsSelf(t: Tables)
    ensures Grows(t, t)
  {
  }

  lemma OnlyFinishCommits(s: State, id: int)
    requires id in s.txns
    ensures s.txns[id].phase == Reading ==> NextRead(s, id).committed == s.committed
    ensures s.txns[id].phase.Inserting? && s.txns[id].phase.done < |EventsOf(s.txns[id].commit)| ==> NextInsert(s, id).committed == s.committed
    ensures End(s, id, Aborted).committed == s.committed
  {
    hide Decide, Violates, Top;
  }

  lemma BeginKeeps(s: State, step: Step)
    requires Inv(s) && (step.Begin? || step.id !in s.txns)
    ensures Inv(Next(s, step)) && Next(s, step).committed == s.committed
  {
    hide Good, Serial, TookEffect, WellFormed, Decide, Stage, Top, InsertEvents;
  }

  lemma LockKeeps(s: State, step: Step)
    requires Inv(s) && (step.LockCase? || step.LockTenant?) && step.id in s.txns
    ensures Inv(Next(s, step)) && Next(s, step).committed == s.committed
  {
    hide Good, Serial, TookEffect, WellFormed, Decide, Top;
    if step.LockTenant? && s.txns[step.id].phase == Staged && s.tenantLock.None? {
      var txn := s.txns[step.id];
      assert OnTrack(s.committed, txn);
      OverlayStage(s.committed, txn.commit.projection);
      assert EventsOf(txn.commit)[..0] == [];
    }
    hide Stage, InsertEvents;
  }

  // ---- Theorems over runs --------------------------------------------------------------

  /** Every interleaving of writers is serial in commit order, and what a writer
      decided under its case lock still holds when it commits. */
  lemma {:induction false} Serializable(steps: seq<Step>)
    ensures Inv(Run(steps))
    ensures Run(steps).committed == Serial(Run(steps).history) && Good(Run(steps).committed)
    decreases |steps|
  {
    hide Good, Next, OnTrack, TookEffect;
    if steps == [] {
      NoTablesGood();
    } else {
      Serializable(steps[..|steps| - 1]);
      StepKeeps(Run(steps[..|steps| - 1]), steps[|steps| - 1]);
    }
  }

  lemma {:induction false} RunGrows(steps: seq<Step>, k: nat)
    requires k <= |steps|
    ensures Grows(Run(steps[..k]).committed, Run(steps).committed)
    decreases |steps|
  {
    hide Good, Next, Inv, Grows;
    if k == |steps| {
      assert steps[..k] == steps;
      GrowsSelf(Run(steps).committed);
    } else {
      var n := |steps| - 1;
      assert steps[..n][..k] == steps[..k];
      RunGrows(steps[..n], k);
      Serializable(steps[..n]);
      StepKeeps(Run(steps[..n]), steps[n]);
      GrowsTransitive(Run(steps[..k]).committed, Run(steps[..n]).committed, Run(steps).committed);
    }
  }

  lemma GrowsTransitive(a: Tables, b: Tables, c: Tables)
    requires Grows(a, b) && Grows(b, c)
    ensures Grows(a, c)
  {
    hide LogOf;
    forall d ensures LogGrows(LogOf(a, d), LogOf(c, d)) {
      assert LogGrows(LogOf(a, d), LogOf(b, d)) && LogGrows(LogOf(b, d), LogOf(c, d));
    }
  }

  /** Sequence order is visibility order: at any instant the visible outbox is
      exactly 1..N, rows never change, and whatever becomes visible later has a
      larger sequence than everything visible now. */
  lemma VisibilityOrder(steps: seq<Step>, k: nat)
    requires k <= |steps|
    ensures var now, later := Run(steps[..k]).committed.outbox, Run(steps).committed.outbox;
            && Dense(now) && Dense(later)
            && (forall n | n in now :: n in later && later[n] == now[n])
            && (forall n | n in later && n !in now :: forall m | m in now :: m < n)
  {
    hide Grows, Run, Inv, Good;
    Serializable(steps[..k]);
    Serializable(steps);
    RunGrows(steps, k);
    GoodParts(Run(steps[..k]).committed, 0);
    GoodParts(Run(steps).committed, 0);
    DenseGrows(Run(steps[..k]).committed, Run(steps).committed);
  }

  lemma DenseGrows(t: Tables, t': Tables)
    requires Grows(t, t') && Dense(t.outbox) && Dense(t'.outbox)
    ensures forall n | n in t.outbox :: n in t'.outbox && t'.outbox[n] == t.outbox[n]
    ensures forall n | n in t'.outbox && n !in t.outbox :: forall m | m in t.outbox :: m < n
  {
  }

  /** The outbox restricted to a case is the case's event log in order, the newest
      summary of a case is its latest projection, and snapshots miss no revision. */
  lemma CommitLog(steps: seq<Step>, c: int)
    ensures var t := Run(steps).committed;
            var log := LogOf(t, c);
            && OutboxEvents(t.outbox, c, |t.outbox|) == LogEvents(log.events, |log.events|)
            && Dense(log.projections) && Dense(log.events)
            && SummaryAt(t.outbox, c, |t.outbox|) == Latest(log)
            && (Latest(log).Some? ==>
                  && Latest(log).value.projectionRevision == |log.projections|
                  && Latest(log).value.sequence == |log.events|)
  {
    var t := Run(steps).committed;
    Serializable(steps);
    GoodParts(t, c);
    if Latest(LogOf(t, c)).None? { NoRows(t, c, |t.outbox|); }
  }

  lemma {:induction false} NoRows(t: Tables, c: int, n: nat)
    requires RowsGood(t) && LogOf(t, c) == NO_LOG
    ensures SummaryAt(t.outbox, c, n) == None
  {
    if n > 0 {
      NoRows(t, c, n - 1);
      assert n in t.outbox ==> SummaryStored(t, t.outbox[n]);
    }
  }

  /** Accepted commits of one case, counted in the history. */
  function Transitions(history: seq<Commit>, c: int): nat {
    if history == [] then 0
    else
      var last := history[|history| - 1];
      Transitions(history[..|history| - 1], c) + if last.Transition? && last.projection.caseId == c then 1 else 0
  }

  function Syncs(history: seq<Commit>, c: int): nat {
    if history == [] then 0
    else
      var last := history[|history| - 1];
      Syncs(history[..|history| - 1], c) + if last.Sync? && last.projection.caseId == c then 1 else 0
  }

  lemma {:induction false} ReceiptsCountHistory(history: seq<Commit>, c: int)
    requires forall commit | commit in history :: WellFormed(commit)
    requires forall i | 0 <= i < |history| :: TookEffect(history, i)
    ensures Good(Serial(history))
    ensures |LogOf(Serial(history), c).commands| == Transitions(history, c)
    ensures |LogOf(Serial(history), c).syncs| == Syncs(history, c)
    decreases |history|
  {
    hide Good, Decide, InsertEvents, Stage, WellFormed, Apply;
    if history == [] {
      NoTablesGood();
    } else {
      var n := |history| - 1;
      var t := Serial(history[..n]);
      assert TookEffect(history, n);
      forall i | 0 <= i < n ensures TookEffect(history[..n], i) {
        assert TookEffect(history, i) && history[..n][..i] == history[..i];
      }
      ReceiptsCountHistory(history[..n], c);
      ApplyGood(t, history[n]);
      AppliedReceipts(t, history[n], c);
    }
  }

  lemma AppliedReceipts(t: Tables, commit: Commit, c: int)
    requires Good(t) && WellFormed(commit) && Decide(t, commit) == Accept
    requires InsertEvents(Stage(t, commit.projection), commit.projection, EventsOf(commit)).Some?
    ensures var own := commit.projection.caseId == c;
            var log, log' := LogOf(t, c), LogOf(Apply(t, commit), c);
            && |log'.commands| == |log.commands| + (if own && commit.Transition? then 1 else 0)
            && |log'.syncs| == |log.syncs| + (if own && commit.Sync? then 1 else 0)
  {
    hide Good, Decide, InsertEvents, Stage, WellFormed, LiveOutbox.Inserting, SummaryAt, Extends, Record;
    var p := commit.projection;
    var t' := InsertEvents(Stage(t, p), p, EventsOf(commit)).value;
    AcceptedContinues(t, commit);
    InsertsGood(t, p, EventsOf(commit));
    InsertedOwn(t, p, EventsOf(commit), t');
    NotYetRecorded(t, commit);
    RecordKeeps(t', commit);
  }

  /** In every reachable state the workflow revision of a case is 1 plus its
      accepted commands, and its projection revision 1 plus commands and syncs. */
  lemma RevisionsCountCommits(steps: seq<Step>, c: int)
    requires Latest(LogOf(Run(steps).committed, c)).Some?
    ensures var p, history := Latest(LogOf(Run(steps).committed, c)).value, Run(steps).history;
            && p.workflowRevision == 1 + Transitions(history, c)
            && p.projectionRevision == 1 + Transitions(history, c) + Syncs(history, c)
  {
    hide Run, TookEffect, RowsGood, CaseGood, Serial;
    Serializable(steps);
    ReceiptsCountHistory(Run(steps).history, c);
    GoodParts(Run(steps).committed, c);
  }

  /** The same request again: same kind, case, key and hash. */
  predicate SameRequest(a: Commit, b: Commit) {
    a.projection.caseId == b.projection.caseId
    && ((a.Transition? && b.Transition? && a.key == b.key && a.hash == b.hash)
        || (a.Sync? && b.Sync? && a.key == b.key && a.hash == b.hash))
  }

  predicate SameKey(a: Commit, b: Commit) {
    a.projection.caseId == b.projection.caseId
    && ((a.Transition? && b.Transition? && a.key == b.key) || (a.Sync? && b.Sync? && a.key == b.key))
  }

  /** Idempotent replay: once a request is recorded, a later writer with its key,
      at any later state of any run, gets the original commit back when its hash
      is the same and a conflict otherwise, and no table changes. */
  lemma ReplayForever(steps: seq<Step>, k: nat, original: Commit, id: int)
    requires k <= |steps| && original in Run(steps[..k]).history && !original.Initialize?
    requires id in Run(steps).txns && Run(steps).txns[id].phase == Reading
    requires SameKey(Run(steps).txns[id].commit, original)
    ensures var s, s' := Run(steps), Next(Run(steps), Read(id));
            && s'.committed == s.committed
            && id in s'.outcomes
            && s'.outcomes[id] == Answered(
                 if SameRequest(s.txns[id].commit, original) then Replay(original) else Reject(IdempotencyConflict))
  {
    hide Run, Recorded;
    RecordedForever(steps, k, original);
    ReadRecorded(Run(steps), original, id);
  }

  /** A recorded request stays recorded at every later state. */
  lemma RecordedForever(steps: seq<Step>, k: nat, original: Commit)
    requires k <= |steps| && original in Run(steps[..k]).history
    ensures Recorded(LogOf(Run(steps).committed, original.projection.caseId), original)
  {
    hide Good, TookEffect, Locked, OnTrack, Serial, Grows, Run, WellFormed, Recorded;
    Serializable(steps[..k]);
    RunGrows(steps, k);
    RecordedStays(Run(steps[..k]).history, original);
    RecordedGrows(Run(steps[..k]).committed, Run(steps).committed, original);
  }

  /** What the read of a writer answers whose key is recorded. */
  lemma ReadRecorded(s: State, original: Commit, id: int)
    requires id in s.txns && s.txns[id].phase == Reading && SameKey(s.txns[id].commit, original)
    requires Recorded(LogOf(s.committed, original.projection.caseId), original)
    ensures var s' := Next(s, Read(id));
            && s'.committed == s.committed && id in s'.outcomes
            && s'.outcomes[id] == Answered(
                 if SameRequest(s.txns[id].commit, original) then Replay(original) else Reject(IdempotencyConflict))
  {
    hide LogOf, Latest;
  }

  ghost predicate Recorded(log: CaseLog, commit: Commit) {
    (commit.Transition? ==> commit.key in log.commands && log.commands[commit.key] == commit)
    && (commit.Sync? ==> commit.key in log.syncs && log.syncs[commit.key] == commit)
  }

  lemma {:induction false} RecordedStays(history: seq<Commit>, commit: Commit)
    requires forall other | other in history :: WellFormed(other)
    requires forall i | 0 <= i < |history| :: TookEffect(history, i)
    requires commit in history
    ensures Good(Serial(history)) && Recorded(LogOf(Serial(history), commit.projection.caseId), commit)
    decreases |history|
  {
    hide Good, Decide, InsertEvents, Stage, WellFormed, Apply, Grows;
    var n := |history| - 1;
    var t, last := Serial(history[..n]), history[n];
    assert TookEffect(history, n);
    forall i | 0 <= i < n ensures TookEffect(history[..n], i) {
      assert TookEffect(history, i) && history[..n][..i] == history[..i];
    }
    ReceiptsCountHistory(history[..n], 0);
    ApplyGood(t, last);
    if commit == last {
      JustRecorded(t, last);
    } else {
      RecordedStays(history[..n], commit);
      ApplyGrows(t, last);
      RecordedGrows(t, Apply(t, last), commit);
    }
  }

  lemma RecordedGrows(t: Tables, t': Tables, commit: Commit)
    requires Grows(t, t') && Recorded(LogOf(t, commit.projection.caseId), commit)
    ensures Recorded(LogOf(t', commit.projection.caseId), commit)
  {
    assert LogGrows(LogOf(t, commit.projection.caseId), LogOf(t', commit.projection.caseId));
    hide LogOf;
  }

  lemma JustRecorded(t: Tables, commit: Commit)
    requires Decide(t, commit) == Accept
    requires InsertEvents(Stage(t, commit.projection), commit.projection, EventsOf(commit)).Some?
    ensures Recorded(LogOf(Apply(t, commit), commit.projection.caseId), commit)
  {
    hide Decide, InsertEvents, Stage;
    RecordKeeps(InsertEvents(Stage(t, commit.projection), commit.projection, EventsOf(commit)).value, commit);
    hide Record;
  }

  /** The two locks never wait in a circle: while a transaction is open, one of
      the open transactions can make a step other than giving up. */
  lemma SomeWriterMoves(steps: seq<Step>, id: int)
    requires id in Run(steps).txns
    ensures exists step :: Next(Run(steps), step) != Run(steps) && !step.Begin? && !step.Abort?
  {
    hide Good, Serial, TookEffect, OnTrack, Decide, Violates;
    var s := Run(steps);
    Serializable(steps);
    hide Run;
    if s.tenantLock.Some? {
      InsertingMoves(s, s.tenantLock.value);
    } else {
      if s.txns[id].phase.Waiting? {
        if CaseOf(s.txns[id]) in s.caseLocks {
          HolderMoves(s, s.caseLocks[CaseOf(s.txns[id])]);
        } else {
          assert Next(s, LockCase(id)).txns[id].phase == Reading;
        }
      } else {
        HolderMoves(s, id);
      }
    }
  }

  lemma InsertingMoves(s: State, id: int)
    requires Inv(s) && id in s.txns && s.txns[id].phase.Inserting?
    ensures exists step :: Next(s, step) != s && !step.Begin? && !step.Abort?
  {
    hide Good, Serial, TookEffect, Decide, Violates, InsertEvents, WellFormed;
    assert OnTrack(s.committed, s.txns[id]);
    if s.txns[id].phase.done < |EventsOf(s.txns[id].commit)| {
      assert Next(s, Insert(id)) == NextInsert(s, id) != s;
    } else {
      assert Next(s, Finish(id)) == NextFinish(s, id) && id !in NextFinish(s, id).txns;
    }
  }

  lemma HolderMoves(s: State, id: int)
    requires Inv(s) && id in s.txns && s.tenantLock.None? && HoldsCase(s.txns[id].phase)
    ensures exists step :: Next(s, step) != s && !step.Begin? && !step.Abort?
  {
    hide Good, Serial, TookEffect, OnTrack, Decide, Violates;
    if s.txns[id].phase.Reading? {
      assert Next(s, Read(id)) == NextRead(s, id) != s;
    } else {
      assert Next(s, LockTenant(id)).tenantLock == Some(id);
    }
  }
}
