/** The append-only tables of one tenant's guided workflow: projections, events,
    idempotency receipts and the tenant-wide live outbox, with what one
    transaction does to them when nothing else runs. */
module LiveOutbox {
  import opened Options

  datatype Event = Event(id: int, caseId: int, sequence: nat, workflowRevision: nat, projectionRevision: nat, completed: bool)

  datatype Projection = Projection(
    caseId: int, workflowRevision: nat, projectionRevision: nat, decisionRevision: nat, sequence: nat,
    resolved: bool, generatedAt: int, body: int)

  datatype Commit =
    | Initialize(projection: Projection, event: Event)
    | Transition(key: int, hash: int, expected: nat, projection: Projection, events: seq<Event>)
    | Sync(key: int, hash: int, expected: nat, projection: Projection, events: seq<Event>)

  /** One outbox row; its summary is taken from the commit's projection. */
  datatype Live = Live(eventId: int, caseId: int, completed: bool, summary: Projection)

  /** The rows of one case, by primary key. */
  datatype CaseLog = CaseLog(
    projections: map<nat, Projection>, events: map<nat, Event>,
    commands: map<int, Commit>, syncs: map<int, Commit>)

  datatype Tables = Tables(cases: map<int, CaseLog>, outbox: map<nat, Live>)

  datatype Reason =
    | InitialInvalid | IdempotencyConflict | ProjectionNotFound | RevisionConflict | NotMonotonic

  datatype Decision =
    | Accept
    | Replay(original: Commit)
    | Existing(projection: Projection)
    | Reject(reason: Reason)

  const NO_TABLES := Tables(map[], map[])

  const NO_LOG := CaseLog(map[], map[], map[], map[])

  function LogOf(t: Tables, c: int): CaseLog {
    if c in t.cases then t.cases[c] else NO_LOG
  }

  /** `COALESCE(MAX(key), 0)`. */
  ghost function Top(keys: set<nat>): (top: nat)
    ensures forall k | k in keys :: k <= top
    ensures keys == {} ==> top == 0
    ensures keys != {} ==> top in keys
  {
    if keys == {} then 0
    else
      var k :| k in keys;
      var rest := Top(keys - {k});
      assert forall j | j in keys && j != k :: j in keys - {k};
      if k < rest then rest else k
  }

  ghost function Latest(log: CaseLog): Option<Projection> {
    if log.projections == map[] then None else Some(log.projections[Top(log.projections.Keys)])
  }

  /** What the commit models validate before a transaction begins. */
  predicate WellFormed(commit: Commit) {
    match commit
    case Initialize(_, _) => true
    case Transition(_, _, expected, p, events) =>
      && expected > 0 && OneBatch(p, events)
      && (forall i | 0 <= i < |events| :: events[i].workflowRevision == p.workflowRevision)
    case Sync(_, _, expected, p, events) =>
      && expected > 0 && OneBatch(p, events)
      && (forall i | 0 <= i < |events| ::
            events[i].workflowRevision == p.workflowRevision && events[i].projectionRevision == p.projectionRevision)
  }

  /** Contiguous events of the projection's case, up to the projection's sequence. */
  predicate OneBatch(p: Projection, events: seq<Event>) {
    && events != [] && events[|events| - 1].sequence == p.sequence
    && (forall i | 0 <= i < |events| :: events[i].caseId == p.caseId && events[i].sequence == events[0].sequence + i)
  }

  function EventsOf(commit: Commit): seq<Event> {
    match commit
    case Initialize(_, e) => [e]
    case Transition(_, _, _, _, events) => events
    case Sync(_, _, _, _, events) => events
  }

  /** The branch a transaction takes once it holds its case lock. */
  ghost function Decide(t: Tables, commit: Commit): Decision {
    var log := LogOf(t, commit.projection.caseId);
    DecideOn(log, Latest(log), commit)
  }

  function DecideOn(log: CaseLog, latest: Option<Projection>, commit: Commit): Decision {
    match commit
    case Initialize(p, e) =>
      if p.workflowRevision != 1 || p.projectionRevision != 1 || p.sequence != 1 || e.sequence != 1 || e.caseId != p.caseId
      then Reject(InitialInvalid)
      else if latest.Some? then Existing(latest.value)
      else Accept
    case Transition(key, hash, expected, p, events) =>
      if key in log.commands then
        if log.commands[key].Transition? && log.commands[key].hash == hash then Replay(log.commands[key])
        else Reject(IdempotencyConflict)
      else if latest.None? then Reject(ProjectionNotFound)
      else
        var current := latest.value;
        if expected != current.workflowRevision then Reject(RevisionConflict)
        else if p.workflowRevision != current.workflowRevision + 1
                || p.projectionRevision != current.projectionRevision + 1
                || events == [] || events[0].sequence != current.sequence + 1 || events[|events| - 1].sequence != p.sequence
        then Reject(NotMonotonic)
        else Accept
    case Sync(key, hash, expected, p, events) =>
      if key in log.syncs then
        if log.syncs[key].Sync? && log.syncs[key].hash == hash then Replay(log.syncs[key])
        else Reject(IdempotencyConflict)
      else if latest.None? then Reject(ProjectionNotFound)
      else
        var current := latest.value;
        if expected != current.projectionRevision then Reject(RevisionConflict)
        else if p.projectionRevision != current.projectionRevision + 1
                || p.workflowRevision != current.workflowRevision
                || p.decisionRevision != current.decisionRevision
                || events == [] || events[0].sequence != current.sequence + 1 || events[|events| - 1].sequence != p.sequence
                || (exists e :: e in events && (e.projectionRevision != p.projectionRevision || e.workflowRevision != current.workflowRevision))
        then Reject(NotMonotonic)
        else Accept
  }

  function Stage(t: Tables, p: Projection): Tables {
    var log := LogOf(t, p.caseId);
    t.(cases := t.cases[p.caseId := log.(projections := log.projections[p.projectionRevision := p])])
  }

  /** A row the primary, unique or foreign keys turn down, so that the whole
      transaction rolls back. */
  predicate Violates(t: Tables, p: Projection, e: Event) {
    var log := LogOf(t, p.caseId);
    e.sequence in log.events || e.projectionRevision !in log.projections
    || exists n :: n in t.outbox && t.outbox[n].eventId == e.id
  }

  /** One event row and one outbox row, numbered under the tenant lock. */
  ghost function InsertEvent(t: Tables, p: Projection, e: Event): Tables {
    var log := LogOf(t, p.caseId);
    Tables(t.cases[p.caseId := log.(events := log.events[e.sequence := e])],
           t.outbox[Top(t.outbox.Keys) + 1 := Live(e.id, p.caseId, e.completed, p)])
  }

  ghost function InsertEvents(t: Tables, p: Projection, events: seq<Event>): Option<Tables> {
    if events == [] then Some(t)
    else
      match InsertEvents(t, p, events[..|events| - 1])
      case None => None
      case Some(t') =>
        var e := events[|events| - 1];
        if Violates(t', p, e) then None else Some(InsertEvent(t', p, e))
  }

  /** The idempotency receipt keeps the whole commit. */
  function Record(t: Tables, commit: Commit): Tables {
    var c := commit.projection.caseId;
    var log := LogOf(t, c);
    match commit
    case Initialize(_, _) => t
    case Transition(key, _, _, _, _) => t.(cases := t.cases[c := log.(commands := log.commands[key := commit])])
    case Sync(key, _, _, _, _) => t.(cases := t.cases[c := log.(syncs := log.syncs[key := commit])])
  }

  /** A whole transaction run alone: all of its rows, or none. */
  ghost function Apply(t: Tables, commit: Commit): Tables {
    if Decide(t, commit) != Accept then t
    else
      match InsertEvents(Stage(t, commit.projection), commit.projection, EventsOf(commit))
      case None => t
      case Some(t') => Record(t', commit)
  }

  ghost function Serial(commits: seq<Commit>): Tables {
    if commits == [] then NO_TABLES else Apply(Serial(commits[..|commits| - 1]), commits[|commits| - 1])
  }

  // ---- What the tables look like -------------------------------------------------

  /** Keys are exactly 1..n. */
  ghost predicate Dense<V>(m: map<nat, V>) {
    forall n: nat :: n in m <==> 1 <= n <= |m|
  }

  lemma DenseTop<V>(m: map<nat, V>)
    requires Dense(m)
    ensures Top(m.Keys) == |m|
  {
    if m != map[] {
      assert |m| in m;
    } else {
      assert m.Keys == {};
    }
  }

  lemma DenseSnoc<V>(m: map<nat, V>, v: V)
    requires Dense(m)
    ensures Dense(m[|m| + 1 := v]) && |m[|m| + 1 := v]| == |m| + 1
  {
    assert |m| + 1 !in m;
  }

  /** The events of one case in the order of the outbox, up to row `n`. */
  ghost function OutboxEvents(outbox: map<nat, Live>, c: int, n: nat): seq<int> {
    if n == 0 then []
    else
      var before := OutboxEvents(outbox, c, n - 1);
      if n in outbox && outbox[n].caseId == c then before + [outbox[n].eventId] else before
  }

  /** The events of one case in the order of its own log. */
  ghost function LogEvents(events: map<nat, Event>, n: nat): seq<int> {
    if n == 0 then []
    else LogEvents(events, n - 1) + if n in events then [events[n].id] else []
  }

  /** The newest summary of a case among the outbox rows up to `n`. */
  ghost function SummaryAt(outbox: map<nat, Live>, c: int, n: nat): Option<Projection> {
    if n == 0 then None
    else if n in outbox && outbox[n].caseId == c then Some(outbox[n].summary)
    else SummaryAt(outbox, c, n - 1)
  }

  ghost predicate RowsGood(t: Tables) {
    && Dense(t.outbox) && EventsOnce(t.outbox)
    && (forall n | n in t.outbox :: SummaryStored(t, t.outbox[n]))
  }

  ghost predicate EventsOnce(outbox: map<nat, Live>) {
    forall n, m | n in outbox && m in outbox && outbox[n].eventId == outbox[m].eventId :: n == m
  }

  predicate SummaryStored(t: Tables, row: Live) {
    var projections := LogOf(t, row.caseId).projections;
    && row.summary.caseId == row.caseId && row.summary.projectionRevision in projections
    && projections[row.summary.projectionRevision] == row.summary
  }

  /** Rows of a case are keyed densely by what they say, and the outbox restricted
      to the case is the case's event log, in order. */
  ghost predicate LogGood(log: CaseLog, outbox: map<nat, Live>, c: int) {
    && Dense(log.projections) && Dense(log.events)
    && (forall k | k in log.projections :: log.projections[k].projectionRevision == k && log.projections[k].caseId == c)
    && (forall k | k in log.events :: log.events[k].sequence == k && log.events[k].projectionRevision in log.projections)
    && OutboxEvents(outbox, c, |outbox|) == LogEvents(log.events, |log.events|)
  }

  /** Between transactions: revisions count what was accepted. */
  ghost predicate Settled(log: CaseLog, outbox: map<nat, Live>, c: int) {
    match Latest(log)
    case None => log == NO_LOG
    case Some(p) =>
      && p.workflowRevision == 1 + |log.commands|
      && p.projectionRevision == |log.projections| == 1 + |log.commands| + |log.syncs|
      && p.sequence == |log.events|
      && SummaryAt(outbox, c, |outbox|) == Some(p)
      && (forall k | k in log.commands :: log.commands[k].Transition? && log.commands[k].key == k && log.commands[k].projection.caseId == c)
      && (forall k | k in log.syncs :: log.syncs[k].Sync? && log.syncs[k].key == k && log.syncs[k].projection.caseId == c)
  }

  ghost predicate CaseGood(t: Tables, c: int) {
    LogGood(LogOf(t, c), t.outbox, c)
  }

  ghost predicate CaseSettled(t: Tables, c: int) {
    Settled(LogOf(t, c), t.outbox, c)
  }

  ghost predicate Good(t: Tables) {
    && RowsGood(t)
    && (forall c :: CaseGood(t, c))
    && (forall c :: CaseSettled(t, c))
  }

  lemma {:induction false} OutboxFrame(outbox: map<nat, Live>, row: Live, c: int, n: nat)
    requires Dense(outbox) && n <= |outbox|
    ensures var after := outbox[|outbox| + 1 := row];
            && OutboxEvents(after, c, n) == OutboxEvents(outbox, c, n)
            && SummaryAt(after, c, n) == SummaryAt(outbox, c, n)
  {
    if n > 0 { OutboxFrame(outbox, row, c, n - 1); }
  }

  lemma {:induction false} LogFrame(events: map<nat, Event>, e: Event, n: nat)
    requires Dense(events) && n <= |events|
    ensures LogEvents(events[|events| + 1 := e], n) == LogEvents(events, n)
  {
    if n > 0 { LogFrame(events, e, n - 1); }
  }

  // ---- One transaction keeps them good ---------------------------------------------

  /** While a transaction inserts: everything but its own case is settled. */
  ghost predicate Inserting(t: Tables, p: Projection) {
    && RowsGood(t) && (forall c :: CaseGood(t, c))
    && (forall c | c != p.caseId :: CaseSettled(t, c))
    && Latest(LogOf(t, p.caseId)) == Some(p)
  }

  lemma StageLog(t: Tables, p: Projection, c: int)
    requires CaseGood(t, c) && p.projectionRevision == |LogOf(t, p.caseId).projections| + 1
    ensures CaseGood(Stage(t, p), c)
    ensures c != p.caseId && CaseSettled(t, c) ==> CaseSettled(Stage(t, p), c)
  {
    hide OutboxEvents, LogEvents, SummaryAt, Top, Dense;
    if c == p.caseId { DenseSnoc(LogOf(t, c).projections, p); }
  }

  lemma StageRows(t: Tables, p: Projection)
    requires RowsGood(t) && CaseGood(t, p.caseId) && p.projectionRevision == |LogOf(t, p.caseId).projections| + 1
    ensures RowsGood(Stage(t, p))
    ensures p.projectionRevision !in LogOf(t, p.caseId).projections
  {
    hide OutboxEvents, LogEvents, Dense;
    assert |LogOf(t, p.caseId).projections| + 1 !in LogOf(t, p.caseId).projections by { DenseTop(LogOf(t, p.caseId).projections); }
  }

  lemma StagedLatest(t: Tables, p: Projection)
    requires CaseGood(t, p.caseId) && p.projectionRevision == |LogOf(t, p.caseId).projections| + 1
    ensures Latest(LogOf(Stage(t, p), p.caseId)) == Some(p)
  {
    hide OutboxEvents, LogEvents, Top, Dense;
    var projections := LogOf(t, p.caseId).projections;
    DenseSnoc(projections, p);
    DenseTop(projections[|projections| + 1 := p]);
  }

  lemma StageGood(t: Tables, p: Projection)
    requires Good(t) && p.projectionRevision == |LogOf(t, p.caseId).projections| + 1
    ensures p.projectionRevision !in LogOf(t, p.caseId).projections
    ensures Inserting(Stage(t, p), p)
  {
    hide Dense, RowsGood, CaseGood, CaseSettled, Top, SummaryAt;
    assert RowsGood(t) && CaseGood(t, p.caseId);
    StageRows(t, p);
    forall c ensures CaseGood(Stage(t, p), c) && (c != p.caseId ==> CaseSettled(Stage(t, p), c)) {
      StageLog(t, p, c);
    }
    StagedLatest(t, p);
  }

  /** A row of another case changes nothing of this one. */
  lemma OtherCase(t: Tables, t': Tables, row: Live, c: int)
    requires Dense(t.outbox) && t'.outbox == t.outbox[|t.outbox| + 1 := row] && LogOf(t', c) == LogOf(t, c) && row.caseId != c
    ensures CaseGood(t', c) <==> CaseGood(t, c)
    ensures CaseSettled(t', c) <==> CaseSettled(t, c)
  {
    hide Top, Latest, Dense;
    DenseSnoc(t.outbox, row);
    OutboxFrame(t.outbox, row, c, |t.outbox|);
  }

  lemma OwnCase(t: Tables, t': Tables, e: Event, row: Live, c: int)
    requires CaseGood(t, c) && Dense(t.outbox) && e.sequence == |LogOf(t, c).events| + 1
    requires e.projectionRevision in LogOf(t, c).projections && row.caseId == c && row.eventId == e.id
    requires t'.outbox == t.outbox[|t.outbox| + 1 := row]
    requires LogOf(t', c) == LogOf(t, c).(events := LogOf(t, c).events[e.sequence := e])
    ensures CaseGood(t', c) && |LogOf(t', c).events| == e.sequence
  {
    hide Top, Latest, Dense, LogOf;
    var events := LogOf(t, c).events;
    DenseSnoc(t.outbox, row);
    OutboxFrame(t.outbox, row, c, |t.outbox|);
    DenseSnoc(events, e);
    LogFrame(events, e, |events|);
  }

  lemma InsertRows(t: Tables, p: Projection, e: Event)
    requires RowsGood(t) && !Violates(t, p, e) && p.projectionRevision in LogOf(t, p.caseId).projections
    requires LogOf(t, p.caseId).projections[p.projectionRevision] == p
    ensures var t' := InsertEvent(t, p, e);
            && RowsGood(t')
            && t'.outbox == t.outbox[|t.outbox| + 1 := Live(e.id, p.caseId, e.completed, p)] && |t'.outbox| == |t.outbox| + 1
            && SummaryAt(t'.outbox, p.caseId, |t'.outbox|) == Some(p)
  {
    hide Top, Dense, OutboxEvents, SummaryStored;
    var row, t' := Live(e.id, p.caseId, e.completed, p), InsertEvent(t, p, e);
    DenseTop(t.outbox);
    DenseSnoc(t.outbox, row);
    assert forall n | n in t'.outbox :: t'.outbox[n] == row || (n in t.outbox && t'.outbox[n] == t.outbox[n]);
    forall n | n in t'.outbox ensures SummaryStored(t', t'.outbox[n]) {
      StoredLater(t, p, e, t'.outbox[n]);
    }
  }

  lemma StoredLater(t: Tables, p: Projection, e: Event, row: Live)
    requires SummaryStored(t, row) || (row.caseId == p.caseId && row.summary == p)
    requires p.projectionRevision in LogOf(t, p.caseId).projections && LogOf(t, p.caseId).projections[p.projectionRevision] == p
    ensures SummaryStored(InsertEvent(t, p, e), row)
  {
  }

  lemma InsertGood(t: Tables, p: Projection, e: Event)
    requires Inserting(t, p) && !Violates(t, p, e)
    requires e.sequence == |LogOf(t, p.caseId).events| + 1
    ensures var t' := InsertEvent(t, p, e);
            && Inserting(t', p)
            && t'.outbox == t.outbox[|t.outbox| + 1 := Live(e.id, p.caseId, e.completed, p)] && |t'.outbox| == |t.outbox| + 1
            && LogOf(t', p.caseId) == LogOf(t, p.caseId).(events := LogOf(t, p.caseId).events[e.sequence := e])
            && |LogOf(t', p.caseId).events| == e.sequence
            && SummaryAt(t'.outbox, p.caseId, |t'.outbox|) == Some(p)
  {
    hide RowsGood, CaseGood, CaseSettled, Top, SummaryAt, Dense;
    assert RowsGood(t) && CaseGood(t, p.caseId);
    CurrentRow(t, p);
    InsertRows(t, p, e);
    var t', row := InsertEvent(t, p, e), Live(e.id, p.caseId, e.completed, p);
    OwnCase(t, t', e, row, p.caseId);
    forall c | c != p.caseId ensures CaseGood(t', c) && CaseSettled(t', c) {
      OtherCase(t, t', row, c);
    }
  }

  lemma CurrentRow(t: Tables, p: Projection)
    requires CaseGood(t, p.caseId) && RowsGood(t) && Latest(LogOf(t, p.caseId)) == Some(p)
    ensures Dense(t.outbox) && Dense(LogOf(t, p.caseId).events)
    ensures p.projectionRevision in LogOf(t, p.caseId).projections && LogOf(t, p.caseId).projections[p.projectionRevision] == p
  {
  }

  /** An accepted commit extends its case by exactly one revision and by events
      that follow the log without a gap. */
  lemma AcceptedContinues(t: Tables, commit: Commit)
    requires Good(t) && WellFormed(commit) && Decide(t, commit) == Accept
    ensures var p, events, log := commit.projection, EventsOf(commit), LogOf(t, commit.projection.caseId);
            && p.projectionRevision == |log.projections| + 1
            && events != [] && p.sequence == |log.events| + |events|
            && (forall i | 0 <= i < |events| :: events[i].sequence == |log.events| + 1 + i)
            && p.workflowRevision == 1 + |log.commands| + (if commit.Transition? then 1 else 0)
            && p.projectionRevision == 1 + |log.commands| + |log.syncs| + (if commit.Initialize? then 0 else 1)
  {
    hide OutboxEvents, LogEvents, SummaryAt, Top, Dense, LogGood, RowsGood;
    var log := LogOf(t, commit.projection.caseId);
    assert CaseSettled(t, commit.projection.caseId);
    assert commit.Initialize? ==> log == NO_LOG;
    if !commit.Initialize? { assert commit.events[|commit.events| - 1].sequence == commit.events[0].sequence + |commit.events| - 1; }
  }

  /** What the first `|events|` inserts of a commit did to the tables. */
  ghost predicate InsertedSoFar(t: Tables, p: Projection, events: seq<Event>, t': Tables) {
    var log, log' := LogOf(t, p.caseId), LogOf(t', p.caseId);
    && Inserting(t', p)
    && |log'.events| == |log.events| + |events|
    && log' == LogOf(Stage(t, p), p.caseId).(events := log'.events)
    && |t'.outbox| == |t.outbox| + |events|
    && Extends(t.outbox, t'.outbox) && Extends(log.events, log'.events)
    && (forall c | c != p.caseId :: LogOf(t', c) == LogOf(t, c))
    && (events != [] ==> SummaryAt(t'.outbox, p.caseId, |t'.outbox|) == Some(p))
  }

  ghost predicate Extends<V>(m: map<nat, V>, m': map<nat, V>) {
    forall k | k in m :: k in m' && m'[k] == m[k]
  }

  lemma {:induction false} InsertsGood(t: Tables, p: Projection, events: seq<Event>)
    requires Good(t) && p.projectionRevision == |LogOf(t, p.caseId).projections| + 1
    requires forall i | 0 <= i < |events| :: events[i].sequence == |LogOf(t, p.caseId).events| + 1 + i
    requires InsertEvents(Stage(t, p), p, events).Some?
    ensures InsertedSoFar(t, p, events, InsertEvents(Stage(t, p), p, events).value)
    decreases |events|
  {
    hide Good, Inserting, SummaryAt, Violates, Stage, InsertEvent, Extends, LogOf;
    if events == [] {
      StageGood(t, p);
      StageFrame(t, p);
    } else {
      var n := |events| - 1;
      InsertsGood(t, p, events[..n]);
      var t1 := InsertEvents(Stage(t, p), p, events[..n]).value;
      InsertGood(t1, p, events[n]);
      InsertFrame(t, p, events[..n], t1, events[n]);
      assert events[..n] + [events[n]] == events;
    }
  }

  lemma StageFrame(t: Tables, p: Projection)
    requires Inserting(Stage(t, p), p)
    ensures InsertedSoFar(t, p, [], Stage(t, p))
  {
    hide Inserting, SummaryAt;
  }

  lemma InsertFrame(t: Tables, p: Projection, events: seq<Event>, t1: Tables, e: Event)
    requires InsertedSoFar(t, p, events, t1) && e.sequence == |LogOf(t1, p.caseId).events| + 1
    requires !Violates(t1, p, e)
    ensures InsertedSoFar(t, p, events + [e], InsertEvent(t1, p, e))
  {
    hide Inserting, SummaryAt, Stage, InsertEvent, Violates, LogOf, Extends;
    InsertGood(t1, p, e);
    InsertOthers(t1, p, e);
    ExtendsSnoc(t.outbox, t1.outbox, |t1.outbox| + 1, Live(e.id, p.caseId, e.completed, p));
    ExtendsSnoc(LogOf(t, p.caseId).events, LogOf(t1, p.caseId).events, e.sequence, e);
  }

  lemma InsertOthers(t: Tables, p: Projection, e: Event)
    requires Inserting(t, p) && !Violates(t, p, e)
    ensures forall c | c != p.caseId :: LogOf(InsertEvent(t, p, e), c) == LogOf(t, c)
    ensures |t.outbox| + 1 !in t.outbox && e.sequence !in LogOf(t, p.caseId).events
  {
    InsertingDense(t, p);
    hide Inserting;
  }

  lemma ExtendsSnoc<V>(m: map<nat, V>, m1: map<nat, V>, k: nat, v: V)
    requires Extends(m, m1) && k !in m1
    ensures Extends(m, m1[k := v])
  {
  }

  lemma InsertingDense(t: Tables, p: Projection)
    requires Inserting(t, p)
    ensures Dense(t.outbox)
  {
  }

  /** A receipt leaves every projection, event and outbox row alone. */
  lemma RecordFrame(t: Tables, commit: Commit)
    requires RowsGood(t) && (forall c :: CaseGood(t, c))
    ensures var t' := Record(t, commit);
            && t'.outbox == t.outbox && RowsGood(t') && (forall c :: CaseGood(t', c))
            && (forall c | c != commit.projection.caseId :: LogOf(t', c) == LogOf(t, c))
            && LogOf(t', commit.projection.caseId).projections == LogOf(t, commit.projection.caseId).projections
            && LogOf(t', commit.projection.caseId).events == LogOf(t, commit.projection.caseId).events
  {
    hide OutboxEvents, LogEvents, SummaryAt, Top, Dense, EventsOnce;
    var t' := Record(t, commit);
    forall n | n in t'.outbox ensures SummaryStored(t', t'.outbox[n]) {
      assert SummaryStored(t, t.outbox[n]);
    }
    forall c ensures CaseGood(t', c) {
      assert CaseGood(t, c);
    }
  }

  lemma RecordSettled(t: Tables, commit: Commit, t': Tables)
    requires Good(t) && WellFormed(commit) && Decide(t, commit) == Accept
    requires InsertedSoFar(t, commit.projection, EventsOf(commit), t')
    ensures CaseSettled(Record(t', commit), commit.projection.caseId)
  {
    hide OutboxEvents, LogEvents, SummaryAt, Top, Dense, RowsGood, CaseGood, WellFormed, Extends, Latest, InsertedSoFar, Decide;
    var c, p := commit.projection.caseId, commit.projection;
    AcceptedContinues(t, commit);
    assert CaseSettled(t, c);
    InsertedOwn(t, p, EventsOf(commit), t');
    NotYetRecorded(t, commit);
    RecordFrame(t', commit);
    assert Latest(LogOf(Record(t', commit), c)) == Latest(LogOf(t', c)) by { SameLatest(LogOf(Record(t', commit), c), LogOf(t', c)); }
  }

  lemma SameLatest(a: CaseLog, b: CaseLog)
    requires a.projections == b.projections
    ensures Latest(a) == Latest(b)
  {
  }

  lemma InsertedOwn(t: Tables, p: Projection, events: seq<Event>, t': Tables)
    requires InsertedSoFar(t, p, events, t') && events != []
    requires p.projectionRevision == |LogOf(t, p.caseId).projections| + 1 && Good(t)
    ensures var log, log' := LogOf(t, p.caseId), LogOf(t', p.caseId);
            && log'.commands == log.commands && log'.syncs == log.syncs
            && |log'.events| == |log.events| + |events| && |log'.projections| == |log.projections| + 1
            && Latest(log') == Some(p) && SummaryAt(t'.outbox, p.caseId, |t'.outbox|) == Some(p)
            && RowsGood(t') && forall c :: CaseGood(t', c)
  {
    hide SummaryAt, RowsGood, CaseSettled, Top, Extends;
    assert CaseGood(t, p.caseId);
    DenseSnoc(LogOf(t, p.caseId).projections, p);
  }

  lemma NotYetRecorded(t: Tables, commit: Commit)
    requires Decide(t, commit) == Accept
    ensures var log := LogOf(t, commit.projection.caseId);
            match commit
            case Initialize(_, _) => log.projections == map[]
            case Transition(key, _, _, _, _) => key !in log.commands && log != NO_LOG
            case Sync(key, _, _, _, _) => key !in log.syncs && log != NO_LOG
  {
  }

  lemma RecordGood(t: Tables, commit: Commit, t': Tables)
    requires Good(t) && WellFormed(commit) && Decide(t, commit) == Accept
    requires InsertedSoFar(t, commit.projection, EventsOf(commit), t')
    ensures Good(Record(t', commit))
  {
    hide OutboxEvents, LogEvents, SummaryAt, Top, Dense, EventsOnce, RowsGood, LogGood, Decide, WellFormed, Extends, Record;
    RecordFrame(t', commit);
    RecordSettled(t, commit, t');
    var after := Record(t', commit);
    forall c ensures CaseSettled(after, c) {
      assert c != commit.projection.caseId ==> CaseSettled(t', c);
    }
  }

  /** Every transaction run alone leaves the tables good: the outbox is 1..N, its
      restriction to any case is the case's event log in order, snapshots have no
      missing revision, and the revisions count the accepted commands and syncs. */
  lemma ApplyGood(t: Tables, commit: Commit)
    requires Good(t) && WellFormed(commit)
    ensures Good(Apply(t, commit))
  {
    hide Good, InsertEvents, Record, Stage, Decide;
    if Decide(t, commit) == Accept && InsertEvents(Stage(t, commit.projection), commit.projection, EventsOf(commit)).Some? {
      AcceptedContinues(t, commit);
      InsertsGood(t, commit.projection, EventsOf(commit));
      RecordGood(t, commit, InsertEvents(Stage(t, commit.projection), commit.projection, EventsOf(commit)).value);
    }
  }

  lemma NoTablesGood()
    ensures Good(NO_TABLES)
  {
    assert |NO_TABLES.outbox| == 0 && |NO_LOG.projections| == 0 && |NO_LOG.events| == 0;
  }

  // ---- Append-only -----------------------------------------------------------------

  /** Later tables keep every row of earlier ones under its key. */
  ghost predicate Grows(t: Tables, t': Tables) {
    Extends(t.outbox, t'.outbox) && forall c :: LogGrows(LogOf(t, c), LogOf(t', c))
  }

  ghost predicate LogGrows(log: CaseLog, log': CaseLog) {
    Extends(log.projections, log'.projections) && Extends(log.events, log'.events)
    && Keeps(log.commands, log'.commands) && Keeps(log.syncs, log'.syncs)
  }

  ghost predicate Keeps(m: map<int, Commit>, m': map<int, Commit>) {
    forall k | k in m :: k in m' && m'[k] == m[k]
  }

  lemma ApplyGrows(t: Tables, commit: Commit)
    requires Good(t) && WellFormed(commit)
    ensures Grows(t, Apply(t, commit))
  {
    hide Good, InsertEvents, Inserting, SummaryAt, Top, Stage, WellFormed;
    if Decide(t, commit) == Accept && InsertEvents(Stage(t, commit.projection), commit.projection, EventsOf(commit)).Some? {
      var p := commit.projection;
      AcceptedContinues(t, commit);
      InsertsGood(t, p, EventsOf(commit));
      var t' := InsertEvents(Stage(t, p), p, EventsOf(commit)).value;
      StageRows(t, p) by { assert RowsGood(t) && CaseGood(t, p.caseId) by { GoodParts(t, p.caseId); } }
      NotYetRecorded(t, commit);
      CommitGrows(t, commit, t');
    }
  }

  lemma GoodParts(t: Tables, c: int)
    requires Good(t)
    ensures RowsGood(t) && CaseGood(t, c) && CaseSettled(t, c) && Dense(t.outbox)
  {
  }

  lemma RecordKeeps(t: Tables, commit: Commit)
    ensures var c, t' := commit.projection.caseId, Record(t, commit);
            var log, log' := LogOf(t, c), LogOf(t', c);
            && t'.outbox == t.outbox && (forall d | d != c :: LogOf(t', d) == LogOf(t, d))
            && log'.projections == log.projections && log'.events == log.events
            && log'.commands == (if commit.Transition? then log.commands[commit.key := commit] else log.commands)
            && log'.syncs == (if commit.Sync? then log.syncs[commit.key := commit] else log.syncs)
  {
  }

  lemma InsertedGrows(t: Tables, p: Projection, events: seq<Event>, t': Tables)
    requires InsertedSoFar(t, p, events, t') && p.projectionRevision !in LogOf(t, p.caseId).projections
    ensures Grows(t, t')
    ensures LogOf(t', p.caseId).commands == LogOf(t, p.caseId).commands && LogOf(t', p.caseId).syncs == LogOf(t, p.caseId).syncs
  {
    hide Inserting, SummaryAt, Extends;
    ExtendsSnoc(LogOf(t, p.caseId).projections, LogOf(t, p.caseId).projections, p.projectionRevision, p) by {
      ExtendsSelf(LogOf(t, p.caseId).projections);
    }
    forall c ensures LogGrows(LogOf(t, c), LogOf(t', c)) {
      ExtendsSelf(LogOf(t, c).projections);
      ExtendsSelf(LogOf(t, c).events);
    }
  }

  lemma ExtendsSelf<V>(m: map<nat, V>)
    ensures Extends(m, m)
  {
  }

  lemma CommitGrows(t: Tables, commit: Commit, t': Tables)
    requires InsertedSoFar(t, commit.projection, EventsOf(commit), t') && Decide(t, commit) == Accept
    requires commit.projection.projectionRevision !in LogOf(t, commit.projection.caseId).projections
    ensures Grows(t, Record(t', commit))
  {
    hide Inserting, SummaryAt, Top, Decide, Record, InsertedSoFar;
    NotYetRecorded(t, commit);
    RecordKeeps(t', commit);
    InsertedGrows(t, commit.projection, EventsOf(commit), t');
  }
}
