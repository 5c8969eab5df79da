/** The restart-safe spool connector: one fact per poll, admitted into the
    event store before the durable (offset, item index) cursor moves. */
module SpoolReader {
  import opened Options
  import opened SpoolLog
  import opened SpoolIntervals

  datatype StreamKind = Traces | Metrics | Logs

  datatype Measure = ErrorRateOf | RequestCount | MeanLatency

  datatype Reading =
    | Plain(value: real)
    | Cumulative(measure: Measure, snapshot: Snapshot, value: real)

  /** One deterministically ordered observation of a record. `key` stands for
      the provider event id; `wellFormed` for the time-independent checks of
      the normalizer. */
  datatype Fact = Fact(key: int, observed: int, wellFormed: bool, reading: Reading)

  /** A normalized source event as the store keeps it; `acl` stands for the
      subjects the poll passed in. */
  datatype Event = Event(key: int, observed: int, received: int, acl: int, current: bool, reading: Reading)

  datatype Cursor = Cursor(revision: nat, offset: nat, index: nat, line: nat, fileId: int)

  /** `extract(prefix, start)` decodes the record `prefix[start..]`; the bytes
      before it are the history a trace join may look back into. `aclAt` says
      which subjects the poll made at an instant passes in: every caller passes
      the one who acts. */
  datatype Config = Config(
    kind: StreamKind, maxLines: nat, maxBytes: nat, sla: int,
    validFrom: int, validTo: Option<int>, aclAt: int -> int,
    extract: (Bytes, nat) -> Option<seq<Fact>>)

  datatype World = World(fileId: int, bytes: Bytes, cursors: seq<Cursor>, events: seq<Event>)

  datatype Record = Record(start: nat, end: nat, facts: seq<Fact>)

  datatype Reason =
    | Unbound | NoNewEvidence | NoCompleteRecord | PartialRecordChanged | NoMatch
    | IntervalEmpty | RecordDrained | Rejected | Admitted

  datatype Position = Position(offset: nat, index: nat)

  /** What one poll decides: which event to admit, and where to move afterwards. */
  datatype Plan = Plan(reason: Reason, admit: Option<Event>, save: Option<Position>)

  // ---- Normalization and admission ---------------------------------------

  function Sources(events: seq<Event>): (sources: seq<Source>)
    ensures |sources| == |events|
  {
    seq(|events|, i requires 0 <= i < |events| =>
      var e := events[i];
      Source(e.key, e.observed,
             match e.reading case Cumulative(_, s, _) => Some(s.totals) case Plain(_) => None))
  }

  function MeasureValue(measure: Measure, amounts: Totals): real
    requires amounts.requests > 0.0
  {
    match measure
    case ErrorRateOf => ErrorRate(amounts)
    case RequestCount => amounts.requests
    case MeanLatency => amounts.duration / amounts.requests * 1000.0
  }

  function WithInterval(fact: Fact, interval: Interval): (r: Fact)
    requires interval.amounts.requests > 0.0
    ensures r.key == fact.key && r.observed == fact.observed && r.wellFormed == fact.wellFormed
  {
    match fact.reading
    case Plain(_) => fact
    case Cumulative(m, s, _) =>
      fact.(reading := Cumulative(m, s.(start := interval.start), MeasureValue(m, interval.amounts)))
  }

  /** Metrics publish growth since the previous snapshot; one interval, taken
      from the first item, serves the whole record. */
  function IntervalFacts(facts: seq<Fact>, events: seq<Event>): (r: seq<Fact>)
    ensures r == [] || |r| == |facts|
    ensures forall i | 0 <= i < |r| :: r[i].key == facts[i].key && r[i].observed == facts[i].observed
  {
    if facts == [] then []
    else
      match facts[0].reading
      case Plain(_) => facts
      case Cumulative(_, snapshot, _) =>
        match IntervalOf(snapshot, Sources(events))
        case None => []
        case Some(interval) =>
          seq(|facts|, i requires 0 <= i < |facts| => WithInterval(facts[i], interval))
  }

  /** The decoder sorts a record's facts by measure and instant, and every snapshot
      yields each measure: no fact is earlier than the first one's snapshot. */
  ghost predicate EarliestFirst(facts: seq<Fact>) {
    facts != [] && facts[0].reading.Cumulative? ==>
      forall f | f in facts :: facts[0].reading.snapshot.observed <= f.observed
  }

  /** The facts a poll would publish for a record, given the store. */
  function Published(cfg: Config, facts: seq<Fact>, events: seq<Event>): (r: seq<Fact>)
    ensures r == [] || |r| == |facts|
    ensures forall i | 0 <= i < |r| :: r[i].key == facts[i].key && r[i].observed == facts[i].observed
  {
    if cfg.kind == Metrics then IntervalFacts(facts, events) else facts
  }

  function Normalize(cfg: Config, fact: Fact, now: int): Option<Event> {
    var startOk := match fact.reading
      case Plain(_) => true
      case Cumulative(_, s, _) => 0 < s.start <= fact.observed;
    if !fact.wellFormed || fact.observed > now || !startOk then None
    else Some(Event(fact.key, fact.observed, now, cfg.aclAt(now), fact.observed + cfg.sla >= now, fact.reading))
  }

  function Twin(events: seq<Event>, key: int): (r: Option<Event>)
    ensures r.Some? ==> r.value in events && r.value.key == key
    ensures r.None? <==> forall e | e in events :: e.key != key
  {
    if events == [] then None
    else if events[0].key == key then Some(events[0])
    else Twin(events[1..], key)
  }

  /** Equal canonical hashes: everything but the arrival time agrees, the raw
      content hash and the subjects included. */
  predicate SameDelivery(a: Event, b: Event) {
    a.(received := 0) == b.(received := 0)
  }

  /** The binding is valid at an instant. */
  predicate InForce(cfg: Config, at: int) {
    cfg.validFrom <= at && (cfg.validTo.Some? ==> at < cfg.validTo.value)
  }

  predicate OutsideBinding(cfg: Config, e: Event) {
    !InForce(cfg, e.observed)
  }

  /** The admission guard: the error cases that leave `poll` as an exception. */
  predicate Refused(cfg: Config, events: seq<Event>, e: Event) {
    OutsideBinding(cfg, e)
    || (var twin := Twin(events, e.key); twin.Some? && !SameDelivery(twin.value, e))
  }

  /** Insert-if-absent on the provider event id. */
  function Admit(events: seq<Event>, e: Event): seq<Event> {
    if Twin(events, e.key).Some? then events else events + [e]
  }

  // ---- One poll ------------------------------------------------------------

  function RecordFacts(cfg: Config, bytes: Bytes, pos: nat): seq<Fact>
    requires pos <= |bytes|
  {
    match NextEnd(bytes, pos)
    case None => []
    case Some(end) =>
      match cfg.extract(bytes[..end], pos)
      case None => []
      case Some(facts) => facts
  }

  /** First start and rotation enter through a bounded tail, at a record start. */
  function EntryOffset(bytes: Bytes, maxBytes: nat): (pos: nat)
    ensures pos <= |bytes|
    ensures pos < |bytes| ==> RecordStart(bytes, pos)
  {
    if |bytes| <= maxBytes then 0
    else
      match NextEnd(bytes, |bytes| - maxBytes)
      case None => |bytes|
      case Some(end) => end
  }

  predicate Matches(w: World) {
    w.cursors != [] && w.cursors[|w.cursors| - 1].fileId == w.fileId
    && w.cursors[|w.cursors| - 1].offset <= |w.bytes|
  }

  function Current(w: World): Cursor
    requires Matches(w)
  {
    w.cursors[|w.cursors| - 1]
  }

  function PriorOffset(cfg: Config, w: World): (pos: nat)
    ensures pos <= |w.bytes|
  {
    if Matches(w) then Current(w).offset else EntryOffset(w.bytes, cfg.maxBytes)
  }

  function PriorIndex(w: World): nat {
    if Matches(w) then Current(w).index else 0
  }

  /** The first (or last) of the records just read that has any observation. */
  function FirstRecord(view: nat -> seq<Fact>, start: nat, ends: seq<nat>): Option<Record>
    decreases |ends|
  {
    if ends == [] then None
    else if view(start) != [] then Some(Record(start, ends[0], view(start)))
    else FirstRecord(view, ends[0], ends[1..])
  }

  function LastRecord(view: nat -> seq<Fact>, start: nat, ends: seq<nat>): Option<Record>
    decreases |ends|
  {
    if ends == [] then None
    else
      match LastRecord(view, ends[0], ends[1..])
      case Some(r) => Some(r)
      case None => if view(start) != [] then Some(Record(start, ends[0], view(start))) else None
  }

  function PlanRecord(cfg: Config, w: World, r: Record, now: int): Plan {
    var facts := Published(cfg, r.facts, w.events);
    if facts == [] then Plan(IntervalEmpty, None, Some(Position(r.end, 0)))
    else
      var index := if r.start == PriorOffset(cfg, w) then PriorIndex(w) else 0;
      if index >= |facts| then Plan(RecordDrained, None, Some(Position(r.end, 0)))
      else
        var next := if index + 1 < |facts| then Position(r.start, index + 1) else Position(r.end, 0);
        match Normalize(cfg, facts[index], now)
        case None => Plan(Rejected, None, Some(next))
        case Some(e) => Plan(Admitted, Some(e), Some(next))
  }

  /** The decision of one poll that sees the observation list `view(start)` for
      each record. A poll first resolves the binding at its own clock. Only the
      trace path goes on when a partial record vanished. */
  function PlanWith(cfg: Config, w: World, view: nat -> seq<Fact>, now: int): Plan {
    var prior := PriorOffset(cfg, w);
    var ends := WindowEnds(w.bytes, prior, cfg.maxLines, cfg.maxBytes);
    if !InForce(cfg, now) then Plan(Unbound, None, None)
    else if |w.bytes| <= prior then Plan(NoNewEvidence, None, None)
    else if ends == [] then Plan(NoCompleteRecord, None, None)
    else
      match (if Matches(w) then FirstRecord(view, prior, ends) else LastRecord(view, prior, ends))
      case None =>
        if PriorIndex(w) > 0 then Plan(PartialRecordChanged, None, None)
        else Plan(NoMatch, None, Some(Position(Last(ends, prior), 0)))
      case Some(r) =>
        if PriorIndex(w) > 0 && r.start != prior && cfg.kind != Traces
        then Plan(PartialRecordChanged, None, None)
        else PlanRecord(cfg, w, r, now)
  }

  function View(cfg: Config, bytes: Bytes): nat -> seq<Fact> {
    (pos: nat) => if pos <= |bytes| then RecordFacts(cfg, bytes, pos) else []
  }

  function PlanPoll(cfg: Config, w: World, now: int): Plan {
    PlanWith(cfg, w, View(cfg, w.bytes), now)
  }

  function CountWithin(ends: seq<nat>, lo: nat, hi: nat): nat {
    if ends == [] then 0
    else (if lo < ends[0] <= hi then 1 else 0) + CountWithin(ends[1..], lo, hi)
  }

  /** `save_cursor`: never backwards, never in place; appends one revision. */
  function Save(cfg: Config, w: World, to: Position): World {
    var prior := PriorOffset(cfg, w);
    if to.offset < prior || (to.offset == prior && to.index <= PriorIndex(w)) then w
    else
      var ends := WindowEnds(w.bytes, prior, cfg.maxLines, cfg.maxBytes);
      var line := if Matches(w) then Current(w).line else 0;
      var revision := if w.cursors == [] then 1 else w.cursors[|w.cursors| - 1].revision + 1;
      w.(cursors := w.cursors + [
        Cursor(revision, to.offset, to.index, line + CountWithin(ends, prior, to.offset), w.fileId)])
  }

  function Apply(cfg: Config, w: World, plan: Plan, crash: bool): World {
    match plan.admit
    case Some(e) =>
      if Refused(cfg, w.events, e) then w
      else
        var stored := w.(events := Admit(w.events, e));
        if crash || plan.save.None? then stored else Save(cfg, stored, plan.save.value)
    case None =>
      if crash || plan.save.None? then w else Save(cfg, w, plan.save.value)
  }

  /** What can happen to a spool: the Collector appends, a poll completes, or a
      poll dies after its admission and before its cursor is durable. */
  datatype Step = Append(more: Bytes) | Poll(now: int) | CrashedPoll(now: int)

  function Next(cfg: Config, w: World, step: Step): World {
    match step
    case Append(more) => w.(bytes := w.bytes + more)
    case Poll(now) => Apply(cfg, w, PlanPoll(cfg, w, now), false)
    case CrashedPoll(now) => Apply(cfg, w, PlanPoll(cfg, w, now), true)
  }

  function Run(cfg: Config, w: World, steps: seq<Step>): World {
    if steps == [] then w else Next(cfg, Run(cfg, w, steps[..|steps| - 1]), steps[|steps| - 1])
  }
}
