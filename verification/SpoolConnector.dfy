/** The poll itself, step by step, over a repository that is updated in place. */
module SpoolConnector {
  import opened Options
  import opened SpoolLog
  import opened SpoolReader

  /** The dispatch row of a delivery, under an id made of the normalized hash. */
  datatype Dispatch = Dispatch(hash: Event, pending: bool, attempt: nat)

  /** What the normalization hash covers. */
  function Hash(e: Event): Event {
    e.(received := 0)
  }

  /** The row a connector sends along: pending, first attempt. */
  function FreshDispatch(e: Event): Dispatch {
    Dispatch(Hash(e), true, 1)
  }

  /** Cursor revisions are append-only and contiguous; source events are keyed; a
      dispatch row is inserted with its event and never updated in place. */
  class SpoolRepository {
    var cursors: seq<Cursor>
    var events: seq<Event>
    var dispatches: map<Event, Dispatch>

    ghost predicate Valid()
      reads this
    {
      && (forall i | 0 <= i < |cursors| :: cursors[i].revision == i + 1)
      && (forall e | e in events :: Hash(e) in dispatches)
      && (forall h | h in dispatches :: dispatches[h].hash == h)
    }

    /** Every dispatch row is as connectors send it. */
    ghost predicate OnlyFresh()
      reads this
    {
      forall h | h in dispatches :: dispatches[h] == Dispatch(h, true, 1)
    }

    ghost function AsWorld(fileId: int, bytes: Bytes): World
      reads this
    {
      World(fileId, bytes, cursors, events)
    }

    constructor ()
      ensures Valid() && OnlyFresh() && cursors == [] && events == []
    {
      cursors, events, dispatches := [], [], map[];
    }

    /** A revision is written once: the same cursor again is a replay, another
        cursor under a used revision or a gap is an error. */
    method SaveSpoolCursor(cursor: Cursor) returns (saved: bool)
      requires Valid()
      modifies this`cursors
      ensures Valid()
      ensures saved <==> cursor.revision == |old(cursors)| + 1 || cursor in old(cursors)
      ensures cursors == if cursor.revision == |old(cursors)| + 1 then old(cursors) + [cursor] else old(cursors)
    {
      if cursor.revision != |cursors| + 1 {
        saved := 1 <= cursor.revision <= |cursors| && cursors[cursor.revision - 1] == cursor;
        return;
      }
      cursors := cursors + [cursor];
      saved := true;
    }

    method FindEvent(key: int) returns (found: Option<Event>)
      ensures found == Twin(events, key)
    {
      var i := 0;
      found := None;
      while i < |events|
        invariant 0 <= i <= |events|
        invariant Twin(events, key) == Twin(events[i..], key)
      {
        if events[i].key == key { return Some(events[i]); }
        i := i + 1;
      }
    }

    /** Insert-if-absent: a repeated identity is accepted only when it is the same
        normalized delivery with the dispatch row it was stored with; a fact outside
        its binding, or a new one with another's dispatch, is an error. For the
        dispatch rows connectors send, none of the dispatch checks can fail. */
    method AdmitSourceEvent(cfg: Config, e: Event, dispatch: Dispatch) returns (accepted: bool)
      requires Valid()
      modifies this`events, this`dispatches
      ensures Valid()
      ensures accepted <==>
                && !Refused(cfg, old(events), e)
                && (Twin(old(events), e.key).None? ==> dispatch.hash == Hash(e))
                && (Twin(old(events), e.key).Some? ==>
                      dispatch.hash in old(dispatches) && old(dispatches)[dispatch.hash] == dispatch)
      ensures events == if accepted then Admit(old(events), e) else old(events)
      ensures dispatches == if accepted then old(dispatches)[dispatch.hash := dispatch] else old(dispatches)
      ensures old(OnlyFresh()) && dispatch == FreshDispatch(e) ==>
                OnlyFresh() && (accepted <==> !Refused(cfg, old(events), e))
    {
      if !InForce(cfg, e.observed) { return false; }
      var prior := FindEvent(e.key);
      if prior.Some? {
        if !SameDelivery(prior.value, e) { return false; }
        assert dispatch.hash in dispatches && dispatches[dispatch.hash] == dispatch ==>
            dispatches[dispatch.hash := dispatch] == dispatches;
        return dispatch.hash in dispatches && dispatches[dispatch.hash] == dispatch;
      }
      if dispatch.hash != Hash(e) { return false; }
      events, dispatches := events + [e], dispatches[dispatch.hash := dispatch];
      accepted := true;
    }
  }

  class OtelSpoolConnector {
    const cfg: Config
    const repository: SpoolRepository

    constructor (cfg: Config, repository: SpoolRepository)
      ensures this.cfg == cfg && this.repository == repository
    {
      this.cfg, this.repository := cfg, repository;
    }

    /** Decode the records just read and keep the ones with observations. */
    method Decode(bytes: Bytes, start: nat, ends: seq<nat>) returns (first: Option<Record>, last: Option<Record>)
      requires start <= |bytes| && Chain(bytes, start, ends)
      ensures first == FirstRecord(View(cfg, bytes), start, ends)
      ensures last == LastRecord(View(cfg, bytes), start, ends)
    {
      var i, lineStart := 0, start;
      first, last := None, None;
      ghost var view := View(cfg, bytes);
      while i < |ends|
        invariant 0 <= i <= |ends| && lineStart == Last(ends[..i], start) <= |bytes|
        invariant Chain(bytes, lineStart, ends[i..])
        invariant FirstRecord(view, start, ends) ==
                  if first.Some? then first else FirstRecord(view, lineStart, ends[i..])
        invariant LastRecord(view, start, ends) ==
                  var rest := LastRecord(view, lineStart, ends[i..]); if rest.Some? then rest else last
      {
        assert ends[i..][1..] == ends[i + 1..] && ends[i..][0] == ends[i];
        var facts := RecordFacts(cfg, bytes, lineStart);
        assert view(lineStart) == facts;
        if facts != [] {
          var record := Record(lineStart, ends[i], facts);
          first := if first.None? then Some(record) else first;
          last := Some(record);
        }
        lineStart := ends[i];
        i := i + 1;
      }
    }

    method SaveCursor(fileId: int, bytes: Bytes, to: Position)
      requires repository.Valid()
      modifies repository`cursors
      ensures repository.Valid()
      ensures old(repository.OnlyFresh()) ==> repository.OnlyFresh()
      ensures repository.AsWorld(fileId, bytes) == Save(cfg, old(repository.AsWorld(fileId, bytes)), to)
    {
      hide WindowEnds, Chain, LongestFittingRun, NextEnd, EntryOffset, CountWithin;
      var w := World(fileId, bytes, repository.cursors, repository.events);
      var prior := PriorOffset(cfg, w);
      if to.offset < prior || (to.offset == prior && to.index <= PriorIndex(w)) { return; }
      var ends := ReadWindow(bytes, prior, cfg.maxLines, cfg.maxBytes);
      var line := if Matches(w) then Current(w).line else 0;
      var saved := repository.SaveSpoolCursor(Cursor(
        |repository.cursors| + 1, to.offset, to.index, line + CountWithin(ends, prior, to.offset), fileId));
    }

    /** Work on one record: publish, normalize and admit one item, and only then
        move the cursor. */
    method Deliver(fileId: int, bytes: Bytes, record: Record, now: int) returns (reason: Reason)
      requires repository.Valid() && repository.OnlyFresh()
      modifies repository
      ensures repository.Valid() && repository.OnlyFresh()
      ensures var w := old(repository.AsWorld(fileId, bytes));
              && repository.AsWorld(fileId, bytes) == Apply(cfg, w, PlanRecord(cfg, w, record, now), false)
              && reason == PlanRecord(cfg, w, record, now).reason
    {
      hide Save, EntryOffset, IntervalFacts, Normalize, Refused;
      var w := World(fileId, bytes, repository.cursors, repository.events);
      var facts := record.facts;
      if cfg.kind == Metrics { facts := IntervalFacts(facts, repository.events); }
      if facts == [] {
        SaveCursor(fileId, bytes, Position(record.end, 0));
        return IntervalEmpty;
      }
      var index := if record.start == PriorOffset(cfg, w) then PriorIndex(w) else 0;
      if index >= |facts| {
        SaveCursor(fileId, bytes, Position(record.end, 0));
        return RecordDrained;
      }
      var after := if index + 1 < |facts| then Position(record.start, index + 1) else Position(record.end, 0);
      var event := Normalize(cfg, facts[index], now);
      if event.None? {
        SaveCursor(fileId, bytes, after);
        return Rejected;
      }
      var accepted := repository.AdmitSourceEvent(cfg, event.value, FreshDispatch(event.value));
      if accepted { SaveCursor(fileId, bytes, after); }
      reason := Admitted;
    }

    /** One poll: its effect is the `Poll` step of the run model, and a refused
        admission leaves the repository as it was. */
    method Poll(fileId: int, bytes: Bytes, now: int) returns (reason: Reason)
      requires repository.Valid() && repository.OnlyFresh()
      modifies repository
      ensures repository.Valid() && repository.OnlyFresh()
      ensures repository.AsWorld(fileId, bytes) == Next(cfg, old(repository.AsWorld(fileId, bytes)), SpoolReader.Poll(now))
      ensures reason == PlanPoll(cfg, old(repository.AsWorld(fileId, bytes)), now).reason
    {
      hide Save, EntryOffset, PlanRecord, WindowEnds, Chain, FirstRecord, LastRecord, RecordFacts, NextEnd;
      var w := World(fileId, bytes, repository.cursors, repository.events);
      if !InForce(cfg, now) { return Unbound; }
      var prior := PriorOffset(cfg, w);
      if |bytes| <= prior { return NoNewEvidence; }
      var ends := ReadWindow(bytes, prior, cfg.maxLines, cfg.maxBytes);
      if ends == [] { return NoCompleteRecord; }
      var first, last := Decode(bytes, prior, ends);
      var chosen := if Matches(w) then first else last;
      if chosen.None? {
        if PriorIndex(w) > 0 { return PartialRecordChanged; }
        SaveCursor(fileId, bytes, Position(Last(ends, prior), 0));
        return NoMatch;
      }
      if PriorIndex(w) > 0 && chosen.value.start != prior && cfg.kind != Traces { return PartialRecordChanged; }
      reason := Deliver(fileId, bytes, chosen.value, now);
    }
  }
}
