/** One transaction as the repository runs it, statement by statement. */
module LiveStore {
  import opened Options
  import opened LiveOutbox

  class WorkspaceStore {
    var tables: Tables

    constructor ()
      ensures tables == NO_TABLES
    {
      tables := NO_TABLES;
    }

    /** `COALESCE(MAX(key), 0)` by a scan in any order. */
    static method MaxKey<V>(m: map<nat, V>) returns (top: nat)
      ensures top == Top(m.Keys)
    {
      top := 0;
      var todo := m.Keys;
      while todo != {}
        invariant todo <= m.Keys
        invariant forall k | k in m && k !in todo :: k <= top
        invariant top == 0 || top in m
        decreases |todo|
      {
        var k :| k in todo;
        if k > top { top := k; }
        todo := todo - {k};
      }
    }

    static method ReadLatest(log: CaseLog) returns (latest: Option<Projection>)
      ensures latest == Latest(log)
    {
      if log.projections == map[] { return None; }
      var top := MaxKey(log.projections);
      assert log.projections.Keys != {};
      latest := Some(log.projections[top]);
    }

    /** Event rows and outbox rows, one pair at a time; a constraint violation
        gives the whole transaction up. */
    static method InsertWorkspaceEvents(work: Tables, p: Projection, events: seq<Event>) returns (result: Option<Tables>)
      ensures result == InsertEvents(work, p, events)
    {
      var t, i := work, 0;
      while i < |events|
        invariant 0 <= i <= |events| && InsertEvents(work, p, events[..i]) == Some(t)
      {
        assert events[..i + 1][..i] == events[..i];
        if Violates(t, p, events[i]) {
          NoneStays(work, p, events, i + 1);
          return None;
        }
        var top := MaxKey(t.outbox);
        var log := LogOf(t, p.caseId);
        t := Tables(t.cases[p.caseId := log.(events := log.events[events[i].sequence := events[i]])],
                    t.outbox[top + 1 := Live(events[i].id, p.caseId, events[i].completed, p)]);
        i := i + 1;
      }
      assert events[..i] == events;
      result := Some(t);
    }

    static lemma {:induction false} NoneStays(work: Tables, p: Projection, events: seq<Event>, n: nat)
      requires n <= |events| && InsertEvents(work, p, events[..n]).None?
      ensures InsertEvents(work, p, events).None?
      decreases |events|
    {
      if n == |events| {
        assert events[..n] == events;
      } else {
        assert events[..|events| - 1][..n] == events[..n];
        NoneStays(work, p, events[..|events| - 1], n);
      }
    }

    /** Lock, read, decide, stage, allocate, record: all of it or nothing. */
    method CommitWorkspace(commit: Commit) returns (decision: Decision, stored: bool)
      modifies this
      ensures tables == Apply(old(tables), commit)
      ensures decision == Decide(old(tables), commit)
      ensures stored ==> decision == Accept
      ensures !stored ==> tables == old(tables)
    {
      var c := commit.projection.caseId;
      var latest := ReadLatest(LogOf(tables, c));
      decision := DecideOn(LogOf(tables, c), latest, commit);
      stored := false;
      if decision == Accept {
        var work := InsertWorkspaceEvents(Stage(tables, commit.projection), commit.projection, EventsOf(commit));
        if work.Some? {
          tables := Record(work.value, commit);
          stored := true;
        }
      }
    }
  }
}
