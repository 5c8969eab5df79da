/** The reader's three standstills, worked through on one small file. */
module SpoolStalls {
  import opened Options
  import opened SpoolLog
  import opened SpoolReader
  import opened SpoolExactlyOnce
  import opened SpoolProgress

  /** Two records of two bytes, one log fact each: the first of instant 0, the
      second of instant 20. */
  const DEMO_FILE: Bytes := [7, 10, 8, 10]

  const FIRST := Fact(1, 0, true, Plain(0.0))
  const SECOND := Fact(2, 20, true, Plain(0.0))

  function DemoExtract(prefix: Bytes, pos: nat): Option<seq<Fact>> {
    Some([if pos == 0 then FIRST else SECOND])
  }

  /** Facts stay current for a hundred instants; one actor polls. */
  function DemoConfig(maxBytes: nat, validFrom: int): Config {
    Config(Logs, 5, maxBytes, 100, validFrom, None, at => 0, DemoExtract)
  }

  function DemoWorld(): World {
    World(1, DEMO_FILE, [Cursor(1, 0, 0, 0, 1)], [])
  }

  lemma DemoRecords()
    ensures NextEnd(DEMO_FILE, 0) == Some(2)
    ensures WindowEnds(DEMO_FILE, 0, 5, 1024) == [2, 4]
  {
    NextEndUnique(DEMO_FILE, 0, 2);
    NextEndUnique(DEMO_FILE, 2, 4);
    hide NextEnd;
    assert NextEnd(DEMO_FILE, 4) == None;
    assert WindowEnds(DEMO_FILE, 4, 3, 1020) == [];
    assert WindowEnds(DEMO_FILE, 2, 4, 1022) == [4];
  }

  lemma DemoOffer(validFrom: int)
    ensures var cfg, w := DemoConfig(1024, validFrom), DemoWorld();
            HasOffer(cfg, w) && Offered(cfg, w) == FIRST
  {
    DemoRecords();
    hide NextEnd, WindowEnds;
    var cfg, w := DemoConfig(1024, validFrom), DemoWorld();
    assert RecordFacts(cfg, DEMO_FILE, 0) == [FIRST];
    assert View(cfg, DEMO_FILE)(0) == [FIRST];
    assert Target(cfg, w) == Some(Record(0, 2, [FIRST]));
  }

  /** A poll at instant 50 stores the first fact and dies before its cursor is
      saved. From instant 101 on every retry is refused, and the second fact is
      never stored. */
  lemma LateRetryStalls(later: seq<Step>)
    requires forall s | s in later && !s.Append? :: s.now > 100
    ensures var cfg := DemoConfig(1024, 0);
            var w1 := Next(cfg, DemoWorld(), CrashedPoll(50));
            && w1 == DemoWorld().(events := [Event(1, 0, 50, 0, true, Plain(0.0))])
            && Run(cfg, w1, later).cursors == w1.cursors && Run(cfg, w1, later).events == w1.events
  {
    hide HasOffer, Offered, PlanPoll, Run;
    var cfg, w := DemoConfig(1024, 0), DemoWorld();
    var stored := Event(1, 0, 50, 0, true, Plain(0.0));
    DemoOffer(0);
    OffersFact(cfg, w, 50);
    assert Normalize(cfg, FIRST, 50) == Some(stored);
    assert Twin([], 1) == None && Twin([stored], 1) == Some(stored);
    CrashLosesAck(cfg, w, 50);
    var w1 := Next(cfg, w, CrashedPoll(50));
    ExpiredRetryStallsForever(cfg, w1, FIRST, stored, later);
  }

  /** A binding in force from instant 10 on: the first fact is refused at every
      poll, and the second, which lies inside, is never stored. */
  lemma FactBeforeBindingStalls(steps: seq<Step>)
    requires forall s | s in steps && !s.Append? :: s.now >= 0
    ensures var cfg := DemoConfig(1024, 10);
            && InForce(cfg, SECOND.observed)
            && Run(cfg, DemoWorld(), steps).cursors == DemoWorld().cursors && Run(cfg, DemoWorld(), steps).events == []
  {
    hide HasOffer, Offered, Run;
    DemoOffer(10);
    OutsideBindingStallsForever(DemoConfig(1024, 10), DemoWorld(), FIRST, steps);
  }

  /** A limit of one byte: no poll ever gets past the first record. */
  lemma OverlongFirstStalls(steps: seq<Step>)
    ensures var cfg := DemoConfig(1, 0);
            Run(cfg, DemoWorld(), steps).cursors == DemoWorld().cursors && Run(cfg, DemoWorld(), steps).events == []
  {
    hide Run, NextEnd;
    DemoRecords();
    OverlongRecordStallsForever(DemoConfig(1, 0), DemoWorld(), steps);
  }
}
