/** When the spool reader moves, when it drains, and when it stalls for good. */
module SpoolProgress {
  import opened Options
  import opened SpoolLog
  import opened SpoolIntervals
  import opened SpoolReader
  import opened SpoolFacts
  import opened SpoolExactlyOnce

  ghost predicate Advanced(w: World, w': World) {
    Matches(w) && Matches(w') && w'.fileId == w.fileId && Before(Current(w), Current(w'))
  }

  /** The poll offers an event that the admission guard turns down. */
  predicate OffersRefused(cfg: Config, w: World, now: int) {
    var plan := PlanPoll(cfg, w, now);
    plan.admit.Some? && Refused(cfg, w.events, plan.admit.value)
  }

  /** A whole record that fits one poll lies at the cursor. */
  predicate RecordWaiting(cfg: Config, w: World) {
    Matches(w)
    && var end := NextEnd(w.bytes, Current(w).offset);
       end.Some? && end.value - Current(w).offset <= cfg.maxBytes
  }

  /** With a record waiting, a poll moves the cursor strictly forward in
      (offset, item) order exactly when the binding is in force at the poll's clock
      and the event it offers is not turned down; otherwise it changes nothing. */
  lemma PollAdvancesUnlessRefused(cfg: Config, w: World, now: int)
    requires cfg.maxLines >= 1 && Good(cfg, w) && RecordWaiting(cfg, w)
    ensures Advanced(w, Next(cfg, w, Poll(now))) <==> InForce(cfg, now) && !OffersRefused(cfg, w, now)
    ensures !InForce(cfg, now) || OffersRefused(cfg, w, now) ==> Next(cfg, w, Poll(now)) == w
    ensures Good(cfg, Next(cfg, w, Poll(now))) && Next(cfg, w, Poll(now)).bytes == w.bytes
  {
    hide PlanPoll, Save, NextEnd;
    var plan := PlanPoll(cfg, w, now);
    if !InForce(cfg, now) {
      PlanByTarget(cfg, w, now);
    } else if !OffersRefused(cfg, w, now) {
      var stored := if plan.admit.Some? then w.(events := Admit(w.events, plan.admit.value)) else w;
      SaveLands(cfg, w, stored, now, plan);
    }
  }

  lemma WaitingEnds(cfg: Config, w: World)
    requires cfg.maxLines >= 1 && RecordWaiting(cfg, w)
    ensures Ends(cfg, w) != []
  {
  }

  lemma SaveTarget(cfg: Config, w: World, now: int, plan: Plan)
    requires cfg.maxLines >= 1 && Good(cfg, w) && RecordWaiting(cfg, w) && InForce(cfg, now) && plan == PlanPoll(cfg, w, now)
    ensures plan.save.Some?
    ensures var c, to := Current(w), plan.save.value;
            && GoodPosition(cfg, w.bytes, to.offset, to.index) && to.offset <= Last(Ends(cfg, w), c.offset)
            && (c.offset < to.offset || (c.offset == to.offset && c.index < to.index))
  {
    hide FactsBetween, FirstRecord, Chain, PlanPoll, PlanRecord, Published, RecordFacts, NextEnd, WindowEnds;
    TargetFacts(cfg, w);
    PlanByTarget(cfg, w, now);
    WaitingEnds(cfg, w);
    if Target(cfg, w).Some? {
      var r := Target(cfg, w).value;
      PlanRecordCases(cfg, w, r, now);
      ItemCut(cfg, w, Current(w).offset, r, Item(w, r));
      assert RecordStart(w.bytes, r.end);
    }
  }

  lemma SaveLands(cfg: Config, w: World, stored: World, now: int, plan: Plan)
    requires cfg.maxLines >= 1 && Good(cfg, w) && RecordWaiting(cfg, w) && InForce(cfg, now) && plan == PlanPoll(cfg, w, now)
    requires stored == w.(events := stored.events)
    ensures plan.save.Some? && Good(cfg, Save(cfg, stored, plan.save.value))
            && Advanced(w, Save(cfg, stored, plan.save.value)) && Save(cfg, stored, plan.save.value).bytes == w.bytes
  {
    hide LinesBetween, Save, NextEnd, WindowEnds, PlanPoll;
    SaveTarget(cfg, w, now, plan);
    assert Ends(cfg, stored) == Ends(cfg, w) && Current(stored) == Current(w) && Good(cfg, stored);
    SaveMoves(cfg, stored, plan.save.value);
  }

  // ---- Draining -------------------------------------------------------------

  /** Polls that remain on a quiet file: one per fact and one per record. */
  ghost function Work(cfg: Config, bytes: Bytes, pos: nat): nat
    requires pos <= |bytes|
    decreases |bytes| - pos
  {
    match NextEnd(bytes, pos)
    case None => 0
    case Some(end) => |RecordFacts(cfg, bytes, pos)| + 1 + Work(cfg, bytes, end)
  }

  ghost function Remaining(cfg: Config, w: World): int
    requires Matches(w)
  {
    Work(cfg, w.bytes, Current(w).offset) - Current(w).index
  }

  lemma {:induction false} WorkSplit(cfg: Config, bytes: Bytes, lo: nat, hi: nat)
    requires lo <= hi && RecordStart(bytes, hi)
    ensures Work(cfg, bytes, lo) == |FactsBetween(cfg, bytes, lo, hi)| + LinesBetween(bytes, lo, hi) + Work(cfg, bytes, hi)
    ensures lo < hi ==> LinesBetween(bytes, lo, hi) > 0 && |FactsBetween(cfg, bytes, lo, hi)| >= |RecordFacts(cfg, bytes, lo)|
    decreases |bytes| - lo
  {
    if lo < hi {
      NextEndWithin(bytes, lo, hi);
      WorkSplit(cfg, bytes, NextEnd(bytes, lo).value, hi);
    }
  }

  /** Lexicographic progress is progress on a natural number. */
  lemma AdvanceShrinksWork(cfg: Config, w: World, w': World)
    requires Good(cfg, w) && Good(cfg, w') && w'.bytes == w.bytes && Advanced(w, w')
    ensures 0 <= Remaining(cfg, w') < Remaining(cfg, w)
  {
    WorkSplit(cfg, w.bytes, Current(w).offset, Current(w').offset);
  }

  /** Every record from the cursor on fits one poll. */
  ghost predicate AllFit(cfg: Config, bytes: Bytes, pos: nat)
    requires pos <= |bytes|
    decreases |bytes| - pos
  {
    match NextEnd(bytes, pos)
    case None => true
    case Some(end) => end - pos <= cfg.maxBytes && AllFit(cfg, bytes, end)
  }

  lemma {:induction false} FitLater(cfg: Config, bytes: Bytes, lo: nat, hi: nat)
    requires lo <= hi && RecordStart(bytes, hi) && AllFit(cfg, bytes, lo)
    ensures AllFit(cfg, bytes, hi)
    decreases |bytes| - lo
  {
    if lo < hi {
      NextEndWithin(bytes, lo, hi);
      FitLater(cfg, bytes, NextEnd(bytes, lo).value, hi);
    }
  }

  /** No poll of the series offers an event that is turned down. */
  ghost predicate NeverRefused(cfg: Config, w: World, nows: seq<int>)
    decreases |nows|
  {
    nows == [] || (!OffersRefused(cfg, w, nows[0]) && NeverRefused(cfg, Next(cfg, w, Poll(nows[0])), nows[1..]))
  }

  ghost function PollAll(cfg: Config, w: World, nows: seq<int>): World
    decreases |nows|
  {
    if nows == [] then w else PollAll(cfg, Next(cfg, w, Poll(nows[0])), nows[1..])
  }

  /** The polls of a series at which the binding is in force. */
  function Effective(cfg: Config, nows: seq<int>): nat
    decreases |nows|
  {
    if nows == [] then 0 else (if InForce(cfg, nows[0]) then 1 else 0) + Effective(cfg, nows[1..])
  }

  /** A poll outside the validity, or with nothing complete to read, changes nothing. */
  lemma IdlePoll(cfg: Config, w: World, now: int)
    requires cfg.maxLines >= 1 && Good(cfg, w) && Matches(w)
    requires NextEnd(w.bytes, Current(w).offset).None? || !InForce(cfg, now)
    ensures Next(cfg, w, Poll(now)) == w
  {
    TargetFacts(cfg, w);
    PlanByTarget(cfg, w, now);
  }

  /** A quiet file whose records fit drains: within one poll per fact and per
      record, counting the polls at which the binding is in force, the reader stands
      behind the last complete record. */
  lemma {:induction false} Drains(cfg: Config, w: World, nows: seq<int>)
    requires cfg.maxLines >= 1 && Good(cfg, w) && Matches(w)
    requires AllFit(cfg, w.bytes, Current(w).offset) && NeverRefused(cfg, w, nows)
    requires Effective(cfg, nows) >= Remaining(cfg, w)
    ensures var done := PollAll(cfg, w, nows);
            Matches(done) && done.bytes == w.bytes && NextEnd(w.bytes, Current(done).offset).None?
    decreases |nows|
  {
    if NextEnd(w.bytes, Current(w).offset).None? {
      if nows != [] {
        IdlePoll(cfg, w, nows[0]);
        Drains(cfg, w, nows[1..]);
      }
    } else {
      WorkSplit(cfg, w.bytes, Current(w).offset, Current(w).offset);
      assert Remaining(cfg, w) > 0;
      var w' := Next(cfg, w, Poll(nows[0]));
      PollAdvancesUnlessRefused(cfg, w, nows[0]);
      if InForce(cfg, nows[0]) {
        AdvanceShrinksWork(cfg, w, w');
        FitLater(cfg, w.bytes, Current(w).offset, Current(w').offset);
      }
      Drains(cfg, w', nows[1..]);
    }
  }

  // ---- Stalls -----------------------------------------------------------------

  lemma {:induction false} TargetGrows(cfg: Config, bytes: Bytes, more: Bytes, start: nat, lines: nat, budget: nat)
    requires start <= |bytes|
    requires FirstRecord(View(cfg, bytes), start, WindowEnds(bytes, start, lines, budget)).Some?
    ensures FirstRecord(View(cfg, bytes + more), start, WindowEnds(bytes + more, start, lines, budget)) ==
            FirstRecord(View(cfg, bytes), start, WindowEnds(bytes, start, lines, budget))
    decreases lines
  {
    hide NextEnd, RecordFacts, View;
    var ends, ends' := WindowEnds(bytes, start, lines, budget), WindowEnds(bytes + more, start, lines, budget);
    NextEndStable(bytes, more, start);
    SameView(cfg, bytes, more, start);
    var end := NextEnd(bytes, start).value;
    var rest, rest' := WindowEnds(bytes, end, lines - 1, budget - (end - start)), WindowEnds(bytes + more, end, lines - 1, budget - (end - start));
    assert ends == [end] + rest && ends[1..] == rest;
    assert ends' == [end] + rest' && ends'[1..] == rest';
    if View(cfg, bytes)(start) == [] { TargetGrows(cfg, bytes, more, end, lines - 1, budget - (end - start)); }
  }

  lemma SameView(cfg: Config, bytes: Bytes, more: Bytes, pos: nat)
    requires pos <= |bytes| && NextEnd(bytes, pos).Some?
    ensures View(cfg, bytes + more)(pos) == View(cfg, bytes)(pos)
  {
    RecordFactsStable(cfg, bytes, more, pos);
  }

  /** The items a poll would publish for its target, given the store. */
  ghost function Shown(cfg: Config, w: World): seq<Fact>
    requires Matches(w) && Target(cfg, w).Some?
  {
    Published(cfg, Target(cfg, w).value.facts, w.events)
  }

  /** The fact a poll offers. */
  ghost function Offered(cfg: Config, w: World): Fact
    requires Matches(w) && Target(cfg, w).Some? && Item(w, Target(cfg, w).value) < |Shown(cfg, w)|
  {
    Shown(cfg, w)[Item(w, Target(cfg, w).value)]
  }

  /** A poll has an item at hand, and a metric record lists its facts as the
      decoder sorts them: none is earlier than the first one's snapshot. */
  ghost predicate HasOffer(cfg: Config, w: World) {
    && cfg.maxLines >= 1 && Good(cfg, w) && Matches(w) && Target(cfg, w).Some?
    && Item(w, Target(cfg, w).value) < |Shown(cfg, w)|
    && (cfg.kind == Metrics ==> EarliestFirst(Target(cfg, w).value.facts))
  }

  /** A poll died between admitting `fact` and saving its cursor. */
  ghost predicate LostAck(cfg: Config, w: World, fact: Fact, stored: Event) {
    && HasOffer(cfg, w) && Offered(cfg, w) == fact
    && Twin(w.events, fact.key) == Some(stored) && !OutsideBinding(cfg, stored)
    && exists at :: Normalized(cfg, fact, at, stored)
  }

  ghost predicate Normalized(cfg: Config, fact: Fact, at: int, stored: Event) {
    Normalize(cfg, fact, at).Some? && SameDelivery(Normalize(cfg, fact, at).value, stored)
  }

  lemma OffersFact(cfg: Config, w: World, now: int)
    requires HasOffer(cfg, w)
    ensures PlanPoll(cfg, w, now).admit == if InForce(cfg, now) then Normalize(cfg, Offered(cfg, w), now) else None
  {
    hide PlanPoll, Normalize, NextEnd, WindowEnds, FirstRecord, Chain, FactsBetween, Published;
    TargetFacts(cfg, w);
    PlanByTarget(cfg, w, now);
  }

  /** Storing an item of a metric record leaves the record's interval as it was,
      because prior sources are strictly earlier. */
  lemma SameInterval(facts: seq<Fact>, events: seq<Event>, e: Event)
    requires EarliestFirst(facts) && exists f :: f in facts && f.observed == e.observed
    ensures IntervalFacts(facts, events + [e]) == IntervalFacts(facts, events)
  {
    hide IntervalOf;
    if facts[0].reading.Cumulative? {
      var last := Sources(events + [e])[|events|];
      assert Sources(events + [e]) == Sources(events) + [last];
      LaterIsNoPrior(facts[0].reading.snapshot, Sources(events), last);
    }
  }

  lemma LaterIsNoPrior(s: Snapshot, sources: seq<Source>, last: Source)
    requires s.observed <= last.observed
    ensures IntervalOf(s, sources + [last]) == IntervalOf(s, sources)
  {
    assert (sources + [last])[..|sources|] == sources;
  }

  lemma ShownStable(cfg: Config, w: World, e: Event)
    requires HasOffer(cfg, w) && e.observed == Offered(cfg, w).observed
    ensures var w' := w.(events := Admit(w.events, e));
            Matches(w') && Target(cfg, w') == Target(cfg, w) && Shown(cfg, w') == Shown(cfg, w)
  {
    hide IntervalFacts, FirstRecord, WindowEnds, NextEnd, Good;
    if cfg.kind == Metrics {
      var facts := Target(cfg, w).value.facts;
      var f := facts[Item(w, Target(cfg, w).value)];
      assert f in facts && f.observed == e.observed;
      SameInterval(facts, w.events, e);
    }
  }

  /** A poll that dies after its admission leaves the item it offered at the
      cursor, with its delivery stored. */
  lemma CrashLosesAck(cfg: Config, w: World, t1: int)
    requires HasOffer(cfg, w)
    requires PlanPoll(cfg, w, t1).admit.Some? && !OffersRefused(cfg, w, t1)
    ensures var e, w1 := PlanPoll(cfg, w, t1).admit.value, Next(cfg, w, CrashedPoll(t1));
            && Twin(w1.events, e.key).Some? && SameDelivery(Twin(w1.events, e.key).value, e)
            && LostAck(cfg, w1, Offered(cfg, w), Twin(w1.events, e.key).value)
  {
    hide NextEnd, WindowEnds, FirstRecord, Published, PlanPoll;
    OffersFact(cfg, w, t1);
    var e, w1 := PlanPoll(cfg, w, t1).admit.value, Next(cfg, w, CrashedPoll(t1));
    assert w1 == w.(events := Admit(w.events, e));
    if Twin(w.events, e.key).None? { TwinOfNew(w.events, e); }
    ShownStable(cfg, w, e);
    assert Good(cfg, w1);
    assert Normalized(cfg, Offered(cfg, w), t1, Twin(w1.events, e.key).value);
  }

  lemma {:induction false} TwinOfNew(events: seq<Event>, e: Event)
    requires Twin(events, e.key).None?
    ensures Twin(events + [e], e.key) == Some(e)
    decreases |events|
  {
    if events != [] {
      assert events[0] in events;
      assert (events + [e])[1..] == events[1..] + [e];
      TwinOfNew(events[1..], e);
    }
  }

  /** The lost-acknowledgement retry of any stream: a poll of an in-force binding
      turns the stored item down exactly when the fact is not from the future and
      either no longer has the freshness class it was stored with or is read for
      other subjects, because both are part of the hashed event. */
  lemma RetryAcceptedIff(cfg: Config, w: World, fact: Fact, stored: Event, now: int)
    requires LostAck(cfg, w, fact, stored)
    ensures OffersRefused(cfg, w, now) <==>
              && InForce(cfg, now) && fact.observed <= now
              && (stored.current != (fact.observed + cfg.sla >= now) || stored.acl != cfg.aclAt(now))
  {
    hide PlanPoll, HasOffer;
    var at :| Normalized(cfg, fact, at, stored);
    OffersFact(cfg, w, now);
  }

  /** The retry has come too late for the freshness the fact was stored with, or
      comes from another actor. */
  predicate Belated(cfg: Config, fact: Fact, stored: Event, now: int) {
    now >= fact.observed && (stored.current != (fact.observed + cfg.sla >= now) || stored.acl != cfg.aclAt(now))
  }

  /** Once the freshness deadline of an unacknowledged current fact has passed, or
      only other actors poll, the reader never moves or stores anything again,
      whatever is appended. */
  lemma {:induction false} ExpiredRetryStallsForever(cfg: Config, w: World, fact: Fact, stored: Event, steps: seq<Step>)
    requires LostAck(cfg, w, fact, stored)
    requires forall s | s in steps && !s.Append? :: Belated(cfg, fact, stored, s.now)
    ensures Run(cfg, w, steps) == w.(bytes := Run(cfg, w, steps).bytes)
    ensures LostAck(cfg, Run(cfg, w, steps), fact, stored)
    decreases |steps|
  {
    hide LostAck;
    if steps != [] {
      var n := |steps| - 1;
      var before := Run(cfg, w, steps[..n]);
      ExpiredRetryStallsForever(cfg, w, fact, stored, steps[..n]);
      match steps[n] {
        case Append(more) => LostAckGrows(cfg, before, fact, stored, more);
        case Poll(_) => ExpiredPoll(cfg, before, fact, stored, steps[n]);
        case CrashedPoll(_) => ExpiredPoll(cfg, before, fact, stored, steps[n]);
      }
    }
  }

  lemma ExpiredPoll(cfg: Config, w: World, fact: Fact, stored: Event, step: Step)
    requires LostAck(cfg, w, fact, stored) && !step.Append? && Belated(cfg, fact, stored, step.now)
    ensures Next(cfg, w, step) == w
  {
    hide PlanPoll, HasOffer, Normalize, FirstRecord, NextEnd, WindowEnds;
    RetryAcceptedIff(cfg, w, fact, stored, step.now);
    if !InForce(cfg, step.now) { OutOfForce(cfg, w, step); }
  }

  /** Outside the binding's validity no poll does anything. */
  lemma OutOfForce(cfg: Config, w: World, step: Step)
    requires !step.Append? && !InForce(cfg, step.now)
    ensures Next(cfg, w, step) == w
  {
  }

  lemma LostAckGrows(cfg: Config, w: World, fact: Fact, stored: Event, more: Bytes)
    requires LostAck(cfg, w, fact, stored)
    ensures LostAck(cfg, w.(bytes := w.bytes + more), fact, stored)
  {
    OfferGrows(cfg, w, more);
  }

  lemma OfferGrows(cfg: Config, w: World, more: Bytes)
    requires HasOffer(cfg, w)
    ensures var w' := w.(bytes := w.bytes + more); HasOffer(cfg, w') && Offered(cfg, w') == Offered(cfg, w)
  {
    hide Published, NextEnd, WindowEnds, FirstRecord;
    var w' := w.(bytes := w.bytes + more);
    TargetGrows(cfg, w.bytes, more, Current(w).offset, cfg.maxLines, cfg.maxBytes);
    NothingPassedYet(cfg, w);
    PassedStable(cfg, w, w, more);
    assert Target(cfg, w') == Target(cfg, w);
  }

  /** The item at the cursor is a sound fact whose instant lies outside the
      binding's validity. */
  ghost predicate Poisoned(cfg: Config, w: World, fact: Fact) {
    HasOffer(cfg, w) && Offered(cfg, w) == fact && Normalize(cfg, fact, fact.observed).Some? && !InForce(cfg, fact.observed)
  }

  /** Such a fact is not skipped like a rejected one: its admission is refused and
      the reader stays in front of it for good, whatever is appended. */
  lemma {:induction false} OutsideBindingStallsForever(cfg: Config, w: World, fact: Fact, steps: seq<Step>)
    requires Poisoned(cfg, w, fact)
    requires forall s | s in steps && !s.Append? :: s.now >= fact.observed
    ensures Run(cfg, w, steps) == w.(bytes := Run(cfg, w, steps).bytes)
    ensures Poisoned(cfg, Run(cfg, w, steps), fact)
    decreases |steps|
  {
    hide Poisoned;
    if steps != [] {
      var n := |steps| - 1;
      var before := Run(cfg, w, steps[..n]);
      OutsideBindingStallsForever(cfg, w, fact, steps[..n]);
      match steps[n] {
        case Append(more) => PoisonGrows(cfg, before, fact, more);
        case Poll(_) => PoisonedPoll(cfg, before, fact, steps[n]);
        case CrashedPoll(_) => PoisonedPoll(cfg, before, fact, steps[n]);
      }
    }
  }

  lemma PoisonedPoll(cfg: Config, w: World, fact: Fact, step: Step)
    requires Poisoned(cfg, w, fact) && !step.Append? && step.now >= fact.observed
    ensures Next(cfg, w, step) == w
  {
    hide PlanPoll, FirstRecord, NextEnd, WindowEnds, HasOffer;
    if InForce(cfg, step.now) { OffersFact(cfg, w, step.now); } else { OutOfForce(cfg, w, step); }
  }

  lemma PoisonGrows(cfg: Config, w: World, fact: Fact, more: Bytes)
    requires Poisoned(cfg, w, fact)
    ensures Poisoned(cfg, w.(bytes := w.bytes + more), fact)
  {
    OfferGrows(cfg, w, more);
  }

  lemma OverlongPoll(cfg: Config, w: World, step: Step)
    requires cfg.maxLines >= 1 && Matches(w) && !step.Append?
    requires var end := NextEnd(w.bytes, Current(w).offset); end.Some? && end.value - Current(w).offset > cfg.maxBytes
    ensures Next(cfg, w, step) == w
  {
    assert Ends(cfg, w) == [];
    hide WindowEnds, FirstRecord, LastRecord, PlanRecord, NextEnd, Save, EntryOffset;
  }

  /** A record longer than the byte limit stops the reader for good. */
  lemma {:induction false} OverlongRecordStallsForever(cfg: Config, w: World, steps: seq<Step>)
    requires cfg.maxLines >= 1 && Good(cfg, w) && Matches(w)
    requires var end := NextEnd(w.bytes, Current(w).offset); end.Some? && end.value - Current(w).offset > cfg.maxBytes
    ensures var w' := Run(cfg, w, steps);
            w' == w.(bytes := w'.bytes) && w.bytes <= w'.bytes && NextEnd(w'.bytes, Current(w).offset) == NextEnd(w.bytes, Current(w).offset)
    decreases |steps|
  {
    if steps != [] {
      var n := |steps| - 1;
      var before := Run(cfg, w, steps[..n]);
      OverlongRecordStallsForever(cfg, w, steps[..n]);
      match steps[n] {
        case Append(more) => NextEndStable(before.bytes, more, Current(w).offset);
        case Poll(_) => OverlongPoll(cfg, before, steps[n]);
        case CrashedPoll(_) => OverlongPoll(cfg, before, steps[n]);
      }
    }
  }

  // ---- First entry --------------------------------------------------------------

  /** No cursor exists for this file yet: first start, or rotation. */
  predicate FreshFile(w: World) {
    w.cursors == [] || w.cursors[|w.cursors| - 1].fileId != w.fileId
  }

  /** Where an entry poll may leave the cursor. */
  ghost predicate EntersAt(cfg: Config, w: World, to: Position) {
    var prior := EntryOffset(w.bytes, cfg.maxBytes);
    var ends := WindowEnds(w.bytes, prior, cfg.maxLines, cfg.maxBytes);
    && RecordStart(w.bytes, prior) && prior <= to.offset <= Last(ends, prior)
    && GoodPosition(cfg, w.bytes, to.offset, to.index)
    && (to.index == 0 ==> FactsBetween(cfg, w.bytes, to.offset, Last(ends, prior)) == [])
  }

  ghost function EntryEnds(cfg: Config, w: World): seq<nat> {
    WindowEnds(w.bytes, EntryOffset(w.bytes, cfg.maxBytes), cfg.maxLines, cfg.maxBytes)
  }

  ghost function EntryRecord(cfg: Config, w: World): Option<Record> {
    LastRecord(View(cfg, w.bytes), EntryOffset(w.bytes, cfg.maxBytes), EntryEnds(cfg, w))
  }

  lemma EntryShape(cfg: Config, w: World, now: int, plan: Plan)
    requires FreshFile(w) && plan == PlanPoll(cfg, w, now) && plan.save.Some?
    ensures EntryOffset(w.bytes, cfg.maxBytes) < |w.bytes| && EntryEnds(cfg, w) != []
    ensures match EntryRecord(cfg, w)
            case None => plan.save.value == Position(Last(EntryEnds(cfg, w), EntryOffset(w.bytes, cfg.maxBytes)), 0)
            case Some(r) =>
              || plan.save.value == Position(r.end, 0)
              || (plan.save.value == Position(r.start, 1) && 1 < |r.facts|)
  {
    hide NextEnd, WindowEnds, LastRecord, EntryOffset;
  }

  lemma EntryTarget(cfg: Config, w: World, now: int, plan: Plan)
    requires cfg.maxLines >= 1 && FreshFile(w) && plan == PlanPoll(cfg, w, now) && plan.save.Some?
    ensures EntersAt(cfg, w, plan.save.value)
    ensures plan.save.value.offset == EntryOffset(w.bytes, cfg.maxBytes) ==> plan.save.value.index > 0
  {
    hide NextEnd, WindowEnds, LastRecord, PlanPoll, EntryOffset, RecordFacts, FactsBetween, Chain;
    var prior, ends, to := EntryOffset(w.bytes, cfg.maxBytes), EntryEnds(cfg, w), plan.save.value;
    EntryShape(cfg, w, now, plan);
    WindowFacts(cfg, w.bytes, prior);
    LastLeavesNothing(cfg, w.bytes, prior, ends);
    EmptyStretch(cfg, w.bytes, to.offset);
    if EntryRecord(cfg, w).Some? {
      assert RecordStart(w.bytes, EntryRecord(cfg, w).value.end);
    }
  }

  lemma EmptyStretch(cfg: Config, bytes: Bytes, pos: nat)
    requires pos <= |bytes|
    ensures FactsBetween(cfg, bytes, pos, pos) == []
  {
  }

  lemma EntersAnyStore(cfg: Config, w: World, w': World, to: Position)
    requires EntersAt(cfg, w, to) && w'.bytes == w.bytes
    ensures EntersAt(cfg, w', to)
  {
  }

  lemma EntrySaves(cfg: Config, w: World, to: Position)
    requires Good(cfg, w) && FreshFile(w) && EntersAt(cfg, w, to)
    requires to.offset == EntryOffset(w.bytes, cfg.maxBytes) ==> to.index > 0
    ensures var w' := Save(cfg, w, to);
            && w' == w.(cursors := w'.cursors) && Matches(w') && Good(cfg, w')
            && Current(w') == Cursor(|w.cursors| + 1, to.offset, to.index,
                                     LinesBetween(w.bytes, EntryOffset(w.bytes, cfg.maxBytes), to.offset), w.fileId)
  {
    hide NextEnd, WindowEnds, LinesBetween, FactsBetween, EntryOffset, RecordFacts, CountWithin;
    var prior := EntryOffset(w.bytes, cfg.maxBytes);
    WindowFacts(cfg, w.bytes, prior);
    CountIsLines(w.bytes, prior, prior, WindowEnds(w.bytes, prior, cfg.maxLines, cfg.maxBytes), to.offset);
  }

  /** With no cursor for the file, a poll enters through the tail window: if it
      saves a cursor, that cursor is good, lies in the window, counts its own
      lines from the entry, and no fact of the window is left behind it unread
      except in the record it points into. Before that no cursor is written. */
  lemma EntryPoll(cfg: Config, w: World, step: Step)
    requires cfg.maxLines >= 1 && Good(cfg, w) && FreshFile(w)
    ensures var w' := Next(cfg, w, step);
            Good(cfg, w') && (FreshFile(w') || Matches(w'))
    ensures Matches(Next(cfg, w, step)) ==>
              var c := Current(Next(cfg, w, step));
              step.Poll? && EntersAt(cfg, w, Position(c.offset, c.index))
              && c.line == LinesBetween(w.bytes, EntryOffset(w.bytes, cfg.maxBytes), c.offset)
  {
    hide PlanPoll, EntersAt, Save, NextEnd, LinesBetween, GoodPosition, EntryOffset;
    if step.Poll? && PlanPoll(cfg, w, step.now).save.Some? {
      var plan := PlanPoll(cfg, w, step.now);
      EntryTarget(cfg, w, step.now, plan);
      var stored := if plan.admit.Some? then w.(events := Admit(w.events, plan.admit.value)) else w;
      EntersAnyStore(cfg, w, stored, plan.save.value);
      assert Good(cfg, stored) && FreshFile(stored);
      EntrySaves(cfg, stored, plan.save.value);
    } else {
      assert Next(cfg, w, step).cursors == w.cursors && Next(cfg, w, step).fileId == w.fileId;
    }
  }
}
