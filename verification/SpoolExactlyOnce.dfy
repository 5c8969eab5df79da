/** Over every run of polls, crashes and file growth, the reader refines one
    clean pass over the facts of the file. */
module SpoolExactlyOnce {
  import opened Options
  import opened SpoolLog
  import opened SpoolReader
  import opened SpoolFacts

  /** What every reachable reader state satisfies: revisions are dense, the
      offset is a record start, and a partial index points inside a whole
      record that fits one poll. */
  ghost predicate Good(cfg: Config, w: World) {
    && (forall i | 0 <= i < |w.cursors| :: w.cursors[i].revision == i + 1)
    && (Matches(w) ==> GoodPosition(cfg, w.bytes, Current(w).offset, Current(w).index))
  }

  ghost predicate GoodPosition(cfg: Config, bytes: Bytes, offset: nat, index: nat) {
    && RecordStart(bytes, offset)
    && (index > 0 ==>
          && NextEnd(bytes, offset).Some? && NextEnd(bytes, offset).value - offset <= cfg.maxBytes
          && index < |RecordFacts(cfg, bytes, offset)|)
  }

  /** Positions in reading order. */
  predicate Before(a: Cursor, b: Cursor) {
    a.offset < b.offset || (a.offset == b.offset && a.index < b.index)
  }

  lemma WindowFacts(cfg: Config, bytes: Bytes, prior: nat)
    requires prior <= |bytes|
    ensures var ends := WindowEnds(bytes, prior, cfg.maxLines, cfg.maxBytes);
            Chain(bytes, prior, ends) && prior <= Last(ends, prior) && Last(ends, prior) - prior <= cfg.maxBytes
            && (RecordStart(bytes, prior) ==> RecordStart(bytes, Last(ends, prior)))
  {
    WindowIsLongest(bytes, prior, cfg.maxLines, cfg.maxBytes);
    ChainGrows(bytes, prior, WindowEnds(bytes, prior, cfg.maxLines, cfg.maxBytes));
  }

  ghost function Ends(cfg: Config, w: World): seq<nat>
    requires Matches(w)
  {
    WindowEnds(w.bytes, Current(w).offset, cfg.maxLines, cfg.maxBytes)
  }

  /** The record a poll works on: the first one in its window with any fact. */
  ghost function Target(cfg: Config, w: World): Option<Record>
    requires Matches(w)
  {
    FirstRecord(View(cfg, w.bytes), Current(w).offset, Ends(cfg, w))
  }

  /** The item of the target a poll works on. */
  function Item(w: World, r: Record): nat
    requires Matches(w)
  {
    if r.start == Current(w).offset then Current(w).index else 0
  }

  lemma TargetFacts(cfg: Config, w: World)
    requires cfg.maxLines >= 1 && Good(cfg, w) && Matches(w)
    ensures var c, ends := Current(w), Ends(cfg, w);
            && Chain(w.bytes, c.offset, ends) && RecordStart(w.bytes, Last(ends, c.offset))
            && c.offset <= Last(ends, c.offset) <= c.offset + cfg.maxBytes
            && (ends == [] <==> Last(ends, c.offset) == c.offset)
            && (c.index > 0 ==> ends != [] && Target(cfg, w).Some? && Target(cfg, w).value.start == c.offset)
            && match Target(cfg, w)
               case None => FactsBetween(cfg, w.bytes, c.offset, Last(ends, c.offset)) == []
               case Some(r) =>
                 && IsRecord(cfg, w.bytes, r) && c.offset <= r.start && r.end <= Last(ends, c.offset)
                 && FactsBetween(cfg, w.bytes, c.offset, r.start) == []
                 && Item(w, r) < |r.facts|
  {
    var c := Current(w);
    WindowFacts(cfg, w.bytes, c.offset);
    FirstSkipsNothing(cfg, w.bytes, c.offset, Ends(cfg, w));
    if c.index > 0 {
      assert View(cfg, w.bytes)(c.offset) == RecordFacts(cfg, w.bytes, c.offset) != [];
    }
  }

  /** From a matching cursor a poll does nothing outside the binding's validity,
      and inside it reads nothing, passes records that hold no fact, or works on one
      item of its target. */
  lemma PlanByTarget(cfg: Config, w: World, now: int)
    requires cfg.maxLines >= 1 && Good(cfg, w) && Matches(w)
    ensures var plan, ends := PlanPoll(cfg, w, now), Ends(cfg, w);
            if !InForce(cfg, now) then plan == Plan(Unbound, None, None)
            else if ends == [] then plan == Plan(NoNewEvidence, None, None) || plan == Plan(NoCompleteRecord, None, None)
            else if Target(cfg, w).None? then
              plan == Plan(NoMatch, None, Some(Position(Last(ends, Current(w).offset), 0)))
            else plan == PlanRecord(cfg, w, Target(cfg, w).value, now)
  {
    TargetFacts(cfg, w);
  }

  /** `otel_spool_partial_record_changed` and `record_drained` never happen once
      the cursor matches the file. */
  lemma NoPartialRecordSurprise(cfg: Config, w: World, now: int)
    requires cfg.maxLines >= 1 && Good(cfg, w) && Matches(w)
    ensures PlanPoll(cfg, w, now).reason != PartialRecordChanged
    ensures PlanPoll(cfg, w, now).reason != RecordDrained
  {
    hide NextEnd, WindowEnds, FirstRecord, FactsBetween, RecordFacts, Published, Normalize;
    TargetFacts(cfg, w);
    PlanByTarget(cfg, w, now);
  }

  // ---- Verdicts and the clean pass ----------------------------------------

  /** Why a fact the cursor passed is, or is not, in the store: kept, or skipped
      by a poll at `now` that saw the first `seen` stored events. */
  datatype Verdict = Kept | Skipped(offset: nat, index: nat, seen: nat, now: int)

  /** The two skips the source allows: a metric record whose interval is empty,
      and a fact the normalizer rejects. */
  predicate SkipReason(cfg: Config, facts: seq<Fact>, index: nat, events: seq<Event>, now: int) {
    var shown := Published(cfg, facts, events);
    shown == [] || (index < |shown| && Normalize(cfg, shown[index], now).None?)
  }

  ghost predicate Justified(cfg: Config, w: World, steps: seq<Step>, fact: Fact, v: Verdict) {
    v.Skipped? ==>
      && Poll(v.now) in steps
      && v.offset <= |w.bytes| && NextEnd(w.bytes, v.offset).Some? && v.seen <= |w.events|
      && var facts := RecordFacts(cfg, w.bytes, v.offset);
         && v.index < |facts| && facts[v.index] == fact
         && SkipReason(cfg, facts, v.index, w.events[..v.seen], v.now)
  }

  function Keys(events: seq<Event>): (keys: seq<int>)
    ensures |keys| == |events|
  {
    seq(|events|, i requires 0 <= i < |events| => events[i].key)
  }

  /** One uninterrupted pass: insert each kept fact's key once, in file order. */
  function OnePass(keys: seq<int>, facts: seq<Fact>, verdicts: seq<Verdict>): seq<int>
    requires |verdicts| == |facts|
  {
    if facts == [] then keys
    else
      var n := |facts| - 1;
      var before := OnePass(keys, facts[..n], verdicts[..n]);
      if verdicts[n].Kept? && facts[n].key !in before then before + [facts[n].key] else before
  }

  lemma {:induction false} OnePassAppend(keys: seq<int>, facts: seq<Fact>, vs: seq<Verdict>, fact: Fact, v: Verdict)
    requires |vs| == |facts|
    ensures var before := OnePass(keys, facts, vs);
            OnePass(keys, facts + [fact], vs + [v]) ==
            if v.Kept? && fact.key !in before then before + [fact.key] else before
  {
    assert (facts + [fact])[..|facts|] == facts && (vs + [v])[..|facts|] == vs;
  }

  lemma {:induction false} OnePassSkips(keys: seq<int>, facts: seq<Fact>, vs: seq<Verdict>, more: seq<Fact>, skips: seq<Verdict>)
    requires |vs| == |facts| && |skips| == |more| && forall k | 0 <= k < |skips| :: skips[k].Skipped?
    ensures OnePass(keys, facts + more, vs + skips) == OnePass(keys, facts, vs)
    decreases |more|
  {
    if more == [] {
      assert facts + more == facts && vs + skips == vs;
    } else {
      var n := |more| - 1;
      OnePassSkips(keys, facts, vs, more[..n], skips[..n]);
      assert facts + more == (facts + more[..n]) + [more[n]] && vs + skips == (vs + skips[..n]) + [skips[n]];
      OnePassAppend(keys, facts + more[..n], vs + skips[..n], more[n], skips[n]);
    }
  }

  lemma TwinByKey(events: seq<Event>, key: int)
    ensures Twin(events, key).Some? <==> key in Keys(events)
  {
    if Twin(events, key).Some? {
      var i :| 0 <= i < |events| && events[i] == Twin(events, key).value;
      assert Keys(events)[i] == key;
    }
    if key in Keys(events) {
      var i :| 0 <= i < |events| && Keys(events)[i] == key;
      assert events[i] in events;
    }
  }

  lemma AdmitKeys(events: seq<Event>, e: Event)
    ensures Keys(Admit(events, e)) == if e.key in Keys(events) then Keys(events) else Keys(events) + [e.key]
  {
    TwinByKey(events, e.key);
  }

  // ---- The refinement relation ----------------------------------------------

  /** The facts passed since `w0`'s cursor. */
  ghost function Passed(cfg: Config, w0: World, w: World): seq<Fact>
    requires Matches(w0) && Matches(w) && Current(w0).offset <= |w.bytes|
  {
    var all := Upto(cfg, w.bytes, Current(w0).offset, Current(w).offset, Current(w).index);
    if Current(w0).index <= |all| then all[Current(w0).index..] else []
  }

  ghost predicate SameFileLater(w0: World, w: World) {
    && Matches(w0) && Matches(w)
    && w.fileId == w0.fileId && w0.bytes <= w.bytes && w0.events <= w.events
    && Current(w0).offset <= Current(w).offset
    && (Current(w0) == Current(w) || Before(Current(w0), Current(w)))
  }

  /** The store is the clean pass over the passed facts, plus at most the one
      fact the cursor points at; and the line count is exact. */
  ghost predicate Refines(cfg: Config, w0: World, w: World, steps: seq<Step>, vs: seq<Verdict>) {
    && SameFileLater(w0, w)
    && Current(w0).index <= |Upto(cfg, w.bytes, Current(w0).offset, Current(w).offset, Current(w).index)|
    && var facts := Passed(cfg, w0, w);
       && |vs| == |facts|
       && (forall k | 0 <= k < |vs| :: Justified(cfg, w, steps, facts[k], vs[k]))
       && (Keys(w.events) == OnePass(Keys(w0.events), facts, vs) || InFlight(cfg, w0, w, vs))
       && Current(w).line == Current(w0).line + LinesBetween(w.bytes, Current(w0).offset, Current(w).offset)
  }

  ghost predicate InFlight(cfg: Config, w0: World, w: World, vs: seq<Verdict>)
    requires SameFileLater(w0, w)
  {
    var facts := Passed(cfg, w0, w);
    var next := NextFact(cfg, w.bytes, Current(w).offset, Current(w).index);
    |vs| == |facts| && next.Some?
    && Keys(w.events) == OnePass(Keys(w0.events), facts + [next.value], vs + [Kept])
  }

  // ---- One step keeps the refinement ----------------------------------------

  lemma SaveMoves(cfg: Config, w: World, to: Position)
    requires Good(cfg, w) && Matches(w) && GoodPosition(cfg, w.bytes, to.offset, to.index)
    requires var c := Current(w);
             c.offset < to.offset || (c.offset == to.offset && c.index < to.index)
    requires to.offset <= Last(Ends(cfg, w), Current(w).offset)
    ensures var c, w' := Current(w), Save(cfg, w, to);
            && w' == w.(cursors := w'.cursors) && Matches(w') && Good(cfg, w')
            && Current(w') == Cursor(|w.cursors| + 1, to.offset, to.index,
                                     c.line + LinesBetween(w.bytes, c.offset, to.offset), w.fileId)
  {
    hide WindowEnds, NextEnd, Chain, RecordFacts, LinesBetween, CountWithin;
    var c := Current(w);
    WindowFacts(cfg, w.bytes, c.offset);
    CountIsLines(w.bytes, c.offset, c.offset, Ends(cfg, w), to.offset);
  }

  /** The target cuts the fact stream at the item a poll works on. */
  lemma TargetCut(cfg: Config, w: World, lo: nat, k: nat)
    requires cfg.maxLines >= 1 && Good(cfg, w) && Matches(w) && Target(cfg, w).Some?
    requires lo <= Current(w).offset && k <= |Target(cfg, w).value.facts|
    ensures var c, r := Current(w), Target(cfg, w).value;
            var base := FactsBetween(cfg, w.bytes, lo, r.start);
            && IsRecord(cfg, w.bytes, r) && Item(w, r) < |r.facts|
            && Upto(cfg, w.bytes, lo, c.offset, c.index) == base + r.facts[..Item(w, r)]
            && Upto(cfg, w.bytes, lo, r.start, k) == base + r.facts[..k]
            && Upto(cfg, w.bytes, lo, r.end, 0) == base + r.facts
            && NextFact(cfg, w.bytes, c.offset, c.index) == Some(r.facts[Item(w, r)])
  {
    TargetFacts(cfg, w);
    var c, r := Current(w), Target(cfg, w).value;
    BetweenSplit(cfg, w.bytes, lo, c.offset, r.start);
    BetweenSplit(cfg, w.bytes, lo, r.start, r.end);
    BetweenOne(cfg, w.bytes, r.start, r.end);
    if r.start != c.offset {
      assert c.index == 0;
      NextFactPastEmpty(cfg, w.bytes, c.offset, r.start);
    }
  }

  lemma JustifiedLater(cfg: Config, w: World, steps: seq<Step>, w': World, step: Step, fact: Fact, v: Verdict)
    requires Justified(cfg, w, steps, fact, v)
    requires w.bytes <= w'.bytes && w.events <= w'.events
    ensures Justified(cfg, w', steps + [step], fact, v)
  {
    if v.Skipped? {
      var more := w'.bytes[|w.bytes|..];
      assert w'.bytes == w.bytes + more;
      NextEndStable(w.bytes, more, v.offset);
      RecordFactsStable(cfg, w.bytes, more, v.offset);
      assert w'.events[..v.seen] == w.events[..v.seen];
    }
  }

  lemma PassedStable(cfg: Config, w0: World, w: World, more: Bytes)
    requires Good(cfg, w) && SameFileLater(w0, w)
    ensures var c0, c, w' := Current(w0), Current(w), w.(bytes := w.bytes + more);
            && Good(cfg, w') && Matches(w') && Current(w') == c
            && Upto(cfg, w'.bytes, c0.offset, c.offset, c.index) == Upto(cfg, w.bytes, c0.offset, c.offset, c.index)
            && Passed(cfg, w0, w') == Passed(cfg, w0, w)
            && LinesBetween(w'.bytes, c0.offset, c.offset) == LinesBetween(w.bytes, c0.offset, c.offset)
  {
    hide FactsBetween, LinesBetween, NextEnd, RecordFacts;
    var c0, c := Current(w0), Current(w);
    if c.index > 0 {
      RecordFactsStable(cfg, w.bytes, more, c.offset);
      NextEndStable(w.bytes, more, c.offset);
    }
    BetweenStable(cfg, w.bytes, more, c0.offset, c.offset);
    assert Take(RecordFacts(cfg, w.bytes + more, c.offset), c.index) == Take(RecordFacts(cfg, w.bytes, c.offset), c.index);
  }

  lemma AppendRefines(cfg: Config, w0: World, w: World, steps: seq<Step>, vs: seq<Verdict>, more: Bytes)
    requires Good(cfg, w) && Refines(cfg, w0, w, steps, vs)
    ensures Good(cfg, Next(cfg, w, Append(more)))
    ensures Refines(cfg, w0, Next(cfg, w, Append(more)), steps + [Append(more)], vs)
  {
    hide FactsBetween, LinesBetween, NextEnd, NextFact, RecordFacts, OnePass, Justified, Keys, Upto;
    var c, w' := Current(w), Next(cfg, w, Append(more));
    PassedStable(cfg, w0, w, more);
    if NextFact(cfg, w.bytes, c.offset, c.index).Some? {
      NextFactStable(cfg, w.bytes, more, c.offset, c.index);
    }
    forall k | 0 <= k < |vs| ensures Justified(cfg, w', steps + [Append(more)], Passed(cfg, w0, w')[k], vs[k]) {
      JustifiedLater(cfg, w, steps, w', Append(more), Passed(cfg, w0, w)[k], vs[k]);
    }
  }

  /** Storing the fact in flight keeps the clean-pass reading of the store. */
  lemma AdmitInFlight(cfg: Config, w0: World, w: World, vs: seq<Verdict>, e: Event)
    requires SameFileLater(w0, w) && |vs| == |Passed(cfg, w0, w)|
    requires Keys(w.events) == OnePass(Keys(w0.events), Passed(cfg, w0, w), vs) || InFlight(cfg, w0, w, vs)
    requires var next := NextFact(cfg, w.bytes, Current(w).offset, Current(w).index);
             next.Some? && next.value.key == e.key
    ensures InFlight(cfg, w0, w.(events := Admit(w.events, e)), vs)
  {
    hide FactsBetween, NextEnd, NextFact, Upto, RecordFacts, OnePass, Admit, Keys;
    var facts := Passed(cfg, w0, w);
    var next := NextFact(cfg, w.bytes, Current(w).offset, Current(w).index).value;
    AdmitKeys(w.events, e);
    OnePassAppend(Keys(w0.events), facts, vs, next, Kept);
    var w' := w.(events := Admit(w.events, e));
    assert Passed(cfg, w0, w') == facts;
    if InFlight(cfg, w0, w, vs) {
      var before := OnePass(Keys(w0.events), facts, vs);
      assert next.key in Keys(w.events) by {
        assert next.key in before || Keys(w.events)[|before|] == next.key;
      }
    }
  }

  /** Moving the cursor past `gained` facts, the first of which may be in flight. */
  lemma CursorRefines(cfg: Config, w0: World, w: World, steps: seq<Step>, vs: seq<Verdict>, to: Position,
                      step: Step, gained: seq<Fact>, verdicts: seq<Verdict>) returns (vs': seq<Verdict>)
    requires Good(cfg, w) && Refines(cfg, w0, w, steps, vs)
    requires GoodPosition(cfg, w.bytes, to.offset, to.index)
    requires var c := Current(w); c.offset < to.offset || (c.offset == to.offset && c.index < to.index)
    requires to.offset <= Last(Ends(cfg, w), Current(w).offset)
    requires Upto(cfg, w.bytes, Current(w0).offset, to.offset, to.index) ==
             Upto(cfg, w.bytes, Current(w0).offset, Current(w).offset, Current(w).index) + gained
    requires |verdicts| == |gained|
    requires forall k | 0 <= k < |gained| :: Justified(cfg, w, steps + [step], gained[k], verdicts[k])
    requires forall k | 0 < k < |gained| :: verdicts[k].Skipped?
    requires gained != [] ==> NextFact(cfg, w.bytes, Current(w).offset, Current(w).index) == Some(gained[0])
    requires gained != [] && verdicts[0].Kept? ==> InFlight(cfg, w0, w, vs)
    requires gained == [] ==> NextFact(cfg, w.bytes, to.offset, to.index) == NextFact(cfg, w.bytes, Current(w).offset, Current(w).index)
    ensures Good(cfg, Save(cfg, w, to)) && Refines(cfg, w0, Save(cfg, w, to), steps + [step], vs')
  {
    hide WindowEnds, FactsBetween, LinesBetween, NextEnd, NextFact, Chain, OnePass, Upto, RecordFacts, Justified, Passed, Keys, Save;
    var w', keys := Save(cfg, w, to), Keys(w0.events);
    var marks := PassAdvances(keys, Passed(cfg, w0, w), vs, gained, verdicts, InFlight(cfg, w0, w, vs));
    vs' := vs + marks;
    CursorLands(cfg, w0, w, to, gained);
    SaveMoves(cfg, w, to);
    MarksJustified(cfg, w, w', steps, step, Passed(cfg, w0, w), vs, gained, marks);
    if gained == [] {
      assert Passed(cfg, w0, w') == Passed(cfg, w0, w) && vs' == vs;
    }
  }

  /** Old verdicts stay justified after a step, and so do the marks of what it passed. */
  lemma MarksJustified(cfg: Config, w: World, w': World, steps: seq<Step>, step: Step,
                       facts: seq<Fact>, vs: seq<Verdict>, gained: seq<Fact>, marks: seq<Verdict>)
    requires |vs| == |facts| && |marks| == |gained| && w'.bytes == w.bytes && w'.events == w.events
    requires forall k | 0 <= k < |vs| :: Justified(cfg, w, steps, facts[k], vs[k])
    requires forall k | 0 <= k < |marks| :: marks[k] == Kept || Justified(cfg, w, steps + [step], gained[k], marks[k])
    ensures forall k | 0 <= k < |vs + marks| :: Justified(cfg, w', steps + [step], (facts + gained)[k], (vs + marks)[k])
  {
    hide Justified;
    forall k | 0 <= k < |vs + marks| ensures Justified(cfg, w', steps + [step], (facts + gained)[k], (vs + marks)[k]) {
      if k < |vs| {
        JustifiedLater(cfg, w, steps, w', step, facts[k], vs[k]);
      } else {
        JustifiedEvents(cfg, w, w', steps + [step], gained[k - |vs|], marks[k - |vs|]);
      }
    }
  }

  lemma CursorLands(cfg: Config, w0: World, w: World, to: Position, gained: seq<Fact>)
    requires Good(cfg, w) && SameFileLater(w0, w) && RecordStart(w.bytes, Current(w).offset)
    requires Current(w0).index <= |Upto(cfg, w.bytes, Current(w0).offset, Current(w).offset, Current(w).index)|
    requires Current(w).line == Current(w0).line + LinesBetween(w.bytes, Current(w0).offset, Current(w).offset)
    requires GoodPosition(cfg, w.bytes, to.offset, to.index)
    requires var c := Current(w); c.offset < to.offset || (c.offset == to.offset && c.index < to.index)
    requires to.offset <= Last(Ends(cfg, w), Current(w).offset)
    requires Upto(cfg, w.bytes, Current(w0).offset, to.offset, to.index) ==
             Upto(cfg, w.bytes, Current(w0).offset, Current(w).offset, Current(w).index) + gained
    ensures var w' := Save(cfg, w, to);
            && SameFileLater(w0, w')
            && Passed(cfg, w0, w') == Passed(cfg, w0, w) + gained
            && Current(w').line == Current(w0).line + LinesBetween(w.bytes, Current(w0).offset, to.offset)
  {
    hide WindowEnds, FactsBetween, LinesBetween, NextEnd, Chain, Upto, RecordFacts, Save;
    SaveMoves(cfg, w, to);
    BetweenSplit(cfg, w.bytes, Current(w0).offset, Current(w).offset, to.offset);
    var w' := Save(cfg, w, to);
    assert w'.bytes == w.bytes && w'.events == w.events && Matches(w') && w'.fileId == w.fileId;
    assert Before(Current(w), Current(w'));
  }

  /** Appending a group of facts to the clean pass: only its first may be kept. */
  lemma PassAdvances(keys: seq<int>, facts: seq<Fact>, vs: seq<Verdict>, gained: seq<Fact>, verdicts: seq<Verdict>, inFlight: bool)
    returns (marks: seq<Verdict>)
    requires |vs| == |facts| && |verdicts| == |gained|
    requires forall k | 0 < k < |gained| :: verdicts[k].Skipped?
    requires gained != [] && verdicts[0].Kept? ==> inFlight
    ensures |marks| == |gained|
    ensures forall k | 0 <= k < |marks| :: marks[k] == Kept || marks[k] == verdicts[k]
    ensures OnePass(keys, facts + gained, vs + marks) ==
            if gained != [] && inFlight then OnePass(keys, facts + [gained[0]], vs + [Kept]) else OnePass(keys, facts, vs)
  {
    marks := if gained != [] && inFlight then [Kept] + verdicts[1..] else verdicts;
    if gained != [] {
      var rest, tail := gained[1..], marks[1..];
      assert facts + gained == (facts + [gained[0]]) + rest && vs + marks == (vs + [marks[0]]) + tail;
      OnePassSkips(keys, facts + [gained[0]], vs + [marks[0]], rest, tail);
      OnePassAppend(keys, facts, vs, gained[0], marks[0]);
    } else {
      assert facts + gained == facts && vs + marks == vs;
    }
  }

  lemma PollRefines(cfg: Config, w0: World, w: World, steps: seq<Step>, vs: seq<Verdict>, step: Step) returns (vs': seq<Verdict>)
    requires cfg.maxLines >= 1 && Good(cfg, w) && Refines(cfg, w0, w, steps, vs)
    requires !step.Append?
    ensures Good(cfg, Next(cfg, w, step)) && Refines(cfg, w0, Next(cfg, w, step), steps + [step], vs')
  {
    var c0, c, plan := Current(w0), Current(w), PlanPoll(cfg, w, step.now);
    TargetFacts(cfg, w);
    PlanByTarget(cfg, w, step.now);
    if plan.admit.None? && (plan.save.None? || step.CrashedPoll?) {
      vs' := StutterRefines(cfg, w0, w, steps, vs, step);
    } else if Target(cfg, w).None? {
      var to := plan.save.value;
      BetweenSplit(cfg, w.bytes, c0.offset, c.offset, to.offset);
      NextFactPastEmpty(cfg, w.bytes, c.offset, to.offset);
      vs' := CursorRefines(cfg, w0, w, steps, vs, to, step, [], []);
    } else {
      vs' := TargetRefines(cfg, w0, w, steps, vs, step);
    }
  }

  lemma StutterRefines(cfg: Config, w0: World, w: World, steps: seq<Step>, vs: seq<Verdict>, step: Step) returns (vs': seq<Verdict>)
    requires Refines(cfg, w0, w, steps, vs)
    ensures Refines(cfg, w0, w, steps + [step], vs')
  {
    vs' := vs;
    forall k | 0 <= k < |vs| ensures Justified(cfg, w, steps + [step], Passed(cfg, w0, w)[k], vs[k]) {
      JustifiedLater(cfg, w, steps, w, step, Passed(cfg, w0, w)[k], vs[k]);
    }
  }

  function After(r: Record, i: nat): Position {
    if i + 1 < |r.facts| then Position(r.start, i + 1) else Position(r.end, 0)
  }

  /** On one item a poll admits it, rejects it, or drops its whole record. */
  lemma PlanRecordCases(cfg: Config, w: World, r: Record, now: int)
    requires Matches(w) && Item(w, r) < |r.facts|
    ensures var plan, i := PlanRecord(cfg, w, r, now), Item(w, r);
            if plan.admit.Some? then
              plan.save == Some(After(r, i)) && plan.admit.value.key == r.facts[i].key
            else if Published(cfg, r.facts, w.events) == [] then plan.save == Some(Position(r.end, 0))
            else plan.save == Some(After(r, i)) && SkipReason(cfg, r.facts, i, w.events, now)
  {
  }

  /** A poll that works on an item of its target. */
  lemma TargetRefines(cfg: Config, w0: World, w: World, steps: seq<Step>, vs: seq<Verdict>, step: Step) returns (vs': seq<Verdict>)
    requires cfg.maxLines >= 1 && Good(cfg, w) && Refines(cfg, w0, w, steps, vs)
    requires !step.Append? && InForce(cfg, step.now) && Ends(cfg, w) != [] && Target(cfg, w).Some?
    ensures Good(cfg, Next(cfg, w, step)) && Refines(cfg, w0, Next(cfg, w, step), steps + [step], vs')
  {
    hide WindowEnds, FactsBetween, LinesBetween, FirstRecord, NextEnd, NextFact, Chain, OnePass;
    hide PlanRecord, PlanPoll, Published, SkipReason, Refused, Upto, RecordFacts, GoodPosition, Save, Admit, Justified;
    var r := Target(cfg, w).value;
    var i, plan := Item(w, r), PlanRecord(cfg, w, r, step.now);
    TargetFacts(cfg, w);
    PlanByTarget(cfg, w, step.now);
    PlanRecordCases(cfg, w, r, step.now);
    if plan.admit.Some? && !Refused(cfg, w.events, plan.admit.value) {
      var w1 := StoreRefines(cfg, w0, w, steps, vs, r, plan.admit.value);
      if step.CrashedPoll? {
        vs' := StutterRefines(cfg, w0, w1, steps, vs, step);
      } else {
        JustifiedEvents(cfg, w1, w1, steps + [step], r.facts[i], Kept);
        vs' := ItemRefines(cfg, w0, w1, steps, vs, step, r, i, Kept);
      }
    } else if plan.admit.Some? || step.CrashedPoll? {
      vs' := StutterRefines(cfg, w0, w, steps, vs, step);
    } else if Published(cfg, r.facts, w.events) == [] {
      vs' := EmptyRefines(cfg, w0, w, steps, vs, step, r);
    } else {
      SkipJustified(cfg, w, steps + [step], r, i, step.now);
      vs' := ItemRefines(cfg, w0, w, steps, vs, step, r, i, Skipped(r.start, i, |w.events|, step.now));
    }
  }

  /** The admission alone, before the cursor is saved. */
  lemma StoreRefines(cfg: Config, w0: World, w: World, steps: seq<Step>, vs: seq<Verdict>, r: Record, e: Event) returns (w1: World)
    requires cfg.maxLines >= 1 && Good(cfg, w) && Refines(cfg, w0, w, steps, vs)
    requires Target(cfg, w) == Some(r) && Item(w, r) < |r.facts| && e.key == r.facts[Item(w, r)].key
    ensures w1 == w.(events := Admit(w.events, e))
    ensures Good(cfg, w1) && Refines(cfg, w0, w1, steps, vs) && InFlight(cfg, w0, w1, vs)
    ensures Target(cfg, w1) == Target(cfg, w)
  {
    hide WindowEnds, FactsBetween, LinesBetween, NextEnd, NextFact, OnePass, Justified, Upto, RecordFacts, FirstRecord;
    w1 := w.(events := Admit(w.events, e));
    TargetCut(cfg, w, Current(w0).offset, 0);
    AdmitInFlight(cfg, w0, w, vs, e);
    assert Passed(cfg, w0, w1) == Passed(cfg, w0, w);
    forall k | 0 <= k < |vs| ensures Justified(cfg, w1, steps, Passed(cfg, w0, w1)[k], vs[k]) {
      JustifiedEvents(cfg, w, w1, steps, Passed(cfg, w0, w)[k], vs[k]);
    }
  }

  lemma SkipJustified(cfg: Config, w: World, steps: seq<Step>, r: Record, k: nat, now: int)
    requires IsRecord(cfg, w.bytes, r) && k < |r.facts| && steps != [] && steps[|steps| - 1] == Poll(now)
    requires SkipReason(cfg, r.facts, k, w.events, now)
    ensures Justified(cfg, w, steps, r.facts[k], Skipped(r.start, k, |w.events|, now))
  {
    assert w.events[..|w.events|] == w.events;
  }

  function SkipRest(r: Record, i: nat, seen: nat, now: int): (vs: seq<Verdict>)
    requires i <= |r.facts|
    ensures |vs| == |r.facts[i..]|
    ensures forall k | 0 <= k < |vs| :: vs[k] == Skipped(r.start, i + k, seen, now)
  {
    seq(|r.facts| - i, k requires 0 <= k => Skipped(r.start, i + k, seen, now))
  }

  lemma RestCut(cfg: Config, w: World, lo: nat, r: Record)
    requires cfg.maxLines >= 1 && Good(cfg, w) && Matches(w) && Target(cfg, w) == Some(r) && lo <= Current(w).offset
    ensures var c, i := Current(w), Item(w, r);
            && GoodPosition(cfg, w.bytes, r.end, 0) && IsRecord(cfg, w.bytes, r) && i < |r.facts|
            && c.offset < r.end <= Last(Ends(cfg, w), c.offset)
            && Upto(cfg, w.bytes, lo, r.end, 0) == Upto(cfg, w.bytes, lo, c.offset, c.index) + r.facts[i..]
            && NextFact(cfg, w.bytes, c.offset, c.index) == Some(r.facts[i])
  {
    hide WindowEnds, FactsBetween, FirstRecord, NextFact, Chain, Upto, RecordFacts;
    TargetFacts(cfg, w);
    TargetCut(cfg, w, lo, 0);
    var base, i := FactsBetween(cfg, w.bytes, lo, r.start), Item(w, r);
    assert base + r.facts == (base + r.facts[..i]) + r.facts[i..];
    assert RecordStart(w.bytes, r.end);
  }

  /** A metric record dropped because its interval is empty. */
  lemma EmptyRefines(cfg: Config, w0: World, w: World, steps: seq<Step>, vs: seq<Verdict>, step: Step, r: Record) returns (vs': seq<Verdict>)
    requires cfg.maxLines >= 1 && Good(cfg, w) && Refines(cfg, w0, w, steps, vs)
    requires step.Poll? && Target(cfg, w) == Some(r) && Published(cfg, r.facts, w.events) == []
    ensures Good(cfg, Save(cfg, w, Position(r.end, 0))) && Refines(cfg, w0, Save(cfg, w, Position(r.end, 0)), steps + [step], vs')
  {
    hide WindowEnds, FactsBetween, LinesBetween, FirstRecord, NextEnd, NextFact, Chain, OnePass, Save, Upto, Justified, Published, RecordFacts;
    RestCut(cfg, w, Current(w0).offset, r);
    var i := Item(w, r);
    var gained, verdicts := r.facts[i..], SkipRest(r, i, |w.events|, step.now);
    forall k | 0 <= k < |gained| ensures Justified(cfg, w, steps + [step], gained[k], verdicts[k]) {
      SkipJustified(cfg, w, steps + [step], r, i + k, step.now);
    }
    vs' := CursorRefines(cfg, w0, w, steps, vs, Position(r.end, 0), step, gained, verdicts);
  }

  lemma JustifiedEvents(cfg: Config, w: World, w': World, steps: seq<Step>, fact: Fact, v: Verdict)
    requires v == Kept || Justified(cfg, w, steps, fact, v)
    requires w.bytes == w'.bytes && w.events <= w'.events
    ensures Justified(cfg, w', steps, fact, v)
  {
    if v.Skipped? { assert w'.events[..v.seen] == w.events[..v.seen]; }
  }

  /** Passing exactly one item. */
  lemma ItemRefines(cfg: Config, w0: World, w: World, steps: seq<Step>, vs: seq<Verdict>, step: Step,
                    r: Record, i: nat, v: Verdict) returns (vs': seq<Verdict>)
    requires cfg.maxLines >= 1 && Good(cfg, w) && Refines(cfg, w0, w, steps, vs)
    requires Target(cfg, w) == Some(r) && i == Item(w, r) && i < |r.facts|
    requires v.Kept? ==> InFlight(cfg, w0, w, vs)
    requires Justified(cfg, w, steps + [step], r.facts[i], v)
    ensures var to := After(r, i);
            Good(cfg, Save(cfg, w, to)) && Refines(cfg, w0, Save(cfg, w, to), steps + [step], vs')
  {
    hide WindowEnds, FactsBetween, LinesBetween, FirstRecord, NextEnd, NextFact, Chain, OnePass, Justified, Upto, RecordFacts, Save;
    TargetFacts(cfg, w);
    var to := After(r, i);
    ItemCut(cfg, w, Current(w0).offset, r, i);
    vs' := CursorRefines(cfg, w0, w, steps, vs, to, step, [r.facts[i]], [v]);
  }

  lemma ItemCut(cfg: Config, w: World, lo: nat, r: Record, i: nat)
    requires cfg.maxLines >= 1 && Good(cfg, w) && Matches(w) && Target(cfg, w) == Some(r)
    requires lo <= Current(w).offset && i == Item(w, r) && i < |r.facts|
    ensures var c := Current(w);
            var to := After(r, i);
            && GoodPosition(cfg, w.bytes, to.offset, to.index)
            && Upto(cfg, w.bytes, lo, to.offset, to.index) == Upto(cfg, w.bytes, lo, c.offset, c.index) + [r.facts[i]]
            && NextFact(cfg, w.bytes, c.offset, c.index) == Some(r.facts[i])
  {
    hide WindowEnds, FactsBetween, FirstRecord, NextEnd, NextFact, Chain;
    TargetFacts(cfg, w);
    var base := FactsBetween(cfg, w.bytes, lo, r.start);
    TargetCut(cfg, w, lo, i + 1);
    assert base + r.facts[..i + 1] == (base + r.facts[..i]) + [r.facts[i]];
    assert r.facts[..|r.facts|] == r.facts;
    assert RecordStart(w.bytes, r.end);
  }

  // ---- The theorem ------------------------------------------------------------

  lemma NothingPassedYet(cfg: Config, w0: World)
    requires Good(cfg, w0) && Matches(w0)
    ensures Refines(cfg, w0, w0, [], [])
  {
    assert FactsBetween(cfg, w0.bytes, Current(w0).offset, Current(w0).offset) == [];
  }

  /** Exactly once. From any state with a cursor in the file, whatever polls,
      crashes and growth follow: the store holds its old keys followed by the
      keys of the kept facts between the two cursors, each inserted once and in
      file order, and at most the fact the cursor points at besides; every other
      fact in between was skipped for one of the two reasons the source allows.
      Offsets stay record starts and the line number counts the records passed. */
  lemma {:induction false} ExactlyOnce(cfg: Config, w0: World, steps: seq<Step>) returns (verdicts: seq<Verdict>)
    requires cfg.maxLines >= 1 && Good(cfg, w0) && Matches(w0)
    ensures Good(cfg, Run(cfg, w0, steps))
    ensures Refines(cfg, w0, Run(cfg, w0, steps), steps, verdicts)
    decreases |steps|
  {
    if steps == [] {
      NothingPassedYet(cfg, w0);
      verdicts := [];
    } else {
      var n := |steps| - 1;
      var vs := ExactlyOnce(cfg, w0, steps[..n]);
      assert steps == steps[..n] + [steps[n]];
      var w := Run(cfg, w0, steps[..n]);
      match steps[n] {
        case Append(more) =>
          AppendRefines(cfg, w0, w, steps[..n], vs, more);
          verdicts := vs;
        case Poll(_) => verdicts := PollRefines(cfg, w0, w, steps[..n], vs, steps[n]);
        case CrashedPoll(_) => verdicts := PollRefines(cfg, w0, w, steps[..n], vs, steps[n]);
      }
    }
  }

  // ---- What is stored -------------------------------------------------------

  /** The poll that stored an event, and the item it stored. */
  datatype Origin = Origin(offset: nat, index: nat, now: int)

  /** Event `n` is the normalization, at that poll, of an item of the file as
      published against the events stored before it, inside the binding. */
  ghost predicate StoredFrom(cfg: Config, w: World, n: nat, o: Origin)
    requires n < |w.events|
  {
    && o.offset <= |w.bytes| && NextEnd(w.bytes, o.offset).Some?
    && !OutsideBinding(cfg, w.events[n])
    && var shown := Published(cfg, RecordFacts(cfg, w.bytes, o.offset), w.events[..n]);
       o.index < |shown| && Normalize(cfg, shown[o.index], o.now) == Some(w.events[n])
  }

  lemma StoredFromLater(cfg: Config, w: World, w': World, n: nat, o: Origin)
    requires n < |w.events| && StoredFrom(cfg, w, n, o) && w.bytes <= w'.bytes && w.events <= w'.events
    ensures StoredFrom(cfg, w', n, o)
  {
    assert w'.bytes == w.bytes + w'.bytes[|w.bytes|..] && w'.events[..n] == w.events[..n];
    NextEndStable(w.bytes, w'.bytes[|w.bytes|..], o.offset);
    RecordFactsStable(cfg, w.bytes, w'.bytes[|w.bytes|..], o.offset);
  }

  /** Nothing is invented: every event stored along a run is the normalized form
      of an item of the file, taken at one poll of the run. */
  lemma {:induction false} EveryEventHasOrigin(cfg: Config, w0: World, steps: seq<Step>) returns (origins: seq<Origin>)
    requires cfg.maxLines >= 1 && Good(cfg, w0) && Matches(w0)
    ensures var w, n0 := Run(cfg, w0, steps), |w0.events|;
            && w0.events <= w.events && |origins| == |w.events| - n0
            && (forall k | 0 <= k < |origins| ::
                  StoredFrom(cfg, w, n0 + k, origins[k])
                  && (Poll(origins[k].now) in steps || CrashedPoll(origins[k].now) in steps))
    decreases |steps|
  {
    hide Next, StoredFrom, Good, NextEnd, OnePass, InFlight, Justified, Upto, Passed, LinesBetween, Keys;
    origins := [];
    if steps != [] {
      var n := |steps| - 1;
      var w, step := Run(cfg, w0, steps[..n]), steps[n];
      var before := EveryEventHasOrigin(cfg, w0, steps[..n]);
      var vs := ExactlyOnce(cfg, w0, steps[..n]);
      origins := before;
      if !step.Append? && Next(cfg, w, step).events != w.events {
        var o := PollOrigin(cfg, w, step);
        origins := before + [o];
      }
      StepKeeps(cfg, w, step);
      forall k | 0 <= k < |before| ensures StoredFrom(cfg, Next(cfg, w, step), |w0.events| + k, before[k]) {
        StoredFromLater(cfg, w, Next(cfg, w, step), |w0.events| + k, before[k]);
      }
    }
  }

  lemma StepKeeps(cfg: Config, w: World, step: Step)
    ensures var w' := Next(cfg, w, step);
            w.bytes <= w'.bytes && w.events <= w'.events && |w'.events| <= |w.events| + 1
            && (step.Append? ==> w'.events == w.events)
  {
  }

  lemma SaveKeepsStore(cfg: Config, w: World, to: Position)
    ensures var w' := Save(cfg, w, to); w'.events == w.events && w'.bytes == w.bytes
  {
  }

  lemma PollOrigin(cfg: Config, w: World, step: Step) returns (o: Origin)
    requires cfg.maxLines >= 1 && Good(cfg, w) && Matches(w)
    requires !step.Append? && Next(cfg, w, step).events != w.events
    ensures |Next(cfg, w, step).events| == |w.events| + 1 && o.now == step.now
    ensures StoredFrom(cfg, Next(cfg, w, step), |w.events|, o)
  {
    hide NextEnd, FactsBetween, FirstRecord, WindowEnds, Chain, LinesBetween, RecordFacts, IntervalFacts, Save, PlanPoll, Twin, Normalize;
    var w', plan := Next(cfg, w, step), PlanPoll(cfg, w, step.now);
    TargetFacts(cfg, w);
    PlanByTarget(cfg, w, step.now);
    if plan.save.Some? {
      SaveKeepsStore(cfg, w, plan.save.value);
      if plan.admit.Some? { SaveKeepsStore(cfg, w.(events := Admit(w.events, plan.admit.value)), plan.save.value); }
    }
    var r := Target(cfg, w).value;
    o := Origin(r.start, Item(w, r), step.now);
    assert w'.bytes == w.bytes && w'.events[..|w.events|] == w.events;
  }
}
