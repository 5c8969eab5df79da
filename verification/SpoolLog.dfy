/** Byte-level view of an append-only JSONL file: records are the stretches
    that end in a newline, and a poll reads a bounded run of whole records. */
module SpoolLog {
  import opened Options

  type Byte = b: int | 0 <= b < 256
  type Bytes = seq<Byte>

  const NEWLINE: Byte := 10

  /** A position at which a record begins. */
  predicate RecordStart(file: Bytes, pos: nat) {
    pos <= |file| && (pos == 0 || file[pos - 1] == NEWLINE)
  }

  /** The end of the record that begins at `pos`, when its newline was written. */
  function NextEnd(file: Bytes, pos: nat): (end: Option<nat>)
    requires pos <= |file|
    ensures end.Some? ==>
              && pos < end.value <= |file| && file[end.value - 1] == NEWLINE
              && (forall k | pos <= k < end.value - 1 :: file[k] != NEWLINE)
    ensures end.None? ==> forall k | pos <= k < |file| :: file[k] != NEWLINE
    decreases |file| - pos
  {
    if pos == |file| then None
    else if file[pos] == NEWLINE then Some(pos + 1)
    else NextEnd(file, pos + 1)
  }

  /** A newline at `end - 1` and none earlier pins the end of the record. */
  lemma {:induction false} NextEndUnique(file: Bytes, pos: nat, end: nat)
    requires pos < end <= |file| && file[end - 1] == NEWLINE
    requires forall k | pos <= k < end - 1 :: file[k] != NEWLINE
    ensures NextEnd(file, pos) == Some(end)
    decreases end - pos
  {
    if pos + 1 < end {
      assert file[pos] != NEWLINE;
      NextEndUnique(file, pos + 1, end);
    }
  }

  /** Complete records never change when the file grows. */
  lemma NextEndStable(file: Bytes, more: Bytes, pos: nat)
    requires pos <= |file| && NextEnd(file, pos).Some?
    ensures NextEnd(file + more, pos) == NextEnd(file, pos)
  {
    NextEndUnique(file + more, pos, NextEnd(file, pos).value);
  }

  /** No record straddles a record start. */
  lemma NextEndWithin(file: Bytes, lo: nat, hi: nat)
    requires lo < hi && RecordStart(file, hi)
    ensures NextEnd(file, lo).Some? && NextEnd(file, lo).value <= hi
  {
    assert file[hi - 1] == NEWLINE;
  }

  /** `readline(limit)`: the bytes up to and including the next newline, cut at `limit`. */
  function ReadLine(file: Bytes, pos: nat, limit: nat): (line: Bytes)
    requires pos <= |file|
    ensures |line| <= limit && pos + |line| <= |file|
  {
    var stop := match NextEnd(file, pos) case Some(end) => end case None => |file|;
    if stop - pos <= limit then file[pos..stop] else file[pos..pos + limit]
  }

  /** The record ends one poll may reach from `pos`, under a line and a byte budget. */
  function WindowEnds(file: Bytes, pos: nat, lines: nat, budget: nat): (ends: seq<nat>)
    requires pos <= |file|
    ensures |ends| <= lines
    ensures forall i | 0 <= i < |ends| :: pos < ends[i] <= |file| && RecordStart(file, ends[i])
    decreases lines
  {
    if lines == 0 then []
    else
      match NextEnd(file, pos)
      case None => []
      case Some(end) =>
        if end - pos > budget then []
        else [end] + WindowEnds(file, end, lines - 1, budget - (end - pos))
  }

  function Last(ends: seq<nat>, start: nat): nat {
    if ends == [] then start else ends[|ends| - 1]
  }

  /** `ends` is the longest run of consecutive whole records that fits both budgets. */
  ghost predicate LongestFittingRun(file: Bytes, start: nat, lines: nat, budget: nat, ends: seq<nat>)
    requires start <= |file|
  {
    && |ends| <= lines
    && Chain(file, start, ends)
    && Last(ends, start) - start <= budget
    && (|ends| < lines ==>
          var next := NextEnd(file, Last(ends, start));
          next.None? || next.value - start > budget)
  }

  ghost predicate Chain(file: Bytes, start: nat, ends: seq<nat>)
    requires start <= |file|
    ensures Chain(file, start, ends) ==> Last(ends, start) <= |file|
    decreases |ends|
  {
    ends == [] || (NextEnd(file, start) == Some(ends[0]) && Chain(file, ends[0], ends[1..]))
  }

  /** A fitting record before a longest run gives a longest run. */
  lemma LongestCons(file: Bytes, start: nat, lines: nat, budget: nat, end: nat, rest: seq<nat>)
    requires start <= |file| && lines > 0 && NextEnd(file, start) == Some(end) && end - start <= budget
    requires LongestFittingRun(file, end, lines - 1, budget - (end - start), rest)
    ensures LongestFittingRun(file, start, lines, budget, [end] + rest)
  {
    hide NextEnd;
    var ends := [end] + rest;
    assert ends[1..] == rest;
    assert Last(ends, start) == Last(rest, end);
  }

  lemma {:induction false} WindowIsLongest(file: Bytes, start: nat, lines: nat, budget: nat)
    requires start <= |file|
    ensures LongestFittingRun(file, start, lines, budget, WindowEnds(file, start, lines, budget))
    decreases lines
  {
    hide NextEnd;
    if lines > 0 && NextEnd(file, start).Some? && NextEnd(file, start).value - start <= budget {
      var end := NextEnd(file, start).value;
      WindowIsLongest(file, end, lines - 1, budget - (end - start));
      hide LongestFittingRun;
      LongestCons(file, start, lines, budget, end, WindowEnds(file, end, lines - 1, budget - (end - start)));
    } else {
      assert WindowEnds(file, start, lines, budget) == [];
    }
  }

  lemma {:induction false} LongestIsUnique(file: Bytes, start: nat, lines: nat, budget: nat, ends: seq<nat>)
    requires start <= |file| && LongestFittingRun(file, start, lines, budget, ends)
    ensures ends == WindowEnds(file, start, lines, budget)
    decreases lines
  {
    hide NextEnd;
    if ends != [] {
      assert Last(ends, start) == Last(ends[1..], ends[0]);
      ChainGrows(file, ends[0], ends[1..]);
      LongestIsUnique(file, ends[0], lines - 1, budget - (ends[0] - start), ends[1..]);
    }
  }

  lemma {:induction false} ChainGrows(file: Bytes, start: nat, ends: seq<nat>)
    requires start <= |file| && Chain(file, start, ends)
    ensures start <= Last(ends, start)
    ensures RecordStart(file, start) ==> RecordStart(file, Last(ends, start))
    decreases |ends|
  {
    if ends != [] {
      ChainGrows(file, ends[0], ends[1..]);
      assert Last(ends, start) == Last(ends[1..], ends[0]);
    }
  }

  lemma {:induction false} ChainSnoc(file: Bytes, start: nat, ends: seq<nat>, end: nat)
    requires start <= |file| && Chain(file, start, ends)
    requires NextEnd(file, Last(ends, start)) == Some(end)
    ensures Chain(file, start, ends + [end]) && Last(ends + [end], start) == end
    decreases |ends|
  {
    if ends != [] {
      assert Last(ends, start) == Last(ends[1..], ends[0]);
      ChainSnoc(file, ends[0], ends[1..], end);
      assert (ends + [end])[1..] == ends[1..] + [end];
    }
  }

  /** What one `readline` of the loop says about the record it starts. */
  lemma ReadLineFits(file: Bytes, pos: nat, remaining: nat)
    requires pos <= |file|
    ensures var raw, next := ReadLine(file, pos, remaining + 1), NextEnd(file, pos);
            if raw == [] || |raw| > remaining || raw[|raw| - 1] != NEWLINE
            then next.None? || next.value - pos > remaining
            else next == Some(pos + |raw|)
  {
    var next := NextEnd(file, pos);
    hide NextEnd;
    if next.Some? && next.value - pos <= remaining { assert file[pos..next.value][next.value - pos - 1] == NEWLINE; }
  }

  /** The read loop of a poll: it stops at the line limit, at the byte limit,
      at a record that does not fit, and at a record still being written. */
  method ReadWindow(file: Bytes, start: nat, maxLines: nat, maxBytes: nat) returns (ends: seq<nat>)
    requires start <= |file|
    ensures LongestFittingRun(file, start, maxLines, maxBytes, ends)
    ensures ends == WindowEnds(file, start, maxLines, maxBytes)
  {
    hide NextEnd, ReadLine, WindowEnds;
    ends := [];
    var offset, total, line := start, 0, 0;
    while line < maxLines
      invariant 0 <= line == |ends| <= maxLines
      invariant Chain(file, start, ends) && offset == Last(ends, start)
      invariant total == offset - start <= maxBytes
    {
      var remaining := maxBytes - total;
      if remaining <= 0 { break; }
      var raw := ReadLine(file, offset, remaining + 1);
      ReadLineFits(file, offset, remaining);
      if raw == [] || |raw| > remaining || raw[|raw| - 1] != NEWLINE { break; }
      ChainSnoc(file, start, ends, offset + |raw|);
      total := total + |raw|;
      offset := offset + |raw|;
      ends := ends + [offset];
      line := line + 1;
    }
    LongestIsUnique(file, start, maxLines, maxBytes, ends);
  }
}
