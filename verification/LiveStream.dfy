/** The tenant-wide live stream: a snapshot, a server loop that reads the outbox
    in pages, and a browser that resumes with `Last-Event-ID`. */
module LiveStream {
  import opened Options
  import opened SortedLists
  import opened LiveOutbox

  const PAGE := 100

  const SNAPSHOT_LIMIT := 100

  // ---- The server's reads -----------------------------------------------------------

  predicate Below(a: nat, b: nat) { a < b }

  lemma BelowOrder()
    ensures StrictOrder<nat>(Below)
  {
  }

  ghost function First<T>(xs: seq<T>, n: nat): seq<T> {
    if n <= |xs| then xs[..n] else xs
  }

  function Later(outbox: map<nat, Live>, after: nat): set<nat> {
    set n: nat | n in outbox && n > after
  }

  /** `WHERE live_sequence > after ORDER BY live_sequence LIMIT 100`. */
  ghost function EventsAfter(outbox: map<nat, Live>, after: nat): seq<nat> {
    BelowOrder();
    First(Listing<nat>(Below, Later(outbox, after)), PAGE)
  }

  datatype ResetReason = CursorAhead | CursorExpired

  /** `MIN` and `MAX` of the outbox keys; None on an empty outbox. */
  ghost function Bounds(outbox: map<nat, Live>): Option<(nat, nat)> {
    if outbox == map[] then None
    else
      BelowOrder();
      var keys := Listing<nat>(Below, outbox.Keys);
      assert outbox.Keys != {};
      assert Elements(keys) != {};
      Some((keys[0], keys[|keys| - 1]))
  }

  function StreamReset(checkpoint: nat, bounds: Option<(nat, nat)>): Option<ResetReason> {
    match bounds
    case None => if checkpoint > 0 then Some(CursorAhead) else None
    case Some((minimum, maximum)) =>
      if checkpoint > maximum then Some(CursorAhead)
      else if checkpoint + 1 < minimum then Some(CursorExpired)
      else None
  }

  /** `lo + 1, ..., hi`. */
  function Range(lo: nat, hi: nat): (r: seq<nat>)
    requires lo <= hi
    ensures |r| == hi - lo && forall i | 0 <= i < |r| :: r[i] == lo + 1 + i
  {
    seq(hi - lo, i requires 0 <= i => lo + 1 + i)
  }

  lemma ListingIsRange(outbox: map<nat, Live>, after: nat)
    requires Dense(outbox) && after <= |outbox|
    ensures StrictOrder<nat>(Below)
    ensures Listing<nat>(Below, Later(outbox, after)) == Range(after, |outbox|)
  {
    BelowOrder();
    var range, wanted := Range(after, |outbox|), Later(outbox, after);
    forall n ensures n in Elements(range) <==> n in wanted {
      if n in wanted { assert range[n - after - 1] == n; }
    }
    SortedUnique<nat>(Below, Listing<nat>(Below, wanted), range);
  }

  /** A page is the next hundred sequences, or all that are left. */
  lemma PageIsNext(outbox: map<nat, Live>, after: nat)
    requires Dense(outbox) && after <= |outbox|
    ensures EventsAfter(outbox, after) == Range(after, if after + PAGE <= |outbox| then after + PAGE else |outbox|)
  {
    ListingIsRange(outbox, after);
  }

  /** Over a contiguous outbox a reset is sent exactly to a cursor from the
      future; `cursor_expired` is never sent. */
  lemma ResetIffAhead(outbox: map<nat, Live>, checkpoint: nat)
    requires Dense(outbox)
    ensures StreamReset(checkpoint, Bounds(outbox)) == if checkpoint > |outbox| then Some(CursorAhead) else None
  {
    ListingIsRange(outbox, 0);
    assert outbox.Keys == Later(outbox, 0);
    if outbox != map[] { assert outbox.Keys != {} && |outbox| > 0; }
  }

  // ---- The browser --------------------------------------------------------------------

  /** What the page holds, what it asked for, and what it was given. */
  datatype Client = Client(
    after: nat, lastEventId: Option<nat>, sequence: nat, incidents: map<int, Projection>,
    delivered: seq<nat>, gaps: nat)

  function ApplyLive(incidents: map<int, Projection>, row: Live): map<int, Projection> {
    if row.completed || row.summary.resolved then incidents - {row.caseId}
    else incidents[row.caseId := row.summary]
  }

  /** The event handler: old events are ignored and a gap forces a new snapshot. */
  function OnEvent(client: Client, n: nat, row: Live): Client {
    var heard := client.(lastEventId := Some(n), delivered := client.delivered + [n]);
    if n <= client.sequence then heard
    else if n != client.sequence + 1 then heard.(gaps := client.gaps + 1)
    else heard.(sequence := n, incidents := ApplyLive(client.incidents, row))
  }

  /** The adapter object of the page, updated in place. */
  class LiveIncidentAdapter {
    var client: Client

    constructor (client: Client)
      ensures this.client == client
    {
      this.client := client;
    }

    /** The page shows the fold of the rows `lo + 1 ..` of an outbox up to its cursor. */
    ghost predicate ShowsFold(base: map<int, Projection>, outbox: map<nat, Live>, lo: nat)
      reads this
    {
      lo <= client.sequence && client.incidents == Fold(base, outbox, lo, client.sequence)
    }

    /** The cursor moves by exactly one, and then exactly the row's case is shown anew
        or taken off, or nothing shown changes; a gap is counted exactly when a row
        was missed. A page that shows the fold of an outbox still does after any of
        its events. */
    method HandleEvent(n: nat, row: Live)
      modifies this
      ensures client == OnEvent(old(client), n, row)
      ensures client.sequence == if n == old(client).sequence + 1 then n else old(client).sequence
      ensures client.sequence == old(client).sequence ==> client.incidents == old(client).incidents
      ensures client.sequence != old(client).sequence ==>
                && (row.caseId in client.incidents <==> !row.completed && !row.summary.resolved)
                && (row.caseId in client.incidents ==> client.incidents[row.caseId] == row.summary)
                && client.incidents - {row.caseId} == old(client).incidents - {row.caseId}
      ensures client.gaps > old(client).gaps <==> n > old(client).sequence + 1
      ensures forall base, outbox: map<nat, Live>, lo | n in outbox && outbox[n] == row && old(ShowsFold(base, outbox, lo)) ::
                ShowsFold(base, outbox, lo)
    {
      client := client.(lastEventId := Some(n), delivered := client.delivered + [n]);
      if n <= client.sequence { return; }
      if n != client.sequence + 1 {
        client := client.(gaps := client.gaps + 1);
        return;
      }
      var incidents := client.incidents;
      if row.completed || row.summary.resolved {
        incidents := incidents - {row.caseId};
      } else {
        incidents := incidents[row.caseId := row.summary];
      }
      client := client.(sequence := n, incidents := incidents);
    }
  }

  // ---- A session: one page, any number of connections -----------------------------------

  datatype Conn = Closed | Open(cursor: nat, records: seq<nat>, wire: seq<nat>)

  datatype Session = Session(outbox: map<nat, Live>, conn: Conn, client: Client, resets: nat)

  datatype Step =
    | Grow(outbox: map<nat, Live>)
    | Connect
    | Poll
    | Check
    | Emit
    | Receive
    | Disconnect

  /** The header is authoritative; without one the URL's cursor counts. */
  function Checkpoint(client: Client): nat {
    match client.lastEventId case Some(id) => id case None => client.after
  }

  ghost function Next(s: Session, step: Step): Session {
    match step
    case Grow(outbox) =>
      if Dense(outbox) && RowsAgree(outbox) && Extends(s.outbox, outbox) then s.(outbox := outbox) else s
    case Connect =>
      if s.conn.Open? then s
      else if StreamReset(Checkpoint(s.client), Bounds(s.outbox)).Some? then s.(resets := s.resets + 1)
      else s.(conn := Open(Checkpoint(s.client), [], []))
    case Poll =>
      if s.conn.Closed? || s.conn.records != [] then s
      else s.(conn := s.conn.(records := EventsAfter(s.outbox, s.conn.cursor)))
    case Check =>
      if s.conn.Closed? || s.conn.records != [] || StreamReset(s.conn.cursor, Bounds(s.outbox)).None? then s
      else s.(conn := Closed, resets := s.resets + 1)
    case Emit =>
      if s.conn.Closed? || s.conn.records == [] then s
      else s.(conn := Open(s.conn.records[0], s.conn.records[1..], s.conn.wire + [s.conn.records[0]]))
    case Receive =>
      if s.conn.Closed? || s.conn.wire == [] || s.conn.wire[0] !in s.outbox then s
      else s.(conn := s.conn.(wire := s.conn.wire[1..]), client := OnEvent(s.client, s.conn.wire[0], s.outbox[s.conn.wire[0]]))
    case Disconnect => s.(conn := Closed)
  }

  ghost function Run(s: Session, steps: seq<Step>): Session {
    if steps == [] then s else Next(Run(s, steps[..|steps| - 1]), steps[|steps| - 1])
  }

  /** A page that has just loaded a snapshot taken at the present outbox. */
  function Opened(outbox: map<nat, Live>, incidents: map<int, Projection>): Session {
    Session(outbox, Closed, Client(|outbox|, None, |outbox|, incidents, [], 0), 0)
  }

  /** Every summary is that of its row's case. */
  ghost predicate RowsAgree(outbox: map<nat, Live>) {
    forall n | n in outbox :: outbox[n].summary.caseId == outbox[n].caseId
  }

  /** The fold of the outbox rows `lo + 1 .. hi` over a map of incidents. */
  ghost function Fold(incidents: map<int, Projection>, outbox: map<nat, Live>, lo: nat, hi: nat): map<int, Projection> {
    if hi <= lo then incidents
    else
      var before := Fold(incidents, outbox, lo, hi - 1);
      if hi in outbox then ApplyLive(before, outbox[hi]) else before
  }

  ghost predicate Live0(s0: Session, s: Session) {
    var start, client := |s0.outbox|, s.client;
    && Dense(s.outbox) && RowsAgree(s.outbox) && Extends(s0.outbox, s.outbox)
    && start <= client.sequence <= |s.outbox|
    && client.after == start && Checkpoint(client) == client.sequence
    && client.delivered == Range(start, client.sequence)
    && client.gaps == 0 && s.resets == 0
    && client.incidents == Fold(s0.client.incidents, s.outbox, start, client.sequence)
    && match s.conn
       case Closed => true
       case Open(cursor, records, wire) =>
         && client.sequence <= cursor <= |s.outbox| && cursor + |records| <= |s.outbox|
         && wire == Range(client.sequence, cursor) && records == Range(cursor, cursor + |records|)
  }

  lemma {:induction false} FoldStable(incidents: map<int, Projection>, outbox: map<nat, Live>, later: map<nat, Live>, lo: nat, hi: nat)
    requires Dense(outbox) && Extends(outbox, later) && hi <= |outbox|
    ensures Fold(incidents, later, lo, hi) == Fold(incidents, outbox, lo, hi)
    decreases hi
  {
    if hi > lo { FoldStable(incidents, outbox, later, lo, hi - 1); }
  }

  lemma DenseExtends(outbox: map<nat, Live>, later: map<nat, Live>)
    requires Dense(outbox) && Dense(later) && Extends(outbox, later)
    ensures |outbox| <= |later|
  {
    assert outbox.Keys <= later.Keys;
    if |outbox| > 0 { assert |outbox| in later; }
  }

  lemma ExtendsTwice(a: map<nat, Live>, b: map<nat, Live>, c: map<nat, Live>)
    requires Extends(a, b) && Extends(b, c)
    ensures Extends(a, c)
  {
  }

  lemma StepKeeps(s0: Session, s: Session, step: Step)
    requires Dense(s0.outbox) && Live0(s0, s)
    ensures Live0(s0, Next(s, step))
  {
    hide EventsAfter, Bounds, Fold, StreamReset, Dense, RowsAgree, Extends, OnEvent;
    match step {
      case Grow(outbox) => GrowKeeps(s0, s, outbox);
      case Connect => ResetIffAhead(s.outbox, s.client.sequence);
      case Poll => if s.conn.Open? { PageIsNext(s.outbox, s.conn.cursor); }
      case Check => if s.conn.Open? { ResetIffAhead(s.outbox, s.conn.cursor); }
      case Emit =>
      case Receive => if s.conn.Open? && s.conn.wire != [] { ReceiveKeeps(s0, s); }
      case Disconnect =>
    }
  }

  lemma GrowKeeps(s0: Session, s: Session, outbox: map<nat, Live>)
    requires Dense(s0.outbox) && Live0(s0, s)
    ensures Live0(s0, Next(s, Grow(outbox)))
  {
    hide Fold, Dense, RowsAgree, Extends;
    if Dense(outbox) && RowsAgree(outbox) && Extends(s.outbox, outbox) {
      DenseExtends(s.outbox, outbox);
      ExtendsTwice(s0.outbox, s.outbox, outbox);
      FoldStable(s0.client.incidents, s.outbox, outbox, |s0.outbox|, s.client.sequence);
    }
  }

  lemma ReceiveKeeps(s0: Session, s: Session)
    requires Live0(s0, s) && s.conn.Open? && s.conn.wire != []
    ensures Live0(s0, Next(s, Receive))
  {
    hide ApplyLive, Extends, RowsAgree;
    var n := s.client.sequence + 1;
    assert s.conn.wire[0] == n && n in s.outbox;
    assert s.conn.wire[1..] == Range(n, s.conn.cursor);
    assert s.client.delivered + [n] == Range(|s0.outbox|, n);
    hide Dense;
  }

  /** Through any number of disconnects and resumes, whatever commits meanwhile,
      the ids delivered are exactly s+1, s+2, ... with no gap and no repeat; no
      reset is ever sent and the client's gap branch is never taken; and the page
      holds the fold of exactly the delivered rows over its snapshot. */
  lemma {:induction false} DeliveredExactly(outbox: map<nat, Live>, incidents: map<int, Projection>, steps: seq<Step>)
    requires Dense(outbox) && RowsAgree(outbox)
    ensures var s := Run(Opened(outbox, incidents), steps);
            && Dense(s.outbox) && RowsAgree(s.outbox) && Extends(outbox, s.outbox)
            && |outbox| <= s.client.sequence <= |s.outbox|
            && s.client.delivered == Range(|outbox|, s.client.sequence)
            && s.client.gaps == 0 && s.resets == 0
            && s.client.incidents == Fold(incidents, s.outbox, |outbox|, s.client.sequence)
    ensures Live0(Opened(outbox, incidents), Run(Opened(outbox, incidents), steps))
    decreases |steps|
  {
    hide Dense, Fold, Next, RowsAgree;
    var s0 := Opened(outbox, incidents);
    if steps == [] {
      StartsLive(outbox, incidents);
    } else {
      DeliveredExactly(outbox, incidents, steps[..|steps| - 1]);
      StepKeeps(s0, Run(s0, steps[..|steps| - 1]), steps[|steps| - 1]);
    }
  }

  lemma StartsLive(outbox: map<nat, Live>, incidents: map<int, Projection>)
    requires Dense(outbox) && RowsAgree(outbox)
    ensures Live0(Opened(outbox, incidents), Opened(outbox, incidents))
  {
  }
}
