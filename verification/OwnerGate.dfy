/** The frozen diagnosis workflow: one main routine and any number of owner
    updates, interleaving wherever one of them awaits. */
module OwnerGate {
  import opened Options

  datatype Proposal = Proposal(id: int, body: int)

  datatype Approval = Approval(id: int, proposalId: int, body: int)

  datatype Command = Command(
    caseId: int, tenantId: int, assertion: int, proposal: Option<Proposal>, proposalId: Option<int>,
    approval: Option<Approval>, currentWitness: int)

  /** What fixes a workflow execution. */
  datatype Request = Request(caseId: int, tenantId: int, hasEvidence: bool, roles: seq<int>)

  datatype Stage =
    | Acquire | Route | Retrieve | Primary | Specialist(n: nat) | Critic | Verify | OwnerWait | Gate

  /** An activity is awaited by the main routine or by an owner update. */
  datatype Job = Main(stage: Stage) | Validation

  datatype Packet = Packet(
    sequence: nat, job: Job, proposal: Option<Proposal>, approval: Option<Approval>, currentWitness: int,
    assertion: Option<int>, actor: Option<int>, proposalId: Option<int>)

  datatype Reply =
    | Raises
    | Outcome(pass: bool, acquired: bool, authenticated: Option<int>)

  datatype Finish = NeedsHuman | Abstained | GateDecided | Failed

  /** Where the main routine stands. */
  datatype Routine = NotStarted | Awaiting(stage: Stage) | AwaitingApproval | Ended(finish: Finish)

  datatype Reason =
    | Malformed | NotInitialized | ScopeMismatch | NotReady | ProposalImmutable | UnknownProposal
    | ProposalIdMismatch | ApprovalImmutable | NotAuthorized

  datatype Receipt = ProposalSubmitted | ApprovalSubmitted | Rejected(reason: Reason) | Crashed

  /** An update waits for the lock, or holds it while its validation runs. */
  datatype Update = Queued(command: Option<Command>) | Validating(held: Command, proposed: Option<Proposal>)

  datatype Log = Sent(packet: Packet) | Answered(stage: Stage, pass: bool)

  datatype State = State(
    request: Request, routine: Routine, sequence: nat,
    proposal: Option<Proposal>, approval: Option<Approval>, currentWitness: int,
    assertion: Option<int>, authenticated: Option<int>, ready: bool, commands: nat,
    lock: Option<int>, updates: map<int, Update>, receipts: map<int, Receipt>, log: seq<Log>)

  datatype Step =
    | Start
    | Resume(reply: Reply)
    | Wake
    | Submit(id: int, command: Option<Command>)
    | Enter(id: int)
    | Return(id: int, reply: Reply)

  function Initial(request: Request): State {
    State(request, NotStarted, 0, None, None, 0, None, None, false, 0, None, map[], map[], [])
  }

  /** `_packet`: every packet takes the next sequence number. */
  function Send(s: State, packet: Packet): State {
    s.(sequence := s.sequence + 1, log := s.log + [Sent(packet.(sequence := s.sequence + 1))])
  }

  function Plain(stage: Stage): Packet {
    Packet(0, Main(stage), None, None, 0, None, None, None)
  }

  /** The main routine awaits its next stage. */
  function Await(s: State, stage: Stage): State {
    Send(s.(routine := Awaiting(stage)), Plain(stage))
  }

  function RoleCount(request: Request): nat {
    if |request.roles| < 4 then |request.roles| else 4
  }

  function StartRun(s: State): State {
    Await(s, if s.request.hasEvidence then Route else Acquire)
  }

  /** Where an answered stage takes the main routine. */
  function Following(request: Request, stage: Stage, reply: Reply): Routine
    requires reply.Outcome?
  {
    match stage
    case Acquire => if reply.pass && reply.acquired then Awaiting(Route) else Ended(NeedsHuman)
    case Route => Awaiting(Retrieve)
    case Retrieve => Awaiting(Primary)
    case Primary => Awaiting(if RoleCount(request) > 0 then Specialist(0) else Critic)
    case Specialist(n) => Awaiting(if n + 1 < RoleCount(request) then Specialist(n + 1) else Critic)
    case Critic => if reply.pass then Awaiting(Verify) else Ended(NeedsHuman)
    case Verify => if reply.pass then Awaiting(OwnerWait) else Ended(Abstained)
    case OwnerWait => AwaitingApproval
    case Gate => Ended(GateDecided)
  }

  /** The segment of the main routine that follows an answered stage; owner
      updates are let in before the owner wait is scheduled. */
  function Continue(s: State, stage: Stage, reply: Reply): State {
    if reply.Raises? then s.(routine := Ended(Failed))
    else
      var next := Following(s.request, stage, reply);
      var t := s.(routine := next, ready := s.ready || next == Awaiting(OwnerWait),
                  log := s.log + [Answered(stage, reply.pass)]);
      if next.Awaiting? then Send(t, Plain(next.stage)) else t
  }

  /** The gate is scheduled with whatever is stored at that moment. */
  function OpenGate(s: State): State {
    Send(s.(routine := Awaiting(Gate)),
         Packet(0, Main(Gate), s.proposal, s.approval, s.currentWitness, s.assertion, s.authenticated,
                match s.proposal case Some(p) => Some(p.id) case None => None))
  }

  function Proposed(s: State, c: Command): Option<Proposal> {
    if c.proposal.Some? then c.proposal else s.proposal
  }

  function IdOf(p: Option<Proposal>): Option<int> {
    match p case Some(q) => Some(q.id) case None => None
  }

  /** The checks made under the lock, before the validation is awaited. */
  function Refusal(s: State, command: Option<Command>): Option<Reason> {
    if command.None? then Some(Malformed)
    else
      var c := command.value;
      var expected := IdOf(Proposed(s, c));
      if s.routine.NotStarted? then Some(NotInitialized)
      else if c.caseId != s.request.caseId || c.tenantId != s.request.tenantId then Some(ScopeMismatch)
      else if !s.ready then Some(NotReady)
      else if c.proposal.Some? && s.proposal.Some? && s.proposal != c.proposal then Some(ProposalImmutable)
      else if c.approval.Some? && (expected.None? || c.approval.value.proposalId != expected.value) then Some(UnknownProposal)
      else if c.approval.Some? && c.proposalId.Some? && c.proposalId != expected then Some(ProposalIdMismatch)
      else if c.approval.Some? && s.approval.Some? && (s.approval != c.approval || s.currentWitness != c.currentWitness) then Some(ApprovalImmutable)
      else None
  }

  function Release(s: State, id: int, receipt: Receipt): State {
    s.(lock := None, updates := s.updates - {id}, receipts := s.receipts[id := receipt])
  }

  function EnterLock(s: State, id: int, command: Option<Command>): State {
    match Refusal(s, command)
    case Some(reason) => Release(s, id, Rejected(reason))
    case None =>
      var c := command.value;
      var proposed := Proposed(s, c);
      Send(s.(lock := Some(id), updates := s.updates[id := Validating(c, proposed)]),
           Packet(0, Validation, c.proposal, c.approval, c.currentWitness, Some(c.assertion), None,
                  if c.proposal.Some? then Some(c.proposal.value.id) else IdOf(proposed)))
  }

  /** What an accepted command stores. */
  function Store(s: State, c: Command, proposed: Option<Proposal>, actor: Option<int>): State {
    if c.approval.Some? then
      s.(proposal := proposed, commands := s.commands + 1, approval := c.approval, currentWitness := c.currentWitness,
         assertion := Some(c.assertion), authenticated := actor)
    else s.(proposal := proposed, commands := s.commands + 1)
  }

  /** The segment of an update that follows its validation. */
  function Settle(s: State, id: int, c: Command, proposed: Option<Proposal>, reply: Reply): State {
    if reply.Raises? then Release(s, id, Crashed)
    else if !reply.pass || reply.authenticated.None? then Release(s, id, Rejected(NotAuthorized))
    else
      Release(Store(s, c, proposed, reply.authenticated), id, if c.approval.Some? then ApprovalSubmitted else ProposalSubmitted)
  }

  /** One uninterrupted segment; a step that is not enabled changes nothing. */
  function Next(s: State, step: Step): State {
    match step
    case Start => if s.routine == NotStarted then StartRun(s) else s
    case Resume(reply) => if s.routine.Awaiting? then Continue(s, s.routine.stage, reply) else s
    case Wake => if s.routine == AwaitingApproval && s.approval.Some? then OpenGate(s) else s
    case Submit(id, command) =>
      if id in s.updates || id in s.receipts then s else s.(updates := s.updates[id := Queued(command)])
    case Enter(id) =>
      if id in s.updates && s.updates[id].Queued? && s.lock.None? then EnterLock(s, id, s.updates[id].command) else s
    case Return(id, reply) =>
      if id in s.updates && s.updates[id].Validating? then Settle(s, id, s.updates[id].held, s.updates[id].proposed, reply) else s
  }

  function Run(request: Request, steps: seq<Step>): State {
    if steps == [] then Initial(request) else Next(Run(request, steps[..|steps| - 1]), steps[|steps| - 1])
  }

  // ---- Invariant ---------------------------------------------------------------------

  predicate IsGate(entry: Log) { entry.Sent? && entry.packet.job == Main(Gate) }

  /** Stages the main routine can only stand at after the critic (or the
      verifier) passed. */
  predicate PastCritic(r: Routine) {
    r == Awaiting(Verify) || PastVerify(r)
  }

  predicate PastVerify(r: Routine) {
    r == Awaiting(OwnerWait) || r == AwaitingApproval || r == Awaiting(Gate) || r == Ended(GateDecided)
  }

  predicate GateSent(r: Routine) {
    r == Awaiting(Gate) || r == Ended(GateDecided)
  }

  /** The packets of a log, in order. */
  function Packets(log: seq<Log>): seq<Packet> {
    if log == [] then []
    else
      var before := Packets(log[..|log| - 1]);
      if log[|log| - 1].Sent? then before + [log[|log| - 1].packet] else before
  }

  ghost predicate DenseLog(s: State) {
    && |Packets(s.log)| == s.sequence
    && forall i | 0 <= i < s.sequence :: Packets(s.log)[i].sequence == i + 1
  }

  /** The gate went out at most once, behind both passes, with what is stored. */
  ghost predicate GateGood(s: State) {
    && (PastCritic(s.routine) || s.ready ==> Answered(Critic, true) in s.log)
    && (PastVerify(s.routine) || s.ready ==> Answered(Verify, true) in s.log)
    && (PastVerify(s.routine) ==> s.ready)
    && (forall i, j | 0 <= i < |s.log| && 0 <= j < |s.log| && IsGate(s.log[i]) && IsGate(s.log[j]) :: i == j)
    && (forall i | 0 <= i < |s.log| && IsGate(s.log[i]) ::
          && (GateSent(s.routine) || s.routine == Ended(Failed))
          && Answered(Critic, true) in s.log[..i] && Answered(Verify, true) in s.log[..i]
          && s.approval.Some? && s.log[i].packet.approval == s.approval && s.log[i].packet.proposal == s.proposal
          && s.log[i].packet.currentWitness == s.currentWitness && s.log[i].packet.actor.Some?)
  }

  /** What is stored hangs together, and the update that holds the lock still
      stands where its checks left it. */
  ghost predicate StoreGood(s: State) {
    && (s.approval.Some? ==>
          s.proposal.Some? && s.approval.value.proposalId == s.proposal.value.id
          && s.assertion.Some? && s.authenticated.Some? && s.ready)
    && (s.lock.Some? ==> s.lock.value in s.updates && s.updates[s.lock.value].Validating?)
    && (forall id | id in s.updates && s.updates[id].Validating? ::
          && s.lock == Some(id)
          && s.updates[id].proposed == Proposed(s, s.updates[id].held)
          && Refusal(s, Some(s.updates[id].held)) == None)
  }

  ghost predicate Inv(s: State) {
    DenseLog(s) && GateGood(s) && StoreGood(s)
  }

  /** What may never change once it is set. */
  ghost predicate Keeps(s: State, s': State) {
    && (s.proposal.Some? ==> s'.proposal == s.proposal)
    && (s.approval.Some? ==> s'.approval == s.approval && s'.currentWitness == s.currentWitness)
    && (s.ready ==> s'.ready)
    && s.log <= s'.log && s.request == s'.request
  }

  lemma SendPackets(log: seq<Log>, entry: Log)
    ensures Packets(log + [entry]) == if entry.Sent? then Packets(log) + [entry.packet] else Packets(log)
  {
    assert (log + [entry])[..|log|] == log;
  }

  lemma SendDense(s: State, packet: Packet)
    requires DenseLog(s)
    ensures DenseLog(Send(s, packet))
  {
    SendPackets(s.log, Sent(packet.(sequence := s.sequence + 1)));
  }

  lemma AnswerDense(s: State, entry: Log)
    requires DenseLog(s) && !entry.Sent?
    ensures DenseLog(s.(log := s.log + [entry]))
  {
    SendPackets(s.log, entry);
  }

  lemma ContinueDense(s: State, stage: Stage, reply: Reply)
    requires DenseLog(s)
    ensures DenseLog(Continue(s, stage, reply))
  {
    hide Packets;
    if reply.Outcome? {
      var t := s.(log := s.log + [Answered(stage, reply.pass)]);
      AnswerDense(s, Answered(stage, reply.pass));
      var next := Following(s.request, stage, reply);
      if next.Awaiting? {
        SendDense(t.(routine := next, ready := s.ready || next == Awaiting(OwnerWait)), Plain(next.stage));
      }
    }
  }

  /** Sending anything but the gate leaves the gate's history alone. */
  lemma GateAfter(s: State, s': State, entry: Log)
    requires GateGood(s) && !IsGate(entry) && s'.log == s.log + [entry]
    requires forall i | 0 <= i < |s.log| && IsGate(s.log[i]) :: GateSent(s'.routine) || s'.routine == Ended(Failed)
    requires PastCritic(s'.routine) || s'.ready ==> Answered(Critic, true) in s'.log
    requires PastVerify(s'.routine) || s'.ready ==> Answered(Verify, true) in s'.log
    requires PastVerify(s'.routine) ==> s'.ready
    requires s'.approval == s.approval && s'.proposal == s.proposal && s'.currentWitness == s.currentWitness
    ensures GateGood(s')
  {
    forall i | 0 <= i < |s'.log| && IsGate(s'.log[i])
      ensures i < |s.log| && s'.log[i] == s.log[i] && s'.log[..i] == s.log[..i]
    {
    }
  }

  lemma ContinueGate(s: State, reply: Reply)
    requires GateGood(s) && s.routine.Awaiting?
    ensures GateGood(Continue(s, s.routine.stage, reply))
  {
    hide Packets, RoleCount;
    var stage := s.routine.stage;
    if reply.Outcome? {
      var next, answer := Following(s.request, stage, reply), Answered(stage, reply.pass);
      var t := s.(routine := next, ready := s.ready || next == Awaiting(OwnerWait), log := s.log + [answer]);
      assert answer in t.log && forall x | x in s.log :: x in t.log;
      GateAfter(s, t, answer);
      if next.Awaiting? {
        var s' := Continue(s, stage, reply);
        var entry := s'.log[|t.log|];
        assert s'.log == t.log + [entry] && forall x | x in t.log :: x in s'.log;
        GateAfter(t, s', entry);
      }
    }
  }

  lemma ContinueStore(s: State, reply: Reply)
    requires StoreGood(s) && s.routine.Awaiting?
    ensures StoreGood(Continue(s, s.routine.stage, reply)) && Keeps(s, Continue(s, s.routine.stage, reply))
  {
    assert reply.Outcome? ==> !Following(s.request, s.routine.stage, reply).NotStarted?;
    hide Following;
  }

  lemma StartKeeps(s: State)
    requires Inv(s) && s.routine == NotStarted
    ensures Inv(StartRun(s)) && Keeps(s, StartRun(s))
  {
    hide Packets;
    var stage := if s.request.hasEvidence then Route else Acquire;
    SendDense(s.(routine := Awaiting(stage)), Plain(stage));
    assert StartRun(s).log == s.log + [StartRun(s).log[|s.log|]];
    GateAfter(s, StartRun(s), StartRun(s).log[|s.log|]);
  }

  /** The gate is scheduled: it is the first one, and carries what is stored. */
  lemma OpenGateKeeps(s: State)
    requires Inv(s) && s.routine == AwaitingApproval && s.approval.Some?
    ensures Inv(OpenGate(s)) && Keeps(s, OpenGate(s))
  {
    hide Packets;
    var s' := OpenGate(s);
    SendDense(s.(routine := Awaiting(Gate)), s'.log[|s.log|].packet);
    assert forall i | 0 <= i < |s.log| :: !IsGate(s.log[i]);
    assert s'.log[..|s.log|] == s.log && s'.log == s.log + [s'.log[|s.log|]];
  }

  /** Nothing the gate's history depends on moved. */
  lemma SameGate(s: State, s': State)
    requires GateGood(s) && s'.log == s.log && s'.routine == s.routine && s'.ready == s.ready
    requires s'.approval == s.approval && s'.proposal == s.proposal && s'.currentWitness == s.currentWitness
    ensures GateGood(s')
  {
  }

  lemma SubmitKeeps(s: State, id: int, command: Option<Command>)
    requires Inv(s) && id !in s.updates
    ensures var s' := s.(updates := s.updates[id := Queued(command)]); Inv(s') && Keeps(s, s')
  {
    hide Packets, Refusal, GateGood, DenseLog;
    var s' := s.(updates := s.updates[id := Queued(command)]);
    SameGate(s, s');
    assert DenseLog(s') by { SameDense(s, s'); }
    forall j | j in s'.updates && s'.updates[j].Validating?
      ensures s'.lock == Some(j) && Refusal(s', Some(s'.updates[j].held)) == Refusal(s, Some(s.updates[j].held))
    {
      SameRefusal(s, s', s.updates[j].held);
    }
  }

  lemma SameDense(s: State, s': State)
    requires DenseLog(s) && s'.log == s.log && s'.sequence == s.sequence
    ensures DenseLog(s')
  {
  }

  lemma SameRefusal(s: State, s': State, c: Command)
    requires s'.request == s.request && s'.ready == s.ready && s'.proposal == s.proposal && s'.approval == s.approval
    requires s'.currentWitness == s.currentWitness && (s'.routine.NotStarted? <==> s.routine.NotStarted?)
    ensures Refusal(s', Some(c)) == Refusal(s, Some(c))
  {
  }

  lemma ReleaseKeeps(s: State, id: int, receipt: Receipt)
    requires Inv(s) && id in s.updates && (s.lock == Some(id) || s.lock == None)
    ensures Inv(Release(s, id, receipt)) && Keeps(s, Release(s, id, receipt))
  {
    hide Packets, Refusal, GateGood, DenseLog;
    var s' := Release(s, id, receipt);
    SameGate(s, s');
    SameDense(s, s');
    assert forall j | j in s'.updates && s'.updates[j].Validating? :: s.lock == Some(j);
  }

  lemma EnterKeeps(s: State, id: int)
    requires Inv(s) && id in s.updates && s.updates[id].Queued? && s.lock.None?
    ensures Inv(EnterLock(s, id, s.updates[id].command)) && Keeps(s, EnterLock(s, id, s.updates[id].command))
  {
    hide Packets, GateGood, DenseLog;
    var command := s.updates[id].command;
    var s' := EnterLock(s, id, command);
    if Refusal(s, command).Some? {
      ReleaseKeeps(s, id, Rejected(Refusal(s, command).value));
    } else {
      var c := command.value;
      var locked := s.(lock := Some(id), updates := s.updates[id := Validating(c, Proposed(s, c))]);
      var entry := s'.log[|s.log|];
      SameDense(s, locked);
      SendDense(locked, entry.packet);
      EnterGate(s, s', entry);
      SameRefusal(s, s', c);
      assert forall j | j in s.updates :: !s.updates[j].Validating?;
    }
  }

  lemma EnterGate(s: State, s': State, entry: Log)
    requires GateGood(s) && !IsGate(entry) && s'.log == s.log + [entry] && s'.routine == s.routine && s'.ready == s.ready
    requires s'.approval == s.approval && s'.proposal == s.proposal && s'.currentWitness == s.currentWitness
    ensures GateGood(s')
  {
    assert forall x | x in s.log :: x in s'.log;
    GateAfter(s, s', entry);
  }

  /** Accepting a command never replaces a stored proposal or approval. */
  lemma SettleKeeps(s: State, id: int, reply: Reply)
    requires Inv(s) && id in s.updates && s.updates[id].Validating?
    ensures var s' := Settle(s, id, s.updates[id].held, s.updates[id].proposed, reply);
            Inv(s') && Keeps(s, s')
  {
    hide Packets, DenseLog;
    var c, proposed := s.updates[id].held, s.updates[id].proposed;
    var s' := Settle(s, id, c, proposed, reply);
    assert s.lock == Some(id) && Refusal(s, Some(c)) == None && proposed == Proposed(s, c);
    if reply.Raises? {
      ReleaseKeeps(s, id, Crashed);
    } else if !reply.pass || reply.authenticated.None? {
      ReleaseKeeps(s, id, Rejected(NotAuthorized));
    } else {
      SameDense(s, s');
      assert forall i | 0 <= i < |s.log| && IsGate(s.log[i]) :: s.approval.Some? && s.proposal.Some?;
      assert forall j | j in s'.updates :: !s'.updates[j].Validating?;
    }
  }

  lemma StepKeeps(s: State, step: Step)
    requires Inv(s)
    ensures Inv(Next(s, step)) && Keeps(s, Next(s, step))
  {
    hide Packets, DenseLog, GateGood, StoreGood, Continue, StartRun, OpenGate, EnterLock, Settle;
    match step {
      case Start => if s.routine == NotStarted { StartKeeps(s); }
      case Resume(reply) =>
        if s.routine.Awaiting? {
          ContinueDense(s, s.routine.stage, reply);
          ContinueGate(s, reply);
          ContinueStore(s, reply);
        }
      case Wake => if s.routine == AwaitingApproval && s.approval.Some? { OpenGateKeeps(s); }
      case Submit(id, command) => if id !in s.updates && id !in s.receipts { SubmitKeeps(s, id, command); }
      case Enter(id) => if id in s.updates && s.updates[id].Queued? && s.lock.None? { EnterKeeps(s, id); }
      case Return(id, reply) => if id in s.updates && s.updates[id].Validating? { SettleKeeps(s, id, reply); }
    }
  }

  // ---- Theorems over every interleaving ----------------------------------------------

  lemma {:induction false} Reachable(request: Request, steps: seq<Step>)
    ensures Inv(Run(request, steps))
    decreases |steps|
  {
    hide Next, Continue, EnterLock, Settle;
    if steps == [] {
      assert Packets(Initial(request).log) == [];
    } else {
      hide Packets;
      Reachable(request, steps[..|steps| - 1]);
      StepKeeps(Run(request, steps[..|steps| - 1]), steps[|steps| - 1]);
    }
  }

  /** A proposal or an approval that is set never changes, and packets already
      sent stay sent, however the routine and the updates interleave. */
  lemma {:induction false} StoredForever(request: Request, steps: seq<Step>, k: nat)
    requires k <= |steps|
    ensures Keeps(Run(request, steps[..k]), Run(request, steps))
    decreases |steps|
  {
    hide Packets, Next, Inv;
    if k == |steps| {
      assert steps[..k] == steps;
    } else {
      var n := |steps| - 1;
      assert steps[..n][..k] == steps[..k];
      StoredForever(request, steps[..n], k);
      Reachable(request, steps[..n]);
      StepKeeps(Run(request, steps[..n]), steps[n]);
      KeepsTwice(Run(request, steps[..k]), Run(request, steps[..n]), Run(request, steps));
    }
  }

  lemma KeepsTwice(a: State, b: State, c: State)
    requires Keeps(a, b) && Keeps(b, c)
    ensures Keeps(a, c)
  {
  }

  /** Owner gate safety: in every interleaving the gate is scheduled at most once,
      only behind a passing critic and a passing verifier, with the stored proposal
      and an approval that names it; and packets are numbered 1..n. */
  lemma GateSafety(request: Request, steps: seq<Step>)
    ensures var s := Run(request, steps);
            && (s.approval.Some? ==> s.proposal.Some? && s.approval.value.proposalId == s.proposal.value.id)
            && (forall i, j | 0 <= i < |s.log| && 0 <= j < |s.log| && IsGate(s.log[i]) && IsGate(s.log[j]) :: i == j)
            && (forall i | 0 <= i < |s.log| && IsGate(s.log[i]) ::
                  && Answered(Critic, true) in s.log[..i] && Answered(Verify, true) in s.log[..i]
                  && s.approval.Some? && s.log[i].packet.approval == s.approval && s.log[i].packet.proposal == s.proposal
                  && s.log[i].packet.currentWitness == s.currentWitness && s.log[i].packet.actor.Some?)
            && |Packets(s.log)| == s.sequence
            && (forall i | 0 <= i < s.sequence :: Packets(s.log)[i].sequence == i + 1)
  {
    Reachable(request, steps);
    hide Run;
  }

  /** Everything of a workflow but its packets, its receipts and the lock. */
  predicate SameStore(a: State, b: State) {
    && a.routine == b.routine && a.proposal == b.proposal && a.approval == b.approval
    && a.currentWitness == b.currentWitness && a.assertion == b.assertion && a.authenticated == b.authenticated
    && a.ready == b.ready && a.commands == b.commands
  }

  /** A rejected command changes nothing: refused under the lock it does not even
      take a sequence number, refused by its validation it has taken exactly one. */
  lemma RejectedChangesNothing(s: State, id: int, reply: Reply)
    requires Inv(s) && id in s.updates
    ensures var s' := Next(s, Enter(id));
            s.updates[id].Queued? && s.lock.None? ==>
              && SameStore(s, s')
              && (if Refusal(s, s.updates[id].command).Some?
                  then s'.sequence == s.sequence && s'.log == s.log && id in s'.receipts && s'.receipts[id].Rejected?
                  else s'.sequence == s.sequence + 1 && |s'.log| == |s.log| + 1 && id in s'.updates && s'.updates[id].Validating?)
    ensures var s' := Next(s, Return(id, reply));
            s.updates[id].Validating? ==>
              && id in s'.receipts && s'.sequence == s.sequence && s'.log == s.log
              && (s'.receipts[id].Rejected? || s'.receipts[id].Crashed? ==> SameStore(s, s'))
              && (s'.receipts[id].Rejected? || s'.receipts[id].Crashed? <==>
                    reply.Raises? || !reply.pass || reply.authenticated.None?)
  {
    hide Inv, Packets;
  }

  /** What the checks under the lock let through: a command for this very workflow,
      while owner updates are let in, whose storing would change nothing that is set
      and would leave an approval that names the stored proposal. */
  lemma RefusalMeans(s: State, command: Option<Command>)
    ensures Refusal(s, command).None? <==> command.Some? && Welcome(s, command.value)
  {
  }

  ghost predicate Welcome(s: State, c: Command) {
    var after := Store(s, c, Proposed(s, c), None);
    && s.routine != NotStarted && s.ready && c.caseId == s.request.caseId && c.tenantId == s.request.tenantId
    && Keeps(s, after)
    && (c.approval.Some? ==>
          && after.approval.Some? && after.proposal.Some? && after.approval.value.proposalId == after.proposal.value.id
          && (c.proposalId.Some? ==> c.proposalId.value == after.proposal.value.id))
  }

  /** Once an approval is stored, the only accepted approvals repeat it word for
      word, and all they replace is who vouched for it. */
  lemma ReapprovalOnlyRestatesWho(s: State, id: int, reply: Reply)
    requires Inv(s) && id in s.updates && s.updates[id].Validating? && s.approval.Some?
    ensures var c, s' := s.updates[id].held, Next(s, Return(id, reply));
            && SameStore(s, s'.(assertion := s.assertion, authenticated := s.authenticated, commands := s.commands))
            && (s'.assertion != s.assertion || s'.authenticated != s.authenticated ==>
                  c.approval == s.approval && c.currentWitness == s.currentWitness
                  && s'.assertion == Some(c.assertion) && s'.authenticated == reply.authenticated)
  {
    hide Packets, DenseLog, GateGood;
    assert s.updates[id].proposed == Proposed(s, s.updates[id].held) && Refusal(s, Some(s.updates[id].held)) == None;
  }
}
