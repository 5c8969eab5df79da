/** The workflow object, segment by segment: each method is what runs between
    two awaits, and its effect is one step of the interleaving model. */
module OwnerWorkflow {
  import opened Options
  import opened OwnerGate

  class LegacyDiagnosisWorkflow {
    const request: Request
    var routine: Routine
    var sequence: nat
    var proposal: Option<Proposal>
    var approval: Option<Approval>
    var currentWitness: int
    var assertion: Option<int>
    var authenticated: Option<int>
    var ready: bool
    var commands: nat
    var lock: Option<int>
    var updates: map<int, Update>
    var receipts: map<int, Receipt>
    var log: seq<Log>

    ghost function AsState(): State
      reads this
    {
      State(request, routine, sequence, proposal, approval, currentWitness, assertion, authenticated,
            ready, commands, lock, updates, receipts, log)
    }

    /** The gate invariant: whatever the interleaving, at most one gate went out,
        behind both passes, with what is stored; see `GateSafety`. */
    ghost predicate Valid()
      reads this
    {
      Inv(AsState())
    }

    constructor (request: Request)
      ensures this.request == request && AsState() == Initial(request)
      ensures Valid()
    {
      InitialGood(request);
      this.request := request;
      routine, sequence, proposal, approval, currentWitness := NotStarted, 0, None, None, 0;
      assertion, authenticated, ready, commands := None, None, false, 0;
      lock, updates, receipts, log := None, map[], map[], [];
    }

    method SendPacket(packet: Packet)
      modifies this`sequence, this`log
      ensures AsState() == Send(old(AsState()), packet)
    {
      sequence := sequence + 1;
      log := log + [Sent(packet.(sequence := sequence))];
    }

    method RunFromStart()
      requires Valid() && routine == NotStarted
      modifies this
      ensures Valid() && Keeps(old(AsState()), AsState())
      ensures AsState() == Next(old(AsState()), Start)
    {
      hide Inv, Keeps;
      StepKeeps(AsState(), Start);
      if request.hasEvidence {
        routine := Awaiting(Route);
        SendPacket(Plain(Route));
      } else {
        routine := Awaiting(Acquire);
        SendPacket(Plain(Acquire));
      }
    }

    method ResumeRun(reply: Reply)
      requires Valid() && routine.Awaiting?
      modifies this
      ensures Valid() && Keeps(old(AsState()), AsState())
      ensures AsState() == Next(old(AsState()), Resume(reply))
    {
      hide Inv, Keeps;
      StepKeeps(AsState(), Resume(reply));
      var stage := routine.stage;
      if reply.Raises? {
        routine := Ended(Failed);
        return;
      }
      log := log + [Answered(stage, reply.pass)];
      routine := Following(request, stage, reply);
      if routine == Awaiting(OwnerWait) { ready := true; }
      if routine.Awaiting? { SendPacket(Plain(routine.stage)); }
    }

    /** The gate goes out for the first and only time, behind a passing critic and a
        passing verifier, with the stored proposal and an approval that names it. */
    method WakeRun()
      requires Valid() && routine == AwaitingApproval && approval.Some?
      modifies this
      ensures Valid() && Keeps(old(AsState()), AsState())
      ensures AsState() == Next(old(AsState()), Wake)
      ensures |log| == |old(log)| + 1 && IsGate(log[|old(log)|]) && forall i | 0 <= i < |old(log)| :: !IsGate(log[i])
      ensures Answered(Critic, true) in old(log) && Answered(Verify, true) in old(log)
      ensures var packet := log[|old(log)|].packet;
              && packet.proposal == proposal && packet.approval == approval && packet.actor == authenticated
              && proposal.Some? && approval.Some? && approval.value.proposalId == proposal.value.id && authenticated.Some?
    {
      OnlyGate(AsState());
      StepKeeps(AsState(), Wake);
      hide Inv, Keeps;
      routine := Awaiting(Gate);
      SendPacket(Packet(0, Main(Gate), proposal, approval, currentWitness, assertion, authenticated, IdOf(proposal)));
    }

    /** An update takes the lock, checks, and asks for its validation. A refused one
        changes nothing of the workflow but its own receipt. */
    method EnterUpdate(id: int)
      requires Valid() && id in updates && updates[id].Queued? && lock.None?
      modifies this
      ensures Valid() && Keeps(old(AsState()), AsState())
      ensures AsState() == Next(old(AsState()), Enter(id))
      ensures SameStore(old(AsState()), AsState())
      ensures lock.None? <==> id in receipts && receipts[id].Rejected? && id !in updates
      ensures lock.None? ==> sequence == old(sequence) && log == old(log)
      ensures lock.Some? ==> lock == Some(id) && sequence == old(sequence) + 1 && Welcome(old(AsState()), updates[id].held)
    {
      StepKeeps(AsState(), Enter(id));
      RejectedChangesNothing(AsState(), id, Raises);
      RefusalMeans(AsState(), updates[id].command);
      hide Inv, Keeps, Refusal, Welcome, SameStore, Continue, OpenGate, StartRun, Settle, Store, Release;
      var command := updates[id].command;
      var refusal := CheckCommand(command);
      if refusal.Some? {
        Finish(id, Rejected(refusal.value));
        return;
      }
      var c := command.value;
      var proposed := if c.proposal.Some? then c.proposal else proposal;
      lock, updates := Some(id), updates[id := Validating(c, proposed)];
      SendPacket(Packet(0, Validation, c.proposal, c.approval, c.currentWitness, Some(c.assertion), None, IdOf(proposed)));
    }

    /** No reason against a command means that it is for this workflow, that updates
        are let in, that storing it would change nothing that is set, and that its
        approval would name the stored proposal; otherwise the first failing check. */
    method CheckCommand(command: Option<Command>) returns (reason: Option<Reason>)
      requires Valid()
      ensures reason.None? <==> command.Some? && Welcome(AsState(), command.value)
      ensures reason == Refusal(AsState(), command)
    {
      RefusalMeans(AsState(), command);
      hide Inv, Keeps, Welcome;
      if command.None? { return Some(Malformed); }
      var c := command.value;
      if routine == NotStarted { return Some(NotInitialized); }
      if c.caseId != request.caseId || c.tenantId != request.tenantId { return Some(ScopeMismatch); }
      if !ready { return Some(NotReady); }
      var proposed := if c.proposal.Some? then c.proposal else proposal;
      if c.proposal.Some? && proposal.Some? && proposal != c.proposal { return Some(ProposalImmutable); }
      if c.approval.Some? {
        if proposed.None? || c.approval.value.proposalId != proposed.value.id { return Some(UnknownProposal); }
        if c.proposalId.Some? && c.proposalId.value != proposed.value.id { return Some(ProposalIdMismatch); }
        if approval.Some? && (approval != c.approval || currentWitness != c.currentWitness) { return Some(ApprovalImmutable); }
      }
      reason := None;
    }

    /** The validation of the update that holds the lock has come back. Whatever it
        says, a stored proposal or approval stays as it is, the lock is free and the
        update has a receipt; unless it was vouched for, nothing is stored. */
    method SettleUpdate(id: int, reply: Reply)
      requires Valid() && id in updates && updates[id].Validating?
      modifies this
      ensures Valid() && Keeps(old(AsState()), AsState())
      ensures AsState() == Next(old(AsState()), Return(id, reply))
      ensures lock.None? && id !in updates && id in receipts && log == old(log) && sequence == old(sequence)
      ensures reply.Raises? || !reply.pass || reply.authenticated.None? <==> receipts[id].Rejected? || receipts[id].Crashed?
      ensures receipts[id].Rejected? || receipts[id].Crashed? ==> SameStore(old(AsState()), AsState())
    {
      StepKeeps(AsState(), Return(id, reply));
      RejectedChangesNothing(AsState(), id, reply);
      hide Inv, Keeps, SameStore, Refusal, EnterLock, Continue, OpenGate, StartRun, Store, Release;
      var c, proposed := updates[id].held, updates[id].proposed;
      if reply.Raises? {
        Finish(id, Crashed);
      } else if !reply.pass || reply.authenticated.None? {
        Finish(id, Rejected(NotAuthorized));
      } else {
        StoreCommand(c, proposed, reply.authenticated);
        Finish(id, if c.approval.Some? then ApprovalSubmitted else ProposalSubmitted);
      }
    }

    method StoreCommand(c: Command, proposed: Option<Proposal>, actor: Option<int>)
      modifies this`proposal, this`approval, this`currentWitness, this`assertion, this`authenticated, this`commands
      ensures AsState() == Store(old(AsState()), c, proposed, actor)
    {
      proposal, commands := proposed, commands + 1;
      if c.approval.Some? {
        approval, currentWitness, assertion, authenticated := c.approval, c.currentWitness, Some(c.assertion), actor;
      }
    }

    /** The update is over and the lock is free. */
    method Finish(id: int, receipt: Receipt)
      modifies this`lock, this`updates, this`receipts
      ensures AsState() == Release(old(AsState()), id, receipt)
    {
      lock, updates, receipts := None, updates - {id}, receipts[id := receipt];
    }
  }

  lemma InitialGood(request: Request)
    ensures Inv(Initial(request))
  {
    assert Packets(Initial(request).log) == [];
  }

  /** While the routine waits for an approval no gate has gone out. */
  lemma OnlyGate(s: State)
    requires Inv(s) && s.routine == AwaitingApproval && s.approval.Some?
    ensures forall i | 0 <= i < |s.log| :: !IsGate(s.log[i])
    ensures Answered(Critic, true) in s.log && Answered(Verify, true) in s.log
    ensures s.proposal.Some? && s.approval.value.proposalId == s.proposal.value.id && s.authenticated.Some?
  {
    hide Packets;
  }
}
