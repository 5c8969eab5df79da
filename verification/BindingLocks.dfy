/** Concurrent writers of the run binding: three advisory locks in name order,
    three reads, one insert. Lock keys are hashes of lock names, and nothing is
    assumed of the hash unless a lemma says so. */
module BindingLocks {
  import opened Options

  datatype Binding = Binding(
    tenant: int, run: int, topology: int, caseId: int, caseRevision: int, workflow: int, workflowRun: int, incident: int)

  /** Names of different kinds differ in their prefix, which also orders them:
      case before public run before temporal. */
  datatype LockName = CaseLock(tenant: int, caseId: int) | RunLock(tenant: int, run: int) | TemporalLock(tenant: int, workflow: int, workflowRun: int)

  function Kind(name: LockName): nat {
    match name case CaseLock(_, _) => 0 case RunLock(_, _) => 1 case TemporalLock(_, _, _) => 2
  }

  function Names(b: Binding): (names: seq<LockName>)
    ensures |names| == 3 && forall i | 0 <= i < 3 :: Kind(names[i]) == i
  {
    [CaseLock(b.tenant, b.caseId), RunLock(b.tenant, b.run), TemporalLock(b.tenant, b.workflow, b.workflowRun)]
  }

  predicate SameRun(a: Binding, b: Binding) { a.tenant == b.tenant && a.run == b.run }

  predicate SameCase(a: Binding, b: Binding) { a.tenant == b.tenant && a.caseId == b.caseId }

  predicate SameTemporal(a: Binding, b: Binding) {
    a.tenant == b.tenant && a.workflow == b.workflow && a.workflowRun == b.workflowRun
  }

  /** The bindings share an identity axis. */
  predicate SharesAxis(a: Binding, b: Binding) {
    SameRun(a, b) || SameCase(a, b) || SameTemporal(a, b)
  }

  datatype Outcome = Written | AlreadyBound | ReboundTopology | BindingMismatch | CaseRebound | TemporalRebound

  datatype Writer = Writer(binding: Binding, taken: nat, cleared: bool)

  datatype State = State(key: LockName -> int, bindings: set<Binding>, locks: map<int, int>, writers: map<int, Writer>, outcomes: map<int, Outcome>)

  datatype Step = Begin(id: int, binding: Binding) | Lock(id: int) | Read(id: int) | Commit(id: int)

  function Initial(key: LockName -> int): State {
    State(key, {}, map[], map[], map[])
  }

  /** The three reads, in order; None lets the insert go ahead. */
  function Conflict(bindings: set<Binding>, b: Binding): Option<Outcome> {
    if b in bindings then Some(AlreadyBound)
    else if exists x :: x in bindings && SameRun(x, b) then
      Some(if exists x :: x in bindings && SameRun(x, b) && x.topology != b.topology then ReboundTopology else BindingMismatch)
    else if exists x :: x in bindings && SameCase(x, b) then Some(CaseRebound)
    else if exists x :: x in bindings && SameTemporal(x, b) then Some(TemporalRebound)
    else None
  }

  /** The transaction ends and its locks go with it. */
  function End(s: State, id: int, outcome: Outcome): State {
    s.(writers := s.writers - {id}, outcomes := s.outcomes[id := outcome],
       locks := map k | k in s.locks && s.locks[k] != id :: s.locks[k])
  }

  function NextKey(s: State, w: Writer): int
    requires w.taken < 3
  {
    s.key(Names(w.binding)[w.taken])
  }

  /** A step that is not enabled, as when its lock is held by another, changes nothing. */
  function Next(s: State, step: Step): State {
    match step
    case Begin(id, binding) =>
      if id in s.writers || id in s.outcomes then s else s.(writers := s.writers[id := Writer(binding, 0, false)])
    case Lock(id) =>
      if id !in s.writers || s.writers[id].taken >= 3 then s
      else
        var k := NextKey(s, s.writers[id]);
        if k in s.locks && s.locks[k] != id then s
        else s.(locks := s.locks[k := id], writers := s.writers[id := s.writers[id].(taken := s.writers[id].taken + 1)])
    case Read(id) =>
      if id !in s.writers || s.writers[id].taken != 3 || s.writers[id].cleared then s
      else
        var conflict := Conflict(s.bindings, s.writers[id].binding);
        if conflict.Some? then End(s, id, conflict.value) else s.(writers := s.writers[id := s.writers[id].(cleared := true)])
    case Commit(id) =>
      if id !in s.writers || !s.writers[id].cleared then s
      else End(s, id, Written).(bindings := s.bindings + {s.writers[id].binding})
  }

  function Run(key: LockName -> int, steps: seq<Step>): State {
    if steps == [] then Initial(key) else Next(Run(key, steps[..|steps| - 1]), steps[|steps| - 1])
  }

  // ---- Invariant --------------------------------------------------------------------

  ghost predicate Holds(s: State, id: int, i: nat)
    requires id in s.writers && i < 3
  {
    var k := s.key(Names(s.writers[id].binding)[i]);
    k in s.locks && s.locks[k] == id
  }

  /** Every held key belongs to one of its holder's names taken so far. */
  ghost predicate Owned(s: State, k: int)
    requires k in s.locks
  {
    s.locks[k] in s.writers
    && exists i :: 0 <= i < s.writers[s.locks[k]].taken <= 3 && s.key(Names(s.writers[s.locks[k]].binding)[i]) == k
  }

  ghost predicate OneToOne(bindings: set<Binding>) {
    forall a, b | a in bindings && b in bindings && SharesAxis(a, b) :: a == b
  }

  ghost predicate WritersGood(s: State) {
    forall id | id in s.writers ::
      && s.writers[id].taken <= 3
      && (forall i | 0 <= i < s.writers[id].taken :: Holds(s, id, i))
      && (s.writers[id].cleared ==>
            s.writers[id].taken == 3 && forall b | b in s.bindings :: !SharesAxis(b, s.writers[id].binding))
  }

  ghost predicate Inv(s: State) {
    && OneToOne(s.bindings) && WritersGood(s)
    && (forall k | k in s.locks :: Owned(s, k))
  }

  /** Any two writers that share an axis share a lock. */
  lemma SharedAxisSharedLock(a: Binding, b: Binding)
    ensures SharesAxis(a, b) <==> exists i :: 0 <= i < 3 && Names(a)[i] == Names(b)[i]
  {
    if SameCase(a, b) { assert Names(a)[0] == Names(b)[0]; }
    if SameRun(a, b) { assert Names(a)[1] == Names(b)[1]; }
    if SameTemporal(a, b) { assert Names(a)[2] == Names(b)[2]; }
  }

  /** Two writers that hold all their locks share no axis, whatever the hash. */
  lemma HoldersDisjoint(s: State, a: int, b: int)
    requires Inv(s) && a in s.writers && b in s.writers && a != b
    requires s.writers[a].taken == 3 && s.writers[b].taken == 3
    ensures !SharesAxis(s.writers[a].binding, s.writers[b].binding)
  {
    SharedAxisSharedLock(s.writers[a].binding, s.writers[b].binding);
    forall i | 0 <= i < 3 ensures Names(s.writers[a].binding)[i] != Names(s.writers[b].binding)[i] {
      assert Holds(s, a, i) && Holds(s, b, i);
    }
  }

  lemma ConflictFree(bindings: set<Binding>, b: Binding)
    requires Conflict(bindings, b).None?
    ensures forall x | x in bindings :: !SharesAxis(x, b)
  {
  }

  lemma OwnedStill(s: State, s': State, k: int)
    requires k in s.locks && Owned(s, k) && k in s'.locks && s'.locks[k] == s.locks[k] && s'.key == s.key
    requires var id := s.locks[k];
             id in s'.writers && s'.writers[id].binding == s.writers[id].binding && s.writers[id].taken <= s'.writers[id].taken <= 3
    ensures Owned(s', k)
  {
    var i :| 0 <= i < s.writers[s.locks[k]].taken <= 3 && s.key(Names(s.writers[s.locks[k]].binding)[i]) == k;
    assert s'.key(Names(s'.writers[s'.locks[k]].binding)[i]) == k;
  }

  lemma EndKeeps(s: State, id: int, outcome: Outcome)
    requires Inv(s) && id in s.writers
    ensures Inv(End(s, id, outcome))
  {
    var s' := End(s, id, outcome);
    forall k | k in s'.locks ensures Owned(s', k) {
      assert k in s.locks && Owned(s, k);
      OwnedStill(s, s', k);
    }
    forall other, i | other in s'.writers && 0 <= i < s'.writers[other].taken ensures Holds(s', other, i) {
      assert Holds(s, other, i);
    }
  }

  lemma LockKeeps(s: State, id: int)
    requires Inv(s)
    ensures Inv(Next(s, Lock(id)))
  {
    var s' := Next(s, Lock(id));
    if s' != s {
      var n := s.writers[id].taken;
      assert s'.key(Names(s'.writers[id].binding)[n]) == NextKey(s, s.writers[id]);
      forall k | k in s'.locks ensures Owned(s', k) {
        if k in s.locks && s.locks[k] == s'.locks[k] { OwnedStill(s, s', k); }
      }
      forall other, i | other in s'.writers && 0 <= i < s'.writers[other].taken ensures Holds(s', other, i) {
        assert i < s.writers[other].taken ==> Holds(s, other, i);
      }
    }
  }

  lemma CommitKeeps(s: State, id: int)
    requires Inv(s) && id in s.writers && s.writers[id].cleared
    ensures Inv(Next(s, Commit(id)))
  {
    var ended, s' := End(s, id, Written), Next(s, Commit(id));
    EndKeeps(s, id, Written);
    forall other | other in s'.writers && s'.writers[other].cleared
      ensures forall b | b in s'.bindings :: !SharesAxis(b, s'.writers[other].binding)
    {
      HoldersDisjoint(s, id, other);
    }
    forall other, i | other in s'.writers && 0 <= i < s'.writers[other].taken ensures Holds(s', other, i) {
      assert Holds(ended, other, i);
    }
    forall k | k in s'.locks ensures Owned(s', k) { OwnedStill(ended, s', k); }
  }

  lemma ReadKeeps(s: State, id: int)
    requires Inv(s)
    ensures Inv(Next(s, Read(id)))
  {
    hide Conflict;
    var s' := Next(s, Read(id));
    if s' != s {
      var conflict := Conflict(s.bindings, s.writers[id].binding);
      if conflict.Some? {
        EndKeeps(s, id, conflict.value);
      } else {
        ConflictFree(s.bindings, s.writers[id].binding);
        SameHolding(s, s');
      }
    }
  }

  /** Neither locks nor what writers took changed. */
  lemma SameHolding(s: State, s': State)
    requires Inv(s) && s'.locks == s.locks && s'.key == s.key
    requires forall id | id in s.writers ::
               id in s'.writers && s'.writers[id].binding == s.writers[id].binding && s'.writers[id].taken == s.writers[id].taken
    requires forall id | id in s'.writers && id !in s.writers :: s'.writers[id].taken == 0
    ensures forall k | k in s'.locks :: Owned(s', k)
    ensures forall id, i | id in s'.writers && 0 <= i < s'.writers[id].taken :: Holds(s', id, i)
  {
    forall k | k in s'.locks ensures Owned(s', k) { OwnedStill(s, s', k); }
    forall id, i | id in s'.writers && 0 <= i < s'.writers[id].taken ensures Holds(s', id, i) { assert Holds(s, id, i); }
  }

  lemma StepKeeps(s: State, step: Step)
    requires Inv(s)
    ensures Inv(Next(s, step))
  {
    match step {
      case Begin(id, binding) => SameHolding(s, Next(s, step));
      case Lock(id) => LockKeeps(s, id);
      case Read(id) => ReadKeeps(s, id);
      case Commit(id) => if id in s.writers && s.writers[id].cleared { CommitKeeps(s, id); }
    }
  }

  lemma {:induction false} Reachable(key: LockName -> int, steps: seq<Step>)
    ensures Inv(Run(key, steps)) && Run(key, steps).key == key
    decreases |steps|
  {
    hide Next, Inv;
    if steps == [] {
      StartsGood(key);
    } else {
      Reachable(key, steps[..|steps| - 1]);
      StepKeeps(Run(key, steps[..|steps| - 1]), steps[|steps| - 1]);
      KeyKept(Run(key, steps[..|steps| - 1]), steps[|steps| - 1]);
    }
  }

  lemma StartsGood(key: LockName -> int)
    ensures Inv(Initial(key))
  {
  }

  lemma KeyKept(s: State, step: Step)
    ensures Next(s, step).key == s.key
    ensures s.bindings <= Next(s, step).bindings
  {
    hide Conflict;
  }

  /** Identity bijection: under any interleaving of writers, and for any hash of
      the lock names, public run, case and Temporal execution stay in a three-way
      one-to-one relation per tenant. */
  lemma IdentityBijection(key: LockName -> int, steps: seq<Step>, a: Binding, b: Binding)
    requires a in Run(key, steps).bindings && b in Run(key, steps).bindings && a.tenant == b.tenant
    ensures a.run == b.run <==> a == b
    ensures a.caseId == b.caseId <==> a == b
    ensures (a.workflow == b.workflow && a.workflowRun == b.workflowRun) <==> a == b
  {
    Reachable(key, steps);
    hide Run, WritersGood;
    assert SharesAxis(a, b) ==> a == b;
  }

  /** The reads and the insert as one writer runs them while it holds its locks. */
  class BindingStore {
    var bindings: set<Binding>

    constructor ()
      ensures bindings == {}
    {
      bindings := {};
    }

    /** The same binding again is returned; one that shares an axis with another is
        refused by the axis it shares first; a new one is written and the relation
        stays one-to-one. */
    method PutWorkspaceBinding(b: Binding) returns (outcome: Outcome)
      requires OneToOne(bindings)
      modifies this
      ensures OneToOne(bindings)
      ensures outcome == match Conflict(old(bindings), b) case Some(o) => o case None => Written
      ensures bindings == if outcome == Written then old(bindings) + {b} else old(bindings)
    {
      if existing :| existing in bindings && SameRun(existing, b) {
        assert forall x | x in bindings && SameRun(x, b) :: SharesAxis(x, existing) && x == existing;
        if existing == b { return AlreadyBound; }
        return if existing.topology != b.topology then ReboundTopology else BindingMismatch;
      }
      if rebound :| rebound in bindings && SameCase(rebound, b) { return CaseRebound; }
      if rebound :| rebound in bindings && SameTemporal(rebound, b) { return TemporalRebound; }
      ConflictFree(bindings, b);
      bindings := bindings + {b};
      outcome := Written;
    }
  }
}
