/** Who waits for whom among the writers of the run binding: sorted acquisition,
    the collisions under which it still deadlocks, and exactly those. */
module BindingWaits {
  import opened BindingLocks

  /** Writer `a` waits for a lock that writer `b` holds. */
  predicate WaitsFor(s: State, a: int, b: int) {
    a != b && a in s.writers && s.writers[a].taken < 3
    && NextKey(s, s.writers[a]) in s.locks && s.locks[NextKey(s, s.writers[a])] == b
  }

  /** The bindings whose writers a run begins. */
  function Begun(steps: seq<Step>): set<Binding> {
    set step | step in steps && step.Begin? :: step.binding
  }

  lemma {:induction false} WritersBegun(key: LockName -> int, steps: seq<Step>)
    ensures forall id | id in Run(key, steps).writers :: Run(key, steps).writers[id].binding in Begun(steps)
    decreases |steps|
  {
    hide Conflict;
    if steps != [] {
      var n := |steps| - 1;
      var before, after := Run(key, steps[..n]), Run(key, steps);
      WritersBegun(key, steps[..n]);
      assert forall b | b in Begun(steps[..n]) :: b in Begun(steps);
      forall id | id in after.writers ensures after.writers[id].binding in Begun(steps) {
        if id !in before.writers { assert steps[n] in steps && steps[n].Begin?; }
      }
    }
  }

  /** The hash keeps the lock names of these bindings apart where their kinds differ. */
  ghost predicate KindsApart(key: LockName -> int, bindings: set<Binding>) {
    forall a, b, i, j | a in bindings && b in bindings && 0 <= i < 3 && 0 <= j < 3 && i != j ::
      key(Names(a)[i]) != key(Names(b)[j])
  }

  ghost predicate WritersOf(s: State, bindings: set<Binding>) {
    forall id | id in s.writers :: s.writers[id].binding in bindings
  }

  lemma WaitClimbs(s: State, bindings: set<Binding>, a: int, b: int)
    requires Inv(s) && WritersOf(s, bindings) && KindsApart(s.key, bindings) && WaitsFor(s, a, b)
    ensures b in s.writers && s.writers[a].taken < s.writers[b].taken
  {
    var k := NextKey(s, s.writers[a]);
    assert Owned(s, k);
    var i :| 0 <= i < s.writers[b].taken <= 3 && s.key(Names(s.writers[b].binding)[i]) == k;
  }

  ghost predicate WaitChain(s: State, chain: seq<int>) {
    forall i | 0 <= i < |chain| - 1 :: WaitsFor(s, chain[i], chain[i + 1])
  }

  lemma {:induction false} ChainClimbs(s: State, bindings: set<Binding>, chain: seq<int>)
    requires Inv(s) && WritersOf(s, bindings) && KindsApart(s.key, bindings) && WaitChain(s, chain) && |chain| >= 2
    ensures chain[0] in s.writers && chain[|chain| - 1] in s.writers
    ensures s.writers[chain[0]].taken < s.writers[chain[|chain| - 1]].taken
    decreases |chain|
  {
    hide Inv, KindsApart;
    var n := |chain| - 1;
    assert WaitsFor(s, chain[n - 1], chain[n]);
    WaitClimbs(s, bindings, chain[n - 1], chain[n]);
    if n > 1 {
      assert WaitChain(s, chain[..n]) by {
        forall i | 0 <= i < n - 1 ensures WaitsFor(s, chain[..n][i], chain[..n][i + 1]) {
          assert WaitsFor(s, chain[i], chain[i + 1]);
        }
      }
      ChainClimbs(s, bindings, chain[..n]);
    }
  }

  /** Sorted acquisition admits no wait cycle as long as no two lock names of
      different kinds, among the names of the writers that were begun, hash to
      one key. */
  lemma NoWaitCycle(key: LockName -> int, steps: seq<Step>, chain: seq<int>)
    requires KindsApart(key, Begun(steps)) && |chain| >= 2 && WaitChain(Run(key, steps), chain)
    ensures chain[0] != chain[|chain| - 1]
  {
    hide Run, Begun;
    Reachable(key, steps);
    WritersBegun(key, steps);
    ChainClimbs(Run(key, steps), Begun(steps), chain);
  }

  // ---- When writers deadlock -------------------------------------------------------------

  /** The keys a writer holds once it has taken its first `n` locks. */
  function Held(key: LockName -> int, b: Binding, n: nat): (keys: seq<int>)
    requires n <= 3
    ensures |keys| == n && forall i | 0 <= i < n :: keys[i] == key(Names(b)[i])
  {
    seq(n, i requires 0 <= i < 3 => key(Names(b)[i]))
  }

  function After(i: nat, n: nat): (j: nat)
    requires i < n
    ensures j < n
  {
    if i + 1 == n then 0 else i + 1
  }

  predicate WaitsForNext(s: State, ids: seq<int>, i: nat)
    requires i < |ids|
  {
    WaitsFor(s, ids[i], ids[After(i, |ids|)])
  }

  /** Different writers, each waiting for the next and the last for the first. */
  ghost predicate WaitRing(s: State, ids: seq<int>) {
    && (forall i, j | 0 <= i < j < |ids| :: ids[i] != ids[j])
    && (forall i: nat | i < |ids| :: WaitsForNext(s, ids, i))
  }

  ghost predicate Deadlocked(s: State, ids: seq<int>, bindings: seq<Binding>) {
    && |ids| == |bindings| && WaitRing(s, ids)
    && forall i | 0 <= i < |ids| :: ids[i] in s.writers && s.writers[ids[i]].binding == bindings[i]
  }

  /** Some run stops writers of these bindings in a ring. */
  ghost predicate CanDeadlock(key: LockName -> int, bindings: seq<Binding>) {
    exists steps, ids :: Deadlocked(Run(key, steps), ids, bindings)
  }

  /** What one wants next is among what the other holds. */
  predicate Wants(key: LockName -> int, a: Binding, i: nat, b: Binding, j: nat)
    requires i < 3 && j < 3
  {
    key(Names(a)[i]) in Held(key, b, j)
  }

  predicate Apart(key: LockName -> int, a: Binding, i: nat, b: Binding, j: nat)
    requires i < 3 && j < 3
  {
    forall k | k in Held(key, a, i) :: k !in Held(key, b, j)
  }

  predicate WantsNext(key: LockName -> int, bindings: seq<Binding>, taken: seq<nat>, i: nat)
    requires i < |taken| == |bindings| && forall k | 0 <= k < |taken| :: taken[k] < 3
  {
    var j := After(i, |taken|);
    Wants(key, bindings[i], taken[i], bindings[j], taken[j])
  }

  /** With `taken[i]` locks each, no two of them hold the same key and each wants
      next what the following one holds. */
  ghost predicate CrossedAt(key: LockName -> int, bindings: seq<Binding>, taken: seq<nat>) {
    && |taken| == |bindings| && (forall i | 0 <= i < |taken| :: taken[i] < 3)
    && (forall i: nat | i < |taken| :: WantsNext(key, bindings, taken, i))
    && (forall i: nat, j: nat | i < j < |taken| :: Apart(key, bindings[i], taken[i], bindings[j], taken[j]))
  }

  ghost predicate Crossed(key: LockName -> int, bindings: seq<Binding>) {
    exists taken :: CrossedAt(key, bindings, taken)
  }

  lemma HeldByPrefix(s: State, id: int, k: int)
    requires Inv(s) && id in s.writers && s.writers[id].taken <= 3
    ensures k in Held(s.key, s.writers[id].binding, s.writers[id].taken) <==> k in s.locks && s.locks[k] == id
  {
    var keys := Held(s.key, s.writers[id].binding, s.writers[id].taken);
    if k in keys {
      var i :| 0 <= i < |keys| && keys[i] == k;
      assert Holds(s, id, i);
    }
    if k in s.locks && s.locks[k] == id {
      assert Owned(s, k);
      var i :| 0 <= i < s.writers[id].taken <= 3 && s.key(Names(s.writers[id].binding)[i]) == k;
      assert keys[i] == k;
    }
  }

  lemma RingCrosses(s: State, ids: seq<int>, bindings: seq<Binding>)
    requires Inv(s) && Deadlocked(s, ids, bindings)
    ensures Crossed(s.key, bindings)
  {
    hide Inv, Held;
    forall i: nat | i < |ids| ensures ids[i] in s.writers && s.writers[ids[i]].taken < 3 {
      assert WaitsForNext(s, ids, i);
    }
    var taken := seq(|ids|, i requires 0 <= i < |ids| => s.writers[ids[i]].taken);
    forall i: nat | i < |ids| ensures WantsNext(s.key, bindings, taken, i) {
      assert WaitsForNext(s, ids, i);
      var j := After(i, |ids|);
      HeldByPrefix(s, ids[j], NextKey(s, s.writers[ids[i]]));
    }
    forall i: nat, j: nat | i < j < |ids| ensures Apart(s.key, bindings[i], taken[i], bindings[j], taken[j]) {
      forall k | k in Held(s.key, bindings[i], taken[i]) ensures k !in Held(s.key, bindings[j], taken[j]) {
        HeldByPrefix(s, ids[i], k);
        HeldByPrefix(s, ids[j], k);
      }
    }
    assert CrossedAt(s.key, bindings, taken);
  }

  /** The writers `0 .. m` have been begun and hold their first locks. */
  ghost predicate Placed(s: State, bindings: seq<Binding>, taken: seq<nat>, m: nat)
    requires m <= |bindings| == |taken|
  {
    && s.outcomes == map[] && (forall id | id in s.writers :: 0 <= id < m)
    && forall i | 0 <= i < m :: i in s.writers && s.writers[i] == Writer(bindings[i], taken[i], false)
  }

  lemma {:induction false} Place(key: LockName -> int, bindings: seq<Binding>, taken: seq<nat>, m: nat) returns (steps: seq<Step>)
    requires CrossedAt(key, bindings, taken) && m <= |bindings|
    ensures Placed(Run(key, steps), bindings, taken, m)
    decreases m
  {
    if m == 0 {
      steps := [];
    } else {
      var before := Place(key, bindings, taken, m - 1);
      steps := before + [Begin(m - 1, bindings[m - 1])];
      assert steps[..|before|] == before;
      var n := 0;
      while n < taken[m - 1]
        invariant n <= taken[m - 1]
        invariant Placed(Run(key, steps), bindings, taken[m - 1 := n], m)
      {
        PlaceOne(key, steps, bindings, taken, m - 1, n);
        assert (steps + [Lock(m - 1)])[..|steps|] == steps;
        steps := steps + [Lock(m - 1)];
        n := n + 1;
      }
      assert taken[m - 1 := n] == taken;
    }
  }

  /** The next lock of the writer being placed is free or its own. */
  lemma PlaceOne(key: LockName -> int, steps: seq<Step>, bindings: seq<Binding>, taken: seq<nat>, m: nat, n: nat)
    requires CrossedAt(key, bindings, taken) && m < |bindings| && n < taken[m]
    requires Placed(Run(key, steps), bindings, taken[m := n], m + 1)
    ensures Placed(Next(Run(key, steps), Lock(m)), bindings, taken[m := n + 1], m + 1)
  {
    var s := Run(key, steps);
    Reachable(key, steps);
    hide Run;
    var k := NextKey(s, s.writers[m]);
    assert Held(key, bindings[m], taken[m])[n] == k;
    forall h: nat | h < m ensures k !in Held(key, bindings[h], taken[h]) {
      assert Apart(key, bindings[h], taken[h], bindings[m], taken[m]);
    }
    if k in s.locks {
      assert Owned(s, k);
      HeldByPrefix(s, s.locks[k], k);
    }
    hide Inv;
  }

  /** Deadlock, exactly: some run stops writers of the given bindings in a ring of
      waits if and only if their sorted key sequences cross, that is, can be cut so
      that the keys before the cuts are pairwise disjoint and each key at a cut lies
      before the cut of the next. */
  lemma DeadlockIff(key: LockName -> int, bindings: seq<Binding>)
    requires |bindings| >= 2
    ensures CanDeadlock(key, bindings) <==> Crossed(key, bindings)
  {
    if CanDeadlock(key, bindings) {
      var steps, ids :| Deadlocked(Run(key, steps), ids, bindings);
      Reachable(key, steps);
      RingCrosses(Run(key, steps), ids, bindings);
    }
    if Crossed(key, bindings) {
      var taken :| CrossedAt(key, bindings, taken);
      var steps := Place(key, bindings, taken, |bindings|);
      PlacedRing(key, steps, bindings, taken);
    }
  }

  lemma PlacedRing(key: LockName -> int, steps: seq<Step>, bindings: seq<Binding>, taken: seq<nat>)
    requires |bindings| >= 2 && CrossedAt(key, bindings, taken) && Placed(Run(key, steps), bindings, taken, |bindings|)
    ensures CanDeadlock(key, bindings)
  {
    var s := Run(key, steps);
    hide Run;
    var ids := seq(|bindings|, i requires 0 <= i < |bindings| => i as int);
    Reachable(key, steps);
    hide Inv;
    forall i: nat | i < |ids| ensures WaitsForNext(s, ids, i) {
      assert WantsNext(key, bindings, taken, i);
      HeldByPrefix(s, After(i, |ids|), NextKey(s, s.writers[i]));
    }
    assert Deadlocked(Run(key, steps), ids, bindings);
  }

  /** The sequences cross when the first is cut before its `i`-th key and the
      second before its `j`-th. */
  predicate CrossTwo(key: LockName -> int, a: Binding, b: Binding, i: nat, j: nat) {
    i < 3 && j < 3 && Wants(key, a, i, b, j) && Wants(key, b, j, a, i) && Apart(key, a, i, b, j)
  }

  lemma CrossTwoAt(key: LockName -> int, a: Binding, b: Binding, i: nat, j: nat)
    ensures CrossedAt(key, [a, b], [i, j]) <==> CrossTwo(key, a, b, i, j)
  {
    hide Wants, Apart;
    var bindings, taken := [a, b], [i, j];
    assert bindings[0] == a && bindings[1] == b && taken[0] == i && taken[1] == j;
    if CrossedAt(key, bindings, taken) {
      assert WantsNext(key, bindings, taken, 0) && WantsNext(key, bindings, taken, 1);
    }
  }

  /** Two writers: one takes `p` on its way to `q` and the other `q` on its way to
      `p`, and neither meets the other's locks before. */
  lemma TwoDeadlockIff(key: LockName -> int, a: Binding, b: Binding)
    ensures CanDeadlock(key, [a, b]) <==> exists i, j :: CrossTwo(key, a, b, i, j)
  {
    DeadlockIff(key, [a, b]);
    hide CanDeadlock, CrossTwo, CrossedAt;
    if Crossed(key, [a, b]) {
      var taken :| CrossedAt(key, [a, b], taken);
      assert taken == [taken[0], taken[1]] by { TwoCuts(key, [a, b], taken); }
      CrossTwoAt(key, a, b, taken[0], taken[1]);
    }
    if i, j :| CrossTwo(key, a, b, i, j) { CrossTwoAt(key, a, b, i, j); }
  }

  lemma TwoCuts(key: LockName -> int, bindings: seq<Binding>, taken: seq<nat>)
    requires CrossedAt(key, bindings, taken)
    ensures |taken| == |bindings|
  {
  }

  function CollidingKey(name: LockName): int {
    match name
    case CaseLock(_, c) => if c == 1 then 1 else 2
    case RunLock(_, r) => if r == 1 then 2 else 1
    case TemporalLock(_, _, _) => 3
  }

  /** The names are sorted but the keys are hashes: two writers that share no axis
      deadlock when a case name and a run name collide crosswise. */
  lemma CollisionsDeadlock()
    ensures var a, b := Binding(0, 1, 0, 1, 1, 1, 1, 0), Binding(0, 2, 0, 2, 1, 2, 2, 0);
            !SharesAxis(a, b) && CanDeadlock(CollidingKey, [a, b])
  {
    var a, b := Binding(0, 1, 0, 1, 1, 1, 1, 0), Binding(0, 2, 0, 2, 1, 2, 2, 0);
    assert Held(CollidingKey, a, 1) == [1] && Held(CollidingKey, b, 1) == [2];
    assert CrossTwo(CollidingKey, a, b, 1, 1);
    TwoDeadlockIff(CollidingKey, a, b);
    hide CanDeadlock;
  }
}
