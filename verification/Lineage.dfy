/** Evidence and claims of the Postgres repository: what every sequence of
    admissions, interleaved between check and insert, keeps true. */
module Lineage {
  import opened Options

  /** Authorities 0 and 1 are the trusted ones; freshness 0 is current; a locator
      or schema binding 0 is an empty one. */
  datatype Evidence = Evidence(
    id: int, tenant: int, caseId: int, revision: nat, subjects: set<int>, knowledge: bool,
    currentObservation: bool, freshness: nat, authority: nat, parents: seq<int>,
    uri: int, anchor: int, schema: int, version: int, independence: int, contentHash: int)

  datatype Claim = Claim(
    id: int, tenant: int, caseId: int, revision: nat, evidenceIds: seq<int>, requiresCurrent: bool,
    statement: int, createdBy: string)

  datatype CaseRow = CaseRow(tenant: int, revision: nat)

  predicate Trusted(e: Evidence) { e.authority <= 1 }

  /** A trusted, current observation. */
  predicate ProvesNow(e: Evidence) {
    e.currentObservation && e.freshness == 0 && Trusted(e)
  }

  predicate SameScope(a: Evidence, b: Evidence) {
    a.tenant == b.tenant && a.caseId == b.caseId && a.revision == b.revision
  }

  predicate InScope(e: Evidence, c: Claim) {
    e.tenant == c.tenant && e.caseId == c.caseId && e.revision == c.revision
  }

  /** `validate_evidence_admission`. */
  predicate Admissible(e: Evidence, subject: Option<int>) {
    && (e.knowledge ==> !e.currentObservation)
    && (e.currentObservation ==> e.freshness == 0 && Trusted(e) && e.subjects != {})
    && (subject.Some? ==> subject.value in e.subjects)
  }

  type Store = map<int, Evidence>

  /** `validate_claim_evidence` against a store of evidence. */
  predicate Supported(claim: Claim, seen: Store, subject: Option<int>) {
    && (forall i | 0 <= i < |claim.evidenceIds| ::
          claim.evidenceIds[i] in seen && InScope(seen[claim.evidenceIds[i]], claim)
          && (subject.Some? ==> subject.value in seen[claim.evidenceIds[i]].subjects))
    && (claim.requiresCurrent ==> exists i :: 0 <= i < |claim.evidenceIds| && ProvesNow(seen[claim.evidenceIds[i]]))
  }

  /** The rows a subject's transaction can see. */
  function Visible(store: Store, tenant: int, subject: int): Store {
    map id | id in store && store[id].tenant == tenant && subject in store[id].subjects :: store[id]
  }

  datatype State = State(
    cases: map<int, CaseRow>, evidence: Store, arrival: seq<int>, checked: map<int, (Evidence, int)>,
    claims: map<int, Claim>, links: set<(int, int)>)

  datatype Step =
    | PutCase(caseId: int, row: CaseRow)
    | CheckEvidence(request: int, evidence: Evidence, subject: int)
    | InsertEvidence(request: int)
    | PutClaim(claim: Claim, subject: int)

  const EMPTY := State(map[], map[], [], map[], map[], {})

  predicate CaseMatches(s: State, tenant: int, caseId: int, revision: nat) {
    caseId in s.cases && s.cases[caseId] == CaseRow(tenant, revision)
  }

  /** Everything `put_evidence` checks before its insert. */
  predicate EvidenceChecks(s: State, e: Evidence, subject: int) {
    var seen := Visible(s.evidence, e.tenant, subject);
    && Admissible(e, Some(subject)) && CaseMatches(s, e.tenant, e.caseId, e.revision) && e.id !in seen
    && forall i | 0 <= i < |e.parents| :: e.parents[i] != e.id && e.parents[i] in seen && SameScope(seen[e.parents[i]], e)
  }

  function LinkRows(claim: Claim): set<(int, int)> {
    set i | 0 <= i < |claim.evidenceIds| :: (claim.id, claim.evidenceIds[i])
  }

  function Next(s: State, step: Step): State {
    match step
    case PutCase(caseId, row) => if caseId in s.cases then s else s.(cases := s.cases[caseId := row])
    case CheckEvidence(request, e, subject) =>
      if request in s.checked || !EvidenceChecks(s, e, subject) then s
      else s.(checked := s.checked[request := (e, subject)])
    case InsertEvidence(request) =>
      if request !in s.checked then s
      else
        var e := s.checked[request].0;
        if e.id in s.evidence then s.(checked := s.checked - {request})
        else s.(checked := s.checked - {request}, evidence := s.evidence[e.id := e], arrival := s.arrival + [e.id])
    case PutClaim(claim, subject) =>
      if !CaseMatches(s, claim.tenant, claim.caseId, claim.revision)
         || !Supported(claim, Visible(s.evidence, claim.tenant, subject), Some(subject))
      then s
      else if claim.id in s.claims && !SameClaimScope(s.claims[claim.id], claim) then s
      else
        s.(claims := if claim.id in s.claims then s.claims else s.claims[claim.id := claim],
           links := s.links + LinkRows(claim))
  }

  /** The foreign key from a link row to its claim row. */
  predicate SameClaimScope(a: Claim, b: Claim) {
    a.tenant == b.tenant && a.caseId == b.caseId && a.revision == b.revision
  }

  function Run(steps: seq<Step>): State {
    if steps == [] then EMPTY else Next(Run(steps[..|steps| - 1]), steps[|steps| - 1])
  }

  // ---- Invariant --------------------------------------------------------------------

  /** Stored evidence stands behind its parents in order of arrival. */
  ghost predicate ParentsEarlier(s: State, k: nat)
    requires k < |s.arrival|
  {
    s.arrival[k] in s.evidence
    && var e := s.evidence[s.arrival[k]];
    && e.id == s.arrival[k] && Admissible(e, None) && CaseMatches(s, e.tenant, e.caseId, e.revision)
    && forall i | 0 <= i < |e.parents| ::
         e.parents[i] in s.evidence && SameScope(s.evidence[e.parents[i]], e)
         && e.parents[i] in s.arrival[..k]
  }

  ghost predicate Arrivals(s: State) {
    && (forall id :: id in s.evidence <==> id in s.arrival)
    && (forall i, j | 0 <= i < j < |s.arrival| :: s.arrival[i] != s.arrival[j])
    && (forall k | 0 <= k < |s.arrival| :: ParentsEarlier(s, k))
  }

  /** A checked request's parents are stored already. */
  ghost predicate ChecksHold(s: State) {
    forall r | r in s.checked ::
      var e := s.checked[r].0;
      && Admissible(e, None) && CaseMatches(s, e.tenant, e.caseId, e.revision)
      && forall i | 0 <= i < |e.parents| ::
           e.parents[i] != e.id && e.parents[i] in s.evidence && SameScope(s.evidence[e.parents[i]], e)
  }

  ghost predicate ClaimsHold(s: State) {
    && (forall id | id in s.claims :: s.claims[id].id == id && Supported(s.claims[id], s.evidence, None) && LinkRows(s.claims[id]) <= s.links)
    && (forall l | l in s.links ::
          l.0 in s.claims && l.1 in s.evidence && InScope(s.evidence[l.1], s.claims[l.0]))
  }

  ghost predicate Inv(s: State) {
    Arrivals(s) && ChecksHold(s) && ClaimsHold(s)
  }

  /** Rows stay as they were written. */
  ghost predicate Onward(s: State, s': State) {
    && (forall id | id in s.cases :: id in s'.cases && s'.cases[id] == s.cases[id])
    && (forall id | id in s.evidence :: id in s'.evidence && s'.evidence[id] == s.evidence[id])
    && (forall id | id in s.claims :: id in s'.claims && s'.claims[id] == s.claims[id])
    && s.arrival <= s'.arrival && s.links <= s'.links
  }

  lemma SupportedLater(claim: Claim, seen: Store, later: Store, subject: Option<int>)
    requires Supported(claim, seen, subject)
    requires forall id | id in seen :: id in later && later[id] == seen[id]
    ensures Supported(claim, later, None)
  {
    forall i | 0 <= i < |claim.evidenceIds|
      ensures claim.evidenceIds[i] in later && later[claim.evidenceIds[i]] == seen[claim.evidenceIds[i]]
    {
      var id := claim.evidenceIds[i];
      assert id in seen;
      assert id in later;
    }
    if claim.requiresCurrent {
      var i :| 0 <= i < |claim.evidenceIds| && ProvesNow(seen[claim.evidenceIds[i]]);
      assert ProvesNow(later[claim.evidenceIds[i]]);
    }
  }

  lemma CaseKeeps(s: State, step: Step)
    requires Inv(s) && step.PutCase?
    ensures Inv(Next(s, step)) && Onward(s, Next(s, step))
  {
    var s' := Next(s, step);
    forall k | 0 <= k < |s'.arrival| ensures ParentsEarlier(s', k) { assert ParentsEarlier(s, k); }
  }

  lemma CheckKeeps(s: State, step: Step)
    requires Inv(s) && step.CheckEvidence?
    ensures Inv(Next(s, step)) && Onward(s, Next(s, step))
  {
    var s' := Next(s, step);
    forall k | 0 <= k < |s'.arrival| ensures ParentsEarlier(s', k) { assert ParentsEarlier(s, k); }
  }

  lemma ClaimKeeps(s: State, step: Step)
    requires Inv(s) && step.PutClaim?
    ensures Inv(Next(s, step)) && Onward(s, Next(s, step))
  {
    var s' := Next(s, step);
    forall k | 0 <= k < |s'.arrival| ensures ParentsEarlier(s', k) { assert ParentsEarlier(s, k); }
    if s' != s { SupportedLater(step.claim, Visible(s.evidence, step.claim.tenant, step.subject), s.evidence, Some(step.subject)); }
  }

  lemma InsertKeeps(s: State, step: Step)
    requires Inv(s) && step.InsertEvidence?
    ensures Inv(Next(s, step)) && Onward(s, Next(s, step))
  {
    var s' := Next(s, step);
    forall k | 0 <= k < |s'.arrival| ensures ParentsEarlier(s', k) {
      ArrivalKept(s, step, k);
    }
    forall id | id in s'.claims ensures Supported(s'.claims[id], s'.evidence, None) {
      SupportedLater(s.claims[id], s.evidence, s'.evidence, None);
    }
  }

  lemma ArrivalKept(s: State, step: Step, k: nat)
    requires Inv(s) && step.InsertEvidence? && k < |Next(s, step).arrival|
    ensures ParentsEarlier(Next(s, step), k)
  {
    var s' := Next(s, step);
    assert s'.arrival[..k] == s.arrival[..k];
    if k < |s.arrival| {
      assert ParentsEarlier(s, k) && s'.arrival[k] == s.arrival[k];
    } else {
      assert s.arrival[..k] == s.arrival;
    }
  }

  lemma StepKeeps(s: State, step: Step)
    requires Inv(s)
    ensures Inv(Next(s, step)) && Onward(s, Next(s, step))
  {
    hide Inv, Onward, Next;
    match step {
      case PutCase(_, _) => CaseKeeps(s, step);
      case CheckEvidence(_, _, _) => CheckKeeps(s, step);
      case InsertEvidence(_) => InsertKeeps(s, step);
      case PutClaim(_, _) => ClaimKeeps(s, step);
    }
  }

  lemma {:induction false} Reachable(steps: seq<Step>)
    ensures Inv(Run(steps))
    decreases |steps|
  {
    hide Next;
    if steps != [] {
      Reachable(steps[..|steps| - 1]);
      StepKeeps(Run(steps[..|steps| - 1]), steps[|steps| - 1]);
    }
  }

  // ---- Theorems -----------------------------------------------------------------------

  /** `a` is reached from `d` by following `n` parent references. */
  ghost predicate Ancestor(store: Store, a: int, d: int, n: nat)
    decreases n
  {
    n > 0 && d in store
    && exists p :: p in store[d].parents && (if n == 1 then p == a else Ancestor(store, a, p, n - 1))
  }

  lemma {:induction false} AncestorsEarlier(s: State, a: int, d: int, n: nat, k: nat)
    requires Inv(s) && Ancestor(s.evidence, a, d, n) && k < |s.arrival| && s.arrival[k] == d
    ensures a in s.evidence && SameScope(s.evidence[a], s.evidence[d])
    ensures exists j :: 0 <= j < k && s.arrival[j] == a
    decreases n
  {
    assert ParentsEarlier(s, k);
    var p :| p in s.evidence[d].parents && (if n == 1 then p == a else Ancestor(s.evidence, a, p, n - 1));
    var i :| 0 <= i < |s.evidence[d].parents| && s.evidence[d].parents[i] == p;
    var j :| 0 <= j < k && s.arrival[j] == p;
    if n > 1 { AncestorsEarlier(s, a, p, n - 1, j); }
  }

  /** Over every interleaving of admissions the parent graph has no cycle, and
      every ancestor shares tenant, case and revision. */
  lemma LineageAcyclic(steps: seq<Step>, a: int, d: int, n: nat)
    requires Ancestor(Run(steps).evidence, a, d, n)
    ensures a != d
    ensures a in Run(steps).evidence && SameScope(Run(steps).evidence[a], Run(steps).evidence[d])
  {
    hide Run;
    var s := Run(steps);
    Reachable(steps);
    assert d in s.arrival;
    var k :| 0 <= k < |s.arrival| && s.arrival[k] == d;
    AncestorsEarlier(s, a, d, n, k);
  }

  /** Every citation of every stored claim resolves to stored evidence of the
      claim's own scope, and a claim that needs it cites a trusted current
      observation. */
  lemma ClaimsResolve(steps: seq<Step>, id: int)
    requires id in Run(steps).claims
    ensures var s := Run(steps);
            var claim := s.claims[id];
            && (forall i | 0 <= i < |claim.evidenceIds| ::
                  claim.evidenceIds[i] in s.evidence && InScope(s.evidence[claim.evidenceIds[i]], claim)
                  && (claim.id, claim.evidenceIds[i]) in s.links)
            && (claim.requiresCurrent ==> exists i :: 0 <= i < |claim.evidenceIds| && ProvesNow(s.evidence[claim.evidenceIds[i]]))
  {
    hide Run;
    Reachable(steps);
    var claim := Run(steps).claims[id];
    forall i | 0 <= i < |claim.evidenceIds| ensures (claim.id, claim.evidenceIds[i]) in Run(steps).links {
      assert (claim.id, claim.evidenceIds[i]) in LinkRows(claim);
    }
  }

  ghost predicate LinksExact(s: State, id: int)
    requires id in s.claims
  {
    forall e :: (id, e) in s.links <==> (id, e) in LinkRows(s.claims[id])
  }

  /** An accepted claim leaves the links of its id exact if and only if it cites
      nothing that the stored claim does not: a repeated id with new citations
      adds link rows the stored claim never had. */
  lemma LinksExactIff(s: State, claim: Claim, subject: int)
    requires Inv(s) && (claim.id in s.claims ==> LinksExact(s, claim.id))
    requires CaseMatches(s, claim.tenant, claim.caseId, claim.revision)
    requires Supported(claim, Visible(s.evidence, claim.tenant, subject), Some(subject))
    requires claim.id in s.claims ==> SameClaimScope(s.claims[claim.id], claim)
    ensures var s' := Next(s, PutClaim(claim, subject));
            claim.id in s'.claims
            && (LinksExact(s', claim.id) <==>
                  (claim.id in s.claims ==> LinkRows(claim) <= LinkRows(s.claims[claim.id])))
  {
    hide Supported, Visible, Arrivals, ChecksHold;
    var s' := Next(s, PutClaim(claim, subject));
    if claim.id in s.claims && LinksExact(s', claim.id) {
      forall l | l in LinkRows(claim) ensures l in LinkRows(s.claims[claim.id]) {
        var i :| 0 <= i < |claim.evidenceIds| && l == (claim.id, claim.evidenceIds[i]);
        var e := claim.evidenceIds[i];
        assert (claim.id, e) in s'.links && (claim.id, e) in LinkRows(s'.claims[claim.id]);
      }
    }
    forall e | (claim.id, e) in s.links ensures claim.id in s.claims {
      LinkOwner(s, claim.id, e);
    }
  }

  lemma LinkOwner(s: State, id: int, e: int)
    requires ClaimsHold(s) && (id, e) in s.links
    ensures id in s.claims
  {
    var l := (id, e);
    assert l in s.links && l.0 == id;
  }
}
