/** The evidence gateway's admission loop and the independent verifier. */
module Verification {
  import opened Options
  import opened Lineage

  datatype Decision = Pass | Fail | Ambiguous

  datatype Report = Report(id: int, caseId: int, verified: seq<int>, failed: seq<int>, readings: seq<int>, decision: Decision)

  /** A reading of the source: the envelope seen now, or no answer. */
  type Readback = Evidence -> Option<Evidence>

  const VERIFIER := "verifier:p0:fresh-source-readback"

  /** Neither the verifier nor a critic wrote the claim. */
  predicate IndependentAuthor(createdBy: string, critic: string) {
    createdBy != VERIFIER && createdBy != critic && !("verifier:" <= createdBy) && !("critic:" <= createdBy) && VERIFIER != critic
  }

  /** Every comparison between stored evidence and its fresh reading. */
  predicate Matches(tenant: int, e: Evidence, r: Evidence, subject: Option<int>) {
    && r.tenant == tenant && r.caseId == e.caseId && r.revision == e.revision
    && (subject.Some? ==> subject.value in r.subjects)
    && r.uri == e.uri && r.anchor == e.anchor && r.version == e.version
    && r.currentObservation == e.currentObservation
    && r.authority == e.authority && r.freshness == e.freshness
    && r.independence == e.independence && r.contentHash == e.contentHash
  }

  /** What one verification runs against. */
  datatype Context = Context(evidence: Store, tenant: int, read: Readback, critic: string, subject: Option<int>)

  predicate Confirmed(ctx: Context, e: Evidence) {
    ctx.read(e).Some? && Matches(ctx.tenant, e, ctx.read(e).value, ctx.subject)
  }

  /** What a claim must satisfy to be verified. */
  predicate Verifies(ctx: Context, claim: Claim) {
    && IndependentAuthor(claim.createdBy, ctx.critic)
    && Supported(claim, ctx.evidence, None)
    && forall i | 0 <= i < |claim.evidenceIds| :: Confirmed(ctx, ctx.evidence[claim.evidenceIds[i]])
  }

  /** The ids, in order, of the claims that verify (or do not). */
  function Select(ctx: Context, claims: seq<Claim>, verified: bool): seq<int> {
    if claims == [] then []
    else
      var n := |claims| - 1;
      Select(ctx, claims[..n], verified) + if Verifies(ctx, claims[n]) == verified then [claims[n].id] else []
  }

  function Readings(ctx: Context, claims: seq<Claim>): seq<int> {
    if claims == [] then []
    else Readings(ctx, claims[..|claims| - 1]) + FreshReadings(ctx, claims[|claims| - 1])
  }

  predicate HasVerdict(ctx: Context, claims: seq<Claim>, verified: bool, i: nat) {
    i < |claims| && Verifies(ctx, claims[i]) == verified
  }

  /** `at` lists, in order and completely, the claims whose verdict is `verified`,
      and `list` their ids. */
  ghost predicate Places(ctx: Context, claims: seq<Claim>, verified: bool, list: seq<int>, at: seq<nat>) {
    && |at| == |list|
    && (forall j, k | 0 <= j < k < |at| :: at[j] < at[k])
    && (forall k | 0 <= k < |at| :: HasVerdict(ctx, claims, verified, at[k]) && list[k] == claims[at[k]].id)
    && (forall i: nat | HasVerdict(ctx, claims, verified, i) :: i in at)
  }

  /** The list is the subsequence of the claim ids with that verdict. */
  ghost predicate InOrder(ctx: Context, claims: seq<Claim>, verified: bool, list: seq<int>) {
    exists at :: Places(ctx, claims, verified, list, at)
  }

  lemma {:induction false} SelectPlaces(ctx: Context, claims: seq<Claim>, verified: bool) returns (at: seq<nat>)
    ensures Places(ctx, claims, verified, Select(ctx, claims, verified), at)
    decreases |claims|
  {
    hide Verifies;
    at := [];
    if claims != [] {
      var n := |claims| - 1;
      var before := SelectPlaces(ctx, claims[..n], verified);
      at := before + if Verifies(ctx, claims[n]) == verified then [n] else [];
      assert forall i: nat | i < n :: HasVerdict(ctx, claims, verified, i) <==> HasVerdict(ctx, claims[..n], verified, i);
      forall i: nat | HasVerdict(ctx, claims, verified, i) ensures i in at {
        if i < n { assert HasVerdict(ctx, claims[..n], verified, i); }
      }
    }
  }

  predicate DistinctIds(claims: seq<Claim>) {
    forall i, j | 0 <= i < j < |claims| :: claims[i].id != claims[j].id
  }

  lemma {:induction false} SelectLengths(ctx: Context, claims: seq<Claim>)
    ensures |Select(ctx, claims, true)| + |Select(ctx, claims, false)| == |claims|
    ensures Select(ctx, claims, false) == [] <==> forall i | 0 <= i < |claims| :: Verifies(ctx, claims[i])
    decreases |claims|
  {
    hide Verifies;
    if claims != [] {
      var n := |claims| - 1;
      SelectLengths(ctx, claims[..n]);
      assert forall i | 0 <= i < n :: claims[..n][i] == claims[i];
    }
  }

  /** The two lists of a report split the claims: each is the subsequence of the
      claim ids with its verdict, together they have one entry per claim, and with
      distinct ids a claim is in the list of its verdict and in no other. */
  lemma SelectSplits(ctx: Context, claims: seq<Claim>)
    ensures |Select(ctx, claims, true)| + |Select(ctx, claims, false)| == |claims|
    ensures forall v :: InOrder(ctx, claims, v, Select(ctx, claims, v))
    ensures forall i | 0 <= i < |claims| :: claims[i].id in Select(ctx, claims, Verifies(ctx, claims[i]))
    ensures Select(ctx, claims, false) == [] <==> forall i | 0 <= i < |claims| :: Verifies(ctx, claims[i])
    ensures DistinctIds(claims) ==>
              && (forall id | id in Select(ctx, claims, true) :: id !in Select(ctx, claims, false))
              && forall i, v | 0 <= i < |claims| :: claims[i].id in Select(ctx, claims, v) <==> Verifies(ctx, claims[i]) == v
  {
    hide Verifies, Select;
    SelectLengths(ctx, claims);
    var yes, no := Select(ctx, claims, true), Select(ctx, claims, false);
    var verified := SelectPlaces(ctx, claims, true);
    var failed := SelectPlaces(ctx, claims, false);
    forall v ensures InOrder(ctx, claims, v, Select(ctx, claims, v)) {
      assert Places(ctx, claims, v, Select(ctx, claims, v), if v then verified else failed);
    }
    forall i: nat | i < |claims| ensures claims[i].id in Select(ctx, claims, Verifies(ctx, claims[i])) {
      IdAtPlace(ctx, claims, Verifies(ctx, claims[i]), i);
    }
    if DistinctIds(claims) {
      forall i: nat, v | i < |claims| ensures claims[i].id in Select(ctx, claims, v) <==> Verifies(ctx, claims[i]) == v {
        IdAtPlace(ctx, claims, v, i);
      }
      forall id | id in yes ensures id !in no {
        var k :| 0 <= k < |yes| && yes[k] == id;
        var i := verified[k];
        assert HasVerdict(ctx, claims, true, i) && claims[i].id == id;
        IdAtPlace(ctx, claims, false, i);
      }
    }
  }

  lemma IdAtPlace(ctx: Context, claims: seq<Claim>, verified: bool, i: nat)
    requires i < |claims|
    ensures Verifies(ctx, claims[i]) == verified ==> claims[i].id in Select(ctx, claims, verified)
    ensures DistinctIds(claims) && claims[i].id in Select(ctx, claims, verified) ==> Verifies(ctx, claims[i]) == verified
  {
    hide Verifies, Select;
    var list := Select(ctx, claims, verified);
    var at := SelectPlaces(ctx, claims, verified);
    if HasVerdict(ctx, claims, verified, i) {
      var k :| 0 <= k < |at| && at[k] == i;
      assert list[k] == claims[i].id;
    }
    if DistinctIds(claims) && claims[i].id in list {
      var k :| 0 <= k < |list| && list[k] == claims[i].id;
      assert HasVerdict(ctx, claims, verified, at[k]) && claims[at[k]].id == claims[i].id;
      assert at[k] == i;
    }
  }

  /** The decision a report draws from its two lists. */
  function Decide(verified: seq<int>, failed: seq<int>): Decision {
    if failed != [] then Fail else if verified == [] then Ambiguous else Pass
  }

  /** PASS exactly when there is a claim and every claim verifies. */
  lemma DecisionIff(ctx: Context, claims: seq<Claim>)
    ensures Decide(Select(ctx, claims, true), Select(ctx, claims, false)) == Pass <==>
              claims != [] && forall i | 0 <= i < |claims| :: Verifies(ctx, claims[i])
    ensures Decide(Select(ctx, claims, true), Select(ctx, claims, false)) == Ambiguous <==> claims == []
  {
    hide Verifies;
    SelectLengths(ctx, claims);
  }

  class CaseRepository {
    var cases: map<int, CaseRow>
    var evidence: Store
    var claims: seq<Claim>
    var verifications: map<int, Report>

    /** The source keys claims by id; here they are a list in order of arrival. */
    ghost predicate Valid()
      reads this`claims
    {
      DistinctIds(claims)
    }

    constructor ()
      ensures Valid()
      ensures cases == map[] && evidence == map[] && claims == [] && verifications == map[]
    {
      cases, evidence, claims, verifications := map[], map[], [], map[];
    }

    /** Records are immutable: the same one again is accepted, another is not. */
    method PutEvidence(e: Evidence) returns (accepted: bool)
      modifies this`evidence
      ensures accepted <==>
                && e.caseId in cases && cases[e.caseId] == CaseRow(e.tenant, e.revision)
                && (e.id in old(evidence) ==> old(evidence)[e.id] == e)
      ensures evidence == if accepted then old(evidence)[e.id := e] else old(evidence)
    {
      if e.caseId !in cases { return false; }
      if cases[e.caseId].tenant != e.tenant || cases[e.caseId].revision != e.revision { return false; }
      if e.id in evidence && evidence[e.id] != e { return false; }
      evidence := evidence[e.id := e];
      accepted := true;
    }

    method PutClaim(claim: Claim) returns (accepted: bool)
      requires Valid()
      modifies this`claims
      ensures Valid()
      ensures accepted <==>
                && claim.caseId in cases && cases[claim.caseId] == CaseRow(claim.tenant, claim.revision)
                && forall i | 0 <= i < |old(claims)| && old(claims)[i].id == claim.id :: old(claims)[i] == claim
      ensures claims == if accepted && claim !in old(claims) then old(claims) + [claim] else old(claims)
    {
      if claim.caseId !in cases { return false; }
      if cases[claim.caseId].tenant != claim.tenant || cases[claim.caseId].revision != claim.revision { return false; }
      var i := 0;
      while i < |claims|
        invariant 0 <= i <= |claims|
        invariant forall j | 0 <= j < i && claims[j].id == claim.id :: claims[j] == claim
      {
        if claims[i].id == claim.id && claims[i] != claim { return false; }
        i := i + 1;
      }
      if claim !in claims { claims := claims + [claim]; }
      accepted := true;
    }

    method PutVerification(report: Report, tenant: int) returns (accepted: bool)
      modifies this`verifications
      ensures accepted <==>
                && report.caseId in cases && cases[report.caseId].tenant == tenant
                && (report.id in old(verifications) ==> old(verifications)[report.id] == report)
      ensures verifications == if accepted then old(verifications)[report.id := report] else old(verifications)
    {
      if report.caseId !in cases || cases[report.caseId].tenant != tenant { return false; }
      if report.id in verifications && verifications[report.id] != report { return false; }
      verifications := verifications[report.id := report];
      accepted := true;
    }
  }

  /** What the gateway demands of new evidence. */
  predicate GatewayAccepts(evidence: Store, e: Evidence, subject: Option<int>) {
    && Admissible(e, subject) && e.uri != 0 && e.anchor != 0 && e.schema != 0 && (!e.currentObservation ==> e.knowledge)
    && forall i | 0 <= i < |e.parents| ::
         e.parents[i] != e.id && e.parents[i] in evidence && SameScope(evidence[e.parents[i]], e)
  }

  class EvidenceGateway {
    const repository: CaseRepository
    const subject: Option<int>

    constructor (repository: CaseRepository, subject: Option<int>)
      ensures this.repository == repository && this.subject == subject
    {
      this.repository, this.subject := repository, subject;
    }

    /** Admission: policy, locator and schema binding, reference scope, every parent
        in turn, then the store. */
    method Admit(e: Evidence) returns (accepted: bool)
      modifies repository`evidence
      ensures accepted <==>
                && GatewayAccepts(old(repository.evidence), e, subject)
                && e.caseId in repository.cases && repository.cases[e.caseId] == CaseRow(e.tenant, e.revision)
                && (e.id in old(repository.evidence) ==> old(repository.evidence)[e.id] == e)
      ensures repository.evidence == if accepted then old(repository.evidence)[e.id := e] else old(repository.evidence)
    {
      if !Admissible(e, subject) { return false; }
      if e.uri == 0 || e.anchor == 0 || e.schema == 0 { return false; }
      if !e.currentObservation && !e.knowledge { return false; }
      var i := 0;
      while i < |e.parents|
        invariant 0 <= i <= |e.parents|
        invariant forall j | 0 <= j < i ::
                    e.parents[j] != e.id && e.parents[j] in repository.evidence && SameScope(repository.evidence[e.parents[j]], e)
      {
        if e.parents[i] == e.id { return false; }
        if e.parents[i] !in repository.evidence { return false; }
        if !SameScope(repository.evidence[e.parents[i]], e) { return false; }
        i := i + 1;
      }
      accepted := repository.PutEvidence(e);
    }

    /** A claim enters when its case revision is current and its citations support
        it; claims are immutable. */
    method AdmitClaim(claim: Claim) returns (accepted: bool)
      requires repository.Valid()
      modifies repository`claims
      ensures repository.Valid()
      ensures accepted <==>
                && claim.caseId in repository.cases && repository.cases[claim.caseId] == CaseRow(claim.tenant, claim.revision)
                && Supported(claim, repository.evidence, subject)
                && forall c | c in old(repository.claims) && c.id == claim.id :: c == claim
      ensures repository.claims == if accepted && claim !in old(repository.claims) then old(repository.claims) + [claim] else old(repository.claims)
    {
      if claim.caseId !in repository.cases || repository.cases[claim.caseId].revision != claim.revision { return false; }
      if !Supported(claim, repository.evidence, subject) { return false; }
      accepted := repository.PutClaim(claim);
    }
  }

  class IndependentEvidenceVerifier {
    const read: Readback

    constructor (read: Readback)
      ensures this.read == read
    {
      this.read := read;
    }

    /** One claim: verified, or not, with the readings confirmed before the first
        comparison that failed. */
    method VerifyClaim(ctx: Context, claim: Claim) returns (ok: bool, readings: seq<int>)
      ensures ok == Verifies(ctx, claim)
      ensures readings == FreshReadings(ctx, claim)
    {
      readings := [];
      if !IndependentAuthor(claim.createdBy, ctx.critic) || !Supported(claim, ctx.evidence, None) { return false, []; }
      var i := 0;
      while i < |claim.evidenceIds|
        invariant 0 <= i <= |claim.evidenceIds|
        invariant forall j | 0 <= j < i :: Confirmed(ctx, ctx.evidence[claim.evidenceIds[j]])
        invariant ConfirmedFrom(ctx, claim.evidenceIds) == readings + ConfirmedFrom(ctx, claim.evidenceIds[i..])
      {
        var e := ctx.evidence[claim.evidenceIds[i]];
        assert claim.evidenceIds[i..][1..] == claim.evidenceIds[i + 1..];
        if !Confirmed(ctx, e) { return false, readings; }
        readings := readings + [ctx.read(e).value.id];
        i := i + 1;
      }
      ok := true;
    }

    method VerifyAll(ctx: Context, claims: seq<Claim>) returns (verified: seq<int>, failed: seq<int>, readings: seq<int>)
      ensures verified == Select(ctx, claims, true) && failed == Select(ctx, claims, false)
      ensures readings == Readings(ctx, claims)
    {
      verified, failed, readings := [], [], [];
      var i := 0;
      while i < |claims|
        invariant 0 <= i <= |claims|
        invariant verified == Select(ctx, claims[..i], true) && failed == Select(ctx, claims[..i], false)
        invariant readings == Readings(ctx, claims[..i])
      {
        var ok, more := VerifyClaim(ctx, claims[i]);
        assert claims[..i + 1][..i] == claims[..i];
        readings := readings + more;
        if ok { verified := verified + [claims[i].id]; } else { failed := failed + [claims[i].id]; }
        i := i + 1;
      }
      assert claims[..i] == claims;
    }

    /** The claims of a case, split in order and without overlap into verified and
        failed; the decision is PASS exactly when the case has a claim and every
        claim verifies. Without the case there is no report. */
    method Verify(repository: CaseRepository, caseId: int, reportId: int, critic: string, subject: Option<int>)
        returns (report: Option<Report>, stored: bool)
      requires repository.Valid()
      modifies repository`verifications
      ensures report.Some? <==> caseId in repository.cases
      ensures report.Some? ==>
                var ctx := Context(repository.evidence, repository.cases[caseId].tenant, read, critic, subject);
                var claims := OfCase(repository.claims, caseId);
                && report.value.id == reportId && report.value.caseId == caseId
                && InOrder(ctx, claims, true, report.value.verified)
                && InOrder(ctx, claims, false, report.value.failed)
                && (forall id | id in report.value.verified :: id !in report.value.failed)
                && (forall c | c in claims :: if Verifies(ctx, c) then c.id in report.value.verified else c.id in report.value.failed)
                && |report.value.verified| + |report.value.failed| == |claims|
                && report.value.readings == Readings(ctx, claims)
                && (report.value.decision == Pass <==> claims != [] && forall i | 0 <= i < |claims| :: Verifies(ctx, claims[i]))
                && (report.value.decision == Ambiguous <==> claims == [])
      ensures repository.verifications ==
              if stored && report.Some? then old(repository.verifications)[reportId := report.value] else old(repository.verifications)
    {
      hide Select, Readings, OfCase, Verifies, InOrder;
      if caseId !in repository.cases { return None, false; }
      var ctx := Context(repository.evidence, repository.cases[caseId].tenant, read, critic, subject);
      var claims := OfCase(repository.claims, caseId);
      var verified, failed, readings := VerifyAll(ctx, claims);
      DecisionIff(ctx, claims);
      OfCaseDistinct(repository.claims, caseId);
      SelectSplits(ctx, claims);
      forall c | c in claims ensures if Verifies(ctx, c) then c.id in verified else c.id in failed {
        var i :| 0 <= i < |claims| && claims[i] == c;
        assert claims[i].id in Select(ctx, claims, Verifies(ctx, claims[i]));
      }
      report := Some(Report(reportId, caseId, verified, failed, readings, Decide(verified, failed)));
      stored := repository.PutVerification(report.value, ctx.tenant);
    }
  }

  function OfCase(claims: seq<Claim>, caseId: int): seq<Claim> {
    if claims == [] then []
    else
      var n := |claims| - 1;
      OfCase(claims[..n], caseId) + if claims[n].caseId == caseId then [claims[n]] else []
  }

  lemma {:induction false} OfCaseDistinct(claims: seq<Claim>, caseId: int)
    requires DistinctIds(claims)
    ensures DistinctIds(OfCase(claims, caseId))
    ensures forall c | c in OfCase(claims, caseId) :: c in claims && c.caseId == caseId
    decreases |claims|
  {
    if claims != [] {
      var n := |claims| - 1;
      OfCaseDistinct(claims[..n], caseId);
      forall c | c in OfCase(claims[..n], caseId) ensures c.id != claims[n].id {
        var i :| 0 <= i < n && claims[i] == c;
      }
    }
  }

  /** The readings confirmed for the longest good prefix of the citations. */
  function ConfirmedFrom(ctx: Context, ids: seq<int>): seq<int>
    requires forall i | 0 <= i < |ids| :: ids[i] in ctx.evidence
  {
    if ids == [] || !Confirmed(ctx, ctx.evidence[ids[0]]) then []
    else [ctx.read(ctx.evidence[ids[0]]).value.id] + ConfirmedFrom(ctx, ids[1..])
  }

  function FreshReadings(ctx: Context, claim: Claim): seq<int> {
    if IndependentAuthor(claim.createdBy, ctx.critic) && Supported(claim, ctx.evidence, None)
    then ConfirmedFrom(ctx, claim.evidenceIds) else []
  }

  lemma {:induction false} ConfirmedCount(ctx: Context, ids: seq<int>)
    requires forall i | 0 <= i < |ids| :: ids[i] in ctx.evidence
    ensures |ConfirmedFrom(ctx, ids)| == |ids| <==> forall i | 0 <= i < |ids| :: Confirmed(ctx, ctx.evidence[ids[i]])
    ensures |ConfirmedFrom(ctx, ids)| <= |ids|
    decreases |ids|
  {
    hide Confirmed;
    if ids != [] {
      ConfirmedCount(ctx, ids[1..]);
      assert forall i | 0 <= i < |ids[1..]| :: ids[1..][i] == ids[i + 1];
      assert forall i | 1 <= i < |ids| :: ids[i] == ids[1..][i - 1];
    }
  }

  /** The report's readings do not tell verified claims from failed ones by their
      presence: a claim whose author and support are fine contributes one reading
      per citation exactly when it verifies, and otherwise those before its first
      mismatch. */
  lemma ReadingsOfClaim(ctx: Context, claim: Claim)
    requires IndependentAuthor(claim.createdBy, ctx.critic) && Supported(claim, ctx.evidence, None)
    ensures |FreshReadings(ctx, claim)| == |claim.evidenceIds| <==> Verifies(ctx, claim)
    ensures |FreshReadings(ctx, claim)| <= |claim.evidenceIds|
  {
    ConfirmedCount(ctx, claim.evidenceIds);
  }
}
