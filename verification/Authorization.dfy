/** One-time authorization: a server-created intent, at most one signed assertion
    for it, and at most one granted context for the assertion. */
module Authorization {
  import opened Options

  /** The exact command an intent or assertion is for. */
  datatype Scope =
    | OwnerGate(proposalId: Option<int>, approvalId: Option<int>)
    | NodeExplanation(incident: int, run: int, topology: int, projection: int, component: int, commandHash: int)
    | WorkspaceAction(incident: int, run: int, topology: int, projection: int, actionId: int, commandHash: int)

  datatype CaseRef = CaseRef(tenant: int, caseId: int, revision: int, workflowRun: int)

  datatype Actor = Actor(tenant: int, subject: int, roles: seq<int>)

  datatype Intent = Intent(id: int, where: CaseRef, subject: int, roles: seq<int>, expires: int, scope: Scope)

  /** Signatures are symbolic: a key applied to what was signed, or noise. */
  datatype Signature = Blank | Noise(n: int) | Signed(secret: int, material: Assertion)

  datatype Assertion = Assertion(
    jti: int, nonce: int, issuer: int, audience: int, keyId: int, where: CaseRef, subject: int, roles: seq<int>,
    issued: int, expires: int, scope: Scope, signature: Signature)

  datatype Authority = Authority(
    issuer: int, ownerAudience: int, nodeAudience: int, actionAudience: int, activeKey: int, keys: map<int, int>, ttl: int)

  datatype Denial =
    | KindMismatch | ScopeMismatch | IssuerInvalid | AudienceInvalid | ExpiredOrNotYetValid | KeyUnknown | SignatureInvalid
    | Replayed | IntentUnavailable | IntentKindMismatch | CaseNotAuthoritative | IntentExpired

  datatype Outcome<T> = Granted(value: T) | Denied(why: Denial)

  predicate SameKind(a: Scope, b: Scope) {
    a.OwnerGate? == b.OwnerGate? && a.NodeExplanation? == b.NodeExplanation?
  }

  function AudienceFor(authority: Authority, scope: Scope): int {
    match scope
    case OwnerGate(_, _) => authority.ownerAudience
    case NodeExplanation(_, _, _, _, _, _) => authority.nodeAudience
    case WorkspaceAction(_, _, _, _, _, _) => authority.actionAudience
  }

  function Unsigned(a: Assertion): Assertion { a.(signature := Blank) }

  function Min(a: int, b: int): int { if a < b then a else b }

  /** `issue_intent` and its two workspace variants, each for its own kind. */
  function Issue(authority: Authority, kind: Scope, intent: Intent, jti: int, nonce: int, now: int): Outcome<Assertion> {
    if !SameKind(intent.scope, kind) then Denied(IntentKindMismatch)
    else if !intent.scope.OwnerGate? && intent.expires <= now then Denied(IntentExpired)
    else if authority.activeKey !in authority.keys then Denied(KeyUnknown)
    else
      var expires := if intent.scope.OwnerGate? then now + authority.ttl else Min(intent.expires, now + authority.ttl);
      var unsigned := Assertion(
        jti, nonce, authority.issuer, AudienceFor(authority, intent.scope), authority.activeKey, intent.where,
        intent.subject, intent.roles, now, expires, intent.scope, Blank);
      Granted(unsigned.(signature := Signed(authority.keys[authority.activeKey], unsigned)))
  }

  /** Issuer, audience, time, key and signature, in the order they are checked. */
  function Check(authority: Authority, a: Assertion, audience: int, now: int): Option<Denial> {
    if a.issuer != authority.issuer then Some(IssuerInvalid)
    else if a.audience != audience then Some(AudienceInvalid)
    else if a.issued > now || a.expires <= now then Some(ExpiredOrNotYetValid)
    else if a.keyId !in authority.keys then Some(KeyUnknown)
    else if a.signature != Signed(authority.keys[a.keyId], Unsigned(a)) then Some(SignatureInvalid)
    else None
  }

  /** The assertion this authority would hand out for the content of `a`. */
  function Reissued(authority: Authority, a: Assertion): Assertion
    requires a.keyId in authority.keys
  {
    var unsigned := Unsigned(a).(issuer := authority.issuer);
    unsigned.(signature := Signed(authority.keys[a.keyId], unsigned))
  }

  /** An assertion passes exactly when this authority, asked again for its content,
      would hand out that very assertion, for that audience, and it is presented
      inside its window; so a signature passes with one content only. */
  lemma CheckPassesIff(authority: Authority, a: Assertion, audience: int, now: int)
    ensures Check(authority, a, audience, now).None? <==>
              a.keyId in authority.keys && Reissued(authority, a) == a && a.audience == audience && a.issued <= now < a.expires
    ensures Check(authority, a, audience, now).None? ==>
              forall b: Assertion, other: int, later: int | b.signature == a.signature && Check(authority, b, other, later).None? :: b == a
  {
    if Check(authority, a, audience, now).None? {
      forall b: Assertion, other: int, later: int | b.signature == a.signature && Check(authority, b, other, later).None? ensures b == a {
        assert Unsigned(b) == Unsigned(a);
        assert b == Unsigned(b).(signature := b.signature) && a == Unsigned(a).(signature := a.signature);
      }
    }
  }

  /** What is issued is what would be reissued, and passes throughout its window. */
  lemma IssuedPasses(authority: Authority, kind: Scope, intent: Intent, jti: int, nonce: int, at: int, now: int)
    requires Issue(authority, kind, intent, jti, nonce, at).Granted?
    ensures var a := Issue(authority, kind, intent, jti, nonce, at).value;
            && a.keyId in authority.keys && Reissued(authority, a) == a
            && (Check(authority, a, AudienceFor(authority, intent.scope), now).None? <==> at <= now < a.expires)
  {
  }

  /** `resolve` and its two workspace variants, before anything is consumed:
      the assertion against the authoritative case or binding and the command. */
  function Resolve(authority: Authority, a: Assertion, where: CaseRef, scope: Scope, now: int): Outcome<Actor> {
    if !SameKind(a.scope, scope) then Denied(KindMismatch)
    else if a.where != where || a.scope != scope then Denied(ScopeMismatch)
    else
      match Check(authority, a, AudienceFor(authority, scope), now)
      case Some(denial) => Denied(denial)
      case None => Granted(Actor(a.where.tenant, a.subject, a.roles))
  }

  /** A freshly minted assertion resolves for its own case and command at exactly
      the instants of its validity window. */
  lemma FreshResolvesIff(authority: Authority, kind: Scope, intent: Intent, jti: int, nonce: int, at: int, now: int)
    requires Issue(authority, kind, intent, jti, nonce, at).Granted?
    ensures var a := Issue(authority, kind, intent, jti, nonce, at).value;
            Resolve(authority, a, intent.where, intent.scope, now).Granted? <==>
              at <= now && now < at + authority.ttl && (intent.scope.OwnerGate? || now < intent.expires)
  {
  }

  // ---- The authority object -----------------------------------------------------------

  /** Key-id aware issuer and verifier with its in-memory consumption set. */
  class HmacAuthorizationAuthority {
    const authority: Authority
    var consumed: set<int>

    constructor (authority: Authority)
      ensures this.authority == authority && consumed == {}
    {
      this.authority, consumed := authority, {};
    }

    /** A failed resolution consumes nothing; a successful one consumes exactly
        the assertion it granted, and only when it was asked to. */
    method ResolveAssertion(a: Assertion, where: CaseRef, scope: Scope, now: int, consume: bool) returns (r: Outcome<Actor>)
      modifies this
      ensures r == (if consume && a.jti in old(consumed) && Resolve(authority, a, where, scope, now).Granted? then Denied(Replayed)
                    else Resolve(authority, a, where, scope, now))
      ensures consumed == old(consumed) + if consume && r.Granted? then {a.jti} else {}
    {
      if !SameKind(a.scope, scope) { return Denied(KindMismatch); }
      if a.where != where || a.scope != scope { return Denied(ScopeMismatch); }
      var refusal := VerifySignatureAndTime(a, AudienceFor(authority, scope), now);
      if refusal.Some? { return Denied(refusal.value); }
      if consume {
        if a.jti in consumed { return Denied(Replayed); }
        consumed := consumed + {a.jti};
      }
      r := Granted(Actor(a.where.tenant, a.subject, a.roles));
    }

    /** Not refused means: issued by this authority for this audience, unexpired, and
        carrying the one signature that belongs to its content and to no other. */
    method VerifySignatureAndTime(a: Assertion, audience: int, now: int) returns (refusal: Option<Denial>)
      ensures refusal.None? <==>
                a.keyId in authority.keys && Reissued(authority, a) == a && a.audience == audience && a.issued <= now < a.expires
      ensures refusal.None? ==>
                forall b: Assertion, other: int, later: int | b.signature == a.signature && Check(authority, b, other, later).None? :: b == a
      ensures refusal == Check(authority, a, audience, now)
    {
      CheckPassesIff(authority, a, audience, now);
      if a.issuer != authority.issuer { return Some(IssuerInvalid); }
      if a.audience != audience { return Some(AudienceInvalid); }
      if a.issued > now || a.expires <= now { return Some(ExpiredOrNotYetValid); }
      if a.keyId !in authority.keys { return Some(KeyUnknown); }
      var expected := Signed(authority.keys[a.keyId], Unsigned(a));
      if expected != a.signature { return Some(SignatureInvalid); }
      refusal := None;
    }
  }

  // ---- The service: concurrent mint and verify requests ---------------------------------

  datatype Status = Pending | Minted

  datatype IntentRow = IntentRow(intent: Intent, status: Status)

  /** A request of one mint endpoint, with the intent its transaction handed out. */
  datatype Minting = Minting(intent: Intent, kind: Scope)

  datatype Grant = Grant(assertion: Assertion, actor: Actor, where: CaseRef, scope: Scope)

  /** `minting` holds requests between the intent transaction and the signing;
      `verifying` those between the check and the consumption insert. */
  datatype State = State(
    authority: Authority,
    intents: map<int, IntentRow>,
    minting: map<int, Minting>,
    issued: map<int, (Assertion, int)>,
    verifying: map<int, Grant>,
    consumptions: set<int>,
    grants: seq<Grant>)

  datatype Step =
    | CreateIntent(intent: Intent)
    | ConsumeIntent(request: int, tenant: int, intentId: int, kind: Scope, dbNow: int, caseKnown: bool)
    | Sign(request: int, jti: int, nonce: int, now: int)
    | Verify(request: int, assertion: Assertion, where: CaseRef, scope: Scope, now: int)
    | Consume(request: int)
    | Drop(request: int)

  function Initial(authority: Authority): State {
    State(authority, map[], map[], map[], map[], {}, [])
  }

  /** A caller can present a signature only if it was issued. */
  ghost predicate Presentable(s: State, a: Assertion) {
    a.signature.Signed? ==> exists jti :: jti in s.issued && s.issued[jti].0.signature == a.signature
  }

  /** `SELECT ... PENDING ... FOR UPDATE`, the checks, and the status update. */
  function ConsumeIntentRow(s: State, tenant: int, intentId: int, kind: Scope, dbNow: int, caseKnown: bool): Outcome<Intent> {
    if intentId !in s.intents || s.intents[intentId].intent.where.tenant != tenant
       || s.intents[intentId].status != Pending || s.intents[intentId].intent.expires <= dbNow
    then Denied(IntentUnavailable)
    else if !SameKind(s.intents[intentId].intent.scope, kind) then Denied(IntentKindMismatch)
    else if !caseKnown then Denied(CaseNotAuthoritative)
    else Granted(s.intents[intentId].intent)
  }

  ghost function Next(s: State, step: Step): State {
    match step
    case CreateIntent(intent) =>
      if intent.id in s.intents then s else s.(intents := s.intents[intent.id := IntentRow(intent, Pending)])
    case ConsumeIntent(request, tenant, intentId, kind, dbNow, caseKnown) =>
      var row := ConsumeIntentRow(s, tenant, intentId, kind, dbNow, caseKnown);
      if request in s.minting || row.Denied? then s
      else s.(intents := s.intents[intentId := IntentRow(row.value, Minted)], minting := s.minting[request := Minting(row.value, kind)])
    case Sign(request, jti, nonce, now) =>
      if request !in s.minting || jti in s.issued then s
      else
        var intent, left := s.minting[request].intent, s.(minting := s.minting - {request});
        var r := Issue(s.authority, s.minting[request].kind, intent, jti, nonce, now);
        if r.Denied? then left else left.(issued := s.issued[jti := (r.value, intent.id)])
    case Verify(request, a, where, scope, now) =>
      var r := Resolve(s.authority, a, where, scope, now);
      if request in s.verifying || !Presentable(s, a) || r.Denied? then s
      else s.(verifying := s.verifying[request := Grant(a, r.value, where, scope)])
    case Consume(request) =>
      if request !in s.verifying then s
      else
        var grant, left := s.verifying[request], s.(verifying := s.verifying - {request});
        if grant.assertion.jti in s.consumptions then left
        else left.(consumptions := s.consumptions + {grant.assertion.jti}, grants := s.grants + [grant])
    case Drop(request) => s.(minting := s.minting - {request}, verifying := s.verifying - {request})
  }

  ghost function Run(authority: Authority, steps: seq<Step>): State {
    if steps == [] then Initial(authority) else Next(Run(authority, steps[..|steps| - 1]), steps[|steps| - 1])
  }

  // ---- Conservation ------------------------------------------------------------------

  /** What a grant rests on: an assertion issued for an intent with that very
      case, command, subject and roles. */
  ghost predicate Backed(s: State, g: Grant) {
    && g.assertion.jti in s.issued && s.issued[g.assertion.jti].0 == g.assertion
    && var id := s.issued[g.assertion.jti].1;
       && id in s.intents && s.intents[id].status == Minted
       && var intent := s.intents[id].intent;
          && g.where == intent.where && g.scope == intent.scope
          && g.actor == Actor(intent.where.tenant, intent.subject, intent.roles)
  }

  ghost predicate IssuedGood(s: State, jti: int)
    requires jti in s.issued
  {
    var a, id := s.issued[jti].0, s.issued[jti].1;
    && a.jti == jti
    && a.signature.Signed? && a.signature.material == Unsigned(a)
    && id in s.intents && s.intents[id].status == Minted
    && a.where == s.intents[id].intent.where && a.scope == s.intents[id].intent.scope
    && a.subject == s.intents[id].intent.subject && a.roles == s.intents[id].intent.roles
  }

  /** Each minted intent is in at most one request or behind at most one assertion. */
  ghost predicate MintGood(s: State) {
    && (forall id | id in s.intents :: s.intents[id].intent.id == id)
    && (forall r | r in s.minting ::
          && s.minting[r].intent.id in s.intents && s.intents[s.minting[r].intent.id] == IntentRow(s.minting[r].intent, Minted)
          && SameKind(s.minting[r].intent.scope, s.minting[r].kind))
    && (forall r, q | r in s.minting && q in s.minting && s.minting[r].intent.id == s.minting[q].intent.id :: r == q)
    && (forall jti | jti in s.issued :: IssuedGood(s, jti))
    && (forall i, j | i in s.issued && j in s.issued && s.issued[i].1 == s.issued[j].1 :: i == j)
    && (forall jti, r | jti in s.issued && r in s.minting :: s.issued[jti].1 != s.minting[r].intent.id)
  }

  /** Everything granted, or about to be, is backed; and granted once. */
  ghost predicate GrantGood(s: State) {
    && (forall r | r in s.verifying :: Backed(s, s.verifying[r]))
    && (forall k | 0 <= k < |s.grants| :: Backed(s, s.grants[k]) && s.grants[k].assertion.jti in s.consumptions)
    && (forall i, j | 0 <= i < j < |s.grants| :: s.grants[i].assertion.jti != s.grants[j].assertion.jti)
  }

  ghost predicate Inv(s: State) {
    MintGood(s) && GrantGood(s)
  }

  /** Intents only go from pending to minted and issued assertions stay. */
  ghost predicate Onward(s: State, s': State) {
    && (forall id | id in s.intents :: id in s'.intents && s'.intents[id].intent == s.intents[id].intent
                                       && (s.intents[id].status == Minted ==> s'.intents[id].status == Minted))
    && (forall jti | jti in s.issued :: jti in s'.issued && s'.issued[jti] == s.issued[jti])
    && s.grants <= s'.grants && s.consumptions <= s'.consumptions
  }

  lemma BackedOnward(s: State, s': State, g: Grant)
    requires Backed(s, g) && Onward(s, s')
    ensures Backed(s', g)
  {
  }

  lemma IssuedOnward(s: State, s': State, jti: int)
    requires jti in s.issued && IssuedGood(s, jti) && Onward(s, s')
    ensures IssuedGood(s', jti)
  {
  }

  lemma GrantsOnward(s: State, s': State)
    requires GrantGood(s) && Onward(s, s') && s'.verifying == s.verifying && s'.grants == s.grants
    ensures GrantGood(s')
  {
    hide Backed;
    forall r | r in s'.verifying ensures Backed(s', s'.verifying[r]) { BackedOnward(s, s', s.verifying[r]); }
    forall k | 0 <= k < |s'.grants| ensures Backed(s', s'.grants[k]) { BackedOnward(s, s', s.grants[k]); }
    hide Onward;
    assert s.consumptions <= s'.consumptions by { OnwardConsumptions(s, s'); }
  }

  lemma OnwardConsumptions(s: State, s': State)
    requires Onward(s, s')
    ensures s.consumptions <= s'.consumptions
  {
  }

  /** A pending intent has no request in flight and no assertion. */
  lemma NotYetMinted(s: State, id: int)
    requires MintGood(s) && id in s.intents && s.intents[id].status == Pending
    ensures forall r | r in s.minting :: s.minting[r].intent.id != id
    ensures forall jti | jti in s.issued :: s.issued[jti].1 != id
  {
    forall jti | jti in s.issued ensures s.issued[jti].1 != id { assert IssuedGood(s, jti); }
  }

  lemma CreateKeeps(s: State, step: Step)
    requires Inv(s) && step.CreateIntent?
    ensures Inv(Next(s, step)) && Onward(s, Next(s, step))
  {
    hide IssuedGood, GrantGood, Inv, Onward, MintGood;
    var s' := Next(s, step);
    if s' != s {
      InvParts(s);
      CreatedRow(s, step.intent);
      GrantsOnward(s, s');
      PartsInv(s');
    } else {
      OnwardSelf(s);
    }
  }

  lemma CreatedRow(s: State, intent: Intent)
    requires MintGood(s) && intent.id !in s.intents
    ensures var s' := s.(intents := s.intents[intent.id := IntentRow(intent, Pending)]); MintGood(s') && Onward(s, s')
  {
    hide IssuedGood;
    var s' := s.(intents := s.intents[intent.id := IntentRow(intent, Pending)]);
    assert Onward(s, s');
    forall jti | jti in s'.issued ensures IssuedGood(s', jti) { IssuedOnward(s, s', jti); }
    hide Onward;
  }

  lemma MintKeeps(s: State, step: Step)
    requires Inv(s) && step.ConsumeIntent?
    ensures Inv(Next(s, step)) && Onward(s, Next(s, step))
  {
    hide IssuedGood, GrantGood, Inv, Onward, MintGood;
    var s' := Next(s, step);
    if s' != s {
      MintedRow(s, step.request, step.intentId, step.kind) by { assert MintGood(s) by { InvParts(s); } }
      InvParts(s);
      GrantsOnward(s, s');
      PartsInv(s');
    } else {
      OnwardSelf(s);
    }
  }

  lemma InvParts(s: State)
    requires Inv(s)
    ensures MintGood(s) && GrantGood(s)
  {
  }

  lemma PartsInv(s: State)
    requires MintGood(s) && GrantGood(s)
    ensures Inv(s)
  {
  }

  lemma OnwardSelf(s: State)
    ensures Onward(s, s)
  {
  }

  lemma MintedRow(s: State, request: int, id: int, kind: Scope)
    requires MintGood(s) && id in s.intents && s.intents[id].status == Pending && request !in s.minting
    requires SameKind(s.intents[id].intent.scope, kind)
    ensures var intent := s.intents[id].intent;
            var s' := s.(intents := s.intents[id := IntentRow(intent, Minted)], minting := s.minting[request := Minting(intent, kind)]);
            MintGood(s') && Onward(s, s')
  {
    hide IssuedGood;
    var intent := s.intents[id].intent;
    var s' := s.(intents := s.intents[id := IntentRow(intent, Minted)], minting := s.minting[request := Minting(intent, kind)]);
    NotYetMinted(s, id);
    assert Onward(s, s');
    forall jti | jti in s'.issued ensures IssuedGood(s', jti) { IssuedOnward(s, s', jti); }
    hide Onward;
  }

  lemma SignKeeps(s: State, step: Step)
    requires Inv(s) && step.Sign?
    ensures Inv(Next(s, step)) && Onward(s, Next(s, step))
  {
    hide GrantGood, Issue, IssuedGood;
    var s' := Next(s, step);
    assert Onward(s, s') && s'.grants == s.grants && s'.verifying == s.verifying;
    GrantsOnward(s, s');
    forall jti | jti in s'.issued ensures IssuedGood(s', jti) {
      if jti in s.issued { IssuedOnward(s, s', jti); } else { SignedGood(s, step); }
    }
    hide Onward;
  }

  lemma SignedGood(s: State, step: Step)
    requires MintGood(s) && step.Sign? && step.request in s.minting && step.jti !in s.issued
    requires Issue(s.authority, s.minting[step.request].kind, s.minting[step.request].intent, step.jti, step.nonce, step.now).Granted?
    ensures IssuedGood(Next(s, step), step.jti)
  {
  }

  /** A signature that verifies is the one on an issued assertion, which is then
      the very assertion presented. */
  lemma VerifiedIsIssued(s: State, a: Assertion, where: CaseRef, scope: Scope, now: int)
    requires MintGood(s) && Presentable(s, a) && Resolve(s.authority, a, where, scope, now).Granted?
    ensures Backed(s, Grant(a, Resolve(s.authority, a, where, scope, now).value, where, scope))
  {
    var jti :| jti in s.issued && s.issued[jti].0.signature == a.signature;
    var b := s.issued[jti].0;
    assert IssuedGood(s, jti);
    assert Unsigned(a) == Unsigned(b);
    assert a == Unsigned(a).(signature := a.signature) && b == Unsigned(b).(signature := b.signature);
  }

  lemma VerifyKeeps(s: State, step: Step)
    requires Inv(s) && step.Verify?
    ensures Inv(Next(s, step)) && Onward(s, Next(s, step))
  {
    hide Resolve, Presentable, IssuedGood, Backed;
    var s' := Next(s, step);
    assert Onward(s, s') && s'.issued == s.issued && s'.minting == s.minting;
    forall jti | jti in s'.issued ensures IssuedGood(s', jti) { IssuedOnward(s, s', jti); }
    if s' != s { VerifiedIsIssued(s, step.assertion, step.where, step.scope, step.now); }
    forall r | r in s'.verifying ensures Backed(s', s'.verifying[r]) { BackedOnward(s, s', s'.verifying[r]); }
    forall k | 0 <= k < |s'.grants| ensures Backed(s', s'.grants[k]) { BackedOnward(s, s', s.grants[k]); }
  }

  lemma ConsumeKeeps(s: State, step: Step)
    requires Inv(s) && (step.Consume? || step.Drop?)
    ensures Inv(Next(s, step)) && Onward(s, Next(s, step))
  {
    hide IssuedGood, Backed, Resolve, Issue;
    var s' := Next(s, step);
    assert Onward(s, s') && s'.issued == s.issued && s'.intents == s.intents;
    assert MintGood(s') by {
      forall jti | jti in s'.issued ensures IssuedGood(s', jti) { IssuedOnward(s, s', jti); }
    }
    hide Onward, MintGood;
    assert GrantGood(s') by { ConsumedGood(s, step); }
  }

  lemma ConsumedGood(s: State, step: Step)
    requires GrantGood(s) && (step.Consume? || step.Drop?) && Onward(s, Next(s, step))
    ensures GrantGood(Next(s, step))
  {
    hide Backed, Resolve, Issue, Onward;
    var s' := Next(s, step);
    assert forall g: Grant {:trigger Backed(s', g)} :: Backed(s, g) ==> Backed(s', g) by {
      forall g: Grant ensures Backed(s, g) ==> Backed(s', g) {
        if Backed(s, g) { BackedOnward(s, s', g); }
      }
    }
  }

  lemma StepKeeps(s: State, step: Step)
    requires Inv(s)
    ensures Inv(Next(s, step)) && Onward(s, Next(s, step))
  {
    hide Next, Inv, Onward;
    match step {
      case CreateIntent(_) => CreateKeeps(s, step);
      case ConsumeIntent(_, _, _, _, _, _) => MintKeeps(s, step);
      case Sign(_, _, _, _) => SignKeeps(s, step);
      case Verify(_, _, _, _, _) => VerifyKeeps(s, step);
      case Consume(_) => ConsumeKeeps(s, step);
      case Drop(_) => ConsumeKeeps(s, step);
    }
  }

  lemma {:induction false} Reachable(authority: Authority, steps: seq<Step>)
    ensures Inv(Run(authority, steps))
    decreases |steps|
  {
    hide Next;
    if steps != [] {
      Reachable(authority, steps[..|steps| - 1]);
      hide Inv;
      StepKeeps(Run(authority, steps[..|steps| - 1]), steps[|steps| - 1]);
    }
  }

  /** Conservation over every interleaving of mint and verify requests: an intent
      yields at most one assertion, an assertion at most one granted context, and
      each granted context carries the tenant, subject and roles of an intent for
      exactly the case and command it was granted for. */
  lemma Conservation(authority: Authority, steps: seq<Step>)
    ensures var s := Run(authority, steps);
            && (forall i, j | i in s.issued && j in s.issued && s.issued[i].1 == s.issued[j].1 :: i == j)
            && (forall i, j | 0 <= i < j < |s.grants| :: s.grants[i].assertion.jti != s.grants[j].assertion.jti)
            && (forall k | 0 <= k < |s.grants| :: Backed(s, s.grants[k]))
    ensures var s := Run(authority, steps); |s.grants| <= |s.issued| <= |s.intents|
  {
    Reachable(authority, steps);
    hide Run;
    var s := Run(authority, steps);
    AssertionsFit(s);
    GrantsFit(s.grants, s.issued.Keys);
  }

  lemma AssertionsFit(s: State)
    requires MintGood(s)
    ensures |s.issued| <= |s.intents|
  {
    var from := map jti | jti in s.issued :: s.issued[jti].1;
    forall jti | jti in s.issued.Keys ensures jti in from && from[jti] in s.intents.Keys {
      assert IssuedGood(s, jti);
    }
    assert forall i, j | i in s.issued.Keys && j in s.issued.Keys && from[i] == from[j] :: i == j;
    Injects(s.issued.Keys, s.intents.Keys, from);
  }

  lemma {:induction false} Injects<X, Y>(a: set<X>, b: set<Y>, f: map<X, Y>)
    requires forall x | x in a :: x in f && f[x] in b
    requires forall x, y | x in a && y in a && f[x] == f[y] :: x == y
    ensures |a| <= |b|
    decreases |a|
  {
    if a != {} {
      var x :| x in a;
      Injects(a - {x}, b - {f[x]}, f);
    }
  }

  lemma {:induction false} GrantsFit(grants: seq<Grant>, ids: set<int>)
    requires forall k | 0 <= k < |grants| :: grants[k].assertion.jti in ids
    requires forall i, j | 0 <= i < j < |grants| :: grants[i].assertion.jti != grants[j].assertion.jti
    ensures |grants| <= |ids|
    decreases |grants|
  {
    if grants != [] {
      var n := |grants| - 1;
      GrantsFit(grants[..n], ids - {grants[n].assertion.jti});
    }
  }

  /** Handed out once: from the first transaction that takes an intent on, every
      later one is told it is unknown, expired or consumed; and the kind checked
      by that transaction is the kind the signing endpoint checks again. */
  lemma {:induction false} HandedOutOnce(s: State, steps: seq<Step>, id: int, tenant: int, kind: Scope, dbNow: int, caseKnown: bool)
    requires Inv(s) && id in s.intents && s.intents[id].status == Minted
    ensures Inv(RunFrom(s, steps)) && id in RunFrom(s, steps).intents && RunFrom(s, steps).intents[id].status == Minted
    ensures ConsumeIntentRow(RunFrom(s, steps), tenant, id, kind, dbNow, caseKnown) == Denied(IntentUnavailable)
    ensures forall r | r in RunFrom(s, steps).minting :: SameKind(RunFrom(s, steps).minting[r].intent.scope, RunFrom(s, steps).minting[r].kind)
    decreases |steps|
  {
    hide Next;
    if steps != [] {
      HandedOutOnce(s, steps[..|steps| - 1], id, tenant, kind, dbNow, caseKnown);
      StepKeeps(RunFrom(s, steps[..|steps| - 1]), steps[|steps| - 1]);
    }
    hide IssuedGood, GrantGood;
  }

  /** A request that is denied at any stage consumes no assertion and grants
      nothing; one that is granted consumes exactly its own assertion. */
  lemma DeniedConsumesNothing(authority: Authority, steps: seq<Step>, step: Step)
    ensures var s, s' := Run(authority, steps), Next(Run(authority, steps), step);
            if s'.grants == s.grants then s'.consumptions == s.consumptions
            else step.Consume? && step.request in s.verifying
                 && s'.grants == s.grants + [s.verifying[step.request]]
                 && s.verifying[step.request].assertion.jti !in s.consumptions
                 && s'.consumptions == s.consumptions + {s.verifying[step.request].assertion.jti}
  {
    hide Run, Resolve, Issue;
  }

  /** Two requests may both pass the check with the same assertion; whichever
      inserts second is turned down. */
  lemma SecondConsumeDenied(s: State, first: int, second: int)
    requires first in s.verifying && second in s.verifying && first != second
    requires s.verifying[first].assertion.jti == s.verifying[second].assertion.jti
    ensures Next(Next(s, Consume(first)), Consume(second)).grants == Next(s, Consume(first)).grants
    ensures s.verifying[first].assertion.jti in Next(s, Consume(first)).consumptions
  {
    hide Resolve, Issue;
  }

  /** An intent spent without an assertion: its row is minted, no request carries
      it and nothing was issued for it. */
  ghost predicate Burned(s: State, id: int) {
    id in s.intents && s.intents[id].status == Minted
    && (forall r | r in s.minting :: s.minting[r].intent.id != id)
    && (forall jti | jti in s.issued :: s.issued[jti].1 != id)
  }

  /** A workspace intent that expires between its transaction and its signing is
      burned: the command can never be authorized from it. */
  lemma LateSigningBurns(s: State, request: int, jti: int, nonce: int, now: int)
    requires Inv(s) && request in s.minting && jti !in s.issued && s.authority.activeKey in s.authority.keys
    ensures Burned(Next(s, Sign(request, jti, nonce, now)), s.minting[request].intent.id) <==>
              !s.minting[request].intent.scope.OwnerGate? && s.minting[request].intent.expires <= now
  {
    hide GrantGood, IssuedGood;
    var s', intent := Next(s, Sign(request, jti, nonce, now)), s.minting[request].intent;
    if Issue(s.authority, s.minting[request].kind, intent, jti, nonce, now).Granted? {
      assert jti in s'.issued && s'.issued[jti].1 == intent.id;
    } else {
      assert s'.issued == s.issued && forall r | r in s'.minting :: s'.minting[r].intent.id != intent.id;
    }
  }

  lemma BurnedStep(s: State, step: Step, id: int)
    requires Inv(s) && Burned(s, id)
    ensures Burned(Next(s, step), id)
  {
    hide Resolve, Issue, IssuedGood, GrantGood;
  }

  lemma {:induction false} BurnedForever(s: State, steps: seq<Step>, id: int)
    requires Inv(s) && Burned(s, id)
    ensures Inv(RunFrom(s, steps)) && Burned(RunFrom(s, steps), id)
    decreases |steps|
  {
    hide Next, Inv, Burned;
    if steps != [] {
      BurnedForever(s, steps[..|steps| - 1], id);
      StepKeeps(RunFrom(s, steps[..|steps| - 1]), steps[|steps| - 1]);
      BurnedStep(RunFrom(s, steps[..|steps| - 1]), steps[|steps| - 1], id);
    }
  }

  ghost function RunFrom(s: State, steps: seq<Step>): State {
    if steps == [] then s else Next(RunFrom(s, steps[..|steps| - 1]), steps[|steps| - 1])
  }
}
