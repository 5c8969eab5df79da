/** The ledger object: promotions update its dictionary in place, retrieval walks
    it in whatever order it comes. */
module KnowledgePlane {
  import opened Options
  import opened SortedLists
  import opened Knowledge

  const DAY := 86400

  /** A retrieval request; `mentions` stands for the lexical match. */
  datatype Query = Query(tenant: int, actor: int, environment: int, entities: set<int>, now: int, mentions: Revision -> bool)

  datatype Candidate = Candidate(id: int, document: int, score: real, current: bool)

  predicate Eligible(q: Query, r: Revision) {
    && r.tenant == q.tenant && r.status == Active && q.actor in r.subjects
    && r.environment == q.environment && r.entities * q.entities != {}
    && r.effective <= q.now && (r.expires.Some? ==> r.expires.value > q.now)
    && q.now - r.effective <= 30 * DAY
  }

  function CandidateOf(q: Query, r: Revision): Candidate {
    Candidate(r.id, r.document, if q.mentions(r) then 1.0 else 0.5, q.now - r.effective <= 7 * DAY)
  }

  function Candidates(plane: Plane, q: Query): set<Candidate> {
    set id | id in plane && Eligible(q, plane[id]) :: CandidateOf(q, plane[id])
  }

  /** Score descending, then revision id ascending. */
  predicate Ahead(a: Candidate, b: Candidate) {
    a.score > b.score || (a.score == b.score && a.id < b.id)
  }

  lemma AheadOrder(digest: int -> int, plane: Plane, q: Query)
    requires Good(digest, plane)
    ensures StrictOrder(Ahead) && TotalOn(Ahead, Candidates(plane, q))
  {
    forall x, y | x in Candidates(plane, q) && y in Candidates(plane, q) && x != y ensures Ahead(x, y) || Ahead(y, x) {
      var a :| a in plane && Eligible(q, plane[a]) && CandidateOf(q, plane[a]) == x;
      var b :| b in plane && Eligible(q, plane[b]) && CandidateOf(q, plane[b]) == y;
      assert Linked(digest, plane, a) && Linked(digest, plane, b);
    }
  }

  /** `xs[:limit]`, with the sign convention of the source's slices. */
  function Slice<T>(xs: seq<T>, limit: int): seq<T> {
    if limit >= |xs| then xs
    else if limit >= 0 then xs[..limit]
    else if |xs| + limit >= 0 then xs[..|xs| + limit]
    else []
  }

  ghost function Ranked(digest: int -> int, plane: Plane, q: Query): (xs: seq<Candidate>)
    requires Good(digest, plane)
    ensures Lists(Ahead, xs, Candidates(plane, q))
  {
    AheadOrder(digest, plane, q);
    Listing(Ahead, Candidates(plane, q))
  }

  /** What is retrieved comes from the front of the ranking: nothing eligible that
      was left out is ahead of anything returned, and as many are returned as the
      limit and the plane allow. */
  lemma RetrievesTheBest(digest: int -> int, plane: Plane, q: Query, limit: nat)
    requires Good(digest, plane)
    ensures var got := Slice(Ranked(digest, plane, q), limit);
            && |got| == (if limit < |Candidates(plane, q)| then limit else |Candidates(plane, q)|)
            && (forall x, y | x in got && y in Candidates(plane, q) && y !in got :: Ahead(x, y))
            && (forall x | x in got :: x in Candidates(plane, q))
  {
    AheadOrder(digest, plane, q);
    var all := Ranked(digest, plane, q);
    SortedLength(Ahead, all);
    forall x, y | x in Slice(all, limit) && y in Candidates(plane, q) && y !in Slice(all, limit) ensures Ahead(x, y) {
      assert y in Elements(all);
      var i :| 0 <= i < |Slice(all, limit)| && Slice(all, limit)[i] == x;
      var j :| 0 <= j < |all| && all[j] == y;
      assert i < j;
    }
    forall x | x in Slice(all, limit) ensures x in Candidates(plane, q) { assert x in Elements(all); }
  }

  /** At most one revision of a document is ever retrieved. */
  lemma OnePerDocument(digest: int -> int, plane: Plane, q: Query, x: Candidate, y: Candidate)
    requires Good(digest, plane) && x in Candidates(plane, q) && y in Candidates(plane, q) && x.document == y.document
    ensures x == y
  {
    var a :| a in plane && Eligible(q, plane[a]) && CandidateOf(q, plane[a]) == x;
    var b :| b in plane && Eligible(q, plane[b]) && CandidateOf(q, plane[b]) == y;
    assert Linked(digest, plane, a) && Linked(digest, plane, b);
    assert SameDocument(plane[a], plane[b]) && SameDocument(plane[b], plane[a]);
  }

  class KnowledgePlane {
    const digest: int -> int
    var revisions: Plane

    ghost predicate Valid()
      reads this
    {
      Good(digest, revisions)
    }

    constructor (digest: int -> int)
      ensures this.digest == digest && revisions == map[] && Valid()
    {
      this.digest, revisions := digest, map[];
    }

    method DocumentRecords(tenant: int, document: int) returns (records: seq<Revision>)
      ensures Elements(records) == Records(revisions, tenant, document)
    {
      records := [];
      var todo := revisions.Keys;
      while todo != {}
        invariant todo <= revisions.Keys
        invariant Elements(records) == set id | id in revisions && id !in todo && OfDocument(revisions[id], tenant, document) :: revisions[id]
        decreases |todo|
      {
        var id := Pick(todo);
        ghost var before := records;
        if OfDocument(revisions[id], tenant, document) { records := records + [revisions[id]]; }
        todo := todo - {id};
        assert Elements(records) == Elements(before) + if OfDocument(revisions[id], tenant, document) then {revisions[id]} else {};
      }
    }

    static method MaxByNumber(records: seq<Revision>) returns (newest: Revision)
      requires records != []
      ensures IsNewest(newest, Elements(records))
    {
      newest := records[0];
      var i := 1;
      while i < |records|
        invariant 1 <= i <= |records| && newest in records
        invariant forall j | 0 <= j < i :: records[j].number <= newest.number
      {
        if records[i].number > newest.number { newest := records[i]; }
        i := i + 1;
      }
    }

    /** One promotion: accepted, already known, or refused for one reason; the
        dictionary changes only when it is accepted. */
    method Promote(r: Revision, reviewed: bool) returns (refusal: Option<Reason>)
      requires Valid()
      modifies this
      ensures Valid() && Onward(old(revisions), revisions)
      ensures var outcome := Ingest(digest, old(revisions), r, reviewed);
              && revisions == After(old(revisions), outcome)
              && refusal == if outcome.Refused? then Some(outcome.reason) else None
      ensures refusal != Some(TargetNotActive)
    {
      hide Good, Onward;
      IngestKeeps(digest, revisions, r, reviewed);
      TargetAlwaysActive(digest, revisions, r, reviewed);
      if !reviewed { return Some(NeedsReview); }
      if r.status != Active { return Some(OnlyActive); }
      if digest(r.content) != r.contentHash { return Some(HashMismatch); }
      if r.id in revisions { return if revisions[r.id] != r then Some(IdCollision) else None; }
      var records := DocumentRecords(r.tenant, r.document);
      assert records != [] <==> Records(revisions, r.tenant, r.document) != {} by {
        if records != [] { assert records[0] in Elements(records); }
      }
      var taken, differs := SameRevision(records, r);
      if taken { return if differs then Some(SameRevisionDiffers) else None; }
      if records != [] {
        var prior := MaxByNumber(records);
        NewestUnique(digest, revisions, r.tenant, r.document, prior);
        if r.number <= prior.number { return Some(NotIncreasing); }
        if r.supersedes != Some(prior.id) { return Some(TargetInvalid); }
        if prior.status != Active { return Some(TargetNotActive); }
        revisions := revisions[prior.id := prior.(status := Superseded)];
      } else if r.supersedes.Some? {
        var target := r.supersedes.value;
        if target in revisions && revisions[target].tenant == r.tenant && revisions[target].document != r.document {
          return Some(DocumentMismatch);
        }
        return Some(TargetInvalid);
      }
      revisions := revisions[r.id := r];
      refusal := None;
    }

    /** `same_revision`, and whether any of it has another content hash. */
    static method SameRevision(records: seq<Revision>, r: Revision) returns (taken: bool, differs: bool)
      ensures var same := set x | x in Elements(records) && x.number == r.number;
              taken == (same != {}) && differs == exists x :: x in same && x.contentHash != r.contentHash
    {
      taken, differs := false, false;
      var i := 0;
      while i < |records|
        invariant 0 <= i <= |records|
        invariant taken == exists j :: 0 <= j < i && records[j].number == r.number
        invariant differs == exists j :: 0 <= j < i && records[j].number == r.number && records[j].contentHash != r.contentHash
      {
        if records[i].number == r.number {
          taken := true;
          differs := differs || records[i].contentHash != r.contentHash;
        }
        i := i + 1;
      }
      ghost var same := set x | x in Elements(records) && x.number == r.number;
      if taken {
        var j :| 0 <= j < |records| && records[j].number == r.number;
        assert records[j] in same;
      }
      if differs {
        var j :| 0 <= j < |records| && records[j].number == r.number && records[j].contentHash != r.contentHash;
        assert records[j] in same;
      }
      if same != {} {
        var x :| x in same;
        assert x in Elements(records);
      }
    }

    /** Filter, rank and cut. The hash check, which would stop the retrieval,
        never fails, and the order of the dictionary does not matter. */
    method Retrieve(q: Query, limit: int) returns (found: Option<seq<Candidate>>)
      requires Valid()
      ensures found == Some(Slice(Ranked(digest, revisions, q), limit))
    {
      hide Good;
      var candidates: seq<Candidate> := [];
      var todo := revisions.Keys;
      while todo != {}
        invariant todo <= revisions.Keys
        invariant Elements(candidates) == set id | id in revisions && id !in todo && Eligible(q, revisions[id]) :: CandidateOf(q, revisions[id])
        decreases |todo|
      {
        var id := Pick(todo);
        HashHolds(digest, revisions, id);
        if digest(revisions[id].content) != revisions[id].contentHash { return None; }
        ghost var before := candidates;
        if Eligible(q, revisions[id]) { candidates := candidates + [CandidateOf(q, revisions[id])]; }
        todo := todo - {id};
        assert Elements(candidates) == Elements(before) + if Eligible(q, revisions[id]) then {CandidateOf(q, revisions[id])} else {};
      }
      assert Elements(candidates) == Candidates(revisions, q);
      AheadOrder(digest, revisions, q);
      assert forall x | x in candidates :: x in Elements(candidates);
      var sorted := SortDistinct(Ahead, candidates);
      SortedUnique(Ahead, sorted, Ranked(digest, revisions, q));
      found := Some(Slice(sorted, limit));
    }
  }

  lemma HashHolds(digest: int -> int, plane: Plane, id: int)
    requires Good(digest, plane) && id in plane
    ensures digest(plane[id].content) == plane[id].contentHash
  {
    assert Linked(digest, plane, id);
  }

  /** The largest number of a document is held by one revision only. */
  lemma NewestUnique(digest: int -> int, plane: Plane, tenant: int, document: int, r: Revision)
    requires Good(digest, plane) && IsNewest(r, Records(plane, tenant, document))
    ensures r == Newest(Records(plane, tenant, document))
  {
    var n := Newest(Records(plane, tenant, document));
    Found(digest, plane, tenant, document, r);
    Found(digest, plane, tenant, document, n);
  }
}
