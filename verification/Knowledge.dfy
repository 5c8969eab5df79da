/** The owner-reviewed document ledger and its deterministic retrieval. */
module Knowledge {
  import opened Options
  import opened SortedLists

  datatype Status = Active | Superseded

  datatype Revision = Revision(
    id: int, tenant: int, document: int, number: int, status: Status, supersedes: Option<int>,
    content: int, contentHash: int, subjects: set<int>, entities: set<int>, environment: int,
    effective: int, expires: Option<int>)

  type Plane = map<int, Revision>

  datatype Reason =
    | NeedsReview | OnlyActive | HashMismatch | IdCollision | SameRevisionDiffers | NotIncreasing
    | TargetInvalid | TargetNotActive | DocumentMismatch

  datatype Outcome = Stored(plane: Plane) | Known | Refused(reason: Reason)

  predicate OfDocument(r: Revision, tenant: int, document: int) {
    r.tenant == tenant && r.document == document
  }

  function Records(plane: Plane, tenant: int, document: int): set<Revision> {
    set id | id in plane && OfDocument(plane[id], tenant, document) :: plane[id]
  }

  ghost predicate IsNewest(r: Revision, records: set<Revision>) {
    r in records && forall x | x in records :: x.number <= r.number
  }

  lemma {:induction false} HasNewest(records: set<Revision>)
    requires records != {}
    ensures exists r :: IsNewest(r, records)
    decreases |records|
  {
    var r :| r in records;
    if forall x | x in records :: x.number <= r.number {
      assert IsNewest(r, records);
    } else {
      HasNewest(records - {r});
      var n :| IsNewest(n, records - {r});
      assert IsNewest(if n.number < r.number then r else n, records);
    }
  }

  ghost function Newest(records: set<Revision>): (r: Revision)
    requires records != {}
    ensures IsNewest(r, records)
  {
    HasNewest(records);
    var r :| IsNewest(r, records);
    r
  }

  /** The promotion guard, branch by branch. */
  ghost function Ingest(digest: int -> int, plane: Plane, r: Revision, reviewed: bool): Outcome {
    if !reviewed then Refused(NeedsReview)
    else if r.status != Active then Refused(OnlyActive)
    else if digest(r.content) != r.contentHash then Refused(HashMismatch)
    else if r.id in plane then (if plane[r.id] != r then Refused(IdCollision) else Known)
    else
      var records := Records(plane, r.tenant, r.document);
      var same := set x | x in records && x.number == r.number;
      if same != {} then
        if exists x :: x in same && x.contentHash != r.contentHash then Refused(SameRevisionDiffers) else Known
      else if records != {} then
        var prior := Newest(records);
        if r.number <= prior.number then Refused(NotIncreasing)
        else if r.supersedes != Some(prior.id) then Refused(TargetInvalid)
        else if prior.status != Active then Refused(TargetNotActive)
        else Stored(plane[prior.id := prior.(status := Superseded)][r.id := r])
      else if r.supersedes.Some? then
        if r.supersedes.value in plane && plane[r.supersedes.value].tenant == r.tenant
           && plane[r.supersedes.value].document != r.document
        then Refused(DocumentMismatch) else Refused(TargetInvalid)
      else Stored(plane[r.id := r])
  }

  function After(plane: Plane, outcome: Outcome): Plane {
    if outcome.Stored? then outcome.plane else plane
  }

  datatype Promotion = Promotion(revision: Revision, reviewed: bool)

  ghost function Run(digest: int -> int, promotions: seq<Promotion>): Plane {
    if promotions == [] then map[]
    else
      var before, p := Run(digest, promotions[..|promotions| - 1]), promotions[|promotions| - 1];
      After(before, Ingest(digest, before, p.revision, p.reviewed))
  }

  // ---- The chain invariant ---------------------------------------------------------

  predicate SameDocument(a: Revision, b: Revision) {
    a.tenant == b.tenant && a.document == b.document
  }

  /** Nothing of the document lies strictly between the two numbers. */
  ghost predicate Adjacent(plane: Plane, a: Revision, b: Revision) {
    SameDocument(a, b) && a.number < b.number
    && forall id | id in plane && SameDocument(plane[id], b) :: plane[id].number <= a.number || b.number <= plane[id].number
  }

  ghost predicate IsLast(plane: Plane, r: Revision) {
    forall id | id in plane && SameDocument(plane[id], r) :: plane[id].number <= r.number
  }

  ghost predicate IsFirst(plane: Plane, r: Revision) {
    forall id | id in plane && SameDocument(plane[id], r) :: r.number <= plane[id].number
  }

  /** What one stored revision satisfies: its hash, the revision it supersedes
      being exactly the one before it, and activity exactly at the end. */
  ghost predicate Linked(digest: int -> int, plane: Plane, id: int)
    requires id in plane
  {
    var r := plane[id];
    && r.id == id && digest(r.content) == r.contentHash
    && (r.status == Active <==> IsLast(plane, r))
    && match r.supersedes
       case None => IsFirst(plane, r)
       case Some(p) => p in plane && Adjacent(plane, plane[p], r)
  }

  ghost predicate Good(digest: int -> int, plane: Plane) {
    && (forall a, b | a in plane && b in plane && SameDocument(plane[a], plane[b]) && plane[a].number == plane[b].number :: a == b)
    && (forall id {:trigger Linked(digest, plane, id)} | id in plane :: Linked(digest, plane, id))
  }

  /** Only a status changes, and only from active to superseded. */
  ghost predicate Onward(before: Plane, after: Plane) {
    forall id | id in before ::
      id in after && (after[id] == before[id] || (before[id].status == Active && after[id] == before[id].(status := Superseded)))
  }

  /** The newest record of a document is the active one. */
  lemma NewestActive(digest: int -> int, plane: Plane, tenant: int, document: int)
    requires Good(digest, plane) && Records(plane, tenant, document) != {}
    ensures var prior := Newest(Records(plane, tenant, document));
            && prior.id in plane && plane[prior.id] == prior && OfDocument(prior, tenant, document)
            && prior.status == Active && IsLast(plane, prior)
  {
    var records := Records(plane, tenant, document);
    var prior := Newest(records);
    var id :| id in plane && OfDocument(plane[id], tenant, document) && plane[id] == prior;
    assert Linked(digest, plane, id);
    forall other | other in plane && SameDocument(plane[other], prior) ensures plane[other].number <= prior.number {
      assert plane[other] in records;
    }
  }

  /** `knowledge_supersession_target_not_active` cannot be raised. */
  lemma TargetAlwaysActive(digest: int -> int, plane: Plane, r: Revision, reviewed: bool)
    requires Good(digest, plane)
    ensures Ingest(digest, plane, r, reviewed) != Refused(TargetNotActive)
  {
    hide Good, Records, IsNewest;
    if Records(plane, r.tenant, r.document) != {} {
      NewestActive(digest, plane, r.tenant, r.document);
    }
  }

  lemma DocumentRecords(plane: Plane, r: Revision)
    ensures Records(plane, r.tenant, r.document) == {} <==> forall id | id in plane :: !SameDocument(plane[id], r)
    ensures forall id | id in plane && SameDocument(plane[id], r) :: plane[id] in Records(plane, r.tenant, r.document)
  {
    var records := Records(plane, r.tenant, r.document);
    forall id | id in plane && SameDocument(plane[id], r) ensures plane[id] in records {
      assert OfDocument(plane[id], r.tenant, r.document);
    }
    if records == {} {
      forall id | id in plane ensures !SameDocument(plane[id], r) {
        assert plane[id] !in records;
      }
    } else {
      var x :| x in records;
      var id :| id in plane && OfDocument(plane[id], r.tenant, r.document) && plane[id] == x;
      assert SameDocument(plane[id], r);
    }
  }

  /** In a good plane a document has one active revision, the newest one. */
  lemma ActiveIsNewest(digest: int -> int, plane: Plane, r: Revision, p: int)
    requires Good(digest, plane) && Records(plane, r.tenant, r.document) != {}
    ensures var prior := Newest(Records(plane, r.tenant, r.document));
            && (p in plane && SameDocument(plane[p], r) && plane[p].status == Active <==> p == prior.id)
            && (IsLast(plane, r) <==> prior.number <= r.number)
  {
    DocumentRecords(plane, r);
    NewestActive(digest, plane, r.tenant, r.document);
    if p in plane && SameDocument(plane[p], r) && plane[p].status == Active {
      assert Linked(digest, plane, p) && IsLast(plane, plane[p]);
    }
  }

  predicate NumberTaken(plane: Plane, r: Revision) {
    exists id :: id in plane && SameDocument(plane[id], r) && plane[id].number == r.number
  }

  lemma SameNumber(plane: Plane, r: Revision)
    ensures (set x | x in Records(plane, r.tenant, r.document) && x.number == r.number) != {} <==> NumberTaken(plane, r)
  {
    DocumentRecords(plane, r);
    var same := set x | x in Records(plane, r.tenant, r.document) && x.number == r.number;
    if NumberTaken(plane, r) {
      var id :| id in plane && SameDocument(plane[id], r) && plane[id].number == r.number;
      assert plane[id] in same;
    }
  }

  /** A revision is stored exactly when it opens a new document or follows the
      document's active revision with a larger number. */
  lemma StoredIff(digest: int -> int, plane: Plane, r: Revision, reviewed: bool)
    requires Good(digest, plane)
    ensures Ingest(digest, plane, r, reviewed).Stored? <==>
              && reviewed && r.status == Active && digest(r.content) == r.contentHash && r.id !in plane
              && !NumberTaken(plane, r)
              && match r.supersedes
                 case None => forall id | id in plane :: !SameDocument(plane[id], r)
                 case Some(p) => p in plane && SameDocument(plane[p], r) && plane[p].status == Active && plane[p].number < r.number
  {
    hide Good, Records, IsNewest, NumberTaken;
    SameNumber(plane, r);
    DocumentRecords(plane, r);
    if Records(plane, r.tenant, r.document) != {} {
      var prior := Newest(Records(plane, r.tenant, r.document));
      NewestActive(digest, plane, r.tenant, r.document);
      if r.supersedes.Some? { ActiveIsNewest(digest, plane, r, r.supersedes.value); }
    }
  }

  /** What storing a revision did to the plane: the active revision of its
      document, if there was one, is superseded by it. */
  ghost predicate StoredOver(before: Plane, after: Plane, r: Revision) {
    r.id !in before && match r.supersedes
    case None =>
      after == before[r.id := r] && forall id | id in before :: !SameDocument(before[id], r)
    case Some(p) =>
      && p in before && before[p].id == p && before[p].status == Active && SameDocument(before[p], r) && before[p].number < r.number
      && IsLast(before, before[p])
      && after == before[p := before[p].(status := Superseded)][r.id := r]
  }

  lemma StoredShape(digest: int -> int, plane: Plane, r: Revision, reviewed: bool)
    requires Good(digest, plane) && Ingest(digest, plane, r, reviewed).Stored?
    ensures StoredOver(plane, Ingest(digest, plane, r, reviewed).plane, r)
    ensures r.status == Active && digest(r.content) == r.contentHash
  {
    hide Good, Records, IsNewest;
    DocumentRecords(plane, r);
    if Records(plane, r.tenant, r.document) != {} { NewestActive(digest, plane, r.tenant, r.document); }
  }

  /** In the stored plane, a document that is not `r`'s looks as before. */
  lemma StoredFrame(before: Plane, after: Plane, r: Revision, id: int)
    requires StoredOver(before, after, r) && id in before
    ensures id in after && after[id].(status := before[id].status) == before[id]
    ensures after[id].status == if r.supersedes == Some(id) then Superseded else before[id].status
    ensures forall k :: k in after <==> k in before || k == r.id
    ensures after[r.id] == r
  {
  }

  lemma StoredOnward(before: Plane, after: Plane, r: Revision)
    requires StoredOver(before, after, r)
    ensures Onward(before, after)
  {
  }

  lemma OldLinked(digest: int -> int, before: Plane, after: Plane, r: Revision, id: int)
    requires Good(digest, before) && StoredOver(before, after, r) && id in before
    ensures id in after && Linked(digest, after, id)
  {
    assert Linked(digest, before, id);
    StoredFrame(before, after, r, id);
    forall k | k in before ensures k in after && after[k].(status := before[k].status) == before[k] {
      StoredFrame(before, after, r, k);
    }
    if SameDocument(before[id], r) {
      if IsLast(before, before[id]) { LastIsOne(digest, before, r, id); }
      NewLast(digest, before, r, id);
    }
    hide StoredOver, Good;
    OldPlace(before, after, r, id);
  }

  /** Everything of the document lies at or below the superseded revision. */
  lemma NewLast(digest: int -> int, before: Plane, r: Revision, id: int)
    requires Good(digest, before) && id in before && SameDocument(before[id], r)
    requires r.supersedes.Some? ==>
               r.supersedes.value in before && SameDocument(before[r.supersedes.value], r)
               && IsLast(before, before[r.supersedes.value]) && before[r.supersedes.value].number < r.number
    requires r.supersedes.None? ==> forall k | k in before :: !SameDocument(before[k], r)
    ensures before[id].number < r.number
    ensures r.supersedes == Some(id) ==> IsLast(before, before[id])
  {
    if r.supersedes.Some? { assert SameDocument(before[id], before[r.supersedes.value]); }
  }

  /** Adding `r` on top keeps every older revision's place in its chain. */
  lemma OldPlace(before: Plane, after: Plane, r: Revision, id: int)
    requires id in before && id in after && r.id !in before
    requires forall k :: k in after <==> k in before || k == r.id
    requires forall k | k in before :: k in after && after[k].(status := before[k].status) == before[k]
    requires after[r.id] == r
    requires SameDocument(before[id], r) ==> before[id].number < r.number
    ensures IsFirst(before, before[id]) ==> IsFirst(after, after[id])
    ensures IsLast(after, after[id]) <==> IsLast(before, before[id]) && !SameDocument(before[id], r)
    ensures forall p | p in before && Adjacent(before, before[p], before[id]) :: Adjacent(after, after[p], after[id])
  {
    forall k | k in before ensures SameDocument(after[k], after[id]) == SameDocument(before[k], before[id]) && after[k].number == before[k].number {
    }
    if SameDocument(before[id], r) { assert SameDocument(after[r.id], after[id]); }
    if IsLast(after, after[id]) {
      forall k | k in before && SameDocument(before[k], before[id]) ensures before[k].number <= before[id].number {
        assert SameDocument(after[k], after[id]);
      }
    }
  }

  lemma LastIsOne(digest: int -> int, before: Plane, r: Revision, id: int)
    requires Good(digest, before) && id in before && SameDocument(before[id], r) && IsLast(before, before[id])
    requires r.supersedes.Some? ==>
               r.supersedes.value in before && SameDocument(before[r.supersedes.value], r) && IsLast(before, before[r.supersedes.value])
    requires r.supersedes.None? ==> forall k | k in before :: !SameDocument(before[k], r)
    ensures r.supersedes == Some(id)
  {
    if r.supersedes.Some? {
      var p := r.supersedes.value;
      assert SameDocument(before[id], before[p]) && SameDocument(before[p], before[id]);
    }
  }

  lemma StoredGood(digest: int -> int, before: Plane, after: Plane, r: Revision)
    requires Good(digest, before) && StoredOver(before, after, r)
    requires r.status == Active && digest(r.content) == r.contentHash
    ensures Good(digest, after)
  {
    hide Linked;
    forall k | k in before ensures k in after && Linked(digest, after, k) && after[k].(status := before[k].status) == before[k] {
      OldLinked(digest, before, after, r, k);
      StoredFrame(before, after, r, k);
    }
    forall k ensures k in after <==> k in before || k == r.id { }
    NewLinked(digest, before, after, r);
  }

  lemma NewLinked(digest: int -> int, before: Plane, after: Plane, r: Revision)
    requires StoredOver(before, after, r) && r.status == Active && digest(r.content) == r.contentHash
    requires Good(digest, before)
    ensures r.id in after && Linked(digest, after, r.id)
    ensures forall k | k in before && SameDocument(before[k], r) :: before[k].number < r.number
  {
    forall k | k in before ensures k in after && after[k].(status := before[k].status) == before[k] {
      StoredFrame(before, after, r, k);
    }
  }

  lemma IngestKeeps(digest: int -> int, plane: Plane, r: Revision, reviewed: bool)
    requires Good(digest, plane)
    ensures Good(digest, After(plane, Ingest(digest, plane, r, reviewed)))
    ensures Onward(plane, After(plane, Ingest(digest, plane, r, reviewed)))
  {
    hide Good, Ingest, StoredOver, Onward;
    if Ingest(digest, plane, r, reviewed).Stored? {
      StoredShape(digest, plane, r, reviewed);
      StoredGood(digest, plane, Ingest(digest, plane, r, reviewed).plane, r);
      StoredOnward(plane, Ingest(digest, plane, r, reviewed).plane, r);
    } else {
      OnwardSelf(plane);
    }
  }

  lemma OnwardSelf(plane: Plane)
    ensures Onward(plane, plane)
  {
  }

  /** After any sequence of promotions, accepted or refused, every document is a
      strictly increasing chain in which each revision supersedes the one right
      before it and exactly the last is active; and no promotion is ever refused
      because its target is not active. */
  lemma {:induction false} ChainAlways(digest: int -> int, promotions: seq<Promotion>)
    ensures Good(digest, Run(digest, promotions))
    ensures forall r, reviewed :: Ingest(digest, Run(digest, promotions), r, reviewed) != Refused(TargetNotActive)
    decreases |promotions|
  {
    hide Ingest, Linked;
    if promotions != [] {
      var n := |promotions| - 1;
      ChainAlways(digest, promotions[..n]);
      IngestKeeps(digest, Run(digest, promotions[..n]), promotions[n].revision, promotions[n].reviewed);
    }
    forall r, reviewed ensures Ingest(digest, Run(digest, promotions), r, reviewed) != Refused(TargetNotActive) {
      TargetAlwaysActive(digest, Run(digest, promotions), r, reviewed);
    }
  }

  /** Promoting a stored revision again is accepted exactly while it is active;
      once superseded the same document is refused as a collision. */
  lemma RepromotionIff(digest: int -> int, plane: Plane, r: Revision)
    requires Good(digest, plane) && r.id in plane && r.status == Active && plane[r.id].(status := Active) == r
    ensures Ingest(digest, plane, r, true) == if plane[r.id].status == Active then Known else Refused(IdCollision)
  {
    assert Linked(digest, plane, r.id);
  }

  predicate ByNumber(a: Revision, b: Revision) { a.number < b.number }

  lemma NumberOrder(digest: int -> int, plane: Plane, tenant: int, document: int)
    requires Good(digest, plane)
    ensures StrictOrder(ByNumber) && TotalOn(ByNumber, Records(plane, tenant, document))
  {
    forall x, y | x in Records(plane, tenant, document) && y in Records(plane, tenant, document) && x != y
      ensures ByNumber(x, y) || ByNumber(y, x)
    {
      var a :| a in plane && plane[a] == x && OfDocument(x, tenant, document);
      var b :| b in plane && plane[b] == y && OfDocument(y, tenant, document);
    }
  }

  /** The revisions of a document in order. */
  ghost function ChainOf(digest: int -> int, plane: Plane, tenant: int, document: int): (chain: seq<Revision>)
    requires Good(digest, plane)
    ensures Lists(ByNumber, chain, Records(plane, tenant, document))
  {
    NumberOrder(digest, plane, tenant, document);
    Listing(ByNumber, Records(plane, tenant, document))
  }

  /** Listed in order, each revision supersedes the one before it, the first
      supersedes none, and only the last is active. */
  lemma ChainShape(digest: int -> int, plane: Plane, tenant: int, document: int, k: nat)
    requires Good(digest, plane) && k < |ChainOf(digest, plane, tenant, document)|
    ensures var chain := ChainOf(digest, plane, tenant, document);
            && chain[k].supersedes == (if k == 0 then None else Some(chain[k - 1].id))
            && (chain[k].status == Active <==> k == |chain| - 1)
            && (k > 0 ==> chain[k - 1].number < chain[k].number)
  {
    hide Good, Records, Linked;
    var chain := ChainOf(digest, plane, tenant, document);
    forall i | 0 <= i < |chain| ensures InPlane(plane, tenant, document, chain[i]) && Linked(digest, plane, chain[i].id) {
      assert chain[i] in Elements(chain);
      Found(digest, plane, tenant, document, chain[i]);
    }
    forall id | id in plane && OfDocument(plane[id], tenant, document) ensures plane[id] in chain {
      RecordIn(plane, tenant, document, id);
      assert plane[id] in Elements(chain);
    }
    forall i, j | 0 <= i < j < |chain| ensures chain[i].number < chain[j].number { assert ByNumber(chain[i], chain[j]); }
    forall id | id in plane ensures plane[id].id == id { IdsMatch(digest, plane, id); }
    hide ChainOf;
    ChainEnd(digest, plane, chain, tenant, document, k);
    ChainLink(digest, plane, chain, tenant, document, k);
  }

  lemma IdsMatch(digest: int -> int, plane: Plane, id: int)
    requires Good(digest, plane) && id in plane
    ensures plane[id].id == id
  {
    assert Linked(digest, plane, id);
  }

  /** The chain lists the records of its document in increasing order. */
  ghost predicate Covers(plane: Plane, chain: seq<Revision>, tenant: int, document: int) {
    && (forall i | 0 <= i < |chain| :: InPlane(plane, tenant, document, chain[i]))
    && (forall id | id in plane :: plane[id].id == id)
    && (forall id {:trigger OfDocument(plane[id], tenant, document)} | id in plane && OfDocument(plane[id], tenant, document) :: plane[id] in chain)
    && (forall i, j | 0 <= i < j < |chain| :: chain[i].number < chain[j].number)
  }

  lemma ChainEnd(digest: int -> int, plane: Plane, chain: seq<Revision>, tenant: int, document: int, k: nat)
    requires Covers(plane, chain, tenant, document) && k < |chain| && chain[k].id in plane && Linked(digest, plane, chain[k].id)
    ensures chain[k].status == Active <==> k == |chain| - 1
  {
    if k < |chain| - 1 {
      assert SameDocument(plane[chain[k + 1].id], chain[k]) && chain[k].number < chain[k + 1].number;
    } else {
      forall id | id in plane && SameDocument(plane[id], chain[k]) ensures plane[id].number <= chain[k].number {
        assert OfDocument(plane[id], tenant, document);
        var j :| 0 <= j < |chain| && chain[j] == plane[id];
      }
    }
  }

  lemma ChainLink(digest: int -> int, plane: Plane, chain: seq<Revision>, tenant: int, document: int, k: nat)
    requires Covers(plane, chain, tenant, document) && k < |chain| && chain[k].id in plane && Linked(digest, plane, chain[k].id)
    ensures chain[k].supersedes == if k == 0 then None else Some(chain[k - 1].id)
  {
    if k > 0 { assert SameDocument(plane[chain[k - 1].id], chain[k]) && chain[k - 1].number < chain[k].number; }
    if chain[k].supersedes.Some? {
      var p := chain[k].supersedes.value;
      assert OfDocument(plane[p], tenant, document);
      var j :| 0 <= j < |chain| && chain[j] == plane[p];
      assert j < k && chain[k - 1].number <= chain[j].number;
    }
  }

  predicate InPlane(plane: Plane, tenant: int, document: int, r: Revision) {
    r.id in plane && plane[r.id] == r && OfDocument(r, tenant, document)
  }

  lemma Found(digest: int -> int, plane: Plane, tenant: int, document: int, r: Revision)
    requires Good(digest, plane) && r in Records(plane, tenant, document)
    ensures InPlane(plane, tenant, document, r) && Linked(digest, plane, r.id)
  {
    var id :| id in plane && plane[id] == r && OfDocument(r, tenant, document);
    assert Linked(digest, plane, id);
  }

  lemma RecordIn(plane: Plane, tenant: int, document: int, id: int)
    requires id in plane && OfDocument(plane[id], tenant, document)
    ensures plane[id] in Records(plane, tenant, document)
  {
  }
}
