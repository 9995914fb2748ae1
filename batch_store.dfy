/**
 * The batch routes: the stored batches of cards, grouped by a batch group
 * id. Posting images to a group appends the cards verified on them to the
 * group's batch, creating the batch when the group has none; a group's
 * batches can be listed by creation time and deleted.
 *
 * The database is the sequence `batches` in insertion order; `findOne`
 * returns the first match in that order. Token verification is a parameter.
 */
module BatchStore {
  import opened Wrappers
  import opened Text
  import Seqs
  import StableSort
  import opened OcrPipeline
  import opened UploadController

  type UserId = string

  datatype Batch = Batch(batchGroupId: string, cards: seq<ProcessedCard>, userId: Option<UserId>, createdAt: int)

  /** The POST response: a 400 with a message, 200 with the extended batch, or 201 with the new one. */
  datatype PostResponse = Rejected(message: string) | Appended(batch: Batch) | Created(batch: Batch)

  function Status(r: PostResponse): int {
    match r
    case Rejected(_) => 400
    case Appended(_) => 200
    case Created(_) => 201
  }

  /** No two stored batches share a group id. */
  ghost predicate UniqueGroups(bs: seq<Batch>) {
    forall i, j :: 0 <= i < j < |bs| ==> bs[i].batchGroupId != bs[j].batchGroupId
  }

  function InGroup(g: string): Batch -> bool {
    (b: Batch) => b.batchGroupId == g
  }

  function NotInGroup(g: string): Batch -> bool {
    (b: Batch) => b.batchGroupId != g
  }

  function CreatedAt(b: Batch): int {
    b.createdAt
  }

  /**
   * The user of a request: the `Authorization` header with its first
   * "Bearer " removed, when that leaves a non-empty token, decoded by
   * `verifyToken`; nothing when the header is absent, the token empty, or
   * the token does not decode.
   */
  function RequestUser(authorization: Option<string>, verifyToken: string -> Option<UserId>): (r: Option<UserId>)
    ensures authorization.None? ==> r.None?
    ensures authorization == Some("Bearer ") ==> r.None?
    ensures authorization == Some("") ==> r.None?
    ensures (authorization.Some? && !Contains(authorization.value, "Bearer ") && authorization.value != "")
              ==> r == verifyToken(authorization.value)
    ensures (authorization.Some? && "Bearer " <= authorization.value && |authorization.value| > |"Bearer "|)
              ==> r == verifyToken(authorization.value[|"Bearer "|..])
  {
    match authorization
    case None => None
    case Some(header) =>
      var token := ReplaceFirst(header, "Bearer ", "");
      assert header == "Bearer " ==> token == "";
      assert "Bearer " <= header ==> token == header[|"Bearer "|..];
      if token == "" then None else verifyToken(token)
  }

  /**
   * Only the first "Bearer " of the header is removed, wherever it stands;
   * the token is what is left around it.
   */
  lemma FirstBearerRemoved(header: string, i: nat, verifyToken: string -> Option<UserId>)
    requires OccursAt(header, "Bearer ", i) && forall j: nat :: j < i ==> !OccursAt(header, "Bearer ", j)
    requires |header| > |"Bearer "|
    ensures RequestUser(Some(header), verifyToken) == verifyToken(header[..i] + header[i + |"Bearer "|..])
  {
    ReplaceFirstAt(header, "Bearer ", "", i);
    assert header[..i] + "" + header[i + |"Bearer "|..] == header[..i] + header[i + |"Bearer "|..];
  }

  /**
   * The store after adding `newCards` to group `g`: the first batch of the
   * group gets the cards appended; a group without a batch gets a new one.
   */
  function AddCards(bs: seq<Batch>, g: string, newCards: seq<ProcessedCard>, userId: Option<UserId>, now: int): (r: seq<Batch>)
    ensures |r| == |bs| || r == bs + [Batch(g, newCards, userId, now)]
  {
    var k := Seqs.FirstIndex(bs, InGroup(g));
    if k < |bs| then bs[k := bs[k].(cards := bs[k].cards + newCards)]
    else bs + [Batch(g, newCards, userId, now)]
  }

  /** The cards of the first batch of group `g`, or none. */
  function GroupCards(bs: seq<Batch>, g: string): seq<ProcessedCard> {
    var k := Seqs.FirstIndex(bs, InGroup(g));
    if k < |bs| then bs[k].cards else []
  }

  /**
   * Appending to an existing group extends its batch's cards in order and
   * leaves its group id, owner and creation time, and every other batch,
   * as they were; no batch is added.
   */
  lemma AddToExisting(bs: seq<Batch>, g: string, newCards: seq<ProcessedCard>, userId: Option<UserId>, now: int, k: nat)
    requires k < |bs| && bs[k].batchGroupId == g && UniqueGroups(bs)
    ensures var r := AddCards(bs, g, newCards, userId, now);
            |r| == |bs|
            && r[k] == Batch(g, bs[k].cards + newCards, bs[k].userId, bs[k].createdAt)
            && forall i :: 0 <= i < |bs| && i != k ==> r[i] == bs[i]
  {
    var f := Seqs.FirstIndex(bs, InGroup(g));
    assert InGroup(g)(bs[k]);
    assert f == k;
  }

  /** A group without a batch gets exactly one new batch, at the end, owned by the request's user. */
  lemma AddToNew(bs: seq<Batch>, g: string, newCards: seq<ProcessedCard>, userId: Option<UserId>, now: int)
    requires forall i :: 0 <= i < |bs| ==> bs[i].batchGroupId != g
    ensures AddCards(bs, g, newCards, userId, now) == bs + [Batch(g, newCards, userId, now)]
  {
    Seqs.FirstIndexAbsent(bs, InGroup(g));
  }

  /** Adding cards keeps group ids unique. */
  lemma AddCardsUnique(bs: seq<Batch>, g: string, newCards: seq<ProcessedCard>, userId: Option<UserId>, now: int)
    requires UniqueGroups(bs)
    ensures UniqueGroups(AddCards(bs, g, newCards, userId, now))
  {
    var k := Seqs.FirstIndex(bs, InGroup(g));
    var r := AddCards(bs, g, newCards, userId, now);
    if k < |bs| {
      assert forall i :: 0 <= i < |bs| ==> r[i].batchGroupId == bs[i].batchGroupId;
    } else {
      assert forall i :: 0 <= i < |bs| ==> r[i] == bs[i] && bs[i].batchGroupId != g;
    }
  }

  /** A group's cards accumulate: after adding, they are the old cards followed by the new ones. */
  lemma AddCardsAccumulates(bs: seq<Batch>, g: string, newCards: seq<ProcessedCard>, userId: Option<UserId>, now: int)
    ensures GroupCards(AddCards(bs, g, newCards, userId, now), g) == GroupCards(bs, g) + newCards
  {
    var k := Seqs.FirstIndex(bs, InGroup(g));
    var r := AddCards(bs, g, newCards, userId, now);
    var f := Seqs.FirstIndex(r, InGroup(g));
    if k < |bs| {
      assert InGroup(g)(r[k]);
      assert forall i :: 0 <= i < k ==> r[i] == bs[i];
      assert f == k;
    } else {
      assert forall i :: 0 <= i < |bs| ==> r[i] == bs[i];
      assert InGroup(g)(r[|bs|]);
      assert f == |bs|;
    }
  }

  /** Adding cards to one group does not change the cards of another. */
  lemma AddCardsOtherGroup(bs: seq<Batch>, g: string, h: string, newCards: seq<ProcessedCard>, userId: Option<UserId>, now: int)
    requires g != h
    ensures GroupCards(AddCards(bs, g, newCards, userId, now), h) == GroupCards(bs, h)
  {
    var k := Seqs.FirstIndex(bs, InGroup(g));
    var r := AddCards(bs, g, newCards, userId, now);
    var f := Seqs.FirstIndex(bs, InGroup(h));
    if f < |bs| {
      assert InGroup(h)(r[f]);
      assert forall i :: 0 <= i < f ==> r[i].batchGroupId == bs[i].batchGroupId;
    } else {
      assert forall i :: 0 <= i < |bs| ==> r[i].batchGroupId == bs[i].batchGroupId;
      assert !InGroup(h)(r[|r| - 1]);
    }
  }

  /** Deleting a group removes every batch of that group and keeps every other batch, in order. */
  lemma DeleteGroupEffect(bs: seq<Batch>, g: string)
    ensures var r := Seqs.Filter(bs, NotInGroup(g));
            (forall i :: 0 <= i < |r| ==> r[i].batchGroupId != g)
            && (forall i :: 0 <= i < |bs| && bs[i].batchGroupId != g ==> bs[i] in r)
            && ((forall i :: 0 <= i < |bs| ==> bs[i].batchGroupId != g) ==> r == bs)
  {
    var r := Seqs.Filter(bs, NotInGroup(g));
    assert forall i :: 0 <= i < |r| ==> NotInGroup(g)(r[i]);
    assert forall i :: 0 <= i < |bs| && bs[i].batchGroupId != g ==> NotInGroup(g)(bs[i]);
    Seqs.FilterAll(bs, NotInGroup(g));
  }

  /** Deleting keeps group ids unique. */
  lemma {:induction false} DeleteGroupUnique(bs: seq<Batch>, g: string)
    requires UniqueGroups(bs)
    ensures UniqueGroups(Seqs.Filter(bs, NotInGroup(g)))
  {
    if bs != [] {
      DeleteGroupUnique(bs[1..], g);
      var rest := Seqs.Filter(bs[1..], NotInGroup(g));
      forall i | 0 <= i < |rest| ensures rest[i].batchGroupId != bs[0].batchGroupId {
        var j :| 0 <= j < |bs[1..]| && bs[1..][j] == rest[i];
        assert bs[j + 1] == rest[i];
      }
    }
  }

  class Store {
    var batches: seq<Batch>

    ghost predicate Valid()
      reads this
    {
      UniqueGroups(batches)
    }

    constructor()
      ensures batches == [] && Valid()
    {
      batches := [];
    }

    /**
     * POST: 400 "No images provided" without files, then 400 "No batch
     * group ID provided" without a group id, both changing nothing;
     * otherwise the verified cards of the images are added to the group,
     * with 200 when the group had a batch and 201 when one was created.
     */
    method Post(files: Option<seq<ImageFile>>, batchGroupId: Option<string>, authorization: Option<string>,
                verifyToken: string -> Option<UserId>, catalog: Catalog, now: int) returns (resp: PostResponse)
      requires Valid()
      modifies this
      ensures Valid()
      ensures files.None? || files.value == [] ==>
                resp == Rejected("No images provided") && batches == old(batches)
      ensures files.Some? && files.value != [] && (batchGroupId.None? || batchGroupId.value == "") ==>
                resp == Rejected("No batch group ID provided") && batches == old(batches)
      ensures resp.Appended? || resp.Created? ==>
                files.Some? && batchGroupId.Some?
                && var newCards := ProcessedCards(ProcessAll(files.value, catalog));
                   batches == AddCards(old(batches), batchGroupId.value, newCards, RequestUser(authorization, verifyToken), now)
                   && resp.batch in batches && resp.batch.batchGroupId == batchGroupId.value
      ensures files.Some? && files.value != [] && batchGroupId.Some? && batchGroupId.value != "" ==>
                resp.Appended? || resp.Created?
      ensures resp.Appended? ==> exists i :: 0 <= i < |old(batches)| && old(batches)[i].batchGroupId == batchGroupId.value
      ensures resp.Created? ==> forall i :: 0 <= i < |old(batches)| ==> old(batches)[i].batchGroupId != batchGroupId.value
    {
      if files.None? || files.value == [] {
        return Rejected("No images provided");
      }
      if batchGroupId.None? || batchGroupId.value == "" {
        return Rejected("No batch group ID provided");
      }
      var g := batchGroupId.value;
      var userId := RequestUser(authorization, verifyToken);
      var results := ProcessAll(files.value, catalog);
      var newCards := ProcessedCards(results);
      AddCardsUnique(batches, g, newCards, userId, now);
      var k := Seqs.FirstIndex(batches, InGroup(g));
      if k < |batches| {
        var existingBatch := batches[k];
        existingBatch := existingBatch.(cards := existingBatch.cards + newCards);
        batches := batches[k := existingBatch];
        assert batches[k] == existingBatch;
        resp := Appended(existingBatch);
      } else {
        Seqs.FirstIndexAbsent(batches, InGroup(g));
        var batch := Batch(g, newCards, userId, now);
        batches := batches + [batch];
        assert batches[|batches| - 1] == batch;
        resp := Created(batch);
      }
    }

    /**
     * GET by group: exactly the batches of group `g`, ordered by creation
     * time, earliest first.
     */
    method ListByGroup(g: string) returns (r: seq<Batch>)
      ensures forall i :: 0 <= i < |r| ==> r[i].batchGroupId == g
      ensures forall i :: 0 <= i < |batches| && batches[i].batchGroupId == g ==> batches[i] in r
      ensures multiset(r) == multiset(Seqs.Filter(batches, InGroup(g)))
      ensures StableSort.SortedBy(r, CreatedAt)
    {
      var found := Seqs.Filter(batches, InGroup(g));
      r := StableSort.SortBy(found, CreatedAt);
      StableSort.SortPermutes(found, CreatedAt);
      StableSort.SortSorted(found, CreatedAt);
      assert forall i :: 0 <= i < |found| ==> InGroup(g)(found[i]);
      forall i | 0 <= i < |r| ensures r[i].batchGroupId == g {
        assert r[i] in multiset(found);
      }
      forall i | 0 <= i < |batches| && batches[i].batchGroupId == g ensures batches[i] in r {
        assert InGroup(g)(batches[i]);
        assert batches[i] in multiset(r);
      }
    }

    /** DELETE by group: every batch of group `g` is removed, the others stay in order. */
    method DeleteGroup(g: string)
      requires Valid()
      modifies this
      ensures Valid()
      ensures batches == Seqs.Filter(old(batches), NotInGroup(g))
    {
      DeleteGroupUnique(batches, g);
      batches := Seqs.Filter(batches, NotInGroup(g));
    }
  }
}
