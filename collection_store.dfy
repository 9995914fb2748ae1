/**
 * The stored card collections and the two routers that change them: the
 * authenticated router (create from a batch, list, download, update and
 * delete, each scoped to the caller) and the older unauthenticated router
 * (create with no cards, append cards by id).
 *
 * The database is the sequence `collections`; ids are numbers handed out
 * from `nextId`. The batches a collection is created from are passed in.
 */
module CollectionStore {
  import opened Wrappers
  import Seqs
  import opened UploadController
  import opened BatchStore

  datatype CollectionCard = CollectionCard(name: string, cardType: string, quantity: int)

  datatype Collection = Collection(
    id: nat, title: string, description: string, cards: seq<CollectionCard>,
    owner: Option<UserId>, createdAt: int)

  /** A batch card stored in a collection: the schema's default quantity is 1. */
  function FromBatchCard(card: ProcessedCard): CollectionCard {
    CollectionCard(card.name, card.cardType, 1)
  }

  /** `x || fallback` for a request string: the old value is kept when `x` is absent or empty. */
  function OrElse(x: Option<string>, fallback: string): (r: string)
    ensures r == fallback || (x == Some(r) && r != "")
    ensures x.None? || x == Some("") ==> r == fallback
    ensures x.Some? && x.value != "" ==> r == x.value
  {
    if x.Some? && x.value != "" then x.value else fallback
  }

  /** `Batch.findOne({ batchGroupId, userId })` matches batch `b`. */
  predicate BatchOf(b: Batch, batchGroupId: string, userId: UserId) {
    b.batchGroupId == batchGroupId && b.userId == Some(userId)
  }

  /**
   * The cards a new collection starts with: those of the first batch of
   * group `batchGroupId` owned by `userId`, each with quantity 1; none when
   * no group is given or no such batch exists.
   */
  function CardsFromBatch(batches: seq<Batch>, batchGroupId: Option<string>, userId: UserId): (r: seq<CollectionCard>)
    ensures batchGroupId.None? || batchGroupId == Some("") ==> r == []
    ensures batchGroupId.Some? && (forall i :: 0 <= i < |batches| ==> !BatchOf(batches[i], batchGroupId.value, userId))
            ==> r == []
    ensures r != [] ==>
              exists k :: 0 <= k < |batches| && BatchOf(batches[k], batchGroupId.value, userId)
                && (forall j :: 0 <= j < k ==> !BatchOf(batches[j], batchGroupId.value, userId))
                && |r| == |batches[k].cards|
                && forall i :: 0 <= i < |r| ==> r[i].name == batches[k].cards[i].name && r[i].cardType == batches[k].cards[i].cardType
    ensures forall i :: 0 <= i < |r| ==> r[i].quantity == 1
    ensures batchGroupId.Some? && batchGroupId.value != "" ==>
              forall k :: 0 <= k < |batches| && BatchOf(batches[k], batchGroupId.value, userId)
                          && (forall j :: 0 <= j < k ==> !BatchOf(batches[j], batchGroupId.value, userId)) ==>
                |r| == |batches[k].cards|
                && forall i :: 0 <= i < |r| ==> r[i] == CollectionCard(batches[k].cards[i].name, batches[k].cards[i].cardType, 1)
  {
    if batchGroupId.None? || batchGroupId.value == "" then []
    else
      var k := Seqs.FirstIndex(batches, (b: Batch) => BatchOf(b, batchGroupId.value, userId));
      Seqs.FirstIndexAbsent(batches, (b: Batch) => BatchOf(b, batchGroupId.value, userId));
      if k < |batches| then seq(|batches[k].cards|, i requires 0 <= i < |batches[k].cards| => FromBatchCard(batches[k].cards[i]))
      else []
  }

  predicate Owned(c: Collection, id: nat, userId: UserId) {
    c.id == id && c.owner == Some(userId)
  }

  /** The position of the caller's collection `id`, or `|cs|` when it has none. */
  function FindOwned(cs: seq<Collection>, id: nat, userId: UserId): (k: nat)
    ensures k <= |cs|
    ensures k < |cs| ==> Owned(cs[k], id, userId)
    ensures k == |cs| <==> forall i :: 0 <= i < |cs| ==> !Owned(cs[i], id, userId)
  {
    Seqs.FirstIndexAbsent(cs, (c: Collection) => Owned(c, id, userId));
    Seqs.FirstIndex(cs, (c: Collection) => Owned(c, id, userId))
  }

  /** The position of collection `id` whoever owns it, or `|cs|` (`findById`). */
  function FindById(cs: seq<Collection>, id: nat): (k: nat)
    ensures k <= |cs|
    ensures k < |cs| ==> cs[k].id == id
    ensures k == |cs| <==> forall i :: 0 <= i < |cs| ==> cs[i].id != id
  {
    Seqs.FirstIndexAbsent(cs, (c: Collection) => c.id == id);
    Seqs.FirstIndex(cs, (c: Collection) => c.id == id)
  }

  function OwnedBy(userId: UserId): Collection -> bool {
    (c: Collection) => c.owner == Some(userId)
  }

  ghost predicate UniqueIds(cs: seq<Collection>) {
    forall i, j :: 0 <= i < j < |cs| ==> cs[i].id != cs[j].id
  }

  /** `cs` without its element at `k`. */
  function RemoveAt(cs: seq<Collection>, k: nat): (r: seq<Collection>)
    requires k < |cs|
    ensures |r| == |cs| - 1
    ensures forall i :: 0 <= i < k ==> r[i] == cs[i]
    ensures forall i :: k <= i < |r| ==> r[i] == cs[i + 1]
  {
    cs[..k] + cs[k + 1..]
  }

  /**
   * Deleting the caller's collection removes exactly that collection: no
   * collection with that id remains, and every other collection, in
   * particular every collection of another user, is still there.
   */
  lemma RemoveOwnedEffect(cs: seq<Collection>, id: nat, userId: UserId)
    requires UniqueIds(cs) && FindOwned(cs, id, userId) < |cs|
    ensures var r := RemoveAt(cs, FindOwned(cs, id, userId));
            UniqueIds(r)
            && (forall i :: 0 <= i < |r| ==> r[i].id != id)
            && (forall i :: 0 <= i < |cs| && cs[i].id != id ==> cs[i] in r)
  {
    var k := FindOwned(cs, id, userId);
    var r := RemoveAt(cs, k);
    forall i | 0 <= i < |cs| && cs[i].id != id ensures cs[i] in r {
      if i < k {
        assert r[i] == cs[i];
      } else {
        assert r[i - 1] == cs[i];
      }
    }
  }

  /** Replacing an entry by one with the same id keeps ids unique. */
  lemma ReplaceKeepsIds(cs: seq<Collection>, k: nat, c: Collection)
    requires UniqueIds(cs) && k < |cs| && c.id == cs[k].id
    ensures UniqueIds(cs[k := c])
  {
    assert forall i :: 0 <= i < |cs| ==> cs[k := c][i].id == cs[i].id;
  }

  class Store {
    var collections: seq<Collection>
    var nextId: nat

    ghost predicate Valid()
      reads this
    {
      UniqueIds(collections) && forall i :: 0 <= i < |collections| ==> collections[i].id < nextId
    }

    constructor()
      ensures collections == [] && Valid()
    {
      collections := [];
      nextId := 0;
    }

    /**
     * Create (authenticated): a new collection owned by the caller, with
     * the given title and description (empty when absent) and the cards of
     * the caller's batch of the given group; 201.
     */
    method Create(title: string, description: Option<string>, batchGroupId: Option<string>, userId: UserId,
                  batches: seq<Batch>, now: int) returns (created: Collection)
      requires Valid()
      modifies this
      ensures Valid()
      ensures created == Collection(old(nextId), title, description.GetOr(""),
                                    CardsFromBatch(batches, batchGroupId, userId), Some(userId), now)
      ensures collections == old(collections) + [created]
      ensures forall i :: 0 <= i < |old(collections)| ==> old(collections)[i].id != created.id
    {
      var cards := CardsFromBatch(batches, batchGroupId, userId);
      created := Collection(nextId, title, description.GetOr(""), cards, Some(userId), now);
      collections := collections + [created];
      nextId := nextId + 1;
    }

    /** List (authenticated): the caller's collections, in store order. */
    method List(userId: UserId) returns (r: seq<Collection>)
      ensures r == Seqs.Filter(collections, OwnedBy(userId))
      ensures forall i :: 0 <= i < |r| ==> r[i].owner == Some(userId)
      ensures forall i :: 0 <= i < |collections| && collections[i].owner == Some(userId) ==> collections[i] in r
    {
      r := Seqs.Filter(collections, OwnedBy(userId));
      assert forall i :: 0 <= i < |r| ==> OwnedBy(userId)(r[i]);
      assert forall i :: 0 <= i < |collections| && collections[i].owner == Some(userId) ==> OwnedBy(userId)(collections[i]);
    }

    /** Download (authenticated): the caller's collection `id`, or nothing (404). */
    method Download(id: nat, userId: UserId) returns (r: Option<Collection>)
      ensures r.Some? ==> r.value in collections && Owned(r.value, id, userId)
      ensures r.None? <==> forall i :: 0 <= i < |collections| ==> !Owned(collections[i], id, userId)
    {
      var k := FindOwned(collections, id, userId);
      if k < |collections| {
        r := Some(collections[k]);
      } else {
        r := None;
      }
    }

    /**
     * Update (authenticated): the caller's collection `id` takes the new
     * title and description, each only when given and non-empty; its cards
     * and owner are untouched. Nothing changes when the caller has no such
     * collection (404).
     */
    method Update(id: nat, userId: UserId, title: Option<string>, description: Option<string>) returns (r: Option<Collection>)
      requires Valid()
      modifies this
      ensures Valid() && nextId == old(nextId)
      ensures var k := FindOwned(old(collections), id, userId);
              if k == |old(collections)| then r.None? && collections == old(collections)
              else
                var c := old(collections)[k];
                r == Some(c.(title := OrElse(title, c.title), description := OrElse(description, c.description)))
                && collections == old(collections)[k := r.value]
    {
      var k := FindOwned(collections, id, userId);
      if k == |collections| {
        return None;
      }
      var collection := collections[k];
      collection := collection.(title := OrElse(title, collection.title));
      collection := collection.(description := OrElse(description, collection.description));
      ReplaceKeepsIds(collections, k, collection);
      collections := collections[k := collection];
      r := Some(collection);
    }

    /**
     * Delete (authenticated): removes the collection matching both `id` and
     * the caller; `false` (404) and nothing changes when there is none.
     */
    method Delete(id: nat, userId: UserId) returns (deleted: bool)
      requires Valid()
      modifies this
      ensures Valid() && nextId == old(nextId)
      ensures var k := FindOwned(old(collections), id, userId);
              if k == |old(collections)| then !deleted && collections == old(collections)
              else deleted && collections == RemoveAt(old(collections), k)
    {
      var k := FindOwned(collections, id, userId);
      if k == |collections| {
        return false;
      }
      RemoveOwnedEffect(collections, id, userId);
      collections := RemoveAt(collections, k);
      deleted := true;
    }

    /** Create (older router): a collection with no cards and no owner; 201. */
    method CreateEmpty(title: string, description: Option<string>, now: int) returns (created: Collection)
      requires Valid()
      modifies this
      ensures Valid()
      ensures created == Collection(old(nextId), title, description.GetOr(""), [], None, now)
      ensures collections == old(collections) + [created]
    {
      created := Collection(nextId, title, description.GetOr(""), [], None, now);
      collections := collections + [created];
      nextId := nextId + 1;
    }

    /**
     * Add cards (older router): `cards` are appended, in order, to the
     * cards of collection `id`, whoever owns it; nothing changes when there
     * is no such collection (404).
     */
    method AddCards(id: nat, cards: seq<CollectionCard>) returns (r: Option<Collection>)
      requires Valid()
      modifies this
      ensures Valid() && nextId == old(nextId)
      ensures var k := FindById(old(collections), id);
              if k == |old(collections)| then r.None? && collections == old(collections)
              else
                r == Some(old(collections)[k].(cards := old(collections)[k].cards + cards))
                && collections == old(collections)[k := r.value]
    {
      var k := FindById(collections, id);
      if k == |collections| {
        return None;
      }
      var collection := collections[k];
      collection := collection.(cards := collection.cards + cards);
      ReplaceKeepsIds(collections, k, collection);
      collections := collections[k := collection];
      r := Some(collection);
    }
  }
}
