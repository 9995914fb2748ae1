/**
 * The client's collection state (`collections` slice): the list of the
 * user's collections, a loading flag and an error, changed by the settled
 * requests to fetch, delete, delete a card from, and update collections.
 *
 * Requests are not made here: a request's outcome is the argument of the
 * reducer case that handles it, and the request functions below compute
 * that outcome from the HTTP response.
 */
module CollectionSlice {
  import opened Wrappers
  import Seqs

  datatype Card = Card(name: string, cardType: string)

  datatype Collection = Collection(id: string, title: string, description: string, cards: seq<Card>)

  /** What `fetch` produced: a network error, or a response with its `ok` flag and body. */
  datatype HttpResult<T> = NetworkError(message: string) | Response(ok: bool, body: T)

  /** How a request settles: `fulfilled` with a payload, or `rejected` with a message. */
  datatype Settled<T> = Fulfilled(payload: T) | Rejected(message: string)

  /**
   * The shape shared by the four requests: a network error rejects with its
   * message, a response that is not ok rejects with `failure`, and an ok
   * response fulfils with `payload`.
   */
  function Settle<T, P>(response: HttpResult<T>, failure: string, payload: P): (r: Settled<P>)
    ensures r.Fulfilled? <==> response.Response? && response.ok
    ensures r.Fulfilled? ==> r.payload == payload
    ensures response.Response? && !response.ok ==> r == Rejected(failure)
  {
    match response
    case NetworkError(message) => Rejected(message)
    case Response(ok, _) => if ok then Fulfilled(payload) else Rejected(failure)
  }

  /** `fetchCollections`: the body of an ok response. */
  function FetchCollections(response: HttpResult<seq<Collection>>): (r: Settled<seq<Collection>>)
    ensures r.Fulfilled? <==> response.Response? && response.ok
    ensures r.Fulfilled? ==> response.Response? && r.payload == response.body
    ensures response.Response? && !response.ok ==> r == Rejected("Failed to fetch collections")
  {
    Settle(response, "Failed to fetch collections", if response.Response? then response.body else [])
  }

  /** `deleteCollection`: resolves to the id it was given, not to anything in the response. */
  function DeleteCollection(collectionId: string, response: HttpResult<()>): (r: Settled<string>)
    ensures r.Fulfilled? <==> response.Response? && response.ok
    ensures r.Fulfilled? ==> r.payload == collectionId
    ensures response.Response? && !response.ok ==> r == Rejected("Failed to delete collection")
  {
    Settle(response, "Failed to delete collection", collectionId)
  }

  /** `deleteCardFromCollection`: the collection id it was given with the collection in the body. */
  function DeleteCard(collectionId: string, response: HttpResult<Collection>): (r: Settled<(string, Collection)>)
    ensures r.Fulfilled? <==> response.Response? && response.ok
    ensures r.Fulfilled? ==> response.Response? && r.payload == (collectionId, response.body)
    ensures response.Response? && !response.ok ==> r == Rejected("Failed to delete card")
  {
    Settle(response, "Failed to delete card",
           (collectionId, if response.Response? then response.body else Collection("", "", "", [])))
  }

  /** `updateCollection`: the updated collection in the body. */
  function UpdateCollection(response: HttpResult<Collection>): (r: Settled<Collection>)
    ensures r.Fulfilled? <==> response.Response? && response.ok
    ensures r.Fulfilled? ==> response.Response? && r.payload == response.body
    ensures response.Response? && !response.ok ==> r == Rejected("Failed to update collection")
  {
    Settle(response, "Failed to update collection",
           if response.Response? then response.body else Collection("", "", "", []))
  }

  function HasId(id: string): Collection -> bool {
    (c: Collection) => c.id == id
  }

  function LacksId(id: string): Collection -> bool {
    (c: Collection) => c.id != id
  }

  /** The list with its first collection of id `id` replaced by `c`; unchanged without one. */
  function ReplaceById(cs: seq<Collection>, id: string, c: Collection): seq<Collection> {
    var index := Seqs.FirstIndex(cs, HasId(id));
    if index < |cs| then cs[index := c] else cs
  }

  /**
   * Replacing by id keeps the length, changes only the first entry with that
   * id, and is a no-op when no entry has it.
   */
  lemma ReplaceByIdEffect(cs: seq<Collection>, id: string, c: Collection)
    ensures var r := ReplaceById(cs, id, c);
            |r| == |cs|
            && ((forall i :: 0 <= i < |cs| ==> cs[i].id != id) ==> r == cs)
            && forall k :: 0 <= k < |cs| && cs[k].id == id && (forall j :: 0 <= j < k ==> cs[j].id != id) ==>
                 r[k] == c && forall i :: 0 <= i < |cs| && i != k ==> r[i] == cs[i]
  {
    var index := Seqs.FirstIndex(cs, HasId(id));
    Seqs.FirstIndexAbsent(cs, HasId(id));
    forall k | 0 <= k < |cs| && cs[k].id == id && (forall j :: 0 <= j < k ==> cs[j].id != id)
      ensures index == k
    {
      assert HasId(id)(cs[k]);
      assert forall j :: 0 <= j < k ==> !HasId(id)(cs[j]);
    }
  }

  /** Removing by id drops every entry with that id and keeps every other entry, in order. */
  lemma RemoveByIdEffect(cs: seq<Collection>, id: string)
    ensures var r := Seqs.Filter(cs, LacksId(id));
            (forall i :: 0 <= i < |r| ==> r[i].id != id)
            && (forall i :: 0 <= i < |cs| && cs[i].id != id ==> cs[i] in r)
            && ((forall i :: 0 <= i < |cs| ==> cs[i].id != id) ==> r == cs)
  {
    var r := Seqs.Filter(cs, LacksId(id));
    assert forall i :: 0 <= i < |r| ==> LacksId(id)(r[i]);
    assert forall i :: 0 <= i < |cs| && cs[i].id != id ==> LacksId(id)(cs[i]);
    Seqs.FilterAll(cs, LacksId(id));
  }

  class State {
    var collections: seq<Collection>
    var loading: bool
    var error: Option<string>

    /** The initial state: no collections, not loading, no error. */
    constructor()
      ensures collections == [] && !loading && error == None
    {
      collections := [];
      loading := false;
      error := None;
    }

    method FetchPending()
      modifies this
      ensures loading && error == None && collections == old(collections)
    {
      loading := true;
      error := None;
    }

    method FetchFulfilled(payload: seq<Collection>)
      modifies this
      ensures !loading && collections == payload && error == old(error)
    {
      loading := false;
      collections := payload;
    }

    method FetchRejected(payload: string)
      modifies this
      ensures !loading && error == Some(payload) && collections == old(collections)
    {
      loading := false;
      error := Some(payload);
    }

    method DeleteCollectionFulfilled(collectionId: string)
      modifies this
      ensures collections == Seqs.Filter(old(collections), LacksId(collectionId))
      ensures loading == old(loading) && error == old(error)
    {
      collections := Seqs.Filter(collections, LacksId(collectionId));
    }

    method DeleteCardFulfilled(collectionId: string, updatedCollection: Collection)
      modifies this
      ensures collections == ReplaceById(old(collections), collectionId, updatedCollection)
      ensures loading == old(loading) && error == old(error)
    {
      var index := Seqs.FirstIndex(collections, HasId(collectionId));
      if index < |collections| {
        collections := collections[index := updatedCollection];
      }
    }

    method UpdateFulfilled(payload: Collection)
      modifies this
      ensures collections == ReplaceById(old(collections), payload.id, payload)
      ensures loading == old(loading) && error == old(error)
    {
      var index := Seqs.FirstIndex(collections, HasId(payload.id));
      if index < |collections| {
        collections := collections[index := payload];
      }
    }
  }
}
