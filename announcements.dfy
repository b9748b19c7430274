/** The announcements router: a projection of stored documents, the
    active-window filter, the two listings, and the create / update / delete
    handlers over the announcement collection.

    The collection is a map from each document's `_id` value to the document,
    which keeps its own `_id` field. Each handler is specified by a function
    from the old collection to a `Step` (the response and the new collection);
    `AnnouncementCollection` performs the same handlers in place.
 */
module Announcements {
  import opened Documents
  import opened StringOrder

  type Store = map<Value, Doc>

  /** Every stored document carries its own key as its `_id` field. */
  ghost predicate ValidStore(store: Store) {
    forall k :: k in store ==> "_id" in store[k] && store[k]["_id"] == k
  }

  // ---------------------------------------------------------------------
  // Projection (`announcement_dict`)

  const ProjectedKeys: set<string> :=
    {"id", "title", "message", "start_date", "expiration_date", "created_by", "created_at"}

  /** The seven-key view of a document that every listing returns. */
  function Project(d: Doc): Doc {
    map[
      "id" := Str(Text(Get(d, "_id", Str("")))),
      "title" := Get(d, "title", Str("")),
      "message" := Get(d, "message", Str("")),
      "start_date" := Get(d, "start_date", Null),
      "expiration_date" := Get(d, "expiration_date", Null),
      "created_by" := Get(d, "created_by", Null),
      "created_at" := Get(d, "created_at", Null)
    ]
  }

  /** Exactly the seven keys; `id` is the text of `_id` (empty when there is
      none), `title` and `message` default to the empty string, the date and
      creator fields to null; a present field is passed through unchanged. */
  lemma ProjectionShape(d: Doc)
    ensures Project(d).Keys == ProjectedKeys
    ensures Project(d)["id"] == Str(if "_id" in d then Text(d["_id"]) else "")
    ensures "title" in d ==> Project(d)["title"] == d["title"]
    ensures "title" !in d ==> Project(d)["title"] == Str("")
    ensures "message" in d ==> Project(d)["message"] == d["message"]
    ensures "message" !in d ==> Project(d)["message"] == Str("")
    ensures "start_date" in d ==> Project(d)["start_date"] == d["start_date"]
    ensures "start_date" !in d ==> Project(d)["start_date"] == Null
    ensures "expiration_date" in d ==> Project(d)["expiration_date"] == d["expiration_date"]
    ensures "expiration_date" !in d ==> Project(d)["expiration_date"] == Null
    ensures "created_by" in d ==> Project(d)["created_by"] == d["created_by"]
    ensures "created_by" !in d ==> Project(d)["created_by"] == Null
    ensures "created_at" in d ==> Project(d)["created_at"] == d["created_at"]
    ensures "created_at" !in d ==> Project(d)["created_at"] == Null
  {
  }

  /** A projection depends on nothing but the seven source fields. */
  lemma ProjectIgnoresOtherFields(d: Doc, e: Doc)
    requires forall f :: f in {"_id", "title", "message", "start_date", "expiration_date", "created_by", "created_at"} ==>
               Get(d, f, Null) == Get(e, f, Null)
    requires "_id" in d <==> "_id" in e
    requires "title" in d <==> "title" in e
    requires "message" in d <==> "message" in e
    ensures Project(d) == Project(e)
  {
    assert Get(d, "_id", Null) == Get(e, "_id", Null);
    assert Get(d, "title", Null) == Get(e, "title", Null);
    assert Get(d, "message", Null) == Get(e, "message", Null);
    assert Get(d, "start_date", Null) == Get(e, "start_date", Null);
    assert Get(d, "expiration_date", Null) == Get(e, "expiration_date", Null);
    assert Get(d, "created_by", Null) == Get(e, "created_by", Null);
    assert Get(d, "created_at", Null) == Get(e, "created_at", Null);
  }

  /** In a valid collection the listed `id` is the text of the document's key. */
  lemma ProjectedIdIsKeyText(store: Store, k: Value)
    requires ValidStore(store) && k in store
    ensures Project(store[k])["id"] == Str(Text(k))
  {
  }

  // ---------------------------------------------------------------------
  // Active-window filter (the query of `get_announcements`)

  /** `{"start_date": None}` matches a missing or null field;
      `{"start_date": {"$lte": now}}` matches only a string at or before now. */
  predicate StartsBy(start: Value, now: string) {
    match start
    case Null => true
    case Str(s) => LexLe(s, now)
    case _ => false
  }

  /** `{"expiration_date": {"$gte": now}}` matches only a string at or after now. */
  predicate ExpiresFrom(expiry: Value, now: string) {
    match expiry
    case Str(e) => LexLe(now, e)
    case _ => false
  }

  predicate IsActive(d: Doc, now: string) {
    StartsBy(Get(d, "start_date", Null), now) && ExpiresFrom(Get(d, "expiration_date", Null), now)
  }

  /** The filter in terms of the document's own fields, both directions. */
  lemma ActiveWindow(d: Doc, now: string)
    ensures IsActive(d, now) <==>
      && ("start_date" !in d || d["start_date"] == Null
          || (d["start_date"].Str? && LexLe(d["start_date"].s, now)))
      && "expiration_date" in d && d["expiration_date"].Str?
      && LexLe(now, d["expiration_date"].s)
  {
  }

  /** Whatever its start, a document that expired before now is not active. */
  lemma ExpiredIsNeverActive(d: Doc, now: string)
    requires "expiration_date" in d && d["expiration_date"].Str?
    requires LexLt(d["expiration_date"].s, now)
    ensures !IsActive(d, now)
  {
    LexLtIffNotLe(d["expiration_date"].s, now);
  }

  /** Filtering a projection decides the same as filtering the document: the
      projection keeps both date fields and turns "missing" into null, which
      the filter does not tell apart. */
  lemma ActiveUnderProjection(d: Doc, now: string)
    ensures IsActive(Project(d), now) == IsActive(d, now)
  {
    assert Get(Project(d), "start_date", Null) == Get(d, "start_date", Null);
    assert Get(Project(d), "expiration_date", Null) == Get(d, "expiration_date", Null);
  }

  // ---------------------------------------------------------------------
  // Listings (`get_announcements`, `get_all_announcements`); the order of
  // `find()` is not modelled, so a listing is a set.

  /** The manage listing: every stored document, projected, and nothing else. */
  function FullListing(store: Store): (r: set<Doc>)
    ensures forall k :: k in store ==> Project(store[k]) in r
    ensures forall p :: p in r ==> exists k :: k in store && p == Project(store[k])
  {
    set k | k in store :: Project(store[k])
  }

  /** The public listing: the projections of the documents whose window
      contains `now`. */
  function ActiveListing(store: Store, now: string): (r: set<Doc>)
    ensures forall k :: k in store ==> (Project(store[k]) in r <==> IsActive(store[k], now))
    ensures r <= FullListing(store)
    ensures forall p: Doc :: p in r ==>
      && p["expiration_date"].Str? && LexLe(now, p["expiration_date"].s)
      && (p["start_date"] == Null || (p["start_date"].Str? && LexLe(p["start_date"].s, now)))
  {
    var r := set k | k in store && IsActive(store[k], now) :: Project(store[k]);
    assert forall k :: k in store && Project(store[k]) in r ==> IsActive(store[k], now) by {
      forall k | k in store && Project(store[k]) in r
        ensures IsActive(store[k], now)
      {
        var k' :| k' in store && IsActive(store[k'], now) && Project(store[k']) == Project(store[k]);
        ActiveUnderProjection(store[k'], now);
        ActiveUnderProjection(store[k], now);
      }
    }
    r
  }

  // ---------------------------------------------------------------------
  // Responses

  /** Failures raised by the store rather than by the handler. */
  datatype StoreFailure =
    | DuplicateKey  // insert_one of an `_id` already in the collection
    | ImmutableId   // `$set` of `_id` to a different value

  datatype Response =
    | Ok(status: nat, body: Doc)
    | HttpError(status: nat, detail: string)
    | StoreError(failure: StoreFailure)

  /** A handler's response together with the collection after it. */
  datatype Step = Step(resp: Response, store: Store)

  const ExpirationRequired: string := "Expiration date is required."
  const NotFoundDetail: string := "Announcement not found."

  // ---------------------------------------------------------------------
  // Create (`create_announcement`)

  /** The `_id` that `insert_one` stores: the body's own, or a new ObjectId
      whose hex text is `oid`. */
  function InsertedId(body: Doc, oid: string): Value {
    if "_id" in body then body["_id"] else ObjectId(oid)
  }

  /** `doc` is `body` as stored: every supplied field as given except that
      `created_by` and `created_at` are the server's, plus `_id`. */
  ghost predicate StoredFrom(doc: Doc, body: Doc, username: string, now: string, id: Value) {
    && doc.Keys == body.Keys + {"_id", "created_by", "created_at"}
    && doc["_id"] == id
    && doc["created_by"] == Str(username)
    && doc["created_at"] == Str(now)
    && forall f :: f in body && f != "created_by" && f != "created_at" ==> doc[f] == body[f]
  }

  function CreateStep(store: Store, body: Doc, username: string, now: string, oid: string): (r: Step)
    ensures ("expiration_date" !in body || !Truthy(body["expiration_date"])) ==>
              r == Step(HttpError(400, ExpirationRequired), store)
    ensures "expiration_date" in body && Truthy(body["expiration_date"]) && InsertedId(body, oid) in store ==>
              r == Step(StoreError(DuplicateKey), store)
    ensures r.resp.Ok? <==>
              "expiration_date" in body && Truthy(body["expiration_date"]) && InsertedId(body, oid) !in store
    ensures r.resp.Ok? ==>
              var id := InsertedId(body, oid);
              && r.resp == Ok(201, map["id" := Str(Text(id))])
              && r.store.Keys == store.Keys + {id}
              && StoredFrom(r.store[id], body, username, now, id)
              && forall k :: k in store ==> r.store[k] == store[k]
    ensures ValidStore(store) ==> ValidStore(r.store)
  {
    if !Truthy(Get(body, "expiration_date", Null)) then
      Step(HttpError(400, ExpirationRequired), store)
    else
      var stamped := body["created_by" := Str(username)]["created_at" := Str(now)];
      var id := InsertedId(body, oid);
      if id in store then
        Step(StoreError(DuplicateKey), store)
      else
        Step(Ok(201, map["id" := Str(Text(id))]), store[id := stamped["_id" := id]])
  }

  // ---------------------------------------------------------------------
  // Update (`update_announcement`)

  /** `$set` semantics: the supplied keys take the supplied values, every
      other key of the document keeps its value, and no key is dropped. */
  ghost predicate MergedFrom(doc: Doc, old_doc: Doc, patch: Doc) {
    && doc.Keys == old_doc.Keys + patch.Keys
    && (forall f :: f in patch ==> doc[f] == patch[f])
    && (forall f :: f in old_doc && f !in patch ==> doc[f] == old_doc[f])
  }

  function UpdateStep(store: Store, path: string, patch: Doc): (r: Step)
    ensures Str(path) !in store ==> r == Step(HttpError(404, NotFoundDetail), store)
    ensures Str(path) in store && "_id" in patch && patch["_id"] != Str(path) ==>
              r == Step(StoreError(ImmutableId), store)
    ensures r.resp.Ok? <==> Str(path) in store && ("_id" in patch ==> patch["_id"] == Str(path))
    ensures r.resp.Ok? ==>
              && r.resp == Ok(200, map["status" := Str("updated")])
              && r.store.Keys == store.Keys
              && MergedFrom(r.store[Str(path)], store[Str(path)], patch)
              && forall k :: k in store && k != Str(path) ==> r.store[k] == store[k]
    ensures ValidStore(store) ==> ValidStore(r.store)
  {
    var key := Str(path);
    if key !in store then
      Step(HttpError(404, NotFoundDetail), store)
    else if "_id" in patch && patch["_id"] != key then
      Step(StoreError(ImmutableId), store)
    else
      Step(Ok(200, map["status" := Str("updated")]), store[key := store[key] + patch])
  }

  // ---------------------------------------------------------------------
  // Delete (`delete_announcement`)

  function DeleteStep(store: Store, path: string): (r: Step)
    ensures Str(path) !in store ==> r == Step(HttpError(404, NotFoundDetail), store)
    ensures r.resp.Ok? <==> Str(path) in store
    ensures r.resp.Ok? ==>
              && r.resp == Ok(200, map["status" := Str("deleted")])
              && r.store.Keys == store.Keys - {Str(path)}
              && forall k :: k in r.store ==> r.store[k] == store[k]
    ensures ValidStore(store) ==> ValidStore(r.store)
  {
    var key := Str(path);
    if key !in store then
      Step(HttpError(404, NotFoundDetail), store)
    else
      Step(Ok(200, map["status" := Str("deleted")]), store - {key})
  }

  // ---------------------------------------------------------------------
  // The collection, changed in place by the handlers

  class AnnouncementCollection {
    var docs: Store

    ghost predicate Valid()
      reads this
    {
      ValidStore(docs)
    }

    constructor ()
      ensures Valid() && docs == map[]
    {
      docs := map[];
    }

    /** Stamps the body with the caller and the time, then inserts it. */
    method Create(body: Doc, username: string, now: string, oid: string) returns (resp: Response)
      requires Valid()
      modifies this
      ensures Valid()
      ensures Step(resp, docs) == CreateStep(old(docs), body, username, now, oid)
    {
      if !Truthy(Get(body, "expiration_date", Null)) {
        return HttpError(400, ExpirationRequired);
      }
      var announcement := body;
      announcement := announcement["created_by" := Str(username)];
      announcement := announcement["created_at" := Str(now)];
      var id := if "_id" in announcement then announcement["_id"] else ObjectId(oid);
      if id in docs {
        return StoreError(DuplicateKey);
      }
      announcement := announcement["_id" := id];
      docs := docs[id := announcement];
      resp := Ok(201, map["id" := Str(Text(id))]);
    }

    /** `update_one({"_id": path}, {"$set": patch})`. */
    method Update(path: string, patch: Doc) returns (resp: Response)
      requires Valid()
      modifies this
      ensures Valid()
      ensures Step(resp, docs) == UpdateStep(old(docs), path, patch)
    {
      var key := Str(path);
      if key !in docs {
        return HttpError(404, NotFoundDetail);
      }
      if "_id" in patch && patch["_id"] != key {
        return StoreError(ImmutableId);
      }
      var merged := docs[key];
      merged := merged + patch;
      docs := docs[key := merged];
      resp := Ok(200, map["status" := Str("updated")]);
    }

    /** `delete_one({"_id": path})`. */
    method Delete(path: string) returns (resp: Response)
      requires Valid()
      modifies this
      ensures Valid()
      ensures Step(resp, docs) == DeleteStep(old(docs), path)
    {
      var key := Str(path);
      if key !in docs {
        return HttpError(404, NotFoundDetail);
      }
      docs := docs - {key};
      resp := Ok(200, map["status" := Str("deleted")]);
    }
  }
}
