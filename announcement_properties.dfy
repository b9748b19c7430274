/** Properties that relate the handlers to each other and to the two
    listings. */
module AnnouncementProperties {
  import opened Documents
  import opened StringOrder
  import opened Announcements

  // ---------------------------------------------------------------------
  // Listings

  /** An expired announcement is hidden from the public listing and still
      shown in the manage listing. */
  lemma ExpiredOnlyInManageListing(store: Store, now: string, k: Value)
    requires k in store
    requires "expiration_date" in store[k] && store[k]["expiration_date"].Str?
    requires LexLt(store[k]["expiration_date"].s, now)
    ensures Project(store[k]) !in ActiveListing(store, now)
    ensures Project(store[k]) in FullListing(store)
  {
    ExpiredIsNeverActive(store[k], now);
  }

  /** Without a start date, an announcement is public until it expires. */
  lemma NoStartShownUntilExpiry(store: Store, now: string, k: Value)
    requires k in store && "start_date" !in store[k]
    requires "expiration_date" in store[k] && store[k]["expiration_date"].Str?
    requires LexLe(now, store[k]["expiration_date"].s)
    ensures Project(store[k]) in ActiveListing(store, now)
  {
  }

  // ---------------------------------------------------------------------
  // Create

  /** A successful create adds exactly its own projection to the manage
      listing. */
  lemma CreateExtendsManageListing(store: Store, body: Doc, username: string, now: string, oid: string)
    requires CreateStep(store, body, username, now, oid).resp.Ok?
    ensures var after := CreateStep(store, body, username, now, oid).store;
            FullListing(after) == FullListing(store) + {Project(after[InsertedId(body, oid)])}
  {
    var after := CreateStep(store, body, username, now, oid).store;
    var id := InsertedId(body, oid);
    forall p | p in FullListing(after)
      ensures p in FullListing(store) + {Project(after[id])}
    {
      var k :| k in after && p == Project(after[k]);
      if k != id {
        assert after[k] == store[k];
      }
    }
    forall p | p in FullListing(store)
      ensures p in FullListing(after)
    {
      var k :| k in store && p == Project(store[k]);
      assert after[k] == store[k];
    }
  }

  /** The stored document keeps a truthy expiration date and the server's
      creator and time, whatever the body said about them. */
  lemma CreatedDocumentIsStamped(store: Store, body: Doc, username: string, now: string, oid: string)
    requires CreateStep(store, body, username, now, oid).resp.Ok?
    ensures var d := CreateStep(store, body, username, now, oid).store[InsertedId(body, oid)];
            && Truthy(d["expiration_date"])
            && Project(d)["created_by"] == Str(username)
            && Project(d)["created_at"] == Str(now)
            && Project(d)["id"] == Str(Text(InsertedId(body, oid)))
  {
  }

  /** A newly created announcement is public at any `at` inside its window. */
  lemma CreatedIsListedInWindow(store: Store, body: Doc, username: string, now: string, oid: string, at: string)
    requires CreateStep(store, body, username, now, oid).resp.Ok?
    requires "start_date" !in body || body["start_date"] == Null
    requires body["expiration_date"].Str? && LexLe(at, body["expiration_date"].s)
    ensures var after := CreateStep(store, body, username, now, oid).store;
            Project(after[InsertedId(body, oid)]) in ActiveListing(after, at)
  {
  }

  /** Creating `{"message": "Maintenance", "expiration_date": "2099-01-01T00:00:00"}`
      as "alice" in an empty collection answers 201 with the new id, and the
      public listing then shows it with that message, creator "alice" and no
      start date. */
  lemma MaintenanceExample(oid: string)
    ensures var body := map["message" := Str("Maintenance"), "expiration_date" := Str("2099-01-01T00:00:00")];
            var r := CreateStep(map[], body, "alice", "2025-06-01T12:00:00", oid);
            && r.resp == Ok(201, map["id" := Str(oid)])
            && exists p :: p in ActiveListing(r.store, "2025-06-02T08:30:00")
                 && p["message"] == Str("Maintenance")
                 && p["created_by"] == Str("alice")
                 && p["start_date"] == Null
                 && p["id"] == Str(oid)
  {
    var body := map["message" := Str("Maintenance"), "expiration_date" := Str("2099-01-01T00:00:00")];
    var r := CreateStep(map[], body, "alice", "2025-06-01T12:00:00", oid);
    var at := "2025-06-02T08:30:00";
    var e := "2099-01-01T00:00:00";
    assert Truthy(body["expiration_date"]);
    assert LexLe(at, e) by {
      assert at[2] < e[2];
      assert at[1..][1..] == at[2..] && e[1..][1..] == e[2..];
    }
    CreatedIsListedInWindow(map[], body, "alice", "2025-06-01T12:00:00", oid, at);
    var d := r.store[ObjectId(oid)];
    ProjectionShape(d);
    assert d["message"] == Str("Maintenance");
  }

  // ---------------------------------------------------------------------
  // Update

  /** `$set` of `{"title": x}` changes the title and nothing else. */
  lemma UpdateTitleOnly(store: Store, path: string, x: string)
    requires Str(path) in store
    ensures var r := UpdateStep(store, path, map["title" := Str(x)]);
            && r.resp.Ok?
            && r.store == store[Str(path) := store[Str(path)]["title" := Str(x)]]
  {
    var r := UpdateStep(store, path, map["title" := Str(x)]);
    var d := store[Str(path)]["title" := Str(x)];
    assert r.store[Str(path)] == d;
  }

  /** Update takes the client's `created_by` and `created_at` as given. */
  lemma UpdateOverwritesServerFields(store: Store, path: string, patch: Doc)
    requires UpdateStep(store, path, patch).resp.Ok?
    requires "created_by" in patch && "created_at" in patch
    ensures var d := UpdateStep(store, path, patch).store[Str(path)];
            d["created_by"] == patch["created_by"] && d["created_at"] == patch["created_at"]
  {
  }

  /** Update may blank the expiration date that create insisted on; the
      announcement then drops out of the public listing. */
  lemma UpdateCanClearExpiration(store: Store, path: string, now: string)
    requires Str(path) in store && now != ""
    ensures var r := UpdateStep(store, path, map["expiration_date" := Str("")]);
            && r.resp.Ok?
            && !Truthy(r.store[Str(path)]["expiration_date"])
            && Project(r.store[Str(path)]) !in ActiveListing(r.store, now)
  {
    var r := UpdateStep(store, path, map["expiration_date" := Str("")]);
    var d := r.store[Str(path)];
    assert d["expiration_date"] == Str("");
    assert !IsActive(d, now);
  }

  /** Applying the same `$set` twice is the same as applying it once. */
  lemma UpdateIdempotent(store: Store, path: string, patch: Doc)
    requires UpdateStep(store, path, patch).resp.Ok?
    ensures var once := UpdateStep(store, path, patch);
            UpdateStep(once.store, path, patch) == once
  {
    var once := UpdateStep(store, path, patch);
    var twice := UpdateStep(once.store, path, patch);
    var key := Str(path);
    assert twice.store[key] == once.store[key] by {
      assert twice.store[key].Keys == once.store[key].Keys;
    }
    assert twice.store == once.store;
  }

  // ---------------------------------------------------------------------
  // Delete

  /** After a delete of `path`, no listed announcement carries that id, unless
      another document's id has the same text. */
  lemma DeleteRemovesFromListings(store: Store, path: string, now: string)
    requires ValidStore(store)
    requires DeleteStep(store, path).resp.Ok?
    requires forall k :: k in store && k != Str(path) ==> Text(k) != path
    ensures var after := DeleteStep(store, path).store;
            && (forall p :: p in FullListing(after) ==> p["id"] != Str(path))
            && (forall p :: p in ActiveListing(after, now) ==> p["id"] != Str(path))
            && FullListing(after) <= FullListing(store)
            && ActiveListing(after, now) <= ActiveListing(store, now)
  {
    var after := DeleteStep(store, path).store;
    forall p | p in FullListing(after)
      ensures p["id"] != Str(path) && p in FullListing(store)
    {
      var k :| k in after && p == Project(after[k]);
      ProjectedIdIsKeyText(after, k);
    }
    forall p | p in ActiveListing(after, now)
      ensures p in ActiveListing(store, now)
    {
      var k :| k in after && p == Project(after[k]);
      assert after[k] == store[k];
    }
  }

  /** Both listings after a delete are exactly the projections of the
      documents stored under any other key; with no document under `path`,
      they are the listings before. */
  lemma DeleteListingsExact(store: Store, path: string, now: string)
    ensures var after := DeleteStep(store, path).store;
            && FullListing(after) == (set k | k in store && k != Str(path) :: Project(store[k]))
            && ActiveListing(after, now) ==
                 (set k | k in store && k != Str(path) && IsActive(store[k], now) :: Project(store[k]))
  {
  }

  /** A second delete of the same id is not found. */
  lemma DeleteTwiceNotFound(store: Store, path: string)
    ensures var once := DeleteStep(store, path);
            DeleteStep(once.store, path) == Step(HttpError(404, NotFoundDetail), once.store)
  {
  }

  /** Documents whose `_id` is a store-generated ObjectId are out of reach of
      update and delete, which look up the path as a string: the id returned
      by create is `str()` of that ObjectId, and using it afterwards touches
      nothing but a document stored under that string, if there is one. */
  lemma GeneratedIdsUnreachable(store: Store, hex: string, path: string, patch: Doc)
    requires ObjectId(hex) in store
    ensures UpdateStep(store, path, patch).store[ObjectId(hex)] == store[ObjectId(hex)]
    ensures ObjectId(hex) in DeleteStep(store, path).store
    ensures DeleteStep(store, path).store[ObjectId(hex)] == store[ObjectId(hex)]
  {
  }

  /** In an empty collection, create answers with the generated id, and update
      and delete with that very id both answer not found. */
  lemma CreatedIdNotFoundByUpdateOrDelete(body: Doc, username: string, now: string, oid: string, patch: Doc)
    requires "_id" !in body
    requires "expiration_date" in body && Truthy(body["expiration_date"])
    ensures var created := CreateStep(map[], body, username, now, oid);
            && created.resp == Ok(201, map["id" := Str(oid)])
            && UpdateStep(created.store, oid, patch).resp == HttpError(404, NotFoundDetail)
            && DeleteStep(created.store, oid).resp == HttpError(404, NotFoundDetail)
  {
    var created := CreateStep(map[], body, username, now, oid);
    assert created.store.Keys == {ObjectId(oid)};
  }
}
