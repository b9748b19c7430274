# Announcements router, modelled in Dafny

This project models the announcement endpoints of a FastAPI backend. They
work on one document collection of timed notices:

- reading a public listing of the announcements whose window contains the
  current instant;
- reading a manage listing of all announcements;
- creating, updating and deleting single announcements.

The files:

- `documents.dfy` (module `Documents`): field values. A value is a string,
  null, a store-generated ObjectId, or any other value, which keeps only its
  `str()` text and its Python truthiness. A document is a map from field name
  to value. The module also defines `Truthy`, `Text` (Python `str`) and `Get`
  (Python `dict.get`).
- `string_order.dfy` (module `StringOrder`): the store's string comparison.
  It is lexicographic order on code points, which is the document store's
  binary comparison of UTF-8 strings. The ISO-8601 dates are compared with it
  as strings. The module proves this order equal to the "prefix, or smaller at
  the first difference" definition, and proves it a total order.
- `announcements.dfy` (module `Announcements`): the collection, a map from
  each `_id` value to its document. The document keeps its own `_id` field
  (`ValidStore`). The module holds the seven-key projection
  (`announcement_dict`), the active-window filter, the two listings, and one
  specification function per handler (`CreateStep`, `UpdateStep`,
  `DeleteStep`). Each returns the response and the new collection. The class
  `AnnouncementCollection` holds the collection as a field. Its `Create`,
  `Update` and `Delete` methods change it in place and are proved equal to
  those functions.
- `announcement_properties.dfy` (module `AnnouncementProperties`): lemmas
  that relate the handlers to each other and to the listings.

Inputs that come from outside the router are parameters:

- the clock is `now` (the `isoformat()` text of the current UTC time);
- the authenticated caller is `username`;
- the ObjectId that the driver would generate is `oid`, its hex text.

Responses are `Ok(status, body)`, `HttpError(status, detail)` for the
handler's own `HTTPException`s, and `StoreError` for the two store failures
modelled: a duplicate `_id` on insert, and a `$set` that would change `_id`.
Other refusals by the store are listed under "Left out".

Points where the code's behaviour may surprise a reader (the model follows
the code):

- Create rejects any falsy `expiration_date`, not only a missing or empty
  one. So null, `0` and `false` are rejected too.
- A `start_date` that is null counts as "no start date", as a missing one
  does. A `start_date` or `expiration_date` that is not a string never
  passes its comparison.
- Update and delete match the path text against `_id` as a string. Create
  returns `str()` of a generated ObjectId. So the id that create returns does
  not reach the created document through update or delete
  (`CreatedIdNotFoundByUpdateOrDelete`, `GeneratedIdsUnreachable`). Only
  documents stored under a string `_id` can be updated or deleted.
- Update may overwrite `created_by`, `created_at` and `expiration_date`
  (`UpdateOverwritesServerFields`, `UpdateCanClearExpiration`). The store
  refuses to change `_id`, so neither update nor the model lets it change.
- A client-supplied `_id` in a create body is kept by the driver and becomes
  the stored key.

## Model

| member | source | states |
|---|---|---|
| `Documents.Get` | src/backend/routers/announcements.py:13-19 | the definition of `dict.get(key, default)`: the stored value when the key is present, the default otherwise; used by the projection and by the check at :40 |
| `Documents.Truthy` | src/backend/routers/announcements.py:40 | the definition of Python truthiness for the `not announcement.get("expiration_date")` test: empty string and `None` are false, an ObjectId is true, other values carry their own; used by `CreateStep` |
| `Documents.Text` | src/backend/routers/announcements.py:13 | the definition of `str()` on a field value, used for the listed `id` (:13) and the returned id (:45); see `ProjectedIdIsKeyText` and `CreateStep` |
| `Announcements.Project` | src/backend/routers/announcements.py:11-20 | the definition of `announcement_dict`; specified by `ProjectionShape` and `ProjectIgnoresOtherFields` |
| `Announcements.StartsBy` | src/backend/routers/announcements.py:26-29 | the definition of the `$or` of `{"start_date": None}` and `{"start_date": {"$lte": now}}`; see `ActiveWindow` |
| `Announcements.ExpiresFrom` | src/backend/routers/announcements.py:30 | the definition of `{"expiration_date": {"$gte": now}}`; see `ActiveWindow` and `ExpiredIsNeverActive` |
| `Announcements.IsActive` | src/backend/routers/announcements.py:25-31 | the definition of the whole `find()` filter of `get_announcements`, the conjunction of the two conditions; specified by `ActiveWindow` |
| `Announcements.InsertedId` | src/backend/routers/announcements.py:44 | the definition of the `_id` that `insert_one` stores: the body's own `_id` if present, else the generated ObjectId; see `CreateStep` |
| `StringOrder.LexLe` | src/backend/routers/announcements.py:28-30 | the definition of the store's `$lte`/`$gte` order on strings; specified by `LexLeMatchesDefinition` and shown total by the order lemmas |
| `StringOrder.LexLt` | src/backend/routers/announcements.py:30 | the definition of "strictly before"; see `LexLtIffNotLe` |
| `Announcements.ProjectionShape` | src/backend/routers/announcements.py:11-20 | the projection has exactly the seven keys; `id` is the text of `_id`, or empty when there is none; `title`/`message` default to the empty string and the dates and creator to null; present fields pass through unchanged |
| `Announcements.ProjectIgnoresOtherFields` | src/backend/routers/announcements.py:11-20 | two documents that agree on the seven source fields have the same projection, so every other field is dropped |
| `Announcements.ProjectedIdIsKeyText` | src/backend/routers/announcements.py:13 | for a stored document, the listed `id` is the `str()` of its key |
| `Announcements.ActiveWindow` | src/backend/routers/announcements.py:25-31 | a document passes the filter iff (`start_date` is missing, null, or a string at or before now) and `expiration_date` is a string at or after now |
| `Announcements.ExpiredIsNeverActive` | src/backend/routers/announcements.py:30 | a document whose expiration date is strictly before now never passes the filter, whatever its start |
| `Announcements.ActiveUnderProjection` | src/backend/routers/announcements.py:25-32 | filtering the projection decides exactly as filtering the stored document |
| `Announcements.FullListing` | src/backend/routers/announcements.py:34-36 | the manage listing holds the projection of every stored document and nothing that is not one |
| `Announcements.ActiveListing` | src/backend/routers/announcements.py:22-32 | a stored document's projection is in the public listing iff the document passes the filter; the public listing is inside the manage listing; every listed entry has an expiration at or after now and a start that is null or at or before now |
| `Announcements.CreateStep` | src/backend/routers/announcements.py:38-45 | a falsy or missing `expiration_date` gives 400 "Expiration date is required." with the collection unchanged; an `_id` already present gives a duplicate-key failure with the collection unchanged; otherwise 201 with `str()` of the new id; exactly one document is added under an id not there before; it keeps every supplied field except `created_by`/`created_at`, which are the caller and now; every other document is unchanged; the `_id` invariant is kept |
| `Announcements.UpdateStep` | src/backend/routers/announcements.py:47-52 | no document under the path string gives 404 "Announcement not found." with the collection unchanged; a `$set` that changes `_id` fails with the collection unchanged; otherwise the response is `{"status": "updated"}`, the matched document takes exactly the supplied keys and keeps all its other fields, other documents are unchanged, and no key is added to the collection |
| `Announcements.DeleteStep` | src/backend/routers/announcements.py:54-59 | no document under the path string gives 404 with the collection unchanged; otherwise the response is `{"status": "deleted"}`, exactly that key is removed and every remaining document is unchanged |
| `Announcements.AnnouncementCollection.Create` | src/backend/routers/announcements.py:39-45 | stamps a copy of the body with the caller and the time and inserts it; the response and the new collection are those of `CreateStep`; the `_id` invariant is kept |
| `Announcements.AnnouncementCollection.Update` | src/backend/routers/announcements.py:48-52 | merges the patch into the matched document in place; response and new collection as `UpdateStep` |
| `Announcements.AnnouncementCollection.Delete` | src/backend/routers/announcements.py:55-59 | removes the matched document in place; response and new collection as `DeleteStep` |
| `StringOrder.LexLeMatchesDefinition` | src/backend/routers/announcements.py:28-30 | the `$lte`/`$gte` string order is: a prefix, or smaller at the first differing position (both directions) |
| `StringOrder.LexLeReflexive` | src/backend/routers/announcements.py:28-30 | every timestamp is at or before itself |
| `StringOrder.LexLeAntisymmetric` | src/backend/routers/announcements.py:28-30 | two strings each at or before the other are equal |
| `StringOrder.LexLeTransitive` | src/backend/routers/announcements.py:28-30 | the order is transitive |
| `StringOrder.LexLeTotal` | src/backend/routers/announcements.py:28-30 | any two strings are comparable |
| `StringOrder.LexLtIffNotLe` | src/backend/routers/announcements.py:30 | strictly before is exactly "not at or after" |
| `AnnouncementProperties.ExpiredOnlyInManageListing` | src/backend/routers/announcements.py:25-36 | an announcement that expired before now is absent from the public listing and present in the manage listing |
| `AnnouncementProperties.NoStartShownUntilExpiry` | src/backend/routers/announcements.py:26-30 | an announcement without a start date is in the public listing whenever its expiration is at or after now |
| `AnnouncementProperties.CreateExtendsManageListing` | src/backend/routers/announcements.py:36-44 | after a successful create, the manage listing is the old one plus exactly the new document's projection |
| `AnnouncementProperties.CreatedDocumentIsStamped` | src/backend/routers/announcements.py:40-45 | the created document has a truthy expiration date; its projection shows the caller as creator, now as creation time, and the returned id |
| `AnnouncementProperties.CreatedIsListedInWindow` | src/backend/routers/announcements.py:25-44 | a created announcement without a start date is in the public listing at any instant up to its expiration |
| `AnnouncementProperties.MaintenanceExample` | src/backend/routers/announcements.py:25-45 | creating a "Maintenance" notice expiring in 2099 as "alice" returns its id, and the public listing then shows it with that message, creator "alice" and a null start |
| `AnnouncementProperties.UpdateTitleOnly` | src/backend/routers/announcements.py:49 | `$set` of `{"title": x}` on a stored id succeeds and changes the title of that document and nothing else in the collection |
| `AnnouncementProperties.UpdateOverwritesServerFields` | src/backend/routers/announcements.py:49 | a successful update takes client-supplied `created_by` and `created_at` as given |
| `AnnouncementProperties.UpdateCanClearExpiration` | src/backend/routers/announcements.py:30-49 | update can set an empty expiration date, which create forbids; the announcement then leaves the public listing |
| `AnnouncementProperties.UpdateIdempotent` | src/backend/routers/announcements.py:49 | applying the same successful `$set` twice gives the same response and collection as applying it once |
| `AnnouncementProperties.DeleteRemovesFromListings` | src/backend/routers/announcements.py:25-58 | after a successful delete, neither listing has an entry with the deleted id (when no other key has the same text), and both listings only shrink |
| `AnnouncementProperties.DeleteListingsExact` | src/backend/routers/announcements.py:25-58 | after a delete, the manage listing is exactly the projections of the documents under every other key, and the public listing exactly those of them that pass the filter; a not-found delete leaves both as they were |
| `AnnouncementProperties.DeleteTwiceNotFound` | src/backend/routers/announcements.py:56-58 | deleting the same id a second time answers 404 and changes nothing |
| `AnnouncementProperties.GeneratedIdsUnreachable` | src/backend/routers/announcements.py:45-56 | a document stored under an ObjectId remains, unchanged, after any update or delete by path |
| `AnnouncementProperties.CreatedIdNotFoundByUpdateOrDelete` | src/backend/routers/announcements.py:44-58 | in an empty collection, update and delete with the very id that create returned both answer 404 |

## Left out

- HTTP routing, decorators, `response_model`, request parsing and JSON encoding: each handler is a function from its inputs to a `Response`.
- Authentication (`get_current_user`, the OAuth2 scheme): the rejection of an unauthenticated request happens before any handler body runs, so the model starts from an authenticated `username`.
- The clock (`datetime.utcnow().isoformat()`): passed in as `now`; no date parsing happens in the router.
- ObjectId generation: the generated id's hex text is the parameter `oid`; the uniqueness the driver provides in practice is not assumed, a collision is the store's duplicate-key failure.
- The order of `find()` results and duplicate entries in a listing: listings are sets of projections.
- Arrays and embedded documents as field values: the document store's element-wise matching of arrays in queries is not modelled; every non-string, non-null value fails both date comparisons. The store's refusal of an array (or other invalid) `_id` on `insert_one`, which the handler surfaces as a server error, is not modelled either: `CreateStep` accepts any client-supplied `_id` value that is not already a key.
- BSON comparison across types and collations other than the default binary one.
- `$set` with dotted field paths or `$`-prefixed names, which the store interprets specially or refuses; patch keys are treated as plain field names. An empty `$set`, which older store versions refuse, is modelled as a successful no-op merge.
- The in-place mutation of the request dict: the handler writes `created_by` and `created_at` into the caller's dict object (:42-43) and the driver then adds `_id` to it (:44); the model stamps a copy and stores that, so only the stored document is modelled, not the aliasing with the request object.
- Concurrency between requests: each handler is one atomic step on the collection.
- AnnouncementProperties.DeleteRemovesFromListings: states "no entry with the deleted id" only when no other stored `_id` has the same `str()` text (a string id equal to an ObjectId's hex, say), because listings are sets of projections and such a twin would still be listed under that id.
