# Map submission workflow of the maps service

This project models the map submission workflow of the game-mapping platform's
`MapsService` and proves properties of that model. The service keeps a
repository of map records. Each record has a name, a game-mode type, a
lifecycle status (NEEDS_REVISION, PENDING, APPROVED, REJECTED, REMOVED), a
submitter, an info block, ordered tracks, credits, and a download URL and
content hash that appear once a map file is uploaded.

- **Insert** creates a map after two guards. The name guard is meant to refuse
  a name that a live map holds; a map is live unless it is REJECTED or REMOVED.
  As written, though, its filter excludes no status, so the source refuses any
  name that is already stored, whatever that map's status (see "## Findings").
  The quota guard refuses a submitter who already has 5 PENDING maps. The name
  guard runs first. A failed guard writes nothing.
- **Upload** stores a map file. It answers 404 for a missing map and 409 for a
  map that is not in NEEDS_REVISION. Otherwise it stores the bytes under the
  key `maps/<name>.bsp`. It then sets status PENDING, the download URL and the
  hash in one update.
- **Get** and **GetAll** are lookups. GetAll lists the maps in id order, one
  page at a time, with the total count.

Layout:

- `map_model.dfy`, module `MapModel`: the records, the statuses, `IsLive`, the
  HTTP exceptions, and the repository as a value with its consistency predicate
  `ValidRepo`. Under `ValidRepo`, ids are handed out from 1 upwards, and a
  record's URL and hash are either both set or both unset.
- `map_queries.dfy`, module `MapQueries`: the repository queries the service
  relies on. These are filtered counts, the listing in id order, and paging.
- `file_store.dfy`, module `FileStoreCloud`: the cloud file store as a class. It
  holds a map from key to stored bytes, a content-hash function, and a
  key-to-URL function.
- `maps_service.dfy`, module `Maps`: the guards, the storage key, the record
  projections, and `InsertEffect` and `UploadEffect`, which give the effect of
  Insert and Upload as functions of the repository. It also holds the class
  `MapsService`. Its methods change the repository in place and are proved
  equal to those functions.
- `maps_properties.dfy`, module `MapsProperties`: lemmas relating operations
  and states. They cover how Insert and Upload move PENDING counts, the storage
  key's inverse, the documented scenarios, and the name filter as written.

Where the code differs from the service's documented intent, the model follows
the code, with one exception noted after this list:

- Insert swallows guard failures. The guards raise 409 internally, but
  `catch { return; }` turns that into an empty response
  (server/src/modules/maps/maps.service.ts:35-42). `InsertEffect` therefore
  answers `None`, not a 409.
- Get does not check for a missing map itself. The model answers `None` for an
  id that has no record.
- The quota counts PENDING maps only, and only at creation. Upload checks no
  quota. `QuotaDoesNotBoundPending` proves that a submitter can therefore hold
  more than 5 PENDING maps.

The exception is the name filter. As written it does not exclude REJECTED or
REMOVED maps (see "## Findings"). The filter as written is modelled by
`VerifyMapNameNotTakenAsWritten`. Insert and the lemmas built on it model the
corrected rule instead. These are `InsertGuards`, `InsertEffect`,
`MapsService.Insert`, `DeadNameCanBeReused`, `LiveNameBlocksInsert`,
`QuotaBlocksInsert` and `CreateUploadUploadScenario`. So where a REJECTED or
REMOVED map holds the name, the modelled Insert creates a map that the source
as written refuses; `AsWrittenInsertRefusesRemovedName` proves such a case.

Inputs the service takes from its environment are parameters of the model:

- the logged-in submitter's id (`submitterID`);
- the clock that stamps credits (`now`);
- the repository's default status for new records (`defaultStatus`);
- the file store's hash and URL functions.

## Model

| member | source | states |
|---|---|---|
| MapQueries.CountPositiveIff | server/src/modules/maps/maps.service.ts:131-133 | a filtered count is positive exactly when some stored map matches the filter, so `whereResult[1] > 0` means "a match exists" |
| MapQueries.ListingExact | server/src/modules/maps/maps.service.ts:22-26 | the listing GetAll pages over holds every stored map, each in its own id's place, nothing else, in strictly increasing id order |
| MapQueries.ListingLength | server/src/modules/maps/maps.service.ts:22-26 | the listing is as long as the number of stored ids below the bound, so its length equals GetAll's total |
| MapQueries.Page | server/src/modules/maps/maps.service.ts:22-23 | a page skips `skip` items (all of them when fewer remain), then keeps at most `take` items in listing order; with no `take` it keeps the rest |
| Maps.VerifyMapNameNotTaken | server/src/modules/maps/maps.service.ts:120-138 | the name guard rejects with "Map name already used" (409) exactly when a stored map with the same name is live (neither REJECTED nor REMOVED); it only reads |
| Maps.VerifyMapNameNotTakenAsWritten | server/src/modules/maps/maps.service.ts:121-135 | with the filter exactly as written, the guard rejects whenever any stored map has the name, whatever its status |
| Maps.VerifyMapUploadLimitNotReached | server/src/modules/maps/maps.service.ts:140-155 | the quota guard rejects with "Map creation limit reached" (409) exactly when the submitter has 5 or more PENDING maps; a count of 4 passes |
| Maps.InsertGuards | server/src/modules/maps/maps.service.ts:35-42 | Insert's guards fail exactly when the name is live-taken or the quota is reached; the name failure wins when both apply, and the quota failure is reported only when the name is free |
| Maps.StorageKey | server/src/modules/maps/maps.service.ts:157-160 | the storage key is "maps/" then the map name then ".bsp", so it depends on the name only |
| Maps.NameOfStorageKey | server/src/modules/maps/maps.service.ts:158 | inverse of the storage key: it answers a name exactly when the key is that name's storage key, and nothing for any other key |
| Maps.ToTracks | server/src/modules/maps/maps.service.ts:61-72 | stored tracks have the request's length and order, and the same isLinear, numZones, trackNum and difficulty at each position |
| Maps.ToCredits | server/src/modules/maps/maps.service.ts:73-84 | stored credits have the request's length and order and the same type and user at each position, with both timestamps set to the given time |
| Maps.NewRecord | server/src/modules/maps/maps.service.ts:45-85 | a created record has the given submitter, the request's name, type, info, tracks and credits, the repository's default status, and no download URL or hash |
| Maps.WithUploadedFile | server/src/modules/maps/maps.service.ts:105-112 | the upload update sets status PENDING, the download URL and the hash to the store's answer, and keeps id, name, type, submitter, info, tracks and credits |
| Maps.InsertEffect | server/src/modules/maps/maps.service.ts:34-90 | Insert answers nothing and changes nothing when a guard fails; otherwise it adds exactly one record under a fresh id and leaves every existing record unchanged; the repository stays consistent |
| Maps.UploadEffect | server/src/modules/maps/maps.service.ts:92-115 | Upload gives 404 for a missing map and 409 for a map not in NEEDS_REVISION, changing nothing in both cases; otherwise only that map changes, to PENDING with the URL of its storage key and the hash of the uploaded bytes |
| Maps.MapsService.constructor | server/src/modules/maps/maps.service.ts:14-18 | a new service starts from an empty, consistent repository with the given default status and file store |
| Maps.MapsService.GetAll | server/src/modules/maps/maps.service.ts:22-26 | returns the requested page of the id-ordered listing and the total number of maps; without paging the page holds all of them |
| Maps.MapsService.Get | server/src/modules/maps/maps.service.ts:28-32 | returns the stored map with that id, or nothing when there is none |
| Maps.MapsService.Insert | server/src/modules/maps/maps.service.ts:34-90 | the repository after Insert and its answer are those of InsertEffect, and the repository stays consistent |
| Maps.MapsService.Upload | server/src/modules/maps/maps.service.ts:92-115 | the repository after Upload and its answer are those of UploadEffect; on failure the file store is not touched; on success it holds the bytes under the map's storage key, and the recorded hash is the hash of those stored bytes |
| FileStoreCloud.FileStore.StoreFileCloud | server/src/modules/maps/maps.service.ts:159 | storing puts the bytes under the key, replacing what was there, and answers the key's URL and the hash of those bytes |
| FileStoreCloud.FileStore.constructor | server/src/modules/maps/maps.service.ts:17 | a new file store is empty and uses the given hash and URL functions |
| MapsProperties.StorageKeyRoundTrip | server/src/modules/maps/maps.service.ts:158 | the map name can be read back from its storage key |
| MapsProperties.StorageKeyInjective | server/src/modules/maps/maps.service.ts:158 | two maps share a storage key exactly when they share a name |
| MapsProperties.PendingCountAfterPromotion | server/src/modules/maps/maps.service.ts:143-150 | turning one NEEDS_REVISION map into a PENDING map of the same submitter raises that submitter's PENDING count by one and leaves every other submitter's count unchanged |
| MapsProperties.PendingCountAfterAdd | server/src/modules/maps/maps.service.ts:143-150 | adding a record under a fresh id raises its submitter's PENDING count by one if the record is PENDING, and changes no count otherwise |
| MapsProperties.UploadPendingCount | server/src/modules/maps/maps.service.ts:99-112 | a successful upload raises the owner's PENDING count by exactly one; a failed one changes no count |
| MapsProperties.InsertPendingCount | server/src/modules/maps/maps.service.ts:45-87 | Insert changes no PENDING count unless the repository's default status is PENDING |
| MapsProperties.QuotaDoesNotBoundPending | server/src/modules/maps/maps.service.ts:92-115 | a submitter already at 5 PENDING maps can still upload for a NEEDS_REVISION map and then holds more than 5 PENDING maps |
| MapsProperties.DeadNameCanBeReused | server/src/modules/maps/maps.service.ts:120-138 | a name held only by REJECTED or REMOVED maps can be used again by a submitter under the quota |
| MapsProperties.LiveNameBlocksInsert | server/src/modules/maps/maps.service.ts:35-42 | a name held by a live map makes Insert fail with the name conflict and write nothing |
| MapsProperties.QuotaBlocksInsert | server/src/modules/maps/maps.service.ts:35-42 | a submitter with a free name but 5 or more PENDING maps fails with the quota conflict, and nothing is written |
| MapsProperties.CreateUploadUploadScenario | server/src/modules/maps/maps.service.ts:34-115 | with NEEDS_REVISION as the default status, a created map accepts one upload and becomes PENDING with the store's URL and the hash of the bytes; a second upload then gets 409 and changes nothing |
| MapsProperties.AsWrittenNameGuardBlocksRemovedName | server/src/modules/maps/maps.service.ts:121-129 | when the only map named "Surf_Gamma" is REMOVED, the guard as written rejects the name and the intended guard accepts it |
| MapsProperties.AsWrittenInsertRefusesRemovedName | server/src/modules/maps/maps.service.ts:34-42 | in a valid repository whose only map, "Surf_Gamma", is REMOVED, the name guard as written rejects "Surf_Gamma", so Insert as written answers nothing, while the model's Insert creates the map |
| MapsProperties.NameGuardsAgreeOnLiveMaps | server/src/modules/maps/maps.service.ts:121-135 | the guard as written and the intended guard agree whenever no map with that name is REJECTED or REMOVED |

## Findings

| source | as written | input that shows it | evidently intended | confidence | as-written member | corrected member |
|---|---|---|---|---|---|---|
| server/src/modules/maps/maps.service.ts:121-129 | the name filter is `NOT { statusFlag: REJECTED, OR: { statusFlag: REMOVED } }`, which means NOT(status is REJECTED and status is REMOVED); no status is both, so the filter excludes no map | a repository whose only map named "Surf_Gamma" is REMOVED; creating "Surf_Gamma": the name guard rejects with "Map name already used", so Insert answers nothing and creates no map | a map counts against the name unless it is REJECTED or REMOVED | medium: not executed; it rests on the query layer reading a single-object `OR` as a one-element disjunction that is ANDed with its sibling field | Maps.VerifyMapNameNotTakenAsWritten, MapsProperties.AsWrittenNameGuardBlocksRemovedName, MapsProperties.AsWrittenInsertRefusesRemovedName | Maps.VerifyMapNameNotTaken |

The rest of the model (`InsertGuards`, `InsertEffect`, `MapsService.Insert`)
uses the corrected guard.

## Left out

- Asynchrony and concurrency: every operation is one atomic step. The
  check-then-insert races between concurrent Inserts are not modelled. These
  are two Inserts with the same name both passing the name guard, and two
  Inserts by one submitter both passing the quota guard.
- Failure of the file store or of the repository update is not modelled. This
  includes the file left orphaned when the update fails after the store
  succeeded. Both calls are modelled as always succeeding.
- The file store's hash algorithm and URL format are not part of this model.
  They are the uninterpreted functions `hashOf` and `urlOf`. The URL is assumed
  to depend on the key only, and the hash on the stored bytes only.
- DTO mapping (`DtoFactory`, `PaginatedResponseDto`) and the query-layer input
  shapes are not modelled. Records are datatypes, and filters are one
  `MapFilter` datatype.
- MapsService.Get: the service passes the repository's answer for a missing id
  to `DtoFactory`, which is not part of this model. The model answers `None`.
- MapsService.GetAll: the repository's paging code is not part of this model.
  Paging is modelled as an offset and a limit over the maps in id order.
- MapsService.Upload: the 404 test in the source checks that the loaded id is
  truthy. Ids start at 1 here, so this coincides with "no such map". An id-0
  record is not modelled.
- MapsService.Insert: the source reads the clock separately for each of the
  two timestamps of every credit. Here all credits of one request share the
  single parameter `now`.
- The numeric codes of the status and map-type enumerations are not modelled.
  Statuses are a datatype and map types are plain numbers.
- The configured map size limit (server/config/config.ts:63) is not enforced
  by the service, and Upload does not check it.
- Moderation transitions to APPROVED, REJECTED or REMOVED happen outside the
  service and are not modelled.
- server/src/modules/admin/admin.controller.ts is not modelled: its handlers
  are stubs with no behaviour.
- apps/frontend/src/app/app.module.ts is not modelled: it is UI module wiring.
- The rest of server/config/config.ts is not modelled: it reads environment
  variables and holds constant tables.
