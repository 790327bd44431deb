# audiobookshelf persistence core, in Dafny

This project models the persistence core of the audiobookshelf server. It has two parts.

- **The `Database` facade** (`server/Database.js`). This is a singleton that owns the backing store and an in-memory mirror. The mirror holds the arrays `libraryItems`, `users`, `libraries`, `collections`, `playlists`, `authors`, `series` and `feeds`. A create method writes to the store, then appends to the mirror; the exceptions are `createRootUser`, which appends nothing when the store returns no user, the empty `createFeed` stub, and the two bugs listed under "## Findings" (`createAuthor` throws before any write, and `createCollection` with books throws after the write and before the append). A remove method writes to the store, then filters the mirror by id; `removeBulkBookAuthors` instead filters by `authorId` and `bookId`, and does nothing when neither key is given. `updateCollection`, `updatePlaylist` and `createPlaylist` never diff join rows: they rebuild them from the caller's id list and the library-item mirror, dropping ids that do not resolve and numbering the rest with `order` 1, 2, 3, … without gaps (`createCollection` as written builds no such rows). Startup decides three things:
  - whether the store is new;
  - whether to migrate a legacy store;
  - whether to record a new server version.
- **The polymorphic feed model** (`server/models/Feed.js`). A feed belongs to a library item, a collection, a series or a playlist. The `entityType` column names which one. The `afterFind` hook folds the four possible joins into one `entity` property. `getEntity` dispatches on the discriminator. `getOldFeed` and `getOldFeeds` project stored rows into the legacy feed object.

Layout:

| file | module | contents |
|---|---|---|
| `common.dfy` | `Common` | ids, `Option`, the `Outcome` of an async operation (settled or threw), JavaScript truthiness of a nullable string, `filter` by predicate and by id |
| `naming.dfy` | `Naming` | the `uppercaseFirst` helper |
| `entities.dfy` | `Entities` | the mirror's entities, the join rows, the settings records |
| `join_rows.dfy` | `JoinRows` | `Array.find` on the library-item mirror; the specification of the collection and playlist join rows |
| `feed.dfy` | `Feed` | the fetched feed instance (a class), the `afterFind` hook, `getEntity`, `getOldFeed(s)` |
| `store.dfy` | `Store` | the backing store |
| `database.dfy` | `Database` | the facade class |

The backing store is a class with one field: the log of every call the facade has issued, each with the answer that call settled with. Each answer comes from a function fixed when the store is built. The model constrains only the answer's shape: a full update answers whether anything changed, and a `createFromOld` answers the new row or null. Any call may also reject. A facade method's contract therefore names:
- the calls it issued, in order;
- what it did with each answer;
- the mirror's new state.

A mirror is touched only after its store call settled without rejecting. This is how the source's `await` sequencing behaves: the exception propagates before the `push` or the `filter` runs.

## Model

| member | source | states |
|---|---|---|
| Common.RemoveId | server/Database.js:179 | the filtered mirror holds no element with the id; every other element keeps its multiplicity; the result is a subsequence of the input, so relative order is kept |
| Common.RemoveIdUndoesAppend | server/Database.js:163-180 | removing, by its id, an element just appended restores the old list when no other element shares that id |
| Common.Filter | server/Database.js:416-420 | the result is no longer than the input; it holds only kept elements; each kept element keeps its multiplicity |
| Common.FilterIsSubsequence | server/Database.js:416-420 | a filter keeps the surviving elements in their original relative order |
| Naming.ToUpper | server/Database.js:74 | `toUpperCase` on one character: a lower-case ASCII letter becomes its capital, 32 code points lower; any other character is kept |
| Naming.UppercaseFirst | server/Database.js:74 | `''` maps to `''`; length is preserved; the tail is unchanged; a lower-case first letter becomes its upper-case form; any other first character is left as is |
| JoinRows.FirstIndexIsFirst | server/Database.js:323-325 | no item before the index `find` stops at carries the id |
| JoinRows.FindLibraryItem | server/Database.js:324 | `find` by id: an item it returns carries the id (see FindLibraryItemSpec for the rest) |
| JoinRows.FindLibraryItemSpec | server/Database.js:323-325 | `find` succeeds iff some item carries the id; the item found is the first one carrying it |
| JoinRows.Resolved | server/Database.js:232-234 | each position it lists is in range, and the id there resolves |
| JoinRows.CollectionRows | server/Database.js:230-240 | the collection-book rows of `updateCollection`; there are never more rows than ids (CollectionRowsSpec says which rows) |
| JoinRows.ResolvedOrdered | server/Database.js:232-234 | the listed positions are strictly increasing, and no position whose id resolves is missing |
| JoinRows.CollectionRowsSpec | server/Database.js:229-240 | row j comes from the j-th resolvable id: its `bookId` is the `media.id` of that library item, its `collectionId` is the collection's id, and its `order` is j+1; there are exactly as many rows as resolvable ids |
| JoinRows.CollectionRowsOrdered | server/Database.js:231-239 | the orders are exactly 1..k; every row belongs to the collection; there are at most as many rows as ids |
| JoinRows.AllResolvedCollectionRows | server/Database.js:232-239 | when every id resolves, the rows follow the ids one for one |
| JoinRows.AllResolved | server/Database.js:232-234 | when every id resolves, the resolved positions are 0..n-1 |
| JoinRows.ResolvedBound | server/Database.js:232-234 | there are at most as many resolved positions as ids |
| JoinRows.LibraryItemIds | server/Database.js:294 | the library-item id of each playlist entry, position by position |
| JoinRows.PlaylistRows | server/Database.js:291-302 | the playlist-media-item rows of `updatePlaylist`; there are never more rows than entries (PlaylistRowsSpec says which rows) |
| JoinRows.PlaylistRowsSpec | server/Database.js:290-302 | there is one row per entry whose library item resolves, in entry order, with `order` j+1; `mediaItemType` is `podcastEpisode` iff the entry has an episode id; `mediaItemId` is that episode id, else the library item's `media.id` |
| JoinRows.PlaylistRowsOrdered | server/Database.js:292-300 | the orders are exactly 1..k; every row belongs to the playlist; there are at most as many rows as entries |
| Feed.Normalized | server/models/Feed.js:137-160 | the four raw join properties end up undefined, and `entityType` is kept; a recognised discriminator whose join is present copies that join into `entity`; otherwise `entity` is left unchanged |
| Feed.FeedInstance.Normalize | server/models/Feed.js:137-160 | the instance's new state is `Normalized` of its old state |
| Feed.NormalizedIdempotent | server/models/Feed.js:133-161 | normalising an already normalised instance changes nothing |
| Feed.NormalizedEntityMatchesType | server/models/Feed.js:138-150 | if `entity` changed, it is the join named by the discriminator |
| Feed.Instances | server/models/Feed.js:134-136 | a null result gives no instances, a single instance becomes a one-element list, and a list is walked as it is |
| Feed.AfterFind | server/models/Feed.js:133-162 | null resolves to no change; a single instance is treated as a one-element list; every listed instance, aliases included, ends in the normalised form of its state before the hook |
| Feed.LookupGetter | server/models/Feed.js:60 | among the getters Feed.js declares (the four owner associations and `user`), a name is found iff it is one of their names |
| Feed.OwnerGetterLookup | server/models/Feed.js:59-60 | for each of the four owner types, `"get" + uppercaseFirst(entityType)` names that type's own association getter |
| Feed.FeedInstance.GetEntity | server/models/Feed.js:57-61 | it resolves to null iff `entityType` is null or empty; each of the four owner types calls its own getter with `entityId`; `'user'` calls `getUser` with the feed's `userId`, and every other call is keyed by `entityId`; any call goes to the method named `"get" + uppercaseFirst(entityType)`; a name that is none of the getters Feed.js declares is reported as a TypeError |
| Feed.MapEpisodes | server/models/Feed.js:19 | one old episode per joined episode, in order |
| Feed.GetOldFeed | server/models/Feed.js:18-47 | id, slug, userId, entityType and entityId are copied; `feedURL` goes to both `feedUrl` and `meta.feedUrl`; `imageURL` goes to `meta.imageUrl` and `siteURL` to `meta.link`; `podcastType` goes to `meta.type`; episodes keep count and order |
| Feed.GetOldFeedLosesOnlyEntityUpdatedAt | server/models/Feed.js:18-47 | the projection can be inverted once `entityUpdatedAt` is supplied: it drops no other column |
| Feed.GetOldFeeds | server/models/Feed.js:9-16 | one old feed per fetched row, in fetch order |
| Database.SomeRoot | server/Database.js:37-39 | `some` over the users is true iff some position has type `root` |
| Database.Database.HasRootUser | server/Database.js:37-39 | true iff some mirror user has type `root` |
| Database.CountChanged | server/Database.js:337-342 | the count of updates that reported a change is at most the number of updates |
| Database.CountChangedExtremes | server/Database.js:337-342 | the count is 0 when no update changed anything, and the number of updates when every one did |
| Database.FilterBookAuthors | server/Database.js:416-420 | an entry is kept iff it differs from a supplied key on that key; kept entries keep their multiplicity and their order |
| Database.FilterBookAuthorsKeepsOldAuthors | server/Database.js:416-420 | an old author object has no `authorId` or `bookId`, so it survives every removal by key |
| Database.FilterBookAuthorsRemovesMatches | server/Database.js:416-420 | a join row is removed iff every supplied key matches it |
| Database.CollectionBooksAsWritten | server/Database.js:212-221 | as written, building the rows succeeds, with no rows, iff the collection has no books; otherwise it throws |
| Database.CreateCollectionAsWrittenThrows | server/Database.js:213-219 | with one resolvable book: the as-written build throws, while the intended rows are one row with order 1 |
| Database.Database.constructor | server/Database.js:11-31 | the mirror is empty, `isNew` is false and the settings are null |
| Database.Database.Init | server/Database.js:49-63 | `isNew == !hasDb \|\| force`; it authenticates, then syncs with `force`, then loads, and issues nothing else; a failed authentication throws "connection failed" and issues nothing more; a rejected sync propagates before any load; either failure leaves the mirror and settings as they were; once both succeed, the calls that follow and the outcome are those `LoadData` promises, on every path |
| Database.Database.Connect | server/Database.js:76-83 | it authenticates once, and is true iff that call did not reject |
| Database.Database.BuildModels | server/Database.js:86-110 | it issues one sync with `force`; a rejection propagates |
| Database.Database.LoadData | server/Database.js:112-144 | the first call is a migration iff `isNew` and the store should be migrated, else the load; a migration answers done or rejects, and a done migration is followed by the load; a rejected migration or load stops there, throws, and leaves the mirror and settings as they were; once the load answered, the mirror is the loaded working set with the running version and the global copy follows; then a stored version equal to the package version sends nothing more and succeeds, while a differing one sends exactly one settings write of the upgraded settings, last, and succeeds iff that write answers done |
| Database.Database.MigrateAndRead | server/Database.js:113-143 | the migration is issued first; a rejected migration throws with the mirror untouched and nothing more sent; a done one is followed by what `ReadWorkingSet` promises, one position later |
| Database.Database.ReadWorkingSet | server/Database.js:120-142 | the load is issued first; a rejected load throws with the mirror untouched and nothing more sent; once it answered, the mirror is the loaded working set with the running version; an equal stored version sends nothing more and succeeds; a differing one sends exactly one settings write of the upgraded settings, whose answer decides the outcome |
| Database.Database.UpgradeVersion | server/Database.js:138-142 | an equal stored version changes nothing and issues nothing; a differing one is replaced by the package version, the global copy follows, and exactly one settings write carrying the new settings is issued, whose answer decides the outcome |
| Database.Database.Upgraded | server/Database.js:138-141 | the settings after the upgrade check carry the running version |
| Database.Database.AdoptWorkingSet | server/Database.js:120-134 | the mirror and the settings are assigned from the loaded working set, and the global copy from the server settings |
| Database.Database.AdoptEntities | server/Database.js:120-127 | the eight entity arrays of the mirror are those of the loaded working set |
| Database.Database.AdoptSettings | server/Database.js:129-134 | the settings list, the email, notification and server settings are those loaded, and the global copy follows the server settings |
| Database.Database.UpdateServerSettings | server/Database.js:154-157 | with no settings loaded it throws, and nothing is issued; otherwise the global copy is refreshed first, then one settings write is issued |
| Database.Database.CreateRootUser | server/Database.js:146-152 | it is true iff the store returned a user, and only then is that user appended; a null answer gives false with the mirror unchanged |
| Database.Database.CreateUser | server/Database.js:163-167 | one store write; on success the argument is appended, the prefix is unchanged, and the result is true; on rejection the mirror is unchanged |
| Database.Database.RemoveUser | server/Database.js:177-180 | one store write; on success the mirror is filtered by the id (see Common.RemoveId) |
| Database.Database.CreateLibrary | server/Database.js:194-197 | one store write; on success the argument is appended |
| Database.Database.RemoveLibrary | server/Database.js:203-206 | one store write; on success the mirror is filtered by the id |
| Database.Database.CreateCollection | server/Database.js:208-227 | as written: a rejected create propagates; a returned row plus any book throws before the push; otherwise the collection is appended |
| Database.Database.CreateCollectionIntended | server/Database.js:208-227 | corrected: the rows are the resolvable books numbered 1..k, bulk-created when nonempty, then the collection is appended; any rejection propagates and leaves the mirror unchanged; when the store returns no row, or none of the books resolves, nothing more is issued and the collection is appended |
| Database.Database.GetLibraryItem | server/Database.js:323-325 | it finds an item iff some mirror item carries the id; the item found carries it |
| Database.Database.BuildCollectionBooks | server/Database.js:230-240 | the `forEach` with its `order++` counter builds exactly the rows `CollectionRows` specifies |
| Database.Database.UpdateCollection | server/Database.js:229-242 | one full update carrying the collection and its rebuilt rows; it settles with the store's "changed" flag |
| Database.Database.RemoveCollection | server/Database.js:244-247 | one store write; on success the mirror is filtered by the id |
| Database.Database.BuildPlaylistMediaItems | server/Database.js:291-302 | the loop builds exactly the rows `PlaylistRows` specifies |
| Database.Database.CreatePlaylist | server/Database.js:261-288 | create, then, when the store returned a row, the rebuilt media-item rows keyed by the new id are bulk-created if there are any; then the playlist is appended; a rejection propagates with the mirror unchanged; when the store returns no row, or none of the entries resolves, nothing more is issued and the playlist is appended |
| Database.Database.UpdatePlaylist | server/Database.js:290-304 | one full update carrying the playlist and its rebuilt rows; it settles with the store's "changed" flag |
| Database.Database.RemovePlaylist | server/Database.js:306-309 | one store write; on success the mirror is filtered by the id |
| Database.Database.CreateLibraryItem | server/Database.js:327-330 | one store write; on success the argument is appended |
| Database.Database.UpdateBulkLibraryItems | server/Database.js:336-343 | it issues one full update per item, in input order; on success it returns the number that reported a change, which is at most n; the first rejection propagates, with no later update issued |
| Database.Database.CreateBulkLibraryItems | server/Database.js:345-350 | one create per item, in order; on success the whole input is appended in order; on a rejection, exactly the items before it were appended |
| Database.Database.RemoveLibraryItem | server/Database.js:352-355 | one store write; on success the mirror is filtered by the id |
| Database.Database.RemoveFeed | server/Database.js:365-368 | one destroy by id; on success the mirror is filtered by the id |
| Database.Database.CreateSeries | server/Database.js:374-377 | one store write; on success the argument is appended |
| Database.Database.CreateBulkSeries | server/Database.js:379-382 | one bulk write; on success the whole input is appended in order |
| Database.Database.RemoveSeries | server/Database.js:384-387 | one store write; on success the mirror is filtered by the id |
| Database.Database.CreateAuthor | server/Database.js:389-392 | as written: it always throws a TypeError, and nothing is issued or appended |
| Database.Database.CreateAuthorIntended | server/Database.js:389-392 | corrected: one author write; on success the author is appended |
| Database.Database.CreateBulkAuthors | server/Database.js:394-397 | one bulk write; on success the authors are appended in order |
| Database.Database.RemoveAuthor | server/Database.js:403-406 | one store write; on success the entries with that id are removed, and the book-author rows, which have no id, stay |
| Database.Database.CreateBulkBookAuthors | server/Database.js:408-411 | one bulk write; on success the join rows are appended to the authors mirror, in order |
| Database.Database.RemoveBulkBookAuthors | server/Database.js:413-421 | with neither key truthy, nothing is issued and nothing changes; otherwise one removal by keys is issued, and on success the mirror keeps exactly the entries that differ on a supplied key |
| Database.AsAuthorEntries | server/Database.js:396 | `push(...oldAuthors)` wraps each author, keeping order and count |
| Database.AsBookAuthorEntries | server/Database.js:410 | `push(...bookAuthors)` wraps each join row, keeping order and count |
| Database.RemoveUndoesCreate | server/Database.js:163-180 | removing a freshly created user with a unique id restores the user mirror |
| Store.BackingStore.Issue | server/Database.js:164 | one awaited store call: its answer has the shape the call allows, or is a rejection, and the exchange is appended to the log |

## Left out

- Sequelize internals behind `authenticate`, `sync` and model registration: each is one store call whose answer is arbitrary. Connection construction and the `dbPath` computation are not modelled.
- `fs.pathExists` in `checkHasDb`: its result is the input `hasDb` of `Init`.
- `dbMigration.checkShouldMigrate` and `migrate`: the first is the input `shouldMigrate`; the second is one store call.
- `Logger` and `Date.now()` timing: these are side channels only.
- `global.ServerSettings = serverSettings.toJSON()`: this is the ghost field `globalServerSettings`. JSON serialisation is not modelled.
- The eight reads of `loadData` are folded into one store call. A failure partway through them, which leaves some mirror arrays reassigned, is therefore not modelled.
- The pass-through wrappers with no local logic are not modelled:
  - `updateUser`, `updateBulkUsers`, `upsertMediaProgress`, `removeMediaProgress`, `updateBulkBooks`, `updateLibrary`;
  - `createCollectionBook`, `createBulkCollectionBooks`, `removeCollectionBook`, `createPlaylistMediaItem`, `createBulkPlaylistMediaItems`, `removePlaylistMediaItem`;
  - `updateLibraryItem`, `updateSeries`, `updateAuthor`, `updateSetting`;
  - the playback-session and device methods.

  Where a modelled method calls one of them, that call is one store call.
- The `Promise.all` concurrency of `updateBulkUsers` and `updateBulkBooks` is not modelled.
- Interleaving of other async work between a method's `await`s is not modelled: each method runs to completion.
- `createFeed` and `updateFeed` are empty stubs, so they have nothing to model.
- The `models` getter's `{}` fallback before `init` would make every store call throw. It is not modelled: the store always exists.
- JavaScript array aliasing: `push` mutates the array other holders see, while `filter` reassigns a new one. The mirror is modelled as values.
- Naming.ToUpper, Naming.UppercaseFirst: they upper-case ASCII letters only. The source's `toUpperCase` also maps non-ASCII letters, and can change the length (`'ß'` becomes `"SS"`), which UppercaseFirst's "length is preserved" does not allow for.
- Feed instances: `instance` and `instance.dataValues` are one set of properties in the model, and the hook updates both alike. The other Sequelize getters on an instance and the `options` argument of `getEntity` are not modelled. `getEntity` models only the target row's key, not the fetch.
- `FeedEpisode.getOldEpisode` is a parameter, because the episode model is not part of this model. The legacy `objects/Feed` constructor is treated as a plain record.
- `createdAt.valueOf()` date conversion: dates are integers.
- Feed `removeById` (server/models/Feed.js:49-55) is the store call that `Database.Database.RemoveFeed` issues.
- Sequelize association wiring and column declarations in Feed.js are not modelled.
- Feed.LookupGetter: only the getters Feed.js declares are modelled. A Sequelize instance has more methods whose names start with `get`, which `this[name]` also finds: `getDataValue` (from `entityType` `'dataValue'`), the feed's own `getEntity` (from `'entity'`, which recurses until the stack overflows), and the feed-episode association getter declared by the episode model (from `'feedEpisodes'`). The model reports those names as a TypeError.
- Feed.FeedInstance.GetEntity: for the same reason, its TypeError case is stated relative to the declared getters only; the inputs above call a method instead, or throw a RangeError.
- Columns that may be NULL, other than `entityType` and `episodeId`, are modelled as always present.

Three behaviours of the code worth stating outright:
- `getEntity` has no "no owner" case for an unrecognised `entityType`: it calls whatever `"get" + uppercaseFirst(entityType)` names on the instance. `'user'` reaches `getUser`, keyed by the feed's `userId`.
- There is no feed validation and no dangling-reference error anywhere in this code.
- A bulk failure reports no partial count: the rejection propagates.

## Findings

| source | as written | input that shows it | evidently intended | confidence | as-written member | corrected member |
|---|---|---|---|---|---|---|
| server/Database.js:214-218 | `this.libraryItems.filter(...)` returns an array, which is always truthy and has no `media`. `libraryItem.media.id` then throws a TypeError, so the collection is created in the store but never reaches the mirror, and no collection-book rows are written. The rows also carry no `order`. | a collection with `books = ['li-1']`, where `li-1` is in the mirror | `find`, skipping unresolved ids, with `order` 1..k as `updateCollection` builds | not executed | Database.Database.CreateCollection (with Database.CollectionBooksAsWritten, Database.CreateCollectionAsWrittenThrows) | Database.Database.CreateCollectionIntended |
| server/Database.js:390 | `this.models.createFromOld(oldAuthor)` calls a method the model registry does not have, so every `createAuthor` throws a TypeError before any write or push | any author | `this.models.author.createFromOld(oldAuthor)`, then push | not executed | Database.Database.CreateAuthor | Database.Database.CreateAuthorIntended |
