/** The persistence facade: it owns the backing store's lifecycle and an
    in-memory mirror of the main entity lists. Every mutating operation
    issues its store call first and touches the mirror only once that call
    has settled without rejecting; creates append to the mirror, removes
    filter it by id. */
module Database {
  import opened Common
  import opened Entities
  import opened JoinRows
  import opened Store
  import Feed

  /** `users.some(u => u.type === 'root')` */
  function SomeRoot(users: seq<User>): (b: bool)
    ensures b <==> exists k :: 0 <= k < |users| && users[k].userType == "root"
  {
    if users == [] then false
    else if users[0].userType == "root" then true
    else
      var b := SomeRoot(users[1..]);
      assert b ==> exists k :: 0 <= k < |users| && users[k].userType == "root" by {
        if b {
          var k :| 0 <= k < |users[1..]| && users[1..][k].userType == "root";
          assert users[k + 1].userType == "root";
        }
      }
      b
  }

  /** The exchanges a method added to the log. */
  function Sent(before: seq<Exchange>, after: seq<Exchange>): seq<Exchange>
    requires |before| <= |after|
  {
    after[|before|..]
  }

  /** `after` is `before` plus exactly one exchange, for call `c`. */
  predicate IssuedOnly(before: seq<Exchange>, after: seq<Exchange>, c: Call)
  {
    |after| == |before| + 1 && after[..|before|] == before && after[|before|].call == c
  }

  function LastAnswer(log: seq<Exchange>): Answer
    requires |log| > 0
  {
    log[|log| - 1].answer
  }

  predicate NoneRejected(sent: seq<Exchange>)
  {
    forall k :: 0 <= k < |sent| ==> !sent[k].answer.Rejected?
  }

  /** How many of the exchanges reported that the update changed something
      (`updatesMade` in `updateBulkLibraryItems`). */
  function CountChanged(sent: seq<Exchange>): (n: nat)
    ensures n <= |sent|
  {
    if sent == [] then 0
    else CountChanged(sent[..|sent| - 1]) + if sent[|sent| - 1].answer == Changed(true) then 1 else 0
  }

  /** No update that changed something counts 0; all of them count them all. */
  lemma {:induction false} CountChangedExtremes(sent: seq<Exchange>)
    ensures (forall k :: 0 <= k < |sent| ==> sent[k].answer != Changed(true)) ==> CountChanged(sent) == 0
    ensures (forall k :: 0 <= k < |sent| ==> sent[k].answer == Changed(true)) ==> CountChanged(sent) == |sent|
  {
    if sent != [] {
      var init := sent[..|sent| - 1];
      CountChangedExtremes(init);
      assert forall k :: 0 <= k < |init| ==> init[k] == sent[k];
    }
  }

  /** Appending one exchange adds its change, if any, to the count, and keeps
      the stretch free of rejections exactly when that exchange is not one. */
  lemma CountChangedSnoc(sent: seq<Exchange>, e: Exchange)
    ensures CountChanged(sent + [e]) == CountChanged(sent) + if e.answer == Changed(true) then 1 else 0
    ensures NoneRejected(sent + [e]) <==> NoneRejected(sent) && !e.answer.Rejected?
    ensures (sent + [e])[..|sent|] == sent
  {
    assert (sent + [e])[..|sent|] == sent;
  }

  /** The filter `removeBulkBookAuthors` applies: an entry survives when it
      differs from some supplied (truthy) key. */
  predicate KeepsEntry(e: AuthorEntry, authorId: Option<Id>, bookId: Option<Id>)
  {
    (Truthy(authorId) && AuthorIdOf(e) != authorId) || (Truthy(bookId) && BookIdOf(e) != bookId)
  }

  function FilterBookAuthors(entries: seq<AuthorEntry>, authorId: Option<Id>, bookId: Option<Id>): (r: seq<AuthorEntry>)
    ensures forall e :: e in r <==> e in entries &&
                                    ((Truthy(authorId) && AuthorIdOf(e) != authorId) ||
                                     (Truthy(bookId) && BookIdOf(e) != bookId))
    ensures forall e :: e in entries && KeepsEntry(e, authorId, bookId) ==> multiset(r)[e] == multiset(entries)[e]
    ensures IsSubsequence(r, entries)
  {
    FilterIsSubsequence(entries, e => KeepsEntry(e, authorId, bookId));
    Filter(entries, e => KeepsEntry(e, authorId, bookId))
  }

  /** Old author objects have neither `authorId` nor `bookId`, so any
      removal by a supplied key keeps them. */
  lemma FilterBookAuthorsKeepsOldAuthors(entries: seq<AuthorEntry>, authorId: Option<Id>, bookId: Option<Id>, a: Author)
    requires Truthy(authorId) || Truthy(bookId)
    requires OldAuthor(a) in entries
    ensures OldAuthor(a) in FilterBookAuthors(entries, authorId, bookId)
  {
  }

  /** A join row is removed exactly when it matches every supplied key. */
  lemma FilterBookAuthorsRemovesMatches(entries: seq<AuthorEntry>, authorId: Option<Id>, bookId: Option<Id>, row: BookAuthor)
    requires BookAuthorRow(row) in entries
    requires Truthy(authorId) || Truthy(bookId)
    ensures BookAuthorRow(row) !in FilterBookAuthors(entries, authorId, bookId) <==>
              (Truthy(authorId) ==> row.authorId == authorId.value) &&
              (Truthy(bookId) ==> row.bookId == bookId.value)
  {
  }

  /** The rows `createCollection` builds, as written: the callback looks the
      id up with `filter`, which yields an array. An array is truthy even
      when empty, and has no `media`, so reading `libraryItem.media.id`
      throws a TypeError on the first id. */
  function CollectionBooksAsWritten(books: seq<Id>, items: seq<LibraryItem>, collectionId: Id): (r: Outcome<seq<CollectionBook>>)
    ensures r.Ok? <==> books == []
    ensures r.Ok? ==> r.value == []
  {
    if books == [] then Ok([]) else Threw(TypeError)
  }

  /** A collection whose one book resolves: as written, building its rows
      throws; the intended rows (those `updateCollection` builds) are one
      row with order 1. */
  lemma CreateCollectionAsWrittenThrows()
    ensures var items := [LibraryItem("li-1", "book-1", map[])];
            && CollectionBooksAsWritten(["li-1"], items, "col-1") == Threw(TypeError)
            && CollectionRows(["li-1"], items, "col-1") == [CollectionBook("col-1", "book-1", 1)]
  {
    var items := [LibraryItem("li-1", "book-1", map[])];
    AllResolvedCollectionRows(["li-1"], items, "col-1");
  }

  /** Every field of the facade that `init` may change, besides `isNew`. */
  datatype MirrorState = MirrorState(
    libraryItems: seq<LibraryItem>,
    users: seq<User>,
    libraries: seq<Library>,
    collections: seq<Collection>,
    playlists: seq<Playlist>,
    authors: seq<AuthorEntry>,
    series: seq<Series>,
    feeds: seq<Feed.OldFeed>,
    settings: seq<SettingsObject>,
    serverSettings: Option<ServerSettings>,
    notificationSettings: Option<SettingsObject>,
    emailSettings: Option<SettingsObject>,
    globalServerSettings: Option<ServerSettings>)

  class Database {
    const store: BackingStore
    /** `packageJson.version`: the running server's version. */
    const packageVersion: string

    var isNew: bool
    var libraryItems: seq<LibraryItem>
    var users: seq<User>
    var libraries: seq<Library>
    var settings: seq<SettingsObject>
    var collections: seq<Collection>
    var playlists: seq<Playlist>
    var authors: seq<AuthorEntry>
    var series: seq<Series>
    var feeds: seq<Feed.OldFeed>
    var serverSettings: Option<ServerSettings>
    var notificationSettings: Option<SettingsObject>
    var emailSettings: Option<SettingsObject>
    /** `global.ServerSettings`, the process-wide copy of the server settings. */
    ghost var globalServerSettings: Option<ServerSettings>

    constructor (store: BackingStore, packageVersion: string)
      ensures this.store == store && this.packageVersion == packageVersion
      ensures !isNew
      ensures libraryItems == [] && users == [] && libraries == [] && settings == []
      ensures collections == [] && playlists == [] && authors == [] && series == [] && feeds == []
      ensures serverSettings == None && notificationSettings == None && emailSettings == None
      ensures globalServerSettings == None
    {
      this.store := store;
      this.packageVersion := packageVersion;
      isNew := false;
      libraryItems, users, libraries, settings := [], [], [], [];
      collections, playlists, authors, series, feeds := [], [], [], [], [];
      serverSettings, notificationSettings, emailSettings := None, None, None;
      globalServerSettings := None;
    }

    /** `hasRootUser` */
    function HasRootUser(): (b: bool)
      reads this
      ensures b <==> exists u :: u in users && u.userType == "root"
    {
      var b := SomeRoot(users);
      assert b ==> exists u :: u in users && u.userType == "root" by {
        if b {
          var k :| 0 <= k < |users| && users[k].userType == "root";
          assert users[k] in users;
        }
      }
      b
    }

    /** The mirror holds exactly the working set `ws`. */
    ghost predicate MirrorIs(ws: WorkingSet)
      reads this`libraryItems, this`users, this`libraries, this`collections, this`playlists
      reads this`authors, this`series, this`feeds, this`settings, this`emailSettings, this`notificationSettings
    {
      && libraryItems == ws.libraryItems && users == ws.users && libraries == ws.libraries
      && collections == ws.collections && playlists == ws.playlists && authors == ws.authors
      && series == ws.series && feeds == ws.feeds && settings == ws.settings
      && emailSettings == Some(ws.emailSettings) && notificationSettings == Some(ws.notificationSettings)
    }

    ghost function Mirror(): MirrorState
      reads this`libraryItems, this`users, this`libraries, this`collections, this`playlists
      reads this`authors, this`series, this`feeds, this`settings, this`emailSettings
      reads this`serverSettings, this`notificationSettings, this`globalServerSettings
    {
      MirrorState(libraryItems, users, libraries, collections, playlists, authors, series, feeds,
                  settings, serverSettings, notificationSettings, emailSettings, globalServerSettings)
    }

    /** The stored server settings once the upgrade check has run: the
        running version replaces a different stored one. */
    function Upgraded(stored: ServerSettings): (s: ServerSettings)
      ensures s.version == packageVersion
    {
      if stored.version == packageVersion then stored else stored.(version := packageVersion)
    }

    /** The mirror holds the loaded working set, with the server settings
        upgraded, and the global copy follows them. */
    ghost predicate Adopted(ws: WorkingSet)
      reads this`libraryItems, this`users, this`libraries, this`collections, this`playlists
      reads this`authors, this`series, this`feeds, this`settings, this`emailSettings
      reads this`serverSettings, this`notificationSettings, this`globalServerSettings
    {
      MirrorIs(ws) && serverSettings == Some(Upgraded(ws.serverSettings)) && globalServerSettings == serverSettings
    }

    /** How `loadData` settles after sending `sent`, `m` (0 or 1) being the
        number of migration calls before the load: a migration answers done
        or rejects, and a rejected one stops there, with the mirror left as
        `before`; otherwise the load follows, as `ReadSettled` says. */
    ghost predicate LoadSettled(sent: seq<Exchange>, m: nat, before: MirrorState, r: Outcome<()>)
      reads this`libraryItems, this`users, this`libraries, this`collections, this`playlists
      reads this`authors, this`series, this`feeds, this`settings, this`emailSettings
      reads this`serverSettings, this`notificationSettings, this`globalServerSettings
    {
      && |sent| >= 1
      && (m == 1 ==> sent[0].call == Migrate && (sent[0].answer.Rejected? || sent[0].answer == Done))
      && (m == 1 && sent[0].answer.Rejected? ==> |sent| == 1 && Mirror() == before && r == Threw(StoreRejected))
      && (m == 0 || !sent[0].answer.Rejected? ==> ReadSettled(sent, m, before, r))
    }

    /** How the load at position `m` of `sent` and the upgrade check after
        it settle: a rejected load stops there with the mirror left as
        `before`; once it answered, the mirror is the loaded working set with
        the running version, and then either the stored version equals the
        running one and nothing more is sent, or exactly one settings write
        of the upgraded settings follows and its answer decides the outcome. */
    ghost predicate ReadSettled(sent: seq<Exchange>, m: nat, before: MirrorState, r: Outcome<()>)
      reads this`libraryItems, this`users, this`libraries, this`collections, this`playlists
      reads this`authors, this`series, this`feeds, this`settings, this`emailSettings
      reads this`serverSettings, this`notificationSettings, this`globalServerSettings
    {
      && |sent| > m
      && sent[m].call == LoadWorkingSet && (sent[m].answer.Rejected? || sent[m].answer.Loaded?)
      && (sent[m].answer.Rejected? ==> |sent| == m + 1 && Mirror() == before && r == Threw(StoreRejected))
      && (sent[m].answer.Loaded? ==>
            var stored := sent[m].answer.workingSet.serverSettings;
            && Adopted(sent[m].answer.workingSet)
            && (stored.version == packageVersion ==> |sent| == m + 1 && r == Ok(()))
            && (stored.version != packageVersion ==>
                  && |sent| == m + 2
                  && sent[m + 1].call == UpdateSettingObj(Upgraded(stored))
                  && (sent[m + 1].answer == Done || sent[m + 1].answer.Rejected?)
                  && (r.Ok? <==> sent[m + 1].answer == Done)
                  && (r.Threw? ==> r.error == StoreRejected)))
    }

    /** A migration that did not reject, followed by a load: the load's
        positions shift by one. */
    lemma ReadSettledAfterMigration(migration: Exchange, rest: seq<Exchange>, before: MirrorState, r: Outcome<()>)
      requires ReadSettled(rest, 0, before, r)
      ensures ReadSettled([migration] + rest, 1, before, r)
    {
      assert ([migration] + rest)[1..] == rest;
    }

    /** The exchanges of a `loadData` that settled: an optional migration,
        then what `Loaded` describes. */
    ghost predicate LoadSucceeded(sent: seq<Exchange>, shouldMigrate: bool)
      reads this
    {
      if isNew && shouldMigrate then
        |sent| >= 1 && sent[0] == Exchange(Migrate, Done) && Loaded(sent[1..])
      else
        Loaded(sent)
    }

    /** The load, and, when the stored version differs from the running one,
        the settings write that records the new version; the mirror holds the
        loaded working set. */
    ghost predicate Loaded(sent: seq<Exchange>)
      reads this
    {
      && |sent| >= 1
      && sent[0].call == LoadWorkingSet && sent[0].answer.Loaded?
      && var ws := sent[0].answer.workingSet;
         && Adopted(ws)
         && (ws.serverSettings.version == packageVersion ==> |sent| == 1)
         && (ws.serverSettings.version != packageVersion ==>
               |sent| == 2 && sent[1] == Exchange(UpdateSettingObj(serverSettings.value), Done))
    }

    /** `init(force)`. `hasDb` is whether the store file exists; `shouldMigrate`
        is the answer the migration collaborator gives when asked whether a
        legacy store is present. The ghost results name the answers the
        authentication and the sync settled with, and what `loadData` sent. */
    method Init(force: bool, hasDb: bool, shouldMigrate: bool)
      returns (r: Outcome<()>, ghost connected: Answer, ghost synced: Answer, ghost loadSent: seq<Exchange>)
      modifies this`isNew, this`libraryItems, this`users, this`libraries, this`collections, this`playlists
      modifies this`authors, this`series, this`feeds, this`settings, this`emailSettings
      modifies this`serverSettings, this`notificationSettings, this`globalServerSettings, store
      ensures isNew == (!hasDb || force)
      ensures connected.Rejected? || synced.Rejected? ==> Mirror() == old(Mirror())
      ensures connected.Rejected? ==>
                r == Threw(ConnectionFailed) && store.log == old(store.log) + [Exchange(Authenticate, connected)]
      ensures !connected.Rejected? && synced.Rejected? ==>
                r == Threw(StoreRejected) &&
                store.log == old(store.log) + [Exchange(Authenticate, connected)] + [Exchange(Sync(force), synced)]
      ensures !connected.Rejected? && !synced.Rejected? ==>
                && store.log == old(store.log) + [Exchange(Authenticate, connected)] + [Exchange(Sync(force), synced)] + loadSent
                && loadSent != []
                && loadSent[0].call == (if isNew && shouldMigrate then Migrate else LoadWorkingSet)
                && (r.Ok? ==> LoadSucceeded(loadSent, shouldMigrate))
                && (r.Threw? ==> r.error == StoreRejected && loadSent[|loadSent| - 1].answer.Rejected?)
                && LoadSettled(loadSent, if isNew && shouldMigrate then 1 else 0, old(Mirror()), r)
    {
      isNew := !hasDb || force;
      synced, loadSent := Rejected, [];
      var ok;
      ok, connected := Connect();
      if !ok {
        return Threw(ConnectionFailed), connected, synced, loadSent;
      }
      r, synced := BuildModels(force);
      if r.Threw? {
        return;
      }
      r, loadSent := LoadData(shouldMigrate);
    }

    /** `connect`: the connection is usable iff authentication settles. */
    method Connect() returns (ok: bool, ghost a: Answer)
      modifies store
      ensures store.log == old(store.log) + [Exchange(Authenticate, a)]
      ensures ok <==> !a.Rejected?
    {
      var answer := store.Issue(Authenticate);
      ok, a := !answer.Rejected?, answer;
    }

    /** `buildModels(force)`: materialise the schema, dropping every table
        first when `force` is set. */
    method BuildModels(force: bool) returns (r: Outcome<()>, ghost a: Answer)
      modifies store
      ensures store.log == old(store.log) + [Exchange(Sync(force), a)]
      ensures r.Ok? <==> !a.Rejected?
      ensures r.Threw? ==> r.error == StoreRejected
    {
      var answer := store.Issue(Sync(force));
      r, a := if answer.Rejected? then Threw(StoreRejected) else Ok(()), answer;
    }

    /** `loadData`: migrate a legacy store into a fresh one, load the working
        set into the mirror, and record the running version when it differs
        from the stored one. */
    method LoadData(shouldMigrate: bool) returns (r: Outcome<()>, ghost sent: seq<Exchange>)
      modifies this`libraryItems, this`users, this`libraries, this`collections, this`playlists
      modifies this`authors, this`series, this`feeds, this`settings, this`emailSettings
      modifies this`serverSettings, this`notificationSettings, this`globalServerSettings, store
      ensures store.log == old(store.log) + sent
      ensures sent != [] && sent[0].call == (if isNew && shouldMigrate then Migrate else LoadWorkingSet)
      ensures r.Ok? ==> LoadSucceeded(sent, shouldMigrate)
      ensures r.Threw? ==> r.error == StoreRejected && sent[|sent| - 1].answer.Rejected?
      ensures LoadSettled(sent, if isNew && shouldMigrate then 1 else 0, old(Mirror()), r)
    {
      if isNew && shouldMigrate {
        r, sent := MigrateAndRead();
      } else {
        r, sent := ReadWorkingSet();
      }
    }

    /** `loadData` on a new store that should be migrated: migrate, then
        read the working set. */
    method MigrateAndRead() returns (r: Outcome<()>, ghost sent: seq<Exchange>)
      modifies this`libraryItems, this`users, this`libraries, this`collections, this`playlists
      modifies this`authors, this`series, this`feeds, this`settings, this`emailSettings
      modifies this`serverSettings, this`notificationSettings, this`globalServerSettings, store
      ensures store.log == old(store.log) + sent
      ensures sent != [] && sent[0].call == Migrate
      ensures r.Ok? ==> sent[0] == Exchange(Migrate, Done) && Loaded(sent[1..])
      ensures r.Threw? ==> r.error == StoreRejected && sent[|sent| - 1].answer.Rejected?
      ensures LoadSettled(sent, 1, old(Mirror()), r)
    {
      var migrated := store.Issue(Migrate);
      if migrated.Rejected? {
        return Threw(StoreRejected), [Exchange(Migrate, migrated)];
      }
      ghost var rest;
      r, rest := ReadWorkingSet();
      sent := [Exchange(Migrate, migrated)] + rest;
      ReadSettledAfterMigration(Exchange(Migrate, migrated), rest, old(Mirror()), r);
    }

    /** The part of `loadData` after the migration: read the working set into
        the mirror, then run the upgrade check. */
    method ReadWorkingSet() returns (r: Outcome<()>, ghost sent: seq<Exchange>)
      modifies this`libraryItems, this`users, this`libraries, this`collections, this`playlists
      modifies this`authors, this`series, this`feeds, this`settings, this`emailSettings
      modifies this`serverSettings, this`notificationSettings, this`globalServerSettings, store
      ensures store.log == old(store.log) + sent
      ensures sent != [] && sent[0].call == LoadWorkingSet
      ensures r.Ok? ==> Loaded(sent)
      ensures r.Threw? ==> r.error == StoreRejected && sent[|sent| - 1].answer.Rejected?
      ensures ReadSettled(sent, 0, old(Mirror()), r)
    {
      var a := store.Issue(LoadWorkingSet);
      if a.Rejected? {
        return Threw(StoreRejected), [Exchange(LoadWorkingSet, a)];
      }
      AdoptWorkingSet(a.workingSet);
      ghost var upgradeSent;
      r, upgradeSent := UpgradeVersion();
      assert Adopted(a.workingSet);
      sent := [Exchange(LoadWorkingSet, a)] + upgradeSent;
    }

    /** The upgrade check at the end of `loadData`: a stored version that
        differs from the running one is replaced by it and persisted. */
    method UpgradeVersion() returns (r: Outcome<()>, ghost sent: seq<Exchange>)
      requires serverSettings.Some?
      modifies this`serverSettings, this`globalServerSettings, store
      ensures store.log == old(store.log) + sent
      ensures var stored := old(serverSettings.value);
              && (stored.version == packageVersion ==>
                    r == Ok(()) && sent == [] && serverSettings == old(serverSettings) &&
                    globalServerSettings == old(globalServerSettings))
              && (stored.version != packageVersion ==>
                    && serverSettings == Some(stored.(version := packageVersion))
                    && globalServerSettings == serverSettings
                    && |sent| == 1 && sent[0].call == UpdateSettingObj(serverSettings.value)
                    && (r.Ok? <==> sent[0].answer == Done)
                    && (r.Threw? ==> r.error == StoreRejected && sent[0].answer.Rejected?))
    {
      sent := [];
      if packageVersion != serverSettings.value.version {
        serverSettings := Some(serverSettings.value.(version := packageVersion));
        ghost var before := store.log;
        r := UpdateServerSettings();
        sent := [store.log[|before|]];
        assert store.log == before + sent;
      } else {
        r := Ok(());
      }
    }

    /** The eight reads of `loadData`, assigned to the mirror, and
        `global.ServerSettings` set from the loaded server settings. */
    method AdoptWorkingSet(ws: WorkingSet)
      modifies this`libraryItems, this`users, this`libraries, this`collections, this`playlists
      modifies this`authors, this`series, this`feeds, this`settings, this`emailSettings
      modifies this`serverSettings, this`notificationSettings, this`globalServerSettings
      ensures MirrorIs(ws)
      ensures serverSettings == Some(ws.serverSettings) && globalServerSettings == serverSettings
    {
      AdoptEntities(ws);
      AdoptSettings(ws);
    }

    /** The entity lists of the working set. */
    method AdoptEntities(ws: WorkingSet)
      modifies this`libraryItems, this`users, this`libraries, this`collections, this`playlists
      modifies this`authors, this`series, this`feeds
      ensures libraryItems == ws.libraryItems && users == ws.users && libraries == ws.libraries
      ensures collections == ws.collections && playlists == ws.playlists && authors == ws.authors
      ensures series == ws.series && feeds == ws.feeds
    {
      libraryItems, users, libraries, collections := ws.libraryItems, ws.users, ws.libraries, ws.collections;
      playlists, authors, series, feeds := ws.playlists, ws.authors, ws.series, ws.feeds;
    }

    /** The settings objects of the working set: `global.ServerSettings`
        follows the server settings. */
    method AdoptSettings(ws: WorkingSet)
      modifies this`settings, this`emailSettings, this`serverSettings, this`notificationSettings
      modifies this`globalServerSettings
      ensures settings == ws.settings
      ensures emailSettings == Some(ws.emailSettings) && notificationSettings == Some(ws.notificationSettings)
      ensures serverSettings == Some(ws.serverSettings) && globalServerSettings == serverSettings
    {
      settings, emailSettings, notificationSettings := ws.settings, Some(ws.emailSettings), Some(ws.notificationSettings);
      serverSettings := Some(ws.serverSettings);
      globalServerSettings := serverSettings;
    }

    /** `updateServerSettings`: refresh the process-wide copy, then persist.
        With no settings loaded, `serverSettings.toJSON()` throws. */
    method UpdateServerSettings() returns (r: Outcome<()>)
      modifies this`globalServerSettings, store
      ensures serverSettings.None? ==> r == Threw(TypeError) && store.log == old(store.log) &&
                                       globalServerSettings == old(globalServerSettings)
      ensures serverSettings.Some? ==>
                && globalServerSettings == serverSettings
                && IssuedOnly(old(store.log), store.log, UpdateSettingObj(serverSettings.value))
                && (r.Ok? <==> LastAnswer(store.log) == Done)
                && (r.Threw? ==> r.error == StoreRejected && LastAnswer(store.log).Rejected?)
    {
      if serverSettings.None? {
        return Threw(TypeError);
      }
      globalServerSettings := serverSettings;
      var a := store.Issue(UpdateSettingObj(serverSettings.value));
      r := if a.Rejected? then Threw(StoreRejected) else Ok(());
    }

    /** `createRootUser`: true iff the store created a user, which is then
        appended to the mirror. */
    method CreateRootUser(username: string, pash: string, token: string) returns (r: Outcome<bool>)
      modifies this`users, store
      ensures IssuedOnly(old(store.log), store.log, CreateRootUserRow(username, pash, token))
      ensures var a := LastAnswer(store.log);
              && (a.Rejected? ==> r == Threw(StoreRejected) && users == old(users))
              && (a.CreatedUser? && a.user.None? ==> r == Ok(false) && users == old(users))
              && (a.CreatedUser? && a.user.Some? ==> r == Ok(true) && users == old(users) + [a.user.value])
    {
      var a := store.Issue(CreateRootUserRow(username, pash, token));
      if a.Rejected? {
        return Threw(StoreRejected);
      }
      if a.user.Some? {
        users := users + [a.user.value];
        return Ok(true);
      }
      return Ok(false);
    }

    method CreateUser(oldUser: User) returns (r: Outcome<bool>)
      modifies this`users, store
      ensures IssuedOnly(old(store.log), store.log, CreateUserRow(oldUser))
      ensures r.Ok? <==> !LastAnswer(store.log).Rejected?
      ensures r.Ok? ==> r.value && users == old(users) + [oldUser]
      ensures r.Threw? ==> r.error == StoreRejected && users == old(users)
    {
      var a := store.Issue(CreateUserRow(oldUser));
      if a.Rejected? {
        return Threw(StoreRejected);
      }
      users := users + [oldUser];
      return Ok(true);
    }

    method RemoveUser(userId: Id) returns (r: Outcome<()>)
      modifies this`users, store
      ensures IssuedOnly(old(store.log), store.log, RemoveUserRow(userId))
      ensures r.Ok? <==> !LastAnswer(store.log).Rejected?
      ensures r.Ok? ==> users == RemoveId(old(users), UserId, userId)
      ensures r.Threw? ==> r.error == StoreRejected && users == old(users)
    {
      var a := store.Issue(RemoveUserRow(userId));
      if a.Rejected? {
        return Threw(StoreRejected);
      }
      users := RemoveId(users, UserId, userId);
      return Ok(());
    }

    method CreateLibrary(oldLibrary: Library) returns (r: Outcome<()>)
      modifies this`libraries, store
      ensures IssuedOnly(old(store.log), store.log, CreateLibraryRow(oldLibrary))
      ensures r.Ok? <==> !LastAnswer(store.log).Rejected?
      ensures r.Ok? ==> libraries == old(libraries) + [oldLibrary]
      ensures r.Threw? ==> r.error == StoreRejected && libraries == old(libraries)
    {
      var a := store.Issue(CreateLibraryRow(oldLibrary));
      if a.Rejected? {
        return Threw(StoreRejected);
      }
      libraries := libraries + [oldLibrary];
      return Ok(());
    }

    method RemoveLibrary(libraryId: Id) returns (r: Outcome<()>)
      modifies this`libraries, store
      ensures IssuedOnly(old(store.log), store.log, RemoveLibraryRow(libraryId))
      ensures r.Ok? <==> !LastAnswer(store.log).Rejected?
      ensures r.Ok? ==> libraries == RemoveId(old(libraries), LibraryId, libraryId)
      ensures r.Threw? ==> r.error == StoreRejected && libraries == old(libraries)
    {
      var a := store.Issue(RemoveLibraryRow(libraryId));
      if a.Rejected? {
        return Threw(StoreRejected);
      }
      libraries := RemoveId(libraries, LibraryId, libraryId);
      return Ok(());
    }

    /** `createCollection` as written: once the store has created the row,
        a collection with any book throws while its join rows are built (see
        CollectionBooksAsWritten), so it is never appended to the mirror and
        no collection-book rows are written. */
    method CreateCollection(oldCollection: Collection) returns (r: Outcome<()>)
      modifies this`collections, store
      ensures IssuedOnly(old(store.log), store.log, CreateCollectionRow(oldCollection))
      ensures var a := LastAnswer(store.log);
              && (a.Rejected? ==> r == Threw(StoreRejected) && collections == old(collections))
              && (a.CreatedRow? && a.rowId.Some? && oldCollection.books != [] ==>
                    r == Threw(TypeError) && collections == old(collections))
              && (a.CreatedRow? && (a.rowId.None? || oldCollection.books == []) ==>
                    r == Ok(()) && collections == old(collections) + [oldCollection])
    {
      var a := store.Issue(CreateCollectionRow(oldCollection));
      if a.Rejected? {
        return Threw(StoreRejected);
      }
      if a.rowId.Some? {
        var built := CollectionBooksAsWritten(oldCollection.books, libraryItems, a.rowId.value);
        if built.Threw? {
          return Threw(built.error);
        }
        // `built.value` is empty, so no bulk create is issued
      }
      collections := collections + [oldCollection];
      return Ok(());
    }

    /** `createCollection` as evidently intended: the ids are looked up with
        `find`, unresolvable ones are dropped, and the rows are numbered from
        1 as `updateCollection` numbers them. */
    method CreateCollectionIntended(oldCollection: Collection) returns (r: Outcome<()>)
      modifies this`collections, store
      ensures |old(store.log)| < |store.log| && store.log[..|old(store.log)|] == old(store.log)
      ensures var sent := Sent(old(store.log), store.log);
              && sent[0].call == CreateCollectionRow(oldCollection)
              && (sent[0].answer.Rejected? ==> r == Threw(StoreRejected) && |sent| == 1)
              && (sent[0].answer.CreatedRow? && sent[0].answer.rowId.Some? &&
                  CollectionRows(oldCollection.books, libraryItems, sent[0].answer.rowId.value) != [] ==>
                    |sent| == 2 &&
                    sent[1].call == BulkCreateCollectionBooks(
                      CollectionRows(oldCollection.books, libraryItems, sent[0].answer.rowId.value)) &&
                    (sent[1].answer.Rejected? ==> r == Threw(StoreRejected)))
              && (sent[0].answer.CreatedRow? &&
                  (sent[0].answer.rowId.None? ||
                   CollectionRows(oldCollection.books, libraryItems, sent[0].answer.rowId.value) == []) ==>
                    |sent| == 1 && r == Ok(()))
              && (r.Ok? <==> !LastAnswer(sent).Rejected?)
              && (r.Ok? ==> collections == old(collections) + [oldCollection])
              && (r.Threw? ==> r.error == StoreRejected && collections == old(collections))
    {
      var a := store.Issue(CreateCollectionRow(oldCollection));
      if a.Rejected? {
        return Threw(StoreRejected);
      }
      if a.rowId.Some? {
        var collectionBooks := BuildCollectionBooks(a.rowId.value, oldCollection.books);
        if |collectionBooks| > 0 {
          var b := store.Issue(BulkCreateCollectionBooks(collectionBooks));
          if b.Rejected? {
            return Threw(StoreRejected);
          }
        }
      }
      collections := collections + [oldCollection];
      return Ok(());
    }

    /** `getLibraryItem`: the first mirror entry with that id. */
    function GetLibraryItem(libraryItemId: Id): (r: Option<LibraryItem>)
      reads this
      ensures r.Some? <==> exists k :: 0 <= k < |libraryItems| && libraryItems[k].id == libraryItemId
      ensures r.Some? ==> r.value in libraryItems && r.value.id == libraryItemId
    {
      FindLibraryItemSpec(libraryItems, libraryItemId);
      FindLibraryItem(libraryItems, libraryItemId)
    }

    /** The `forEach` of `updateCollection`: walk the ids, skip those the
        mirror cannot resolve, and number the rows with `order++` from 1. */
    method BuildCollectionBooks(collectionId: Id, libraryItemIds: seq<Id>) returns (collectionBooks: seq<CollectionBook>)
      ensures collectionBooks == CollectionRows(libraryItemIds, libraryItems, collectionId)
    {
      collectionBooks := [];
      var order := 1;
      var i := 0;
      while i < |libraryItemIds|
        invariant 0 <= i <= |libraryItemIds|
        invariant collectionBooks == CollectionRows(libraryItemIds[..i], libraryItems, collectionId)
        invariant order == |collectionBooks| + 1
      {
        assert libraryItemIds[..i + 1][..i] == libraryItemIds[..i];
        var libraryItem := GetLibraryItem(libraryItemIds[i]);
        if libraryItem.Some? {
          collectionBooks := collectionBooks + [CollectionBook(collectionId, libraryItem.value.mediaId, order)];
          order := order + 1;
        }
        i := i + 1;
      }
      assert libraryItemIds[..i] == libraryItemIds;
    }

    /** `updateCollection`: rewrite the collection and all its join rows;
        settles with whether anything changed. */
    method UpdateCollection(oldCollection: Collection) returns (r: Outcome<bool>)
      modifies store
      ensures IssuedOnly(old(store.log), store.log,
                FullUpdateCollection(oldCollection, CollectionRows(oldCollection.books, libraryItems, oldCollection.id)))
      ensures r.Ok? <==> !LastAnswer(store.log).Rejected?
      ensures r.Ok? ==> LastAnswer(store.log) == Changed(r.value)
      ensures r.Threw? ==> r.error == StoreRejected
    {
      var collectionBooks := BuildCollectionBooks(oldCollection.id, oldCollection.books);
      var a := store.Issue(FullUpdateCollection(oldCollection, collectionBooks));
      r := if a.Rejected? then Threw(StoreRejected) else Ok(a.changed);
    }

    method RemoveCollection(collectionId: Id) returns (r: Outcome<()>)
      modifies this`collections, store
      ensures IssuedOnly(old(store.log), store.log, RemoveCollectionRow(collectionId))
      ensures r.Ok? <==> !LastAnswer(store.log).Rejected?
      ensures r.Ok? ==> collections == RemoveId(old(collections), CollectionId, collectionId)
      ensures r.Threw? ==> r.error == StoreRejected && collections == old(collections)
    {
      var a := store.Issue(RemoveCollectionRow(collectionId));
      if a.Rejected? {
        return Threw(StoreRejected);
      }
      collections := RemoveId(collections, CollectionId, collectionId);
      return Ok(());
    }

    /** The loop of `createPlaylist` and `updatePlaylist`: walk the entries,
        skip those whose library item the mirror cannot resolve, take the
        episode id and type 'podcastEpisode' when the entry has an episode id
        and the book and type 'book' otherwise, numbering with `order++`. */
    method BuildPlaylistMediaItems(playlistId: Id, entries: seq<PlaylistItem>) returns (playlistMediaItems: seq<PlaylistMediaItem>)
      ensures playlistMediaItems == PlaylistRows(entries, libraryItems, playlistId)
    {
      playlistMediaItems := [];
      var order := 1;
      var i := 0;
      while i < |entries|
        invariant 0 <= i <= |entries|
        invariant playlistMediaItems == PlaylistRows(entries[..i], libraryItems, playlistId)
        invariant order == |playlistMediaItems| + 1
      {
        assert entries[..i + 1][..i] == entries[..i];
        var item := entries[i];
        var libraryItem := GetLibraryItem(item.libraryItemId);
        if libraryItem.Some? {
          var mediaItemId := libraryItem.value.mediaId;
          var mediaItemType := Book;
          if Truthy(item.episodeId) {
            mediaItemType := PodcastEpisode;
            mediaItemId := item.episodeId.value;
          }
          playlistMediaItems := playlistMediaItems + [PlaylistMediaItem(playlistId, mediaItemId, mediaItemType, order)];
          order := order + 1;
        }
        i := i + 1;
      }
      assert entries[..i] == entries;
    }

    /** `createPlaylist`: write the playlist; if the store returned the new
        row, build its media-item rows against that row's id and bulk-create
        them when there are any; then append the playlist to the mirror. */
    method CreatePlaylist(oldPlaylist: Playlist) returns (r: Outcome<()>)
      modifies this`playlists, store
      ensures |old(store.log)| < |store.log| && store.log[..|old(store.log)|] == old(store.log)
      ensures var sent := Sent(old(store.log), store.log);
              && sent[0].call == CreatePlaylistRow(oldPlaylist)
              && (sent[0].answer.Rejected? ==> r == Threw(StoreRejected) && |sent| == 1)
              && (sent[0].answer.CreatedRow? && sent[0].answer.rowId.Some? &&
                  PlaylistRows(oldPlaylist.items, libraryItems, sent[0].answer.rowId.value) != [] ==>
                    |sent| == 2 &&
                    sent[1].call == BulkCreatePlaylistMediaItems(
                      PlaylistRows(oldPlaylist.items, libraryItems, sent[0].answer.rowId.value)) &&
                    (sent[1].answer.Rejected? ==> r == Threw(StoreRejected)))
              && (sent[0].answer.CreatedRow? &&
                  (sent[0].answer.rowId.None? ||
                   PlaylistRows(oldPlaylist.items, libraryItems, sent[0].answer.rowId.value) == []) ==>
                    |sent| == 1 && r == Ok(()))
              && (r.Ok? <==> !LastAnswer(sent).Rejected?)
              && (r.Ok? ==> playlists == old(playlists) + [oldPlaylist])
              && (r.Threw? ==> r.error == StoreRejected && playlists == old(playlists))
    {
      var a := store.Issue(CreatePlaylistRow(oldPlaylist));
      if a.Rejected? {
        return Threw(StoreRejected);
      }
      if a.rowId.Some? {
        var playlistMediaItems := BuildPlaylistMediaItems(a.rowId.value, oldPlaylist.items);
        if |playlistMediaItems| > 0 {
          var b := store.Issue(BulkCreatePlaylistMediaItems(playlistMediaItems));
          if b.Rejected? {
            return Threw(StoreRejected);
          }
        }
      }
      playlists := playlists + [oldPlaylist];
      return Ok(());
    }

    /** `updatePlaylist`: rewrite the playlist and all its media-item rows;
        settles with whether anything changed. */
    method UpdatePlaylist(oldPlaylist: Playlist) returns (r: Outcome<bool>)
      modifies store
      ensures IssuedOnly(old(store.log), store.log,
                FullUpdatePlaylist(oldPlaylist, PlaylistRows(oldPlaylist.items, libraryItems, oldPlaylist.id)))
      ensures r.Ok? <==> !LastAnswer(store.log).Rejected?
      ensures r.Ok? ==> LastAnswer(store.log) == Changed(r.value)
      ensures r.Threw? ==> r.error == StoreRejected
    {
      var playlistMediaItems := BuildPlaylistMediaItems(oldPlaylist.id, oldPlaylist.items);
      var a := store.Issue(FullUpdatePlaylist(oldPlaylist, playlistMediaItems));
      r := if a.Rejected? then Threw(StoreRejected) else Ok(a.changed);
    }

    method RemovePlaylist(playlistId: Id) returns (r: Outcome<()>)
      modifies this`playlists, store
      ensures IssuedOnly(old(store.log), store.log, RemovePlaylistRow(playlistId))
      ensures r.Ok? <==> !LastAnswer(store.log).Rejected?
      ensures r.Ok? ==> playlists == RemoveId(old(playlists), PlaylistId, playlistId)
      ensures r.Threw? ==> r.error == StoreRejected && playlists == old(playlists)
    {
      var a := store.Issue(RemovePlaylistRow(playlistId));
      if a.Rejected? {
        return Threw(StoreRejected);
      }
      playlists := RemoveId(playlists, PlaylistId, playlistId);
      return Ok(());
    }

    method CreateLibraryItem(oldLibraryItem: LibraryItem) returns (r: Outcome<()>)
      modifies this`libraryItems, store
      ensures IssuedOnly(old(store.log), store.log, FullCreateLibraryItem(oldLibraryItem))
      ensures r.Ok? <==> !LastAnswer(store.log).Rejected?
      ensures r.Ok? ==> libraryItems == old(libraryItems) + [oldLibraryItem]
      ensures r.Threw? ==> r.error == StoreRejected && libraryItems == old(libraryItems)
    {
      var a := store.Issue(FullCreateLibraryItem(oldLibraryItem));
      if a.Rejected? {
        return Threw(StoreRejected);
      }
      libraryItems := libraryItems + [oldLibraryItem];
      return Ok(());
    }

    /** `updateBulkLibraryItems`: one full update per item, in order, each
        awaited before the next. Settles with the number of updates that
        reported a change; the first rejection propagates, leaving the
        earlier updates applied and the later ones never issued. */
    method UpdateBulkLibraryItems(oldLibraryItems: seq<LibraryItem>) returns (r: Outcome<nat>, ghost sent: seq<Exchange>)
      modifies store
      ensures store.log == old(store.log) + sent
      ensures |sent| <= |oldLibraryItems|
      ensures forall k :: 0 <= k < |sent| ==> sent[k].call == FullUpdateLibraryItem(oldLibraryItems[k])
      ensures r.Ok? ==> |sent| == |oldLibraryItems| && NoneRejected(sent) &&
                        r.value == CountChanged(sent) && r.value <= |oldLibraryItems|
      ensures r.Threw? ==> r.error == StoreRejected && |sent| > 0 && LastAnswer(sent).Rejected? &&
                           NoneRejected(sent[..|sent| - 1])
    {
      sent := [];
      var updatesMade := 0;
      var i := 0;
      while i < |oldLibraryItems|
        invariant 0 <= i <= |oldLibraryItems|
        invariant |sent| == i && store.log == old(store.log) + sent
        invariant forall k :: 0 <= k < i ==> sent[k].call == FullUpdateLibraryItem(oldLibraryItems[k])
        invariant NoneRejected(sent)
        invariant updatesMade == CountChanged(sent)
      {
        var hasUpdates := store.Issue(FullUpdateLibraryItem(oldLibraryItems[i]));
        ghost var before := sent;
        sent := sent + [Exchange(FullUpdateLibraryItem(oldLibraryItems[i]), hasUpdates)];
        CountChangedSnoc(before, Exchange(FullUpdateLibraryItem(oldLibraryItems[i]), hasUpdates));
        if hasUpdates.Rejected? {
          return Threw(StoreRejected), sent;
        }
        if hasUpdates.changed {
          updatesMade := updatesMade + 1;
        }
        i := i + 1;
      }
      return Ok(updatesMade), sent;
    }

    /** `createBulkLibraryItems`: create and append one item at a time; on a
        rejection the items before it stay created and appended. */
    method CreateBulkLibraryItems(oldLibraryItems: seq<LibraryItem>) returns (r: Outcome<()>, ghost sent: seq<Exchange>)
      modifies this`libraryItems, store
      ensures store.log == old(store.log) + sent
      ensures |sent| <= |oldLibraryItems|
      ensures forall k :: 0 <= k < |sent| ==> sent[k].call == FullCreateLibraryItem(oldLibraryItems[k])
      ensures r.Ok? ==> |sent| == |oldLibraryItems| && NoneRejected(sent) &&
                        libraryItems == old(libraryItems) + oldLibraryItems
      ensures r.Threw? ==> r.error == StoreRejected && |sent| > 0 && LastAnswer(sent).Rejected? &&
                           NoneRejected(sent[..|sent| - 1]) &&
                           libraryItems == old(libraryItems) + oldLibraryItems[..|sent| - 1]
    {
      sent := [];
      var i := 0;
      while i < |oldLibraryItems|
        invariant 0 <= i <= |oldLibraryItems|
        invariant |sent| == i && store.log == old(store.log) + sent
        invariant forall k :: 0 <= k < i ==> sent[k].call == FullCreateLibraryItem(oldLibraryItems[k])
        invariant NoneRejected(sent)
        invariant libraryItems == old(libraryItems) + oldLibraryItems[..i]
      {
        var a := store.Issue(FullCreateLibraryItem(oldLibraryItems[i]));
        ghost var before := sent;
        sent := sent + [Exchange(FullCreateLibraryItem(oldLibraryItems[i]), a)];
        if a.Rejected? {
          assert sent[..|sent| - 1] == before;
          return Threw(StoreRejected), sent;
        }
        libraryItems := libraryItems + [oldLibraryItems[i]];
        assert oldLibraryItems[..i + 1] == oldLibraryItems[..i] + [oldLibraryItems[i]];
        i := i + 1;
      }
      assert oldLibraryItems[..i] == oldLibraryItems;
      return Ok(()), sent;
    }

    method RemoveLibraryItem(libraryItemId: Id) returns (r: Outcome<()>)
      modifies this`libraryItems, store
      ensures IssuedOnly(old(store.log), store.log, RemoveLibraryItemRow(libraryItemId))
      ensures r.Ok? <==> !LastAnswer(store.log).Rejected?
      ensures r.Ok? ==> libraryItems == RemoveId(old(libraryItems), LibraryItemId, libraryItemId)
      ensures r.Threw? ==> r.error == StoreRejected && libraryItems == old(libraryItems)
    {
      var a := store.Issue(RemoveLibraryItemRow(libraryItemId));
      if a.Rejected? {
        return Threw(StoreRejected);
      }
      libraryItems := RemoveId(libraryItems, LibraryItemId, libraryItemId);
      return Ok(());
    }

    /** `removeFeed`: the store call is the feed model's `removeById`, a
        destroy of the rows whose id is `feedId`. */
    method RemoveFeed(feedId: Id) returns (r: Outcome<()>)
      modifies this`feeds, store
      ensures IssuedOnly(old(store.log), store.log, RemoveFeedRow(feedId))
      ensures r.Ok? <==> !LastAnswer(store.log).Rejected?
      ensures r.Ok? ==> feeds == RemoveId(old(feeds), OldFeedId, feedId)
      ensures r.Threw? ==> r.error == StoreRejected && feeds == old(feeds)
    {
      var a := store.Issue(RemoveFeedRow(feedId));
      if a.Rejected? {
        return Threw(StoreRejected);
      }
      feeds := RemoveId(feeds, OldFeedId, feedId);
      return Ok(());
    }

    method CreateSeries(oldSeries: Series) returns (r: Outcome<()>)
      modifies this`series, store
      ensures IssuedOnly(old(store.log), store.log, CreateSeriesRow(oldSeries))
      ensures r.Ok? <==> !LastAnswer(store.log).Rejected?
      ensures r.Ok? ==> series == old(series) + [oldSeries]
      ensures r.Threw? ==> r.error == StoreRejected && series == old(series)
    {
      var a := store.Issue(CreateSeriesRow(oldSeries));
      if a.Rejected? {
        return Threw(StoreRejected);
      }
      series := series + [oldSeries];
      return Ok(());
    }

    /** `createBulkSeries`: one bulk write, then the whole list is appended. */
    method CreateBulkSeries(oldSeriesObjs: seq<Series>) returns (r: Outcome<()>)
      modifies this`series, store
      ensures IssuedOnly(old(store.log), store.log, CreateBulkSeriesRows(oldSeriesObjs))
      ensures r.Ok? <==> !LastAnswer(store.log).Rejected?
      ensures r.Ok? ==> series == old(series) + oldSeriesObjs
      ensures r.Threw? ==> r.error == StoreRejected && series == old(series)
    {
      var a := store.Issue(CreateBulkSeriesRows(oldSeriesObjs));
      if a.Rejected? {
        return Threw(StoreRejected);
      }
      series := series + oldSeriesObjs;
      return Ok(());
    }

    method RemoveSeries(seriesId: Id) returns (r: Outcome<()>)
      modifies this`series, store
      ensures IssuedOnly(old(store.log), store.log, RemoveSeriesRow(seriesId))
      ensures r.Ok? <==> !LastAnswer(store.log).Rejected?
      ensures r.Ok? ==> series == RemoveId(old(series), SeriesId, seriesId)
      ensures r.Threw? ==> r.error == StoreRejected && series == old(series)
    {
      var a := store.Issue(RemoveSeriesRow(seriesId));
      if a.Rejected? {
        return Threw(StoreRejected);
      }
      series := RemoveId(series, SeriesId, seriesId);
      return Ok(());
    }

    /** `createAuthor` as written: it calls `createFromOld` on the model
        registry itself, which has no such method, so the call throws a
        TypeError before anything reaches the store or the mirror. */
    method CreateAuthor(oldAuthor: Author) returns (r: Outcome<()>)
      ensures r == Threw(TypeError)
    {
      return Threw(TypeError);
    }

    /** `createAuthor` as evidently intended: write through the author model,
        then append. */
    method CreateAuthorIntended(oldAuthor: Author) returns (r: Outcome<()>)
      modifies this`authors, store
      ensures IssuedOnly(old(store.log), store.log, CreateAuthorRow(oldAuthor))
      ensures r.Ok? <==> !LastAnswer(store.log).Rejected?
      ensures r.Ok? ==> authors == old(authors) + [OldAuthor(oldAuthor)]
      ensures r.Threw? ==> r.error == StoreRejected && authors == old(authors)
    {
      var a := store.Issue(CreateAuthorRow(oldAuthor));
      if a.Rejected? {
        return Threw(StoreRejected);
      }
      authors := authors + [OldAuthor(oldAuthor)];
      return Ok(());
    }

    method CreateBulkAuthors(oldAuthors: seq<Author>) returns (r: Outcome<()>)
      modifies this`authors, store
      ensures IssuedOnly(old(store.log), store.log, CreateBulkAuthorRows(oldAuthors))
      ensures r.Ok? <==> !LastAnswer(store.log).Rejected?
      ensures r.Ok? ==> authors == old(authors) + AsAuthorEntries(oldAuthors)
      ensures r.Threw? ==> r.error == StoreRejected && authors == old(authors)
    {
      var a := store.Issue(CreateBulkAuthorRows(oldAuthors));
      if a.Rejected? {
        return Threw(StoreRejected);
      }
      authors := authors + AsAuthorEntries(oldAuthors);
      return Ok(());
    }

    method RemoveAuthor(authorId: Id) returns (r: Outcome<()>)
      modifies this`authors, store
      ensures IssuedOnly(old(store.log), store.log, RemoveAuthorRow(authorId))
      ensures r.Ok? <==> !LastAnswer(store.log).Rejected?
      ensures r.Ok? ==> authors == RemoveId(old(authors), AuthorEntryId, authorId)
      ensures r.Threw? ==> r.error == StoreRejected && authors == old(authors)
    {
      var a := store.Issue(RemoveAuthorRow(authorId));
      if a.Rejected? {
        return Threw(StoreRejected);
      }
      authors := RemoveId(authors, AuthorEntryId, authorId);
      return Ok(());
    }

    /** `createBulkBookAuthors`: the join rows are appended to the `authors`
        mirror, beside the old author objects. */
    method CreateBulkBookAuthors(bookAuthors: seq<BookAuthor>) returns (r: Outcome<()>)
      modifies this`authors, store
      ensures IssuedOnly(old(store.log), store.log, BulkCreateBookAuthors(bookAuthors))
      ensures r.Ok? <==> !LastAnswer(store.log).Rejected?
      ensures r.Ok? ==> authors == old(authors) + AsBookAuthorEntries(bookAuthors)
      ensures r.Threw? ==> r.error == StoreRejected && authors == old(authors)
    {
      var a := store.Issue(BulkCreateBookAuthors(bookAuthors));
      if a.Rejected? {
        return Threw(StoreRejected);
      }
      authors := authors + AsBookAuthorEntries(bookAuthors);
      return Ok(());
    }

    /** `removeBulkBookAuthors(authorId, bookId)`: with neither key truthy,
        nothing happens; otherwise the store removes the matching join rows
        and the mirror keeps the entries that differ on a supplied key. */
    method RemoveBulkBookAuthors(authorId: Option<Id>, bookId: Option<Id>) returns (r: Outcome<()>)
      modifies this`authors, store
      ensures !Truthy(authorId) && !Truthy(bookId) ==>
                r == Ok(()) && store.log == old(store.log) && authors == old(authors)
      ensures Truthy(authorId) || Truthy(bookId) ==>
                && IssuedOnly(old(store.log), store.log, RemoveBookAuthorsByIds(authorId, bookId))
                && (r.Ok? <==> !LastAnswer(store.log).Rejected?)
                && (r.Ok? ==> authors == FilterBookAuthors(old(authors), authorId, bookId))
                && (r.Threw? ==> r.error == StoreRejected && authors == old(authors))
    {
      if !Truthy(authorId) && !Truthy(bookId) {
        return Ok(());
      }
      var a := store.Issue(RemoveBookAuthorsByIds(authorId, bookId));
      if a.Rejected? {
        return Threw(StoreRejected);
      }
      authors := FilterBookAuthors(authors, authorId, bookId);
      return Ok(());
    }
  }

  function OldFeedId(f: Feed.OldFeed): Option<Id> { Some(f.id) }

  /** `push(...oldAuthors)` onto the authors mirror. */
  function AsAuthorEntries(oldAuthors: seq<Author>): (r: seq<AuthorEntry>)
    ensures |r| == |oldAuthors|
    ensures forall i :: 0 <= i < |r| ==> r[i] == OldAuthor(oldAuthors[i])
  {
    seq(|oldAuthors|, i requires 0 <= i < |oldAuthors| => OldAuthor(oldAuthors[i]))
  }

  /** `push(...bookAuthors)` onto the authors mirror. */
  function AsBookAuthorEntries(bookAuthors: seq<BookAuthor>): (r: seq<AuthorEntry>)
    ensures |r| == |bookAuthors|
    ensures forall i :: 0 <= i < |r| ==> r[i] == BookAuthorRow(bookAuthors[i])
  {
    seq(|bookAuthors|, i requires 0 <= i < |bookAuthors| => BookAuthorRow(bookAuthors[i]))
  }

  /** Removing an entity just created, when no other mirror entry shares its
      id, restores the mirror. */
  lemma RemoveUndoesCreate(users: seq<User>, u: User)
    requires forall v :: v in users ==> v.id != u.id
    ensures RemoveId(users + [u], UserId, u.id) == users
  {
    RemoveIdUndoesAppend(users, u, UserId, u.id);
  }
}
