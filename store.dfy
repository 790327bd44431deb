/** The backing store, seen from the facade: every call the facade issues to
    the ORM, and the answer it settles with. The store's contents are not
    modelled; its answers are arbitrary (a `respond` function fixed when the
    store is made, which may depend on everything asked so far), subject only
    to the shape each call's answer has. Every exchange is appended to `log`,
    so a facade method's contract can say which calls it issued, in which
    order, and what it did with each answer. */
module Store {
  import opened Common
  import opened Entities
  import Feed

  /** The working set `loadData` reads into the mirror. */
  datatype WorkingSet = WorkingSet(
    libraryItems: seq<LibraryItem>,
    users: seq<User>,
    libraries: seq<Library>,
    collections: seq<Collection>,
    playlists: seq<Playlist>,
    authors: seq<AuthorEntry>,
    series: seq<Series>,
    feeds: seq<Feed.OldFeed>,
    settings: seq<SettingsObject>,
    emailSettings: SettingsObject,
    serverSettings: ServerSettings,
    notificationSettings: SettingsObject)

  /** A call into the ORM or the migration collaborator. */
  datatype Call =
    | Authenticate
    | Sync(force: bool)
    | Migrate
    | LoadWorkingSet
    | UpdateSettingObj(serverSettings: ServerSettings)
    | CreateRootUserRow(username: string, pash: string, token: string)
    | CreateUserRow(user: User)
    | RemoveUserRow(userId: Id)
    | CreateLibraryRow(library: Library)
    | RemoveLibraryRow(libraryId: Id)
    | CreateCollectionRow(collection: Collection)
    | BulkCreateCollectionBooks(collectionBooks: seq<CollectionBook>)
    | FullUpdateCollection(collection: Collection, collectionBooks: seq<CollectionBook>)
    | RemoveCollectionRow(collectionId: Id)
    | CreatePlaylistRow(playlist: Playlist)
    | BulkCreatePlaylistMediaItems(playlistMediaItems: seq<PlaylistMediaItem>)
    | FullUpdatePlaylist(playlist: Playlist, playlistMediaItems: seq<PlaylistMediaItem>)
    | RemovePlaylistRow(playlistId: Id)
    | FullCreateLibraryItem(libraryItem: LibraryItem)
    | FullUpdateLibraryItem(libraryItem: LibraryItem)
    | RemoveLibraryItemRow(libraryItemId: Id)
    | RemoveFeedRow(feedId: Id)
    | CreateSeriesRow(series: Series)
    | CreateBulkSeriesRows(seriesList: seq<Series>)
    | RemoveSeriesRow(seriesId: Id)
    | CreateAuthorRow(author: Author)
    | CreateBulkAuthorRows(authors: seq<Author>)
    | RemoveAuthorRow(authorId: Id)
    | BulkCreateBookAuthors(bookAuthors: seq<BookAuthor>)
    | RemoveBookAuthorsByIds(authorKey: Option<Id>, bookKey: Option<Id>)

  /** How a call settled. */
  datatype Answer =
    | Rejected                          // the promise rejected
    | Done                              // resolved with nothing the facade reads
    | Changed(changed: bool)            // `fullUpdateFromOld`: whether anything changed
    | CreatedRow(rowId: Option<Id>)     // `createFromOld` of a collection or playlist: the new row, or null
    | CreatedUser(user: Option<User>)   // `createRootUser`: the new user, or null
    | Loaded(workingSet: WorkingSet)

  /** The answers a call can settle with: any call can reject. */
  predicate Fits(c: Call, a: Answer)
  {
    a.Rejected? ||
    match c
    case FullUpdateCollection(_, _) => a.Changed?
    case FullUpdatePlaylist(_, _) => a.Changed?
    case FullUpdateLibraryItem(_) => a.Changed?
    case CreateCollectionRow(_) => a.CreatedRow?
    case CreatePlaylistRow(_) => a.CreatedRow?
    case CreateRootUserRow(_, _, _) => a.CreatedUser?
    case LoadWorkingSet => a.Loaded?
    case _ => a.Done?
  }

  datatype Exchange = Exchange(call: Call, answer: Answer)

  class BackingStore {
    var log: seq<Exchange>
    const respond: (seq<Exchange>, Call) -> Answer

    constructor (respond: (seq<Exchange>, Call) -> Answer)
      ensures log == [] && this.respond == respond
    {
      this.log := [];
      this.respond := respond;
    }

    /** Issue one call and wait for it to settle. */
    method Issue(c: Call) returns (a: Answer)
      modifies this
      ensures Fits(c, a)
      ensures log == old(log) + [Exchange(c, a)]
    {
      a := respond(log, c);
      if !Fits(c, a) {
        a := Rejected;
      }
      log := log + [Exchange(c, a)];
    }
  }
}
