/** The entities the facade keeps in its in-memory mirror, the join rows it
    derives for collections and playlists, and the settings records. Only the
    fields the facade's own logic reads are modelled; every other column of an
    entity is folded into `attributes`. */
module Entities {
  import opened Common

  /** A user; `userType` is the `type` property ('root', 'admin', 'user', ...). */
  datatype User = User(id: Id, username: string, userType: string)

  datatype Library = Library(id: Id, name: string)

  /** A library item; `mediaId` is `libraryItem.media.id`, the id of its book
      or podcast. */
  datatype LibraryItem = LibraryItem(id: Id, mediaId: Id, attributes: map<string, string>)

  /** A collection: `books` is its ordered list of library-item ids. */
  datatype Collection = Collection(id: Id, name: string, books: seq<Id>)

  /** One entry of `playlist.items`; `episodeId` is null for a book. */
  datatype PlaylistItem = PlaylistItem(libraryItemId: Id, episodeId: Option<Id>)

  datatype Playlist = Playlist(id: Id, name: string, items: seq<PlaylistItem>)

  datatype Series = Series(id: Id, name: string)

  datatype Author = Author(id: Id, name: string)

  /** A row of the book-author join table as callers pass it in. */
  datatype BookAuthor = BookAuthor(authorId: Id, bookId: Id)

  /** The `authors` mirror holds old author objects and, because
      `createBulkBookAuthors` pushes there, book-author join rows too. */
  datatype AuthorEntry = OldAuthor(author: Author) | BookAuthorRow(row: BookAuthor)

  /** `entry.id`: join rows carry no `id` property. */
  function AuthorEntryId(e: AuthorEntry): Option<Id>
  {
    match e
    case OldAuthor(a) => Some(a.id)
    case BookAuthorRow(_) => None
  }

  /** `entry.authorId`: old author objects carry no `authorId` property. */
  function AuthorIdOf(e: AuthorEntry): Option<Id>
  {
    match e
    case OldAuthor(_) => None
    case BookAuthorRow(row) => Some(row.authorId)
  }

  /** `entry.bookId`: old author objects carry no `bookId` property. */
  function BookIdOf(e: AuthorEntry): Option<Id>
  {
    match e
    case OldAuthor(_) => None
    case BookAuthorRow(row) => Some(row.bookId)
  }

  function UserId(u: User): Option<Id> { Some(u.id) }
  function LibraryId(l: Library): Option<Id> { Some(l.id) }
  function LibraryItemId(li: LibraryItem): Option<Id> { Some(li.id) }
  function CollectionId(c: Collection): Option<Id> { Some(c.id) }
  function PlaylistId(p: Playlist): Option<Id> { Some(p.id) }
  function SeriesId(s: Series): Option<Id> { Some(s.id) }

  /** A collection-book join row. */
  datatype CollectionBook = CollectionBook(collectionId: Id, bookId: Id, order: nat)

  /** The `mediaItemType` column: `'book'` or `'podcastEpisode'`. */
  datatype MediaItemType = Book | PodcastEpisode

  /** A playlist-media-item join row. */
  datatype PlaylistMediaItem = PlaylistMediaItem(playlistId: Id, mediaItemId: Id, mediaItemType: MediaItemType, order: nat)

  /** The server-settings singleton; `version` is the server version that last
      wrote the store. */
  datatype ServerSettings = ServerSettings(version: string, attributes: map<string, string>)

  /** Any other settings object (email, notification, a raw settings row). */
  datatype SettingsObject = SettingsObject(key: string, attributes: map<string, string>)
}
