/** The feed model: a feed row points at its owner through a discriminator
    (`entityType`) and an untyped id (`entityId`). Reads join every possible
    owner table; the `afterFind` hook then copies the one joined owner that
    matches the discriminator into `entity` and deletes the four raw join
    properties. */
module Feed {
  import opened Common
  import Naming

  /** The closed set of owner kinds. */
  datatype EntityType = LibraryItemOwner | CollectionOwner | SeriesOwner | PlaylistOwner

  /** The discriminator string stored for each owner kind. */
  function EntityTypeName(t: EntityType): string
  {
    match t
    case LibraryItemOwner => "libraryItem"
    case CollectionOwner => "collection"
    case SeriesOwner => "series"
    case PlaylistOwner => "playlist"
  }

  /** A joined owner row, as the store returns it. */
  datatype OwnerRow = OwnerRow(id: Id, attributes: map<string, string>)

  /** A property of a fetched instance: absent (`undefined`), `null` (the
      association was joined and nothing matched), or a joined row. */
  datatype Slot = Undefined | Null | Row(row: OwnerRow)

  /** The feed table's columns. `createdAt`, `updatedAt` and
      `entityUpdatedAt` are held as their millisecond values. */
  datatype FeedColumns = FeedColumns(
    id: Id,
    slug: string,
    userId: Id,
    entityType: Option<string>,
    entityId: Id,
    entityUpdatedAt: int,
    serverAddress: string,
    feedURL: string,
    imageURL: string,
    siteURL: string,
    title: string,
    description: string,
    author: string,
    podcastType: string,
    language: string,
    ownerName: string,
    ownerEmail: string,
    explicit: bool,
    preventIndexing: bool,
    createdAt: int,
    updatedAt: int)

  /** A joined feed-episode row and its old-format object; the episode's
      columns are not part of this model. */
  datatype FeedEpisode = FeedEpisode(id: Id, attributes: map<string, string>)
  datatype OldFeedEpisode = OldFeedEpisode(id: Id, attributes: map<string, string>)

  datatype FeedMeta = FeedMeta(
    title: string,
    description: string,
    author: string,
    imageUrl: string,
    feedUrl: string,
    link: string,
    explicit: bool,
    podcastType: string,   // the old object's `type`
    language: string,
    preventIndexing: bool,
    ownerName: string,
    ownerEmail: string)

  /** The old-format feed object that the rest of the server works with. */
  datatype OldFeed = OldFeed(
    id: Id,
    slug: string,
    userId: Id,
    entityType: Option<string>,
    entityId: Id,
    meta: FeedMeta,
    serverAddress: string,
    feedUrl: string,
    episodes: seq<OldFeedEpisode>,
    createdAt: int,
    updatedAt: int)

  /** The part of an instance that the `afterFind` hook reads and writes. */
  datatype JoinState = JoinState(
    entityType: Option<string>,
    libraryItem: Slot,
    collection: Slot,
    series: Slot,
    playlist: Slot,
    entity: Slot)

  /** The raw join property that belongs to an owner kind. */
  function SlotFor(s: JoinState, t: EntityType): Slot
  {
    match t
    case LibraryItemOwner => s.libraryItem
    case CollectionOwner => s.collection
    case SeriesOwner => s.series
    case PlaylistOwner => s.playlist
  }

  /** What the hook does to one instance. */
  function Normalized(s: JoinState): (r: JoinState)
    // the four raw join properties are gone, whatever the discriminator
    ensures r.libraryItem == Undefined && r.collection == Undefined
    ensures r.series == Undefined && r.playlist == Undefined
    ensures r.entityType == s.entityType
    // a recognised discriminator whose join is present selects that join
    ensures forall t :: s.entityType == Some(EntityTypeName(t)) && SlotFor(s, t) != Undefined ==>
                          r.entity == SlotFor(s, t)
    // otherwise `entity` is not set
    ensures (forall t :: s.entityType == Some(EntityTypeName(t)) ==> SlotFor(s, t) == Undefined) ==>
              r.entity == s.entity
  {
    var entity :=
      if s.entityType == Some("libraryItem") && s.libraryItem != Undefined then s.libraryItem
      else if s.entityType == Some("collection") && s.collection != Undefined then s.collection
      else if s.entityType == Some("series") && s.series != Undefined then s.series
      else if s.entityType == Some("playlist") && s.playlist != Undefined then s.playlist
      else s.entity;
    assert EntityTypeName(LibraryItemOwner) == "libraryItem" && SlotFor(s, LibraryItemOwner) == s.libraryItem;
    assert EntityTypeName(CollectionOwner) == "collection" && SlotFor(s, CollectionOwner) == s.collection;
    assert EntityTypeName(SeriesOwner) == "series" && SlotFor(s, SeriesOwner) == s.series;
    assert EntityTypeName(PlaylistOwner) == "playlist" && SlotFor(s, PlaylistOwner) == s.playlist;
    JoinState(s.entityType, Undefined, Undefined, Undefined, Undefined, entity)
  }

  /** Running the hook twice over the same instance changes nothing more. */
  lemma NormalizedIdempotent(s: JoinState)
    ensures Normalized(Normalized(s)) == Normalized(s)
  {
  }

  /** If `entity` changes, it is the join named by the discriminator: no
      other owner kind can leak into it. */
  lemma NormalizedEntityMatchesType(s: JoinState)
    requires Normalized(s).entity != s.entity
    ensures exists t :: s.entityType == Some(EntityTypeName(t)) && Normalized(s).entity == SlotFor(s, t)
  {
    var t :| s.entityType == Some(EntityTypeName(t)) && SlotFor(s, t) != Undefined;
  }

  /** The association getters that the feed model declares. */
  datatype Getter = GetUser | GetLibraryItem | GetCollection | GetSeries | GetPlaylist

  function GetterName(g: Getter): string
  {
    match g
    case GetUser => "getUser"
    case GetLibraryItem => "getLibraryItem"
    case GetCollection => "getCollection"
    case GetSeries => "getSeries"
    case GetPlaylist => "getPlaylist"
  }

  function OwnerGetter(t: EntityType): Getter
  {
    match t
    case LibraryItemOwner => GetLibraryItem
    case CollectionOwner => GetCollection
    case SeriesOwner => GetSeries
    case PlaylistOwner => GetPlaylist
  }

  /** `this[name]` for the declared getters; None where the instance has no
      such method. */
  function LookupGetter(name: string): (g: Option<Getter>)
    ensures g.Some? ==> GetterName(g.value) == name
    ensures g.None? ==> forall h :: GetterName(h) != name
  {
    if name == "getUser" then Some(GetUser)
    else if name == "getLibraryItem" then Some(GetLibraryItem)
    else if name == "getCollection" then Some(GetCollection)
    else if name == "getSeries" then Some(GetSeries)
    else if name == "getPlaylist" then Some(GetPlaylist)
    else None
  }

  /** The name `getEntity` builds for each owner type is that owner's
      association getter. */
  lemma OwnerGetterLookup(t: EntityType)
    ensures LookupGetter("get" + Naming.UppercaseFirst(EntityTypeName(t))) == Some(OwnerGetter(t))
  {
    match t
    case LibraryItemOwner => LibraryItemGetterLookup();
    case CollectionOwner => CollectionGetterLookup();
    case SeriesOwner => SeriesGetterLookup();
    case PlaylistOwner => PlaylistGetterLookup();
  }

  lemma LibraryItemGetterLookup()
    ensures LookupGetter("get" + Naming.UppercaseFirst("libraryItem")) == Some(GetLibraryItem)
  {
    assert Naming.UppercaseFirst("libraryItem") == "LibraryItem";
    assert "get" + "LibraryItem" == "getLibraryItem";
  }

  lemma CollectionGetterLookup()
    ensures LookupGetter("get" + Naming.UppercaseFirst("collection")) == Some(GetCollection)
  {
    assert Naming.UppercaseFirst("collection") == "Collection";
    assert "get" + "Collection" == "getCollection";
  }

  lemma SeriesGetterLookup()
    ensures LookupGetter("get" + Naming.UppercaseFirst("series")) == Some(GetSeries)
  {
    assert Naming.UppercaseFirst("series") == "Series";
    assert "get" + "Series" == "getSeries";
  }

  lemma PlaylistGetterLookup()
    ensures LookupGetter("get" + Naming.UppercaseFirst("playlist")) == Some(GetPlaylist)
  {
    assert Naming.UppercaseFirst("playlist") == "Playlist";
    assert "get" + "Playlist" == "getPlaylist";
  }

  /** The `user` association, which is no owner type, still has a getter
      `getEntity` can reach. */
  lemma UserGetterLookup()
    ensures LookupGetter("get" + Naming.UppercaseFirst("user")) == Some(GetUser)
  {
    assert Naming.UppercaseFirst("user") == "User";
    assert "get" + "User" == "getUser";
  }

  lemma AllOwnerGetterLookups()
    ensures forall t :: LookupGetter("get" + Naming.UppercaseFirst(EntityTypeName(t))) == Some(OwnerGetter(t))
  {
    forall t {
      OwnerGetterLookup(t);
    }
  }

  /** What `getEntity` does: resolve to null, call a getter (which fetches
      the row that `foreignKey` points at), or throw because the built name
      is not a method. */
  datatype EntityCall = ResolvesNull | Invokes(getter: Getter, foreignKey: Id) | ThrowsTypeError(name: string)

  /** A fetched feed instance. The columns and joined episodes are never
      changed by the core; the join properties and `entity` are. */
  class FeedInstance {
    const columns: FeedColumns
    const feedEpisodes: seq<FeedEpisode>
    var libraryItem: Slot
    var collection: Slot
    var series: Slot
    var playlist: Slot
    var entity: Slot

    constructor (columns: FeedColumns, feedEpisodes: seq<FeedEpisode>,
                 libraryItem: Slot, collection: Slot, series: Slot, playlist: Slot)
      ensures this.columns == columns && this.feedEpisodes == feedEpisodes
      ensures State() == JoinState(columns.entityType, libraryItem, collection, series, playlist, Undefined)
    {
      this.columns := columns;
      this.feedEpisodes := feedEpisodes;
      this.libraryItem := libraryItem;
      this.collection := collection;
      this.series := series;
      this.playlist := playlist;
      this.entity := Undefined;
    }

    function State(): JoinState
      reads this
    {
      JoinState(columns.entityType, libraryItem, collection, series, playlist, entity)
    }

    /** The body of the hook's loop, for this one instance: copy the join
        the discriminator names into `entity` when it is present, then
        delete the four join properties. */
    method Normalize()
      modifies this
      ensures State() == Normalized(old(State()))
    {
      if columns.entityType == Some("libraryItem") && libraryItem != Undefined {
        entity := libraryItem;
      } else if columns.entityType == Some("collection") && collection != Undefined {
        entity := collection;
      } else if columns.entityType == Some("series") && series != Undefined {
        entity := series;
      } else if columns.entityType == Some("playlist") && playlist != Undefined {
        entity := playlist;
      }
      libraryItem := Undefined;
      collection := Undefined;
      series := Undefined;
      playlist := Undefined;
    }

    /** `getEntity`: no discriminator (null or empty) resolves to null;
        otherwise the method named "get" + uppercaseFirst(entityType) is
        called. */
    function GetEntity(): (r: EntityCall)
      ensures r == ResolvesNull <==> !Truthy(columns.entityType)
      ensures forall t :: columns.entityType == Some(EntityTypeName(t)) ==>
                            r == Invokes(OwnerGetter(t), columns.entityId)
      ensures columns.entityType == Some("user") ==> r == Invokes(GetUser, columns.userId)
      ensures r.Invokes? ==> columns.entityType.Some? &&
                             GetterName(r.getter) == "get" + Naming.UppercaseFirst(columns.entityType.value)
      ensures r.Invokes? ==> r.foreignKey == if r.getter == GetUser then columns.userId else columns.entityId
      ensures r.ThrowsTypeError? ==> columns.entityType.Some? &&
                                     r.name == "get" + Naming.UppercaseFirst(columns.entityType.value) &&
                                     forall g :: GetterName(g) != r.name
    {
      AllOwnerGetterLookups();
      UserGetterLookup();
      if !Truthy(columns.entityType) then ResolvesNull
      else
        var name := "get" + Naming.UppercaseFirst(columns.entityType.value);
        match LookupGetter(name)
        case Some(g) => Invokes(g, if g == GetUser then columns.userId else columns.entityId)
        case None => ThrowsTypeError(name)
    }
  }

  /** The result of a find: nothing, one instance (`findOne`), or a list. */
  datatype FindResult = NothingFound | Single(instance: FeedInstance) | Many(instances: seq<FeedInstance>)

  /** The instances the hook walks: a single instance is a one-element list. */
  function Instances(f: FindResult): (xs: seq<FeedInstance>)
    ensures f.NothingFound? ==> xs == []
    ensures f.Single? ==> xs == [f.instance]
    ensures f.Many? ==> xs == f.instances
  {
    match f
    case NothingFound => []
    case Single(x) => [x]
    case Many(xs) => xs
  }

  function InstanceSet(f: FindResult): set<FeedInstance>
  {
    set x | x in Instances(f)
  }

  /** The `afterFind` hook: every instance of the result is normalised in
      place. An instance listed twice is normalised twice, which is the same
      as once. */
  method AfterFind(findResult: FindResult)
    modifies InstanceSet(findResult)
    ensures forall x :: x in Instances(findResult) ==> x.State() == Normalized(old(x.State()))
  {
    if findResult.NothingFound? {
      return;
    }
    var list := Instances(findResult);
    var i := 0;
    while i < |list|
      invariant 0 <= i <= |list|
      invariant forall x :: x in list ==>
                  x.State() == if x in list[..i] then Normalized(old(x.State())) else old(x.State())
    {
      var instance := list[i];
      instance.Normalize();
      NormalizedIdempotent(old(instance.State()));
      assert list[..i + 1] == list[..i] + [instance];
      i := i + 1;
    }
  }

  /** `feedEpisodes.map(e => e.getOldEpisode())`. */
  function MapEpisodes(episodes: seq<FeedEpisode>, getOldEpisode: FeedEpisode -> OldFeedEpisode): (r: seq<OldFeedEpisode>)
    ensures |r| == |episodes|
    ensures forall i :: 0 <= i < |episodes| ==> r[i] == getOldEpisode(episodes[i])
  {
    if episodes == [] then [] else [getOldEpisode(episodes[0])] + MapEpisodes(episodes[1..], getOldEpisode)
  }

  /** `getOldFeed`: a projection of the columns into the old object, with
      the URL columns renamed and `feedURL` copied to two places. */
  function GetOldFeed(feed: FeedInstance, getOldEpisode: FeedEpisode -> OldFeedEpisode): (r: OldFeed)
    ensures r.id == feed.columns.id && r.slug == feed.columns.slug && r.userId == feed.columns.userId
    ensures r.entityType == feed.columns.entityType && r.entityId == feed.columns.entityId
    ensures r.feedUrl == feed.columns.feedURL && r.meta.feedUrl == feed.columns.feedURL
    ensures r.meta.imageUrl == feed.columns.imageURL && r.meta.link == feed.columns.siteURL
    ensures r.meta.podcastType == feed.columns.podcastType
    ensures |r.episodes| == |feed.feedEpisodes|
    ensures forall i :: 0 <= i < |feed.feedEpisodes| ==> r.episodes[i] == getOldEpisode(feed.feedEpisodes[i])
  {
    var c := feed.columns;
    OldFeed(
      c.id, c.slug, c.userId, c.entityType, c.entityId,
      FeedMeta(c.title, c.description, c.author, c.imageURL, c.feedURL, c.siteURL,
               c.explicit, c.podcastType, c.language, c.preventIndexing, c.ownerName, c.ownerEmail),
      c.serverAddress, c.feedURL, MapEpisodes(feed.feedEpisodes, getOldEpisode), c.createdAt, c.updatedAt)
  }

  /** The columns an old feed was projected from, given the one column the
      projection drops (`entityUpdatedAt`). */
  function ColumnsOf(f: OldFeed, entityUpdatedAt: int): FeedColumns
  {
    FeedColumns(
      f.id, f.slug, f.userId, f.entityType, f.entityId, entityUpdatedAt, f.serverAddress,
      f.meta.feedUrl, f.meta.imageUrl, f.meta.link, f.meta.title, f.meta.description,
      f.meta.author, f.meta.podcastType, f.meta.language, f.meta.ownerName, f.meta.ownerEmail,
      f.meta.explicit, f.meta.preventIndexing, f.createdAt, f.updatedAt)
  }

  /** The projection loses no column except `entityUpdatedAt`. */
  lemma GetOldFeedLosesOnlyEntityUpdatedAt(feed: FeedInstance, getOldEpisode: FeedEpisode -> OldFeedEpisode)
    ensures ColumnsOf(GetOldFeed(feed, getOldEpisode), feed.columns.entityUpdatedAt) == feed.columns
  {
  }

  /** `getOldFeeds`: one old feed per fetched instance, in fetch order. */
  function GetOldFeeds(fetched: seq<FeedInstance>, getOldEpisode: FeedEpisode -> OldFeedEpisode): (r: seq<OldFeed>)
    ensures |r| == |fetched|
    ensures forall i :: 0 <= i < |fetched| ==> r[i] == GetOldFeed(fetched[i], getOldEpisode)
  {
    if fetched == [] then []
    else [GetOldFeed(fetched[0], getOldEpisode)] + GetOldFeeds(fetched[1..], getOldEpisode)
  }
}
