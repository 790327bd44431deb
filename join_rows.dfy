/** Derive-don't-diff: the ordered join rows a collection or a playlist is
    rewritten with, computed from the caller's id list and the library-item
    mirror. Unresolvable ids are dropped and the remaining rows are numbered
    1, 2, 3, ... without gaps. */
module JoinRows {
  import opened Common
  import opened Entities

  /** The index of the first library item carrying `id`, or |items| if none does. */
  function FirstIndex(items: seq<LibraryItem>, id: Id): (k: nat)
    ensures k <= |items|
    ensures k < |items| ==> items[k].id == id
  {
    if items == [] then 0
    else if items[0].id == id then 0
    else 1 + FirstIndex(items[1..], id)
  }

  /** No item before the first index carries the id. */
  lemma {:induction false} FirstIndexIsFirst(items: seq<LibraryItem>, id: Id)
    ensures forall j :: 0 <= j < FirstIndex(items, id) ==> items[j].id != id
  {
    if items != [] && items[0].id != id {
      FirstIndexIsFirst(items[1..], id);
      assert forall j :: 1 <= j < FirstIndex(items, id) ==> items[j] == items[1..][j - 1];
    }
  }

  /** `items.find(li => li.id === id)`: the first library item with that id. */
  function FindLibraryItem(items: seq<LibraryItem>, id: Id): (r: Option<LibraryItem>)
    ensures r.Some? ==> r.value.id == id
  {
    var k := FirstIndex(items, id);
    if k < |items| then Some(items[k]) else None
  }

  /** `find` succeeds exactly when some library item has the id, and then
      returns the first such item. */
  lemma FindLibraryItemSpec(items: seq<LibraryItem>, id: Id)
    ensures var r := FindLibraryItem(items, id);
            && (r.Some? <==> exists k :: 0 <= k < |items| && items[k].id == id)
            && (r.Some? ==> r.value.id == id && r.value in items)
            && (r.Some? ==> exists k :: 0 <= k < |items| && items[k] == r.value &&
                                        forall j :: 0 <= j < k ==> items[j].id != id)
  {
    var k := FirstIndex(items, id);
    FirstIndexIsFirst(items, id);
    if k < |items| {
      assert items[k] in items;
    }
  }

  predicate Resolves(items: seq<LibraryItem>, id: Id)
  {
    FindLibraryItem(items, id).Some?
  }

  /** The positions in `ids`, ascending, of the ids that resolve against the
      library-item mirror. */
  function Resolved(ids: seq<Id>, items: seq<LibraryItem>): (ps: seq<nat>)
    ensures forall j :: 0 <= j < |ps| ==> ps[j] < |ids| && Resolves(items, ids[ps[j]])
    decreases |ids|
  {
    if ids == [] then []
    else
      var n := |ids| - 1;
      var ps := Resolved(ids[..n], items);
      assert forall j :: 0 <= j < |ps| ==> ids[..n][ps[j]] == ids[ps[j]];
      if Resolves(items, ids[n]) then ps + [n] else ps
  }

  /** The resolved positions are strictly increasing, and every position
      whose id resolves is among them. */
  lemma {:induction false} ResolvedOrdered(ids: seq<Id>, items: seq<LibraryItem>)
    ensures var ps := Resolved(ids, items);
            && (forall j, j' :: 0 <= j < j' < |ps| ==> ps[j] < ps[j'])
            && (forall i :: 0 <= i < |ids| && Resolves(items, ids[i]) ==> i in ps)
    decreases |ids|
  {
    if ids != [] {
      var n := |ids| - 1;
      ResolvedOrdered(ids[..n], items);
      assert forall i :: 0 <= i < n ==> ids[..n][i] == ids[i];
    }
  }

  /** The collection-book rows `updateCollection` builds: one per resolvable
      library-item id, in list order, with `order` counting up from 1. */
  function CollectionRows(ids: seq<Id>, items: seq<LibraryItem>, collectionId: Id): (rows: seq<CollectionBook>)
    ensures |rows| <= |ids|
    decreases |ids|
  {
    if ids == [] then []
    else
      var rows := CollectionRows(ids[..|ids| - 1], items, collectionId);
      match FindLibraryItem(items, ids[|ids| - 1])
      case None => rows
      case Some(li) => rows + [CollectionBook(collectionId, li.mediaId, |rows| + 1)]
  }

  /** Row j of a rebuilt collection comes from the j-th resolvable id: it
      points at that library item's book, belongs to the collection, and has
      `order` j + 1; there is one row per resolvable id and no other. */
  lemma {:induction false} CollectionRowsSpec(ids: seq<Id>, items: seq<LibraryItem>, collectionId: Id)
    ensures var rows := CollectionRows(ids, items, collectionId);
            var ps := Resolved(ids, items);
            |rows| == |ps| &&
            forall j :: 0 <= j < |rows| ==>
              rows[j] == CollectionBook(collectionId, FindLibraryItem(items, ids[ps[j]]).value.mediaId, j + 1)
    decreases |ids|
  {
    if ids != [] {
      var n := |ids| - 1;
      CollectionRowsSpec(ids[..n], items, collectionId);
      var rows0, ps0 := CollectionRows(ids[..n], items, collectionId), Resolved(ids[..n], items);
      var rows, ps := CollectionRows(ids, items, collectionId), Resolved(ids, items);
      assert forall j :: 0 <= j < |ps0| ==> ids[..n][ps0[j]] == ids[ps0[j]];
      match FindLibraryItem(items, ids[n])
      case None =>
        assert rows == rows0 && ps == ps0;
      case Some(li) =>
        assert rows == rows0 + [CollectionBook(collectionId, li.mediaId, |rows0| + 1)];
        assert ps == ps0 + [n];
        forall j | 0 <= j < |rows|
          ensures rows[j] == CollectionBook(collectionId, FindLibraryItem(items, ids[ps[j]]).value.mediaId, j + 1)
        {
          if j < |rows0| {
            assert rows[j] == rows0[j] && ps[j] == ps0[j];
            assert ids[..n][ps0[j]] == ids[ps0[j]];
          }
        }
    }
  }

  /** The orders of a rebuilt collection are exactly 1..k. */
  lemma CollectionRowsOrdered(ids: seq<Id>, items: seq<LibraryItem>, collectionId: Id)
    ensures var rows := CollectionRows(ids, items, collectionId);
            (forall j :: 0 <= j < |rows| ==> rows[j].order == j + 1) &&
            (forall j :: 0 <= j < |rows| ==> rows[j].collectionId == collectionId) &&
            |rows| <= |ids|
  {
    CollectionRowsSpec(ids, items, collectionId);
    ResolvedBound(ids, items);
  }

  /** At most one position per id. */
  lemma {:induction false} ResolvedBound(ids: seq<Id>, items: seq<LibraryItem>)
    ensures |Resolved(ids, items)| <= |ids|
    decreases |ids|
  {
    if ids != [] {
      ResolvedBound(ids[..|ids| - 1], items);
    }
  }

  /** When every id resolves, the rows follow the ids one for one. */
  lemma AllResolvedCollectionRows(ids: seq<Id>, items: seq<LibraryItem>, collectionId: Id)
    requires forall i :: 0 <= i < |ids| ==> Resolves(items, ids[i])
    ensures var rows := CollectionRows(ids, items, collectionId);
            |rows| == |ids| &&
            forall j :: 0 <= j < |ids| ==>
              Resolves(items, ids[j]) &&
              rows[j] == CollectionBook(collectionId, FindLibraryItem(items, ids[j]).value.mediaId, j + 1)
  {
    CollectionRowsSpec(ids, items, collectionId);
    AllResolved(ids, items);
  }

  /** If every id resolves, the resolved positions are 0, 1, ..., |ids| - 1. */
  lemma {:induction false} AllResolved(ids: seq<Id>, items: seq<LibraryItem>)
    requires forall i :: 0 <= i < |ids| ==> Resolves(items, ids[i])
    ensures var ps := Resolved(ids, items); |ps| == |ids| && forall j :: 0 <= j < |ps| ==> ps[j] == j
    decreases |ids|
  {
    if ids != [] {
      var n := |ids| - 1;
      assert forall i :: 0 <= i < n ==> ids[..n][i] == ids[i];
      AllResolved(ids[..n], items);
    }
  }

  /** The library-item id of each playlist entry. */
  function LibraryItemIds(entries: seq<PlaylistItem>): (ids: seq<Id>)
    ensures |ids| == |entries|
    ensures forall i :: 0 <= i < |entries| ==> ids[i] == entries[i].libraryItemId
  {
    seq(|entries|, i requires 0 <= i < |entries| => entries[i].libraryItemId)
  }

  /** The playlist-media-item rows built for a playlist: one per entry whose
      library item resolves, in list order, with `order` counting up from 1;
      an entry with an episode id is a podcast episode, any other a book. */
  function PlaylistRows(entries: seq<PlaylistItem>, items: seq<LibraryItem>, playlistId: Id): (rows: seq<PlaylistMediaItem>)
    ensures |rows| <= |entries|
    decreases |entries|
  {
    if entries == [] then []
    else
      var e := entries[|entries| - 1];
      var rows := PlaylistRows(entries[..|entries| - 1], items, playlistId);
      match FindLibraryItem(items, e.libraryItemId)
      case None => rows
      case Some(li) =>
        var kind := if Truthy(e.episodeId) then PodcastEpisode else Book;
        var mediaItemId := if Truthy(e.episodeId) then e.episodeId.value else li.mediaId;
        rows + [PlaylistMediaItem(playlistId, mediaItemId, kind, |rows| + 1)]
  }

  /** What the source promises of the row built for playlist entry `e` at
      position `order`: it belongs to the playlist, carries that order, is a
      podcast episode exactly when the entry has an episode id, and points at
      the episode when there is one and at the library item's book otherwise. */
  predicate RowFromEntry(row: PlaylistMediaItem, e: PlaylistItem, items: seq<LibraryItem>, playlistId: Id, order: nat)
  {
    && row.playlistId == playlistId
    && row.order == order
    && (row.mediaItemType == PodcastEpisode <==> Truthy(e.episodeId))
    && (Truthy(e.episodeId) ==> row.mediaItemId == e.episodeId.value)
    && (!Truthy(e.episodeId) ==> Resolves(items, e.libraryItemId) &&
                                 row.mediaItemId == FindLibraryItem(items, e.libraryItemId).value.mediaId)
  }

  /** Row j of a rebuilt playlist comes from the j-th entry whose library
      item resolves, with `order` j + 1; there is one row per such entry and
      no other. */
  predicate PlaylistRowsFollowEntries(entries: seq<PlaylistItem>, items: seq<LibraryItem>, playlistId: Id)
  {
    var rows := PlaylistRows(entries, items, playlistId);
    var ps := Resolved(LibraryItemIds(entries), items);
    |rows| == |ps| &&
    forall j :: 0 <= j < |rows| ==> RowFromEntry(rows[j], entries[ps[j]], items, playlistId, j + 1)
  }

  lemma {:induction false} PlaylistRowsSpec(entries: seq<PlaylistItem>, items: seq<LibraryItem>, playlistId: Id)
    ensures PlaylistRowsFollowEntries(entries, items, playlistId)
    decreases |entries|
  {
    if entries != [] {
      var n := |entries| - 1;
      PlaylistRowsSpec(entries[..n], items, playlistId);
      var ids := LibraryItemIds(entries);
      assert ids[..n] == LibraryItemIds(entries[..n]);
      if FindLibraryItem(items, entries[n].libraryItemId).None? {
        PlaylistRowsSkip(entries, items, playlistId);
      } else {
        PlaylistRowsAppend(entries, items, playlistId);
      }
    }
  }

  /** The step for a last entry whose library item does not resolve. */
  lemma PlaylistRowsSkip(entries: seq<PlaylistItem>, items: seq<LibraryItem>, playlistId: Id)
    requires entries != [] && FindLibraryItem(items, entries[|entries| - 1].libraryItemId).None?
    requires LibraryItemIds(entries)[..|entries| - 1] == LibraryItemIds(entries[..|entries| - 1])
    requires PlaylistRowsFollowEntries(entries[..|entries| - 1], items, playlistId)
    ensures PlaylistRowsFollowEntries(entries, items, playlistId)
  {
    var n := |entries| - 1;
    var ids := LibraryItemIds(entries);
    var ps0 := Resolved(ids[..n], items);
    var rows, ps := PlaylistRows(entries, items, playlistId), Resolved(ids, items);
    assert ids[n] == entries[n].libraryItemId;
    assert ps == ps0;
    forall j | 0 <= j < |rows|
      ensures RowFromEntry(rows[j], entries[ps[j]], items, playlistId, j + 1)
    {
      assert entries[..n][ps0[j]] == entries[ps0[j]];
    }
  }

  /** The step for a last entry whose library item resolves: one row more. */
  lemma PlaylistRowsAppend(entries: seq<PlaylistItem>, items: seq<LibraryItem>, playlistId: Id)
    requires entries != [] && FindLibraryItem(items, entries[|entries| - 1].libraryItemId).Some?
    requires LibraryItemIds(entries)[..|entries| - 1] == LibraryItemIds(entries[..|entries| - 1])
    requires PlaylistRowsFollowEntries(entries[..|entries| - 1], items, playlistId)
    ensures PlaylistRowsFollowEntries(entries, items, playlistId)
  {
    var n := |entries| - 1;
    var ids := LibraryItemIds(entries);
    var rows0, ps0 := PlaylistRows(entries[..n], items, playlistId), Resolved(ids[..n], items);
    var rows, ps := PlaylistRows(entries, items, playlistId), Resolved(ids, items);
    assert ids[n] == entries[n].libraryItemId;
    assert ps == ps0 + [n];
    forall j | 0 <= j < |rows|
      ensures RowFromEntry(rows[j], entries[ps[j]], items, playlistId, j + 1)
    {
      if j < |rows0| {
        assert rows[j] == rows0[j] && ps[j] == ps0[j];
        assert entries[..n][ps0[j]] == entries[ps0[j]];
      }
    }
  }

  /** The order values of a rebuilt playlist are exactly 1..k. */
  lemma PlaylistRowsOrdered(entries: seq<PlaylistItem>, items: seq<LibraryItem>, playlistId: Id)
    ensures var rows := PlaylistRows(entries, items, playlistId);
            (forall j :: 0 <= j < |rows| ==> rows[j].order == j + 1) &&
            (forall j :: 0 <= j < |rows| ==> rows[j].playlistId == playlistId) &&
            |rows| <= |entries|
  {
    PlaylistRowsSpec(entries, items, playlistId);
    ResolvedBound(LibraryItemIds(entries), items);
  }
}
