/** The per-playlist cache: `PlaylistItem` entries (PlaylistItem.cs) held in the
    application's dictionary from playlist id to entry, with the updates
    Application.cs makes to them in place. */
module Cache {
  import opened Collections
  import opened Tracks

  /** The value of a cache entry at one moment. */
  datatype Entry = Entry(
    name: string,
    id: string,
    snapshotId: Snapshot,
    tracks: seq<TrackItem>,
    containsTracksToDownload: bool)

  /** The cache contents after `UpdatePlaylistCache(playlist, items)`: the
      playlist's entry carries its snapshot, exactly `items` and a set flag, a new
      entry also its name and id, and every other entry is as it was. */
  function Refresh(view: map<string, Entry>, playlist: SimplePlaylist, items: seq<TrackItem>): (r: map<string, Entry>)
    ensures r.Keys == view.Keys + {playlist.id}
    ensures r[playlist.id].snapshotId == playlist.snapshotId
    ensures r[playlist.id].tracks == items && r[playlist.id].containsTracksToDownload
    ensures playlist.id !in view ==> r[playlist.id].id == playlist.id && r[playlist.id].name == playlist.name
    ensures playlist.id in view ==> r[playlist.id].id == view[playlist.id].id && r[playlist.id].name == view[playlist.id].name
    ensures forall k :: k in view && k != playlist.id ==> r[k] == view[k]
  {
    if playlist.id in view then
      view[playlist.id := view[playlist.id].(snapshotId := playlist.snapshotId, tracks := items, containsTracksToDownload := true)]
    else
      view[playlist.id := Entry(playlist.name, playlist.id, playlist.snapshotId, items, true)]
  }

  /** The cache contents once every entry's flag is cleared. */
  function Cleared(view: map<string, Entry>): (r: map<string, Entry>)
    ensures r.Keys == view.Keys
    ensures forall k :: k in r ==> r[k] == view[k].(containsTracksToDownload := false) && !r[k].containsTracksToDownload
  {
    map k | k in view :: view[k].(containsTracksToDownload := false)
  }

  /** `view` is `view0` with the flag of every entry outside `rest` cleared. */
  predicate ClearedOutside(view0: map<string, Entry>, view: map<string, Entry>, rest: set<string>) {
    && view.Keys == view0.Keys
    && forall k :: k in view ==>
         view[k] == view0[k].(containsTracksToDownload := view0[k].containsTracksToDownload && k in rest)
  }

  /** Clearing the flag of one more entry of `rest` takes it out of `rest`. */
  lemma ClearedStep(view0: map<string, Entry>, view: map<string, Entry>, rest: set<string>, k: string)
    requires ClearedOutside(view0, view, rest) && k in rest && k in view
    ensures ClearedOutside(view0, view[k := view[k].(containsTracksToDownload := false)], rest - {k})
  {
  }

  /** With nothing left, every flag is cleared and nothing else changed. */
  lemma ClearedAll(view0: map<string, Entry>, view: map<string, Entry>)
    requires ClearedOutside(view0, view, {})
    ensures view == Cleared(view0)
  {
  }

  /** A cache entry; its snapshot, tracks and flag are overwritten in place. */
  class PlaylistItem {
    var name: string
    var id: string
    var snapshotId: Snapshot
    var tracks: seq<TrackItem>
    var containsTracksToDownload: bool

    /** `new PlaylistItem(playlist, tracks)`: name, id and snapshot come from the
        playlist, the tracks are the ones given, and the flag starts true. */
    constructor (playlist: SimplePlaylist, tracks: seq<TrackItem>)
      ensures Value() == Entry(playlist.name, playlist.id, playlist.snapshotId, tracks, true)
    {
      name := playlist.name;
      id := playlist.id;
      snapshotId := playlist.snapshotId;
      this.tracks := tracks;
      containsTracksToDownload := true;
    }

    function Value(): Entry
      reads this
    {
      Entry(name, id, snapshotId, tracks, containsTracksToDownload)
    }
  }

  /** `Dictionary<string, PlaylistItem>`: entries by playlist id. */
  class PlaylistCache {
    var entries: map<string, PlaylistItem>
    /** The entry objects. */
    ghost var Repr: set<PlaylistItem>
    /** The cache's contents as values. */
    ghost var view: map<string, Entry>

    /** Every entry is one of `Repr` and is stored under its own id (so no two
        keys share an entry), and `view` holds each entry's value. */
    ghost predicate Valid()
      reads this, Repr
    {
      && (forall k :: k in entries ==> entries[k] in Repr && entries[k].id == k)
      && view.Keys == entries.Keys
      && (forall k :: k in entries ==> view[k] == entries[k].Value())
    }

    constructor ()
      ensures Valid() && view == map[]
    {
      entries := map[];
      Repr := {};
      view := map[];
    }

    /** `UpdatePlaylistCache`: a playlist not yet cached gets a new entry (flag
        true); a cached one has its snapshot and tracks overwritten and its flag
        set to true. No other entry changes. */
    method UpdatePlaylistCache(playlist: SimplePlaylist, tracks: seq<FullTrack>)
      requires Valid()
      modifies this, Repr
      ensures Valid()
      ensures view == Refresh(old(view), playlist, ToItems(tracks))
      ensures fresh(Repr - old(Repr))
    {
      var items := ToItems(tracks);
      if playlist.id !in entries {
        InsertEntry(playlist, items);
      } else {
        OverwriteEntry(playlist, items);
      }
    }

    /** The branch of `UpdatePlaylistCache` for a playlist not yet cached: a new
        entry goes in under the playlist's id. */
    method InsertEntry(playlist: SimplePlaylist, items: seq<TrackItem>)
      requires Valid() && playlist.id !in entries
      modifies this
      ensures Valid()
      ensures view == old(view)[playlist.id := Entry(playlist.name, playlist.id, playlist.snapshotId, items, true)]
      ensures fresh(Repr - old(Repr))
    {
      var item := new PlaylistItem(playlist, items);
      entries := entries[playlist.id := item];
      Repr := Repr + {item};
      view := view[playlist.id := item.Value()];
    }

    /** The branch of `UpdatePlaylistCache` for a cached playlist: its entry's
        snapshot and tracks are overwritten in place and its flag set. */
    method OverwriteEntry(playlist: SimplePlaylist, items: seq<TrackItem>)
      requires Valid() && playlist.id in entries
      modifies this, entries[playlist.id]
      ensures Valid() && Repr == old(Repr)
      ensures view == old(view)[playlist.id := old(view)[playlist.id].(
        snapshotId := playlist.snapshotId, tracks := items, containsTracksToDownload := true)]
    {
      var item := entries[playlist.id];
      item.snapshotId := playlist.snapshotId;
      item.tracks := items;
      item.containsTracksToDownload := true;
      view := view[playlist.id := item.Value()];
    }

    /** `AddTrackToPlaylistCache`: after a track was appended remotely, the entry
        takes the new snapshot, gains exactly that track at the end and has its
        flag set to true. No other entry changes. */
    method AddTrackToPlaylistCache(playlistId: string, snapshotId: Snapshot, track: FullTrack)
      requires Valid() && playlistId in entries
      modifies this, entries[playlistId]
      ensures Valid() && Repr == old(Repr)
      ensures view == old(view)[playlistId := old(view)[playlistId].(
        snapshotId := snapshotId,
        tracks := old(view)[playlistId].tracks + [FromFullTrack(track)],
        containsTracksToDownload := true)]
    {
      var item := entries[playlistId];
      item.snapshotId := snapshotId;
      item.tracks := item.tracks + [FromFullTrack(track)];
      item.containsTracksToDownload := true;
      view := view[playlistId := item.Value()];
    }

    /** One turn of the loop below: the entry's flag becomes false. */
    method ClearFlag(k: string)
      requires Valid() && k in entries
      modifies this, entries[k]
      ensures Valid() && Repr == old(Repr) && entries == old(entries)
      ensures view == old(view)[k := old(view)[k].(containsTracksToDownload := false)]
    {
      var item := entries[k];
      item.containsTracksToDownload := false;
      view := view[k := item.Value()];
    }

    /** The loop at Application.cs:131-132: every entry's flag becomes false and
        nothing else changes. */
    method ClearDownloadFlags()
      requires Valid()
      modifies this, Repr
      ensures Valid() && Repr == old(Repr)
      ensures view == Cleared(old(view))
    {
      var rest := entries.Keys;
      while rest != {}
        invariant Valid() && Repr == old(Repr) && entries == old(entries)
        invariant rest <= entries.Keys
        invariant ClearedOutside(old(view), view, rest)
        decreases |rest|
      {
        var k :| k in rest;
        ghost var before := view;
        ClearFlag(k);
        ClearedStep(old(view), before, rest, k);
        rest := rest - {k};
      }
      ClearedAll(old(view), view);
    }
  }
}
