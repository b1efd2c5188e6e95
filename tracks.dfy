/** The remote service's track and playlist records, and the `TrackItem` the
    application keeps of a track (TrackItem.cs). */
module Tracks {
  import opened Wrappers

  /** The remote service's opaque playlist change token; only compared for equality. */
  type Snapshot = nat

  /** A `SimpleArtist`; only its name is used. */
  datatype Artist = Artist(name: string)

  /** The `LinkedFrom` reference of a relinked track: the id the track is an alias of. */
  datatype LinkedTrack = LinkedTrack(id: string)

  /** A `FullTrack` as the remote service returns it. */
  datatype FullTrack = FullTrack(
    id: string,
    name: string,
    artists: seq<Artist>,
    isPlayable: bool,
    uri: string,
    linkedFrom: Option<LinkedTrack>)

  /** A `SimplePlaylist` from the current user's playlist listing. */
  datatype SimplePlaylist = SimplePlaylist(
    id: string,
    name: string,
    snapshotId: Snapshot,
    ownerId: string,
    collaborative: bool)

  /** The application's copy of a track (TrackItem.cs). */
  datatype TrackItem = TrackItem(
    id: string,
    name: string,
    artistNames: seq<string>,
    isPlayable: bool,
    uri: string,
    linkedTrack: Option<LinkedTrack>)

  /** `track.Artists.Select(a => a.Name)`. */
  function ArtistNames(artists: seq<Artist>): seq<string>
  {
    if artists == [] then [] else [artists[0].name] + ArtistNames(artists[1..])
  }

  /** The names come one per artist, in the artists' order. */
  lemma {:induction false} ArtistNamesAt(artists: seq<Artist>)
    ensures |ArtistNames(artists)| == |artists|
    ensures forall i :: 0 <= i < |artists| ==> ArtistNames(artists)[i] == artists[i].name
  {
    if artists != [] {
      ArtistNamesAt(artists[1..]);
    }
  }

  /** The `TrackItem(FullTrack)` constructor. */
  function FromFullTrack(t: FullTrack): TrackItem
  {
    TrackItem(t.id, t.name, ArtistNames(t.artists), t.isPlayable, t.uri, t.linkedFrom)
  }

  /** Every field is copied from the track, the artists reduced to their names
      in the same order. */
  lemma FromFullTrackCopies(t: FullTrack)
    ensures var r := FromFullTrack(t);
      && r.id == t.id && r.name == t.name && r.uri == t.uri
      && r.isPlayable == t.isPlayable && r.linkedTrack == t.linkedFrom
      && |r.artistNames| == |t.artists|
      && forall i :: 0 <= i < |t.artists| ==> r.artistNames[i] == t.artists[i].name
  {
    ArtistNamesAt(t.artists);
  }

  /** `tracks.Select(t => new TrackItem(t))`. */
  function ToItems(ts: seq<FullTrack>): seq<TrackItem>
  {
    if ts == [] then [] else [FromFullTrack(ts[0])] + ToItems(ts[1..])
  }

  /** Item i is built from track i. */
  lemma {:induction false} ToItemsAt(ts: seq<FullTrack>)
    ensures |ToItems(ts)| == |ts|
    ensures forall i :: 0 <= i < |ts| ==> ToItems(ts)[i] == FromFullTrack(ts[i])
  {
    if ts != [] {
      ToItemsAt(ts[1..]);
    }
  }

  /** Converting a concatenation converts the parts. */
  lemma {:induction false} ToItemsAppend(a: seq<FullTrack>, b: seq<FullTrack>)
    ensures ToItems(a + b) == ToItems(a) + ToItems(b)
  {
    if a == [] {
      assert a + b == b;
    } else {
      assert (a + b)[1..] == a[1..] + b;
      ToItemsAppend(a[1..], b);
    }
  }

  /** The ids of a list of tracks, in order (`tracks.Select(t => t.Id)`). */
  function Ids(ts: seq<FullTrack>): seq<string>
  {
    if ts == [] then [] else [ts[0].id] + Ids(ts[1..])
  }

  /** An id is among the ids exactly when some track carries it. */
  lemma {:induction false} IdsHas(ts: seq<FullTrack>)
    ensures forall id :: id in Ids(ts) <==> exists i :: 0 <= i < |ts| && ts[i].id == id
  {
    if ts != [] {
      IdsHas(ts[1..]);
      assert forall i :: 1 <= i < |ts| ==> ts[1..][i - 1] == ts[i];
    }
  }

  /** The ids of a list of track items, in order. */
  function ItemIds(ts: seq<TrackItem>): seq<string>
  {
    if ts == [] then [] else [ts[0].id] + ItemIds(ts[1..])
  }

  /** An id is among the item ids exactly when some item carries it. */
  lemma {:induction false} ItemIdsHas(ts: seq<TrackItem>)
    ensures forall id :: id in ItemIds(ts) <==> exists i :: 0 <= i < |ts| && ts[i].id == id
  {
    if ts != [] {
      ItemIdsHas(ts[1..]);
      assert forall i :: 1 <= i < |ts| ==> ts[1..][i - 1] == ts[i];
    }
  }
}
