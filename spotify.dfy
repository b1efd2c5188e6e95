/** The remote music service client (Spotify.cs): chunked playlist mutations,
    paged listings and the playback commands, over an abstract model of the
    service's state and a log of the mutating calls it receives. */
module Remote {
  import opened Wrappers
  import opened Collections
  import opened Tracks
  import opened Paging
  import opened Errors

  /** A playlist on the service: its item URIs in order and its change token. */
  datatype RemotePlaylist = RemotePlaylist(uris: seq<string>, snapshotId: Snapshot)

  /** An entry of the saved-tracks library; the listing unwraps its track. */
  datatype SavedTrack = SavedTrack(track: FullTrack)

  /** A playback device. */
  datatype Device = Device(id: string, name: string)

  /** The current playback state, when there is one. */
  datatype Playback = Playback(isPlaying: bool)

  /** What the currently-playing endpoint reports. */
  datatype NowPlaying = NothingPlaying | NotATrack | PlayingTrack(track: FullTrack)

  /** A mutating request sent to the service. */
  datatype Call =
    | AddItems(playlistId: string, uris: seq<string>)
    | RemoveItems(playlistId: string, uris: seq<string>)
    | SaveTracks(ids: seq<string>)
    | PausePlayback
    | ResumePlayback(deviceId: Option<string>, contextUri: Option<string>, trackUris: Option<seq<string>>)
    | TransferPlayback(deviceIds: seq<string>)
    | SetShuffle(state: bool)
    | SkipNext
    | SkipPrevious

  /** The value a listing keeps of each item it receives, in order. */
  function Keep<T, U>(s: seq<T>, keep: T -> Option<U>): (r: seq<U>)
    ensures |r| <= |s|
  {
    if s == [] then []
    else
      var rest := Keep(s[1..], keep);
      match keep(s[0])
      case None => rest
      case Some(u) => [u] + rest
  }

  /** A listing entry as the service reports it: a listed playlist carries the
      current change token of that playlist, so the listing shows every change
      made to it before it was requested. */
  function Live(playlists: map<string, RemotePlaylist>): Option<SimplePlaylist> -> Option<SimplePlaylist> {
    (p: Option<SimplePlaylist>) =>
      if p.Some? && p.value.id in playlists then Some(p.value.(snapshotId := playlists[p.value.id].snapshotId))
      else p
  }

  /** Every playlist the listing reports comes from a non-null entry, with that
      entry's id, name, owner and collaborative flag, and with the current token
      of its playlist whenever the service holds it. */
  lemma {:induction false} LiveListing(entries: seq<Option<SimplePlaylist>>, playlists: map<string, RemotePlaylist>)
    ensures forall p :: p in Keep(entries, Live(playlists)) ==>
      exists i :: (0 <= i < |entries| && entries[i].Some?
        && p.id == entries[i].value.id && p.name == entries[i].value.name
        && p.ownerId == entries[i].value.ownerId && p.collaborative == entries[i].value.collaborative
        && (p.id in playlists ==> p.snapshotId == playlists[p.id].snapshotId))
  {
    if entries != [] {
      var rest := entries[1..];
      LiveListing(rest, playlists);
      forall p | p in Keep(entries, Live(playlists))
        ensures exists i :: (0 <= i < |entries| && entries[i].Some?
          && p.id == entries[i].value.id && p.name == entries[i].value.name
          && p.ownerId == entries[i].value.ownerId && p.collaborative == entries[i].value.collaborative
          && (p.id in playlists ==> p.snapshotId == playlists[p.id].snapshotId))
      {
        if p in Keep(rest, Live(playlists)) {
          var i :| 0 <= i < |rest| && rest[i].Some?
            && p.id == rest[i].value.id && p.name == rest[i].value.name
            && p.ownerId == rest[i].value.ownerId && p.collaborative == rest[i].value.collaborative
            && (p.id in playlists ==> p.snapshotId == playlists[p.id].snapshotId);
          assert entries[i + 1] == rest[i];
        } else {
          assert entries[0].Some? && p == Live(playlists)(entries[0]).value;
        }
      }
    }
  }

  /** The add requests for a sequence of chunks, one per chunk, in order. */
  function AddCalls(playlistId: string, chunks: seq<seq<string>>): seq<Call>
  {
    if chunks == [] then [] else [AddItems(playlistId, chunks[0])] + AddCalls(playlistId, chunks[1..])
  }

  /** Add request k carries chunk k. */
  lemma {:induction false} AddCallsAt(playlistId: string, chunks: seq<seq<string>>)
    ensures |AddCalls(playlistId, chunks)| == |chunks|
    ensures forall k :: 0 <= k < |chunks| ==> AddCalls(playlistId, chunks)[k] == AddItems(playlistId, chunks[k])
  {
    if chunks != [] {
      AddCallsAt(playlistId, chunks[1..]);
    }
  }

  /** The remove requests for a sequence of chunks, one per chunk, in order. */
  function RemoveCalls(playlistId: string, chunks: seq<seq<string>>): seq<Call>
  {
    if chunks == [] then [] else [RemoveItems(playlistId, chunks[0])] + RemoveCalls(playlistId, chunks[1..])
  }

  /** Remove request k carries chunk k. */
  lemma {:induction false} RemoveCallsAt(playlistId: string, chunks: seq<seq<string>>)
    ensures |RemoveCalls(playlistId, chunks)| == |chunks|
    ensures forall k :: 0 <= k < |chunks| ==> RemoveCalls(playlistId, chunks)[k] == RemoveItems(playlistId, chunks[k])
  {
    if chunks != [] {
      RemoveCallsAt(playlistId, chunks[1..]);
    }
  }

  /** The last device whose name is exactly `name`. */
  function LastNamed(devices: seq<Device>, name: string): Option<Device> {
    if devices == [] then None
    else
      var last := devices[|devices| - 1];
      if last.name == name then Some(last) else LastNamed(devices[..|devices| - 1], name)
  }

  /** `LastNamed` finds a device with that name, with no later one of that name,
      and finds nothing exactly when no device has that name. */
  lemma {:induction false} LastNamedFinds(devices: seq<Device>, name: string)
    ensures LastNamed(devices, name).None? <==> forall i :: 0 <= i < |devices| ==> devices[i].name != name
    ensures LastNamed(devices, name).Some? ==>
      exists i :: 0 <= i < |devices| && devices[i] == LastNamed(devices, name).value
        && devices[i].name == name
        && forall j :: i < j < |devices| ==> devices[j].name != name
    decreases |devices|
  {
    if devices != [] {
      var n := |devices| - 1;
      if devices[n].name != name {
        var init := devices[..n];
        LastNamedFinds(init, name);
        assert forall i :: 0 <= i < n ==> init[i] == devices[i];
      }
    }
  }

  /** The resume request `StartPlayback` sends on device `deviceId`: a single
      URI goes as the context to play, any other list as the tracks to play. */
  function ResumeOn(deviceId: string, contextUris: seq<string>): (r: Call)
    ensures r.ResumePlayback? && r.deviceId == Some(deviceId)
    ensures |contextUris| == 1 ==> r.contextUri == Some(contextUris[0]) && r.trackUris == None
    ensures |contextUris| != 1 ==> r.contextUri == None && r.trackUris == Some(contextUris)
  {
    if |contextUris| == 1 then ResumePlayback(Some(deviceId), Some(contextUris[0]), None)
    else ResumePlayback(Some(deviceId), None, Some(contextUris))
  }

  /** The requests `StartPlayback` sends once it has found the device: a pause
      when something is playing, then transfer, shuffle on and resume. */
  function StartCalls(device: Device, playing: bool, contextUris: seq<string>): (r: seq<Call>)
    ensures |r| == if playing then 4 else 3
    ensures playing <==> r[0] == PausePlayback
    ensures r[|r| - 3] == TransferPlayback([device.id])
    ensures r[|r| - 2] == SetShuffle(true)
    ensures r[|r| - 1] == ResumeOn(device.id, contextUris)
  {
    (if playing then [PausePlayback] else [])
      + [TransferPlayback([device.id]), SetShuffle(true), ResumeOn(device.id, contextUris)]
  }

  /** The service client together with the state of the service it talks to. */
  class Spotify {
    const savedTracksGetLimit: nat
    const playlistAddTrackLimit: nat
    const playlistGetLimit: nat
    const playlistRemoveTrackLimit: nat
    const playlistTrackGetLimit: nat

    /** The id of the signed-in user. */
    var userId: string
    /** The current user's playlist listing; the service may report null
        entries. The token a listed playlist reports is its current one (`Live`). */
    var userPlaylists: seq<Option<SimplePlaylist>>
    /** The saved-tracks library. */
    var savedTracks: seq<SavedTrack>
    /** Every playlist, by id. */
    var playlists: map<string, RemotePlaylist>
    /** The items a URI names that are full tracks; any other URI (an episode) is absent. */
    var catalog: map<string, FullTrack>
    var devices: seq<Device>
    var playback: Option<Playback>
    var nowPlaying: NowPlaying
    /** Every mutating request sent so far, oldest first. */
    var calls: seq<Call>

    /** The configured page and chunk sizes are positive. */
    predicate Valid() {
      savedTracksGetLimit > 0 && playlistAddTrackLimit > 0 && playlistGetLimit > 0
      && playlistRemoveTrackLimit > 0 && playlistTrackGetLimit > 0
    }

    constructor(savedTracksGetLimit: nat, playlistAddTrackLimit: nat, playlistGetLimit: nat,
                playlistRemoveTrackLimit: nat, playlistTrackGetLimit: nat,
                userId: string, userPlaylists: seq<Option<SimplePlaylist>>, savedTracks: seq<SavedTrack>,
                playlists: map<string, RemotePlaylist>, catalog: map<string, FullTrack>,
                devices: seq<Device>, playback: Option<Playback>, nowPlaying: NowPlaying)
      requires savedTracksGetLimit > 0 && playlistAddTrackLimit > 0 && playlistGetLimit > 0
      requires playlistRemoveTrackLimit > 0 && playlistTrackGetLimit > 0
      ensures Valid()
      ensures this.savedTracksGetLimit == savedTracksGetLimit
      ensures this.playlistAddTrackLimit == playlistAddTrackLimit
      ensures this.playlistGetLimit == playlistGetLimit
      ensures this.playlistRemoveTrackLimit == playlistRemoveTrackLimit
      ensures this.playlistTrackGetLimit == playlistTrackGetLimit
      ensures this.userId == userId && this.userPlaylists == userPlaylists
      ensures this.savedTracks == savedTracks && this.playlists == playlists && this.catalog == catalog
      ensures this.devices == devices && this.playback == playback && this.nowPlaying == nowPlaying
      ensures this.calls == []
    {
      this.savedTracksGetLimit := savedTracksGetLimit;
      this.playlistAddTrackLimit := playlistAddTrackLimit;
      this.playlistGetLimit := playlistGetLimit;
      this.playlistRemoveTrackLimit := playlistRemoveTrackLimit;
      this.playlistTrackGetLimit := playlistTrackGetLimit;
      this.userId := userId;
      this.userPlaylists := userPlaylists;
      this.savedTracks := savedTracks;
      this.playlists := playlists;
      this.catalog := catalog;
      this.devices := devices;
      this.playback := playback;
      this.nowPlaying := nowPlaying;
      calls := [];
    }

    /** `GetCurrentUsersPlaylists`: every non-null playlist of the listing, in
        order, each with its current change token. */
    method GetCurrentUsersPlaylists() returns (r: seq<SimplePlaylist>, requested: seq<nat>)
      requires Valid()
      ensures r == Keep(userPlaylists, Live(playlists))
      ensures requested == Requests(|userPlaylists|, playlistGetLimit)
    {
      r, requested := WalkPages(userPlaylists, playlistGetLimit, Live(playlists));
    }

    /** `GetCurrentUserSavedTracks`: the track of every saved entry, in order. */
    method GetCurrentUserSavedTracks() returns (r: seq<FullTrack>, requested: seq<nat>)
      requires Valid()
      ensures r == Keep(savedTracks, (s: SavedTrack) => Some(s.track))
      ensures |r| == |savedTracks| && forall i :: 0 <= i < |r| ==> r[i] == savedTracks[i].track
      ensures requested == Requests(|savedTracks|, savedTracksGetLimit)
    {
      r, requested := WalkPages(savedTracks, savedTracksGetLimit, (s: SavedTrack) => Some(s.track));
      KeepAll(savedTracks, (s: SavedTrack) => Some(s.track));
    }

    /** `GetPlaylistFullTracks`: the items of the playlist that are full tracks, in order. */
    method GetPlaylistFullTracks(playlistId: string) returns (r: seq<FullTrack>, requested: seq<nat>)
      requires Valid() && playlistId in playlists
      ensures r == PlaylistTracks(playlists, catalog, playlistId)
      ensures requested == Requests(|playlists[playlistId].uris|, playlistTrackGetLimit)
    {
      r, requested := WalkPages(playlists[playlistId].uris, playlistTrackGetLimit, FullTrackAt(catalog));
    }

    /** The page walk of a listing of `items`: an initial request whose response
        is page 0, then one request per further page, each page's items passed
        through `keep` in order. */
    static method WalkPages<T, U>(items: seq<T>, limit: nat, keep: T -> Option<U>)
      returns (r: seq<U>, requested: seq<nat>)
      requires limit > 0
      ensures r == Keep(items, keep)
      ensures requested == Requests(|items|, limit)
    {
      r := [];
      requested := [0];
      var offset: nat := 0;
      while offset < |items|
        invariant Keep(items, keep) == r + Keep(items[Min(offset, |items|)..], keep)
        invariant requested + OffsetsFrom(if offset == 0 then limit else offset, |items|, limit) == Requests(|items|, limit)
        decreases |items| - offset
      {
        r, requested := FetchPage(items, limit, keep, offset, r, requested);
        offset := offset + limit;
      }
    }

    /** One turn of the page walk at `offset`: the request for that page (the
        initial one already covers offset 0), then its items passed through
        `keep` after those kept so far. */
    static method FetchPage<T, U>(items: seq<T>, limit: nat, keep: T -> Option<U>, offset: nat,
                                  r: seq<U>, requested: seq<nat>)
      returns (r': seq<U>, requested': seq<nat>)
      requires limit > 0 && offset < |items|
      requires Keep(items, keep) == r + Keep(items[offset..], keep)
      requires requested + OffsetsFrom(if offset == 0 then limit else offset, |items|, limit) == Requests(|items|, limit)
      ensures Keep(items, keep) == r' + Keep(items[Min(offset + limit, |items|)..], keep)
      ensures requested' + OffsetsFrom(offset + limit, |items|, limit) == Requests(|items|, limit)
    {
      requested' := requested;
      if offset != 0 {
        requested' := requested + [offset];
      }
      RequestTurn(requested, offset, |items|, limit);
      var end := Min(offset + limit, |items|);
      var page := items[offset..end];
      var kept := KeepPage(page, keep);
      KeepTurn(items, keep, offset, end, r);
      r' := r + kept;
    }

    /** The loop over one page's items: each item passed through `keep`, in order. */
    static method KeepPage<T, U>(page: seq<T>, keep: T -> Option<U>) returns (r: seq<U>)
      ensures r == Keep(page, keep)
    {
      r := [];
      for j := 0 to |page|
        invariant Keep(page, keep) == r + Keep(page[j..], keep)
      {
        assert page[j..][1..] == page[j + 1..];
        match keep(page[j])
        case None =>
        case Some(u) => r := r + [u];
      }
    }

    /** `AddToPlaylist`: the URIs are sent in chunks of at most
        `playlistAddTrackLimit`, in order; the result is the change token of the
        last chunk's response, and nothing when there was nothing to send. */
    method AddToPlaylist(playlistId: string, trackUris: seq<string>) returns (r: Option<Snapshot>)
      requires Valid() && playlistId in playlists
      modifies this`playlists, this`calls
      ensures playlists.Keys == old(playlists).Keys
      ensures calls == old(calls) + AddCalls(playlistId, Chunks(trackUris, playlistAddTrackLimit))
      ensures playlists == old(playlists)[playlistId := RemotePlaylist(
        old(playlists)[playlistId].uris + trackUris,
        old(playlists)[playlistId].snapshotId + |Chunks(trackUris, playlistAddTrackLimit)|)]
      ensures r.None? <==> trackUris == []
      ensures r.Some? ==> r.value == playlists[playlistId].snapshotId
    {
      var total := |trackUris|;
      r := None;
      var i := 0;
      ghost var sent: seq<seq<string>> := [];
      ghost var start := old(playlists)[playlistId];
      assert start.uris + Flatten(sent) == start.uris;
      assert old(playlists)[playlistId := start] == old(playlists);
      while i < total
        invariant Chunks(trackUris, playlistAddTrackLimit) == sent + ChunksFrom(trackUris, i, playlistAddTrackLimit)
        invariant calls == old(calls) + AddCalls(playlistId, sent)
        invariant playlists == AddedAfter(old(playlists), playlistId, start, sent)
        invariant r.None? <==> i == 0
        invariant i > 0 ==> total > 0
        invariant r.Some? ==> r.value == playlists[playlistId].snapshotId
        decreases total - i
      {
        var snapshot;
        snapshot, sent := AddChunkAt(playlistId, trackUris, i, sent, start, old(playlists), old(calls));
        r := Some(snapshot);
        i := i + playlistAddTrackLimit;
      }
      assert sent == Chunks(trackUris, playlistAddTrackLimit);
      ChunksCover(trackUris, playlistAddTrackLimit);
    }

    /** One turn of the loop of `AddToPlaylist`: the chunk at offset `i` goes out
        in one add request. It holds `playlistAddTrackLimit` URIs, or the
        `total - i` left when fewer remain, so it ends at `min(i + limit, total)`. `sent` holds
        the chunks already sent, `start`, `playlists0` and `calls0` the state
        before the first. */
    method AddChunkAt(playlistId: string, trackUris: seq<string>, i: nat, ghost sent: seq<seq<string>>,
                      ghost start: RemotePlaylist, ghost playlists0: map<string, RemotePlaylist>, ghost calls0: seq<Call>)
      returns (snapshot: Snapshot, ghost sent': seq<seq<string>>)
      requires Valid() && i < |trackUris| && playlistId in playlists0
      requires Chunks(trackUris, playlistAddTrackLimit) == sent + ChunksFrom(trackUris, i, playlistAddTrackLimit)
      requires calls == calls0 + AddCalls(playlistId, sent)
      requires playlists == AddedAfter(playlists0, playlistId, start, sent)
      modifies this`playlists, this`calls
      ensures Chunks(trackUris, playlistAddTrackLimit) == sent' + ChunksFrom(trackUris, i + playlistAddTrackLimit, playlistAddTrackLimit)
      ensures calls == calls0 + AddCalls(playlistId, sent')
      ensures playlists == AddedAfter(playlists0, playlistId, start, sent')
      ensures snapshot == playlists[playlistId].snapshotId
    {
      var end := Min(i + playlistAddTrackLimit, |trackUris|);
      var range := trackUris[i..end];
      ChunkLoopStep(trackUris, playlistAddTrackLimit, i, sent, range);
      AddTurn(playlists0, calls0, playlistId, start, sent, range);
      sent' := sent + [range];
      snapshot := AddItemsCall(playlistId, range);
    }

    /** One add request: the URIs go to the end of the playlist, in order, and
        the response carries the playlist's new change token. */
    method AddItemsCall(playlistId: string, uris: seq<string>) returns (r: Snapshot)
      requires playlistId in playlists
      modifies this`playlists, this`calls
      ensures playlists == AddedOnce(old(playlists), playlistId, uris)
      ensures calls == old(calls) + [AddItems(playlistId, uris)]
      ensures r == playlists[playlistId].snapshotId
    {
      var p := playlists[playlistId];
      playlists := playlists[playlistId := RemotePlaylist(p.uris + uris, p.snapshotId + 1)];
      calls := calls + [AddItems(playlistId, uris)];
      r := p.snapshotId + 1;
    }

    /** `RemoveFromPlaylist`: the URIs are sent in chunks `[i, min(i + limit, n))`,
        in order; every occurrence of every one of them leaves the playlist. */
    method RemoveFromPlaylist(playlistId: string, trackUris: seq<string>)
      requires Valid() && playlistId in playlists
      modifies this`playlists, this`calls
      ensures playlists.Keys == old(playlists).Keys
      ensures calls == old(calls) + RemoveCalls(playlistId, Chunks(trackUris, playlistRemoveTrackLimit))
      ensures playlists == old(playlists)[playlistId := RemotePlaylist(
        RemoveAll(old(playlists)[playlistId].uris, Elements(trackUris)),
        old(playlists)[playlistId].snapshotId + |Chunks(trackUris, playlistRemoveTrackLimit)|)]
    {
      var i := 0;
      ghost var sent: seq<seq<string>> := [];
      ghost var start := old(playlists)[playlistId];
      assert Elements(Flatten(sent)) == {};
      RemoveAllNothing(start.uris);
      assert old(playlists)[playlistId := start] == old(playlists);
      while i < |trackUris|
        invariant Chunks(trackUris, playlistRemoveTrackLimit) == sent + ChunksFrom(trackUris, i, playlistRemoveTrackLimit)
        invariant calls == old(calls) + RemoveCalls(playlistId, sent)
        invariant playlists == RemovedAfter(old(playlists), playlistId, start, sent)
        decreases |trackUris| - i
      {
        sent := RemoveChunkAt(playlistId, trackUris, i, sent, start, old(playlists), old(calls));
        i := i + playlistRemoveTrackLimit;
      }
      assert sent == Chunks(trackUris, playlistRemoveTrackLimit);
      ChunksCover(trackUris, playlistRemoveTrackLimit);
    }

    /** One turn of the loop of `RemoveFromPlaylist`: the URIs `[i, min(i + limit, n))`
        are collected one by one and go out in one remove request. `sent` holds
        the chunks already sent, `start`, `playlists0` and `calls0` the state
        before the first. */
    method RemoveChunkAt(playlistId: string, trackUris: seq<string>, i: nat, ghost sent: seq<seq<string>>,
                         ghost start: RemotePlaylist, ghost playlists0: map<string, RemotePlaylist>, ghost calls0: seq<Call>)
      returns (ghost sent': seq<seq<string>>)
      requires Valid() && i < |trackUris| && playlistId in playlists0
      requires Chunks(trackUris, playlistRemoveTrackLimit) == sent + ChunksFrom(trackUris, i, playlistRemoveTrackLimit)
      requires calls == calls0 + RemoveCalls(playlistId, sent)
      requires playlists == RemovedAfter(playlists0, playlistId, start, sent)
      modifies this`playlists, this`calls
      ensures Chunks(trackUris, playlistRemoveTrackLimit) == sent' + ChunksFrom(trackUris, i + playlistRemoveTrackLimit, playlistRemoveTrackLimit)
      ensures calls == calls0 + RemoveCalls(playlistId, sent')
      ensures playlists == RemovedAfter(playlists0, playlistId, start, sent')
    {
      var end := Min(i + playlistRemoveTrackLimit, |trackUris|);
      var items := CollectChunk(trackUris, i, end);
      ChunkLoopStep(trackUris, playlistRemoveTrackLimit, i, sent, items);
      RemoveTurn(playlists0, calls0, playlistId, start, sent, items);
      RemoveItemsCall(playlistId, items);
      sent' := sent + [items];
    }

    /** The inner loop of `RemoveFromPlaylist`: the URIs `[start, end)`, one by one. */
    static method CollectChunk(trackUris: seq<string>, start: nat, end: nat) returns (items: seq<string>)
      requires start <= end <= |trackUris|
      ensures items == trackUris[start..end]
    {
      items := [];
      for j := start to end
        invariant items == trackUris[start..j]
      {
        items := items + [trackUris[j]];
      }
    }

    /** One remove request: every occurrence of the given URIs leaves the
        playlist and its change token moves on. */
    method RemoveItemsCall(playlistId: string, uris: seq<string>)
      requires playlistId in playlists
      modifies this`playlists, this`calls
      ensures playlists == RemovedOnce(old(playlists), playlistId, uris)
      ensures calls == old(calls) + [RemoveItems(playlistId, uris)]
    {
      var p := playlists[playlistId];
      playlists := playlists[playlistId := RemotePlaylist(RemoveAll(p.uris, Elements(uris)), p.snapshotId + 1)];
      calls := calls + [RemoveItems(playlistId, uris)];
    }

    /** `SaveTrack`: one request saving the given ids; the library then holds
        their tracks (`SaveIds`). */
    method SaveTrack(trackIds: seq<string>)
      modifies this`calls, this`savedTracks
      ensures calls == old(calls) + [SaveTracks(trackIds)]
      ensures savedTracks == SaveIds(old(savedTracks), trackIds, catalog)
    {
      calls := calls + [SaveTracks(trackIds)];
      savedTracks := SaveIds(savedTracks, trackIds, catalog);
    }

    /** `Next`: one skip-next request. */
    method Next()
      modifies this`calls
      ensures calls == old(calls) + [SkipNext]
    {
      calls := calls + [SkipNext];
    }

    /** `Previous`: one skip-previous request. */
    method Previous()
      modifies this`calls
      ensures calls == old(calls) + [SkipPrevious]
    {
      calls := calls + [SkipPrevious];
    }

    /** `TogglePlay`: pauses and answers "paused" exactly when playback was
        playing, otherwise resumes and answers "resumed"; with no playback
        state at all the source dereferences null, an error here. */
    method TogglePlay() returns (r: Result<string, Error>)
      modifies this`calls, this`playback
      ensures old(playback).None? ==> r == Err(NoPlayback) && calls == old(calls) && playback == old(playback)
      ensures old(playback).Some? && old(playback).value.isPlaying ==>
        r == Ok("paused") && calls == old(calls) + [PausePlayback] && playback == Some(Playback(false))
      ensures old(playback).Some? && !old(playback).value.isPlaying ==>
        r == Ok("resumed") && calls == old(calls) + [ResumePlayback(None, None, None)]
        && playback == Some(Playback(true))
    {
      if playback.None? {
        return Err(NoPlayback);
      }
      if playback.value.isPlaying {
        calls := calls + [PausePlayback];
        playback := Some(Playback(false));
        r := Ok("paused");
      } else {
        calls := calls + [ResumePlayback(None, None, None)];
        playback := Some(Playback(true));
        r := Ok("resumed");
      }
    }

    /** The device loop of `StartPlayback`: the last device with exactly that name. */
    method FindDevice(deviceName: string) returns (r: Option<Device>)
      ensures r == LastNamed(devices, deviceName)
    {
      r := None;
      for i := 0 to |devices|
        invariant r == LastNamed(devices[..i], deviceName)
      {
        assert devices[..i + 1][..i] == devices[..i];
        if devices[i].name == deviceName {
          r := Some(devices[i]);
        }
      }
      assert devices[..|devices|] == devices;
    }

    /** `StartPlayback`: with no device of that name nothing is sent; otherwise
        a pause if something is playing, then transfer to the device, shuffle
        on and resume there with the given URIs. */
    method StartPlayback(deviceName: string, contextUris: seq<string>)
      modifies this`calls, this`playback
      ensures LastNamed(devices, deviceName).None? ==> calls == old(calls) && playback == old(playback)
      ensures LastNamed(devices, deviceName).Some? ==>
        calls == old(calls) + StartCalls(LastNamed(devices, deviceName).value,
                                         old(playback).Some? && old(playback).value.isPlaying, contextUris)
        && playback == Some(Playback(true))
    {
      var device := FindDevice(deviceName);
      if device.None? {
        return;
      }
      var d := device.value;
      var playing := playback.Some? && playback.value.isPlaying;
      if playing {
        calls := calls + [PausePlayback];
      }
      calls := calls + [TransferPlayback([d.id])];
      calls := calls + [SetShuffle(true)];
      calls := calls + [ResumeOn(d.id, contextUris)];
      playback := Some(Playback(true));
    }
  }

  /** The full tracks of a playlist, in order; items that are not full tracks are dropped. */
  function PlaylistTracks(playlists: map<string, RemotePlaylist>, catalog: map<string, FullTrack>, playlistId: string): seq<FullTrack>
    requires playlistId in playlists
  {
    Keep(playlists[playlistId].uris, FullTrackAt(catalog))
  }

  /** The full track a playlist item's URI names, if it is one. */
  function FullTrackAt(catalog: map<string, FullTrack>): string -> Option<FullTrack> {
    (u: string) => if u in catalog then Some(catalog[u]) else None
  }

  /** The URI of the track with id `id`. */
  function TrackUri(id: string): string {
    "spotify:track:" + id
  }

  /** The library once the track with id `id` was saved: a track the catalog
      knows and the library lacks goes to its front; otherwise nothing changes. */
  function SaveId(saved: seq<SavedTrack>, id: string, catalog: map<string, FullTrack>): seq<SavedTrack> {
    if TrackUri(id) in catalog && forall s :: s in saved ==> s.track.id != id then [SavedTrack(catalog[TrackUri(id)])] + saved
    else saved
  }

  /** The library once the tracks with ids `ids` were saved in turn. */
  function SaveIds(saved: seq<SavedTrack>, ids: seq<string>, catalog: map<string, FullTrack>): seq<SavedTrack>
    decreases |ids|
  {
    if ids == [] then saved else SaveIds(SaveId(saved, ids[0], catalog), ids[1..], catalog)
  }

  /** Saving keeps every saved track, adds only catalog tracks of the ids, and
      afterwards the library has a track with each id whose catalog entry
      carries it. */
  lemma {:induction false} SaveIdsSaves(saved: seq<SavedTrack>, ids: seq<string>, catalog: map<string, FullTrack>)
    ensures forall s :: s in saved ==> s in SaveIds(saved, ids, catalog)
    ensures forall s :: s in SaveIds(saved, ids, catalog) ==>
      s in saved || exists id :: id in ids && TrackUri(id) in catalog && s == SavedTrack(catalog[TrackUri(id)])
    ensures forall id :: id in ids && TrackUri(id) in catalog && catalog[TrackUri(id)].id == id ==>
      exists s :: s in SaveIds(saved, ids, catalog) && s.track.id == id
    decreases |ids|
  {
    if ids != [] {
      var first := SaveId(saved, ids[0], catalog);
      var r := SaveIds(saved, ids, catalog);
      SaveIdsSaves(first, ids[1..], catalog);
      assert r == SaveIds(first, ids[1..], catalog);
      forall s | s in r
        ensures s in saved || exists id :: id in ids && TrackUri(id) in catalog && s == SavedTrack(catalog[TrackUri(id)])
      {
        if s !in first {
          var id :| id in ids[1..] && TrackUri(id) in catalog && s == SavedTrack(catalog[TrackUri(id)]);
          assert id in ids;
        } else if s !in saved {
          assert s == SavedTrack(catalog[TrackUri(ids[0])]);
        }
      }
      forall id | id in ids && TrackUri(id) in catalog && catalog[TrackUri(id)].id == id
        ensures exists s :: s in r && s.track.id == id
      {
        if id == ids[0] {
          var s :| s in first && s.track.id == id;
          assert s in r;
        } else {
          assert id in ids[1..];
        }
      }
    }
  }

  /** Keeping from two lists one after the other is keeping from their concatenation. */
  lemma {:induction false} KeepAppend<T, U>(a: seq<T>, b: seq<T>, keep: T -> Option<U>)
    ensures Keep(a + b, keep) == Keep(a, keep) + Keep(b, keep)
  {
    if a != [] {
      assert (a + b)[0] == a[0];
      assert (a + b)[1..] == a[1..] + b;
      KeepAppend(a[1..], b, keep);
      match keep(a[0])
      case None =>
        assert Keep(a + b, keep) == Keep(a[1..] + b, keep);
      case Some(u) =>
        assert Keep(a + b, keep) == [u] + Keep(a[1..] + b, keep);
    } else {
      assert a + b == b;
    }
  }

  /** A listing that keeps every item keeps them all, one for one. */
  lemma {:induction false} KeepAll<T, U>(s: seq<T>, f: T -> Option<U>)
    requires forall i :: 0 <= i < |s| ==> f(s[i]).Some?
    ensures |Keep(s, f)| == |s|
    ensures forall i :: 0 <= i < |s| ==> Keep(s, f)[i] == f(s[i]).value
  {
    if s != [] {
      assert forall i :: 1 <= i < |s| ==> s[1..][i - 1] == s[i];
      KeepAll(s[1..], f);
    }
  }

  /** One more chunk sent is one more add request at the end of the log. */
  lemma {:induction false} AddCallsAppend(playlistId: string, a: seq<seq<string>>, c: seq<string>)
    ensures AddCalls(playlistId, a + [c]) == AddCalls(playlistId, a) + [AddItems(playlistId, c)]
  {
    if a == [] {
      assert a + [c] == [c];
    } else {
      assert (a + [c])[1..] == a[1..] + [c];
      AddCallsAppend(playlistId, a[1..], c);
    }
  }

  /** One more chunk sent is one more remove request at the end of the log. */
  lemma {:induction false} RemoveCallsAppend(playlistId: string, a: seq<seq<string>>, c: seq<string>)
    ensures RemoveCalls(playlistId, a + [c]) == RemoveCalls(playlistId, a) + [RemoveItems(playlistId, c)]
  {
    if a == [] {
      assert a + [c] == [c];
    } else {
      assert (a + [c])[1..] == a[1..] + [c];
      RemoveCallsAppend(playlistId, a[1..], c);
    }
  }

  /** Appending the URIs of the chunks sent so far and then those of one more
      chunk is appending the URIs of all of them. */
  lemma AppendSnoc<T>(u: seq<T>, sent: seq<seq<T>>, c: seq<T>)
    ensures u + Flatten(sent) + c == u + Flatten(sent + [c])
  {
    FlattenSnoc(sent, c);
    assert u + Flatten(sent) + c == u + (Flatten(sent) + c);
  }

  /** Taking out the URIs of the chunks sent so far and then those of one more
      chunk is taking out the URIs of all of them. */
  lemma RemoveSnoc<T>(u: seq<T>, sent: seq<seq<T>>, c: seq<T>)
    ensures RemoveAll(RemoveAll(u, Elements(Flatten(sent))), Elements(c)) == RemoveAll(u, Elements(Flatten(sent + [c])))
  {
    RemoveAllTwice(u, Elements(Flatten(sent)), Elements(c));
    FlattenSnoc(sent, c);
    ElementsConcat(Flatten(sent), c);
  }

  /** The playlists once the chunks `sent` went onto the end of playlist
      `playlistId`, which was `start` before the first. */
  function AddedAfter(playlists0: map<string, RemotePlaylist>, playlistId: string, start: RemotePlaylist,
                      sent: seq<seq<string>>): map<string, RemotePlaylist>
  {
    playlists0[playlistId := RemotePlaylist(start.uris + Flatten(sent), start.snapshotId + |sent|)]
  }

  /** The playlists once one add request for `uris` reached playlist `playlistId`. */
  function AddedOnce(playlists: map<string, RemotePlaylist>, playlistId: string, uris: seq<string>): map<string, RemotePlaylist>
    requires playlistId in playlists
  {
    playlists[playlistId := RemotePlaylist(playlists[playlistId].uris + uris, playlists[playlistId].snapshotId + 1)]
  }

  /** The state after the add requests for `sent`, then one more for `c`, is
      the state after the add requests for `sent + [c]`. */
  lemma AddTurn(playlists0: map<string, RemotePlaylist>, calls0: seq<Call>, playlistId: string,
                start: RemotePlaylist, sent: seq<seq<string>>, c: seq<string>)
    ensures AddedOnce(AddedAfter(playlists0, playlistId, start, sent), playlistId, c)
      == AddedAfter(playlists0, playlistId, start, sent + [c])
    ensures calls0 + AddCalls(playlistId, sent) + [AddItems(playlistId, c)] == calls0 + AddCalls(playlistId, sent + [c])
  {
    AddCallsAppend(playlistId, sent, c);
    AppendSnoc(start.uris, sent, c);
  }

  /** The playlists once the chunks `sent` left playlist `playlistId`, which
      was `start` before the first. */
  function RemovedAfter(playlists0: map<string, RemotePlaylist>, playlistId: string, start: RemotePlaylist,
                        sent: seq<seq<string>>): map<string, RemotePlaylist>
  {
    playlists0[playlistId := RemotePlaylist(RemoveAll(start.uris, Elements(Flatten(sent))), start.snapshotId + |sent|)]
  }

  /** The playlists once one remove request for `uris` reached playlist `playlistId`. */
  function RemovedOnce(playlists: map<string, RemotePlaylist>, playlistId: string, uris: seq<string>): map<string, RemotePlaylist>
    requires playlistId in playlists
  {
    playlists[playlistId := RemotePlaylist(RemoveAll(playlists[playlistId].uris, Elements(uris)), playlists[playlistId].snapshotId + 1)]
  }

  /** The state after the remove requests for `sent`, then one more for `c`, is
      the state after the remove requests for `sent + [c]`. */
  lemma RemoveTurn(playlists0: map<string, RemotePlaylist>, calls0: seq<Call>, playlistId: string,
                   start: RemotePlaylist, sent: seq<seq<string>>, c: seq<string>)
    ensures RemovedOnce(RemovedAfter(playlists0, playlistId, start, sent), playlistId, c)
      == RemovedAfter(playlists0, playlistId, start, sent + [c])
    ensures calls0 + RemoveCalls(playlistId, sent) + [RemoveItems(playlistId, c)] == calls0 + RemoveCalls(playlistId, sent + [c])
  {
    RemoveCallsAppend(playlistId, sent, c);
    RemoveSnoc(start.uris, sent, c);
  }

  /** One turn of the page walk's request log: the request for the page at
      `offset`, unless it is the initial one. */
  lemma RequestTurn(requested: seq<nat>, offset: nat, total: nat, limit: nat)
    requires limit > 0 && offset < total
    requires requested + OffsetsFrom(if offset == 0 then limit else offset, total, limit) == Requests(total, limit)
    ensures (if offset != 0 then requested + [offset] else requested) + OffsetsFrom(offset + limit, total, limit) == Requests(total, limit)
  {
    if offset != 0 {
      assert OffsetsFrom(offset, total, limit) == [offset] + OffsetsFrom(offset + limit, total, limit);
    }
  }

  /** The items from `offset` on, kept, are those of the page `[offset, end)`
      followed by those after it. */
  lemma KeepSplit<T, U>(items: seq<T>, keep: T -> Option<U>, offset: nat, end: nat)
    requires offset <= end <= |items|
    ensures Keep(items[offset..], keep) == Keep(items[offset..end], keep) + Keep(items[end..], keep)
  {
    assert items[offset..] == items[offset..end] + items[end..];
    KeepAppend(items[offset..end], items[end..], keep);
  }

  /** One turn of the page walk's items: the page `[offset, end)` kept after
      what was kept before it. */
  lemma KeepTurn<T, U>(items: seq<T>, keep: T -> Option<U>, offset: nat, end: nat, r: seq<U>)
    requires offset <= end <= |items|
    requires Keep(items, keep) == r + Keep(items[offset..], keep)
    ensures Keep(items, keep) == (r + Keep(items[offset..end], keep)) + Keep(items[end..], keep)
  {
    KeepSplit(items, keep, offset, end);
  }
}
