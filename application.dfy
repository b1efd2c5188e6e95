/** The application's handlers (Application.cs): reconciling the music
    directories with the remote library through the download playlist, the
    currently-playing shortcuts and the player controls. The remote service,
    the playlist cache and the file system are the objects the handlers
    update in place. */
module App {
  import opened Wrappers
  import opened Collections
  import opened Text
  import opened Tracks
  import opened Files
  import opened Errors
  import opened Naming
  import opened Cache
  import opened Mp3Helper
  import opened Paging
  import opened Remote
  import opened Reconcile

  /** The playlists `GetCurrentUsersPlaylists` returns: the listing without its
      null entries, each with its playlist's current change token. */
  function Listing(userPlaylists: seq<Option<SimplePlaylist>>, playlists: map<string, RemotePlaylist>): seq<SimplePlaylist> {
    Keep(userPlaylists, Live(playlists))
  }

  /** The tracks `GetCurrentUserSavedTracks` returns. */
  function Saved(savedTracks: seq<SavedTrack>): seq<FullTrack> {
    Keep(savedTracks, (s: SavedTrack) => Some(s.track))
  }

  /** Every playlist named exists on the remote side. */
  predicate Known(ps: seq<SimplePlaylist>, playlists: map<string, RemotePlaylist>) {
    forall i :: 0 <= i < |ps| ==> ps[i].id in playlists
  }

  /** The tracks of the target playlists, one playlist after another. */
  function TargetTracks(targets: seq<SimplePlaylist>, playlists: map<string, RemotePlaylist>, catalog: map<string, FullTrack>): seq<FullTrack>
    requires Known(targets, playlists)
  {
    if targets == [] then []
    else
      TargetTracks(targets[..|targets| - 1], playlists, catalog)
      + PlaylistTracks(playlists, catalog, targets[|targets| - 1].id)
  }

  /** The cache after `UpdatePlaylistCache` on each target in turn, with its tracks. */
  function RefreshAll(view: map<string, Entry>, targets: seq<SimplePlaylist>, playlists: map<string, RemotePlaylist>, catalog: map<string, FullTrack>): map<string, Entry>
    requires Known(targets, playlists)
  {
    if targets == [] then view
    else
      var last := targets[|targets| - 1];
      Refresh(RefreshAll(view, targets[..|targets| - 1], playlists, catalog), last,
              ToItems(PlaylistTracks(playlists, catalog, last.id)))
  }

  /** The ids of a sequence of playlists. */
  function PlaylistIds(ps: seq<SimplePlaylist>): set<string> {
    set i | 0 <= i < |ps| :: ps[i].id
  }

  /** The ids of a non-empty sequence are those of all but its last, and the last one's. */
  lemma PlaylistIdsSnoc(ps: seq<SimplePlaylist>)
    requires ps != []
    ensures PlaylistIds(ps) == PlaylistIds(ps[..|ps| - 1]) + {ps[|ps| - 1].id}
  {
    var init := ps[..|ps| - 1];
    forall x | x in PlaylistIds(ps)
      ensures x in PlaylistIds(init) || x == ps[|ps| - 1].id
    {
      var i :| 0 <= i < |ps| && ps[i].id == x;
      if i < |init| {
        assert init[i].id == x;
      }
    }
    forall x | x in PlaylistIds(init)
      ensures x in PlaylistIds(ps)
    {
      var i :| 0 <= i < |init| && init[i].id == x;
      assert ps[i].id == x;
    }
    assert ps[|ps| - 1].id in PlaylistIds(ps);
  }

  /** The rescans add exactly the targets' ids to the cache and drop nothing. */
  lemma {:induction false} RefreshAllKeys(view: map<string, Entry>, targets: seq<SimplePlaylist>, playlists: map<string, RemotePlaylist>, catalog: map<string, FullTrack>)
    requires Known(targets, playlists)
    ensures RefreshAll(view, targets, playlists, catalog).Keys == view.Keys + PlaylistIds(targets)
    decreases |targets|
  {
    if targets != [] {
      var init := targets[..|targets| - 1];
      var last := targets[|targets| - 1];
      RefreshAllKeys(view, init, playlists, catalog);
      PlaylistIdsSnoc(targets);
    }
  }

  /** After the rescans every target's entry is flagged, and no flag that was
      set is cleared. */
  lemma {:induction false} RefreshAllFlags(view: map<string, Entry>, targets: seq<SimplePlaylist>, playlists: map<string, RemotePlaylist>, catalog: map<string, FullTrack>)
    requires Known(targets, playlists)
    ensures var r := RefreshAll(view, targets, playlists, catalog);
      && (forall i :: 0 <= i < |targets| ==> targets[i].id in r && r[targets[i].id].containsTracksToDownload)
      && (forall k :: k in view && view[k].containsTracksToDownload ==> k in r && r[k].containsTracksToDownload)
    decreases |targets|
  {
    if targets != [] {
      var init := targets[..|targets| - 1];
      var last := targets[|targets| - 1];
      RefreshAllFlags(view, init, playlists, catalog);
      var prev := RefreshAll(view, init, playlists, catalog);
      var r := RefreshAll(view, targets, playlists, catalog);
      assert r == Refresh(prev, last, ToItems(PlaylistTracks(playlists, catalog, last.id)));
      forall i | 0 <= i < |targets|
        ensures targets[i].id in r && r[targets[i].id].containsTracksToDownload
      {
        if i < |init| {
          assert init[i] == targets[i];
        }
      }
    }
  }

  /** An entry that no target names is as it was. */
  lemma {:induction false} RefreshAllUntouched(view: map<string, Entry>, targets: seq<SimplePlaylist>, playlists: map<string, RemotePlaylist>, catalog: map<string, FullTrack>)
    requires Known(targets, playlists)
    ensures var r := RefreshAll(view, targets, playlists, catalog);
      forall k :: k in view && k !in PlaylistIds(targets) ==> k in r && r[k] == view[k]
    decreases |targets|
  {
    if targets != [] {
      var init := targets[..|targets| - 1];
      RefreshAllUntouched(view, init, playlists, catalog);
      assert forall i :: 0 <= i < |init| ==> init[i] == targets[i];
      assert PlaylistIds(init) <= PlaylistIds(targets);
    }
  }

  /** One rescanned target: its tracks are added after the tracks so far, and its
      cache entry is refreshed. */
  lemma TargetsTurn(all0: seq<TrackItem>, view: map<string, Entry>, targets: seq<SimplePlaylist>, i: nat,
                    playlists: map<string, RemotePlaylist>, catalog: map<string, FullTrack>)
    requires Known(targets, playlists) && i < |targets|
    ensures Known(targets[..i], playlists) && Known(targets[..i + 1], playlists)
    ensures var tracks := PlaylistTracks(playlists, catalog, targets[i].id);
      && TryAddAll(all0, ToItems(TargetTracks(targets[..i + 1], playlists, catalog)))
         == TryAddAll(TryAddAll(all0, ToItems(TargetTracks(targets[..i], playlists, catalog))), ToItems(tracks))
      && RefreshAll(view, targets[..i + 1], playlists, catalog)
         == Refresh(RefreshAll(view, targets[..i], playlists, catalog), targets[i], ToItems(tracks))
  {
    var tracks := PlaylistTracks(playlists, catalog, targets[i].id);
    assert targets[..i + 1][..i] == targets[..i];
    var before := TargetTracks(targets[..i], playlists, catalog);
    assert TargetTracks(targets[..i + 1], playlists, catalog) == before + tracks;
    ToItemsAppend(before, tracks);
    TryAddAllAppend(all0, ToItems(before), ToItems(tracks));
  }

  /** One turn of the loop of `GetPlaylistsForDownload`: the playlist at `i`
      is picked exactly when it needs a rescan. */
  lemma ForDownloadStep(listing: seq<SimplePlaylist>, i: nat, userId: string, skip: seq<string>,
                        view: map<string, Entry>, r: seq<SimplePlaylist>)
    requires i < |listing| && ForDownload(listing, userId, skip, view) == r + ForDownload(listing[i..], userId, skip, view)
    ensures ForDownload(listing, userId, skip, view)
      == (r + (if NeedsRescan(listing[i], userId, skip, view) then [listing[i]] else []))
         + ForDownload(listing[i + 1..], userId, skip, view)
  {
    FilterStep(listing, i, Rescan(userId, skip, view), r);
  }

  /** Every playlist of the user's listing exists on the remote side. */
  predicate ListedExist(userPlaylists: seq<Option<SimplePlaylist>>, ids: set<string>) {
    forall i :: 0 <= i < |userPlaylists| && userPlaylists[i].Some? ==> userPlaylists[i].value.id in ids
  }

  /** Every playlist the listing reports exists, with its current change token. */
  lemma ListingKnown(userPlaylists: seq<Option<SimplePlaylist>>, playlists: map<string, RemotePlaylist>)
    requires ListedExist(userPlaylists, playlists.Keys)
    ensures forall p :: p in Listing(userPlaylists, playlists) ==>
      p.id in playlists && p.snapshotId == playlists[p.id].snapshotId
  {
    LiveListing(userPlaylists, playlists);
  }

  /** The playlists picked for a rescan are listed, so they exist. */
  lemma TargetsExist(userPlaylists: seq<Option<SimplePlaylist>>, playlists: map<string, RemotePlaylist>,
                     userId: string, skip: seq<string>, view: map<string, Entry>)
    requires ListedExist(userPlaylists, playlists.Keys)
    ensures Known(ForDownload(Listing(userPlaylists, playlists), userId, skip, view), playlists)
  {
    var targets := ForDownload(Listing(userPlaylists, playlists), userId, skip, view);
    ListingKnown(userPlaylists, playlists);
    ForDownloadExactly(Listing(userPlaylists, playlists), userId, skip, view);
    forall i | 0 <= i < |targets|
      ensures targets[i].id in playlists
    {
      assert targets[i] in targets;
    }
  }

  /** The first playlist of the listing with exactly that name (`List.Find`). */
  function FirstNamed(listing: seq<SimplePlaylist>, name: string): Option<SimplePlaylist> {
    if listing == [] then None
    else if listing[0].name == name then Some(listing[0])
    else FirstNamed(listing[1..], name)
  }

  /** No playlist is found exactly when none has the name; a found playlist is
      listed, has the name, and no playlist before it has. */
  lemma {:induction false} FirstNamedSpec(listing: seq<SimplePlaylist>, name: string)
    ensures FirstNamed(listing, name).None? <==> forall i :: 0 <= i < |listing| ==> listing[i].name != name
    ensures FirstNamed(listing, name).Some? ==>
      exists i :: 0 <= i < |listing| && listing[i] == FirstNamed(listing, name).value
        && listing[i].name == name && forall j :: 0 <= j < i ==> listing[j].name != name
  {
    if listing != [] {
      FirstNamedSpec(listing[1..], name);
      if listing[0].name != name {
        forall i | 0 <= i < |listing| - 1
          ensures listing[1..][i] == listing[i + 1]
        {
        }
        if FirstNamed(listing, name).Some? {
          var i :| 0 <= i < |listing[1..]| && listing[1..][i] == FirstNamed(listing, name).value
            && listing[1..][i].name == name && forall j :: 0 <= j < i ==> listing[1..][j].name != name;
          assert listing[i + 1] == FirstNamed(listing, name).value;
        }
      } else {
        assert listing[0] == FirstNamed(listing, name).value;
      }
    }
  }

  /** The ids of the tracks of a playlist (the `HashSet` of `AddTracksToDownloadPlaylist`). */
  function IdSet(ts: seq<FullTrack>): set<string> {
    set t | t in ts :: t.id
  }

  /** `TryAdd` of every entry of `m` into a dictionary holding `acc`. */
  method MergeFirstWins(acc: map<string, string>, m: map<string, string>) returns (r: map<string, string>)
    ensures r == FirstWins(acc, m)
  {
    r := acc;
    var rest := m.Keys;
    while rest != {}
      invariant rest <= m.Keys
      invariant r.Keys == acc.Keys + (m.Keys - rest)
      invariant forall k :: k in r ==> r[k] == if k in acc then acc[k] else m[k]
      decreases |rest|
    {
      var k :| k in rest;
      if k !in r {
        r := r[k := m[k]];
      }
      rest := rest - {k};
    }
  }

  /** `allTracks.TryAdd(track.Id, track)` for each of `ts` in turn. */
  method TryAddTracks(acc: seq<TrackItem>, ts: seq<TrackItem>) returns (r: seq<TrackItem>)
    ensures r == TryAddAll(acc, ts)
  {
    r := acc;
    for i := 0 to |ts|
      invariant TryAddAll(acc, ts) == TryAddAll(r, ts[i..])
    {
      assert ts[i..][1..] == ts[i + 1..];
      if ts[i].id !in ItemIds(r) {
        r := r + [ts[i]];
      }
    }
    assert ts[|ts|..] == [];
  }

  /** The loop that fills the `HashSet` of the download playlist's track ids. */
  method CollectIds(ts: seq<FullTrack>) returns (r: set<string>)
    ensures r == IdSet(ts)
  {
    r := {};
    for j := 0 to |ts|
      invariant r == IdSet(ts[..j])
    {
      assert ts[..j + 1] == ts[..j] + [ts[j]];
      r := r + {ts[j].id};
    }
    assert ts[..|ts|] == ts;
  }

  /** The loop that collects the URIs of the candidates not yet on the download playlist. */
  method CollectUris(cands: seq<TrackItem>, queued: set<string>) returns (r: seq<string>)
    ensures r == QueueUris(cands, queued)
  {
    r := [];
    for i := 0 to |cands|
      invariant r + QueueUris(cands[i..], queued) == QueueUris(cands, queued)
    {
      assert cands[i..][1..] == cands[i + 1..];
      if cands[i].id !in queued {
        r := r + [cands[i].uri];
      }
    }
    assert cands[|cands|..] == [];
  }

  /** The inner loop of `ProcessRecentlyDownloadedTracks`: the first track on the
      download playlist whose key is `key`. */
  method FindTrack(key: string, tracks: seq<FullTrack>, invalid: set<char>) returns (r: Option<FullTrack>)
    ensures r == FirstMatch(key, tracks, invalid)
  {
    for j := 0 to |tracks|
      invariant FirstMatch(key, tracks, invalid) == FirstMatch(key, tracks[j..], invalid)
    {
      assert tracks[j..][1..] == tracks[j + 1..];
      if KeyOfFullTrack(tracks[j], invalid) == key {
        return Some(tracks[j]);
      }
    }
    assert tracks[|tracks|..] == [];
    return None;
  }

  /** The playlists once `uris` went onto the end of playlist `id`, in requests
      of at most `limit` URIs, each of which moved its change token on. */
  function WithAdded(playlists: map<string, RemotePlaylist>, id: string, uris: seq<string>, limit: nat): map<string, RemotePlaylist>
    requires id in playlists && limit > 0
  {
    playlists[id := RemotePlaylist(playlists[id].uris + uris, playlists[id].snapshotId + |Chunks(uris, limit)|)]
  }

  /** The playlists once every occurrence of `uris` left playlist `id`, in
      requests of at most `limit` URIs, each of which moved its change token on. */
  function WithRemoved(playlists: map<string, RemotePlaylist>, id: string, uris: seq<string>, limit: nat): map<string, RemotePlaylist>
    requires id in playlists && limit > 0
  {
    playlists[id := RemotePlaylist(RemoveAll(playlists[id].uris, Elements(uris)), playlists[id].snapshotId + |Chunks(uris, limit)|)]
  }

  /** Removing nothing sends nothing and changes nothing. */
  lemma WithRemovedNothing(playlists: map<string, RemotePlaylist>, id: string, limit: nat)
    requires id in playlists && limit > 0
    ensures WithRemoved(playlists, id, [], limit) == playlists
  {
    var none: seq<string> := [];
    assert Elements(none) == {};
    RemoveAllNothing(playlists[id].uris);
    assert Chunks(none, limit) == [];
  }

  /** What the second half of the handler leaves: the files, the playlists, the
      cache's contents, the requests it sent and the result. */
  datatype Queued = Queued(files: map<Path, FileEntry>, playlists: map<string, RemotePlaylist>,
                           view: map<string, Entry>, calls: seq<Call>, result: Result<nat, Error>)

  /** The tracks for download: the saved tracks, then those of the target
      playlists, each id kept at its first occurrence. */
  function ForDownloadTracks(savedTracks: seq<SavedTrack>, targets: seq<SimplePlaylist>, playlists: map<string, RemotePlaylist>,
                  catalog: map<string, FullTrack>): seq<TrackItem>
    requires Known(targets, playlists)
  {
    TryAddAll([], ToItems(Saved(savedTracks) + TargetTracks(targets, playlists, catalog)))
  }

  /** What `GetDownloadedTracks` computes from the files and their enumeration
      order: the index of the processed directory, then that of the
      mixed-in-key directory, merged so that an id of the first keeps its file
      name, or the exception of either index. */
  function DownloadedIndex(files: map<Path, FileEntry>, order: seq<Path>, processedDir: string,
                           mixedInKeyDir: string, invalid: set<char>): Result<map<string, string>, Error>
    requires forall i :: 0 <= i < |order| ==> order[i] in files
  {
    var processed := Index(map[], files, ConsideredPaths(files, InDir(order, processedDir), None), invalid);
    var mixedInKey := Index(map[], files, ConsideredPaths(files, InDir(order, mixedInKeyDir), None), invalid);
    if processed.Err? then Err(processed.error)
    else if mixedInKey.Err? then Err(mixedInKey.error)
    else Ok(FirstWins(processed.value, mixedInKey.value))
  }

  /** The cache once the ids of playlist `p` were looked up: as it was when it
      holds `p`'s current snapshot, and otherwise refreshed with `p`'s tracks as
      the service lists them. */
  function Checked(view: map<string, Entry>, p: SimplePlaylist, playlists: map<string, RemotePlaylist>,
                   catalog: map<string, FullTrack>): (r: map<string, Entry>)
    requires p.id in playlists
    ensures r.Keys == view.Keys + {p.id}
  {
    if p.id in view && view[p.id].snapshotId == p.snapshotId then view
    else Refresh(view, p, ToItems(PlaylistTracks(playlists, catalog, p.id)))
  }

  /** The cache once `t` was added to playlist `id`: that entry takes the new
      snapshot, gains the track at its end and is flagged. */
  function WithTrack(view: map<string, Entry>, id: string, snapshot: Snapshot, t: FullTrack): map<string, Entry>
    requires id in view
  {
    view[id := view[id].(snapshotId := snapshot, tracks := view[id].tracks + [FromFullTrack(t)],
                         containsTracksToDownload := true)]
  }

  /** The `Processed ...` line and the `Added ...` line of the download-playlist
      handler, each ended by a line break. */
  function Report(processed: string, added: nat): string {
    processed + "\n" + "Added " + NatToString(added) + " tracks to your download playlist." + "\n"
  }

  class Application {
    const remote: Spotify
    const cache: PlaylistCache
    const fs: FileSystem
    const processedDir: string
    const noteBurnerDir: string
    const mixedInKeyDir: string
    /** The playlist the `temp` key of the skipped playlists names. */
    const downloadPlaylist: string
    const playlistsToSkip: seq<string>
    /** The id the `Electronic` key of the configured playlists names. */
    const electronicPlaylist: string
    /** The characters a file name may not contain. */
    const invalid: set<char>

    /** The parts are in order, the download playlist exists, and so does every
        playlist the user's listing returns. */
    ghost predicate Valid()
      reads this, remote, cache, cache.Repr, fs
    {
      && remote.Valid() && cache.Valid() && fs.Valid()
      && downloadPlaylist in remote.playlists
      && ListedExist(remote.userPlaylists, remote.playlists.Keys)
    }

    /** The configuration read at start-up, as parameters. */
    constructor (remote: Spotify, cache: PlaylistCache, fs: FileSystem, processedDir: string,
                 noteBurnerDir: string, mixedInKeyDir: string, downloadPlaylist: string,
                 playlistsToSkip: seq<string>, electronicPlaylist: string, invalid: set<char>)
      requires remote.Valid() && cache.Valid() && fs.Valid()
      requires downloadPlaylist in remote.playlists
      requires ListedExist(remote.userPlaylists, remote.playlists.Keys)
      ensures Valid()
      ensures this.remote == remote && this.cache == cache && this.fs == fs
      ensures this.processedDir == processedDir && this.noteBurnerDir == noteBurnerDir
      ensures this.mixedInKeyDir == mixedInKeyDir && this.downloadPlaylist == downloadPlaylist
      ensures this.playlistsToSkip == playlistsToSkip && this.electronicPlaylist == electronicPlaylist
      ensures this.invalid == invalid
    {
      this.remote := remote;
      this.cache := cache;
      this.fs := fs;
      this.processedDir := processedDir;
      this.noteBurnerDir := noteBurnerDir;
      this.mixedInKeyDir := mixedInKeyDir;
      this.downloadPlaylist := downloadPlaylist;
      this.playlistsToSkip := playlistsToSkip;
      this.electronicPlaylist := electronicPlaylist;
      this.invalid := invalid;
    }

    // -------------------------------------------------------------------
    // AddIdToFile and GetNotDownloadedTracks

    /** `AddIdToFile`: the files become what `StampFile` says, and an exception
        leaves them as they were; a file whose comment already has the id is
        not written. */
    method AddIdToFile(p: Path, id: string) returns (r: Outcome<Error>)
      requires fs.Valid()
      modifies fs
      ensures fs.Valid() && fs.order == old(fs.order)
      ensures StampFile(old(fs.files), p, id).Err? ==>
        r == Fail(StampFile(old(fs.files), p, id).error) && fs.files == old(fs.files)
      ensures StampFile(old(fs.files), p, id).Ok? ==> r == Pass && fs.files == StampFile(old(fs.files), p, id).value
      ensures (p in old(fs.files) && old(fs.files)[p].tag.comment.Some?
               && id in Split(old(fs.files)[p].tag.comment.value, {','})) ==> fs.files == old(fs.files)
    {
      if !fs.Exists(p) {
        return Fail(FileNotFound(p));
      }
      var tag := fs.files[p].tag;
      if tag.comment.None? {
        return Fail(NullComment(p));
      }
      var ids := Split(tag.comment.value, {','});
      if id !in ids {
        fs.SaveTag(p, tag.(comment := Some(tag.comment.value + "," + id)));
      } else {
        assert fs.files[p := fs.files[p].(tag := tag)] == fs.files;
      }
      r := Pass;
    }

    /** One track of `GetNotDownloadedTracks`, from the state `s` of the scan. */
    method ScanTrack(t: TrackItem, index: map<string, string>, ghost s: Scan) returns (want: bool, failure: Option<Error>)
      requires fs.Valid() && s.failure.None? && fs.files == s.files
      modifies fs
      ensures fs.Valid() && fs.order == old(fs.order)
      ensures ScanStep(s, t, index, processedDir, invalid) == Scan(fs.files, s.wanted + (if want then [t] else []), failure)
    {
      assert s.wanted + [] == s.wanted;
      if t.id in index {
        return false, None;
      }
      if t.linkedTrack.Some? && t.linkedTrack.value.id in index {
        var o := AddIdToFile(Mp3Path(processedDir, index[t.linkedTrack.value.id]), t.linkedTrack.value.id);
        return false, if o.Fail? then Some(o.error) else None;
      }
      var path := Mp3Path(processedDir, KeyOfItem(t, invalid));
      if fs.Exists(path) {
        var o := AddIdToFile(path, t.id);
        return false, if o.Fail? then Some(o.error) else None;
      }
      return t.isPlayable, None;
    }

    /** `GetNotDownloadedTracks`: the scan of `allTracks` in order against the index
        of downloaded ids; the files end as the scan leaves them, and the result
        is the tracks it keeps, or the exception that stopped it. */
    method GetNotDownloadedTracks(allTracks: seq<TrackItem>, downloaded: map<string, string>)
      returns (r: Result<seq<TrackItem>, Error>)
      requires fs.Valid()
      modifies fs
      ensures fs.Valid() && fs.order == old(fs.order)
      ensures var s := ScanAll(old(fs.files), allTracks, downloaded, processedDir, invalid);
        && fs.files == s.files
        && r == if s.failure.Some? then Err(s.failure.value) else Ok(s.wanted)
    {
      var wanted: seq<TrackItem> := [];
      for i := 0 to |allTracks|
        invariant fs.Valid() && fs.order == old(fs.order)
        invariant ScanAll(old(fs.files), allTracks[..i], downloaded, processedDir, invalid) == Scan(fs.files, wanted, None)
      {
        assert allTracks[..i + 1][..i] == allTracks[..i];
        var want, failure := ScanTrack(allTracks[i], downloaded, Scan(fs.files, wanted, None));
        if failure.Some? {
          ScanAllStops(old(fs.files), allTracks, i + 1, downloaded, processedDir, invalid);
          return Err(failure.value);
        }
        if want {
          wanted := wanted + [allTracks[i]];
        }
      }
      assert allTracks[..|allTracks|] == allTracks;
      r := Ok(wanted);
    }

    // -------------------------------------------------------------------
    // GetDownloadedTracks

    /** `GetDownloadedTracks`: the index of the processed directory, then that of
        the mixed-in-key directory, merged so that an id of the first keeps its
        file name; an exception of either index is the result. */
    method GetDownloadedTracks() returns (r: Result<map<string, string>, Error>)
      requires fs.Valid()
      ensures r == DownloadedIndex(fs.files, fs.order, processedDir, mixedInKeyDir, invalid)
    {
      var processed := GetFilenameByTrackId(fs, processedDir, None, invalid);
      if processed.Err? {
        return Err(processed.error);
      }
      var mixedInKey := GetFilenameByTrackId(fs, mixedInKeyDir, None, invalid);
      if mixedInKey.Err? {
        return Err(mixedInKey.error);
      }
      var downloaded := MergeFirstWins(map[], processed.value);
      assert downloaded == processed.value;
      downloaded := MergeFirstWins(downloaded, mixedInKey.value);
      r := Ok(downloaded);
    }

    // -------------------------------------------------------------------
    // GetPlaylistsForDownload and GetAllTracksForDownload

    /** `GetPlaylistsForDownload`: the playlists of the listing, in order, that
        `NeedsRescan` picks against the cache. */
    method GetPlaylistsForDownload() returns (r: seq<SimplePlaylist>)
      requires remote.Valid() && cache.Valid()
      ensures r == ForDownload(Listing(remote.userPlaylists, remote.playlists), remote.userId, playlistsToSkip, cache.view)
    {
      var user := remote.userId;
      var playlists, requested := remote.GetCurrentUsersPlaylists();
      r := [];
      for i := 0 to |playlists|
        invariant ForDownload(playlists, user, playlistsToSkip, cache.view)
          == r + ForDownload(playlists[i..], user, playlistsToSkip, cache.view)
      {
        var p := playlists[i];
        ForDownloadStep(playlists, i, user, playlistsToSkip, cache.view, r);
        if IsTarget(p, user) {
          r := r + [p];
        }
      }
      assert playlists[|playlists|..] == [];
    }

    /** The test of the loop of `GetPlaylistsForDownload` on one playlist: the
        user owns it, it is not collaborative and not skipped, and the cache
        lacks it, holds an older snapshot, or has it flagged. */
    predicate IsTarget(p: SimplePlaylist, user: string)
      requires cache.Valid()
      reads this, cache, cache.Repr
      ensures IsTarget(p, user) == NeedsRescan(p, user, playlistsToSkip, cache.view)
    {
      if p.ownerId != user || p.collaborative || p.id in playlistsToSkip then false
      else p.id !in cache.entries || p.snapshotId != cache.entries[p.id].snapshotId
           || cache.entries[p.id].containsTracksToDownload
    }

    /** One target of `GetAllTracksForDownload`: its tracks are fetched and its
        cache entry refreshed with them. */
    method RescanTarget(p: SimplePlaylist) returns (tracks: seq<FullTrack>)
      requires remote.Valid() && cache.Valid() && p.id in remote.playlists
      modifies cache, cache.Repr
      ensures cache.Valid()
      ensures fresh(cache.Repr - old(cache.Repr))
      ensures tracks == PlaylistTracks(remote.playlists, remote.catalog, p.id)
      ensures cache.view == Refresh(old(cache.view), p, ToItems(tracks))
    {
      var requested;
      tracks, requested := remote.GetPlaylistFullTracks(p.id);
      cache.UpdatePlaylistCache(p, tracks);
    }

    /** One turn of the loop of `GetAllTracksForDownload`: target `i` is rescanned
        and its tracks added, extending what the turns before it did from `all0`
        and `view0`. */
    method RescanNext(targets: seq<SimplePlaylist>, i: nat, all: seq<TrackItem>,
                      ghost all0: seq<TrackItem>, ghost view0: map<string, Entry>) returns (next: seq<TrackItem>)
      requires remote.Valid() && cache.Valid() && Known(targets, remote.playlists) && i < |targets|
      requires Known(targets[..i], remote.playlists)
      requires all == TryAddAll(all0, ToItems(TargetTracks(targets[..i], remote.playlists, remote.catalog)))
      requires cache.view == RefreshAll(view0, targets[..i], remote.playlists, remote.catalog)
      modifies cache, cache.Repr
      ensures cache.Valid()
      ensures fresh(cache.Repr - old(cache.Repr))
      ensures Known(targets[..i + 1], remote.playlists)
      ensures next == TryAddAll(all0, ToItems(TargetTracks(targets[..i + 1], remote.playlists, remote.catalog)))
      ensures cache.view == RefreshAll(view0, targets[..i + 1], remote.playlists, remote.catalog)
    {
      TargetsTurn(all0, view0, targets, i, remote.playlists, remote.catalog);
      var tracks := RescanTarget(targets[i]);
      ghost var v := cache.view;
      next := TryAddTracks(all, ToItems(tracks));
      assert cache.view == v;
    }

    /** The loop of `GetAllTracksForDownload` over the playlists to rescan: each
        one's tracks are added after `all0` unless their id is already there,
        and each one's cache entry is refreshed. */
    method RescanAll(targets: seq<SimplePlaylist>, all0: seq<TrackItem>) returns (all: seq<TrackItem>)
      requires remote.Valid() && cache.Valid() && Known(targets, remote.playlists)
      modifies cache, cache.Repr
      ensures cache.Valid()
      ensures fresh(cache.Repr - old(cache.Repr))
      ensures all == TryAddAll(all0, ToItems(TargetTracks(targets, remote.playlists, remote.catalog)))
      ensures cache.view == RefreshAll(old(cache.view), targets, remote.playlists, remote.catalog)
    {
      all := all0;
      assert TargetTracks(targets[..0], remote.playlists, remote.catalog) == [];
      for i := 0 to |targets|
        invariant cache.Valid()
        invariant fresh(cache.Repr - old(cache.Repr))
        invariant Known(targets[..i], remote.playlists)
        invariant all == TryAddAll(all0, ToItems(TargetTracks(targets[..i], remote.playlists, remote.catalog)))
        invariant cache.view == RefreshAll(old(cache.view), targets[..i], remote.playlists, remote.catalog)
      {
        all := RescanNext(targets, i, all, all0, old(cache.view));
      }
      assert targets[..|targets|] == targets;
    }

    /** `GetAllTracksForDownload`: the saved tracks, then the tracks of each
        playlist to rescan, kept first by id; each rescanned playlist's cache
        entry is refreshed. */
    method GetAllTracksForDownload() returns (r: seq<TrackItem>)
      requires Valid()
      modifies cache, cache.Repr
      ensures Valid()
      ensures fresh(cache.Repr - old(cache.Repr))
      ensures var targets := ForDownload(Listing(remote.userPlaylists, remote.playlists), remote.userId, playlistsToSkip, old(cache.view));
        && Known(targets, remote.playlists)
        && r == ForDownloadTracks(remote.savedTracks, targets, remote.playlists, remote.catalog)
        && cache.view == RefreshAll(old(cache.view), targets, remote.playlists, remote.catalog)
    {
      var saved, requested := remote.GetCurrentUserSavedTracks();
      var all := TryAddTracks([], ToItems(saved));
      var targets := GetPlaylistsForDownload();
      TargetsExist(remote.userPlaylists, remote.playlists, remote.userId, playlistsToSkip, cache.view);
      r := RescanAll(targets, all);
      ToItemsAppend(saved, TargetTracks(targets, remote.playlists, remote.catalog));
      TryAddAllAppend([], ToItems(saved), ToItems(TargetTracks(targets, remote.playlists, remote.catalog)));
    }

    // -------------------------------------------------------------------
    // AddTracksToDownloadPlaylist

    /** `AddTracksToDownloadPlaylist`: the URIs of the candidates whose id is not
        on the download playlist are added to it in one chunked call, and their
        number is the result. */
    method AddTracksToDownloadPlaylist(cands: seq<TrackItem>) returns (r: nat)
      requires Valid()
      modifies remote`playlists, remote`calls
      ensures Valid()
      ensures var uris := QueueUris(cands, IdSet(PlaylistTracks(old(remote.playlists), remote.catalog, downloadPlaylist)));
        && r == |uris|
        && remote.calls == old(remote.calls) + AddCalls(downloadPlaylist, Chunks(uris, remote.playlistAddTrackLimit))
        && remote.playlists == WithAdded(old(remote.playlists), downloadPlaylist, uris, remote.playlistAddTrackLimit)
    {
      var tracks, requested := remote.GetPlaylistFullTracks(downloadPlaylist);
      var queued := CollectIds(tracks);
      var uris := CollectUris(cands, queued);
      var snapshot := remote.AddToPlaylist(downloadPlaylist, uris);
      r := |uris|;
    }

    // -------------------------------------------------------------------
    // ProcessRecentlyDownloadedTracks

    /** The downloaded files `GetTrackMetadata` loads from the NoteBurner directory. */
    ghost function Downloads(): seq<TagFile>
      reads this, fs
      requires fs.Valid()
    {
      TagFiles(fs.files, ConsideredPaths(fs.files, fs.Listing(noteBurnerDir), None))
    }

    /** One downloaded file, from the state `st` of the loop. */
    method ProcessDownload(f: TagFile, tracks: seq<FullTrack>, ghost st: Progress) returns (uri: Option<string>, failure: Option<Error>)
      requires fs.Valid() && st.failure.None? && fs.files == st.files
      modifies fs
      ensures fs.Valid()
      ensures ProcessStep(st, f, tracks, mixedInKeyDir, invalid)
        == Progress(fs.files, st.removed + (if uri.Some? then [uri.value] else []), failure)
    {
      assert st.removed + [] == st.removed;
      var key := KeyOfTag(f.tag, invalid);
      if key.None? {
        return None, Some(NoPerformer(f.path));
      }
      var found := FindTrack(key.value, tracks, invalid);
      if found.None? {
        return None, None;
      }
      var t := found.value;
      if !fs.Exists(f.path) {
        return None, Some(FileNotFound(f.path));
      }
      fs.SaveTag(f.path, f.tag.(comment := Some(t.id)));
      var dest := Mp3Path(mixedInKeyDir, key.value);
      if !fs.Exists(dest) {
        fs.Move(f.path, dest);
      } else {
        fs.Delete(f.path);
      }
      uri, failure := Some(t.uri), None;
    }

    /** The loop of `ProcessRecentlyDownloadedTracks`: the downloads are settled
        in order until one throws, as `ProcessAll` says. */
    method SettleDownloads(downloads: seq<TagFile>, tracks: seq<FullTrack>) returns (removed: seq<string>, failure: Option<Error>)
      requires fs.Valid()
      modifies fs
      ensures fs.Valid()
      ensures ProcessAll(old(fs.files), downloads, tracks, mixedInKeyDir, invalid) == Progress(fs.files, removed, failure)
    {
      removed, failure := [], None;
      var i := 0;
      while i < |downloads| && failure.None?
        invariant 0 <= i <= |downloads|
        invariant fs.Valid()
        invariant ProcessAll(old(fs.files), downloads[..i], tracks, mixedInKeyDir, invalid) == Progress(fs.files, removed, failure)
        decreases |downloads| - i
      {
        assert downloads[..i + 1][..i] == downloads[..i];
        var uri;
        uri, failure := ProcessDownload(downloads[i], tracks, Progress(fs.files, removed, None));
        if uri.Some? {
          removed := removed + [uri.value];
        }
        i := i + 1;
      }
      if i < |downloads| {
        ProcessAllStops(old(fs.files), downloads, i, tracks, mixedInKeyDir, invalid);
      } else {
        assert downloads[..i] == downloads;
      }
    }

    /** The downloads are settled against the tracks of the download playlist,
        and the URIs of those settled leave it, even when one threw. */
    method DequeueDownloads(downloads: seq<TagFile>) returns (removed: seq<string>, failure: Option<Error>)
      requires Valid()
      modifies fs, remote`playlists, remote`calls
      ensures Valid()
      ensures ProcessAll(old(fs.files), downloads, PlaylistTracks(old(remote.playlists), remote.catalog, downloadPlaylist),
                         mixedInKeyDir, invalid) == Progress(fs.files, removed, failure)
      ensures remote.calls == old(remote.calls) + RemoveCalls(downloadPlaylist, Chunks(removed, remote.playlistRemoveTrackLimit))
      ensures remote.playlists == WithRemoved(old(remote.playlists), downloadPlaylist, removed, remote.playlistRemoveTrackLimit)
    {
      var tracks, requested := remote.GetPlaylistFullTracks(downloadPlaylist);
      removed, failure := SettleDownloads(downloads, tracks);
      remote.RemoveFromPlaylist(downloadPlaylist, removed);
    }

    /** `ProcessRecentlyDownloadedTracks`: with no downloads nothing happens;
        otherwise the downloads are settled in order as `ProcessAll` says, the
        URIs collected up to an exception leave the download playlist in any
        case, and the result is the count message or that exception. */
    method ProcessRecentlyDownloadedTracks() returns (r: Result<string, Error>)
      requires Valid()
      modifies fs, remote`playlists, remote`calls
      ensures Valid()
      ensures old(Downloads()) == [] ==>
        && r == Ok("No downloaded tracks to process.")
        && fs.files == old(fs.files) && remote.playlists == old(remote.playlists) && remote.calls == old(remote.calls)
      ensures old(Downloads()) != [] ==>
        var run := ProcessAll(old(fs.files), old(Downloads()),
                              PlaylistTracks(old(remote.playlists), remote.catalog, downloadPlaylist), mixedInKeyDir, invalid);
        && fs.files == run.files
        && remote.calls == old(remote.calls) + RemoveCalls(downloadPlaylist, Chunks(run.removed, remote.playlistRemoveTrackLimit))
        && remote.playlists == WithRemoved(old(remote.playlists), downloadPlaylist, run.removed, remote.playlistRemoveTrackLimit)
        && r == if run.failure.Some? then Err(run.failure.value)
                else Ok(ProcessedMessage(|run.removed|, |old(Downloads())|))
    {
      var downloads := GetTrackMetadata(fs, noteBurnerDir, None);
      if |downloads| == 0 {
        return Ok("No downloaded tracks to process.");
      }
      var removed, failure := DequeueDownloads(downloads);
      if failure.Some? {
        return Err(failure.value);
      }
      r := Ok(ProcessedMessage(|removed|, |downloads|));
    }

    // -------------------------------------------------------------------
    // The PopulateSpotifyDownloadPlaylist handler

    /** The candidates of the handler: the saved tracks and those of every
        playlist to rescan, kept first by id, scanned against the downloaded
        index. The files end as the scan leaves them, each rescanned
        playlist's cache entry is refreshed, and nothing is sent. */
    method MissingTracks(downloaded: map<string, string>) returns (r: Result<seq<TrackItem>, Error>)
      requires Valid()
      modifies fs, cache, cache.Repr
      ensures Valid()
      ensures fresh(cache.Repr - old(cache.Repr))
      ensures remote.playlists == old(remote.playlists) && remote.calls == old(remote.calls)
      ensures fs.order == old(fs.order)
      ensures var targets := ForDownload(Listing(remote.userPlaylists, remote.playlists), remote.userId, playlistsToSkip, old(cache.view));
        && Known(targets, remote.playlists)
        && cache.view == RefreshAll(old(cache.view), targets, remote.playlists, remote.catalog)
        && var s := ScanAll(old(fs.files), ForDownloadTracks(remote.savedTracks, targets, remote.playlists, remote.catalog),
                            downloaded, processedDir, invalid);
        && fs.files == s.files
        && r == if s.failure.Some? then Err(s.failure.value) else Ok(s.wanted)
    {
      var all := GetAllTracksForDownload();
      r := GetNotDownloadedTracks(all, downloaded);
    }

    /** The queueing against the downloaded index `downloaded`, from files
        `files`, playlists `playlists` and cache contents `view`: the playlists
        to rescan refresh the cache, the tracks for download are scanned
        against the index, and the URIs of the candidates the download playlist
        lacks go onto it, one add request per chunk; their number is the
        result. A scan exception ends it, sending nothing, and the files end as
        the scan leaves them. */
    ghost function QueueFrom(files: map<Path, FileEntry>, playlists: map<string, RemotePlaylist>,
                             view: map<string, Entry>, downloaded: map<string, string>): (q: Queued)
      reads remote`userPlaylists, remote`savedTracks, remote`catalog, remote`userId
      requires remote.Valid() && downloadPlaylist in playlists && ListedExist(remote.userPlaylists, playlists.Keys)
      ensures view.Keys <= q.view.Keys
      ensures forall k :: k in view && view[k].containsTracksToDownload ==> q.view[k].containsTracksToDownload
    {
      var targets := ForDownload(Listing(remote.userPlaylists, playlists), remote.userId, playlistsToSkip, view);
      TargetsExist(remote.userPlaylists, playlists, remote.userId, playlistsToSkip, view);
      var view' := RefreshAll(view, targets, playlists, remote.catalog);
      RefreshAllFlags(view, targets, playlists, remote.catalog);
      RefreshAllKeys(view, targets, playlists, remote.catalog);
      var s := ScanAll(files, ForDownloadTracks(remote.savedTracks, targets, playlists, remote.catalog),
                       downloaded, processedDir, invalid);
      if s.failure.Some? then Queued(s.files, playlists, view', [], Err(s.failure.value))
      else
        var uris := QueueUris(s.wanted, IdSet(PlaylistTracks(playlists, remote.catalog, downloadPlaylist)));
        Queued(s.files, WithAdded(playlists, downloadPlaylist, uris, remote.playlistAddTrackLimit), view',
               AddCalls(downloadPlaylist, Chunks(uris, remote.playlistAddTrackLimit)), Ok(|uris|))
    }

    /** The tracks still missing are queued: those of `MissingTracks` that the
        download playlist lacks go onto it, as `QueueFrom` says. */
    method QueueFor(downloaded: map<string, string>) returns (r: Result<nat, Error>)
      requires Valid()
      modifies fs, remote`playlists, remote`calls, cache, cache.Repr
      ensures Valid()
      ensures fresh(cache.Repr - old(cache.Repr))
      ensures fs.order == old(fs.order)
      ensures var q := QueueFrom(old(fs.files), old(remote.playlists), old(cache.view), downloaded);
        && fs.files == q.files && remote.playlists == q.playlists && cache.view == q.view
        && remote.calls == old(remote.calls) + q.calls && r == q.result
    {
      var missing := MissingTracks(downloaded);
      if missing.Err? {
        return Err(missing.error);
      }
      var added := AddTracksToDownloadPlaylist(missing.value);
      r := Ok(added);
    }

    /** The second half of the handler from files `files` enumerated in `order`,
        playlists `playlists` and cache contents `view`: the downloaded index,
        then the queueing against it (`QueueFrom`). An exception building the
        index ends it with nothing changed and nothing sent. */
    ghost function Queue(files: map<Path, FileEntry>, order: seq<Path>, playlists: map<string, RemotePlaylist>,
                         view: map<string, Entry>): (q: Queued)
      reads remote`userPlaylists, remote`savedTracks, remote`catalog, remote`userId
      requires remote.Valid() && forall i :: 0 <= i < |order| ==> order[i] in files
      requires downloadPlaylist in playlists && ListedExist(remote.userPlaylists, playlists.Keys)
      ensures view.Keys <= q.view.Keys
      ensures forall k :: k in view && view[k].containsTracksToDownload ==> q.view[k].containsTracksToDownload
    {
      var index := DownloadedIndex(files, order, processedDir, mixedInKeyDir, invalid);
      if index.Err? then Queued(files, playlists, view, [], Err(index.error))
      else QueueFrom(files, playlists, view, index.value)
    }

    /** The second half of the handler: the downloaded index, then the missing
        tracks queued against it, as `Queue` says. */
    method QueueMissing() returns (r: Result<nat, Error>)
      requires Valid()
      modifies fs, remote`playlists, remote`calls, cache, cache.Repr
      ensures Valid()
      ensures fresh(cache.Repr - old(cache.Repr))
      ensures fs.order == old(fs.order)
      ensures var q := Queue(old(fs.files), old(fs.order), old(remote.playlists), old(cache.view));
        && fs.files == q.files && remote.playlists == q.playlists && cache.view == q.view
        && remote.calls == old(remote.calls) + q.calls && r == q.result
    {
      var downloaded := GetDownloadedTracks();
      if downloaded.Err? {
        return Err(downloaded.error);
      }
      r := QueueFor(downloaded.value);
    }

    /** The second half of the handler and the loop after it: the missing
        tracks are queued as `Queue` says, and when that gets through every
        cache flag is cleared; when it fails the flags stay as the rescans left
        them. */
    method FinishRun() returns (r: Result<nat, Error>)
      requires Valid()
      modifies fs, remote`playlists, remote`calls, cache, cache.Repr
      ensures Valid()
      ensures fs.order == old(fs.order)
      ensures var q := Queue(old(fs.files), old(fs.order), old(remote.playlists), old(cache.view));
        && fs.files == q.files && remote.playlists == q.playlists && r == q.result
        && remote.calls == old(remote.calls) + q.calls
        && (r.Ok? ==> cache.view == Cleared(q.view))
        && (r.Err? ==> cache.view == q.view)
    {
      ghost var q := Queue(fs.files, fs.order, remote.playlists, cache.view);
      r := QueueMissing();
      if r.Ok? {
        cache.ClearDownloadFlags();
      }
    }

    /** The `PopulateSpotifyDownloadPlaylist` handler: the downloads are settled
        and leave the download playlist, then the tracks still missing are
        queued against the files as settling left them (`Queue`). `order1` is
        the enumeration order of those files, which the moves change. The
        result is the report of both halves. Only a run that gets through
        clears the cache's flags; a run that fails leaves every flagged
        playlist flagged, so the next run rescans it. */
    method PopulateDownloadPlaylist() returns (r: Result<string, Error>, ghost order1: seq<Path>)
      requires Valid()
      modifies fs, remote`playlists, remote`calls, cache, cache.Repr
      ensures Valid()
      ensures r.Ok? ==>
        var run := ProcessAll(old(fs.files), old(Downloads()),
                              PlaylistTracks(old(remote.playlists), remote.catalog, downloadPlaylist), mixedInKeyDir, invalid);
        var playlists1 := WithRemoved(old(remote.playlists), downloadPlaylist, run.removed, remote.playlistRemoveTrackLimit);
        && run.failure.None?
        && Distinct(order1) && (forall i :: 0 <= i < |order1| ==> order1[i] in run.files)
        && (forall p :: p in run.files ==> p in order1)
        && ListedExist(remote.userPlaylists, playlists1.Keys)
        && var q := Queue(run.files, order1, playlists1, old(cache.view));
        && q.result.Ok? && fs.files == q.files && fs.order == order1 && remote.playlists == q.playlists
        && remote.calls == old(remote.calls) + RemoveCalls(downloadPlaylist, Chunks(run.removed, remote.playlistRemoveTrackLimit)) + q.calls
        && cache.view == Cleared(q.view)
        && r.value == Report(if old(Downloads()) == [] then "No downloaded tracks to process."
                             else ProcessedMessage(|run.removed|, |old(Downloads())|), q.result.value)
      ensures r.Ok? ==> forall k :: k in cache.view ==> !cache.view[k].containsTracksToDownload
      ensures r.Err? ==> forall k :: k in old(cache.view) && old(cache.view)[k].containsTracksToDownload ==>
        k in cache.view && cache.view[k].containsTracksToDownload
      ensures old(cache.view).Keys <= cache.view.Keys
    {
      ghost var view0 := cache.view;
      ghost var run := ProcessAll(fs.files, Downloads(),
                                  PlaylistTracks(remote.playlists, remote.catalog, downloadPlaylist), mixedInKeyDir, invalid);
      ghost var playlists1 := WithRemoved(remote.playlists, downloadPlaylist, run.removed, remote.playlistRemoveTrackLimit);
      ghost var empty := Downloads() == [];
      var processed := ProcessRecentlyDownloadedTracks();
      if processed.Err? {
        return Err(processed.error), fs.order;
      }
      if empty {
        WithRemovedNothing(old(remote.playlists), downloadPlaylist, remote.playlistRemoveTrackLimit);
        assert RemoveCalls(downloadPlaylist, Chunks(run.removed, remote.playlistRemoveTrackLimit)) == [];
      }
      assert remote.playlists == playlists1 && fs.files == run.files && cache.view == view0;
      assert remote.calls == old(remote.calls) + RemoveCalls(downloadPlaylist, Chunks(run.removed, remote.playlistRemoveTrackLimit));
      order1 := fs.order;
      var added := FinishRun();
      if added.Err? {
        return Err(added.error), order1;
      }
      r := Ok(Report(processed.value, added.value));
    }

    // -------------------------------------------------------------------
    // SpotifyCurrentlyPlayingToPlaylist, PlaySpotifyInKitchen, ControlSpotifyPlayer

    /** "Like": the track is saved unless it already is, under its id or the id
        it was relinked from. */
    method LikeTrack(ft: FullTrack) returns (line: string)
      requires remote.Valid()
      modifies remote`calls, remote`savedTracks
      ensures TrackAlreadySaved(Saved(old(remote.savedTracks)), ft) ==>
        && line == "Already exists in your library."
        && remote.calls == old(remote.calls) && remote.savedTracks == old(remote.savedTracks)
      ensures !TrackAlreadySaved(Saved(old(remote.savedTracks)), ft) ==>
        && line == "Saved to your library."
        && remote.calls == old(remote.calls) + [SaveTracks([ft.id])]
        && remote.savedTracks == SaveIds(old(remote.savedTracks), [ft.id], remote.catalog)
    {
      var liked, requested := remote.GetCurrentUserSavedTracks();
      if !TrackAlreadySaved(liked, ft) {
        remote.SaveTrack([ft.id]);
        line := "Saved to your library.";
      } else {
        line := "Already exists in your library.";
      }
    }

    /** The ids a playlist is checked against: the cached ones when the cache
        holds its current snapshot, and otherwise those of its fetched tracks,
        which also refresh the cache. Either way the cache then holds them. */
    method CurrentIds(p: SimplePlaylist) returns (ids: seq<string>)
      requires remote.Valid() && cache.Valid() && p.id in remote.playlists
      modifies cache, cache.Repr
      ensures cache.Valid()
      ensures fresh(cache.Repr - old(cache.Repr))
      ensures ids == if p.id in old(cache.view) && old(cache.view)[p.id].snapshotId == p.snapshotId
                     then ItemIds(old(cache.view)[p.id].tracks)
                     else Ids(PlaylistTracks(remote.playlists, remote.catalog, p.id))
      ensures cache.view == Checked(old(cache.view), p, remote.playlists, remote.catalog)
      ensures ItemIds(cache.view[p.id].tracks) == ids
    {
      if p.id in cache.entries && cache.entries[p.id].snapshotId == p.snapshotId {
        assert cache.view[p.id] == cache.entries[p.id].Value();
        ids := ItemIds(cache.entries[p.id].tracks);
      } else {
        var tracks, requested := remote.GetPlaylistFullTracks(p.id);
        ids := Ids(tracks);
        cache.UpdatePlaylistCache(p, tracks);
        ItemIdsOfTracks(tracks);
      }
    }

    /** The track goes on a playlist that lacks it: one add request with its
        URI, and the cache entry gains the track under the new snapshot and is
        flagged. */
    method AppendTrack(id: string, ft: FullTrack)
      requires remote.Valid() && cache.Valid() && id in remote.playlists && id in cache.view
      modifies remote`playlists, remote`calls, cache, cache.Repr
      ensures cache.Valid() && cache.Repr == old(cache.Repr)
      ensures remote.playlists == old(remote.playlists)[id := RemotePlaylist(
        old(remote.playlists)[id].uris + [ft.uri], old(remote.playlists)[id].snapshotId + 1)]
      ensures remote.calls == old(remote.calls) + [AddItems(id, [ft.uri])]
      ensures cache.view == WithTrack(old(cache.view), id, remote.playlists[id].snapshotId, ft)
      ensures KnownById(ItemIds(cache.view[id].tracks), ft)
    {
      var snapshot := remote.AddToPlaylist(id, [ft.uri]);
      SingleChunk(ft.uri, remote.playlistAddTrackLimit);
      ghost var before := cache.view[id].tracks;
      cache.AddTrackToPlaylistCache(id, snapshot.value, ft);
      ItemIdsAppend(before, [FromFullTrack(ft)]);
      FromFullTrackCopies(ft);
    }

    /** A playlist found by name is checked for the track, by the cached ids
        when the cache holds its current snapshot and by its fetched tracks
        otherwise (`Checked`); the track is added when neither its id nor the id
        it was relinked from is there. Afterwards the cache entry knows the
        track. */
    method AddIfMissing(p: SimplePlaylist, name: string, ft: FullTrack) returns (line: string)
      requires remote.Valid() && cache.Valid() && p.id in remote.playlists
      modifies remote`playlists, remote`calls, cache, cache.Repr
      ensures cache.Valid()
      ensures fresh(cache.Repr - old(cache.Repr))
      ensures remote.playlists.Keys == old(remote.playlists).Keys
      ensures var known := if p.id in old(cache.view) && old(cache.view)[p.id].snapshotId == p.snapshotId
                           then KnownById(ItemIds(old(cache.view)[p.id].tracks), ft)
                           else KnownById(Ids(PlaylistTracks(old(remote.playlists), remote.catalog, p.id)), ft);
        && var checked := Checked(old(cache.view), p, old(remote.playlists), remote.catalog);
        && (known ==> line == name + " already contains track.\n"
                      && remote.playlists == old(remote.playlists) && remote.calls == old(remote.calls)
                      && cache.view == checked)
        && (!known ==> line == "Added to " + name + ".\n"
                       && remote.playlists == old(remote.playlists)[p.id := RemotePlaylist(
                            old(remote.playlists)[p.id].uris + [ft.uri], old(remote.playlists)[p.id].snapshotId + 1)]
                       && remote.calls == old(remote.calls) + [AddItems(p.id, [ft.uri])]
                       && cache.view == WithTrack(checked, p.id, remote.playlists[p.id].snapshotId, ft))
        && p.id in cache.view && KnownById(ItemIds(cache.view[p.id].tracks), ft)
    {
      var ids := CurrentIds(p);
      if !KnownById(ids, ft) {
        AppendTrack(p.id, ft);
        line := "Added to " + name + ".\n";
      } else {
        line := name + " already contains track.\n";
      }
    }

    /** One playlist name of `SpotifyCurrentlyPlayingToPlaylist`: the first
        listed playlist of that name gets the track unless it has it
        (`AddIfMissing`). No playlist of that name is an error. */
    method AddCurrentTrack(listing: seq<SimplePlaylist>, name: string, ft: FullTrack) returns (r: Result<string, Error>)
      requires remote.Valid() && cache.Valid() && forall p :: p in listing ==> p.id in remote.playlists
      modifies remote`playlists, remote`calls, cache, cache.Repr
      ensures cache.Valid()
      ensures fresh(cache.Repr - old(cache.Repr))
      ensures remote.playlists.Keys == old(remote.playlists).Keys
      ensures r.Ok? <==> FirstNamed(listing, name).Some?
      ensures FirstNamed(listing, name).None? ==>
        && r == Err(PlaylistNotFound(name)) && remote.playlists == old(remote.playlists) && remote.calls == old(remote.calls)
        && cache.view == old(cache.view)
      ensures FirstNamed(listing, name).Some? ==> var p := FirstNamed(listing, name).value;
        && p.id in old(remote.playlists)
        && var known := if p.id in old(cache.view) && old(cache.view)[p.id].snapshotId == p.snapshotId
                        then KnownById(ItemIds(old(cache.view)[p.id].tracks), ft)
                        else KnownById(Ids(PlaylistTracks(old(remote.playlists), remote.catalog, p.id)), ft);
        && var checked := Checked(old(cache.view), p, old(remote.playlists), remote.catalog);
        && (known ==> r == Ok(name + " already contains track.\n")
                      && remote.playlists == old(remote.playlists) && remote.calls == old(remote.calls)
                      && cache.view == checked)
        && (!known ==> r == Ok("Added to " + name + ".\n")
                       && remote.playlists == old(remote.playlists)[p.id := RemotePlaylist(
                            old(remote.playlists)[p.id].uris + [ft.uri], old(remote.playlists)[p.id].snapshotId + 1)]
                       && remote.calls == old(remote.calls) + [AddItems(p.id, [ft.uri])]
                       && cache.view == WithTrack(checked, p.id, remote.playlists[p.id].snapshotId, ft))
        && p.id in cache.view && KnownById(ItemIds(cache.view[p.id].tracks), ft)
    {
      var found := FirstNamed(listing, name);
      if found.None? {
        return Err(PlaylistNotFound(name));
      }
      FirstNamedSpec(listing, name);
      var line := AddIfMissing(found.value, name, ft);
      r := Ok(line);
    }

    /** The names of the payload in turn; the first one with no playlist ends
        the loop with its error. */
    method AddToPlaylists(listing: seq<SimplePlaylist>, names: seq<string>, ft: FullTrack) returns (r: Result<string, Error>)
      requires remote.Valid() && cache.Valid() && forall p :: p in listing ==> p.id in remote.playlists
      modifies remote`playlists, remote`calls, cache, cache.Repr
      ensures cache.Valid()
      ensures fresh(cache.Repr - old(cache.Repr))
      ensures remote.playlists.Keys == old(remote.playlists).Keys
      ensures r.Err? <==> exists k :: 0 <= k < |names| && FirstNamed(listing, names[k]).None?
      ensures r.Err? ==> exists k :: 0 <= k < |names| && r.error == PlaylistNotFound(names[k])
    {
      var lines := "";
      for k := 0 to |names|
        invariant remote.Valid() && cache.Valid()
        invariant fresh(cache.Repr - old(cache.Repr))
        invariant remote.playlists.Keys == old(remote.playlists).Keys
        invariant forall p :: p in listing ==> p.id in remote.playlists
        invariant forall j :: 0 <= j < k ==> FirstNamed(listing, names[j]).Some?
      {
        var line := AddCurrentTrack(listing, names[k], ft);
        if line.Err? {
          return Err(line.error);
        }
        lines := lines + line.value;
      }
      r := Ok(lines);
    }

    /** `SpotifyCurrentlyPlayingToPlaylist`: nothing playing is an error and an
        episode is answered as such; "Like" saves the track unless it is already
        saved; any other payload is a comma-separated list of playlist names,
        each handled in turn, and a name with no playlist ends the handler with
        an error. */
    method SpotifyCurrentlyPlayingToPlaylist(payload: string) returns (r: Result<string, Error>)
      requires Valid()
      modifies remote`playlists, remote`calls, remote`savedTracks, cache, cache.Repr
      ensures Valid()
      ensures !remote.nowPlaying.PlayingTrack? ==>
        && remote.calls == old(remote.calls) && remote.playlists == old(remote.playlists)
        && remote.savedTracks == old(remote.savedTracks) && cache.view == old(cache.view)
      ensures remote.nowPlaying.NothingPlaying? ==> r == Err(Error.NothingPlaying)
      ensures remote.nowPlaying.NotATrack? ==> r == Ok("Currently playing track is not a \"FullTrack\"")
      ensures remote.nowPlaying.PlayingTrack? && payload == "Like" ==> var ft := remote.nowPlaying.track;
        && remote.playlists == old(remote.playlists) && cache.view == old(cache.view)
        && (TrackAlreadySaved(Saved(old(remote.savedTracks)), ft) ==>
              && r == Ok(KeyOfFullTrack(ft, invalid) + "\n" + "Already exists in your library.")
              && remote.calls == old(remote.calls) && remote.savedTracks == old(remote.savedTracks))
        && (!TrackAlreadySaved(Saved(old(remote.savedTracks)), ft) ==>
              && r == Ok(KeyOfFullTrack(ft, invalid) + "\n" + "Saved to your library.")
              && remote.calls == old(remote.calls) + [SaveTracks([ft.id])]
              && remote.savedTracks == SaveIds(old(remote.savedTracks), [ft.id], remote.catalog))
      ensures remote.nowPlaying.PlayingTrack? && payload != "Like" ==>
        var names := Split(payload, {','});
        && remote.savedTracks == old(remote.savedTracks)
        && (r.Err? <==> exists k :: 0 <= k < |names| && FirstNamed(Listing(remote.userPlaylists, old(remote.playlists)), names[k]).None?)
        && (r.Err? ==> exists k :: 0 <= k < |names| && r.error == PlaylistNotFound(names[k]))
        && (r.Ok? ==> KeyOfFullTrack(remote.nowPlaying.track, invalid) + "\n" <= r.value)
    {
      if remote.nowPlaying.NothingPlaying? {
        return Err(Error.NothingPlaying);
      }
      if remote.nowPlaying.NotATrack? {
        return Ok("Currently playing track is not a \"FullTrack\"");
      }
      var ft := remote.nowPlaying.track;
      var response := KeyOfFullTrack(ft, invalid) + "\n";
      if payload == "Like" {
        var line := LikeTrack(ft);
        return Ok(response + line);
      }
      var listing, requested := remote.GetCurrentUsersPlaylists();
      assert listing == Listing(remote.userPlaylists, remote.playlists);
      ListingKnown(remote.userPlaylists, remote.playlists);
      var names := Split(payload, {','});
      var lines := AddToPlaylists(listing, names, ft);
      if lines.Err? {
        ghost var k :| 0 <= k < |names| && FirstNamed(listing, names[k]).None?;
        assert FirstNamed(Listing(remote.userPlaylists, old(remote.playlists)), names[k]).None?;
        assert names == Split(payload, {','});
        return Err(lines.error);
      }
      r := Ok(response + lines.value);
    }

    /** `PlaySpotifyInKitchen`: for the payload "Jackson", playback of the
        configured `Electronic` playlist starts on the kitchen speaker; any
        other payload does nothing. */
    method PlaySpotifyInKitchen(payload: string)
      modifies remote`calls, remote`playback
      ensures payload != "Jackson" ==> remote.calls == old(remote.calls) && remote.playback == old(remote.playback)
      ensures payload == "Jackson" ==> var device := LastNamed(remote.devices, "Kitchen Echo Dot");
        && (device.None? ==> remote.calls == old(remote.calls) && remote.playback == old(remote.playback))
        && (device.Some? ==>
              remote.calls == old(remote.calls) + StartCalls(device.value,
                old(remote.playback).Some? && old(remote.playback).value.isPlaying,
                ["spotify:playlist:" + electronicPlaylist])
              && remote.playback == Some(Playback(true)))
    {
      if payload == "Jackson" {
        remote.StartPlayback("Kitchen Echo Dot", ["spotify:playlist:" + electronicPlaylist]);
      }
    }

    /** `ControlSpotifyPlayer`: "togglePlay" pauses or resumes, "next" and
        "previous" skip and say so, and any other command changes nothing and
        is answered "not supported". */
    method ControlSpotifyPlayer(command: string) returns (r: Result<string, Error>)
      modifies remote`calls, remote`playback
      ensures command == "togglePlay" ==>
        && (old(remote.playback).None? ==>
              r == Err(NoPlayback) && remote.calls == old(remote.calls) && remote.playback == old(remote.playback))
        && (old(remote.playback).Some? && old(remote.playback).value.isPlaying ==>
              r == Ok("paused") && remote.calls == old(remote.calls) + [PausePlayback]
              && remote.playback == Some(Playback(false)))
        && (old(remote.playback).Some? && !old(remote.playback).value.isPlaying ==>
              r == Ok("resumed") && remote.calls == old(remote.calls) + [ResumePlayback(None, None, None)]
              && remote.playback == Some(Playback(true)))
      ensures command == "next" ==>
        r == Ok("skipped next") && remote.calls == old(remote.calls) + [SkipNext] && remote.playback == old(remote.playback)
      ensures command == "previous" ==>
        r == Ok("skipped previous") && remote.calls == old(remote.calls) + [SkipPrevious] && remote.playback == old(remote.playback)
      ensures command != "togglePlay" && command != "next" && command != "previous" ==>
        r == Ok("not supported") && remote.calls == old(remote.calls) && remote.playback == old(remote.playback)
    {
      if command == "togglePlay" {
        r := remote.TogglePlay();
      } else if command == "next" {
        remote.Next();
        r := Ok("skipped next");
      } else if command == "previous" {
        remote.Previous();
        r := Ok("skipped previous");
      } else {
        r := Ok("not supported");
      }
    }
  }

  /** Once liked, a track the catalog knows under its id counts as saved, so
      liking it again answers that it already exists. */
  lemma LikedIsSaved(saved: seq<SavedTrack>, ft: FullTrack, catalog: map<string, FullTrack>)
    requires TrackUri(ft.id) in catalog && catalog[TrackUri(ft.id)].id == ft.id
    ensures TrackAlreadySaved(Saved(SaveIds(saved, [ft.id], catalog)), ft)
  {
    var r := SaveIds(saved, [ft.id], catalog);
    SaveIdsSaves(saved, [ft.id], catalog);
    var s :| s in r && s.track.id == ft.id;
    var i :| 0 <= i < |r| && r[i] == s;
    KeepAll(r, (s: SavedTrack) => Some(s.track));
    TrackAlreadySavedExactly(Saved(r), ft);
    assert Saved(r)[i].id == ft.id;
  }

  /** A single URI goes out in a single request. */
  lemma SingleChunk(uri: string, limit: nat)
    requires limit > 0
    ensures Chunks([uri], limit) == [[uri]]
  {
    assert ChunksFrom([uri], limit, limit) == [];
    assert [uri][0..Min(limit, 1)] == [uri];
  }
}
