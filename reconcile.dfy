/** The decisions of the download reconciliation (Application.cs), as pure
    functions over values: stamping track ids into file comments, classifying
    each wanted track against the files already downloaded, the first-wins
    merges of the track dictionaries, the choice of playlists to rescan, the
    choice of tracks to queue, and the settling of freshly downloaded files. */
module Reconcile {
  import opened Wrappers
  import opened Collections
  import opened Text
  import opened Tracks
  import opened Files
  import opened Errors
  import opened Naming
  import opened Cache
  import opened Mp3Helper

  /** `Path.Combine(dir, $"{key}.mp3")`. */
  function Mp3Path(dir: string, key: string): Path {
    Path(dir, key + ".mp3")
  }

  // ---------------------------------------------------------------------
  // AddIdToFile

  /** The comment `AddIdToFile` leaves: unchanged when `id` is already one of its
      ','-separated fields, otherwise `string.Join(",", comment, id)`. */
  function StampComment(comment: string, id: string): string {
    if id in Split(comment, {','}) then comment else comment + "," + id
  }

  /** For an id without commas (Spotify ids are base-62): afterwards the id is
      one of the comment's fields; a comment that had it is unchanged, one that
      did not gains exactly that field at the end, so an empty comment becomes
      ",id"; and stamping twice is stamping once. */
  lemma StampCommentFields(comment: string, id: string)
    requires NoneOf(id, {','})
    ensures id in Split(StampComment(comment, id), {','})
    ensures id in Split(comment, {','}) ==> StampComment(comment, id) == comment
    ensures id !in Split(comment, {','}) ==>
      Split(StampComment(comment, id), {','}) == Split(comment, {','}) + [id]
    ensures comment == [] && id != [] ==> StampComment(comment, id) == "," + id
    ensures StampComment(StampComment(comment, id), id) == StampComment(comment, id)
  {
    if id !in Split(comment, {','}) {
      assert comment + "," + id == comment + [','] + id;
      SplitAtSeparator(comment, ',', id, {','});
      SplitWithoutSeparator(id, {','});
    }
  }

  /** `AddIdToFile(path, id)` on the files: opening a missing file throws, and so
      does splitting a null comment; otherwise only that file's comment changes,
      to the stamped one. */
  function StampFile(files: map<Path, FileEntry>, p: Path, id: string): (r: Result<map<Path, FileEntry>, Error>)
    ensures p !in files ==> r == Err(FileNotFound(p))
    ensures p in files && files[p].tag.comment.None? ==> r == Err(NullComment(p))
    ensures r.Ok? <==> p in files && files[p].tag.comment.Some?
    ensures r.Ok? ==> r.value.Keys == files.Keys
    ensures r.Ok? ==> forall q :: q in files && q != p ==> r.value[q] == files[q]
    ensures r.Ok? ==>
      && r.value[p].lastWrite == files[p].lastWrite
      && r.value[p].tag.performers == files[p].tag.performers
      && r.value[p].tag.title == files[p].tag.title
      && r.value[p].tag.comment == Some(StampComment(files[p].tag.comment.value, id))
  {
    if p !in files then Err(FileNotFound(p))
    else match files[p].tag.comment
      case None => Err(NullComment(p))
      case Some(c) => Ok(files[p := files[p].(tag := files[p].tag.(comment := Some(StampComment(c, id))))])
  }

  // ---------------------------------------------------------------------
  // GetNotDownloadedTracks

  /** What `GetNotDownloadedTracks` does with one track, by its checks in order. */
  datatype Verdict =
      /** Its id is already a key of the index: skipped. */
    | Indexed
      /** Its linked id is a key: that id is stamped on the processed file the index names. */
    | StampLinked(path: Path, id: string)
      /** A processed file under its key exists: its own id is stamped on it. */
    | StampExisting(path: Path, id: string)
      /** Playable: it is to be downloaded. */
    | Wanted
      /** Not playable: skipped. */
    | Unplayable

  function Classify(t: TrackItem, index: map<string, string>, present: set<Path>, processedDir: string, invalid: set<char>): Verdict {
    if t.id in index then Indexed
    else if t.linkedTrack.Some? && t.linkedTrack.value.id in index then
      StampLinked(Mp3Path(processedDir, index[t.linkedTrack.value.id]), t.linkedTrack.value.id)
    else if Mp3Path(processedDir, KeyOfItem(t, invalid)) in present then
      StampExisting(Mp3Path(processedDir, KeyOfItem(t, invalid)), t.id)
    else if t.isPlayable then Wanted
    else Unplayable
  }

  /** The state of the scan over the wanted tracks: the files as stamped so far,
      the tracks kept for download, and the exception that ended the scan. */
  datatype Scan = Scan(files: map<Path, FileEntry>, wanted: seq<TrackItem>, failure: Option<Error>)

  /** One turn of the scan. Stamping neither creates nor removes files, so the
      paths present are the keys of the files at hand. */
  function ScanStep(s: Scan, t: TrackItem, index: map<string, string>, processedDir: string, invalid: set<char>): Scan {
    if s.failure.Some? then s
    else match Classify(t, index, s.files.Keys, processedDir, invalid)
      case Indexed => s
      case Unplayable => s
      case Wanted => s.(wanted := s.wanted + [t])
      case StampLinked(p, id) =>
        (match StampFile(s.files, p, id)
          case Err(e) => s.(failure := Some(e))
          case Ok(m) => s.(files := m))
      case StampExisting(p, id) =>
        (match StampFile(s.files, p, id)
          case Err(e) => s.(failure := Some(e))
          case Ok(m) => s.(files := m))
  }

  /** The scan over `ts`, in order, from the files as they are. */
  function ScanAll(files: map<Path, FileEntry>, ts: seq<TrackItem>, index: map<string, string>, processedDir: string, invalid: set<char>): Scan {
    if ts == [] then Scan(files, [], None)
    else ScanStep(ScanAll(files, ts[..|ts| - 1], index, processedDir, invalid), ts[|ts| - 1], index, processedDir, invalid)
  }

  /** Once the scan has failed, the later tracks change nothing: the scan of all
      the tracks is the scan up to the failure. */
  lemma {:induction false} ScanAllStops(files: map<Path, FileEntry>, ts: seq<TrackItem>, n: nat, index: map<string, string>, processedDir: string, invalid: set<char>)
    requires n <= |ts| && ScanAll(files, ts[..n], index, processedDir, invalid).failure.Some?
    ensures ScanAll(files, ts, index, processedDir, invalid) == ScanAll(files, ts[..n], index, processedDir, invalid)
    decreases |ts|
  {
    if n < |ts| {
      var init := ts[..|ts| - 1];
      assert init[..n] == ts[..n];
      ScanAllStops(files, init, n, index, processedDir, invalid);
    } else {
      assert ts[..n] == ts;
    }
  }

  /** Whether a track is to be downloaded: playable, its id not indexed, its
      linked id (if any) not indexed, and no processed file under its key. */
  function IsWanted(index: map<string, string>, present: set<Path>, processedDir: string, invalid: set<char>): TrackItem -> bool {
    t => Classify(t, index, present, processedDir, invalid).Wanted?
  }

  /** The tracks `GetNotDownloadedTracks` returns when no stamp fails. */
  function Candidates(ts: seq<TrackItem>, index: map<string, string>, present: set<Path>, processedDir: string, invalid: set<char>): seq<TrackItem> {
    Filter(ts, IsWanted(index, present, processedDir, invalid))
  }

  /** A track is a candidate exactly when it is among the tracks, is playable,
      is not downloaded under its own id or its linked id, and has no processed
      file under its key. */
  lemma CandidatesExactly(ts: seq<TrackItem>, index: map<string, string>, present: set<Path>, processedDir: string, invalid: set<char>)
    ensures forall t :: t in Candidates(ts, index, present, processedDir, invalid) <==>
      && t in ts
      && t.isPlayable
      && t.id !in index
      && (t.linkedTrack.None? || t.linkedTrack.value.id !in index)
      && Mp3Path(processedDir, KeyOfItem(t, invalid)) !in present
  {
    FilterIff(ts, IsWanted(index, present, processedDir, invalid));
  }

  /** Candidates keep the order of the tracks: those of a concatenation are the
      candidates of each part, in turn. */
  lemma CandidatesAppend(a: seq<TrackItem>, b: seq<TrackItem>, index: map<string, string>, present: set<Path>, processedDir: string, invalid: set<char>)
    ensures Candidates(a + b, index, present, processedDir, invalid)
      == Candidates(a, index, present, processedDir, invalid) + Candidates(b, index, present, processedDir, invalid)
  {
    FilterAppend(a, b, IsWanted(index, present, processedDir, invalid));
  }

  /** The track at which a stamp would fail: a stamp verdict whose file is
      missing or has no comment. */
  predicate StampFails(t: TrackItem, files: map<Path, FileEntry>, index: map<string, string>, processedDir: string, invalid: set<char>) {
    var v := Classify(t, index, files.Keys, processedDir, invalid);
    (v.StampLinked? || v.StampExisting?) && (v.path !in files || files[v.path].tag.comment.None?)
  }

  /** Stamping keeps the set of files, and whether each file has a comment. */
  predicate SameShape(files: map<Path, FileEntry>, files': map<Path, FileEntry>) {
    && files'.Keys == files.Keys
    && forall p :: p in files ==> (files'[p].tag.comment.None? <==> files[p].tag.comment.None?)
  }

  /** The scan keeps the files and which of them have a comment, collects the
      candidates while no stamp fails, and fails exactly when some track's stamp
      has no file or no comment to work on. */
  lemma {:induction false} ScanAllSpec(files: map<Path, FileEntry>, ts: seq<TrackItem>, index: map<string, string>, processedDir: string, invalid: set<char>)
    ensures SameShape(files, ScanAll(files, ts, index, processedDir, invalid).files)
    ensures ScanAll(files, ts, index, processedDir, invalid).failure.None? ==>
      ScanAll(files, ts, index, processedDir, invalid).wanted == Candidates(ts, index, files.Keys, processedDir, invalid)
    ensures ScanAll(files, ts, index, processedDir, invalid).failure.None? <==>
      forall i :: 0 <= i < |ts| ==> !StampFails(ts[i], files, index, processedDir, invalid)
  {
    if ts != [] {
      var init := ts[..|ts| - 1];
      var t := ts[|ts| - 1];
      ScanAllSpec(files, init, index, processedDir, invalid);
      var s := ScanAll(files, init, index, processedDir, invalid);
      assert ts == init + [t];
      CandidatesAppend(init, [t], index, files.Keys, processedDir, invalid);
      ScanStepSpec(files, s, t, index, processedDir, invalid);
    }
  }

  /** One turn of the scan, from files of the same shape as `files`: it keeps
      the shape, fails exactly when the track's stamp would fail on `files`, and
      otherwise adds the track to the wanted ones exactly when it is a candidate. */
  lemma ScanStepSpec(files: map<Path, FileEntry>, s: Scan, t: TrackItem, index: map<string, string>, processedDir: string, invalid: set<char>)
    requires SameShape(files, s.files)
    ensures SameShape(files, ScanStep(s, t, index, processedDir, invalid).files)
    ensures s.failure.None? ==>
      (ScanStep(s, t, index, processedDir, invalid).failure.None? <==> !StampFails(t, files, index, processedDir, invalid))
    ensures s.failure.None? && ScanStep(s, t, index, processedDir, invalid).failure.None? ==>
      ScanStep(s, t, index, processedDir, invalid).wanted == s.wanted + Candidates([t], index, files.Keys, processedDir, invalid)
  {
    assert Classify(t, index, s.files.Keys, processedDir, invalid) == Classify(t, index, files.Keys, processedDir, invalid);
    var f := IsWanted(index, files.Keys, processedDir, invalid);
    assert Filter([t], f) == (if f(t) then [t] else []) + Filter([t][1..], f);
    assert [t][1..] == [];
  }

  /** `id` is one of the ','-separated fields of the comment of the file at `p`. */
  predicate HasField(files: map<Path, FileEntry>, p: Path, id: string) {
    p in files && files[p].tag.comment.Some? && id in Split(files[p].tag.comment.value, {','})
  }

  /** Every id a file's comment held is still held. */
  ghost predicate FieldsKept(files: map<Path, FileEntry>, files': map<Path, FileEntry>) {
    forall p, id :: HasField(files, p, id) ==> HasField(files', p, id)
  }

  /** A successful stamp leaves the id in the file's comment and removes no id
      from any comment. */
  lemma StampFileKeeps(files: map<Path, FileEntry>, p: Path, id: string)
    requires NoneOf(id, {','}) && StampFile(files, p, id).Ok?
    ensures FieldsKept(files, StampFile(files, p, id).value)
    ensures HasField(StampFile(files, p, id).value, p, id)
  {
    var m := StampFile(files, p, id).value;
    StampCommentFields(files[p].tag.comment.value, id);
    forall q, x | HasField(files, q, x)
      ensures HasField(m, q, x)
    {
    }
  }

  /** The ids `GetNotDownloadedTracks` stamps have no commas. */
  predicate CommaFreeIds(ts: seq<TrackItem>) {
    forall i :: 0 <= i < |ts| ==>
      NoneOf(ts[i].id, {','}) && (ts[i].linkedTrack.Some? ==> NoneOf(ts[i].linkedTrack.value.id, {','}))
  }

  /** One turn of the scan that does not fail keeps every id and leaves the id
      it stamps, if any, in its file's comment. */
  lemma ScanStepStamps(s: Scan, t: TrackItem, index: map<string, string>, processedDir: string, invalid: set<char>)
    requires NoneOf(t.id, {','}) && (t.linkedTrack.Some? ==> NoneOf(t.linkedTrack.value.id, {','}))
    requires ScanStep(s, t, index, processedDir, invalid).failure.None?
    ensures FieldsKept(s.files, ScanStep(s, t, index, processedDir, invalid).files)
    ensures var v := Classify(t, index, s.files.Keys, processedDir, invalid);
      (v.StampLinked? || v.StampExisting?) ==> HasField(ScanStep(s, t, index, processedDir, invalid).files, v.path, v.id)
  {
    var v := Classify(t, index, s.files.Keys, processedDir, invalid);
    if v.StampLinked? || v.StampExisting? {
      StampFileKeeps(s.files, v.path, v.id);
    }
  }

  /** After a scan that did not fail, every id it set out to stamp is one of the
      fields of its file's comment, and no id was removed from any comment. */
  lemma {:induction false} ScanAllStamps(files: map<Path, FileEntry>, ts: seq<TrackItem>, index: map<string, string>, processedDir: string, invalid: set<char>)
    requires CommaFreeIds(ts)
    requires ScanAll(files, ts, index, processedDir, invalid).failure.None?
    ensures FieldsKept(files, ScanAll(files, ts, index, processedDir, invalid).files)
    ensures forall i :: 0 <= i < |ts| ==>
      var v := Classify(ts[i], index, files.Keys, processedDir, invalid);
      (v.StampLinked? || v.StampExisting?) ==> HasField(ScanAll(files, ts, index, processedDir, invalid).files, v.path, v.id)
  {
    if ts != [] {
      var init := ts[..|ts| - 1];
      var t := ts[|ts| - 1];
      assert CommaFreeIds(init);
      ScanAllStamps(files, init, index, processedDir, invalid);
      ScanAllSpec(files, init, index, processedDir, invalid);
      var s := ScanAll(files, init, index, processedDir, invalid);
      var r := ScanAll(files, ts, index, processedDir, invalid);
      ScanStepStamps(s, t, index, processedDir, invalid);
      assert s.files.Keys == files.Keys;
      forall i | 0 <= i < |ts|
        ensures var v := Classify(ts[i], index, files.Keys, processedDir, invalid);
          (v.StampLinked? || v.StampExisting?) ==> HasField(r.files, v.path, v.id)
      {
        if i < |init| {
          assert ts[i] == init[i];
        }
      }
    }
  }

  // ---------------------------------------------------------------------
  // GetDownloadedTracks

  /** `TryAdd` of every entry of `second` into a dictionary holding `first`:
      keys already present keep their value. */
  function FirstWins<K, V>(first: map<K, V>, second: map<K, V>): map<K, V> {
    map k | k in first.Keys + second.Keys :: if k in first then first[k] else second[k]
  }

  /** The merge holds the keys of both; a key of the first keeps its value, and a
      key only of the second takes the second's. */
  lemma FirstWinsPrefers<K, V>(first: map<K, V>, second: map<K, V>)
    ensures FirstWins(first, second).Keys == first.Keys + second.Keys
    ensures forall k :: k in first ==> FirstWins(first, second)[k] == first[k]
    ensures forall k :: k in second && k !in first ==> FirstWins(first, second)[k] == second[k]
  {
  }

  // ---------------------------------------------------------------------
  // GetAllTracksForDownload: Dictionary<string, TrackItem>.TryAdd in order

  /** The dictionary, in insertion order, after `TryAdd(t.Id, t)` for each of
      `ts` in turn: a track whose id is already a key is dropped. */
  function TryAddAll(acc: seq<TrackItem>, ts: seq<TrackItem>): seq<TrackItem>
    decreases |ts|
  {
    if ts == [] then acc
    else TryAddAll(if ts[0].id in ItemIds(acc) then acc else acc + [ts[0]], ts[1..])
  }

  /** The first of `s` with the given id. */
  function FirstWithId(s: seq<TrackItem>, id: string): Option<TrackItem> {
    if s == [] then None
    else if s[0].id == id then Some(s[0])
    else FirstWithId(s[1..], id)
  }

  /** Adding all of `a + b` is adding all of `a`, then all of `b`. */
  lemma {:induction false} TryAddAllAppend(acc: seq<TrackItem>, a: seq<TrackItem>, b: seq<TrackItem>)
    ensures TryAddAll(acc, a + b) == TryAddAll(TryAddAll(acc, a), b)
    decreases |a|
  {
    if a != [] {
      var acc' := if a[0].id in ItemIds(acc) then acc else acc + [a[0]];
      assert (a + b)[1..] == a[1..] + b;
      TryAddAllAppend(acc', a[1..], b);
    } else {
      assert a + b == b;
    }
  }

  /** The ids of a concatenation are the ids of each part, in turn. */
  lemma {:induction false} ItemIdsAppend(a: seq<TrackItem>, b: seq<TrackItem>)
    ensures ItemIds(a + b) == ItemIds(a) + ItemIds(b)
    decreases |a|
  {
    if a != [] {
      assert (a + b)[1..] == a[1..] + b;
      ItemIdsAppend(a[1..], b);
    } else {
      assert a + b == b;
    }
  }

  /** In a list of distinct ids, each track is the first with its id. */
  lemma {:induction false} FirstWithIdDistinct(s: seq<TrackItem>)
    requires Distinct(ItemIds(s))
    ensures forall k :: 0 <= k < |s| ==> FirstWithId(s, s[k].id) == Some(s[k])
  {
    if s != [] {
      assert ItemIds(s) == [s[0].id] + ItemIds(s[1..]);
      DistinctAppend([s[0].id], ItemIds(s[1..]));
      FirstWithIdDistinct(s[1..]);
      ItemIdsHas(s[1..]);
      forall k | 0 < k < |s|
        ensures FirstWithId(s, s[k].id) == Some(s[k])
      {
        assert s[1..][k - 1] == s[k];
        assert s[k].id in ItemIds(s[1..]);
        var j :| 0 <= j < |ItemIds(s[1..])| && ItemIds(s[1..])[j] == s[k].id;
        assert [s[0].id][0] != ItemIds(s[1..])[j];
      }
    }
  }

  /** A track whose id occurs before it, or is not the id sought, does not
      change which track is the first with that id. */
  lemma {:induction false} FirstWithIdSkip(a: seq<TrackItem>, x: TrackItem, rest: seq<TrackItem>, id: string)
    requires x.id != id || x.id in ItemIds(a)
    ensures FirstWithId(a + [x] + rest, id) == FirstWithId(a + rest, id)
    decreases |a|
  {
    if a == [] {
      assert a + [x] + rest == [x] + rest && a + rest == rest;
      assert ([x] + rest)[1..] == rest;
    } else if a[0].id != id {
      assert (a + [x] + rest)[1..] == a[1..] + [x] + rest;
      assert (a + rest)[1..] == a[1..] + rest;
      FirstWithIdSkip(a[1..], x, rest, id);
    }
  }

  /** The tracks `TryAddAll` keeps: what was there stays in front, ids stay
      distinct, every id of the input is kept, and each kept track is the first
      one with its id. */
  lemma {:induction false} TryAddAllFirstWins(acc: seq<TrackItem>, ts: seq<TrackItem>)
    requires Distinct(ItemIds(acc))
    ensures var r := TryAddAll(acc, ts);
      && |acc| <= |r| && r[..|acc|] == acc
      && Distinct(ItemIds(r))
      && Elements(ItemIds(r)) == Elements(ItemIds(acc + ts))
      && forall k :: 0 <= k < |r| ==> FirstWithId(acc + ts, r[k].id) == Some(r[k])
    decreases |ts|
  {
    if ts == [] {
      assert acc + ts == acc;
      FirstWithIdDistinct(acc);
    } else {
      var x := ts[0];
      var rest := ts[1..];
      assert acc + ts == acc + [x] + rest;
      ItemIdsAppend(acc, [x]);
      ItemIdsAppend(acc + [x], rest);
      ItemIdsAppend(acc, rest);
      ElementsConcat(ItemIds(acc), [x.id]);
      ElementsConcat(ItemIds(acc) + [x.id], ItemIds(rest));
      ElementsConcat(ItemIds(acc), ItemIds(rest));
      if x.id in ItemIds(acc) {
        TryAddAllFirstWins(acc, rest);
        var r := TryAddAll(acc, rest);
        forall k | 0 <= k < |r|
          ensures FirstWithId(acc + ts, r[k].id) == Some(r[k])
        {
          FirstWithIdSkip(acc, x, rest, r[k].id);
        }
      } else {
        DistinctAppend(ItemIds(acc), [x.id]);
        TryAddAllFirstWins(acc + [x], rest);
        var r := TryAddAll(acc + [x], rest);
        assert r[..|acc|] == r[..|acc| + 1][..|acc|];
      }
    }
  }

  // ---------------------------------------------------------------------
  // GetPlaylistsForDownload

  /** Whether a playlist of the user's listing is rescanned: owned by the user,
      not collaborative, not skipped, and either not cached, cached under another
      snapshot, or cached with tracks still to download. */
  predicate NeedsRescan(p: SimplePlaylist, userId: string, skip: seq<string>, view: map<string, Entry>) {
    if p.ownerId != userId || p.collaborative || p.id in skip then false
    else p.id !in view || p.snapshotId != view[p.id].snapshotId || view[p.id].containsTracksToDownload
  }

  function Rescan(userId: string, skip: seq<string>, view: map<string, Entry>): SimplePlaylist -> bool {
    p => NeedsRescan(p, userId, skip, view)
  }

  /** The playlists `GetPlaylistsForDownload` returns, in listing order. */
  function ForDownload(listing: seq<SimplePlaylist>, userId: string, skip: seq<string>, view: map<string, Entry>): seq<SimplePlaylist> {
    Filter(listing, Rescan(userId, skip, view))
  }

  /** A playlist is returned exactly when it is listed, the user owns it, it is
      not collaborative and not skipped, and its cache entry is missing, stale or
      flagged; an unchanged, unflagged cached playlist is never rescanned. */
  lemma ForDownloadExactly(listing: seq<SimplePlaylist>, userId: string, skip: seq<string>, view: map<string, Entry>)
    ensures forall p :: p in ForDownload(listing, userId, skip, view) <==>
      && p in listing
      && p.ownerId == userId && !p.collaborative && p.id !in skip
      && (p.id !in view || p.snapshotId != view[p.id].snapshotId || view[p.id].containsTracksToDownload)
    ensures |ForDownload(listing, userId, skip, view)| <= |listing|
  {
    FilterIff(listing, Rescan(userId, skip, view));
    FilterLength(listing, Rescan(userId, skip, view));
  }

  // ---------------------------------------------------------------------
  // AddTracksToDownloadPlaylist

  /** The URIs `AddTracksToDownloadPlaylist` sends, in order: those of the
      candidates whose id is not yet on the download playlist. */
  function QueueUris(cands: seq<TrackItem>, queued: set<string>): seq<string> {
    if cands == [] then []
    else (if cands[0].id in queued then [] else [cands[0].uri]) + QueueUris(cands[1..], queued)
  }

  /** A URI is sent exactly when some candidate not yet queued has it; at most one
      URI per candidate, and a concatenation sends each part's URIs in turn. */
  lemma {:induction false} QueueUrisSpec(cands: seq<TrackItem>, queued: set<string>)
    ensures forall u :: u in QueueUris(cands, queued) <==>
      exists k :: 0 <= k < |cands| && cands[k].id !in queued && cands[k].uri == u
    ensures |QueueUris(cands, queued)| <= |cands|
    ensures queued == {} ==> |QueueUris(cands, queued)| == |cands|
  {
    if cands != [] {
      QueueUrisSpec(cands[1..], queued);
      forall u | u in QueueUris(cands, queued)
        ensures exists k :: 0 <= k < |cands| && cands[k].id !in queued && cands[k].uri == u
      {
        if u !in QueueUris(cands[1..], queued) {
          assert cands[0].id !in queued && cands[0].uri == u;
        } else {
          var k :| 0 <= k < |cands[1..]| && cands[1..][k].id !in queued && cands[1..][k].uri == u;
          assert cands[k + 1] == cands[1..][k];
        }
      }
      forall u | exists k :: 0 <= k < |cands| && cands[k].id !in queued && cands[k].uri == u
        ensures u in QueueUris(cands, queued)
      {
        var k :| 0 <= k < |cands| && cands[k].id !in queued && cands[k].uri == u;
        if k > 0 {
          assert cands[1..][k - 1] == cands[k];
        }
      }
    }
  }

  lemma {:induction false} QueueUrisAppend(a: seq<TrackItem>, b: seq<TrackItem>, queued: set<string>)
    ensures QueueUris(a + b, queued) == QueueUris(a, queued) + QueueUris(b, queued)
    decreases |a|
  {
    if a != [] {
      assert (a + b)[1..] == a[1..] + b;
      QueueUrisAppend(a[1..], b, queued);
    } else {
      assert a + b == b;
    }
  }

  // ---------------------------------------------------------------------
  // ProcessRecentlyDownloadedTracks

  /** The first track on the download playlist whose key is `key`. */
  function FirstMatch(key: string, tracks: seq<FullTrack>, invalid: set<char>): Option<FullTrack> {
    if tracks == [] then None
    else if KeyOfFullTrack(tracks[0], invalid) == key then Some(tracks[0])
    else FirstMatch(key, tracks[1..], invalid)
  }

  /** No track matches exactly when none has the key; a match is a track with
      the key, and no track before it has the key. */
  lemma {:induction false} FirstMatchSpec(key: string, tracks: seq<FullTrack>, invalid: set<char>)
    ensures FirstMatch(key, tracks, invalid).None? <==>
      forall j :: 0 <= j < |tracks| ==> KeyOfFullTrack(tracks[j], invalid) != key
    ensures FirstMatch(key, tracks, invalid).Some? ==>
      exists k :: 0 <= k < |tracks| && tracks[k] == FirstMatch(key, tracks, invalid).value
        && KeyOfFullTrack(tracks[k], invalid) == key
        && forall j :: 0 <= j < k ==> KeyOfFullTrack(tracks[j], invalid) != key
  {
    if tracks != [] && KeyOfFullTrack(tracks[0], invalid) != key {
      FirstMatchSpec(key, tracks[1..], invalid);
      if FirstMatch(key, tracks, invalid).Some? {
        var k :| 0 <= k < |tracks[1..]| && tracks[1..][k] == FirstMatch(key, tracks, invalid).value
          && KeyOfFullTrack(tracks[1..][k], invalid) == key
          && forall j :: 0 <= j < k ==> KeyOfFullTrack(tracks[1..][j], invalid) != key;
        forall j | 0 <= j < k + 1
          ensures KeyOfFullTrack(tracks[j], invalid) != key
        {
          if j > 0 {
            assert tracks[j] == tracks[1..][j - 1];
          }
        }
      } else {
        forall j | 0 <= j < |tracks|
          ensures KeyOfFullTrack(tracks[j], invalid) != key
        {
          if j > 0 {
            assert tracks[j] == tracks[1..][j - 1];
          }
        }
      }
    }
  }

  /** A matched download: its tag, loaded with the file, is saved with the comment
      set to the track id; then the file is moved to `dest`, or deleted when a
      file already exists there. */
  function Settle(files: map<Path, FileEntry>, p: Path, tag: Tag, id: string, dest: Path): (r: map<Path, FileEntry>)
    requires p in files
    ensures p !in r
    ensures p != dest ==> dest in r
    ensures dest !in files ==> r[dest] == FileEntry(tag.(comment := Some(id)), files[p].lastWrite)
    ensures dest in files && dest != p ==> r[dest] == files[dest]
    ensures forall q :: q != p && q != dest ==> (q in r <==> q in files) && (q in files ==> r[q] == files[q])
  {
    var saved := files[p := FileEntry(tag.(comment := Some(id)), files[p].lastWrite)];
    if dest !in saved then (saved - {p})[dest := saved[p]] else saved - {p}
  }

  /** The state of `ProcessRecentlyDownloadedTracks`: the files, the URIs to remove
      from the download playlist, and the exception that ended the loop. */
  datatype Progress = Progress(files: map<Path, FileEntry>, removed: seq<string>, failure: Option<Error>)

  /** One downloaded file: a file without a performer throws; one whose key no
      track on the download playlist has is left alone; otherwise it is settled
      into the mixed-in-key directory and the first matching track's URI is
      collected. Saving a file that is gone throws. */
  function ProcessStep(st: Progress, f: TagFile, tracks: seq<FullTrack>, mixedDir: string, invalid: set<char>): Progress {
    if st.failure.Some? then st
    else match KeyOfTag(f.tag, invalid)
      case None => st.(failure := Some(NoPerformer(f.path)))
      case Some(key) =>
        match FirstMatch(key, tracks, invalid)
          case None => st
          case Some(t) =>
            if f.path !in st.files then st.(failure := Some(FileNotFound(f.path)))
            else Progress(Settle(st.files, f.path, f.tag, t.id, Mp3Path(mixedDir, key)), st.removed + [t.uri], None)
  }

  /** The loop over the downloaded files, in order. */
  function ProcessAll(files: map<Path, FileEntry>, fs: seq<TagFile>, tracks: seq<FullTrack>, mixedDir: string, invalid: set<char>): Progress {
    if fs == [] then Progress(files, [], None)
    else ProcessStep(ProcessAll(files, fs[..|fs| - 1], tracks, mixedDir, invalid), fs[|fs| - 1], tracks, mixedDir, invalid)
  }

  /** Once the loop has thrown, the later files change nothing: the run over all
      the files is the run up to the exception. */
  lemma {:induction false} ProcessAllStops(files: map<Path, FileEntry>, fs: seq<TagFile>, n: nat, tracks: seq<FullTrack>, mixedDir: string, invalid: set<char>)
    requires n <= |fs| && ProcessAll(files, fs[..n], tracks, mixedDir, invalid).failure.Some?
    ensures ProcessAll(files, fs, tracks, mixedDir, invalid) == ProcessAll(files, fs[..n], tracks, mixedDir, invalid)
    decreases |fs|
  {
    if n < |fs| {
      var init := fs[..|fs| - 1];
      assert init[..n] == fs[..n];
      ProcessAllStops(files, init, n, tracks, mixedDir, invalid);
    } else {
      assert fs[..n] == fs;
    }
  }

  /** Whether a downloaded file's key is the key of a track on the download playlist. */
  predicate Matches(f: TagFile, tracks: seq<FullTrack>, invalid: set<char>) {
    KeyOfTag(f.tag, invalid).Some? && FirstMatch(KeyOfTag(f.tag, invalid).value, tracks, invalid).Some?
  }

  /** The number of files that match a track. */
  function MatchCount(fs: seq<TagFile>, tracks: seq<FullTrack>, invalid: set<char>): nat {
    if fs == [] then 0
    else MatchCount(fs[..|fs| - 1], tracks, invalid) + (if Matches(fs[|fs| - 1], tracks, invalid) then 1 else 0)
  }

  /** Every URI collected belongs to a track on the download playlist, one per
      file at most; a loop that completes collects one URI per matching file. */
  lemma {:induction false} ProcessAllCollects(files: map<Path, FileEntry>, fs: seq<TagFile>, tracks: seq<FullTrack>, mixedDir: string, invalid: set<char>)
    ensures var r := ProcessAll(files, fs, tracks, mixedDir, invalid);
      && |r.removed| <= |fs|
      && (forall k :: 0 <= k < |r.removed| ==> exists j :: 0 <= j < |tracks| && tracks[j].uri == r.removed[k])
      && (r.failure.None? ==> |r.removed| == MatchCount(fs, tracks, invalid))
  {
    if fs != [] {
      var init := fs[..|fs| - 1];
      var f := fs[|fs| - 1];
      ProcessAllCollects(files, init, tracks, mixedDir, invalid);
      var st := ProcessAll(files, init, tracks, mixedDir, invalid);
      if st.failure.None? && KeyOfTag(f.tag, invalid).Some? {
        var key := KeyOfTag(f.tag, invalid).value;
        FirstMatchSpec(key, tracks, invalid);
      }
    }
  }

  /** The downloaded files exist, lie outside the mixed-in-key directory, and are
      distinct files. */
  predicate DownloadsApart(files: map<Path, FileEntry>, fs: seq<TagFile>, mixedDir: string) {
    && (forall k :: 0 <= k < |fs| ==> fs[k].path in files && fs[k].path.dir != mixedDir)
    && (forall i, j :: 0 <= i < j < |fs| ==> fs[i].path != fs[j].path)
  }

  /** None of the first `n` downloaded files is at `q`. */
  predicate NoneAt(fs: seq<TagFile>, n: nat, q: Path) {
    forall k :: 0 <= k < n && k < |fs| ==> fs[k].path != q
  }

  /** How a downloaded file ends up: a matching file has left its place and a
      file exists under its key in the mixed-in-key directory; any other file is
      where it was, as it was. */
  predicate SettledIn(r: map<Path, FileEntry>, files: map<Path, FileEntry>, f: TagFile, tracks: seq<FullTrack>, mixedDir: string, invalid: set<char>) {
    if Matches(f, tracks, invalid) then
      f.path !in r && Mp3Path(mixedDir, KeyOfTag(f.tag, invalid).value) in r
    else
      f.path in files && f.path in r && r[f.path] == files[f.path]
  }

  /** One turn on a file that is still there, outside the mixed-in-key directory:
      it fails exactly when the file has no performer; otherwise it settles that
      file, touches no other file outside the mixed-in-key directory, and removes
      no file from it. */
  lemma ProcessStepSettles(st: Progress, f: TagFile, tracks: seq<FullTrack>, mixedDir: string, invalid: set<char>)
    requires st.failure.None? && f.path in st.files && f.path.dir != mixedDir
    ensures var r := ProcessStep(st, f, tracks, mixedDir, invalid);
      && (r.failure.None? <==> |f.tag.performers| > 0)
      && (r.failure.None? ==> SettledIn(r.files, st.files, f, tracks, mixedDir, invalid))
      && (r.failure.None? ==> forall q :: q != f.path && q.dir != mixedDir ==>
            (q in r.files <==> q in st.files) && (q in st.files ==> r.files[q] == st.files[q]))
      && (r.failure.None? ==> forall q :: q in st.files && q.dir == mixedDir ==> q in r.files)
  {
  }

  /** The loop over the first `n` downloaded files fails exactly when one of them
      has no performer; otherwise those files are settled, the later ones are
      untouched, and so is every file outside the mixed-in-key directory that is
      none of them. */
  lemma {:induction false} ProcessPrefix(files: map<Path, FileEntry>, fs: seq<TagFile>, n: nat, tracks: seq<FullTrack>, mixedDir: string, invalid: set<char>)
    requires n <= |fs| && DownloadsApart(files, fs, mixedDir)
    ensures var r := ProcessAll(files, fs[..n], tracks, mixedDir, invalid);
      && (r.failure.None? <==> forall k :: 0 <= k < n ==> |fs[k].tag.performers| > 0)
      && (r.failure.None? ==> forall k :: n <= k < |fs| ==> fs[k].path in r.files && r.files[fs[k].path] == files[fs[k].path])
      && (r.failure.None? ==> forall k :: 0 <= k < n ==> SettledIn(r.files, files, fs[k], tracks, mixedDir, invalid))
      && (r.failure.None? ==> forall q: Path :: q.dir != mixedDir && NoneAt(fs, n, q) ==>
            (q in r.files <==> q in files) && (q in files ==> r.files[q] == files[q]))
  {
    if n > 0 {
      ProcessPrefix(files, fs, n - 1, tracks, mixedDir, invalid);
      assert fs[..n][..n - 1] == fs[..n - 1];
      var f := fs[n - 1];
      var st := ProcessAll(files, fs[..n - 1], tracks, mixedDir, invalid);
      var r := ProcessAll(files, fs[..n], tracks, mixedDir, invalid);
      assert r == ProcessStep(st, f, tracks, mixedDir, invalid);
      if st.failure.None? {
        ProcessStepSettles(st, f, tracks, mixedDir, invalid);
        if r.failure.None? {
          forall k | n <= k < |fs|
            ensures fs[k].path in r.files && r.files[fs[k].path] == files[fs[k].path]
          {
            assert fs[k].path != f.path;
          }
          forall k | 0 <= k < n
            ensures SettledIn(r.files, files, fs[k], tracks, mixedDir, invalid)
          {
            if k < n - 1 {
              assert fs[k].path != f.path;
              if Matches(fs[k], tracks, invalid) {
                assert Mp3Path(mixedDir, KeyOfTag(fs[k].tag, invalid).value).dir == mixedDir;
              }
            }
          }
          forall q: Path | q.dir != mixedDir && NoneAt(fs, n, q)
            ensures (q in r.files <==> q in files) && (q in files ==> r.files[q] == files[q])
          {
            assert fs[n - 1].path != q;
          }
        }
      }
    }
  }

  /** When the downloaded files are apart from the mixed-in-key directory, the
      loop fails exactly when some file has no performer, and a loop that
      completes leaves every matching download moved or deleted and every other
      download as it was. */
  lemma ProcessAllSettles(files: map<Path, FileEntry>, fs: seq<TagFile>, tracks: seq<FullTrack>, mixedDir: string, invalid: set<char>)
    requires DownloadsApart(files, fs, mixedDir)
    ensures var r := ProcessAll(files, fs, tracks, mixedDir, invalid);
      && (r.failure.None? <==> forall k :: 0 <= k < |fs| ==> |fs[k].tag.performers| > 0)
      && (r.failure.None? ==> forall k :: 0 <= k < |fs| ==> SettledIn(r.files, files, fs[k], tracks, mixedDir, invalid))
  {
    ProcessPrefix(files, fs, |fs|, tracks, mixedDir, invalid);
    assert fs[..|fs|] == fs;
  }

  /** A loop that completes touches no file outside the mixed-in-key directory
      other than the downloads. */
  lemma ProcessAllKeepsOthers(files: map<Path, FileEntry>, fs: seq<TagFile>, tracks: seq<FullTrack>, mixedDir: string, invalid: set<char>)
    requires DownloadsApart(files, fs, mixedDir)
    ensures var r := ProcessAll(files, fs, tracks, mixedDir, invalid);
      r.failure.None? ==> forall q: Path :: q.dir != mixedDir && NoneAt(fs, |fs|, q) ==>
        (q in r.files <==> q in files) && (q in files ==> r.files[q] == files[q])
  {
    ProcessPrefix(files, fs, |fs|, tracks, mixedDir, invalid);
    assert fs[..|fs|] == fs;
  }

  /** The message `ProcessRecentlyDownloadedTracks` returns after the loop. */
  function ProcessedMessage(removed: nat, downloaded: nat): string {
    "Processed " + NatToString(removed) + "/" + NatToString(downloaded) + " downloaded tracks."
  }

  /** Between the fixed words, the message holds the two counts and a '/'. */
  lemma MessageMiddle(m: nat, n: nat)
    ensures var msg := ProcessedMessage(m, n);
      |msg| >= 29 && msg[10..|msg| - 19] == NatToString(m) + "/" + NatToString(n)
  {
    var s := NatToString(m) + "/" + NatToString(n);
    assert ProcessedMessage(m, n) == "Processed " + s + " downloaded tracks.";
  }

  /** The message determines both counts: different counts give different
      messages. */
  lemma ProcessedMessageCounts(m: nat, n: nat, m': nat, n': nat)
    requires ProcessedMessage(m, n) == ProcessedMessage(m', n')
    ensures m == m' && n == n'
  {
    var a, b, a', b' := NatToString(m), NatToString(n), NatToString(m'), NatToString(n');
    var s, s' := a + "/" + b, a' + "/" + b';
    MessageMiddle(m, n);
    MessageMiddle(m', n');
    assert '/' !in a && '/' !in a';
    UpToFirst(a, '/', b);
    UpToFirst(a', '/', b');
    assert b == s[|a| + 1..] && b' == s'[|a'| + 1..];
    NatToStringInjective(m, m');
    NatToStringInjective(n, n');
  }

  // ---------------------------------------------------------------------
  // TrackAlreadySaved, and the membership check of SpotifyCurrentlyPlayingToPlaylist

  /** Whether a track is among `ids` under its own id or under the id it was
      relinked from. */
  predicate KnownById(ids: seq<string>, t: FullTrack) {
    t.id in ids || (t.linkedFrom.Some? && t.linkedFrom.value.id in ids)
  }

  /** `TrackAlreadySaved(tracks, track)`. */
  predicate TrackAlreadySaved(tracks: seq<FullTrack>, t: FullTrack) {
    KnownById(Ids(tracks), t)
  }

  /** A track is already saved exactly when some saved track has its id or the id
      it was relinked from. */
  lemma TrackAlreadySavedExactly(tracks: seq<FullTrack>, t: FullTrack)
    ensures TrackAlreadySaved(tracks, t) <==>
      exists i :: 0 <= i < |tracks| && (tracks[i].id == t.id || (t.linkedFrom.Some? && tracks[i].id == t.linkedFrom.value.id))
  {
    IdsHas(tracks);
  }

  /** A playlist already contains a track exactly when one of its items has the
      track's id or the id it was relinked from. */
  lemma ContainsTrackExactly(items: seq<TrackItem>, t: FullTrack)
    ensures KnownById(ItemIds(items), t) <==>
      exists i :: 0 <= i < |items| && (items[i].id == t.id || (t.linkedFrom.Some? && items[i].id == t.linkedFrom.value.id))
  {
    ItemIdsHas(items);
  }

  /** The ids of cached items are the ids of the tracks they were built from, so
      a cache entry holding a playlist's tracks answers the membership check as
      the playlist itself does. */
  lemma {:induction false} ItemIdsOfTracks(ts: seq<FullTrack>)
    ensures ItemIds(ToItems(ts)) == Ids(ts)
  {
    if ts != [] {
      ItemIdsOfTracks(ts[1..]);
      FromFullTrackCopies(ts[0]);
    }
  }
}
