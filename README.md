# Download reconciliation of the MQTT/Spotify bridge, in Dafny

This project models the core of a home-automation bridge. The bridge keeps a
local archive of MP3 files in step with a Spotify library. It works through a
*download playlist*: tracks missing locally are queued on that playlist, an
external downloader fetches them, and the bridge then files the fresh
downloads and takes them off the playlist. The model also covers the two
currently-playing shortcuts ("like" the track, or add it to named playlists)
and the player controls.

Modules and files:

- `wrappers.dfy` (`Wrappers`), `errors.dfy` (`Errors`): `Option`, `Result`
  and `Outcome`, and the exceptions the core can raise, as values.
- `tracks.dfy` (`Tracks`): the service's `FullTrack` and `SimplePlaylist`
  records, and the application's `TrackItem` (TrackItem.cs).
- `text.dfy` (`Text`): .NET `Split` on a set of separators, `string.Join`,
  the split/join sanitiser, and `int.ToString()`.
- `naming.dfy` (`Naming`): the filename key `"{artists} - {title}"`
  (NamingHelper.cs).
- `files.dfy` (`Files`): the file system as a class.
  - Each file has a tag (comment, performers, title) and a last-write time.
  - The files come in a fixed enumeration order.
  - It supports save, move and delete.
- `mp3_helper.dfy` (`Mp3Helper`): listing a directory's `.mp3` files, and
  building the map from track id to filename key out of each file's
  comma-separated comment (MP3Helper.cs).
- `chunks.dfy` (`Paging`): the offsets of the client's page walks and the
  chunks of its mutating requests.
- `spotify.dfy` (`Remote`): the service client (Spotify.cs) as a class.
  - It holds an abstract model of the service's state and a log of every
    mutating request it sends.
  - It covers the paged listings, chunked add/remove, saving, skipping, the
    play/pause toggle and starting playback on a named device.
- `playlist_cache.dfy` (`Cache`): the per-playlist cache (PlaylistItem.cs and
  the dictionary Application.cs keeps). Its entries are objects updated in
  place, and a ghost `view` holds their values.
- `reconcile.dfy` (`Reconcile`): the decisions of Application.cs as pure
  functions, with the lemmas that characterise them:
  - stamping ids into comments;
  - classifying each wanted track against the local index;
  - first-wins merging of the track dictionaries;
  - choosing the playlists to rescan and the tracks to queue;
  - settling the fresh downloads.
- `application.dfy` (`App`): the handlers of Application.cs as methods of an
  `Application` object. It holds the service client, the cache, the file
  system and the configuration. Each method is proved against the functions
  of `Reconcile`.

Points of the code's behaviour that the model keeps as written:

- Refreshing a cache entry *sets* its "contains tracks to download" flag
  (Application.cs:283). Only the loop after a completed run clears the flag
  (Application.cs:131-132).
- A track that is known locally under the id it was relinked from has that
  *linked* id stamped on its file (Application.cs:414), not its own id.
  Because the linked id is already in the index, the stamp usually changes
  nothing.
- The file stamped for a linked id is looked for in the processed directory
  (Application.cs:413). This holds even when the index entry came from the
  mixed-in-key directory. In that case opening the file fails
  (`FileNotFound` here), unless the processed directory also holds a file
  under that key. That file then gets the linked id appended.
- An id that occurs twice among a directory's comments makes
  `Dictionary.Add` throw (MP3Helper.cs:40). The whole index then fails
  (`DuplicateId`); no entry is overwritten.

## Model

| member | source | states |
|---|---|---|
| Tracks.FromFullTrackCopies | TrackItem.cs:18-26 | a `TrackItem` copies id, name, playability, URI and linked track from its `FullTrack`, and keeps one artist name per artist, in order |
| Tracks.ArtistNamesAt | TrackItem.cs:22 | the artist names come one per artist, in the artists' order |
| Tracks.ToItemsAt | Application.cs:264 | converting a track list gives one item per track, item i built from track i |
| Tracks.ToItemsAppend | Application.cs:274 | converting a concatenation converts each part, in order |
| Tracks.IdsHas | Application.cs:348 | an id is among a track list's ids exactly when some track carries it |
| Tracks.ItemIdsHas | Application.cs:324 | an id is among the cached items' ids exactly when some item carries it |
| Naming.KeyOfTag | NamingHelper.cs:7-12 | a file's key exists exactly when it has a performer, and is then built from the first performer and the title |
| Naming.KeyShape | NamingHelper.cs:28-32 | the key is `artists + " - " + title` character for character, each invalid character replaced by '_'; with '_' valid it holds no invalid character and sanitising it again changes nothing |
| Naming.ItemKeyMatchesTrack | NamingHelper.cs:14-26 | a `TrackItem` has the same key as the `FullTrack` it was built from |
| Text.SplitPieces | MP3Helper.cs:39 | no piece of a split holds a separator |
| Text.SanitizeIsCharwise | NamingHelper.cs:31 | splitting on the invalid characters and joining with '_' keeps the length and replaces exactly the invalid characters |
| Text.SanitizeIdempotent | NamingHelper.cs:31 | when '_' is valid, sanitising twice is sanitising once |
| Text.SplitAtSeparator | Application.cs:439 | joining two strings with ',' splits back into the pieces of each |
| Text.NatToStringRoundTrip | Application.cs:511 | the decimal digits written for a count read back as that count |
| Text.NatToStringInjective | Application.cs:511 | different counts are written differently |
| Files.InDir | MP3Helper.cs:10-11 | a directory's listing holds exactly the listed paths in that directory, without repeats |
| Files.FileSystem.ListingSpec | MP3Helper.cs:10-11 | `GetFiles` lists every file of the directory once and nothing else |
| Files.FileSystem.SaveTag | Application.cs:486-487 | saving changes only that file's tag |
| Files.FileSystem.Move | Application.cs:492 | a move takes the file from its old path to the new one, with its contents, and changes nothing else |
| Files.FileSystem.Delete | Application.cs:498 | a delete removes only that file |
| Mp3Helper.ConsideredPathsSpec | MP3Helper.cs:12-17 | a file is considered exactly when it is listed, is an `.mp3` and (given a last run) was written after it; no file twice |
| Mp3Helper.TagFilesAt | MP3Helper.cs:18-19 | loaded file i is the file at considered path i, with its tag |
| Mp3Helper.GetTrackMetadata | MP3Helper.cs:7-22 | the result is the considered files of the directory, loaded in enumeration order |
| Mp3Helper.LoadConsidered | MP3Helper.cs:14-20 | the loop skips what is not considered and loads the rest, in order |
| Mp3Helper.GetFilenameByTrackId | MP3Helper.cs:24-43 | the result is the index of the considered files, or the exception building it raises |
| Mp3Helper.IndexConsidered | MP3Helper.cs:31-41 | the loop over the listing builds that index file by file and stops at the first exception |
| Mp3Helper.AddFileIds | MP3Helper.cs:36-40 | a null or empty comment adds nothing; otherwise a file without a performer throws, a repeated id throws, and each id maps to the file's key |
| Mp3Helper.AddIdsSucceeds | MP3Helper.cs:39-40 | adding a file's ids succeeds exactly when they are pairwise different and none is already a key |
| Mp3Helper.AddIdsMaps | MP3Helper.cs:39-40 | after a successful add, each id maps to the key, earlier entries are kept, and nothing else is added |
| Mp3Helper.IndexSucceeds | MP3Helper.cs:31-41 | building the index succeeds exactly when every file with ids has a performer and no id occurs twice across the files |
| Mp3Helper.IndexKeeps | MP3Helper.cs:31-41 | a successful index holds one entry per id the files carry and no other |
| Mp3Helper.IndexMaps | MP3Helper.cs:31-41 | a successful index maps every id of every file to that file's key |
| Paging.OffsetsFrom | Spotify.cs:111 | the loop visits `start + k * limit` for each k while below the total, one step of `limit` apart |
| Paging.RequestCount | Spotify.cs:107-127 | a listing of n items sends ceil(n / limit) requests, and the one initial request when n is 0 |
| Paging.ChunkCount | Spotify.cs:195 | n URIs go out in ceil(n / limit) requests |
| Paging.ChunkAt | Spotify.cs:197-198 | request k carries the URIs `[k * limit, min(k * limit + limit, n))` |
| Paging.ChunkSizes | Spotify.cs:197 | every request carries between 1 and `limit` URIs, and all but the last exactly `limit` |
| Paging.ChunksCover | Spotify.cs:195-201 | the chunks concatenate to the input: every URI is sent exactly once, in order |
| Paging.ChunksFromAt | Spotify.cs:207-212 | the chunks from an offset are the slices at the loop's offsets |
| Remote.KeepAll | Spotify.cs:149-150 | a listing that keeps every entry returns one value per entry, in order |
| Remote.KeepAppend | Spotify.cs:122-126 | keeping the items of two pages in turn is keeping those of both |
| Remote.KeepSplit | Spotify.cs:111-126 | the items kept from an offset on are those of the page at that offset followed by those after it |
| Remote.LiveListing | Spotify.cs:103-129 | every listed playlist comes from a non-null listing entry with its id, name, owner and collaborative flag, and carries its playlist's current change token |
| Remote.AddCallsAt | Spotify.cs:199 | add request k carries chunk k |
| Remote.RemoveCallsAt | Spotify.cs:213-214 | remove request k carries chunk k |
| Remote.LastNamedFinds | Spotify.cs:75-79 | the device loop finds nothing exactly when no device has the name, and otherwise finds the last device with it |
| Remote.ResumeOn | Spotify.cs:93-98 | a single URI is resumed as the context, any other list as the tracks, on the found device |
| Remote.StartCalls | Spotify.cs:83-100 | a pause exactly when something was playing, then transfer to the device, shuffle on, resume |
| Remote.Spotify.WalkPages | Spotify.cs:110-127 | a page walk returns the kept items in order, and its requests are the initial one plus one per further offset |
| Remote.Spotify.KeepPage | Spotify.cs:122-126 | one page's items are kept in order |
| Remote.Spotify.constructor | Spotify.cs:29-57 | the configured page and chunk sizes are positive and held as given; the service starts in the given state with no request sent |
| Remote.Spotify.GetCurrentUsersPlaylists | Spotify.cs:103-129 | every non-null playlist of the listing, in order, with its playlist's current change token, paged at the playlist limit |
| Remote.Spotify.GetCurrentUserSavedTracks | Spotify.cs:131-154 | the track of every saved entry, one for one, in order |
| Remote.Spotify.GetPlaylistFullTracks | Spotify.cs:162-189 | the playlist's items that are full tracks, in order |
| Remote.Spotify.AddToPlaylist | Spotify.cs:191-203 | the URIs go to the end of the playlist in order, in one request per chunk; the result is the last response's snapshot, and none for no URIs |
| Remote.Spotify.RemoveFromPlaylist | Spotify.cs:205-216 | one remove request per chunk, in order; every occurrence of every URI leaves the playlist, which is otherwise kept in order |
| Remote.Spotify.CollectChunk | Spotify.cs:209-212 | the inner loop collects exactly the URIs `[i, limit)` |
| Remote.Spotify.SaveTrack | Spotify.cs:60-63 | one save request with the given ids, after which the library holds their tracks (`SaveIds`) |
| Remote.SaveIdsSaves | Spotify.cs:60-63 | saving keeps every saved track, adds only the catalog's tracks for the ids, and leaves in the library a track with each id the catalog knows |
| Remote.Spotify.Next | Spotify.cs:218-221 | one skip-next request |
| Remote.Spotify.Previous | Spotify.cs:223-226 | one skip-previous request |
| Remote.Spotify.TogglePlay | Spotify.cs:228-242 | pauses and answers "paused" exactly when playing, otherwise resumes and answers "resumed"; no playback state is an error |
| Remote.Spotify.FindDevice | Spotify.cs:74-79 | the device loop returns the last device with exactly that name |
| Remote.Spotify.StartPlayback | Spotify.cs:70-101 | no device of that name sends nothing; otherwise the requests `StartCalls` lists, and playback is on |
| Cache.Refresh | Application.cs:272-285 | a refreshed entry has the playlist's snapshot, exactly the given tracks and its flag set; a new one also gets name and id; no other entry changes |
| Cache.PlaylistItem.constructor | PlaylistItem.cs:11-19 | a new entry takes name, id and snapshot from the playlist and the given tracks, with the flag true |
| Cache.PlaylistCache.UpdatePlaylistCache | Application.cs:272-285 | the cache becomes `Refresh` of its old contents |
| Cache.PlaylistCache.InsertEntry | Application.cs:275-278 | an uncached playlist gets a new entry under its id |
| Cache.PlaylistCache.OverwriteEntry | Application.cs:279-284 | a cached entry's snapshot and tracks are overwritten in place and its flag set; nothing else changes |
| Cache.PlaylistCache.AddTrackToPlaylistCache | Application.cs:287-293 | the entry takes the new snapshot, gains exactly that track at the end and is flagged; no other entry changes |
| Cache.PlaylistCache.ClearFlag | Application.cs:132 | one entry's flag becomes false, nothing else changes |
| Cache.PlaylistCache.ClearDownloadFlags | Application.cs:131-132 | every entry's flag becomes false and nothing else changes |
| Cache.Cleared | Application.cs:131-132 | the cache after the flag loop keeps every key, and each entry keeps everything but its flag, which is false |
| Cache.ClearedAll | Application.cs:131-132 | with every entry visited, the cache is the old one with all flags cleared |
| Reconcile.StampCommentFields | Application.cs:436-441 | afterwards the id is one of the comment's fields; a comment that had it is unchanged, one that lacked it gains exactly that field at the end (an empty comment becomes ",id"); stamping twice is stamping once |
| Reconcile.StampFile | Application.cs:433-442 | a missing file or a null comment throws; otherwise only that file's comment changes, to the stamped one |
| Reconcile.StampFileKeeps | Application.cs:436-441 | a successful stamp leaves the id in the comment and removes no id from any comment |
| Reconcile.CandidatesExactly | Application.cs:406-428 | a track is kept for download exactly when it is playable, neither its id nor its linked id is indexed, and no processed file has its key |
| Reconcile.CandidatesAppend | Application.cs:406-428 | the kept tracks keep the input order |
| Reconcile.ScanAllSpec | Application.cs:403-431 | the scan fails exactly when some track's stamp finds no file or no comment, keeps the set of files, and otherwise returns exactly the candidates |
| Reconcile.ScanStepSpec | Application.cs:406-428 | one track fails exactly when its stamp would fail, and otherwise is kept exactly when it is a candidate |
| Reconcile.ScanAllStops | Application.cs:403-431 | after an exception the later tracks change nothing |
| Reconcile.ScanAllStamps | Application.cs:411-424 | after a scan that did not fail, every id it set out to stamp is in its file's comment, and no id was removed |
| Reconcile.FirstWinsPrefers | Application.cs:370-373 | the merged index has the keys of both; an id of the processed index keeps its file name |
| Reconcile.TryAddAllFirstWins | Application.cs:256-267 | ids stay distinct, every id of the input is kept, each kept track is the first with its id, and earlier entries stay in front |
| Reconcile.TryAddAllAppend | Application.cs:258-267 | adding two lists of tracks is adding the first, then the second |
| Reconcile.ForDownloadExactly | Application.cs:387-394 | a playlist is rescanned exactly when the user owns it, it is not collaborative, not skipped, and uncached, stale or flagged |
| Reconcile.QueueUrisSpec | Application.cs:452-457 | a URI is queued exactly when some candidate not on the download playlist has it; at most one per candidate |
| Reconcile.QueueUrisAppend | Application.cs:453-457 | the queued URIs keep the candidates' order |
| Reconcile.FirstMatchSpec | Application.cs:480-485 | no match exactly when no playlist track has the file's key; a match is the first track with it |
| Reconcile.Settle | Application.cs:486-499 | the file always leaves its place, so it is deleted when the target is its own path; otherwise the target gets it with the comment set to the track id unless a file already exists there, which is kept; nothing else changes |
| Reconcile.ProcessAllStops | Application.cs:472-509 | after an exception the later downloads change nothing |
| Reconcile.ProcessAllCollects | Application.cs:476-504 | every collected URI is a download-playlist track's, at most one per file, and one per matching file when the loop completes |
| Reconcile.ProcessStepSettles | Application.cs:478-502 | one file fails exactly when it has no performer; otherwise it is settled and no other file outside the mixed-in-key directory changes |
| Reconcile.ProcessPrefix | Application.cs:476-504 | the first n files fail exactly when one lacks a performer; otherwise they are settled, the later ones are untouched, and so is every file outside the mixed-in-key directory that is none of them |
| Reconcile.ProcessAllSettles | Application.cs:476-504 | the loop fails exactly when some download lacks a performer; otherwise each matching download is moved or deleted into place and every non-matching download is as it was |
| Reconcile.ProcessAllKeepsOthers | Application.cs:476-504 | a loop that completes leaves every file outside the mixed-in-key directory that is not a download as it was |
| Reconcile.ProcessedMessageCounts | Application.cs:511 | the "Processed m/n" message determines both counts |
| Reconcile.TrackAlreadySavedExactly | Application.cs:346-350 | a track is already saved exactly when some saved track has its id or the id it was relinked from |
| Reconcile.ContainsTrackExactly | Application.cs:332 | a playlist contains the track exactly when some item has its id or its linked id |
| Reconcile.ItemIdsOfTracks | Application.cs:323-330 | cached ids are the ids of the tracks they were built from, so the cache answers the membership check as the playlist does |
| App.RefreshAllKeys | Application.cs:260-268 | the rescans add exactly the targets' ids to the cache and drop nothing |
| App.RefreshAllFlags | Application.cs:260-268 | after the rescans every target is flagged, and no set flag is cleared |
| App.RefreshAllUntouched | Application.cs:260-268 | an entry no target names is unchanged |
| App.TargetsTurn | Application.cs:261-268 | one more target adds its tracks after those so far and refreshes its entry |
| App.ForDownloadStep | Application.cs:387-394 | one turn picks the playlist exactly when it needs a rescan |
| App.ListingKnown | Application.cs:386-392 | every listed playlist exists on the service, and the token the rescan test compares is that playlist's current one |
| App.TargetsExist | Application.cs:260-263 | every playlist picked for a rescan exists on the service |
| App.WithRemovedNothing | Application.cs:469-470 | removing no URIs leaves every playlist as it was |
| App.FirstNamedSpec | Application.cs:321 | `Find` returns nothing exactly when no playlist has the name, else the first with it |
| App.MergeFirstWins | Application.cs:370-373 | the `TryAdd` loop computes the first-wins merge |
| App.TryAddTracks | Application.cs:258-259 | the `TryAdd` loop computes `TryAddAll` |
| App.CollectIds | Application.cs:448-450 | the set holds exactly the ids of the download playlist's tracks |
| App.CollectUris | Application.cs:452-457 | the loop collects exactly the queued URIs |
| App.FindTrack | Application.cs:480-485 | the inner loop finds the first playlist track with the file's key |
| App.SingleChunk | Application.cs:334 | a single URI is sent in a single request |
| App.Application.constructor | Application.cs:32-54 | the configuration is held as given, and the application is ready for its handlers: the parts are in order, the download playlist exists, and so does every listed playlist |
| App.Application.AddIdToFile | Application.cs:433-442 | the files become what `StampFile` says; an exception leaves them unchanged, and a comment that already has the id is not written |
| App.Application.ScanTrack | Application.cs:406-428 | one track of the loop does what `ScanStep` says; the enumeration order stays |
| App.Application.GetNotDownloadedTracks | Application.cs:403-431 | the result and the files are those of `ScanAll` over the tracks in order: the candidates, or the first exception; the enumeration order stays |
| App.Application.GetDownloadedTracks | Application.cs:365-375 | the processed index merged first-wins with the mixed-in-key index, or the exception of either (`DownloadedIndex`) |
| App.Application.GetPlaylistsForDownload | Application.cs:382-396 | the listed playlists that need a rescan, in listing order |
| App.Application.IsTarget | Application.cs:389-393 | the loop's test on the cache objects agrees with `NeedsRescan` on the cache's contents |
| App.Application.RescanTarget | Application.cs:263-265 | the playlist's tracks are fetched and its cache entry refreshed with them |
| App.Application.RescanNext | Application.cs:261-268 | one turn extends the tracks and the cache by one target |
| App.Application.RescanAll | Application.cs:261-268 | the loop adds each target's tracks first-wins and refreshes each target's entry |
| App.Application.GetAllTracksForDownload | Application.cs:254-270 | the saved tracks, then the tracks of each playlist to rescan, kept first by id; each rescanned entry is refreshed |
| App.Application.AddTracksToDownloadPlaylist | Application.cs:444-462 | the URIs of the candidates not on the download playlist are appended to it in chunks, and their number is the result |
| App.Application.ProcessDownload | Application.cs:478-502 | one download does what `ProcessStep` says |
| App.Application.SettleDownloads | Application.cs:476-504 | the loop settles the downloads as `ProcessAll` says, stopping at the first exception |
| App.Application.DequeueDownloads | Application.cs:474-509 | the settled downloads' URIs leave the download playlist even when the loop threw |
| App.Application.ProcessRecentlyDownloadedTracks | Application.cs:464-512 | no downloads means no change; otherwise the files are settled as `ProcessAll` says, the collected URIs are removed in any case, and the result is "Processed m/n ..." or the exception |
| App.Application.MissingTracks | Application.cs:128-129 | the tracks for download are the saved tracks then those of each playlist to rescan, kept first by id; the result and the files are those of `ScanAll` over them; each rescanned entry is refreshed; the service and the enumeration order are unchanged |
| App.Application.QueueFrom | Application.cs:128-130 | the queueing keeps every cache entry and every set flag |
| App.Application.QueueFor | Application.cs:128-130 | the files, playlists, cache, requests and result are those `QueueFrom` gives: the scan's candidates that the download playlist lacks are appended to it in chunks and counted, with one add request per chunk; a scan exception sends nothing; the enumeration order stays |
| App.Application.Queue | Application.cs:127-130 | the second half of the run keeps every cache entry and every set flag |
| App.Application.QueueMissing | Application.cs:127-130 | the downloaded index, then the queueing against it, leave the files, playlists, cache, requests and result `Queue` gives: no request on an exception, one add request per chunk of queued URIs otherwise |
| App.Application.FinishRun | Application.cs:127-132 | the files, playlists, requests and result `Queue` gives, and a run that gets through then clears every flag while a failed one keeps the flags the rescans left |
| App.Application.PopulateDownloadPlaylist | Application.cs:114-142 | the downloads are settled and their URIs removed from the download playlist; then the missing tracks are queued against the settled files; the requests are the remove requests of the settled URIs, then the add requests of the queued ones; the report is the "Processed m/n" (or "No downloaded tracks") line and the "Added k" line; a completed run clears every flag, a failed one leaves every flagged playlist flagged; no entry is dropped |
| App.Application.LikeTrack | Application.cs:305-315 | the track is saved exactly when it is not already saved under its id or its linked id, and the library then holds it; otherwise nothing changes |
| App.LikedIsSaved | Application.cs:307-314 | once liked, a track the catalog knows under its id counts as saved, so liking it again answers "Already exists in your library." |
| App.Application.CurrentIds | Application.cs:323-330 | the cached ids when the cache holds the current snapshot, with the cache unchanged; else the fetched ids, with that entry refreshed to the listed snapshot and those tracks and flagged, and no other entry changed (`Checked`) |
| App.Application.AppendTrack | Application.cs:334-336 | one add request with the track's URI, and the cache entry gains the track under the new snapshot and is flagged; no other entry changes |
| App.Application.AddIfMissing | Application.cs:323-338 | the playlist gets the track exactly when neither its id nor its linked id is among its cached or fetched ids; the cache becomes that of the lookup (`Checked`), with the track appended under the new snapshot when it was added; afterwards the cache knows the track |
| App.Application.AddCurrentTrack | Application.cs:321-339 | the first playlist of the name is handled as `AddIfMissing` says and the answer is its line; no such playlist is an error and changes nothing |
| App.Application.AddToPlaylists | Application.cs:319-341 | the handler fails exactly when some name has no playlist, with that name's error |
| App.Application.SpotifyCurrentlyPlayingToPlaylist | Application.cs:295-344 | nothing playing is an error and an episode is answered as such, both changing nothing; "Like" saves unless already saved and changes neither playlists nor cache; otherwise the handler fails exactly when a named playlist is missing, and answers with the track's key line first |
| App.Application.PlaySpotifyInKitchen | Application.cs:352-357 | "Jackson" starts the `Electronic` playlist on the kitchen speaker; any other payload does nothing |
| App.Application.ControlSpotifyPlayer | Application.cs:207-222 | "togglePlay" pauses what plays and resumes what is paused, saying which, and fails with no playback; "next" and "previous" skip and say so; anything else changes nothing and is "not supported" |

## Left out

- MQTT: subscribing, reconnecting, decoding payloads and publishing results and errors (Application.cs:70-205) are I/O. A handler's result is the value it would publish.
- The `TracksToDownload` message and the console output are I/O.
- `CopyBackupsToDropbox` (Application.cs:224-252) is outside the reconciliation core.
- Logging in (Application.cs:56-68), SpotifyAuthorization.cs and Program.cs are not part of this model.
- Handlers running concurrently on the shared cache are not modelled; each handler is one sequential method.
- Asynchrony and the retry policy (up to five retries after the first attempt, with growing delays, Spotify.cs:31-46): each service call is one atomic step that succeeds. A request failing after its retries (a null `Result`) is not modelled.
- `Debug.WriteLine` progress lines are not modelled.
- Configuration: the constructor's sections become constructor parameters (directories, download playlist, skipped playlists, the `Electronic` playlist id).
- The current user (`GetCurrentUser`) is the client's `userId` field. What is playing (`GetCurrentlyPlaying`) is its `nowPlaying` field.
- `Path.GetInvalidFileNameChars()` is platform-defined, so it is the parameter `invalid`.
- Directory names are whole path prefixes.
- TagLib: a file is a tag (comment, performers, title) plus a last-write time. Opening a listed file always succeeds; corrupt or unreadable files are not modelled.
- Tag writes happen only through `Save`. The in-memory tag change before a save is folded into it.
- Last-write times are an abstract integer clock. The handlers always pass no `lastRun`.
- Files.FileSystem.SaveTag: keeps the file's last-write time, where a TagLib save moves it on. This changes nothing the handlers do, because they never filter by `lastRun`.
- The service's snapshot tokens are opaque. Here they are counters that each mutating request increases by one.
- Playlists hold URIs. `RemoveItems` removes every occurrence of each URI sent, as the service documents.
- Playback state is only "playing or not". Device transfer and shuffle appear as requests in the log, not as state.
- `AppendLine` writes the platform line break; here it is "\n".
- Dictionary enumeration order:
  - The track dictionary of `GetAllTracksForDownload` is a sequence in insertion order, which .NET keeps for a dictionary without removals.
  - The download index and the cache are maps, because they are only looked up or visited in full.
  - The flag-clearing loop and `MergeFirstWins` visit keys in any order, and their results do not depend on it.
- Reconcile.StampCommentFields: holds only for ids without commas, as service ids are base-62. A comma inside an id would make a stamped id read back as two fields.
- Reconcile.ScanAllStamps: needs the same comma-free ids.
- App.Application.PopulateDownloadPlaylist: on failure it states only the cache's flags and keys, not the files or playlists the failed half left.
- App.Application.PopulateDownloadPlaylist: the enumeration order of the files after settling is a ghost result (`order1`); the order the moves produce is not modelled, only that it lists each settled file once.
- Remote.Spotify.SaveTrack: the service finds a track by its URI `spotify:track:<id>` in the catalog. An id the catalog lacks changes nothing, where the service would reject it. Saving a track that is already saved keeps it where it is.
- App.Application.AddToPlaylists: states when the loop fails, not the lines it returns or the service state. Each name's effect is stated by AddCurrentTrack.
- App.Application.SpotifyCurrentlyPlayingToPlaylist: for playlist names, on success it states only that the answer starts with the track's key line. The per-name lines and effects are stated by AddCurrentTrack.
- Configured limits of 0: with a zero page or chunk size, `for (int i = 0; i < total; i += limit)` (Spotify.cs:111, 195, 207) never ends. The model requires every limit to be positive.
- Track ids are never null; local files in playlists are not modelled. In the code, a playlist item that is a local file carries a null id, and `TryAdd` (Application.cs:259, 267) would throw `ArgumentNullException` and end the run.
- Null `snapshotResponse` (Application.cs:335) cannot occur: one URI always goes out in one request (App.SingleChunk).
