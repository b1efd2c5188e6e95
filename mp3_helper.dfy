/** The local download index (MP3Helper.cs): which files of a directory are
    considered, and the map from remote track id to filename key built from the
    comma-separated ids in each file's comment. */
module Mp3Helper {
  import opened Wrappers
  import opened Collections
  import opened Text
  import opened Files
  import opened Errors
  import opened Naming

  /** `file.Extension == ".mp3"`: the text from the last '.' on is exactly ".mp3",
      which is the same as the name ending in ".mp3". */
  predicate IsMp3(name: string) {
    |name| >= 4 && name[|name| - 4..] == ".mp3"
  }

  /** A file is considered when it is an `.mp3` and, if `lastRun` is given, was
      last written strictly after it. */
  predicate Considered(p: Path, e: FileEntry, lastRun: Option<int>) {
    IsMp3(p.name) && (lastRun.Some? ==> e.lastWrite > lastRun.value)
  }

  /** The considered files among `paths`, in enumeration order. */
  function ConsideredPaths(files: map<Path, FileEntry>, paths: seq<Path>, lastRun: Option<int>): (r: seq<Path>)
    requires forall i :: 0 <= i < |paths| ==> paths[i] in files
    ensures forall i :: 0 <= i < |r| ==> r[i] in files
  {
    if paths == [] then []
    else if Considered(paths[0], files[paths[0]], lastRun) then [paths[0]] + ConsideredPaths(files, paths[1..], lastRun)
    else ConsideredPaths(files, paths[1..], lastRun)
  }

  /** A path is considered exactly when it is listed and passes the filter; the
      order is the listing's, so a listing without repeats gives none. */
  lemma {:induction false} ConsideredPathsSpec(files: map<Path, FileEntry>, paths: seq<Path>, lastRun: Option<int>)
    requires forall i :: 0 <= i < |paths| ==> paths[i] in files
    ensures forall p :: p in ConsideredPaths(files, paths, lastRun) <==> p in paths && Considered(p, files[p], lastRun)
    ensures Distinct(paths) ==> Distinct(ConsideredPaths(files, paths, lastRun))
  {
    if paths != [] {
      var rest := paths[1..];
      ConsideredPathsSpec(files, rest, lastRun);
      assert forall p :: p in paths <==> p == paths[0] || p in rest;
      if Distinct(paths) {
        assert Distinct(rest) by {
          forall i, j | 0 <= i < j < |rest|
            ensures rest[i] != rest[j]
          {
            assert rest[i] == paths[i + 1] && rest[j] == paths[j + 1];
          }
        }
        assert paths[0] !in rest;
        if Considered(paths[0], files[paths[0]], lastRun) {
          DistinctAppend([paths[0]], ConsideredPaths(files, rest, lastRun));
        }
      }
    }
  }

  /** A loaded `TagLib.File`: its path and the tag read from it. */
  datatype TagFile = TagFile(path: Path, tag: Tag)

  /** The files at `paths` loaded in order, each with the tag it carries. */
  function TagFiles(files: map<Path, FileEntry>, paths: seq<Path>): seq<TagFile>
    requires forall i :: 0 <= i < |paths| ==> paths[i] in files
  {
    if paths == [] then [] else [TagFile(paths[0], files[paths[0]].tag)] + TagFiles(files, paths[1..])
  }

  /** Loaded file i is the file at path i, with its tag. */
  lemma {:induction false} TagFilesAt(files: map<Path, FileEntry>, paths: seq<Path>)
    requires forall i :: 0 <= i < |paths| ==> paths[i] in files
    ensures |TagFiles(files, paths)| == |paths|
    ensures forall i :: 0 <= i < |paths| ==> TagFiles(files, paths)[i] == TagFile(paths[i], files[paths[i]].tag)
  {
    if paths != [] {
      TagFilesAt(files, paths[1..]);
    }
  }

  /** `GetTrackMetadata`: one loaded file per considered `.mp3` of `dir`, in
      enumeration order, each with the tag the file carries. */
  method GetTrackMetadata(fs: FileSystem, dir: string, lastRun: Option<int>) returns (r: seq<TagFile>)
    requires fs.Valid()
    ensures r == TagFiles(fs.files, ConsideredPaths(fs.files, fs.Listing(dir), lastRun))
  {
    r := LoadConsidered(fs.files, fs.Listing(dir), lastRun);
  }

  /** The loop of `GetTrackMetadata` over the listing: skip what is not
      considered, load the rest. */
  method LoadConsidered(files: map<Path, FileEntry>, listing: seq<Path>, lastRun: Option<int>) returns (r: seq<TagFile>)
    requires forall i :: 0 <= i < |listing| ==> listing[i] in files
    ensures r == TagFiles(files, ConsideredPaths(files, listing, lastRun))
  {
    r := [];
    for i := 0 to |listing|
      invariant TagFiles(files, ConsideredPaths(files, listing, lastRun))
        == r + TagFiles(files, ConsideredPaths(files, listing[i..], lastRun))
    {
      LoadStep(files, listing, i, lastRun, r);
      var p := listing[i];
      if Considered(p, files[p], lastRun) {
        r := r + [TagFile(p, files[p].tag)];
      }
    }
    assert listing[|listing|..] == [];
  }

  /** One turn of the loop of `GetTrackMetadata` at index `i`, after loading `r`. */
  lemma LoadStep(files: map<Path, FileEntry>, listing: seq<Path>, i: nat, lastRun: Option<int>, r: seq<TagFile>)
    requires i < |listing| && forall j :: 0 <= j < |listing| ==> listing[j] in files
    requires TagFiles(files, ConsideredPaths(files, listing, lastRun))
      == r + TagFiles(files, ConsideredPaths(files, listing[i..], lastRun))
    ensures var p := listing[i];
      TagFiles(files, ConsideredPaths(files, listing, lastRun))
      == (r + (if Considered(p, files[p], lastRun) then [TagFile(p, files[p].tag)] else []))
         + TagFiles(files, ConsideredPaths(files, listing[i + 1..], lastRun))
  {
    assert listing[i..][1..] == listing[i + 1..];
    var p := listing[i];
    var rest := TagFiles(files, ConsideredPaths(files, listing[i + 1..], lastRun));
    if Considered(p, files[p], lastRun) {
      assert r + ([TagFile(p, files[p].tag)] + rest) == (r + [TagFile(p, files[p].tag)]) + rest;
    } else {
      assert r + [] == r;
    }
  }

  /** The ids a tag carries: none for a null or empty comment, otherwise every
      ','-separated field of the comment. */
  function CommentIds(tag: Tag): seq<string> {
    if tag.comment.None? || tag.comment.value == [] then [] else Split(tag.comment.value, {','})
  }

  /** `foreach (var id in ids) index.Add(id, key)`: `Add` throws on an id that is
      already a key. */
  function AddIds(index: map<string, string>, ids: seq<string>, key: string): Result<map<string, string>, Error>
    decreases ids
  {
    if ids == [] then Ok(index)
    else if ids[0] in index then Err(DuplicateId(ids[0]))
    else AddIds(index[ids[0] := key], ids[1..], key)
  }

  /** One file's contribution: nothing for an empty comment, otherwise each of its
      ids mapped to its key (computing the key throws when it has no performer). */
  function AddFile(index: map<string, string>, p: Path, tag: Tag, invalid: set<char>): Result<map<string, string>, Error> {
    var ids := CommentIds(tag);
    if ids == [] then Ok(index)
    else match KeyOfTag(tag, invalid)
      case None => Err(NoPerformer(p))
      case Some(key) => AddIds(index, ids, key)
  }

  /** The index built from `paths` in order, starting from `index`. */
  function Index(index: map<string, string>, files: map<Path, FileEntry>, paths: seq<Path>, invalid: set<char>): Result<map<string, string>, Error>
    requires forall i :: 0 <= i < |paths| ==> paths[i] in files
    decreases paths
  {
    if paths == [] then Ok(index)
    else match AddFile(index, paths[0], files[paths[0]].tag, invalid)
      case Err(e) => Err(e)
      case Ok(index') => Index(index', files, paths[1..], invalid)
  }

  /** `GetFilenameByTrackId`: the index of the considered files of `dir`. */
  method GetFilenameByTrackId(fs: FileSystem, dir: string, lastRun: Option<int>, invalid: set<char>)
    returns (r: Result<map<string, string>, Error>)
    requires fs.Valid()
    ensures r == Index(map[], fs.files, ConsideredPaths(fs.files, fs.Listing(dir), lastRun), invalid)
  {
    r := IndexConsidered(fs.files, fs.Listing(dir), lastRun, invalid);
  }

  /** The loop of `GetFilenameByTrackId` over the listing. */
  method IndexConsidered(files: map<Path, FileEntry>, listing: seq<Path>, lastRun: Option<int>, invalid: set<char>)
    returns (r: Result<map<string, string>, Error>)
    requires forall i :: 0 <= i < |listing| ==> listing[i] in files
    ensures r == Index(map[], files, ConsideredPaths(files, listing, lastRun), invalid)
  {
    ghost var q := ConsideredPaths(files, listing, lastRun);
    var index: map<string, string> := map[];
    for i := 0 to |listing|
      invariant Index(map[], files, q, invalid) == Index(index, files, ConsideredPaths(files, listing[i..], lastRun), invalid)
    {
      assert listing[i..][1..] == listing[i + 1..];
      var p := listing[i];
      var entry := files[p];
      if !Considered(p, entry, lastRun) {
        continue;
      }
      var added := AddFileIds(index, p, entry.tag, invalid);
      assert ConsideredPaths(files, listing[i..], lastRun) == [p] + ConsideredPaths(files, listing[i + 1..], lastRun);
      match added
      case Err(e) =>
        return Err(e);
      case Ok(index') =>
        index := index';
    }
    r := Ok(index);
    assert listing[|listing|..] == [];
  }

  /** The body of the loop over one file: read its comment, skip it when empty,
      otherwise `Add` each of its ids with the file's key. */
  method AddFileIds(index: map<string, string>, p: Path, tag: Tag, invalid: set<char>)
    returns (r: Result<map<string, string>, Error>)
    ensures r == AddFile(index, p, tag, invalid)
  {
    var comment := tag.comment;
    if comment.None? || comment.value == [] {
      return Ok(index);
    }
    var ids := Split(comment.value, {','});
    var acc := index;
    for j := 0 to |ids|
      invariant j > 0 ==> |tag.performers| > 0
      invariant |tag.performers| > 0 ==>
        AddFile(index, p, tag, invalid) == AddIds(acc, ids[j..], KeyOf(tag.performers[0], tag.title, invalid))
    {
      if |tag.performers| == 0 {
        return Err(NoPerformer(p));
      }
      var key := KeyOf(tag.performers[0], tag.title, invalid);
      var id := ids[j];
      assert ids[j..][1..] == ids[j + 1..];
      if id in acc {
        return Err(DuplicateId(id));
      }
      acc := acc[id := key];
    }
    assert ids[|ids|..] == [];
    return Ok(acc);
  }

  /** Every id the files among `paths` carry, in order. */
  function AllIds(files: map<Path, FileEntry>, paths: seq<Path>): seq<string>
    requires forall i :: 0 <= i < |paths| ==> paths[i] in files
    decreases paths
  {
    if paths == [] then [] else CommentIds(files[paths[0]].tag) + AllIds(files, paths[1..])
  }

  /** Every file among `paths` that carries ids has a performer to build its key from. */
  predicate KeysComputable(files: map<Path, FileEntry>, paths: seq<Path>)
    requires forall i :: 0 <= i < |paths| ==> paths[i] in files
  {
    forall i :: 0 <= i < |paths| && CommentIds(files[paths[i]].tag) != [] ==> |files[paths[i]].tag.performers| > 0
  }

  /** Adding a file's ids succeeds exactly when they are all new and none repeats. */
  lemma {:induction false} AddIdsSucceeds(index: map<string, string>, ids: seq<string>, key: string)
    ensures AddIds(index, ids, key).Ok? <==> Distinct(ids) && forall i :: 0 <= i < |ids| ==> ids[i] !in index
    decreases ids
  {
    if ids != [] && ids[0] !in index {
      var tail := ids[1..];
      AddIdsSucceeds(index[ids[0] := key], tail, key);
      assert ids == [ids[0]] + tail;
      DistinctAppend([ids[0]], tail);
      assert forall i :: 0 <= i < |tail| ==> tail[i] == ids[i + 1];
    }
  }

  /** When adding a file's ids succeeds, each of them maps to the key, the
      earlier entries are kept and nothing else is added. */
  lemma {:induction false} AddIdsMaps(index: map<string, string>, ids: seq<string>, key: string)
    requires AddIds(index, ids, key).Ok?
    ensures var m := AddIds(index, ids, key).value;
      && m.Keys == index.Keys + Elements(ids)
      && (forall id :: id in index ==> m[id] == index[id])
      && (forall id :: id in ids ==> m[id] == key)
    decreases ids
  {
    if ids != [] {
      var tail := ids[1..];
      AddIdsMaps(index[ids[0] := key], tail, key);
      assert Elements(ids) == {ids[0]} + Elements(tail);
      assert forall id :: id in ids <==> id == ids[0] || id in tail;
    }
  }

  /** `KeysComputable` on a non-empty list, split into its head and tail. */
  lemma KeysComputableCons(files: map<Path, FileEntry>, paths: seq<Path>)
    requires paths != [] && forall i :: 0 <= i < |paths| ==> paths[i] in files
    ensures KeysComputable(files, paths) <==>
      && (CommentIds(files[paths[0]].tag) != [] ==> |files[paths[0]].tag.performers| > 0)
      && KeysComputable(files, paths[1..])
  {
    var rest := paths[1..];
    if KeysComputable(files, paths) {
      forall i | 0 <= i < |rest| && CommentIds(files[rest[i]].tag) != []
        ensures |files[rest[i]].tag.performers| > 0
      {
        assert rest[i] == paths[i + 1];
      }
    }
  }

  /** Building the index succeeds exactly when every file that carries ids has a
      performer, no id occurs twice across the files and none is already a key.
      A duplicate id anywhere in the directory makes the whole scan fail. */
  lemma {:induction false} IndexSucceeds(index: map<string, string>, files: map<Path, FileEntry>, paths: seq<Path>, invalid: set<char>)
    requires forall i :: 0 <= i < |paths| ==> paths[i] in files
    ensures Index(index, files, paths, invalid).Ok? <==>
      && KeysComputable(files, paths)
      && Distinct(AllIds(files, paths))
      && forall i :: 0 <= i < |AllIds(files, paths)| ==> AllIds(files, paths)[i] !in index
    decreases paths
  {
    if paths != [] {
      var p := paths[0];
      var tag := files[p].tag;
      var ids := CommentIds(tag);
      var rest := paths[1..];
      var restIds := AllIds(files, rest);
      assert AllIds(files, paths) == ids + restIds;
      DistinctAppend(ids, restIds);
      KeysComputableCons(files, paths);
      if ids == [] {
        assert AllIds(files, paths) == restIds;
        IndexSucceeds(index, files, rest, invalid);
      } else if |tag.performers| > 0 {
        var key := KeyOf(tag.performers[0], tag.title, invalid);
        AddIdsSucceeds(index, ids, key);
        FreshIdsAppend(index, ids, restIds);
        if AddIds(index, ids, key).Ok? {
          var m1 := AddIds(index, ids, key).value;
          AddIdsMaps(index, ids, key);
          assert forall id :: id in m1 <==> id in index || id in ids;
          assert (forall i :: 0 <= i < |restIds| ==> restIds[i] !in m1)
            <==> (forall i :: 0 <= i < |restIds| ==> restIds[i] !in index && restIds[i] !in ids);
          IndexSucceeds(m1, files, rest, invalid);
          assert Index(index, files, paths, invalid) == Index(m1, files, rest, invalid);
        }
      }
    }
  }

  /** Ids `a` then `b` are all new to `index` and pairwise different exactly when
      `a` is, and `b` is with respect to `index` extended by `a`. */
  lemma FreshIdsAppend(index: map<string, string>, a: seq<string>, b: seq<string>)
    ensures
      (Distinct(a + b) && forall i :: 0 <= i < |a + b| ==> (a + b)[i] !in index) <==>
      && (Distinct(a) && forall i :: 0 <= i < |a| ==> a[i] !in index)
      && Distinct(b)
      && (forall i :: 0 <= i < |b| ==> b[i] !in index && b[i] !in a)
  {
    DistinctAppend(a, b);
    var all := a + b;
    assert forall i :: 0 <= i < |a| ==> all[i] == a[i];
    assert forall i :: 0 <= i < |b| ==> all[|a| + i] == b[i];
  }

  /** Every id the tag carries maps to the key built from the tag. */
  predicate MapsIdsOf(m: map<string, string>, tag: Tag, invalid: set<char>) {
    CommentIds(tag) != [] ==>
      && |tag.performers| > 0
      && forall id :: id in CommentIds(tag) ==> id in m && m[id] == KeyOf(tag.performers[0], tag.title, invalid)
  }

  /** The first file's contribution to a successful index, as a map. */
  lemma IndexHead(index: map<string, string>, files: map<Path, FileEntry>, paths: seq<Path>, invalid: set<char>)
    requires paths != [] && forall i :: 0 <= i < |paths| ==> paths[i] in files
    requires Index(index, files, paths, invalid).Ok?
    ensures AddFile(index, paths[0], files[paths[0]].tag, invalid).Ok?
    ensures var m1 := AddFile(index, paths[0], files[paths[0]].tag, invalid).value;
      Index(index, files, paths, invalid) == Index(m1, files, paths[1..], invalid)
  {
  }

  /** A successful index holds the entries it started from and one entry per id
      the files carry, and no other. */
  lemma {:induction false} IndexKeeps(index: map<string, string>, files: map<Path, FileEntry>, paths: seq<Path>, invalid: set<char>)
    requires forall i :: 0 <= i < |paths| ==> paths[i] in files
    requires Index(index, files, paths, invalid).Ok?
    ensures var m := Index(index, files, paths, invalid).value;
      && m.Keys == index.Keys + Elements(AllIds(files, paths))
      && (forall id :: id in index ==> m[id] == index[id])
    decreases paths
  {
    if paths != [] {
      var tag := files[paths[0]].tag;
      var rest := paths[1..];
      IndexHead(index, files, paths, invalid);
      var m1 := AddFile(index, paths[0], tag, invalid).value;
      IndexKeeps(m1, files, rest, invalid);
      ElementsConcat(CommentIds(tag), AllIds(files, rest));
      if CommentIds(tag) != [] {
        AddIdsMaps(index, CommentIds(tag), KeyOf(tag.performers[0], tag.title, invalid));
      }
    }
  }

  /** A successful index maps every id of every file to that file's key. */
  lemma {:induction false} IndexMaps(index: map<string, string>, files: map<Path, FileEntry>, paths: seq<Path>, invalid: set<char>)
    requires forall i :: 0 <= i < |paths| ==> paths[i] in files
    requires Index(index, files, paths, invalid).Ok?
    ensures forall i :: 0 <= i < |paths| ==> MapsIdsOf(Index(index, files, paths, invalid).value, files[paths[i]].tag, invalid)
    decreases paths
  {
    if paths != [] {
      var tag := files[paths[0]].tag;
      var rest := paths[1..];
      IndexHead(index, files, paths, invalid);
      var m1 := AddFile(index, paths[0], tag, invalid).value;
      var m := Index(index, files, paths, invalid).value;
      IndexMaps(m1, files, rest, invalid);
      IndexKeeps(m1, files, rest, invalid);
      if CommentIds(tag) != [] {
        AddIdsMaps(index, CommentIds(tag), KeyOf(tag.performers[0], tag.title, invalid));
      }
      assert MapsIdsOf(m, tag, invalid);
      forall i | 0 <= i < |paths|
        ensures MapsIdsOf(m, files[paths[i]].tag, invalid)
      {
        if i > 0 {
          assert paths[i] == rest[i - 1];
        }
      }
    }
  }
}
