/** The local filesystem as the core sees it: files addressed by directory and
    name, each carrying the tag fields TagLib reads and writes, listed in a fixed
    enumeration order. */
module Files {
  import opened Wrappers
  import opened Collections

  /** `Path.Combine(dir, name)`. */
  datatype Path = Path(dir: string, name: string)

  /** The tag fields the core uses: the free-text comment (null when the file has
      none), the performers and the title. */
  datatype Tag = Tag(comment: Option<string>, performers: seq<string>, title: string)

  /** A file's tag and its last write time (an abstract clock value). */
  datatype FileEntry = FileEntry(tag: Tag, lastWrite: int)

  /** The paths of `s` that lie in directory `dir`, order kept. */
  function InDir(s: seq<Path>, dir: string): (r: seq<Path>)
    ensures forall i :: 0 <= i < |r| ==> r[i] in s && r[i].dir == dir
    ensures forall i :: 0 <= i < |s| && s[i].dir == dir ==> s[i] in r
    ensures Distinct(s) ==> Distinct(r)
  {
    if s == [] then []
    else if s[0].dir == dir then [s[0]] + InDir(s[1..], dir)
    else InDir(s[1..], dir)
  }

  class FileSystem {
    var files: map<Path, FileEntry>
    /** The order in which `DirectoryInfo.GetFiles` enumerates the files. */
    var order: seq<Path>

    ghost predicate Valid()
      reads this
    {
      && Distinct(order)
      && (forall i :: 0 <= i < |order| ==> order[i] in files)
      && (forall p :: p in files ==> p in order)
    }

    constructor (files: map<Path, FileEntry>, order: seq<Path>)
      requires Distinct(order)
      requires forall i :: 0 <= i < |order| ==> order[i] in files
      requires forall p :: p in files ==> p in order
      ensures Valid() && this.files == files && this.order == order
    {
      this.files := files;
      this.order := order;
    }

    /** `File.Exists(path)`. */
    predicate Exists(p: Path)
      reads this
    {
      p in files
    }

    /** `new DirectoryInfo(dir).GetFiles()`: the files of `dir`, each once, in
        enumeration order. */
    function Listing(dir: string): (r: seq<Path>)
      reads this
      requires Valid()
      ensures forall i :: 0 <= i < |r| ==> r[i] in files
    {
      InDir(order, dir)
    }

    /** The listing holds every file of `dir` and nothing else, each once. */
    lemma ListingSpec(dir: string)
      requires Valid()
      ensures Distinct(Listing(dir))
      ensures forall p :: p in Listing(dir) <==> p in files && p.dir == dir
    {
    }

    /** `file.Save()` after the tag was changed in memory: the file at `p` now
        carries `tag`; nothing else changes. */
    method SaveTag(p: Path, tag: Tag)
      requires Valid() && p in files
      modifies this
      ensures Valid()
      ensures files == old(files)[p := old(files)[p].(tag := tag)]
      ensures order == old(order)
    {
      files := files[p := files[p].(tag := tag)];
    }

    /** `File.Move(from, to)`: the file leaves `from` and appears at `to`, last in
        the enumeration order. */
    method Move(from: Path, to: Path)
      requires Valid() && from in files && to !in files
      modifies this
      ensures Valid()
      ensures files == (old(files) - {from})[to := old(files)[from]]
      ensures order == Remove(old(order), from) + [to]
    {
      var entry := files[from];
      var rest := Remove(order, from);
      files := (files - {from})[to := entry];
      order := rest + [to];
      forall p | p in files
        ensures p in order
      {
        if p != to {
          assert p in old(order);
          var k :| 0 <= k < |old(order)| && old(order)[k] == p;
        }
      }
    }

    /** `File.Delete(p)`. */
    method Delete(p: Path)
      requires Valid() && p in files
      modifies this
      ensures Valid()
      ensures files == old(files) - {p}
      ensures order == Remove(old(order), p)
    {
      files := files - {p};
      order := Remove(order, p);
      forall q | q in files
        ensures q in order
      {
        var k :| 0 <= k < |old(order)| && old(order)[k] == q;
      }
    }
  }
}
