/** Filename keys (NamingHelper.cs): `"{artists} - {title}"` with every invalid
    filename character replaced by '_'. The invalid set is platform-defined
    (`Path.GetInvalidFileNameChars()`) and is a parameter here. */
module Naming {
  import opened Wrappers
  import opened Text
  import opened Tracks
  import opened Files

  /** The private `GetFilename(artists, title)`. */
  function KeyOf(artists: string, title: string, invalid: set<char>): string {
    Sanitize(artists + " - " + title, invalid)
  }

  /** `GetFilename(FullTrack)`: the artist names joined with ", " in order. */
  function KeyOfFullTrack(t: FullTrack, invalid: set<char>): string {
    KeyOf(Join(ArtistNames(t.artists), ", "), t.name, invalid)
  }

  /** `GetFilename(TrackItem)`. */
  function KeyOfItem(t: TrackItem, invalid: set<char>): string {
    KeyOf(Join(t.artistNames, ", "), t.name, invalid)
  }

  /** `GetFilename(TagLib.File)`: only the first performer is used; with no
      performer `Performers[0]` throws, which is `None` here. */
  function KeyOfTag(tag: Tag, invalid: set<char>): (r: Option<string>)
    ensures r.Some? <==> |tag.performers| > 0
    ensures r.Some? ==> r.value == KeyOf(tag.performers[0], tag.title, invalid)
  {
    if |tag.performers| == 0 then None else Some(KeyOf(tag.performers[0], tag.title, invalid))
  }

  /** The key is `artists + " - " + title` character for character, each invalid
      character replaced by '_', so it is |artists| + 3 + |title| long; when '_'
      is a valid character the key holds no invalid character, and sanitising it
      again changes nothing. */
  lemma KeyShape(artists: string, title: string, invalid: set<char>)
    ensures var raw := artists + " - " + title;
      && |KeyOf(artists, title, invalid)| == |artists| + 3 + |title|
      && forall i :: 0 <= i < |raw| ==> KeyOf(artists, title, invalid)[i] == SanitizedChar(raw[i], invalid)
    ensures '_' !in invalid ==> NoneOf(KeyOf(artists, title, invalid), invalid)
    ensures '_' !in invalid ==> Sanitize(KeyOf(artists, title, invalid), invalid) == KeyOf(artists, title, invalid)
  {
    var raw := artists + " - " + title;
    SanitizeIsCharwise(raw, invalid);
    if '_' !in invalid {
      SanitizeHasNoInvalid(raw, invalid);
      SanitizeIdempotent(raw, invalid);
    }
  }

  /** A `TrackItem` has the same key as the `FullTrack` it was built from. */
  lemma ItemKeyMatchesTrack(t: FullTrack, invalid: set<char>)
    ensures KeyOfItem(FromFullTrack(t), invalid) == KeyOfFullTrack(t, invalid)
  {
  }
}
