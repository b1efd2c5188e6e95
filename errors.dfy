/** The exceptions the core can raise, as values. */
module Errors {
  import opened Files

  datatype Error =
    /** `TagLib.File.Create` on a path with no file. */
    | FileNotFound(path: Path)
    /** `Tag.Comment.Split` on a file whose comment is null. */
    | NullComment(path: Path)
    /** `Tag.Performers[0]` on a file with no performer. */
    | NoPerformer(path: Path)
    /** `Dictionary.Add` of an id that is already a key. */
    | DuplicateId(id: string)
    /** `playback.IsPlaying` when the service reports no current playback. */
    | NoPlayback
    /** `currentlyPlaying.Item` when the service reports nothing playing. */
    | NothingPlaying
    /** `playlist!.Id` after no playlist of that name was found. */
    | PlaylistNotFound(name: string)
}
