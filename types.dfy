/** Types shared by the profile selector, the resolver and the locator. */
module Types {
  import opened Wrappers

  /** A directory path as a string, the way the filesystem and the environment report it. */
  type Path = string

  /** One segment of a relative search pattern; `*` and `RedisInside*` are wildcard segments. */
  type Segment = string

  /** A relative search pattern as its segments: `Path.Combine` becomes concatenation. */
  type Pattern = seq<Segment>

  /**
   * `FolderSearch.FindFolderUpwards`: from a start directory, walk upwards looking for the
   * pattern, giving the matching folder or null. It reads the filesystem, so the model
   * takes it as an uninterpreted function and assumes nothing about how it matches.
   */
  type FolderOracle = (Path, Pattern) -> Option<Path>

  /** The two exceptions the locator throws. */
  datatype LocatorError =
    | UnknownOs(description: string)
    | BinariesNotFound(patterns: seq<Pattern>, searched: seq<Path>)
}
