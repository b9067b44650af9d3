/**
 * `BinaryLocator`: the Redis binaries folder, found once and then remembered.
 * The platform profile is fixed when the locator is built; the folder is
 * searched for on the first read of `Folder` and cached in `binFile`.
 */
module Locator {
  import opened Wrappers
  import opened Types
  import opened Text
  import opened PlatformProfile
  import opened Resolver

  class BinaryLocator {
    // readonly fields: set by the constructor, never changed afterwards
    const searchPattern: Pattern
    const nugetCacheDirectory: Path

    /** `_binFile`: the cached folder, empty while nothing has been resolved. */
    var binFile: Path

    /** How many times `ResolveBinary` has run on this locator. */
    ghost var searches: nat

    /** The locator is resolved once the cache holds a non-empty path. */
    ghost predicate Resolved()
      reads this
    {
      binFile != ""
    }

    /** Fills the readonly fields from a profile; the cache starts empty. */
    constructor (profile: Profile)
      ensures searchPattern == profile.searchPattern
      ensures nugetCacheDirectory == profile.cacheDirectory
      ensures binFile == "" && searches == 0
    {
      searchPattern := profile.searchPattern;
      nugetCacheDirectory := profile.cacheDirectory;
      binFile := "";
      searches := 0;
    }

    /**
     * `new BinaryLocator()`: the constructor either builds a locator for the platform
     * profile or throws for an operating system it does not know.
     */
    static method Create(os: OsId, env: Environment) returns (r: Result<BinaryLocator, LocatorError>)
      ensures r.Failure? <==> os.Other?
      ensures r.Failure? ==> r.error == UnknownOs(os.description)
      ensures r.Success? ==> && fresh(r.value)
                             && SelectProfile(os, env) == Success(Profile(r.value.searchPattern, r.value.nugetCacheDirectory))
                             && r.value.binFile == "" && r.value.searches == 0
    {
      match SelectProfile(os, env)
      case Success(profile) =>
        var locator := new BinaryLocator(profile);
        r := Success(locator);
      case Failure(e) =>
        r := Failure(e);
    }

    /**
     * The `Folder` getter: an empty cache triggers one search, whose answer is cached
     * when it is returned (a throwing search leaves the cache empty); a non-empty cache
     * is returned as it is, without searching.
     */
    method Folder(executingDirectory: Option<Path>, findUpwards: FolderOracle) returns (r: Result<Path, LocatorError>)
      modifies this
      ensures old(binFile) != "" ==> r == Success(old(binFile)) && binFile == old(binFile) && searches == old(searches)
      ensures old(binFile) == "" ==>
        && r == Locate(SearchDirectories(executingDirectory, nugetCacheDirectory), searchPattern, findUpwards)
        && binFile == (if r.Success? then r.value else "")
        && searches == old(searches) + 1
      ensures old(Resolved()) ==> Resolved()
      ensures r.Success? && r.value != "" ==> Resolved()
    {
      if binFile == "" {
        searches := searches + 1;
        r := ResolveBinary(executingDirectory, findUpwards);
        if r.Success? {
          binFile := r.value;
        }
      } else {
        r := Success(binFile);
      }
    }

    /** The roots [executing directory, NuGet cache directory] without blanks, then the search. */
    method ResolveBinary(executingDirectory: Option<Path>, findUpwards: FolderOracle) returns (r: Result<Path, LocatorError>)
      ensures r == Locate(SearchDirectories(executingDirectory, nugetCacheDirectory), searchPattern, findUpwards)
    {
      var searchDirectories := NonBlank([executingDirectory, Some(nugetCacheDirectory)]);
      r := FindBinariesDirectory(searchDirectories, findUpwards);
    }

    /**
     * For each root in order, the bare pattern, then the NuGet prefix, then the NuGet
     * cache prefix; the first folder found is returned, and when none is found the
     * exception names the three patterns and the roots.
     */
    method FindBinariesDirectory(searchDirectories: seq<Path>, findUpwards: FolderOracle) returns (r: Result<Path, LocatorError>)
      ensures r == Locate(searchDirectories, searchPattern, findUpwards)
    {
      var i := 0;
      while i < |searchDirectories|
        invariant 0 <= i <= |searchDirectories|
        invariant FirstFound(searchDirectories, searchPattern, findUpwards)
               == FirstFound(searchDirectories[i..], searchPattern, findUpwards)
      {
        var directory := searchDirectories[i];
        var binaryFolder := findUpwards(directory, searchPattern);
        if binaryFolder.None? {
          binaryFolder := findUpwards(directory, NugetPrefix + searchPattern);
        }
        if binaryFolder.None? {
          binaryFolder := findUpwards(directory, NugetCachePrefix + searchPattern);
        }
        assert binaryFolder == TryRoot(directory, searchPattern, findUpwards);
        assert searchDirectories[i..][1..] == searchDirectories[i + 1..];
        if binaryFolder.Some? {
          return Success(binaryFolder.value);
        }
        i := i + 1;
      }
      r := Failure(BinariesNotFound(PatternVariants(searchPattern), searchDirectories));
    }
  }

  /**
   * Two reads of `Folder`, possibly with a changed filesystem in between: after a first
   * read that resolves a non-empty folder, the second returns it again without searching;
   * after a first read that throws, the second searches again.
   */
  method ReadFolderTwice(
    locator: BinaryLocator,
    first: (Option<Path>, FolderOracle),
    second: (Option<Path>, FolderOracle)
  ) returns (a: Result<Path, LocatorError>, b: Result<Path, LocatorError>)
    modifies locator
    ensures a.Success? && a.value != "" ==> b == a && locator.searches <= old(locator.searches) + 1
    ensures old(locator.Resolved()) ==>
      a == b == Success(old(locator.binFile)) && locator.searches == old(locator.searches)
    // a read that throws leaves the cache empty, so the next read searches again
    ensures a.Failure? ==> locator.searches == old(locator.searches) + 2
  {
    a := locator.Folder(first.0, first.1);
    b := locator.Folder(second.0, second.1);
  }
}
