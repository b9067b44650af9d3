/**
 * The platform profile: which search pattern and which NuGet cache directory the
 * locator uses, chosen once from the operating system when the locator is built.
 */
module PlatformProfile {
  import opened Wrappers
  import opened Types
  import opened Text

  /** What `RuntimeInformation.IsOSPlatform` answers; `Other` keeps `OSDescription`. */
  datatype OsId = Linux | Windows | Other(description: string)

  /** The two environment variables the profile reads; `None` is an unset variable. */
  datatype Environment = Environment(home: Option<string>, userProfile: Option<string>)

  /** The two readonly fields the constructor fills. */
  datatype Profile = Profile(searchPattern: Pattern, cacheDirectory: Path)

  /** `tools` then `redis`, written with a backslash. */
  const DefaultWindowsSearchPattern: Pattern := ["tools", "redis"]

  /** `*` then `tools` then `redis`, written with forward slashes. */
  const DefaultLinuxSearchPattern: Pattern := ["*", "tools", "redis"]

  /**
   * `HOME + "/.nuget/packages/RedisInside"`. C# concatenates a null string as the empty
   * string, so an unset HOME gives the bare literal (still not blank).
   */
  function LinuxNugetCacheLocation(home: Option<string>): Path {
    (match home case None => "" case Some(h) => h) + "/.nuget/packages/RedisInside"
  }

  /**
   * `Environment.ExpandEnvironmentVariables(@"%USERPROFILE%\.nuget\packages")`: the one
   * variable reference is replaced by its value; an unset variable is left as written.
   */
  function WindowsNugetCacheLocation(userProfile: Option<string>): Path {
    (match userProfile case None => "%USERPROFILE%" case Some(u) => u) + "\\.nuget\\packages"
  }

  /**
   * The constructor's branch on the operating system. Linux is tested first, then
   * Windows; every other system (macOS included) is refused with its description.
   */
  function SelectProfile(os: OsId, env: Environment): (r: Result<Profile, LocatorError>)
    ensures r.Failure? <==> os.Other?
    ensures os.Other? ==> r.error == UnknownOs(os.description)
    ensures os == Linux ==> r.value.searchPattern == ["*", "tools", "redis"]
    ensures os == Linux && env.home.Some? ==>
      r.value.cacheDirectory == env.home.value + "/.nuget/packages/RedisInside"
    ensures os == Linux && env.home.None? ==>
      r.value.cacheDirectory == "/.nuget/packages/RedisInside"
    ensures os == Windows ==> r.value.searchPattern == ["tools", "redis"]
    ensures os == Windows && env.userProfile.Some? ==>
      r.value.cacheDirectory == env.userProfile.value + "\\.nuget\\packages"
    ensures os == Windows && env.userProfile.None? ==>
      r.value.cacheDirectory == "%USERPROFILE%\\.nuget\\packages"
    // the cache directory is never blank, so it always takes part in the search
    ensures r.Success? ==> !IsNullOrWhiteSpace(Some(r.value.cacheDirectory))
  {
    match os
    case Linux =>
      var home := match env.home case None => "" case Some(h) => h;
      NonBlankSuffix(home, "/.nuget/packages/RedisInside");
      Success(Profile(DefaultLinuxSearchPattern, LinuxNugetCacheLocation(env.home)))
    case Windows =>
      var profile := match env.userProfile case None => "%USERPROFILE%" case Some(u) => u;
      NonBlankSuffix(profile, "\\.nuget\\packages");
      Success(Profile(DefaultWindowsSearchPattern, WindowsNugetCacheLocation(env.userProfile)))
    case Other(description) =>
      Failure(UnknownOs(description))
  }
}
