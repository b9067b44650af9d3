# RedisInside binary locator, modelled in Dafny

RedisInside starts a Redis server that ships inside its NuGet package. `BinaryLocator`
finds the folder that holds the Redis binaries. This model covers its three parts.

- **Platform profile.** The constructor picks a search pattern and a NuGet cache
  directory from the operating system. Linux gets `*/tools/redis` and
  `$HOME/.nuget/packages/RedisInside`. Windows gets `tools\redis` and the expanded
  `%USERPROFILE%\.nuget\packages`. Any other system throws "Unknown OS".
- **Ordered fallback search.** The candidate roots are the executing directory, then
  the NuGet cache directory. Roots that are null or white space are dropped. At each
  root, in order, three patterns are tried: the bare pattern, then
  `packages/RedisInside*/` + pattern, then `packages/RedisInside/*/` + pattern. The
  first folder found wins. When nothing is found, the exception names the three
  patterns and the roots that were searched.
- **Compute-once accessor.** `Folder` caches the folder it found in `_binFile`. Later
  reads return the cached value and do not search. A read that throws leaves the cache
  empty, so the next read searches again.

Files:
- `wrappers.dfy`: `Option` (a nullable reference, with `OrElse` for `??`) and `Result`
  (a call that may throw).
- `types.dfy`: paths, patterns as segment sequences, the upward-search oracle and the
  two exceptions.
- `text.dfy`: `char.IsWhiteSpace` and `string.IsNullOrWhiteSpace`.
- `platform_profile.dfy`: the constructor's branch on the operating system.
- `resolver.dfy`: the root filter, the pattern variants, the ordered search as a
  function, and the lemmas that characterise it.
- `binary_locator.dfy`: the class itself, with readonly fields as `const`, the cache as
  a mutable field, and a ghost counter of searches.

Inputs that come from outside the file are parameters:
- the operating system and its description (`OsId`);
- the `HOME` and `USERPROFILE` variables (`Environment`), where `None` means unset;
- the executing directory (`Option<Path>`), passed on each read;
- `FolderSearch.FindFolderUpwards` as an uninterpreted total function
  `(Path, Pattern) -> Option<Path>`, also passed on each read. The model assumes nothing
  about how it walks upwards or matches wildcards.

Unset environment variables follow the C# semantics:
- An unset `HOME` is not an empty cache root that gets filtered out. C# concatenates
  null as the empty string, so the root is `/.nuget/packages/RedisInside`.
- An unset `USERPROFILE` is left as `%USERPROFILE%` by `ExpandEnvironmentVariables`.
- So on both platforms the cache root is never blank and is always searched
  (`SelectProfile`'s last ensures).
- The constant `OsxAndLinuxNugetCacheLocation` is named for macOS, but macOS never
  reaches it: only Linux and Windows are accepted.

## Model

| member | source | states |
|---|---|---|
| PlatformProfile.SelectProfile | source/RedisInside/BinaryLocator.cs:13-36 | Fails exactly for an OS other than Linux and Windows, with that OS's description. Linux gives pattern `*`,`tools`,`redis` and cache `HOME + "/.nuget/packages/RedisInside"` (the bare literal when HOME is unset). Windows gives `tools`,`redis` and `%USERPROFILE%` expanded before `\.nuget\packages`. The cache directory is never blank. |
| Resolver.NonBlank | source/RedisInside/BinaryLocator.cs:63 | The filter keeps no more entries than it is given, and every entry it keeps is non-null and not white space. |
| Resolver.NonBlankMembers | source/RedisInside/BinaryLocator.cs:63 | A path is in the filtered list if and only if it was offered and is not blank. |
| Resolver.NonBlankAppend | source/RedisInside/BinaryLocator.cs:63 | Filtering a concatenation gives the concatenation of the filtered parts, so the original order is kept. |
| Resolver.SearchDirectories | source/RedisInside/BinaryLocator.cs:56-63 | The roots are the executing directory, if not blank, followed by the cache directory, if not blank. There are at most two. |
| Resolver.PatternVariants | source/RedisInside/BinaryLocator.cs:11-12 | The three patterns, in the order lines 72-76 try them and line 83 reports them: the bare pattern, then `packages`,`RedisInside*` (`NugetPrefix`) before it, then `packages`,`RedisInside`,`*` (`NugetCachePrefix`) before it. Each variant ends with the pattern. |
| Resolver.TryRoot | source/RedisInside/BinaryLocator.cs:70-76 | A hit for the bare pattern is never overridden. A null hands over to the `packages/RedisInside*` variant. The answer is always one of the three variants' answers. |
| Resolver.FirstFound | source/RedisInside/BinaryLocator.cs:68-81 | A root that answers is never overridden by a later root. Any non-null answer is the answer of one of the searched roots. |
| Resolver.TryRootTriesVariantsInOrder | source/RedisInside/BinaryLocator.cs:70-76 | The `??` chain at one root is the ordered first-non-null search over the bare pattern, then the `packages/RedisInside*` variant, then the `packages/RedisInside/*` variant. |
| Resolver.TryRootNone | source/RedisInside/BinaryLocator.cs:70-77 | A root yields null if and only if all three variants yield null at that root. |
| Resolver.ExhaustedIff | source/RedisInside/BinaryLocator.cs:68-84 | The search finds nothing if and only if every root with every variant yields null. |
| Resolver.FirstMatchWins | source/RedisInside/BinaryLocator.cs:68-80 | Suppose (root i, variant j) answers, every earlier root answers null for all variants, and every earlier variant at root i answers null. Then the search returns that answer. |
| Resolver.FirstMatchWitness | source/RedisInside/BinaryLocator.cs:68-80 | Whenever the search finds a folder, there is such a first (root, variant) pair in root-major order, and the folder is that pair's answer. |
| Resolver.Locate | source/RedisInside/BinaryLocator.cs:66-85 | Throws if and only if every root and variant yields null. The error carries the three patterns in order and exactly the roots searched. On success the value is the answer of the first (root, variant) pair that answered. |
| Locator.BinaryLocator.constructor | source/RedisInside/BinaryLocator.cs:17-19 | The readonly pattern and cache directory are those of the profile. They are `const`, so nothing changes them later. The cache starts empty. |
| Locator.BinaryLocator.Create | source/RedisInside/BinaryLocator.cs:21-37 | Construction throws if and only if the OS is unknown, with its description. Otherwise it gives a fresh locator whose fields are the selected profile and whose cache is empty. |
| Locator.BinaryLocator.Folder | source/RedisInside/BinaryLocator.cs:39-52 | With a non-empty cache: returns it, does not search, and changes nothing. With an empty cache: searches exactly once and returns the search's result. A success is cached; a failure leaves the cache empty. Once resolved, it stays resolved. |
| Locator.BinaryLocator.ResolveBinary | source/RedisInside/BinaryLocator.cs:54-64 | The result is the ordered search over the non-blank roots [executing directory, cache directory]. |
| Locator.BinaryLocator.FindBinariesDirectory | source/RedisInside/BinaryLocator.cs:66-85 | Its loop over the roots, with an early return, returns what `Locate` specifies: the first hit in root-major order, or the exhaustion error. |
| Locator.ReadFolderTwice | source/RedisInside/BinaryLocator.cs:43-50 | If a first read resolves a non-empty folder, a second read returns the same value, even against a changed filesystem, with at most one search in all. If the locator was already resolved, neither read searches. If the first read throws, the second searches again. |

## Left out

- `FolderSearch.FindFolderUpwards` and `FolderSearch.CurrentExecutingDirectory` are not part of this model. They read the filesystem. The first is an uninterpreted oracle, the second an input. Upward traversal, termination at the filesystem root and wildcard matching are therefore not modelled.
- `RuntimeInformation.IsOSPlatform`, `RuntimeInformation.OSDescription` and `Environment.GetEnvironmentVariable` are environment access. The OS identity, its description and the two variables are inputs.
- `Environment.ExpandEnvironmentVariables` is modelled only for the one template it is given. It replaces `%USERPROFILE%` by its value, or leaves it as written when the variable is unset.
- `HOME` is read once per process, by a static initialiser, while `%USERPROFILE%` is expanded again by each constructor call. One locator is modelled exactly. The process-wide sharing of `HOME` across locators is not enforced: two `Create` calls may be given different `HOME` values, so the model admits two Linux locators with different cache directories, which the code cannot produce.
- The exception message text is not modelled. The errors carry only their contents: the OS description, or the three patterns and the searched roots.
- `Path.Combine` is modelled as concatenation of segment sequences. Separator characters and the rule that a rooted second argument replaces the first do not arise for these relative literals.
- Thread safety of `_binFile` is not modelled. The code has no locking, and the model is single-threaded.
- Laziness of `??` is kept in `FindBinariesDirectory` (a later variant is tried only after a null). In `TryRoot` it is immaterial, because the oracle is a pure function.
