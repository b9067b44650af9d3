/**
 * The upward directory resolver: which roots are searched, which pattern variants are
 * tried at each root, and which answer the ordered search gives.
 */
module Resolver {
  import opened Wrappers
  import opened Types
  import opened Text

  /** `Path.Combine("packages", "RedisInside*")`: a flat package extraction. */
  const NugetPrefix: Pattern := ["packages", "RedisInside*"]

  /** `Path.Combine("packages", "RedisInside", "*")`: the versioned NuGet cache layout. */
  const NugetCachePrefix: Pattern := ["packages", "RedisInside", "*"]

  // ---------------------------------------------------------------------------
  // Candidate roots
  // ---------------------------------------------------------------------------

  /** LINQ `Where(x => !string.IsNullOrWhiteSpace(x))`: the non-blank entries, in order. */
  function NonBlank(xs: seq<Option<string>>): (r: seq<Path>)
    ensures |r| <= |xs|
    ensures forall k :: 0 <= k < |r| ==> !IsNullOrWhiteSpace(Some(r[k]))
  {
    if xs == [] then []
    else if IsNullOrWhiteSpace(xs[0]) then NonBlank(xs[1..])
    else [xs[0].value] + NonBlank(xs[1..])
  }

  /** A path is kept exactly when it was offered and is not blank. */
  lemma {:induction false} NonBlankMembers(xs: seq<Option<string>>, s: Path)
    ensures s in NonBlank(xs) <==> Some(s) in xs && !IsNullOrWhiteSpace(Some(s))
  {
    if xs != [] {
      NonBlankMembers(xs[1..], s);
      assert xs == [xs[0]] + xs[1..];
    }
  }

  /** Filtering commutes with concatenation, so the filter keeps the original order. */
  lemma {:induction false} NonBlankAppend(xs: seq<Option<string>>, ys: seq<Option<string>>)
    ensures NonBlank(xs + ys) == NonBlank(xs) + NonBlank(ys)
  {
    if xs == [] {
      assert xs + ys == ys;
    } else {
      assert (xs + ys)[0] == xs[0];
      assert (xs + ys)[1..] == xs[1..] + ys;
      NonBlankAppend(xs[1..], ys);
    }
  }

  /**
   * `ResolveBinary`'s root list: the executing directory, then the NuGet cache directory,
   * each kept only when it is not null or white space.
   */
  function SearchDirectories(executingDirectory: Option<Path>, cacheDirectory: Path): (r: seq<Path>)
    ensures |r| <= 2
    ensures r == (if IsNullOrWhiteSpace(executingDirectory) then [] else [executingDirectory.value])
              + (if IsNullOrWhiteSpace(Some(cacheDirectory)) then [] else [cacheDirectory])
  {
    var offered := [executingDirectory, Some(cacheDirectory)];
    NonBlankAppend([executingDirectory], [Some(cacheDirectory)]);
    assert [executingDirectory][1..] == [] && [Some(cacheDirectory)][1..] == [];
    NonBlank(offered)
  }

  // ---------------------------------------------------------------------------
  // Pattern variants and the ordered search
  // ---------------------------------------------------------------------------

  /**
   * The three patterns tried at each root, most specific first: the bare pattern, then
   * the pattern under each prefix. Each variant ends with the pattern.
   */
  function PatternVariants(pattern: Pattern): (vs: seq<Pattern>)
    ensures |vs| == 3 && vs[0] == pattern
    ensures |vs[1]| == |pattern| + 2 && |vs[2]| == |pattern| + 3
    ensures vs[1][..2] == ["packages", "RedisInside*"] && vs[1][2..] == pattern
    ensures vs[2][..3] == ["packages", "RedisInside", "*"] && vs[2][3..] == pattern
    ensures forall j :: 0 <= j < |vs| ==> |pattern| <= |vs[j]| && vs[j][|vs[j]| - |pattern|..] == pattern
  {
    [pattern, NugetPrefix + pattern, NugetCachePrefix + pattern]
  }

  /** The first non-null answer of `g` along `xs`, or null when every answer is null. */
  function FirstSome<T>(xs: seq<T>, g: T -> Option<Path>): Option<Path> {
    if xs == [] then None else g(xs[0]).OrElse(FirstSome(xs[1..], g))
  }

  /** `k` is the first position of `xs` at which `g` answers something. */
  ghost predicate IsFirst<T>(xs: seq<T>, g: T -> Option<Path>, k: int) {
    && 0 <= k < |xs|
    && g(xs[k]).Some?
    && forall k' :: 0 <= k' < k ==> g(xs[k']).None?
  }

  /** `FirstSome` answers null exactly when every position answers null. */
  lemma {:induction false} FirstSomeNone<T>(xs: seq<T>, g: T -> Option<Path>)
    ensures FirstSome(xs, g).None? <==> forall k :: 0 <= k < |xs| ==> g(xs[k]).None?
  {
    if xs != [] {
      FirstSomeNone(xs[1..], g);
      assert forall k :: 1 <= k < |xs| ==> xs[k] == xs[1..][k - 1];
    }
  }

  /** At the first answering position, `FirstSome` gives that position's answer. */
  lemma {:induction false} FirstSomeAt<T>(xs: seq<T>, g: T -> Option<Path>, k: int)
    requires IsFirst(xs, g, k)
    ensures FirstSome(xs, g) == g(xs[k])
  {
    if k > 0 {
      assert g(xs[0]).None?;
      assert xs[1..][k - 1] == xs[k];
      FirstSomeAt(xs[1..], g, k - 1);
    }
  }

  /** A non-null `FirstSome` comes from a first answering position, which this returns. */
  lemma {:induction false} FirstSomeWitness<T>(xs: seq<T>, g: T -> Option<Path>) returns (k: int)
    requires FirstSome(xs, g).Some?
    ensures IsFirst(xs, g, k) && FirstSome(xs, g) == g(xs[k])
  {
    if g(xs[0]).Some? {
      k := 0;
    } else {
      var k' := FirstSomeWitness(xs[1..], g);
      k := k' + 1;
      assert xs[k] == xs[1..][k'];
      forall j | 0 <= j < k ensures g(xs[j]).None? {
        if j > 0 { assert xs[j] == xs[1..][j - 1]; }
      }
    }
  }

  /** A non-null `FirstSome` is the answer of some position. */
  lemma FirstSomeIsSomeAnswer<T>(xs: seq<T>, g: T -> Option<Path>)
    requires FirstSome(xs, g).Some?
    ensures exists k :: 0 <= k < |xs| && g(xs[k]) == FirstSome(xs, g)
  {
    var k := FirstSomeWitness(xs, g);
  }

  /**
   * The null-coalescing chain at one root: the bare pattern, then the NuGet prefix,
   * then the NuGet cache prefix.
   */
  function TryRoot(root: Path, pattern: Pattern, findUpwards: FolderOracle): (r: Option<Path>)
    // a hit for the bare pattern is never overridden by a prefixed variant
    ensures findUpwards(root, pattern).Some? ==> r == findUpwards(root, pattern)
    // a null for a variant hands over to the next one
    ensures findUpwards(root, pattern).None? && findUpwards(root, NugetPrefix + pattern).Some? ==>
      r == findUpwards(root, NugetPrefix + pattern)
    // the answer is always one of the three variants' answers
    ensures r == findUpwards(root, pattern) || r == findUpwards(root, NugetPrefix + pattern)
         || r == findUpwards(root, NugetCachePrefix + pattern)
  {
    findUpwards(root, pattern)
      .OrElse(findUpwards(root, NugetPrefix + pattern))
      .OrElse(findUpwards(root, NugetCachePrefix + pattern))
  }

  /** The chain at one root is the ordered search over the three variants. */
  lemma TryRootTriesVariantsInOrder(root: Path, pattern: Pattern, findUpwards: FolderOracle)
    ensures TryRoot(root, pattern, findUpwards)
         == FirstSome(PatternVariants(pattern), v => findUpwards(root, v))
  {
    var vs := PatternVariants(pattern);
    var g := v => findUpwards(root, v);
    assert vs[1..][0] == vs[1] && vs[1..][1..][0] == vs[2] && vs[1..][1..][1..] == [];
    assert FirstSome(vs[1..][1..], g) == g(vs[2]).OrElse(None);
    assert FirstSome(vs[1..], g) == g(vs[1]).OrElse(FirstSome(vs[1..][1..], g));
    assert FirstSome(vs, g) == g(vs[0]).OrElse(FirstSome(vs[1..], g));
  }

  /** The roots outer, the variants inner: the first non-null answer overall. */
  function FirstFound(roots: seq<Path>, pattern: Pattern, findUpwards: FolderOracle): (r: Option<Path>)
    // a root that answers is never overridden by a later root
    ensures |roots| > 0 && TryRoot(roots[0], pattern, findUpwards).Some? ==>
      r == TryRoot(roots[0], pattern, findUpwards)
    // a non-null answer is the answer of some searched root
    ensures r.Some? ==> exists i :: 0 <= i < |roots| && TryRoot(roots[i], pattern, findUpwards) == r
  {
    var g := root => TryRoot(root, pattern, findUpwards);
    if FirstSome(roots, g).Some? then
      FirstSomeIsSomeAnswer(roots, g);
      FirstSome(roots, g)
    else
      FirstSome(roots, g)
  }

  /**
   * Root `i` with variant `j` is the first hit in root-major order: it answers, and every
   * earlier root with any variant, and every earlier variant at root `i`, answered null.
   */
  ghost predicate FoundAt(roots: seq<Path>, pattern: Pattern, findUpwards: FolderOracle, i: int, j: int) {
    var vs := PatternVariants(pattern);
    && 0 <= i < |roots| && 0 <= j < |vs|
    && findUpwards(roots[i], vs[j]).Some?
    && (forall i', j' :: 0 <= i' < i && 0 <= j' < |vs| ==> findUpwards(roots[i'], vs[j']).None?)
    && (forall j' :: 0 <= j' < j ==> findUpwards(roots[i], vs[j']).None?)
  }

  /** A root answers null exactly when all three variants answer null there. */
  lemma TryRootNone(root: Path, pattern: Pattern, findUpwards: FolderOracle)
    ensures TryRoot(root, pattern, findUpwards).None?
        <==> forall j :: 0 <= j < 3 ==> findUpwards(root, PatternVariants(pattern)[j]).None?
  {
    TryRootTriesVariantsInOrder(root, pattern, findUpwards);
    FirstSomeNone(PatternVariants(pattern), v => findUpwards(root, v));
  }

  /** Exhaustion: nothing is found exactly when every root and every variant answered null. */
  lemma ExhaustedIff(roots: seq<Path>, pattern: Pattern, findUpwards: FolderOracle)
    ensures FirstFound(roots, pattern, findUpwards).None?
        <==> forall i, j :: 0 <= i < |roots| && 0 <= j < 3 ==>
               findUpwards(roots[i], PatternVariants(pattern)[j]).None?
  {
    FirstSomeNone(roots, r => TryRoot(r, pattern, findUpwards));
    forall i | 0 <= i < |roots| {
      TryRootNone(roots[i], pattern, findUpwards);
    }
  }

  /** First match wins: when (i, j) is the first hit, the search returns its answer. */
  lemma FirstMatchWins(roots: seq<Path>, pattern: Pattern, findUpwards: FolderOracle, i: int, j: int)
    requires FoundAt(roots, pattern, findUpwards, i, j)
    ensures FirstFound(roots, pattern, findUpwards) == findUpwards(roots[i], PatternVariants(pattern)[j])
  {
    var vs := PatternVariants(pattern);
    var g := r => TryRoot(r, pattern, findUpwards);
    forall i' | 0 <= i' < i ensures g(roots[i']).None? {
      TryRootNone(roots[i'], pattern, findUpwards);
    }
    var h := v => findUpwards(roots[i], v);
    assert IsFirst(vs, h, j);
    FirstSomeAt(vs, h, j);
    TryRootTriesVariantsInOrder(roots[i], pattern, findUpwards);
    assert IsFirst(roots, g, i);
    FirstSomeAt(roots, g, i);
  }

  /** Every answer of the search is the answer of the first hit in root-major order. */
  lemma FirstMatchWitness(roots: seq<Path>, pattern: Pattern, findUpwards: FolderOracle)
    returns (i: int, j: int)
    requires FirstFound(roots, pattern, findUpwards).Some?
    ensures FoundAt(roots, pattern, findUpwards, i, j)
    ensures FirstFound(roots, pattern, findUpwards) == findUpwards(roots[i], PatternVariants(pattern)[j])
  {
    var vs := PatternVariants(pattern);
    var g := r => TryRoot(r, pattern, findUpwards);
    i := FirstSomeWitness(roots, g);
    var h := v => findUpwards(roots[i], v);
    TryRootTriesVariantsInOrder(roots[i], pattern, findUpwards);
    j := FirstSomeWitness(vs, h);
    forall i' | 0 <= i' < i ensures forall j' :: 0 <= j' < |vs| ==> findUpwards(roots[i'], vs[j']).None? {
      TryRootNone(roots[i'], pattern, findUpwards);
    }
  }

  /** `FirstMatchWitness` stated as an existential, for use inside `Locate`'s body. */
  lemma FirstMatchExists(roots: seq<Path>, pattern: Pattern, findUpwards: FolderOracle)
    requires FirstFound(roots, pattern, findUpwards).Some?
    ensures exists i, j :: FoundAt(roots, pattern, findUpwards, i, j)
                        && FirstFound(roots, pattern, findUpwards) == findUpwards(roots[i], PatternVariants(pattern)[j])
  {
    var i, j := FirstMatchWitness(roots, pattern, findUpwards);
  }

  /**
   * `FindBinariesDirectory` as a value: the first hit, or the exception that names the
   * three patterns and the roots searched.
   */
  function Locate(roots: seq<Path>, pattern: Pattern, findUpwards: FolderOracle): (r: Result<Path, LocatorError>)
    ensures r.Failure? <==> forall i, j :: 0 <= i < |roots| && 0 <= j < 3 ==>
                              findUpwards(roots[i], PatternVariants(pattern)[j]).None?
    ensures r.Failure? ==>
      r.error == BinariesNotFound([pattern, NugetPrefix + pattern, NugetCachePrefix + pattern], roots)
    ensures r.Success? ==> exists i, j :: FoundAt(roots, pattern, findUpwards, i, j)
                                        && Some(r.value) == findUpwards(roots[i], PatternVariants(pattern)[j])
  {
    ExhaustedIff(roots, pattern, findUpwards);
    match FirstFound(roots, pattern, findUpwards)
    case Some(p) =>
      FirstMatchExists(roots, pattern, findUpwards);
      Success(p)
    case None =>
      Failure(BinariesNotFound(PatternVariants(pattern), roots))
  }
}
