/**
 * Path roots and the routing of an open request between the generators and
 * the real directory tree, including the synthesized root listing.
 */
module GenRoute {
  import opened Results
  import opened Entries
  import Strings

  /** filepath.Separator, fixed to the slash. */
  const Separator: char := '/'

  /**
   * The first segment of a path: everything before the first separator, or
   * the whole path when it has none.
   */
  function Root(path: string): (r: string)
    ensures r <= path
    ensures Separator !in r
    ensures r == path || (|r| < |path| && path[|r|] == Separator)
  {
    var i := Strings.IndexOf(path, Separator);
    if i < 0 then path else path[..i]
  }

  /** The root of a path whose first segment is `a` is `a`. */
  lemma RootOfJoin(a: string, b: string)
    requires Separator !in a
    ensures Root(a + [Separator] + b) == a
  {
    var p := a + [Separator] + b;
    assert p[|a|] == Separator;
    assert p[..|a|] == a;
  }

  /** The roots under which some path of `paths` lies. */
  function RootsOf(paths: set<string>): set<string>
  {
    set p | p in paths :: Root(p)
  }

  /** Errors of the file system, kept as a kind and a path rather than as text. */
  datatype Error =
    | NotExist                                   // fs.ErrNotExist
    | PathNotFound(op: string, path: string)      // a *fs.PathError whose cause is ENOENT
    | IOFailure(path: string, code: nat)          // any other failure of the real tree
    | GenerationFailure(path: string, code: nat)  // a failure raised by a generator
    | OpenFailed(name: string, cause: Error)      // "open <name> > <cause>", wrapping with %w
    | MissingPath(path: string)                   // "<fs.ErrNotExist> <path>", wrapping with %w

  /** os.IsNotExist: recognises fs.ErrNotExist and a path error around it, but no %w chain. */
  predicate IsNotExist(e: Error)
  {
    e.NotExist? || e.PathNotFound?
  }

  /** errors.Is(e, fs.ErrNotExist): follows %w wrapping. */
  predicate IsErrNotExist(e: Error)
  {
    match e
    case NotExist => true
    case PathNotFound(_, _) => true
    case MissingPath(_) => true
    case OpenFailed(_, cause) => IsErrNotExist(cause)
    case _ => false
  }

  /** fs.File: a regular file, or a directory whose ReadDir(-1) yields a listing or fails. */
  datatype File =
    | Regular(name: string, data: seq<bv8>)
    | Directory(name: string, listing: Result<seq<DirEntry>, Error>)

  /** The real directory tree (dirfs): Open and fs.ReadDir by path. */
  datatype RealFS = RealFS(open: string -> Result<File, Error>,
                           readDir: string -> Result<seq<DirEntry>, Error>)

  /** The entries a generator-produced file contributes: only a directory has any. */
  function GeneratorEntries(f: File): Result<seq<DirEntry>, Error>
  {
    if f.Directory? then f.listing else Ok([])
  }

  /** The entries the real tree contributes to a listing: none without a real tree. */
  function RealEntries(dirfs: Option<RealFS>, name: string): Result<seq<DirEntry>, Error>
  {
    if dirfs.None? then Ok([]) else dirfs.value.readDir(name)
  }

  /**
   * mergeEntries: the generators' listing of `name` (from `gen`, the prefix
   * tree's open) followed by the real tree's, deduplicated by name with the
   * first entry kept, then sorted by name. Any failure aborts the listing.
   */
  function MergeListing(name: string, gen: string -> Result<File, Error>, dirfs: Option<RealFS>): Result<File, Error>
  {
    match gen(name)
    case Fail(e) => Fail(e)
    case Ok(f) =>
      match GeneratorEntries(f)
      case Fail(e) => Fail(e)
      case Ok(fromGen) =>
        match RealEntries(dirfs, name)
        case Fail(e) => Fail(e)
        case Ok(fromReal) =>
          KeepFirstKeeps({}, fromGen + fromReal);
          Ok(Directory(name, Ok(SortByName(KeepFirst({}, fromGen + fromReal)))))
  }

  /**
   * innerFS.open: the root merges both sources, a path under a registered
   * root goes to the generators only, and any other path goes to the real
   * tree with its not-exist errors normalised.
   */
  function Route(roots: set<string>, dirfs: Option<RealFS>, gen: string -> Result<File, Error>, name: string): Result<File, Error>
  {
    if name == "." then MergeListing(name, gen, dirfs)
    else if Root(name) in roots then gen(name)
    else if dirfs.None? then Fail(NotExist)
    else
      match dirfs.value.open(name)
      case Ok(f) => Ok(f)
      case Fail(e) => if IsNotExist(e) then Fail(NotExist) else Fail(e)
  }

  /** innerFS.Open: every error is wrapped with the name; no file comes with an error. */
  function OpenWrapped(name: string, inner: Result<File, Error>): Result<File, Error>
  {
    match inner
    case Ok(f) => Ok(f)
    case Fail(e) => Fail(OpenFailed(name, e))
  }

  /**
   * The root listing holds every name of both sources exactly once, sorted
   * by name, and for each name the generators' entry wins over the real one.
   */
  lemma MergeListingContents(name: string, gen: string -> Result<File, Error>, dirfs: Option<RealFS>,
                             fromGen: seq<DirEntry>, fromReal: seq<DirEntry>)
    requires gen(name).Ok? && GeneratorEntries(gen(name).value) == Ok(fromGen)
    requires RealEntries(dirfs, name) == Ok(fromReal)
    ensures var r := MergeListing(name, gen, dirfs);
      && r.Ok? && r.value == Directory(name, r.value.listing) && r.value.listing.Ok?
      && var listing := r.value.listing.value;
      && Ascending(listing)
      && Names(listing) == Names(fromGen) + Names(fromReal)
      && forall n :: FirstNamed(listing, n) ==
           if FirstNamed(fromGen, n).Some? then FirstNamed(fromGen, n) else FirstNamed(fromReal, n)
  {
    var kept := KeepFirst({}, fromGen + fromReal);
    KeepFirstKeeps({}, fromGen + fromReal);
    var listing := SortByName(kept);
    assert MergeListing(name, gen, dirfs) == Ok(Directory(name, Ok(listing)));
    AscendingDistinct(listing);
    PermutationNames(listing, kept);
    NamesAppend(fromGen, fromReal);
    forall n ensures FirstNamed(listing, n) ==
        if FirstNamed(fromGen, n).Some? then FirstNamed(fromGen, n) else FirstNamed(fromReal, n)
    {
      FirstNamedPermutation(listing, kept, n);
      KeepFirstFirstNamed({}, fromGen + fromReal, n);
      FirstNamedAppend(fromGen, fromReal, n);
    }
  }

  /** A failure of the generators' open, of their ReadDir or of the real ReadDir aborts the listing. */
  lemma MergeListingAborts(name: string, gen: string -> Result<File, Error>, dirfs: Option<RealFS>)
    ensures gen(name).Fail? ==> MergeListing(name, gen, dirfs) == Fail(gen(name).error)
    ensures gen(name).Ok? && GeneratorEntries(gen(name).value).Fail? ==>
              MergeListing(name, gen, dirfs) == Fail(GeneratorEntries(gen(name).value).error)
    ensures gen(name).Ok? && GeneratorEntries(gen(name).value).Ok? && RealEntries(dirfs, name).Fail? ==>
              MergeListing(name, gen, dirfs) == Fail(RealEntries(dirfs, name).error)
  {
  }

  /** Opening "." yields the merged listing. */
  lemma RouteRootIsMerged(roots: set<string>, dirfs: Option<RealFS>, gen: string -> Result<File, Error>)
    ensures Route(roots, dirfs, gen, ".") == MergeListing(".", gen, dirfs)
  {
  }

  /** A path under a registered root is served by the generators, whatever the real tree holds. */
  lemma RouteShadowsRealTree(roots: set<string>, dirfs: Option<RealFS>, other: Option<RealFS>,
                             gen: string -> Result<File, Error>, name: string)
    requires name != "." && Root(name) in roots
    ensures Route(roots, dirfs, gen, name) == gen(name)
    ensures Route(roots, dirfs, gen, name) == Route(roots, other, gen, name)
  {
  }

  /**
   * A path under no registered root never reaches the generators; without a
   * real tree it does not exist, and with one the real tree's answer is
   * returned with every not-exist error normalised to fs.ErrNotExist.
   */
  lemma RouteFallsThrough(roots: set<string>, dirfs: Option<RealFS>, gen: string -> Result<File, Error>,
                          other: string -> Result<File, Error>, name: string)
    requires name != "." && Root(name) !in roots
    ensures Route(roots, dirfs, gen, name) == Route(roots, dirfs, other, name)
    ensures dirfs.None? ==> Route(roots, dirfs, gen, name) == Fail(NotExist)
    ensures dirfs.Some? && dirfs.value.open(name).Ok? ==> Route(roots, dirfs, gen, name) == dirfs.value.open(name)
    ensures dirfs.Some? && dirfs.value.open(name).Fail? ==>
              Route(roots, dirfs, gen, name) ==
                (if IsNotExist(dirfs.value.open(name).error) then Fail(NotExist) else dirfs.value.open(name))
  {
  }

  /**
   * The wrapped open fails exactly when the inner open fails, names the path
   * in its error, and keeps errors.Is(err, fs.ErrNotExist) of the cause.
   */
  lemma OpenWrappedKeepsCause(name: string, inner: Result<File, Error>)
    ensures OpenWrapped(name, inner).Ok? <==> inner.Ok?
    ensures inner.Ok? ==> OpenWrapped(name, inner) == inner
    ensures inner.Fail? ==> OpenWrapped(name, inner).error == OpenFailed(name, inner.error)
    ensures inner.Fail? ==> (IsErrNotExist(OpenWrapped(name, inner).error) <==> IsErrNotExist(inner.error))
  {
  }

  /** A path that neither a generator root nor the real tree knows reads as fs.ErrNotExist. */
  lemma UnknownPathIsNotExist(roots: set<string>, dirfs: Option<RealFS>, gen: string -> Result<File, Error>, name: string)
    requires name != "." && Root(name) !in roots
    requires dirfs.Some? ==> dirfs.value.open(name).Fail? && IsNotExist(dirfs.value.open(name).error)
    ensures OpenWrapped(name, Route(roots, dirfs, gen, name)) == Fail(OpenFailed(name, NotExist))
    ensures IsErrNotExist(OpenWrapped(name, Route(roots, dirfs, gen, name)).error)
  {
  }

  /** A registered generator path is served by the generators, since its root is registered. */
  lemma GeneratedPathShadows<G>(generators: map<string, G>, dirfs: Option<RealFS>,
                                gen: string -> Result<File, Error>, p: string)
    requires p in generators && p != "."
    ensures Route(RootsOf(generators.Keys), dirfs, gen, p) == gen(p)
  {
    assert Root(p) in RootsOf(generators.Keys);
  }

  /**
   * SkipUnless, run one path after the other: success exactly when every
   * path stats, otherwise a not-exist error naming a missing path.
   */
  function SkipUnless(paths: seq<string>, stats: string -> bool): (r: Option<Error>)
    ensures r.None? <==> forall i :: 0 <= i < |paths| ==> stats(paths[i])
    ensures r.Some? ==> r.value.MissingPath? && r.value.path in paths && !stats(r.value.path)
    ensures r.Some? ==> IsErrNotExist(r.value)
  {
    if paths == [] then None
    else if !stats(paths[0]) then Some(MissingPath(paths[0]))
    else
      var r := SkipUnless(paths[1..], stats);
      assert forall i :: 1 <= i < |paths| ==> paths[i] == paths[1..][i - 1];
      r
  }
}
