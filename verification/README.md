# bud: generated file system and dependency-injection lookup, in Dafny

This project models two parts of bud, a Go web framework. Both models are written in Dafny, with their properties proved.

**The generated file system (`genfs`).** A path whose first segment is the root of a registered generator path is answered by the generators, even when that exact path was never registered. Every other path except `.` is read from the real directory tree. The root directory `.` is a merged listing of both sources. Opens can go through a file cache. A generator can link a file to the files it consumed, and triggering an event on a file notifies the subscribers of every file that depends on it.

**The dependency injector's declaration finder.** Given a dependency `"<import path>".<type>`, it locates the package, then tries the package's functions and then its structs as providers. Alongside it sit the two copies of the `tool di` argument parser, which turns `<import>.<type>` into such a dependency, and the identifier format `getID`.

Modules:

- `Results`: `Option` and `Result`.
- `Strings`: models of Go's `strings.Index` and `strings.LastIndex` (counting characters rather than bytes), of `strings.Trim` with a one-character cutset, and Go's string order `<`.
- `Entries`: directory entries, and the class `EntrySet` that deduplicates by name (first entry kept) and lists the entries sorted by name.
- `GenRoute`: `root`, the error kinds, the routing of an open between the generators and the real tree, the merged root listing, and `SkipUnless`.
- `Bus`: the dependency graph's edges and the notification bus. The bus is an append-only log of subscriptions and publications.
- `GenFS`: the class `FileSystem`. It holds the state the Go `FileSystem` and its `innerFS` update: the cache, the roots, the generators, the edges and the bus.
- `Di`: `getID`, `di.Type` and `isInterface`.
- `DiFinder`: `Injector.Find`.
- `ToolDi` and `BudToolDi`: `toImportPath` and `toDependency` of the two `tool di` commands. `BudToolDi` is proved equal to `ToolDi` on every input.

Collaborators that are not part of this model are parameters:

- The generators' prefix tree (`dir.open`) is a function `gen` from a path to an open result.
- The real tree is a `RealFS` value with `open` and `readDir` functions, or `None` for a nil `dirfs`.
- `virtual.From` is a `snapshot` function.
- `graph.Ins` is passed to `Trigger` as the list it returned. `Trigger` requires only that this list names exactly the dependents that `Link` recorded in the object's edges.
- `mod.Module.Find`, `ResolveDirectory`, `filepath.Rel`, the parser, `tryFunction` and `tryStruct` are the fields of `DiFinder.Env`.
- `module.Directory`, `os.Stat` and `module.ResolveImport` are the fields of `ToolDi.GoModule`.

## Model

| member | source | states |
|---|---|---|
| GenRoute.Root | 2/genfs/gen.go:61-67 | the root is a prefix of the path without a separator; it is the whole path or stops right before the first separator |
| GenRoute.RootOfJoin | 2/genfs/gen.go:61-67 | joining a separator-free segment with anything by a separator has that segment as root |
| Strings.IndexOf | 2/genfs/gen.go:62 | -1 exactly when the character is absent, otherwise its first position |
| GenFS.FileSystem.constructor | 2/genfs/gen.go:48-59 | a new file system has no roots, generators, edges or subscriptions; it keeps the given real tree, and the given file cache is installed with the files it already holds (no cache: caching is off and the cache stays empty) |
| GenFS.FileSystem.Add | 2/genfs/gen.go:100-107 | every added generator replaces any earlier one for its path, other paths keep theirs, and each added path's root joins the roots; roots stay exactly the roots of the registered paths |
| GenRoute.GeneratedPathShadows | 2/genfs/gen.go:146-151 | once a path is registered, opening it goes to the generators whatever the real tree holds |
| GenFS.FileSystem.Open | 2/genfs/gen.go:76-81 | without a cache the result is the wrapped inner open and the cache is untouched; with one it is the cache step over the wrapped inner open |
| GenFS.FileSystem.CachedOpen | 2/genfs/gen.go:83-98 | result and new cache are those of one cache step; the inner open is consulted only on a miss |
| GenFS.CacheHit | 2/genfs/gen.go:84-86 | a cached name is answered from the cache, whatever the inner open would give, and the cache is unchanged |
| GenFS.CacheMiss | 2/genfs/gen.go:87-97 | a miss succeeds exactly when the open and the snapshot succeed; it then stores only that name and keeps every other entry; on failure it returns the open's or the snapshot's error and leaves the cache as it was |
| GenFS.CacheSecondOpenHits | 2/genfs/gen.go:83-98 | after a successful open, opening the same name again returns the same file and leaves the cache unchanged |
| GenFS.FileSystem.Subscribe | 2/genfs/gen.go:109-114 | a name whose open fails yields that error and no subscription; otherwise exactly one subscription on that name is appended to the bus |
| GenFS.FileSystem.Trigger | 2/genfs/gen.go:116-121 | when Ins lists the dependents the linked edges record for (path, event), the bus grows by exactly one publication of the event text to each node of Ins, in Ins order, so a topic receives something exactly when it is such a dependent |
| Bus.ReceivedAfterPublications | 2/genfs/gen.go:116-121 | each existing subscription receives one more copy of the payload per occurrence of its topic among the published nodes, and keeps what it had |
| Bus.DeliveriesOfPublications | 2/genfs/gen.go:118-120 | publishing to a node list delivers to a topic as many copies as the list holds that topic |
| Bus.RepeatedTriggerDeliversAgain | 2/genfs/gen.go:116-121 | triggering the same event twice delivers twice to a dependent subscriber; nothing is suppressed |
| Bus.PublicationsReachDependents | 2/genfs/gen.go:116-121 | when Ins lists the linked dependents, a topic receives something exactly when it is a dependent, and only the event text |
| GenFS.FileSystem.Link | 2/genfs/gen.go:223-225 | the edge set gains exactly the new edge |
| Bus.LinkAddsDependent | 2/genfs/gen.go:223-225 | after a link, `from` depends on (`to`, event), and no other (path, event) gains a dependent |
| GenFS.FileSystem.InnerOpen | 2/genfs/gen.go:131-138 | the result is the routed open with any error wrapped by the name |
| GenRoute.OpenWrappedKeepsCause | 2/genfs/gen.go:132-138 | the wrapped open fails exactly when the routed one does, returns the same file otherwise, and keeps whether the error is a not-exist error |
| GenFS.FileSystem.Resolve | 2/genfs/gen.go:140-163 | the result is the routing of the name: the merged root for ".", the generators under a root, else the real tree |
| GenRoute.RouteRootIsMerged | 2/genfs/gen.go:143-145 | opening "." yields the merged listing |
| GenRoute.RouteShadowsRealTree | 2/genfs/gen.go:146-151 | under a registered root the generators answer, and the real tree cannot change the result |
| GenRoute.RouteFallsThrough | 2/genfs/gen.go:152-162 | outside the roots the generators cannot change the result; without a real tree the path does not exist; otherwise the real file is returned and not-exist errors become fs.ErrNotExist, other errors pass unchanged |
| GenRoute.UnknownPathIsNotExist | 2/genfs/gen.go:152-159 | a path known to neither side fails with the wrapped fs.ErrNotExist, and errors.Is finds the not-exist error |
| Entries.EntrySet.constructor | 2/genfs/gen.go:166-168 | a new entry set is empty |
| Entries.EntrySet.Add | 2/genfs/gen.go:175-183 | the entries gain exactly the kept entries of the batch in order, the names seen gain the batch's names, and no name is ever held twice |
| Entries.KeepFirstKeeps | 2/genfs/gen.go:175-183 | what is kept has distinct names, namely the batch's names not seen before, and comes from the batch |
| Entries.AppendKept | 2/genfs/gen.go:175-183 | appending the kept entries to a duplicate-free set keeps it duplicate-free with the union of the names |
| Entries.KeepFirstAppend | 2/genfs/gen.go:175-183 | adding two batches in turn keeps the same entries as adding their concatenation |
| Entries.KeepFirstFirstNamed | 2/genfs/gen.go:175-183 | for each new name, the kept entry is the first entry of the batch with that name |
| Entries.EntrySet.List | 2/genfs/gen.go:185-190 | the returned list is the entries, now sorted by name and a permutation of what was held, with the same names |
| Entries.SortByName | 2/genfs/gen.go:185-190 | the result is ascending by name and a permutation of the input |
| Entries.InsertByName | 2/genfs/gen.go:185-190 | inserting a new name into an ascending list keeps it ascending and adds exactly that entry |
| Entries.AscendingPermutationUnique | 2/genfs/gen.go:185-190 | two ascending permutations of the same entries are equal, so the unstable sort's result is determined |
| Strings.LessIrreflexive | 2/genfs/gen.go:187 | no string is below itself |
| Strings.LessTransitive | 2/genfs/gen.go:187 | string order is transitive |
| Strings.LessTotal | 2/genfs/gen.go:187 | two different strings are ordered one way or the other |
| Strings.LessAsymmetric | 2/genfs/gen.go:187 | two strings are never below each other |
| GenFS.FileSystem.MergeEntries | 2/genfs/gen.go:192-221 | the result is the merged listing of the generators' and the real tree's entries |
| GenRoute.MergeListingContents | 2/genfs/gen.go:194-221 | the merged listing is a directory named by the path, sorted by name, holding every name of both sources once, with the generators' entry winning over the real one |
| GenRoute.MergeListingAborts | 2/genfs/gen.go:195-214 | a failing generator open, generator ReadDir or real ReadDir is the result |
| GenRoute.SkipUnless | 2/genfs/gen.go:227-240 | no error exactly when every path stats; otherwise a not-exist error naming a path of the list that does not stat |
| DiFinder.Find | internal/_di/finder.go:19-63 | the result is what locating the package and trying its functions, then its structs, decides |
| DiFinder.FirstDecisive | internal/_di/finder.go:40-61 | the first outcome that is not exactly NoMatch, with every earlier one NoMatch; none exactly when all are NoMatch |
| DiFinder.NilModuleDefaults | internal/_di/finder.go:20-23 | a nil module behaves as the project module |
| DiFinder.LocateFailureAborts | internal/_di/finder.go:24-39 | a failure to find the module or directory, compute the relative path or parse is the result, and no candidate is consulted |
| DiFinder.FirstNonNoMatchDecides | internal/_di/finder.go:40-61 | the first candidate that is not NoMatch decides, with its declaration or its error |
| DiFinder.FunctionsBeforeStructs | internal/_di/finder.go:40-61 | when some function decides, the structs cannot change the result |
| DiFinder.AllNoMatchIsUnclear | internal/_di/finder.go:62 | when every candidate returns NoMatch, or there are none, the result is "unclear how to provide" for the dependency |
| DiFinder.WrappedNoMatchStops | internal/_di/finder.go:44-47 | only the NoMatch sentinel itself continues the search; a wrapped one stops it as an error |
| Strings.TrimChar | internal/cli/tooldi/tooldi.go:103 | the result is the input with its leading and trailing runs of the character removed, and neither starts nor ends with it |
| Strings.TrimCharIdempotent | internal/cli/tooldi/tooldi.go:103 | trimming twice equals trimming once |
| Strings.TrimCharUnwraps | internal/cli/tooldi/tooldi.go:103 | any number of quotes around a text that neither starts nor ends with a quote are removed, and nothing else is |
| ToolDi.ToImportPath | internal/cli/tooldi/tooldi.go:102-112 | the quote-trimmed argument is the import path unless `os.Stat` of `module.Directory` of it succeeds (a directory or a file), in which case that path is resolved, with the resolver's failure reported |
| Strings.LastIndexOf | internal/cli/tooldi/tooldi.go:115 | -1 exactly when the character is absent, otherwise its last position |
| Strings.LastIndexOfSplit | internal/cli/tooldi/tooldi.go:115 | the last dot of `p + "." + t` is the one after `p` when `t` has none |
| ToolDi.ToDependency | internal/cli/tooldi/tooldi.go:114-129 | malformed exactly when there is no dot; on success the type name is the dot-free text after the last dot and the import path is the resolved text before it; a resolution error is passed through |
| ToolDi.ToDependencyParsesID | internal/cli/tooldi/tooldi.go:114-129 | parsing a dependency's identifier gives back the dependency when its type name has no dot, its import path neither begins nor ends with a double quote (which the trimming would strip), and `os.Stat` of `module.Directory` of its import path fails |
| BudToolDi.ToImportPath | internal/bud/tool/di/di.go:87-97 | agrees with the command-line toImportPath on every input |
| BudToolDi.ToDependency | internal/bud/tool/di/di.go:99-114 | agrees with the command-line toDependency on every input |
| Di.GetID | pkg/di/di.go:12-14 | the identifier is the quoted import path, a dot, then the type name |
| Di.GetIDInjective | pkg/di/di.go:12-14 | for quote-free import paths, equal identifiers mean equal import paths and type names |
| Di.IsInterface | pkg/di/di.go:42-45 | true exactly for the interface kind |

## Left out

- Concurrency, `SkipUnless`: it runs its stats in an errgroup. The model checks the paths one after the other and reports the first missing path in list order, whereas the Go code reports whichever failing goroutine finishes first. The contract only says that some missing path is named, so it holds for both.
- Concurrency, `FileSystem`: every method is one atomic step. In Go, `cachedOpen` checks `Has` and later calls `Set` without a lock, so two concurrent first opens of a name can both generate the file, and the later `Set` wins; the model does not capture that interleaving. `Add` is documented as not safe for concurrent use, and the model does not capture concurrent calls to it either.
- GenFS.FileSystem.constructor: the file cache is installed with its contents, but Go shares that `virtual.Map` with the caller, who may keep writing into it. The model's cache changes only through this object's `Open`, so writes by other code are not captured.
- Strings.IndexOf: Go's `strings.Index` returns a byte offset into the UTF-8 text, and the model returns a character position, so the two differ when a non-ASCII character comes first (for `"é/x"` Go gives 2, the model 1). Both are used only to cut the string, and the cut pieces agree.
- Strings.LastIndexOf: the same holds: a character position rather than Go's byte offset, used only to cut the string.
- GenFS.FileSystem.Open: a generator run by the open receives the file system itself and may call `link`. The model's generators are a pure function `gen`, so an open records no edge; links made while generating are modelled as separate `Link` calls. The same holds for `CachedOpen` on a miss, and for `Resolve`, `InnerOpen` and `MergeEntries`, which run the generators too.
- GenFS.FileSystem.Subscribe: its `fs.Stat` runs the generators as an open does and may likewise add edges in Go; the model records none there (see `Link`).
- GenFS.FileSystem.Subscribe: `fs.Stat` is modelled as the inner open. A file that opens but whose `Stat` fails is not modelled.
- The generators (`Generator.open`, `Dir`), `graph`, `pubsub` and `virtual.Map` are not part of this model. They appear only as the parameters listed above, and the cache is a map from name to snapshot.
- Error text is kept as error kinds with their operands, not as formatted strings (`fmt.Errorf`).
- `filepath.Separator` is fixed to `/`.
- `Event` kinds are not in the modelled sources. An event is its `String()` text.
- `parser.Kind` values other than interface and struct are not in the modelled sources. They are a tagged `KindOther`.
- `di.Type.ID` is not among the modelled sources. It is taken to be `getID` of its import path and type name.
- The `Run` methods of the `tool di` commands and the code generation they drive are not part of this model.
- `cachedOpen` closes the inner file after snapshotting it, and `mergeEntries` never closes the file it opens for ".". Resource lifetimes are not modelled.
- Go compares strings byte by byte in UTF-8. The model compares characters in order. UTF-8 preserves code point order, so both give the same order.
- `sort.Slice` is not stable. Because entry names are distinct, any correct sort gives the same list (`Entries.AscendingPermutationUnique`). The model therefore uses one insertion sort.
- The `ghost` field `resolved` of `GenFS.FileSystem` records which names reached the inner open. It exists only to state when the cache is bypassed.
