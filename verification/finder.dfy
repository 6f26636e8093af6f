/**
 * The injector's search for a declaration that provides a dependency:
 * locate the dependency's package, then try its functions and then its
 * structs, in order, until one of them decides.
 */
module DiFinder {
  import opened Results
  import opened Di

  /** The finder's errors. NoMatch is the sentinel ErrNoMatch, compared by identity. */
  datatype Error =
    | NoMatch
    | Failed(code: nat)                                 // an error of a collaborator
    | Wrapped(context: string, cause: Error)            // an error wrapped with %w
    | ModuleNotFound(id: string, cause: Error)          // "unable to find module for dependency"
    | DirectoryNotFound(id: string, cause: Error)       // "unable to find directory for dependency"
    | UnclearHowToProvide(id: string)                   // "unclear how to provide"

  /** A Go module, known here by its directory. */
  datatype Module = Module(directory: string)

  /** A declaration that can provide a dependency. */
  datatype Declaration = Declaration(id: string)

  /** A function or struct declared in a parsed package, known by its name. */
  datatype Function = Function(name: string)
  datatype Struct = Struct(name: string)

  /** A parsed package: its functions and its structs, in source order. */
  datatype Package = Package(functions: seq<Function>, structs: seq<Struct>)

  /**
   * The collaborators Find calls: module.Find, module.ResolveDirectory,
   * filepath.Rel, the parser, tryFunction and tryStruct.
   */
  datatype Env = Env(findModule: (Module, string) -> Result<Module, Error>,
                     resolveDirectory: (Module, string) -> Result<string, Error>,
                     rel: (string, string) -> Result<string, Error>,
                     parse: (Module, string) -> Result<Package, Error>,
                     tryFunction: (Function, string, string) -> Result<Declaration, Error>,
                     tryStruct: (Struct, string) -> Result<Declaration, Error>)

  /** The injector, with the project's module used when no module is given. */
  datatype Injector = Injector(projectModule: Module)

  /**
   * The position of the first outcome that is not exactly NoMatch: every
   * earlier one is NoMatch. None when all of them are NoMatch.
   */
  function FirstDecisive(outcomes: seq<Result<Declaration, Error>>): (k: Option<nat>)
    ensures k.Some? ==> k.value < |outcomes| && outcomes[k.value] != Fail(NoMatch)
    ensures k.Some? ==> forall j :: 0 <= j < k.value ==> outcomes[j] == Fail(NoMatch)
    ensures k.None? <==> forall j :: 0 <= j < |outcomes| ==> outcomes[j] == Fail(NoMatch)
  {
    if outcomes == [] then None
    else if outcomes[0] != Fail(NoMatch) then Some(0)
    else
      match FirstDecisive(outcomes[1..])
      case None => None
      case Some(k) => Some(k + 1)
  }

  /** What trying each function of the package gives, in order. */
  function FunctionOutcomes(env: Env, pkg: Package, dep: Dependency): seq<Result<Declaration, Error>>
  {
    seq(|pkg.functions|, i requires 0 <= i < |pkg.functions| =>
      env.tryFunction(pkg.functions[i], dep.importPath, dep.typeName))
  }

  /** What trying each struct of the package gives, in order. */
  function StructOutcomes(env: Env, pkg: Package, dep: Dependency): seq<Result<Declaration, Error>>
  {
    seq(|pkg.structs|, i requires 0 <= i < |pkg.structs| => env.tryStruct(pkg.structs[i], dep.typeName))
  }

  /** The candidates' outcomes in the order Find tries them: functions first, then structs. */
  function Candidates(env: Env, pkg: Package, dep: Dependency): seq<Result<Declaration, Error>>
  {
    FunctionOutcomes(env, pkg, dep) + StructOutcomes(env, pkg, dep)
  }

  /** The package Find searches, or the error that stops it before any candidate is tried. */
  function LocatePackage(inj: Injector, m: Option<Module>, dep: Dependency, env: Env): Result<Package, Error>
  {
    var start := if m.None? then inj.projectModule else m.value;
    match env.findModule(start, dep.importPath)
    case Fail(e) => Fail(ModuleNotFound(dep.ID(), e))
    case Ok(found) =>
      match env.resolveDirectory(found, dep.importPath)
      case Fail(e) => Fail(DirectoryNotFound(dep.ID(), e))
      case Ok(dir) =>
        match env.rel(found.directory, dir)
        case Fail(e) => Fail(e)
        case Ok(rel) => env.parse(found, rel)
  }

  /** Injector.Find as a function of its collaborators' answers. */
  function FindSpec(inj: Injector, m: Option<Module>, dep: Dependency, env: Env): Result<Declaration, Error>
  {
    match LocatePackage(inj, m, dep, env)
    case Fail(e) => Fail(e)
    case Ok(pkg) =>
      var outcomes := Candidates(env, pkg, dep);
      match FirstDecisive(outcomes)
      case None => Fail(UnclearHowToProvide(dep.ID()))
      case Some(k) => outcomes[k]
  }

  /** Injector.Find */
  method Find(inj: Injector, m: Option<Module>, dep: Dependency, env: Env) returns (r: Result<Declaration, Error>)
    ensures r == FindSpec(inj, m, dep, env)
  {
    // A nil module defaults to the project's module.
    var start := m;
    if start.None? {
      start := Some(inj.projectModule);
    }
    var found := env.findModule(start.value, dep.importPath);
    if found.Fail? {
      return Fail(ModuleNotFound(dep.ID(), found.error));
    }
    var dir := env.resolveDirectory(found.value, dep.importPath);
    if dir.Fail? {
      return Fail(DirectoryNotFound(dep.ID(), dir.error));
    }
    var rel := env.rel(found.value.directory, dir.value);
    if rel.Fail? {
      return Fail(rel.error);
    }
    var pkg := env.parse(found.value, rel.value);
    if pkg.Fail? {
      return Fail(pkg.error);
    }
    ghost var outcomes := Candidates(env, pkg.value, dep);
    var fns := pkg.value.functions;
    var i := 0;
    while i < |fns|
      invariant 0 <= i <= |fns|
      invariant forall j :: 0 <= j < i ==> outcomes[j] == Fail(NoMatch)
    {
      var decl := env.tryFunction(fns[i], dep.importPath, dep.typeName);
      assert decl == outcomes[i];
      if decl.Fail? {
        if decl.error == NoMatch {
          i := i + 1;
          continue;
        }
        return Fail(decl.error);
      }
      return Ok(decl.value);
    }
    var structs := pkg.value.structs;
    var s := 0;
    while s < |structs|
      invariant 0 <= s <= |structs|
      invariant forall j :: 0 <= j < |fns| + s ==> outcomes[j] == Fail(NoMatch)
    {
      var decl := env.tryStruct(structs[s], dep.typeName);
      assert decl == outcomes[|fns| + s];
      if decl.Fail? {
        if decl.error == NoMatch {
          s := s + 1;
          continue;
        }
        return Fail(decl.error);
      }
      return Ok(decl.value);
    }
    return Fail(UnclearHowToProvide(dep.ID()));
  }

  /** Find with a nil module is Find with the injector's own module. */
  lemma NilModuleDefaults(inj: Injector, dep: Dependency, env: Env)
    ensures FindSpec(inj, None, dep, env) == FindSpec(inj, Some(inj.projectModule), dep, env)
  {
  }

  /**
   * A failure to locate the package is the result, and no candidate is
   * tried: the outcome does not depend on tryFunction or tryStruct.
   */
  lemma LocateFailureAborts(inj: Injector, m: Option<Module>, dep: Dependency, env: Env,
                            tryF: (Function, string, string) -> Result<Declaration, Error>,
                            tryS: (Struct, string) -> Result<Declaration, Error>)
    requires LocatePackage(inj, m, dep, env).Fail?
    ensures FindSpec(inj, m, dep, env) == Fail(LocatePackage(inj, m, dep, env).error)
    ensures FindSpec(inj, m, dep, env) == FindSpec(inj, m, dep, env.(tryFunction := tryF, tryStruct := tryS))
  {
  }

  /**
   * The first candidate that is not exactly NoMatch decides: its declaration
   * or its error is the result, after every earlier candidate returned
   * NoMatch.
   */
  lemma FirstNonNoMatchDecides(inj: Injector, m: Option<Module>, dep: Dependency, env: Env, k: nat)
    requires LocatePackage(inj, m, dep, env).Ok?
    requires var outcomes := Candidates(env, LocatePackage(inj, m, dep, env).value, dep);
      && k < |outcomes| && outcomes[k] != Fail(NoMatch)
      && forall j :: 0 <= j < k ==> outcomes[j] == Fail(NoMatch)
    ensures FindSpec(inj, m, dep, env) == Candidates(env, LocatePackage(inj, m, dep, env).value, dep)[k]
  {
  }

  /**
   * A function that decides makes the structs irrelevant: whatever
   * tryStruct would answer, the result is the same.
   */
  lemma FunctionsBeforeStructs(inj: Injector, m: Option<Module>, dep: Dependency, env: Env,
                               tryS: (Struct, string) -> Result<Declaration, Error>)
    requires LocatePackage(inj, m, dep, env).Ok?
    requires FirstDecisive(FunctionOutcomes(env, LocatePackage(inj, m, dep, env).value, dep)).Some?
    ensures FindSpec(inj, m, dep, env) == FindSpec(inj, m, dep, env.(tryStruct := tryS))
  {
    var pkg := LocatePackage(inj, m, dep, env).value;
    var env' := env.(tryStruct := tryS);
    assert LocatePackage(inj, m, dep, env') == LocatePackage(inj, m, dep, env);
    var fns := FunctionOutcomes(env, pkg, dep);
    assert FunctionOutcomes(env', pkg, dep) == fns;
    var k := FirstDecisive(fns).value;
    FirstNonNoMatchDecides(inj, m, dep, env, k);
    FirstNonNoMatchDecides(inj, m, dep, env', k);
  }

  /** When every candidate returns NoMatch, or there is none, Find cannot tell how to provide the dependency. */
  lemma AllNoMatchIsUnclear(inj: Injector, m: Option<Module>, dep: Dependency, env: Env)
    requires LocatePackage(inj, m, dep, env).Ok?
    requires var outcomes := Candidates(env, LocatePackage(inj, m, dep, env).value, dep);
      forall j :: 0 <= j < |outcomes| ==> outcomes[j] == Fail(NoMatch)
    ensures FindSpec(inj, m, dep, env) == Fail(UnclearHowToProvide(dep.ID()))
  {
  }

  /** A wrapped NoMatch is not the sentinel: a candidate returning one stops the search with that error. */
  lemma WrappedNoMatchStops(inj: Injector, m: Option<Module>, dep: Dependency, env: Env, context: string)
    requires LocatePackage(inj, m, dep, env).Ok?
    requires var outcomes := Candidates(env, LocatePackage(inj, m, dep, env).value, dep);
      |outcomes| > 0 && outcomes[0] == Fail(Wrapped(context, NoMatch))
    ensures FindSpec(inj, m, dep, env) == Fail(Wrapped(context, NoMatch))
  {
    FirstNonNoMatchDecides(inj, m, dep, env, 0);
  }
}
