/**
 * Parsing of "<import>.<type>" dependency arguments by the `tool di`
 * command of the command-line interface.
 */
module ToolDi {
  import opened Results
  import Strings
  import opened Di

  /** The command's errors, kept as a kind and the offending text. */
  datatype Error =
    | MalformedDependency(dependency: string)                   // "external must have form '<import>.<type>'"
    | UnableToResolveImport(importPath: string, cause: string)  // "unable to resolve import ... because ..."

  /** What module.ResolveImport returns: an import path and possibly an error. */
  datatype Resolution = Resolution(path: string, err: Option<string>)

  /**
   * The module and the file system as toImportPath sees them:
   * module.Directory, whether os.Stat of a path succeeds, and
   * module.ResolveImport.
   */
  datatype GoModule = GoModule(directory: string -> string,
                               stat: string -> bool,
                               resolveImport: string -> Resolution)

  /**
   * toImportPath: strips the double quotes around the argument; when os.Stat
   * of module.Directory of that text succeeds (a directory or a file), the
   * module resolves that path to an import path, otherwise the stripped text
   * is the import path.
   */
  function ToImportPath(m: GoModule, importPath: string): (r: Result<string, Error>)
    ensures var t := Strings.TrimChar(importPath, '"');
      && (!m.stat(m.directory(t)) ==> r == Ok(t))
      && (m.stat(m.directory(t)) ==>
            var res := m.resolveImport(m.directory(t));
            if res.err.Some? then r == Fail(UnableToResolveImport(res.path, res.err.value)) else r == Ok(res.path))
  {
    var trimmed := Strings.TrimChar(importPath, '"');
    var maybeDir := m.directory(trimmed);
    if !m.stat(maybeDir) then Ok(trimmed)
    else
      var resolved := m.resolveImport(maybeDir);
      if resolved.err.Some? then Fail(UnableToResolveImport(resolved.path, resolved.err.value))
      else Ok(resolved.path)
  }

  /**
   * toDependency: splits at the last dot; the text before it is resolved as
   * an import path and the text after it is the type name.
   */
  function ToDependency(m: GoModule, dependency: string): (r: Result<Dependency, Error>)
    ensures '.' !in dependency <==> r == Fail(MalformedDependency(dependency))
    ensures r.Ok? ==>
      var tn := r.value.typeName;
      && '.' !in tn
      && |tn| < |dependency| && dependency[|dependency| - |tn| - 1] == '.'
      && dependency[|dependency| - |tn|..] == tn
      && ToImportPath(m, dependency[..|dependency| - |tn| - 1]) == Ok(r.value.importPath)
    ensures '.' in dependency ==>
      var prefix := dependency[..Strings.LastIndexOf(dependency, '.')];
      (ToImportPath(m, prefix).Fail? <==> r.Fail?) &&
      (r.Fail? ==> r == Fail(ToImportPath(m, prefix).error))
  {
    var i := Strings.LastIndexOf(dependency, '.');
    if i < 0 then Fail(MalformedDependency(dependency))
    else
      match ToImportPath(m, dependency[..i])
      case Fail(e) => Fail(e)
      case Ok(importPath) =>
        assert |dependency| - |dependency[i + 1..]| - 1 == i;
        Ok(Type(importPath, dependency[i + 1..]))
  }

  /**
   * An identifier written by getID parses back into its dependency when
   * os.Stat of module.Directory of the import path fails.
   */
  lemma ToDependencyParsesID(m: GoModule, d: Dependency)
    requires '.' !in d.typeName
    requires d.importPath == [] || (d.importPath[0] != '"' && d.importPath[|d.importPath| - 1] != '"')
    requires !m.stat(m.directory(d.importPath))
    ensures ToDependency(m, d.ID()) == Ok(d)
  {
    var id := d.ID();
    var quoted := "\"" + d.importPath + "\"";
    assert id == quoted + ['.'] + d.typeName;
    Strings.LastIndexOfSplit(quoted, '.', d.typeName);
    assert id[..|quoted|] == quoted && id[|quoted| + 1..] == d.typeName;
    assert quoted == seq(1, _ => '"') + d.importPath + seq(1, _ => '"');
    Strings.TrimCharUnwraps(d.importPath, '"', 1, 1);
    assert ToImportPath(m, quoted) == Ok(d.importPath);
  }
}
