/**
 * Parsing of "<import>.<type>" dependency arguments by the `tool di`
 * command of the internal bud command, a second copy of the same logic.
 */
module BudToolDi {
  import opened Results
  import Strings
  import opened Di
  import ToolDi

  /**
   * toImportPath of this copy: strips surrounding double quotes and resolves
   * the result through the module when os.Stat of its module path succeeds. It
   * agrees with the command-line copy on every input.
   */
  function ToImportPath(m: ToolDi.GoModule, importPath: string): (r: Result<string, ToolDi.Error>)
    ensures r == ToolDi.ToImportPath(m, importPath)
  {
    var trimmed := Strings.TrimChar(importPath, '"');
    var maybeDir := m.directory(trimmed);
    if !m.stat(maybeDir) then Ok(trimmed)
    else
      var resolved := m.resolveImport(maybeDir);
      if resolved.err.Some? then Fail(ToolDi.UnableToResolveImport(resolved.path, resolved.err.value))
      else Ok(resolved.path)
  }

  /**
   * toDependency of this copy: split at the last dot into import path and
   * type name. It agrees with the command-line copy on every input, so the
   * properties proved there hold here.
   */
  function ToDependency(m: ToolDi.GoModule, dependency: string): (r: Result<Dependency, ToolDi.Error>)
    ensures r == ToolDi.ToDependency(m, dependency)
  {
    var i := Strings.LastIndexOf(dependency, '.');
    if i < 0 then Fail(ToolDi.MalformedDependency(dependency))
    else
      match ToImportPath(m, dependency[..i])
      case Fail(e) => Fail(e)
      case Ok(importPath) => Ok(Type(importPath, dependency[i + 1..]))
  }
}
