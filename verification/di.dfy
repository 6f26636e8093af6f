/** Dependency identifiers and type kinds of the dependency injector. */
module Di {

  /** getID: the import path in double quotes, a dot, then the type name. */
  function GetID(importPath: string, typeName: string): (id: string)
    ensures |id| == |importPath| + |typeName| + 3
    ensures id[0] == '"' && id[|id| - |typeName|..] == typeName
    ensures id[|importPath| + 1] == '"' && id[|importPath| + 2] == '.'
  {
    "\"" + importPath + "\"." + typeName
  }

  /**
   * For import paths without double quotes the identifier determines the
   * import path and the type name.
   */
  lemma GetIDInjective(ip1: string, t1: string, ip2: string, t2: string)
    requires '"' !in ip1 && '"' !in ip2
    requires GetID(ip1, t1) == GetID(ip2, t2)
    ensures ip1 == ip2 && t1 == t2
  {
    var id := GetID(ip1, t1);
    assert ip1 == id[1..|ip1| + 1];
  }

  /** A dependency: the Go type `typeName` of package `importPath` (di.Type). */
  datatype Dependency = Type(importPath: string, typeName: string)
  {
    /** ID: the dependency's identifier. */
    function ID(): string
    {
      GetID(importPath, typeName)
    }
  }

  /** parser.Kind: the kind of a Go type, of which only the interface kind is told apart. */
  datatype Kind = KindInterface | KindStruct | KindOther(tag: nat)

  /** isInterface: whether a field or variable has interface kind. */
  function IsInterface(k: Kind): (b: bool)
    ensures b <==> k.KindInterface?
  {
    k == KindInterface
  }
}
