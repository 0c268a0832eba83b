/** The part of Go's syntax tree that the generator reads: top-level declarations,
    type specs, struct field lists and the type expressions naming field types. */
module GoAst {
  import opened Wrappers

  /** The token of a general declaration (`type`, `import`, `const`, `var`). */
  datatype Token = TypeTok | ImportTok | ConstTok | VarTok

  /** A type expression. Struct is a struct literal `struct{...}`; Ident a plain
      name (`string`, `Nested`); Selector a qualified name (`time.Duration`); Other
      stands for every other form (pointer, slice, map, func, interface, ...). */
  datatype TypeExpr =
    | Struct(st: StructType)
    | Ident(name: string)
    | Selector(x: TypeExpr, sel: string)
    | Other

  /** A struct literal; `fields` is None where the parser left the field list nil. */
  datatype StructType = StructType(fields: Option<seq<Field>>)

  /** One line of a field list: `A, B T` has names ["A", "B"]; an embedded field has none. */
  datatype Field = Field(names: seq<string>, ty: TypeExpr)

  datatype Spec = TypeSpec(name: string, ty: TypeExpr) | OtherSpec

  datatype Decl = GenDecl(tok: Token, specs: seq<Spec>) | FuncDecl

  datatype File = File(packageName: string, decls: seq<Decl>)

  /** The fatal conditions of a generation run (the Go code panics on each). */
  datatype GenError =
    | BadTypeExpr                    // a field type that is neither an identifier nor a selector
    | UnsupportedType(typ: string)   // a leaf type with no parse function
    | MissingRoot(name: string)      // the requested struct is not declared in the file
    | RecursiveStruct(name: string)  // a struct that (transitively) contains itself
    | NoPrefix                       // the legacy prefix fallback could not read the working directory

  /** A type expression built from identifiers and selectors only. */
  predicate IsNamedType(e: TypeExpr)
  {
    match e
    case Ident(_) => true
    case Selector(x, _) => IsNamedType(x)
    case _ => false
  }

  /** convertTypeIdentifierToString: the dotted spelling of a named type;
      any other form of type expression is the panic "expected identifier or
      selector expression". */
  function ConvertTypeIdentifierToString(e: TypeExpr): (r: Result<string, GenError>)
    ensures r.Ok? <==> IsNamedType(e)
    ensures r.Err? ==> r.error == BadTypeExpr
    ensures e.Ident? ==> r == Ok(e.name)
    ensures e.Selector? && r.Ok? ==> |r.value| > |e.sel| && r.value[|r.value| - |e.sel| - 1] == '.'
                                     && r.value[|r.value| - |e.sel|..] == e.sel
  {
    match e
    case Ident(name) => Ok(name)
    case Selector(x, sel) =>
      (match ConvertTypeIdentifierToString(x)
       case Ok(s) => Ok(s + "." + sel)
       case Err(err) => Err(err))
    case _ => Err(BadTypeExpr)
  }

  /** The field names of a field list in declaration order: embedded fields
      contribute nothing, a multi-name field contributes each of its names. */
  function FlatNames(fields: seq<Field>): (names: seq<string>)
  {
    if |fields| == 0 then [] else FlatNames(fields[..|fields| - 1]) + fields[|fields| - 1].names
  }
}
