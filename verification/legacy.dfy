/** The legacy flat generator (the top-level configgen.go): only the fields of
    the struct named on the command line contribute, each becomes one entry
    whose key is the prefix, "_" and the upper-cased snake_case of the field
    name, and a field of any type outside the table (another struct included)
    is fatal. */
module Legacy {
  import opened Wrappers
  import opened Strs
  import opened GoAst
  import opened ParseTable
  import opened Naming
  import opened Imports
  import opened Catalog
  import opened Dotenv

  // ---------------------------------------------------------------- snakeCase

  /** The name with "_" inserted before every upper-case letter after position 0. */
  function Snaked(s: string): string
  {
    if |s| == 0 then ""
    else Snaked(s[..|s| - 1]) + (if |s| > 1 && IsUpper(s[|s| - 1]) then "_" else "") + [s[|s| - 1]]
  }

  function SnakeCaseOf(s: string): string
  {
    ToLower(Snaked(s))
  }

  /** snakeCase. */
  method SnakeCase(input: string) returns (r: string)
    ensures r == SnakeCaseOf(input)
  {
    var out := "";
    for i := 0 to |input|
      invariant out == Snaked(input[..i])
    {
      assert input[..i + 1][..i] == input[..i];
      if i > 0 && 'A' <= input[i] <= 'Z' {
        out := out + "_";
      }
      out := out + [input[i]];
    }
    assert input[..|input|] == input;
    r := ToLower(out);
  }

  /** The number of upper-case letters after position 0. */
  function UpperAfterFirst(s: string): nat
  {
    if |s| <= 1 then 0 else UpperAfterFirst(s[..|s| - 1]) + (if IsUpper(s[|s| - 1]) then 1 else 0)
  }

  /** snakeCase adds one character per upper-case letter after the first
      position and keeps the first character in front (lower-cased), so the
      result starts with "_" only when the name does. */
  lemma {:induction false} SnakeCaseShape(s: string)
    ensures |SnakeCaseOf(s)| == |s| + UpperAfterFirst(s)
    ensures |s| > 0 ==> SnakeCaseOf(s)[0] == ToLowerChar(s[0])
  {
    SnakedShape(s);
  }

  lemma {:induction false} SnakedShape(s: string)
    ensures |Snaked(s)| == |s| + UpperAfterFirst(s)
    ensures |s| > 0 ==> Snaked(s)[0] == s[0]
  {
    if |s| > 1 {
      SnakedShape(s[..|s| - 1]);
    }
  }

  /** Removing the inserted underscores gives the name back, when the name has none of its own. */
  lemma {:induction false} SnakedWithout(s: string)
    requires '_' !in s
    ensures Without(Snaked(s), '_') == s
  {
    if |s| > 0 {
      var init := s[..|s| - 1];
      var c := s[|s| - 1];
      assert s == init + [c];
      assert '_' !in init;
      SnakedWithout(init);
      SnakedWithoutStep(init, c);
    }
  }

  lemma {:induction false} SnakedWithoutStep(init: string, c: char)
    requires c != '_' && Without(Snaked(init), '_') == init
    ensures Without(Snaked(init + [c]), '_') == init + [c]
  {
    var x := Snaked(init);
    var sep := if |init| > 0 && IsUpper(c) then "_" else "";
    SnakedSnoc(init, c);
    WithoutAppend(x + sep, [c], '_');
    WithoutAppend(x, sep, '_');
    WithoutOne(c);
    if sep != "" {
      WithoutOne('_');
    }
    assert Without(sep, '_') == "";
    assert Without(x + sep, '_') == init;
  }

  /** One character: removed when it is the one removed, kept otherwise. */
  lemma {:induction false} WithoutOne(c: char)
    ensures Without([c], '_') == if c == '_' then "" else [c]
  {
    assert [c][..0] == "";
  }

  lemma {:induction false} UpperOfLower(x: string)
    ensures ToUpper(ToLower(x)) == ToUpper(x)
  {
    forall i | 0 <= i < |x| ensures ToUpper(ToLower(x))[i] == ToUpper(x)[i] {
      assert ToLower(x)[i] == ToLowerChar(x[i]);
    }
  }

  lemma {:induction false} WithoutToUpper(x: string)
    ensures Without(ToUpper(x), '_') == ToUpper(Without(x, '_'))
  {
    if |x| > 0 {
      var init := x[..|x| - 1];
      var c := x[|x| - 1];
      WithoutToUpper(init);
      assert ToUpper(x) == ToUpper(init) + [ToUpperChar(c)];
      assert ToUpper(x)[..|x| - 1] == ToUpper(init);
      if c != '_' {
        ToUpperAppend(Without(init, '_'), [c]);
      }
    }
  }

  /** For a field name of letters and digits, the legacy key part with its
      underscores removed is the recursive generator's key segment of the
      same name: the two generators differ exactly in the word separators. */
  lemma {:induction false} LegacyKeyMatchesSegment(name: string)
    requires forall i :: 0 <= i < |name| ==> IsLetter(name[i]) || IsDigit(name[i])
    ensures Without(ToUpper(SnakeCaseOf(name)), '_') == KeySegment(name)
  {
    UpperOfLower(Snaked(name));
    WithoutToUpper(Snaked(name));
    assert '_' !in name by {
      forall i | 0 <= i < |name| ensures name[i] != '_' {
        assert IsLetter(name[i]) || IsDigit(name[i]);
      }
    }
    SnakedWithout(name);
    KeySegmentOfAlnum(name);
  }

  // ------------------------------------------------------- getProjectNamePrefix

  /** getProjectNamePrefix: a supplied prefix is used as it is; otherwise the
      first command-line argument after the program name, or else the base name
      of the working directory (None when it cannot be read), upper-cased. */
  function ProjectNamePrefix(suppliedPrefix: string, args: seq<string>, cwdBase: Option<string>): (r: Result<string, GenError>)
    ensures suppliedPrefix != "" ==> r == Ok(suppliedPrefix)
    ensures suppliedPrefix == "" && |args| > 1 ==> r == Ok(ToUpper(args[1])) && NoLower(r.value)
    ensures suppliedPrefix == "" && |args| <= 1 ==>
      (r.Err? <==> cwdBase.None?) && (r.Err? ==> r.error == NoPrefix)
    ensures suppliedPrefix == "" && |args| <= 1 && cwdBase.Some? ==> r == Ok(ToUpper(cwdBase.value))
    ensures suppliedPrefix == "" && r.Ok? ==> NoLower(r.value)
  {
    if suppliedPrefix != "" then Ok(suppliedPrefix)
    else if |args| > 1 then Ok(ToUpper(args[1]))
    else if cwdBase.None? then Err(NoPrefix)
    else Ok(ToUpper(cwdBase.value))
  }

  // ------------------------------------------------------------ field entries

  /** The legacy TemplateData. */
  datatype LegacyEntry = LegacyEntry(
    name: string,
    envVar: string,
    typ: string,
    parseFunc: string,
    errorVar: string,
    formatErr: bool,
    bitSize: int,
    castFunc: string)

  /** The entry of the field `n` of type `ty`, or the failure for a type
      expression that is not a name or a type with no parse function. */
  function LegacyName(prefix: string, n: string, ty: TypeExpr): Result<seq<LegacyEntry>, GenError>
  {
    match ConvertTypeIdentifierToString(ty)
    case Err(e) => Err(e)
    case Ok(typ) =>
      match LookupParseFunc(typ)
      case None => Err(UnsupportedType(typ))
      case Some(info) =>
        Ok([LegacyEntry(n, prefix + "_" + ToUpper(SnakeCaseOf(n)), typ, info.parseFunc,
                        "Err" + n + "NotSet", info.canHaveFormatErr, info.bitSize, info.castFunc)])
  }

  function LegacyNames(prefix: string, names: seq<string>, ty: TypeExpr): Result<seq<LegacyEntry>, GenError>
  {
    ThenAll(names, (n: string) => LegacyName(prefix, n, ty))
  }

  function LegacyFieldList(prefix: string, fields: seq<Field>): Result<seq<LegacyEntry>, GenError>
  {
    ThenAll(fields, (f: Field) => LegacyNames(prefix, f.names, f.ty))
  }

  /** A type spec contributes its fields only when it names the requested
      struct and its type is a struct literal with a field list. */
  function LegacySpec(prefix: string, configStructName: string, s: Spec): Result<seq<LegacyEntry>, GenError>
  {
    if s.TypeSpec? && s.name == configStructName && s.ty.Struct? && s.ty.st.fields.Some?
    then LegacyFieldList(prefix, s.ty.st.fields.value)
    else Ok([])
  }

  function LegacySpecs(prefix: string, configStructName: string, specs: seq<Spec>): Result<seq<LegacyEntry>, GenError>
  {
    ThenAll(specs, (s: Spec) => LegacySpec(prefix, configStructName, s))
  }

  /** Only `type` declarations are searched. */
  function LegacyDecl(prefix: string, configStructName: string, d: Decl): Result<seq<LegacyEntry>, GenError>
  {
    if d.GenDecl? && d.tok == TypeTok then LegacySpecs(prefix, configStructName, d.specs) else Ok([])
  }

  function LegacyDecls(prefix: string, configStructName: string, decls: seq<Decl>): Result<seq<LegacyEntry>, GenError>
  {
    ThenAll(decls, (d: Decl) => LegacyDecl(prefix, configStructName, d))
  }

  function LegacyImportsFor(entries: seq<LegacyEntry>): (r: set<string>)
    ensures r <= {"\"strconv\"", "\"time\""}
  {
    set e | e in entries && PkgForParseFunc(e.parseFunc) != "" :: PkgForParseFunc(e.parseFunc)
  }

  lemma {:induction false} LegacyImportsForAppend(a: seq<LegacyEntry>, b: seq<LegacyEntry>)
    ensures LegacyImportsFor(a + b) == LegacyImportsFor(a) + LegacyImportsFor(b)
  {
    assert forall e :: e in a + b <==> e in a || e in b;
  }

  lemma {:induction false} LegacyImportsForOne(e: LegacyEntry)
    ensures LegacyImportsFor([e]) == if PkgForParseFunc(e.parseFunc) != "" then {PkgForParseFunc(e.parseFunc)} else {}
  {
    assert forall x :: x in [e] <==> x == e;
  }

  // ------------------------------------------------------------ the field loop

  /** The state of a step of the field loop: a failure, or the entries and
      imports accumulated so far extended by a stage's result. */
  predicate Extended(spec: Result<seq<LegacyEntry>, GenError>,
                     fields0: seq<LegacyEntry>, imports0: set<string>,
                     fields: seq<LegacyEntry>, imports: set<string>, err: Option<GenError>)
  {
    && (spec.Ok? ==> err.None? && fields == fields0 + spec.value
                     && imports == imports0 + LegacyImportsFor(spec.value))
    && (spec.Err? ==> err == Some(spec.error))
  }

  /** One loop step: extending by the first i stages and then by stage i is
      extending by the first i + 1 stages. */
  lemma {:induction false} ExtendStep<A>(xs: seq<A>, i: nat, f: A -> Result<seq<LegacyEntry>, GenError>,
                                         fields0: seq<LegacyEntry>, imports0: set<string>,
                                         fields1: seq<LegacyEntry>, imports1: set<string>,
                                         fields: seq<LegacyEntry>, imports: set<string>)
    requires i < |xs|
    requires ThenAll(xs[..i], f).Ok?
    requires fields1 == fields0 + ThenAll(xs[..i], f).value
    requires imports1 == imports0 + LegacyImportsFor(ThenAll(xs[..i], f).value)
    requires f(xs[i]).Ok?
    requires fields == fields1 + f(xs[i]).value && imports == imports1 + LegacyImportsFor(f(xs[i]).value)
    ensures ThenAll(xs[..i + 1], f).Ok?
    ensures fields == fields0 + ThenAll(xs[..i + 1], f).value
    ensures imports == imports0 + LegacyImportsFor(ThenAll(xs[..i + 1], f).value)
  {
    assert xs[..i + 1][..i] == xs[..i];
    var done := ThenAll(xs[..i], f).value;
    var step := f(xs[i]).value;
    assert ThenAll(xs[..i + 1], f) == Ok(done + step);
    LegacyImportsForAppend(done, step);
    AppendAssociative(fields0, done, step);
  }

  /** The body of the name loop up to the append: the entry of one name, or
      the failure for its type. */
  method NameEntry(prefix: string, name: string, ty: TypeExpr) returns (r: Result<LegacyEntry, GenError>)
    ensures r.Ok? ==> LegacyName(prefix, name, ty) == Ok([r.value])
    ensures r.Err? ==> LegacyName(prefix, name, ty) == Err(r.error)
  {
    var conv := ConvertTypeIdentifierToString(ty);
    if conv.Err? {
      return Err(conv.error);
    }
    var typ := conv.value;
    var snake := SnakeCase(name);
    var envKey := prefix + "_" + ToUpper(snake);
    var lookup := LookupParseFunc(typ);
    if lookup.None? {
      return Err(UnsupportedType(typ));
    }
    var info := lookup.value;
    return Ok(LegacyEntry(name, envKey, typ, info.parseFunc, "Err" + name + "NotSet",
                          info.canHaveFormatErr, info.bitSize, info.castFunc));
  }

  /** The loop over the names of one field line. */
  method CollectNames(prefix: string, names: seq<string>, ty: TypeExpr, fields0: seq<LegacyEntry>, imports0: set<string>)
    returns (fields: seq<LegacyEntry>, imports: set<string>, err: Option<GenError>)
    ensures Extended(LegacyNames(prefix, names, ty), fields0, imports0, fields, imports, err)
  {
    ghost var f := (n: string) => LegacyName(prefix, n, ty);
    fields, imports := fields0, imports0;
    assert names[..0] == [];
    for k := 0 to |names|
      invariant ThenAll(names[..k], f).Ok?
      invariant fields == fields0 + ThenAll(names[..k], f).value
      invariant imports == imports0 + LegacyImportsFor(ThenAll(names[..k], f).value)
    {
      var r := NameEntry(prefix, names[k], ty);
      assert f(names[k]) == LegacyName(prefix, names[k], ty);
      if r.Err? {
        ThenAllFailure(names, k, f);
        return fields, imports, Some(r.error);
      }
      var entry := r.value;
      ghost var fields1, imports1 := fields, imports;
      var p := PkgForParseFunc(entry.parseFunc);
      if p != "" {
        imports := imports + {p};
      }
      fields := fields + [entry];
      LegacyImportsForOne(entry);
      ExtendStep(names, k, f, fields0, imports0, fields1, imports1, fields, imports);
    }
    assert names[..|names|] == names;
    err := None;
  }

  /** The loop over the field lines of the requested struct; lines without
      names (embedded fields) contribute nothing. */
  method CollectFieldList(prefix: string, list: seq<Field>, fields0: seq<LegacyEntry>, imports0: set<string>)
    returns (fields: seq<LegacyEntry>, imports: set<string>, err: Option<GenError>)
    ensures Extended(LegacyFieldList(prefix, list), fields0, imports0, fields, imports, err)
  {
    ghost var g := (f: Field) => LegacyNames(prefix, f.names, f.ty);
    fields, imports := fields0, imports0;
    assert list[..0] == [];
    for i := 0 to |list|
      invariant ThenAll(list[..i], g).Ok?
      invariant fields == fields0 + ThenAll(list[..i], g).value
      invariant imports == imports0 + LegacyImportsFor(ThenAll(list[..i], g).value)
    {
      var f := list[i];
      ghost var fields1, imports1 := fields, imports;
      if |f.names| == 0 {
        assert f.names[..0] == f.names;
        assert g(f) == Ok([]);
        assert fields == fields + [] && imports == imports + LegacyImportsFor([]);
        ExtendStep(list, i, g, fields0, imports0, fields1, imports1, fields, imports);
        continue;
      }
      var e;
      fields, imports, e := CollectNames(prefix, f.names, f.ty, fields, imports);
      if e.Some? {
        ThenAllFailure(list, i, g);
        return fields, imports, e;
      }
      ExtendStep(list, i, g, fields0, imports0, fields1, imports1, fields, imports);
    }
    assert list[..|list|] == list;
    err := None;
  }

  /** The loop over the specs of one `type` declaration. */
  method CollectSpecs(prefix: string, configStructName: string, specs: seq<Spec>, fields0: seq<LegacyEntry>, imports0: set<string>)
    returns (fields: seq<LegacyEntry>, imports: set<string>, err: Option<GenError>)
    ensures Extended(LegacySpecs(prefix, configStructName, specs), fields0, imports0, fields, imports, err)
  {
    ghost var g := (s: Spec) => LegacySpec(prefix, configStructName, s);
    fields, imports := fields0, imports0;
    assert specs[..0] == [];
    for j := 0 to |specs|
      invariant ThenAll(specs[..j], g).Ok?
      invariant fields == fields0 + ThenAll(specs[..j], g).value
      invariant imports == imports0 + LegacyImportsFor(ThenAll(specs[..j], g).value)
    {
      var spec := specs[j];
      ghost var fields1, imports1 := fields, imports;
      if !spec.TypeSpec? || spec.name != configStructName || !spec.ty.Struct? || spec.ty.st.fields.None? {
        assert g(spec) == Ok([]);
        assert fields == fields + [] && imports == imports + LegacyImportsFor([]);
        ExtendStep(specs, j, g, fields0, imports0, fields1, imports1, fields, imports);
        continue;
      }
      var e;
      fields, imports, e := CollectFieldList(prefix, spec.ty.st.fields.value, fields, imports);
      if e.Some? {
        ThenAllFailure(specs, j, g);
        return fields, imports, e;
      }
      ExtendStep(specs, j, g, fields0, imports0, fields1, imports1, fields, imports);
    }
    assert specs[..|specs|] == specs;
    err := None;
  }

  /** The loop over the file's declarations; only `type` declarations are searched. */
  method CollectDecls(prefix: string, configStructName: string, decls: seq<Decl>, fields0: seq<LegacyEntry>, imports0: set<string>)
    returns (fields: seq<LegacyEntry>, imports: set<string>, err: Option<GenError>)
    ensures Extended(LegacyDecls(prefix, configStructName, decls), fields0, imports0, fields, imports, err)
  {
    ghost var g := (d: Decl) => LegacyDecl(prefix, configStructName, d);
    fields, imports := fields0, imports0;
    assert decls[..0] == [];
    for i := 0 to |decls|
      invariant ThenAll(decls[..i], g).Ok?
      invariant fields == fields0 + ThenAll(decls[..i], g).value
      invariant imports == imports0 + LegacyImportsFor(ThenAll(decls[..i], g).value)
    {
      var decl := decls[i];
      ghost var fields1, imports1 := fields, imports;
      if !decl.GenDecl? || decl.tok != TypeTok {
        assert g(decl) == Ok([]);
        assert fields == fields + [] && imports == imports + LegacyImportsFor([]);
        ExtendStep(decls, i, g, fields0, imports0, fields1, imports1, fields, imports);
        continue;
      }
      var e;
      fields, imports, e := CollectSpecs(prefix, configStructName, decl.specs, fields, imports);
      if e.Some? {
        ThenAllFailure(decls, i, g);
        return fields, imports, e;
      }
      ExtendStep(decls, i, g, fields0, imports0, fields1, imports1, fields, imports);
    }
    assert decls[..|decls|] == decls;
    err := None;
  }

  // ------------------------------------------------------------ one run

  /** The values the legacy loader template is executed with. */
  datatype LegacyLoaderData = LegacyLoaderData(
    prefix: string,
    structName: string,
    fields: seq<LegacyEntry>,
    testBuildTag: string,
    importList: string)

  /** The template's input and, when a .env file is requested, its contents. */
  datatype LegacyOutput = LegacyOutput(loader: LegacyLoaderData, dotenv: Option<string>)

  /** The keys of the entries, in entry order. */
  function LegacyEnvVarsOf(fields: seq<LegacyEntry>): (r: seq<string>)
    ensures |r| == |fields| && forall i :: 0 <= i < |fields| ==> r[i] == fields[i].envVar
  {
    seq(|fields|, i requires 0 <= i < |fields| => fields[i].envVar)
  }

  /** What a legacy run produces. `args` are the command-line arguments and
      `cwdBase` the base name of the working directory (None when it cannot be
      read); both matter only when no prefix is supplied. */
  ghost function LegacyGenerate(projectPrefix: string, configStructName: string, node: File, generateEnv: bool,
                                testBuildTag: string, args: seq<string>, cwdBase: Option<string>): Result<LegacyOutput, GenError>
  {
    match ProjectNamePrefix(projectPrefix, args, cwdBase)
    case Err(e) => Err(e)
    case Ok(prefix) =>
      match LegacyDecls(prefix, configStructName, node.decls)
      case Err(e) => Err(e)
      case Ok(fields) =>
        Ok(LegacyOutput(LegacyLoaderData(prefix, configStructName, fields, testBuildTag,
                                         ImportList(LegacyAlwaysNeeded + LegacyImportsFor(fields))),
                        if generateEnv then Some(DotenvOf(LegacyEnvVarsOf(fields))) else None))
  }

  /** The legacy GenerateConfigLoader, from the parsed file to the template input. */
  method LegacyGenerateConfigLoader(projectPrefix: string, configStructName: string, node: File, generateEnv: bool,
                                    testBuildTag: string, args: seq<string>, cwdBase: Option<string>)
    returns (r: Result<LegacyOutput, GenError>)
    ensures r == LegacyGenerate(projectPrefix, configStructName, node, generateEnv, testBuildTag, args, cwdBase)
  {
    var pre := ProjectNamePrefix(projectPrefix, args, cwdBase);
    if pre.Err? {
      return Err(pre.error);
    }
    var prefix := pre.value;
    var outputImports := LegacyAlwaysNeeded;
    var fields, imports, err := CollectDecls(prefix, configStructName, node.decls, [], outputImports);
    if err.Some? {
      return Err(err.value);
    }
    ghost var walk := LegacyDecls(prefix, configStructName, node.decls);
    assert fields == walk.value by {
      assert [] + walk.value == walk.value;
    }
    var importList := GenerateImportsListAsTemplateString(imports);
    var loader := LegacyLoaderData(prefix, configStructName, fields, testBuildTag, importList);
    var dotenv := None;
    if generateEnv {
      var contents := WriteDotenv(LegacyEnvVarsOf(fields));
      dotenv := Some(contents);
    }
    return Ok(LegacyOutput(loader, dotenv));
  }

  // ------------------------------------------------------------ properties

  /** A file that does not define the requested struct yields a loader with no
      fields (the recursive generator reports the struct as missing instead). */
  lemma {:induction false} LegacyAbsentStructIsEmpty(prefix: string, configStructName: string, decls: seq<Decl>)
    requires !DeclaresStruct(decls, configStructName)
    ensures LegacyDecls(prefix, configStructName, decls) == Ok([])
  {
    var g := (d: Decl) => LegacyDecl(prefix, configStructName, d);
    forall i | 0 <= i < |decls| ensures g(decls[i]) == Ok([]) {
      var d := decls[i];
      if d.GenDecl? && d.tok == TypeTok {
        var h := (s: Spec) => LegacySpec(prefix, configStructName, s);
        forall j | 0 <= j < |d.specs| ensures h(d.specs[j]) == Ok([]) {
          assert !DefinesStructAt(d.specs, j, configStructName);
        }
        ThenAllEmpty(d.specs, h);
      }
    }
    ThenAllEmpty(decls, g);
  }

  /** What every legacy entry carries: the key is the prefix, "_" and the
      upper-cased snake_case of the field name; the error variable is
      "Err" + name + "NotSet"; the parse data is the table's row for its type. */
  predicate Keyed(prefix: string, e: LegacyEntry)
  {
    && e.envVar == prefix + "_" + ToUpper(SnakeCaseOf(e.name))
    && e.errorVar == "Err" + e.name + "NotSet"
    && LookupParseFunc(e.typ) == Some(ParseInfo(e.parseFunc, e.formatErr, e.bitSize, e.castFunc))
  }

  lemma {:induction false} LegacyEntriesKeyed(prefix: string, configStructName: string, decls: seq<Decl>)
    ensures LegacyDecls(prefix, configStructName, decls).Ok? ==>
      forall e :: e in LegacyDecls(prefix, configStructName, decls).value ==> Keyed(prefix, e)
  {
    var p := (e: LegacyEntry) => Keyed(prefix, e);
    var g := (d: Decl) => LegacyDecl(prefix, configStructName, d);
    forall i | 0 <= i < |decls| && g(decls[i]).Ok? ensures forall e :: e in g(decls[i]).value ==> p(e) {
      var d := decls[i];
      if d.GenDecl? && d.tok == TypeTok {
        var h := (s: Spec) => LegacySpec(prefix, configStructName, s);
        forall j | 0 <= j < |d.specs| && h(d.specs[j]).Ok? ensures forall e :: e in h(d.specs[j]).value ==> p(e) {
          var s := d.specs[j];
          if s.TypeSpec? && s.name == configStructName && s.ty.Struct? && s.ty.st.fields.Some? {
            FieldListKeyed(prefix, s.ty.st.fields.value);
          }
        }
        ThenAllEach(d.specs, h, p);
      }
    }
    ThenAllEach(decls, g, p);
  }

  lemma {:induction false} FieldListKeyed(prefix: string, list: seq<Field>)
    ensures LegacyFieldList(prefix, list).Ok? ==> forall e :: e in LegacyFieldList(prefix, list).value ==> Keyed(prefix, e)
  {
    var p := (e: LegacyEntry) => Keyed(prefix, e);
    var g := (f: Field) => LegacyNames(prefix, f.names, f.ty);
    forall i | 0 <= i < |list| && g(list[i]).Ok? ensures forall e :: e in g(list[i]).value ==> p(e) {
      var f := list[i];
      var h := (n: string) => LegacyName(prefix, n, f.ty);
      ThenAllEach(f.names, h, p);
    }
    ThenAllEach(list, g, p);
  }

  /** The names of the entries, in entry order. */
  function LegacyEntryNames(fields: seq<LegacyEntry>): (r: seq<string>)
    ensures |r| == |fields| && forall i :: 0 <= i < |fields| ==> r[i] == fields[i].name
  {
    seq(|fields|, i requires 0 <= i < |fields| => fields[i].name)
  }

  lemma {:induction false} LegacyEntryNamesAppend(a: seq<LegacyEntry>, b: seq<LegacyEntry>)
    ensures LegacyEntryNames(a + b) == LegacyEntryNames(a) + LegacyEntryNames(b)
  {
  }

  /** A line's entries are named by the line's names, in order. */
  lemma {:induction false} LegacyNamesNamed(prefix: string, names: seq<string>, ty: TypeExpr)
    ensures LegacyNames(prefix, names, ty).Ok? ==> LegacyEntryNames(LegacyNames(prefix, names, ty).value) == names
  {
    if |names| > 0 {
      var init := names[..|names| - 1];
      var last := names[|names| - 1];
      LegacyNamesNamed(prefix, init, ty);
      var r := LegacyNames(prefix, names, ty);
      assert r == Then(LegacyNames(prefix, init, ty), LegacyName(prefix, last, ty));
      if r.Ok? {
        var a := LegacyNames(prefix, init, ty).value;
        var b := LegacyName(prefix, last, ty).value;
        LegacyNameNamed(prefix, last, ty);
        assert r.value == a + b;
        LegacyEntryNamesAppend(a, b);
        assert names == init + [last];
      }
    }
  }

  lemma {:induction false} LegacyNameNamed(prefix: string, n: string, ty: TypeExpr)
    ensures LegacyName(prefix, n, ty).Ok? ==> LegacyEntryNames(LegacyName(prefix, n, ty).value) == [n]
  {
  }


  /** The entries of a struct's field list are named by its field names in
      declaration order: embedded fields contribute nothing, a line with
      several names one entry per name. */
  lemma {:induction false} LegacyFieldListNamed(prefix: string, list: seq<Field>)
    ensures LegacyFieldList(prefix, list).Ok? ==> LegacyEntryNames(LegacyFieldList(prefix, list).value) == FlatNames(list)
  {
    if |list| > 0 {
      var init := list[..|list| - 1];
      var last := list[|list| - 1];
      LegacyFieldListNamed(prefix, init);
      var r := LegacyFieldList(prefix, list);
      if r.Ok? {
        var g := (f: Field) => LegacyNames(prefix, f.names, f.ty);
        var a := ThenAll(init, g).value;
        var b := g(last).value;
        assert r.value == a + b;
        LegacyNamesNamed(prefix, last.names, last.ty);
        LegacyEntryNamesAppend(a, b);
      }
    }
  }

  /** No nested expansion: a named field whose type is a plain name outside the
      table (another struct included) makes the run fail with that type, once
      the lines before it succeeded. */
  lemma {:induction false} LegacyStructFieldFatal(prefix: string, list: seq<Field>, i: nat, t: string)
    requires i < |list| && |list[i].names| > 0 && list[i].ty == Ident(t) && t !in SupportedTypes
    requires LegacyFieldList(prefix, list[..i]).Ok?
    ensures LegacyFieldList(prefix, list) == Err(UnsupportedType(t))
  {
    var f := list[i];
    var h := (n: string) => LegacyName(prefix, n, f.ty);
    assert f.names[..0] == [];
    ThenAllFailure(f.names, 0, h);
    var g := (f: Field) => LegacyNames(prefix, f.names, f.ty);
    ThenAllFailure(list, i, g);
  }

  lemma {:induction false} SnakedSnoc(t: string, c: char)
    ensures Snaked(t + [c]) == Snaked(t) + (if |t| > 0 && IsUpper(c) then "_" else "") + [c]
  {
    assert (t + [c])[..|t|] == t;
  }

  /** Characters other than upper-case letters are copied after a non-empty start. */
  lemma {:induction false} SnakedNoUpper(a: string, b: string)
    requires |a| > 0 && NoUpper(b)
    ensures Snaked(a + b) == Snaked(a) + b
  {
    if |b| > 0 {
      var init := b[..|b| - 1];
      var c := b[|b| - 1];
      SnakedNoUpper(a, init);
      assert a + b == (a + init) + [c];
      SnakedSnoc(a + init, c);
    } else {
      assert a + b == a;
    }
  }

  /** A word of a CamelCase name: one character, then no upper-case letter. */
  predicate Word(w: string)
  {
    |w| > 0 && NoUpper(w[1..])
  }

  /** The name spelled by a sequence of words, the words after the first
      starting with an upper-case letter. */
  predicate CamelWords(words: seq<string>)
  {
    |words| > 0 && (forall i :: 0 <= i < |words| ==> Word(words[i]))
    && forall i :: 0 < i < |words| ==> IsUpper(words[i][0])
  }

  function Concat(words: seq<string>): string
  {
    if |words| == 0 then "" else Concat(words[..|words| - 1]) + words[|words| - 1]
  }

  /** A single word is left as it is. */
  lemma {:induction false} SnakedOneWord(w: string)
    requires Word(w)
    ensures Snaked(w) == w
  {
    var u, rest := w[0], w[1..];
    SnakedSnoc([], u);
    assert [] + [u] == [u];
    SnakedNoUpper([u], rest);
    assert [u] + rest == w;
  }

  /** A capitalised word after a non-empty start gets a "_" in front of it. */
  lemma {:induction false} SnakedCapitalised(a: string, w: string)
    requires |a| > 0 && Word(w) && IsUpper(w[0])
    ensures Snaked(a + w) == Snaked(a) + "_" + w
  {
    var u, rest := w[0], w[1..];
    SnakedSnoc(a, u);
    SnakedNoUpper(a + [u], rest);
    assert a + w == a + [u] + rest;
    assert Snaked(a) + "_" + [u] + rest == Snaked(a) + "_" + w;
  }

  lemma {:induction false} SnakedWords(words: seq<string>)
    requires CamelWords(words)
    ensures |Concat(words)| > 0 && Snaked(Concat(words)) == Join(words, "_")
  {
    var last := words[|words| - 1];
    var init := words[..|words| - 1];
    assert Concat(words) == Concat(init) + last;
    if |words| == 1 {
      assert Concat(init) == [];
      SnakedOneWord(last);
      assert Concat(words) == last;
    } else {
      assert CamelWords(init) by {
        assert forall i :: 0 <= i < |init| ==> init[i] == words[i];
      }
      SnakedWords(init);
      var a := Concat(init);
      SnakedCapitalised(a, last);
      assert words == init + [last];
      JoinSnoc(init, last, "_");
    }
  }

  lemma {:induction false} LowerJoin(segs: seq<string>, sep: string)
    requires NoUpper(sep)
    ensures ToLower(Join(segs, sep)) == Join(seq(|segs|, i requires 0 <= i < |segs| => ToLower(segs[i])), sep)
  {
    var low := seq(|segs|, i requires 0 <= i < |segs| => ToLower(segs[i]));
    if |segs| > 1 {
      var tail := segs[1..];
      LowerJoin(tail, sep);
      assert low[1..] == seq(|tail|, i requires 0 <= i < |tail| => ToLower(tail[i]));
      ToLowerAppend(segs[0] + sep, Join(tail, sep));
      ToLowerAppend(segs[0], sep);
      assert ToLower(sep) == sep by {
        assert forall i :: 0 <= i < |sep| ==> ToLower(sep)[i] == ToLowerChar(sep[i]);
      }
    }
  }

  /** snakeCase of a CamelCase name is its words lower-cased and joined by "_"
      (HddSyncPath gives hdd_sync_path). */
  lemma {:induction false} SnakeCaseWords(words: seq<string>)
    requires CamelWords(words)
    ensures SnakeCaseOf(Concat(words)) == Join(seq(|words|, i requires 0 <= i < |words| => ToLower(words[i])), "_")
  {
    SnakedWords(words);
    LowerJoin(words, "_");
  }
}
