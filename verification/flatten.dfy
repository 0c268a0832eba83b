/** The recursive generator's walk over a struct (insertTemplateDataEntryForStruct):
    one TemplateData per leaf field, in depth-first declaration order, with the
    import each leaf's parse function needs. */
module Flattener {
  import opened Wrappers
  import opened Strs
  import opened GoAst
  import opened ParseTable
  import opened Naming
  import opened Imports

  /** What the loader template is given for one leaf field. `errorVars` holds
      the Missing sentinel, then the Invalid sentinel when parsing can fail. */
  datatype TemplateData = TemplateData(
    name: string,
    assignmentName: string,
    envVar: string,
    parseFunc: string,
    errorVars: seq<string>,
    formatErr: bool,
    bitSize: int,
    castFunc: string)

  /** The entry of the leaf reached by `path` (parent field names, then the
      field's own name), whose type has the parse information `info`. */
  function Leaf(prefix: string, path: seq<string>, info: ParseInfo): TemplateData
  {
    var canonical := [prefix] + path;
    var errKey := ErrKey(canonical);
    TemplateData(
      Join(path, "."),
      "val_" + Join(path, "_"),
      EnvKey(canonical),
      info.parseFunc,
      [errKey + "Missing"] + (if info.canHaveFormatErr then [errKey + "Invalid"] else []),
      info.canHaveFormatErr,
      info.bitSize,
      info.castFunc)
  }

  /** The walk below a struct. `parents` is the path stack on entry; `onPath`
      holds the catalog structs being expanded, whose re-entry would make
      the generator recurse without end (reported as RecursiveStruct). */
  function FlattenStruct(cat: map<string, StructType>, prefix: string, parents: seq<string>,
                         st: StructType, onPath: set<string>): Result<seq<TemplateData>, GenError>
    decreases cat.Keys - onPath, 2, 0
  {
    if st.fields.None? then Ok([]) else FlattenFields(cat, prefix, parents, st.fields.value, onPath)
  }

  /** The fields in order; the first failure ends the walk. */
  function FlattenFields(cat: map<string, StructType>, prefix: string, parents: seq<string>,
                         fields: seq<Field>, onPath: set<string>): Result<seq<TemplateData>, GenError>
    decreases cat.Keys - onPath, 1, |fields|
  {
    if |fields| == 0 then Ok([])
    else Then(FlattenFields(cat, prefix, parents, fields[..|fields| - 1], onPath),
              FlattenNames(cat, prefix, parents, fields[|fields| - 1].names, fields[|fields| - 1].ty, onPath))
  }

  /** The names of one field line, in order, all of type `ty`. An embedded
      field has no names and contributes nothing. */
  function FlattenNames(cat: map<string, StructType>, prefix: string, parents: seq<string>,
                        names: seq<string>, ty: TypeExpr, onPath: set<string>): Result<seq<TemplateData>, GenError>
    decreases cat.Keys - onPath, 0, |names|
  {
    if |names| == 0 then Ok([])
    else Then(FlattenNames(cat, prefix, parents, names[..|names| - 1], ty, onPath),
              FlattenName(cat, prefix, parents, names[|names| - 1], ty, onPath))
  }

  /** One named field: a catalog struct is expanded with the name pushed on the
      path; any other type is a leaf, or an error when it has no parse function. */
  function FlattenName(cat: map<string, StructType>, prefix: string, parents: seq<string>,
                       n: string, ty: TypeExpr, onPath: set<string>): Result<seq<TemplateData>, GenError>
    decreases cat.Keys - onPath, 0, 0
  {
    match ConvertTypeIdentifierToString(ty)
    case Err(e) => Err(e)
    case Ok(typ) =>
      if typ in cat then
        if typ in onPath then Err(RecursiveStruct(typ))
        else FlattenStruct(cat, prefix, parents + [n], cat[typ], onPath + {typ})
      else LeafFor(prefix, parents + [n], typ)
  }

  /** A field of type `typ` outside the catalog, reached by `path`: its entry, or
      the failure for a type with no parse function. */
  function LeafFor(prefix: string, path: seq<string>, typ: string): Result<seq<TemplateData>, GenError>
  {
    match LookupParseFunc(typ)
    case None => Err(UnsupportedType(typ))
    case Some(info) => Ok([Leaf(prefix, path, info)])
  }

  /** The imports the entries' parse functions need: only ever strconv and time. */
  function ImportsFor(entries: seq<TemplateData>): (r: set<string>)
    ensures r <= {"\"strconv\"", "\"time\""}
  {
    set e | e in entries && PkgForParseFunc(e.parseFunc) != "" :: PkgForParseFunc(e.parseFunc)
  }

  /** A walk result other than the endless recursion into a struct on the path. */
  predicate NotCycle(r: Result<seq<TemplateData>, GenError>)
  {
    !(r.Err? && r.error.RecursiveStruct?)
  }

  /** Sequencing never turns a failure into a cycle or hides one: a non-cycle
      result's first stage is no cycle, nor is its second when the first succeeds. */
  lemma {:induction false} ThenNotCycle(a: Result<seq<TemplateData>, GenError>, b: Result<seq<TemplateData>, GenError>)
    requires NotCycle(Then(a, b))
    ensures NotCycle(a) && (a.Ok? ==> NotCycle(b))
  {
  }

  /** The walk over a field list is the walk over its first part followed by the
      walk over the rest: declaration order is kept and the first failure wins. */
  lemma {:induction false} FlattenFieldsAppend(cat: map<string, StructType>, prefix: string, parents: seq<string>,
                                               a: seq<Field>, b: seq<Field>, onPath: set<string>)
    ensures FlattenFields(cat, prefix, parents, a + b, onPath)
         == Then(FlattenFields(cat, prefix, parents, a, onPath), FlattenFields(cat, prefix, parents, b, onPath))
    decreases |b|
  {
    if |b| == 0 {
      assert a + b == a;
      var x := FlattenFields(cat, prefix, parents, a, onPath);
      if x.Ok? {
        assert x.value + [] == x.value;
      }
    } else {
      var init := b[..|b| - 1];
      var last := b[|b| - 1];
      assert (a + b)[..|a + b| - 1] == a + init;
      FlattenFieldsAppend(cat, prefix, parents, a, init, onPath);
      ThenAssociative(FlattenFields(cat, prefix, parents, a, onPath),
                      FlattenFields(cat, prefix, parents, init, onPath),
                      FlattenNames(cat, prefix, parents, last.names, last.ty, onPath));
    }
  }

  /** The same for the names of one field line. */
  lemma {:induction false} FlattenNamesAppend(cat: map<string, StructType>, prefix: string, parents: seq<string>,
                                              a: seq<string>, b: seq<string>, ty: TypeExpr, onPath: set<string>)
    ensures FlattenNames(cat, prefix, parents, a + b, ty, onPath)
         == Then(FlattenNames(cat, prefix, parents, a, ty, onPath), FlattenNames(cat, prefix, parents, b, ty, onPath))
    decreases |b|
  {
    if |b| == 0 {
      assert a + b == a;
      var x := FlattenNames(cat, prefix, parents, a, ty, onPath);
      if x.Ok? {
        assert x.value + [] == x.value;
      }
    } else {
      var init := b[..|b| - 1];
      assert (a + b)[..|a + b| - 1] == a + init;
      FlattenNamesAppend(cat, prefix, parents, a, init, ty, onPath);
      ThenAssociative(FlattenNames(cat, prefix, parents, a, ty, onPath),
                      FlattenNames(cat, prefix, parents, init, ty, onPath),
                      FlattenName(cat, prefix, parents, b[|b| - 1], ty, onPath));
    }
  }

  lemma {:induction false} ImportsForAppend(a: seq<TemplateData>, b: seq<TemplateData>)
    ensures ImportsFor(a + b) == ImportsFor(a) + ImportsFor(b)
  {
    assert forall e :: e in a + b <==> e in a || e in b;
  }

  /** Walking the fields up to and including field i, and what is left after it. */
  lemma {:induction false} FieldsStep(cat: map<string, StructType>, prefix: string, parents: seq<string>,
                                      list: seq<Field>, i: nat, onPath: set<string>)
    requires i < |list|
    requires NotCycle(FlattenFields(cat, prefix, parents, list[i..], onPath))
    ensures FlattenFields(cat, prefix, parents, list[..i + 1], onPath)
         == Then(FlattenFields(cat, prefix, parents, list[..i], onPath),
                 FlattenNames(cat, prefix, parents, list[i].names, list[i].ty, onPath))
    ensures NotCycle(FlattenNames(cat, prefix, parents, list[i].names, list[i].ty, onPath))
    ensures FlattenNames(cat, prefix, parents, list[i].names, list[i].ty, onPath).Ok?
            ==> NotCycle(FlattenFields(cat, prefix, parents, list[i + 1..], onPath))
  {
    assert list[..i + 1][..i] == list[..i];
    assert list[i..] == [list[i]] + list[i + 1..];
    FlattenFieldsAppend(cat, prefix, parents, [list[i]], list[i + 1..], onPath);
    var x := FlattenNames(cat, prefix, parents, list[i].names, list[i].ty, onPath);
    assert [list[i]][..0] == [];
    if x.Ok? {
      assert [] + x.value == x.value;
    }
    ThenNotCycle(FlattenFields(cat, prefix, parents, [list[i]], onPath), FlattenFields(cat, prefix, parents, list[i + 1..], onPath));
  }

  /** Walking the names up to and including name k, and what is left after it. */
  lemma {:induction false} NamesStep(cat: map<string, StructType>, prefix: string, parents: seq<string>,
                                     names: seq<string>, k: nat, ty: TypeExpr, onPath: set<string>)
    requires k < |names|
    requires NotCycle(FlattenNames(cat, prefix, parents, names[k..], ty, onPath))
    ensures FlattenNames(cat, prefix, parents, names[..k + 1], ty, onPath)
         == Then(FlattenNames(cat, prefix, parents, names[..k], ty, onPath),
                 FlattenName(cat, prefix, parents, names[k], ty, onPath))
    ensures NotCycle(FlattenName(cat, prefix, parents, names[k], ty, onPath))
    ensures FlattenName(cat, prefix, parents, names[k], ty, onPath).Ok?
            ==> NotCycle(FlattenNames(cat, prefix, parents, names[k + 1..], ty, onPath))
  {
    assert names[..k + 1][..k] == names[..k];
    assert names[k..] == [names[k]] + names[k + 1..];
    FlattenNamesAppend(cat, prefix, parents, [names[k]], names[k + 1..], ty, onPath);
    var x := FlattenName(cat, prefix, parents, names[k], ty, onPath);
    assert [names[k]][..0] == [];
    if x.Ok? {
      assert [] + x.value == x.value;
    }
    ThenNotCycle(FlattenNames(cat, prefix, parents, [names[k]], ty, onPath), FlattenNames(cat, prefix, parents, names[k + 1..], ty, onPath));
  }

  /** A failure in field i, after the fields before it succeeded, is the result
      of the whole field list. */
  lemma {:induction false} FieldFailure(cat: map<string, StructType>, prefix: string, parents: seq<string>,
                                        list: seq<Field>, i: nat, onPath: set<string>)
    requires i < |list|
    requires FlattenFields(cat, prefix, parents, list[..i], onPath).Ok?
    requires FlattenNames(cat, prefix, parents, list[i].names, list[i].ty, onPath).Err?
    ensures FlattenFields(cat, prefix, parents, list, onPath) == FlattenNames(cat, prefix, parents, list[i].names, list[i].ty, onPath)
  {
    assert list[..i + 1][..i] == list[..i];
    assert list == list[..i + 1] + list[i + 1..];
    FlattenFieldsAppend(cat, prefix, parents, list[..i + 1], list[i + 1..], onPath);
  }

  /** A failure at name k, after the names before it succeeded, is the result of
      the whole name list. */
  lemma {:induction false} NameFailure(cat: map<string, StructType>, prefix: string, parents: seq<string>,
                                       names: seq<string>, k: nat, ty: TypeExpr, onPath: set<string>)
    requires k < |names|
    requires FlattenNames(cat, prefix, parents, names[..k], ty, onPath).Ok?
    requires FlattenName(cat, prefix, parents, names[k], ty, onPath).Err?
    ensures FlattenNames(cat, prefix, parents, names, ty, onPath) == FlattenName(cat, prefix, parents, names[k], ty, onPath)
  {
    assert names[..k + 1][..k] == names[..k];
    assert names == names[..k + 1] + names[k + 1..];
    FlattenNamesAppend(cat, prefix, parents, names[..k + 1], names[k + 1..], ty, onPath);
  }

  /** `e` is the entry of a leaf somewhere below the path `parents`: a
      non-empty continuation `q` of the path reaches a field whose type `t` has
      a parse function. */
  ghost predicate UnderPath(e: TemplateData, prefix: string, parents: seq<string>)
  {
    exists q: seq<string>, t: string :: |q| > 0 && LookupParseFunc(t).Some?
      && e == Leaf(prefix, parents + q, LookupParseFunc(t).value)
  }

  lemma {:induction false} UnderPathPop(e: TemplateData, prefix: string, parents: seq<string>, n: string)
    requires UnderPath(e, prefix, parents + [n])
    ensures UnderPath(e, prefix, parents)
  {
    var q, t :| |q| > 0 && LookupParseFunc(t).Some? && e == Leaf(prefix, parents + [n] + q, LookupParseFunc(t).value);
    var q' := [n] + q;
    AppendAssociative(parents, [n], q);
    assert e == Leaf(prefix, parents + q', LookupParseFunc(t).value);
  }

  lemma {:induction false} UnderPathThen(a: Result<seq<TemplateData>, GenError>, b: Result<seq<TemplateData>, GenError>,
                                         prefix: string, parents: seq<string>)
    requires Then(a, b).Ok?
    requires a.Ok? ==> forall e :: e in a.value ==> UnderPath(e, prefix, parents)
    requires a.Ok? && b.Ok? ==> forall e :: e in b.value ==> UnderPath(e, prefix, parents)
    ensures forall e :: e in Then(a, b).value ==> UnderPath(e, prefix, parents)
  {
  }

  /** Every entry a successful walk below a struct produces is the entry of a
      leaf field below the current path. */
  lemma {:induction false} StructLeaves(cat: map<string, StructType>, prefix: string, parents: seq<string>,
                                        st: StructType, onPath: set<string>)
    requires FlattenStruct(cat, prefix, parents, st, onPath).Ok?
    ensures forall e :: e in FlattenStruct(cat, prefix, parents, st, onPath).value ==> UnderPath(e, prefix, parents)
    decreases cat.Keys - onPath, 2, 0
  {
    if st.fields.Some? {
      FieldsLeaves(cat, prefix, parents, st.fields.value, onPath);
    }
  }

  lemma {:induction false} FieldsLeaves(cat: map<string, StructType>, prefix: string, parents: seq<string>,
                                        fields: seq<Field>, onPath: set<string>)
    requires FlattenFields(cat, prefix, parents, fields, onPath).Ok?
    ensures forall e :: e in FlattenFields(cat, prefix, parents, fields, onPath).value ==> UnderPath(e, prefix, parents)
    decreases cat.Keys - onPath, 1, |fields|
  {
    if |fields| > 0 {
      var init := fields[..|fields| - 1];
      var last := fields[|fields| - 1];
      var a := FlattenFields(cat, prefix, parents, init, onPath);
      var b := FlattenNames(cat, prefix, parents, last.names, last.ty, onPath);
      FieldsLeaves(cat, prefix, parents, init, onPath);
      if b.Ok? {
        NamesLeaves(cat, prefix, parents, last.names, last.ty, onPath);
      }
      UnderPathThen(a, b, prefix, parents);
    }
  }

  lemma {:induction false} NamesLeaves(cat: map<string, StructType>, prefix: string, parents: seq<string>,
                                       names: seq<string>, ty: TypeExpr, onPath: set<string>)
    requires FlattenNames(cat, prefix, parents, names, ty, onPath).Ok?
    ensures forall e :: e in FlattenNames(cat, prefix, parents, names, ty, onPath).value ==> UnderPath(e, prefix, parents)
    decreases cat.Keys - onPath, 0, |names|
  {
    if |names| > 0 {
      var a := FlattenNames(cat, prefix, parents, names[..|names| - 1], ty, onPath);
      var b := FlattenName(cat, prefix, parents, names[|names| - 1], ty, onPath);
      NamesLeaves(cat, prefix, parents, names[..|names| - 1], ty, onPath);
      if b.Ok? {
        NameLeaves(cat, prefix, parents, names[|names| - 1], ty, onPath);
      }
      UnderPathThen(a, b, prefix, parents);
    }
  }

  lemma {:induction false} NameLeaves(cat: map<string, StructType>, prefix: string, parents: seq<string>,
                                      n: string, ty: TypeExpr, onPath: set<string>)
    requires FlattenName(cat, prefix, parents, n, ty, onPath).Ok?
    ensures forall e :: e in FlattenName(cat, prefix, parents, n, ty, onPath).value ==> UnderPath(e, prefix, parents)
    decreases cat.Keys - onPath, 0, 0
  {
    var typ := ConvertTypeIdentifierToString(ty).value;
    var r := FlattenName(cat, prefix, parents, n, ty, onPath);
    if typ in cat {
      StructLeaves(cat, prefix, parents + [n], cat[typ], onPath + {typ});
      forall e | e in r.value ensures UnderPath(e, prefix, parents) {
        UnderPathPop(e, prefix, parents, n);
      }
    } else {
      assert r.value == [Leaf(prefix, parents + [n], LookupParseFunc(typ).value)];
      assert UnderPath(r.value[0], prefix, parents) by {
        assert parents + [n] == parents + [n];
      }
    }
  }

  /** What the loader template relies on: the Missing sentinel always exists,
      the Invalid sentinel (read as `index .ErrorVars 1`) exists exactly for the
      parse functions that can fail, which are all but "raw", and both sentinels
      share one stem. */
  predicate WellFormed(e: TemplateData)
  {
    && |e.errorVars| == (if e.formatErr then 2 else 1)
    && (e.formatErr <==> e.parseFunc != "raw")
    && e.parseFunc in ParseFuncs
    && |e.errorVars[0]| >= 7
    && e.errorVars[0][|e.errorVars[0]| - 7..] == "Missing"
    && (e.formatErr ==> e.errorVars[1] == e.errorVars[0][..|e.errorVars[0]| - 7] + "Invalid")
  }

  lemma {:induction false} LeafWellFormed(prefix: string, path: seq<string>, t: string)
    requires LookupParseFunc(t).Some?
    ensures WellFormed(Leaf(prefix, path, LookupParseFunc(t).value))
  {
    var stem := ErrKey([prefix] + path);
    var missing := stem + "Missing";
    assert missing[|missing| - 7..] == "Missing" && missing[..|missing| - 7] == stem;
  }

  /** Every entry of a successful walk from the root is well formed for the
      loader template, and is the entry of a leaf field reached by a non-empty
      path: its name is the path joined with ".", its environment key the
      key of [prefix] + path. */
  lemma {:induction false} WalkEntries(cat: map<string, StructType>, prefix: string, st: StructType, onPath: set<string>)
    requires FlattenStruct(cat, prefix, [], st, onPath).Ok?
    ensures forall e :: e in FlattenStruct(cat, prefix, [], st, onPath).value ==>
      WellFormed(e) && exists path :: |path| > 0 && e.name == Join(path, ".") && e.envVar == EnvKey([prefix] + path)
  {
    StructLeaves(cat, prefix, [], st, onPath);
    forall e | e in FlattenStruct(cat, prefix, [], st, onPath).value
      ensures WellFormed(e) && exists path :: |path| > 0 && e.name == Join(path, ".") && e.envVar == EnvKey([prefix] + path)
    {
      var q, t :| |q| > 0 && LookupParseFunc(t).Some? && e == Leaf(prefix, [] + q, LookupParseFunc(t).value);
      assert [] + q == q;
      LeafWellFormed(prefix, q, t);
    }
  }

  /** The dotted names of a list of entries. */
  function EntryNames(es: seq<TemplateData>): (r: seq<string>)
    ensures |r| == |es| && forall i :: 0 <= i < |es| ==> r[i] == es[i].name
  {
    seq(|es|, i requires 0 <= i < |es| => es[i].name)
  }

  /** A field whose type is a supported basic type, not a struct of the file. */
  predicate BasicField(cat: map<string, StructType>, f: Field)
  {
    f.ty.Ident? && f.ty.name !in cat && f.ty.name in SupportedTypes
  }

  /** The names `names` take below the path `parents`. */
  function Dotted(parents: seq<string>, names: seq<string>): (r: seq<string>)
    ensures |r| == |names| && forall i :: 0 <= i < |names| ==> r[i] == Join(parents + [names[i]], ".")
  {
    seq(|names|, i requires 0 <= i < |names| => Join(parents + [names[i]], "."))
  }

  lemma {:induction false} BasicName(cat: map<string, StructType>, prefix: string, parents: seq<string>,
                                     n: string, ty: TypeExpr, onPath: set<string>)
    requires BasicField(cat, Field([n], ty))
    ensures FlattenName(cat, prefix, parents, n, ty, onPath).Ok?
    ensures EntryNames(FlattenName(cat, prefix, parents, n, ty, onPath).value) == Dotted(parents, [n])
  {
    assert LookupParseFunc(ty.name).Some?;
    assert [n][0] == n;
  }

  lemma {:induction false} BasicNames(cat: map<string, StructType>, prefix: string, parents: seq<string>,
                                      names: seq<string>, ty: TypeExpr, onPath: set<string>)
    requires BasicField(cat, Field(names, ty))
    ensures FlattenNames(cat, prefix, parents, names, ty, onPath).Ok?
    ensures EntryNames(FlattenNames(cat, prefix, parents, names, ty, onPath).value) == Dotted(parents, names)
  {
    if |names| > 0 {
      var init := names[..|names| - 1];
      var n := names[|names| - 1];
      BasicNames(cat, prefix, parents, init, ty, onPath);
      var a := FlattenNames(cat, prefix, parents, init, ty, onPath).value;
      BasicName(cat, prefix, parents, n, ty, onPath);
      var b := FlattenName(cat, prefix, parents, n, ty, onPath).value;
      assert FlattenNames(cat, prefix, parents, names, ty, onPath) == Ok(a + b);
      EntryNamesAppend(a, b);
      DottedAppend(parents, init, [n]);
      assert init + [n] == names;
    }
  }

  lemma {:induction false} EntryNamesAppend(a: seq<TemplateData>, b: seq<TemplateData>)
    ensures EntryNames(a + b) == EntryNames(a) + EntryNames(b)
  {
  }

  lemma {:induction false} DottedAppend(parents: seq<string>, a: seq<string>, b: seq<string>)
    ensures Dotted(parents, a + b) == Dotted(parents, a) + Dotted(parents, b)
  {
    var l := Dotted(parents, a + b);
    var r := Dotted(parents, a) + Dotted(parents, b);
    forall i | 0 <= i < |a + b| ensures l[i] == r[i] {
      if i >= |a| {
        assert (a + b)[i] == b[i - |a|];
      }
    }
  }

  /** A struct whose named fields all have supported basic types yields one
      entry per field name, in declaration order, each named by the path to the
      struct and the field name, joined with ".". */
  lemma {:induction false} FlatStructNames(cat: map<string, StructType>, prefix: string, parents: seq<string>,
                                           fields: seq<Field>, onPath: set<string>)
    requires forall i :: 0 <= i < |fields| ==> BasicField(cat, fields[i])
    ensures FlattenFields(cat, prefix, parents, fields, onPath).Ok?
    ensures EntryNames(FlattenFields(cat, prefix, parents, fields, onPath).value) == Dotted(parents, FlatNames(fields))
  {
    if |fields| > 0 {
      var init := fields[..|fields| - 1];
      var last := fields[|fields| - 1];
      FlatStructNames(cat, prefix, parents, init, onPath);
      BasicNames(cat, prefix, parents, last.names, last.ty, onPath);
      var a := FlattenFields(cat, prefix, parents, init, onPath).value;
      var b := FlattenNames(cat, prefix, parents, last.names, last.ty, onPath).value;
      EntryNamesAppend(a, b);
      DottedAppend(parents, FlatNames(init), last.names);
    }
  }

  /** At the root the path is empty, and a basic field's entry is named by the
      field name alone. */
  lemma {:induction false} DottedAtRoot(names: seq<string>)
    ensures Dotted([], names) == names
  {
    forall i | 0 <= i < |names| ensures Dotted([], names)[i] == names[i] {
      assert [] + [names[i]] == [names[i]];
    }
  }

  /** A field `n` whose type is a flat struct of the file, not already on the
      path, is expanded in place: its entries are the struct's field names
      below the path extended by `n`, in declaration order. */
  lemma {:induction false} NestedStructNames(cat: map<string, StructType>, prefix: string, parents: seq<string>,
                                             n: string, typ: string, onPath: set<string>)
    requires typ in cat && typ !in onPath && cat[typ].fields.Some?
    requires forall i :: 0 <= i < |cat[typ].fields.value| ==> BasicField(cat, cat[typ].fields.value[i])
    ensures FlattenName(cat, prefix, parents, n, Ident(typ), onPath).Ok?
    ensures EntryNames(FlattenName(cat, prefix, parents, n, Ident(typ), onPath).value)
         == Dotted(parents + [n], FlatNames(cat[typ].fields.value))
  {
    FlatStructNames(cat, prefix, parents + [n], cat[typ].fields.value, onPath + {typ});
  }

  /** The failures a walk can end in: a type expression that is not a name, a
      leaf type with no parse function, or a struct re-entered on its own path. */
  predicate WalkError(r: Result<seq<TemplateData>, GenError>)
  {
    r.Err? ==> r.error.BadTypeExpr? || r.error.UnsupportedType? || r.error.RecursiveStruct?
  }

  lemma {:induction false} StructErrors(cat: map<string, StructType>, prefix: string, parents: seq<string>,
                                        st: StructType, onPath: set<string>)
    ensures WalkError(FlattenStruct(cat, prefix, parents, st, onPath))
    decreases cat.Keys - onPath, 2, 0
  {
    if st.fields.Some? {
      FieldsErrors(cat, prefix, parents, st.fields.value, onPath);
    }
  }

  lemma {:induction false} FieldsErrors(cat: map<string, StructType>, prefix: string, parents: seq<string>,
                                        fields: seq<Field>, onPath: set<string>)
    ensures WalkError(FlattenFields(cat, prefix, parents, fields, onPath))
    decreases cat.Keys - onPath, 1, |fields|
  {
    if |fields| > 0 {
      var last := fields[|fields| - 1];
      FieldsErrors(cat, prefix, parents, fields[..|fields| - 1], onPath);
      NamesErrors(cat, prefix, parents, last.names, last.ty, onPath);
    }
  }

  lemma {:induction false} NamesErrors(cat: map<string, StructType>, prefix: string, parents: seq<string>,
                                       names: seq<string>, ty: TypeExpr, onPath: set<string>)
    ensures WalkError(FlattenNames(cat, prefix, parents, names, ty, onPath))
    decreases cat.Keys - onPath, 0, |names|
  {
    if |names| > 0 {
      NamesErrors(cat, prefix, parents, names[..|names| - 1], ty, onPath);
      var conv := ConvertTypeIdentifierToString(ty);
      if conv.Ok? && conv.value in cat && conv.value !in onPath {
        StructErrors(cat, prefix, parents + [names[|names| - 1]], cat[conv.value], onPath + {conv.value});
      }
    }
  }

  /** The generator state threaded through the walk: the catalog and project
      prefix it reads, the path stack it pushes and pops, and the entry list and
      import set it appends to. */
  class Generation {
    const catalog: map<string, StructType>
    const projectPrefix: string
    var parentNames: seq<string>
    var templateData: seq<TemplateData>
    var outputImports: set<string>

    constructor(catalog: map<string, StructType>, projectPrefix: string, outputImports: set<string>)
      ensures this.catalog == catalog && this.projectPrefix == projectPrefix
      ensures parentNames == [] && templateData == [] && this.outputImports == outputImports
    {
      this.catalog := catalog;
      this.projectPrefix := projectPrefix;
      parentNames := [];
      templateData := [];
      this.outputImports := outputImports;
    }

    /** insertTemplateDataEntryForStruct. On success the entries of the walk are
        appended in order, their imports added, and the path stack is as it was;
        a failure is the walk's first failure. */
    method InsertTemplateDataEntryForStruct(structDefinition: StructType, ghost onPath: set<string>)
      returns (err: Option<GenError>)
      requires NotCycle(FlattenStruct(catalog, projectPrefix, parentNames, structDefinition, onPath))
      modifies this
      decreases catalog.Keys - onPath, 2
      ensures var spec := FlattenStruct(catalog, projectPrefix, old(parentNames), structDefinition, onPath);
        && (spec.Ok? ==> err.None? && parentNames == old(parentNames)
                          && templateData == old(templateData) + spec.value
                          && outputImports == old(outputImports) + ImportsFor(spec.value))
        && (spec.Err? ==> err == Some(spec.error))
    {
      if structDefinition.fields.None? {
        return None;
      }
      var list := structDefinition.fields.value;
      ghost var P := parentNames;
      ghost var T0 := templateData;
      ghost var I0 := outputImports;
      assert list[..0] == [] && list[0..] == list;
      for i := 0 to |list|
        invariant parentNames == P
        invariant FlattenFields(catalog, projectPrefix, P, list[..i], onPath).Ok?
        invariant templateData == T0 + FlattenFields(catalog, projectPrefix, P, list[..i], onPath).value
        invariant outputImports == I0 + ImportsFor(FlattenFields(catalog, projectPrefix, P, list[..i], onPath).value)
        invariant NotCycle(FlattenFields(catalog, projectPrefix, P, list[i..], onPath))
      {
        var f := list[i];
        FieldsStep(catalog, projectPrefix, P, list, i, onPath);
        ghost var done := FlattenFields(catalog, projectPrefix, P, list[..i], onPath).value;
        ghost var spec := FlattenNames(catalog, projectPrefix, P, f.names, f.ty, onPath);
        if |f.names| == 0 {
          assert done + [] == done;
          continue;
        }
        var e := InsertFieldNames(f.names, f.ty, onPath);
        if e.Some? {
          FieldFailure(catalog, projectPrefix, P, list, i, onPath);
          return e;
        }
        ImportsForAppend(done, spec.value);
        AppendAssociative(T0, done, spec.value);
      }
      assert list[..|list|] == list;
      err := None;
    }

    /** The loop over the names of one field line of insertTemplateDataEntryForStruct. */
    method InsertFieldNames(names: seq<string>, ty: TypeExpr, ghost onPath: set<string>)
      returns (err: Option<GenError>)
      requires NotCycle(FlattenNames(catalog, projectPrefix, parentNames, names, ty, onPath))
      modifies this
      decreases catalog.Keys - onPath, 1
      ensures var spec := FlattenNames(catalog, projectPrefix, old(parentNames), names, ty, onPath);
        && (spec.Ok? ==> err.None? && parentNames == old(parentNames)
                          && templateData == old(templateData) + spec.value
                          && outputImports == old(outputImports) + ImportsFor(spec.value))
        && (spec.Err? ==> err == Some(spec.error))
    {
      ghost var P := parentNames;
      ghost var T0 := templateData;
      ghost var I0 := outputImports;
      assert names[..0] == [] && names[0..] == names;
      for k := 0 to |names|
        invariant parentNames == P
        invariant FlattenNames(catalog, projectPrefix, P, names[..k], ty, onPath).Ok?
        invariant templateData == T0 + FlattenNames(catalog, projectPrefix, P, names[..k], ty, onPath).value
        invariant outputImports == I0 + ImportsFor(FlattenNames(catalog, projectPrefix, P, names[..k], ty, onPath).value)
        invariant NotCycle(FlattenNames(catalog, projectPrefix, P, names[k..], ty, onPath))
      {
        NamesStep(catalog, projectPrefix, P, names, k, ty, onPath);
        ghost var done := FlattenNames(catalog, projectPrefix, P, names[..k], ty, onPath).value;
        ghost var spec := FlattenName(catalog, projectPrefix, P, names[k], ty, onPath);
        var e := InsertName(names[k], ty, onPath);
        if e.Some? {
          NameFailure(catalog, projectPrefix, P, names, k, ty, onPath);
          return e;
        }
        ImportsForAppend(done, spec.value);
        AppendAssociative(T0, done, spec.value);
      }
      assert names[..|names|] == names;
      err := None;
    }

    /** The body of the loop over names: a field whose type is a catalog struct
        is expanded with its name pushed on the path stack (popped afterwards);
        any other field becomes one entry. */
    method InsertName(n: string, ty: TypeExpr, ghost onPath: set<string>)
      returns (err: Option<GenError>)
      requires NotCycle(FlattenName(catalog, projectPrefix, parentNames, n, ty, onPath))
      modifies this
      decreases catalog.Keys - onPath, 0
      ensures var spec := FlattenName(catalog, projectPrefix, old(parentNames), n, ty, onPath);
        && (spec.Ok? ==> err.None? && parentNames == old(parentNames)
                          && templateData == old(templateData) + spec.value
                          && outputImports == old(outputImports) + ImportsFor(spec.value))
        && (spec.Err? ==> err == Some(spec.error))
    {
      var conv := ConvertTypeIdentifierToString(ty);
      if conv.Err? {
        return Some(conv.error);
      }
      var typ := conv.value;
      if typ in catalog {
        var childDefinition := catalog[typ];
        parentNames := parentNames + [n];
        err := InsertTemplateDataEntryForStruct(childDefinition, onPath + {typ});
        if err.Some? {
          return;
        }
        parentNames := parentNames[..|parentNames| - 1];
        assert parentNames == old(parentNames);
      } else {
        err := InsertLeaf(n, typ);
        return;
      }
      return None;
    }

    /** The leaf branch of the loop over names: the field's entry (its dotted
        name, assignment name, environment key, parse information and error
        sentinels) is appended and its parse function's import added. */
    method InsertLeaf(n: string, typ: string) returns (err: Option<GenError>)
      modifies this
      ensures var spec := LeafFor(projectPrefix, old(parentNames) + [n], typ);
        && (spec.Ok? ==> err.None? && parentNames == old(parentNames)
                          && templateData == old(templateData) + spec.value
                          && outputImports == old(outputImports) + ImportsFor(spec.value))
        && (spec.Err? ==> err == Some(spec.error))
    {
      var fullname := Join(parentNames + [n], ".");
      var assignmentName := "val_" + Join(parentNames + [n], "_");
      var canonicalNameList := [projectPrefix] + parentNames;
      canonicalNameList := canonicalNameList + [n];
      var envKey := GetEnvKey(canonicalNameList);
      var lookup := LookupParseFunc(typ);
      if lookup.None? {
        return Some(UnsupportedType(typ));
      }
      var info := lookup.value;
      var errKey := GetErrKey(canonicalNameList);
      var errorsVars := [errKey + "Missing"];
      if info.canHaveFormatErr {
        var errKey2 := GetErrKey(canonicalNameList);
        errorsVars := errorsVars + [errKey2 + "Invalid"];
      }
      var p := PkgForParseFunc(info.parseFunc);
      if p != "" {
        outputImports := outputImports + {p};
      }
      var entry := TemplateData(fullname, assignmentName, envKey, info.parseFunc,
                                errorsVars, info.canHaveFormatErr, info.bitSize, info.castFunc);
      assert canonicalNameList == [projectPrefix] + (parentNames + [n]);
      assert entry == Leaf(projectPrefix, parentNames + [n], info);
      templateData := templateData + [entry];
      assert ImportsFor([entry]) == if p != "" then {p} else {};
      return None;
    }
  }
}
