/** One run of the recursive generator (GenerateConfigLoader): the catalog of the
    file's struct types, the walk from the requested struct, the rendered import
    list, and the .env skeleton listing every key. Creating the output files,
    parsing the Go source and executing the template are not modelled: the
    parsed file is an input and the values handed to the template are the
    output. */
module Generator {
  import opened Wrappers
  import opened Strs
  import opened GoAst
  import opened ParseTable
  import opened Naming
  import opened Imports
  import opened Catalog
  import opened Flattener
  import opened Dotenv

  /** The values the loader template is executed with. */
  datatype LoaderData = LoaderData(
    prefix: string,
    structName: string,
    fields: seq<TemplateData>,
    testBuildTag: string,
    importList: string,
    packageName: string)

  /** The template's input and, when a .env file is requested, its contents. */
  datatype Output = Output(loader: LoaderData, dotenv: Option<string>)

  /** The walk from the requested struct; the struct itself is on the path. */
  function RootWalk(projectPrefix: string, configStructName: string, node: File): Result<seq<TemplateData>, GenError>
  {
    var cat := CatalogOf(node);
    if configStructName !in cat then Err(MissingRoot(configStructName))
    else FlattenStruct(cat, projectPrefix, [], cat[configStructName], {configStructName})
  }

  /** The keys of the entries, in entry order. */
  function EnvVarsOf(fields: seq<TemplateData>): (r: seq<string>)
    ensures |r| == |fields| && forall i :: 0 <= i < |fields| ==> r[i] == fields[i].envVar
  {
    seq(|fields|, i requires 0 <= i < |fields| => fields[i].envVar)
  }

  /** What a run produces: the walk's failure, or the template input and the
      optional .env contents. The import list holds the always-needed packages
      and those of the entries' parse functions. */
  ghost function Generate(projectPrefix: string, configStructName: string, node: File,
                          testBuildTag: string, outputDotenv: bool): Result<Output, GenError>
  {
    match RootWalk(projectPrefix, configStructName, node)
    case Err(e) => Err(e)
    case Ok(fields) =>
      Ok(Output(LoaderData(projectPrefix, configStructName, fields, testBuildTag,
                           ImportList(InternalAlwaysNeeded + ImportsFor(fields)), node.packageName),
                if outputDotenv then Some(DotenvOf(EnvVarsOf(fields))) else None))
  }

  /** GenerateConfigLoader, from the parsed file to the template input. */
  method GenerateConfigLoader(projectPrefix: string, configStructName: string, node: File,
                              testBuildTag: string, outputDotenv: bool) returns (r: Result<Output, GenError>)
    requires NotCycle(RootWalk(projectPrefix, configStructName, node))
    ensures r == Generate(projectPrefix, configStructName, node, testBuildTag, outputDotenv)
  {
    var outputImports := InternalAlwaysNeeded;
    var packageName := node.packageName;
    var allTopLevelStructDefinitions := GetAllTopLevelStructDefinitions(node);
    if configStructName !in allTopLevelStructDefinitions {
      return Err(MissingRoot(configStructName));
    }
    var configTypeDefinition := allTopLevelStructDefinitions[configStructName];
    var g := new Generation(allTopLevelStructDefinitions, projectPrefix, outputImports);
    ghost var walk := RootWalk(projectPrefix, configStructName, node);
    assert walk == FlattenStruct(allTopLevelStructDefinitions, projectPrefix, [], configTypeDefinition, {configStructName});
    var err := g.InsertTemplateDataEntryForStruct(configTypeDefinition, {configStructName});
    if err.Some? {
      return Err(err.value);
    }
    var fields := g.templateData;
    assert fields == walk.value by {
      assert [] + walk.value == walk.value;
    }
    var importList := GenerateImportsListAsTemplateString(g.outputImports);
    var loader := LoaderData(projectPrefix, configStructName, fields, testBuildTag, importList, packageName);
    var dotenv := None;
    if outputDotenv {
      var contents := WriteDotenv(EnvVarsOf(fields));
      dotenv := Some(contents);
    }
    return Ok(Output(loader, dotenv));
  }

  /** A requested struct that the file does not declare is reported as missing;
      a declared one is walked, and the walk never reports a missing struct. */
  lemma {:induction false} MissingRootReported(projectPrefix: string, configStructName: string, node: File)
    ensures RootWalk(projectPrefix, configStructName, node) == Err(MissingRoot(configStructName))
            <==> !DeclaresStruct(node.decls, configStructName)
  {
    CatalogKeys(node, configStructName);
    var cat := CatalogOf(node);
    if configStructName in cat {
      StructErrors(cat, projectPrefix, [], cat[configStructName], {configStructName});
    }
  }

  /** Every field of a successful run is well formed for the loader template,
      is named by a non-empty path of field names, carries the key of that path
      under the prefix, and that key has no line break; the .env contents split
      back into one `KEY=` line per field. */
  lemma {:induction false} GeneratedFields(projectPrefix: string, configStructName: string, node: File,
                                           testBuildTag: string, outputDotenv: bool)
    requires Generate(projectPrefix, configStructName, node, testBuildTag, outputDotenv).Ok?
    ensures var out := Generate(projectPrefix, configStructName, node, testBuildTag, outputDotenv).value;
      && (forall e :: e in out.loader.fields ==>
            WellFormed(e) && exists path :: |path| > 0 && e.name == Join(path, ".") && e.envVar == EnvKey([projectPrefix] + path))
      && (outputDotenv ==> out.dotenv.Some? && Split(out.dotenv.value, '\n') == DotenvLines(EnvVarsOf(out.loader.fields)) + [""])
  {
    var cat := CatalogOf(node);
    var fields := RootWalk(projectPrefix, configStructName, node).value;
    WalkEntries(cat, projectPrefix, cat[configStructName], {configStructName});
    var keys := EnvVarsOf(fields);
    forall i | 0 <= i < |keys| ensures '\n' !in keys[i] {
      assert fields[i] in fields;
      var path :| |path| > 0 && fields[i].name == Join(path, ".") && fields[i].envVar == EnvKey([projectPrefix] + path);
      EnvKeyChars([projectPrefix] + path, '\n');
    }
    DotenvSplitsIntoLines(keys);
  }

  /** `type A struct { B A }`: the walk re-enters A below itself. */
  const CycleFile := File("config", [GenDecl(TypeTok, [TypeSpec("A", Struct(StructType(Some([Field(["B"], Ident("A"))]))))])])

  lemma {:induction false} CycleReported()
    ensures RootWalk("APP", "A", CycleFile) == Err(RecursiveStruct("A"))
  {
    assert CatalogOf(CycleFile) == map["A" := StructType(Some([Field(["B"], Ident("A"))]))];
  }
}
