# genconfig, modelled in Dafny

genconfig reads a Go source file, finds the configuration struct named on the
command line, and generates a Go loader that fills that struct from
environment variables, together with an optional `.env` skeleton. This project
models the two generators of the repository and the loaders they generate.

- **The recursive generator** (`internal/configgen.go`). It builds a catalog of
  every top-level struct type in the file. It then walks the requested struct
  field by field. A field whose type is another struct of the catalog is
  descended into, with its name pushed on the path of parent names. Any other
  field becomes a template entry. Each entry carries the dotted field name, the
  environment key built from the prefix and the path, the sentinel error names,
  and the parse function for its type. The packages those parse functions need
  are collected into a sorted import list. The walk is modelled twice:
  - `Flattener.FlattenStruct` and its sibling functions are the specification;
  - the class `Flattener.Generation` updates the path, the entry list and the
    import set in place, and each of its methods is proved to follow the
    specification.
- **The legacy generator** (`configgen.go`). It only looks at the fields of the
  one requested struct. It keys each field as `PREFIX_` followed by the
  upper-cased snake_case of the field name. Its prefix comes from the flag, the
  first command-line argument or the working directory. The four nested loops
  are modelled as four methods, each proved against a first-failure-wins
  specification function.
- **The generated loaders.** Both templates hold a `Load` function. Each is
  modelled as a loop over the entries that collects the missing and the
  invalid keys, followed by a combination step. For the recursive
  generator's loader, the combination step returns sentinel error groups. For
  the legacy loader, it returns one message. The recursive generator's
  template builds its invalid-format group from the wrong list (see
  "Findings"). `Loader.Load` and `Loader.LoadSpecAsWritten` follow the
  template as written. `Loader.Combine` and `Loader.LoadSpec` are the corrected
  combination and loader, and `Loader.LoadOutcome` states what the corrected
  loader reports.

Go panics (an unsupported field type, a type expression that is not a name, a
missing root struct) are results: `GoAst.GenError` values inside
`Wrappers.Result`. Strings are sequences of ASCII characters. The parsed Go
file is an abstract syntax tree given as input (`GoAst.File`). The template
input (`Generator.LoaderData`, `Legacy.LegacyLoaderData`) and the `.env` text
are the output.

## Model

| member | source | states |
|---|---|---|
| GoAst.ConvertTypeIdentifierToString | internal/configgen.go:282-291 | succeeds exactly for identifiers and selector chains and fails with BadTypeExpr otherwise; an identifier gives its own name; a selector ends in "." and its selected name |
| ParseTable.LookupParseFunc | internal/configgen.go:293-333 | a parse function exists exactly for the fifteen supported type names; it is one of the table's functions; a format error is possible for every type except string; the bit size is 0, 8, 16, 32 or 64 |
| ParseTable.PkgForParseFunc | internal/configgen.go:335-344 | "strconv" exactly for strconv.* functions, "time" exactly for time.ParseDuration, and no package otherwise |
| ParseTable.ImportForType | internal/configgen.go:293-344 | every supported type has a parse function; it needs no package exactly for string, time exactly for time.Duration, and strconv for every other type |
| Naming.GetEnvKey | internal/configgen.go:196-214 | the nested loop builds EnvKey of the canonical name list |
| Naming.WriteKeySegment | internal/configgen.go:199-210 | the inner loop appends the key segment of one part to the builder |
| Naming.KeySegmentChars | internal/configgen.go:199-210 | a key segment is no longer than its part, holds only upper-case letters and digits, and never holds '_' |
| Naming.KeyCharCases | internal/configgen.go:204-209 | a digit is kept, a letter is upper-cased, anything else is dropped |
| Naming.EnvKeyChars | internal/configgen.go:196-214 | no character other than an upper-case letter, a digit or '_' appears in a key |
| Naming.TerminatedIsKeyPlusSeparator | internal/configgen.go:211-213 | trimming the trailing separator leaves the segments joined by '_' |
| Naming.EnvKeySplitsBack | internal/configgen.go:196-214 | splitting a key at '_' gives back the key segments of the name list |
| Naming.EnvKeyCollision | internal/configgen.go:196-214 | two name lists give the same key if and only if their key segments are equal |
| Naming.KeySegmentOfAlnum | internal/configgen.go:199-210 | a part made of letters and digits only is upper-cased as it is |
| Naming.EnvKeyCaseCollision | internal/configgen.go:196-214 | fields "Ab" and "AB" share the key "AB" |
| Naming.EnvKeyUnderscoreCollision | internal/configgen.go:196-214 | fields "a_b" and "ab" share the key "AB" |
| Naming.EnvKeyEmptyPrefix | internal/configgen.go:211-213 | an empty prefix still contributes its separator: "" and "Port" give "_PORT" |
| Naming.GetErrKey | internal/configgen.go:216-237 | the nested loop builds ErrKey of the canonical name list, "Err" + segments + "Env" |
| Naming.WriteErrSegment | internal/configgen.go:219-234 | the inner loop appends the error segment of one part to the builder |
| Naming.ErrCharCases | internal/configgen.go:225-232 | a digit is kept; a letter is upper-cased at index 0 of its part and lower-cased elsewhere; anything else is dropped |
| Naming.ErrSegmentShape | internal/configgen.go:219-234 | an error segment is as long as the key segment, holds letters and digits, has no upper-case letter after its first character, and starts upper-case only when the part starts with a letter |
| Naming.ErrSegmentUpperIsKeySegment | internal/configgen.go:196-237 | upper-casing an error segment gives the key segment of the same part |
| Naming.ErrBodyMatchesEnvKey | internal/configgen.go:196-237 | the upper-cased error name body is the environment key without its underscores |
| Naming.ErrSegmentOfLetters | internal/configgen.go:228-232 | a part made of letters is capitalised: its first letter upper-case, the rest lower-case |
| Naming.ErrKeyBoundaryCollision | internal/configgen.go:216-237 | for lower-case letters a and b, the paths "a"/"_b" and "ab" share one error name, "Err" + upper-case a + b + "Env" |
| Imports.SortedStrings | internal/configgen.go:248-256 | the sorted listing of a set is sorted and holds each member once |
| Imports.SortStrings | internal/configgen.go:253 | the result is sorted and a permutation of the input |
| Imports.InsertSorted | internal/configgen.go:253 | inserting into a sorted list keeps it sorted and adds exactly the new element |
| Imports.GenerateImportsListAsTemplateString | internal/configgen.go:248-256 | collecting, sorting and joining the set gives ImportList of the set |
| Imports.SortedOfSetIsSortedStrings | internal/configgen.go:248-256 | any sorted listing of the set's members is the same listing, so map iteration order does not matter |
| Imports.EntriesOfSet | internal/configgen.go:249-252 | a listing with the set's multiset holds exactly the set's members, each once |
| Imports.StrconvImportListExample | internal/configgen.go:239-256 | example: the always-needed imports plus strconv render as errors, os, strconv, strings in that order |
| Catalog.GetAllTopLevelStructDefinitions | internal/configgen.go:258-280 | the loop over declarations builds CatalogOf of the file |
| Catalog.CatalogKeys | internal/configgen.go:258-280 | a name is in the catalog if and only if a type declaration defines a struct literal under it; aliases and other types are left out |
| Catalog.MapFromLast | internal/configgen.go:276 | a later definition of the same name replaces an earlier one |
| Flattener.ImportsFor | internal/configgen.go:175-177 | the packages the walk adds are only strconv and time |
| Flattener.Generation.InsertTemplateDataEntryForStruct | internal/configgen.go:134-194 | on success the path of parent names is restored, the entries are the old ones followed by FlattenStruct, and the imports grow by those of the new entries; on failure the walk's error is returned |
| Flattener.Generation.InsertFieldNames | internal/configgen.go:149-192 | the same for the names declared by one field |
| Flattener.Generation.InsertName | internal/configgen.go:150-190 | the same for one name: a catalog struct is descended into with the name pushed and then popped, any other type becomes a leaf |
| Flattener.Generation.InsertLeaf | internal/configgen.go:161-189 | the same for a leaf entry built from the path and the table's row for the type |
| Flattener.FlattenFieldsAppend | internal/configgen.go:140-193 | walking a field list is walking its first part and then the rest, in declaration order |
| Flattener.FlattenNamesAppend | internal/configgen.go:149-191 | walking several names of one field is walking them one after another |
| Flattener.FieldFailure | internal/configgen.go:140-193 | the first field whose walk fails decides the outcome of the whole struct |
| Flattener.NameFailure | internal/configgen.go:149-191 | the first name whose walk fails decides the outcome of the field |
| Flattener.StructLeaves | internal/configgen.go:134-194 | every entry of a walk is a leaf for a non-empty path under the current parents and a supported type |
| Flattener.LeafWellFormed | internal/configgen.go:162-188 | a leaf's sentinel names are the error name with "Missing", plus the one with "Invalid" exactly when a format error is possible |
| Flattener.WalkEntries | internal/configgen.go:134-194 | every entry from the root is well formed, named by the dotted form of a non-empty path, and keyed by the environment key of the prefix and that path |
| Flattener.BasicNames | internal/configgen.go:149-189 | a field of a supported non-struct type yields one entry per declared name, in order |
| Flattener.FlatStructNames | internal/configgen.go:140-193 | a struct of supported non-struct fields yields the dotted field names in declaration order; embedded fields yield nothing |
| Flattener.NestedStructNames | internal/configgen.go:156-160 | a field whose type is a catalog struct yields no entry of its own; its children appear under its name |
| Flattener.StructErrors | internal/configgen.go:134-194 | a walk fails only with BadTypeExpr, UnsupportedType or RecursiveStruct, never with a missing root |
| Generator.GenerateConfigLoader | internal/configgen.go:65-131 | a run yields Generate: the walk's error, or the template input and the optional .env text |
| Generator.MissingRootReported | internal/configgen.go:94-100 | the run reports the requested struct as missing if and only if the file does not declare it |
| Generator.GeneratedFields | internal/configgen.go:65-131 | every field of a successful run is well formed and keyed by its path; the .env text splits into one KEY= line per field |
| Generator.CycleReported | internal/configgen.go:156-160 | example: a struct that contains itself is reported as recursive |
| Dotenv.WriteDotenv | internal/configgen.go:122-129 | the loop writes DotenvOf of the keys |
| Dotenv.DotenvSplitsIntoLines | internal/configgen.go:126-128 | for keys without line breaks, the text splits at newlines into one "KEY=" line per key and a final empty line |
| Loader.GeneratedIndexable | internal/configgen.go:170-172 | every field a run generates has the sentinel names the loader indexes |
| Loader.CollectFields | internal/configgen.go:379-416 | the loop assigns the fields that are present and parse, and collects the missing and the invalid sentinels in field order |
| Loader.Load | internal/configgen.go:374-430 | as written: Load yields LoadSpecAsWritten, the error groups (the invalid group wrapping the missing sentinels) when a sentinel was collected, otherwise the filled config |
| Loader.MissingVarsExactly | internal/configgen.go:380-383 | a sentinel is collected as missing if and only if it is the Missing sentinel of an absent key |
| Loader.FormatVarsExactly | internal/configgen.go:384-413 | a sentinel is collected as invalid if and only if it is the Invalid sentinel of a present value its parse function rejects |
| Loader.CombineAsWrittenReports | internal/configgen.go:418-427 | as written: the combined error exists exactly when something was collected, reports exactly the missing sentinels, and on a rejected value adds an invalid group over the missing sentinels |
| Loader.CombineReportsAll | internal/configgen.go:418-427 | corrected (formatVars at line 424): the combined error exists exactly when something was collected and reports exactly the collected sentinels |
| Loader.LoadFails | internal/configgen.go:418 | something is collected if and only if some key is absent or rejected |
| Loader.LoadAsWrittenOutcome | internal/configgen.go:374-430 | as written: Load fails if and only if some key is absent or rejected, succeeds with the corrected loader's fields, and its error reports exactly the Missing sentinels of the absent keys, never an Invalid one |
| Loader.LoadOutcome | internal/configgen.go:374-430 | corrected: the loader fails if and only if some key is absent or rejected, and the error reports exactly their Missing and Invalid sentinels |
| Loader.AssignedKeys | internal/configgen.go:384-413 | a field is assigned if and only if its key is present and its value is accepted |
| Loader.LoadFillsAll | internal/configgen.go:429 | a successful Load, as written, assigns every field |
| Loader.AsWrittenLosesInvalid | internal/configgen.go:423-425 | with the template as written, an invalid value alone yields an empty invalid group and an empty message |
| Loader.WidthDecidesRejection | internal/configgen.go:393-399 | the parse function is called with the field's bit size: with "200" rejected at 8 bits and accepted at 16, an `int8` field is reported invalid and an `int16` field with the same parse function is assigned |
| Legacy.SnakeCase | configgen.go:203-212 | the loop computes SnakeCaseOf of the input |
| Legacy.SnakeCaseShape | configgen.go:203-212 | one underscore is added before each upper-case letter after the first character, and the first character is lower-cased |
| Legacy.SnakedWithout | configgen.go:203-211 | removing the underscores from the marked name gives back the name, when it had none |
| Legacy.SnakeCaseWords | configgen.go:203-212 | a camel-case name made of capitalised words becomes those words lower-cased and joined by "_" |
| Legacy.LegacyKeyMatchesSegment | configgen.go:84 | for a name of letters and digits, the legacy key body without underscores is the key segment the recursive generator uses |
| Legacy.ProjectNamePrefix | configgen.go:173-190 | a supplied prefix is kept; otherwise the first argument, or else the directory name, is upper-cased; with neither, the run fails |
| Legacy.NameEntry | configgen.go:81-104 | one name gives its entry, or the failure for its type |
| Legacy.CollectNames | configgen.go:81-106 | the loop over a field's names extends the entries and imports as LegacyNames does, or returns its first failure |
| Legacy.CollectFieldList | configgen.go:73-108 | the same for the field list, skipping embedded fields |
| Legacy.CollectSpecs | configgen.go:60-111 | the same for the specs of a type declaration, taking only struct literals named as requested |
| Legacy.CollectDecls | configgen.go:51-112 | the same for the declarations, skipping anything but type declarations |
| Legacy.LegacyGenerateConfigLoader | configgen.go:32-144 | a run yields LegacyGenerate: the prefix or field failure, or the template input and the optional .env text |
| Legacy.LegacyAbsentStructIsEmpty | configgen.go:51-112 | a file that does not declare the struct yields no fields at all |
| Legacy.LegacyEntriesKeyed | configgen.go:84-104 | every legacy entry's key is prefix + "_" + the upper-cased snake_case name, its error variable is "Err" + name + "NotSet", and its parse data is the table's row for its type |
| Legacy.LegacyFieldListNamed | configgen.go:73-107 | a successful field list yields one entry per declared name, in declaration order |
| Legacy.LegacyStructFieldFatal | configgen.go:86-89 | a field whose type has no parse function fails the run with that type once the fields before it succeeded, even when the type is a struct of the same file |
| Legacy.LegacyImportsForOne | configgen.go:91-93 | one entry adds the package of its parse function, if there is one |
| LegacyLoader.CollectLegacyFields | configgen.go:292-327 | the loop assigns the fields that are present and parse, and collects the missing and the invalid keys in field order |
| LegacyLoader.LegacyLoad | configgen.go:287-343 | Load yields LegacyLoadSpec: the joined message when a key was collected, otherwise the filled config |
| LegacyLoader.MissingKeysExactly | configgen.go:293-296 | a key is collected as missing if and only if some field's key is absent |
| LegacyLoader.InvalidKeysExactly | configgen.go:297-326 | a key is collected as invalid if and only if some field's value is present and rejected |
| LegacyLoader.ErrorTextNamesKeys | configgen.go:331-339 | the message names every collected key; it starts with the missing part exactly when a key is missing, and otherwise with the invalid part |
| LegacyLoader.LegacyLoadOutcome | configgen.go:287-343 | Load fails if and only if some key is absent or rejected; the message names each such key and starts with the missing part exactly when a key is absent |
| LegacyLoader.LegacyAssignedKeys | configgen.go:297-326 | a field is assigned if and only if its key is present and its value is accepted |
| LegacyLoader.LegacyLoadFillsAll | configgen.go:342 | a successful Load assigns every field |

Both files hold the same `lookupParseFunc`, `pkgForParseFunc` and
`convertTypeIdentifierToString` (`configgen.go:192-265`). `ParseTable` and
`GoAst` model them once, and both generators use those modules.

## Left out

- Parsing Go source, creating the output files and directories, and executing the templates are I/O. The parsed file is an input and the template input is the output. The template's text layout is not modelled.
- The parse functions of the generated loaders (`strconv.ParseInt` and the rest) are a parameter, `Loader.Validity`, that says which texts a parse function accepts when called with the field's bit size, so fields of different widths may judge the same text differently. The numeric ranges themselves and the parsed values are not modelled; an assigned field records its parse function, cast and text.
- `errors.Join` nesting in the generated loader becomes a list of groups (`Loader.Group`). The runtime error types' `Unwrap` and `errors.Is` are not modelled; `Loader.Reported` gives the sentinels a caller could match.
- `os.Args` and the working directory are parameters of `Legacy.ProjectNamePrefix`. The directory is given by its base name, because `filepath.Base` is not modelled.
- Debug printing and the command-line front ends (`main`, flag parsing) are left out.
- Characters are ASCII. Go's Unicode letter and digit tests and its Unicode case mapping are not modelled.
- The check that the parsed file has a package name is left out: a parsed `GoAst.File` always has one.
- The legacy loader passes its message to `fmt.Errorf` as a format string. A '%' in a key would be reinterpreted there; the model keeps the text as joined.
- The recursive generator's `.env` file is written only when an output path is given; the path is modelled as a flag.
- Generator.GenerateConfigLoader: a struct that contains itself makes the Go walk recurse without end. The specification reports it as `RecursiveStruct`, and the methods require that no such error occurs.
- Duplicate keys (see `Naming.EnvKeyCaseCollision`) are not rejected by either generator, and the model does not reject them either.
- Loader.Load and LegacyLoader.LegacyLoad: on failure the Go loaders return a zero struct together with the error. The model returns only the error.

## Findings

| source | as written | input that shows it | evidently intended | confidence | as-written member | corrected member |
|---|---|---|---|---|---|---|
| internal/configgen.go:424 | the invalid-format group wraps `missingVars`, so the invalid sentinels are lost and a missing key is reported twice | one int field `Port` under prefix `APP` with `APP_PORT=eighty`: no key is missing, and `Load` returns an invalid-format error that reports nothing and whose message is empty (`Loader.AsWrittenLosesInvalid`) | the group wraps `formatVars` and reports `ErrAppPortEnvInvalid` | not executed | Loader.LoadAsWrittenOutcome | Loader.LoadOutcome |
