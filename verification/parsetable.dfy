/** The fixed table from a field's Go type to the function that parses its
    environment value (lookupParseFunc), and the import each parse function
    needs (pkgForParseFunc). Both generator files carry identical copies of these
    two functions; the model has one. */
module ParseTable {
  import opened Wrappers
  import opened Strs

  /** One row of the table: the parse function, whether parsing can fail
      (every type but string), the bit size passed to the parse function (0 when
      none applies) and the conversion applied to the parsed value ("" when the
      parsed type already is the field type). */
  datatype ParseInfo = ParseInfo(parseFunc: string, canHaveFormatErr: bool, bitSize: int, castFunc: string)

  /** The fifteen field types the generators accept. */
  const SupportedTypes: set<string> :=
    {"string", "bool", "int", "int8", "int16", "int32", "int64",
     "uint", "uint8", "uint16", "uint32", "uint64", "float32", "float64", "time.Duration"}

  /** The parse functions the table names; the loader template has a branch for each. */
  const ParseFuncs: set<string> :=
    {"raw", "strconv.ParseBool", "strconv.Atoi", "strconv.ParseInt", "strconv.ParseUint",
     "strconv.ParseFloat", "time.ParseDuration"}

  const SignedSized: set<string> := {"int8", "int16", "int32", "int64"}
  const UnsignedTypes: set<string> := {"uint", "uint8", "uint16", "uint32", "uint64"}

  /** lookupParseFunc. None is the `ok == false` answer for every other name. */
  function LookupParseFunc(typ: string): (r: Option<ParseInfo>)
    ensures r.Some? <==> typ in SupportedTypes
    ensures r.Some? ==> r.value.parseFunc in ParseFuncs
    ensures r.Some? ==> (r.value.canHaveFormatErr <==> typ != "string")
    ensures r.Some? ==> r.value.bitSize in {0, 8, 16, 32, 64}
    ensures r.Some? && r.value.castFunc != "" ==> r.value.castFunc == typ
    ensures r.Some? ==> (r.value.castFunc == "" <==> typ in {"string", "bool", "int", "float64", "time.Duration"})
    ensures r.Some? ==> (r.value.parseFunc == "strconv.ParseInt" <==> typ in SignedSized)
    ensures r.Some? ==> (r.value.parseFunc == "strconv.ParseUint" <==> typ in UnsignedTypes)
    ensures r.Some? ==> (r.value.parseFunc == "raw" <==> typ == "string")
  {
    match typ
    case "string" => Some(ParseInfo("raw", false, 0, ""))
    case "bool" => Some(ParseInfo("strconv.ParseBool", true, 0, ""))
    case "int" => Some(ParseInfo("strconv.Atoi", true, 0, ""))
    case "int64" => Some(ParseInfo("strconv.ParseInt", true, 64, "int64"))
    case "int32" => Some(ParseInfo("strconv.ParseInt", true, 32, "int32"))
    case "int16" => Some(ParseInfo("strconv.ParseInt", true, 16, "int16"))
    case "int8" => Some(ParseInfo("strconv.ParseInt", true, 8, "int8"))
    case "uint" => Some(ParseInfo("strconv.ParseUint", true, 0, "uint"))
    case "uint64" => Some(ParseInfo("strconv.ParseUint", true, 64, "uint64"))
    case "uint32" => Some(ParseInfo("strconv.ParseUint", true, 32, "uint32"))
    case "uint16" => Some(ParseInfo("strconv.ParseUint", true, 16, "uint16"))
    case "uint8" => Some(ParseInfo("strconv.ParseUint", true, 8, "uint8"))
    case "float32" => Some(ParseInfo("strconv.ParseFloat", true, 32, "float32"))
    case "float64" => Some(ParseInfo("strconv.ParseFloat", true, 64, ""))
    case "time.Duration" => Some(ParseInfo("time.ParseDuration", true, 0, ""))
    case _ => None
  }

  /** pkgForParseFunc: the quoted import path a parse function needs, "" for none. */
  function PkgForParseFunc(fn: string): (p: string)
    ensures p == "\"strconv\"" <==> HasPrefix(fn, "strconv.")
    ensures p == "\"time\"" <==> fn == "time.ParseDuration"
    ensures p == "" <==> !HasPrefix(fn, "strconv.") && fn != "time.ParseDuration"
  {
    if HasPrefix(fn, "strconv.") then
      assert fn[0] == fn[..8][0] == 's';
      "\"strconv\""
    else if fn == "time.ParseDuration" then "\"time\""
    else ""
  }

  /** Which import a supported field type brings in: none for string,
      "time" for time.Duration, "strconv" for every other type. */
  lemma {:induction false} ImportForType(typ: string)
    requires typ in SupportedTypes
    ensures LookupParseFunc(typ).Some?
    ensures var p := PkgForParseFunc(LookupParseFunc(typ).value.parseFunc);
      && (p == "" <==> typ == "string")
      && (p == "\"time\"" <==> typ == "time.Duration")
      && (p == "\"strconv\"" <==> typ != "string" && typ != "time.Duration")
  {
  }
}
