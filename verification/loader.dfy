/** What the loader the recursive generator emits does when it runs: for each
    entry, look the key up in the environment; an absent key records the entry's
    Missing sentinel, a value its parse function rejects records the Invalid
    sentinel, any other value is parsed into the field. When anything was
    recorded the loader returns the zero struct and an error grouping the
    sentinels; otherwise it returns the filled struct. */
module Loader {
  import opened Wrappers
  import opened Strs
  import opened Flattener
  import opened GoAst
  import opened Generator

  /** A sentinel error variable: its identifier (what errors.Is compares) and
      its message, which is the entry's environment key. */
  datatype Sentinel = Sentinel(name: string, message: string)

  /** MissingEnvVarsError and InvalidEnvVarsError, each wrapping its sentinels. */
  datatype Group = MissingGroup(vars: seq<Sentinel>) | InvalidGroup(vars: seq<Sentinel>)

  /** The value stored in a field: `text` parsed by `parseFunc`, then converted
      by `castFunc` when there is one. */
  datatype FieldValue = FieldValue(parseFunc: string, castFunc: string, text: string)

  /** The outcome of a load: the filled fields by dotted name, or the groups of
      the error (returned with the zero struct). */
  type Outcome = Result<map<string, FieldValue>, seq<Group>>

  /** `valid(fn, bitSize, text)` says whether parse function `fn`, called with
      the field's bit size, accepts `text` (so an `int8` and an `int16` field
      may judge the same text differently); the raw string "parse" accepts
      everything. */
  type Validity = (string, int, string) -> bool

  /** What the template needs of an entry: a Missing sentinel, and an Invalid
      sentinel when the value is parsed (the raw branch never reads the second
      error variable). */
  predicate Indexable(e: TemplateData)
  {
    |e.errorVars| > 0 && (e.parseFunc != "raw" ==> |e.errorVars| > 1)
  }

  predicate AllIndexable(fields: seq<TemplateData>)
  {
    forall i :: 0 <= i < |fields| ==> Indexable(fields[i])
  }

  /** The loader of every successful generator run can be evaluated: each
      entry has the error variables the template reads. */
  lemma {:induction false} GeneratedIndexable(projectPrefix: string, configStructName: string, node: File,
                                              testBuildTag: string, outputDotenv: bool)
    requires Generate(projectPrefix, configStructName, node, testBuildTag, outputDotenv).Ok?
    ensures AllIndexable(Generate(projectPrefix, configStructName, node, testBuildTag, outputDotenv).value.loader.fields)
  {
    GeneratedFields(projectPrefix, configStructName, node, testBuildTag, outputDotenv);
    var fields := Generate(projectPrefix, configStructName, node, testBuildTag, outputDotenv).value.loader.fields;
    forall i | 0 <= i < |fields| ensures Indexable(fields[i]) {
      assert fields[i] in fields;
    }
  }

  /** The entry's value is present but its parse function rejects it. */
  predicate Rejected(e: TemplateData, env: map<string, string>, valid: Validity)
  {
    e.envVar in env && e.parseFunc != "raw" && !valid(e.parseFunc, e.bitSize, env[e.envVar])
  }

  function MissingSentinel(e: TemplateData): Sentinel
    requires Indexable(e)
  {
    Sentinel(e.errorVars[0], e.envVar)
  }

  function InvalidSentinel(e: TemplateData): Sentinel
    requires Indexable(e) && e.parseFunc != "raw"
  {
    Sentinel(e.errorVars[1], e.envVar)
  }

  /** The Missing sentinels of the absent keys, in entry order. */
  function MissingVars(fields: seq<TemplateData>, env: map<string, string>): (r: seq<Sentinel>)
    requires AllIndexable(fields)
    ensures |r| <= |fields|
  {
    if |fields| == 0 then []
    else
      var e := fields[|fields| - 1];
      MissingVars(fields[..|fields| - 1], env) + (if e.envVar !in env then [MissingSentinel(e)] else [])
  }

  /** The Invalid sentinels of the rejected values, in entry order. */
  function FormatVars(fields: seq<TemplateData>, env: map<string, string>, valid: Validity): (r: seq<Sentinel>)
    requires AllIndexable(fields)
    ensures |r| <= |fields|
  {
    if |fields| == 0 then []
    else
      var e := fields[|fields| - 1];
      FormatVars(fields[..|fields| - 1], env, valid) + (if Rejected(e, env, valid) then [InvalidSentinel(e)] else [])
  }

  /** The fields filled in: every entry whose value is present and accepted. */
  function Assigned(fields: seq<TemplateData>, env: map<string, string>, valid: Validity): map<string, FieldValue>
  {
    if |fields| == 0 then map[]
    else
      var e := fields[|fields| - 1];
      var config := Assigned(fields[..|fields| - 1], env, valid);
      if e.envVar in env && !Rejected(e, env, valid) then config[e.name := FieldValue(e.parseFunc, e.castFunc, env[e.envVar])]
      else config
  }

  /** The error the loader returns, as the template writes it: the invalid
      group is built from the missing sentinels. */
  function CombineAsWritten(missingVars: seq<Sentinel>, formatVars: seq<Sentinel>): Option<seq<Group>>
  {
    if |missingVars| > 0 || |formatVars| > 0 then
      Some((if |missingVars| > 0 then [MissingGroup(missingVars)] else [])
           + (if |formatVars| > 0 then [InvalidGroup(missingVars)] else []))
    else None
  }

  /** The error the loader is meant to return: each group wraps its own sentinels. */
  function Combine(missingVars: seq<Sentinel>, formatVars: seq<Sentinel>): Option<seq<Group>>
  {
    if |missingVars| > 0 || |formatVars| > 0 then
      Some((if |missingVars| > 0 then [MissingGroup(missingVars)] else [])
           + (if |formatVars| > 0 then [InvalidGroup(formatVars)] else []))
    else None
  }

  /** The sentinels errors.Is finds in an error made of these groups. */
  function Reported(groups: seq<Group>): set<Sentinel>
  {
    set g, v | g in groups && v in g.vars :: v
  }

  /** The message of one group: empty for no sentinels, otherwise the sentinels'
      messages joined by commas inside the group's sentence. */
  function GroupMessage(g: Group): string
  {
    if |g.vars| == 0 then ""
    else
      var keys := seq(|g.vars|, i requires 0 <= i < |g.vars| => g.vars[i].message);
      if g.MissingGroup? then "envs " + Join(keys, ",") + " are not set"
      else "envs " + Join(keys, ",") + " have an invalid value"
  }

  /** The message of the joined error: the groups' messages, one per line. */
  function Message(groups: seq<Group>): string
  {
    Join(seq(|groups|, i requires 0 <= i < |groups| => GroupMessage(groups[i])), "\n")
  }

  /** The outcome of the corrected loader. */
  function LoadSpec(fields: seq<TemplateData>, env: map<string, string>, valid: Validity): Outcome
    requires AllIndexable(fields)
  {
    match Combine(MissingVars(fields, env), FormatVars(fields, env, valid))
    case Some(groups) => Err(groups)
    case None => Ok(Assigned(fields, env, valid))
  }

  /** The outcome of the loader as the template writes it. */
  function LoadSpecAsWritten(fields: seq<TemplateData>, env: map<string, string>, valid: Validity): Outcome
    requires AllIndexable(fields)
  {
    match CombineAsWritten(MissingVars(fields, env), FormatVars(fields, env, valid))
    case Some(groups) => Err(groups)
    case None => Ok(Assigned(fields, env, valid))
  }

  /** The loop of the generated loader over its entries. */
  method CollectFields(fields: seq<TemplateData>, env: map<string, string>, valid: Validity)
    returns (config: map<string, FieldValue>, missingVars: seq<Sentinel>, formatVars: seq<Sentinel>)
    requires AllIndexable(fields)
    ensures config == Assigned(fields, env, valid)
    ensures missingVars == MissingVars(fields, env)
    ensures formatVars == FormatVars(fields, env, valid)
  {
    config := map[];
    missingVars := [];
    formatVars := [];
    for i := 0 to |fields|
      invariant config == Assigned(fields[..i], env, valid)
      invariant missingVars == MissingVars(fields[..i], env)
      invariant formatVars == FormatVars(fields[..i], env, valid)
    {
      var e := fields[i];
      assert fields[..i + 1][..i] == fields[..i];
      assert fields[..i + 1][i] == e;
      if e.envVar !in env {
        missingVars := missingVars + [Sentinel(e.errorVars[0], e.envVar)];
      } else if e.parseFunc == "raw" {
        config := config[e.name := FieldValue(e.parseFunc, e.castFunc, env[e.envVar])];
      } else if !valid(e.parseFunc, e.bitSize, env[e.envVar]) {
        formatVars := formatVars + [Sentinel(e.errorVars[1], e.envVar)];
      } else {
        config := config[e.name := FieldValue(e.parseFunc, e.castFunc, env[e.envVar])];
      }
    }
    assert fields[..|fields|] == fields;
  }

  /** The generated loader as the template writes it: the invalid group is
      built from the missing sentinels, not from the rejected values' ones. */
  method Load(fields: seq<TemplateData>, env: map<string, string>, valid: Validity) returns (r: Outcome)
    requires AllIndexable(fields)
    ensures r == LoadSpecAsWritten(fields, env, valid)
  {
    var config, missingVars, formatVars := CollectFields(fields, env, valid);
    if |missingVars| > 0 || |formatVars| > 0 {
      var verr: seq<Group> := [];
      if |missingVars| > 0 {
        verr := verr + [MissingGroup(missingVars)];
      }
      assert verr == if |missingVars| > 0 then [MissingGroup(missingVars)] else [];
      if |formatVars| > 0 {
        verr := verr + [InvalidGroup(missingVars)];
      }
      assert verr == (if |missingVars| > 0 then [MissingGroup(missingVars)] else [])
                     + (if |formatVars| > 0 then [InvalidGroup(missingVars)] else []);
      assert CombineAsWritten(missingVars, formatVars).Some?;
      assert CombineAsWritten(missingVars, formatVars) == Some(verr);
      return Err(verr);
    }
    return Ok(config);
  }

  /** An entry whose key is absent from the environment. */
  predicate Absent(e: TemplateData, env: map<string, string>)
  {
    e.envVar !in env
  }

  /** The Missing sentinels recorded are exactly those of the entries whose key is absent. */
  lemma {:induction false} MissingVarsExactly(fields: seq<TemplateData>, env: map<string, string>, v: Sentinel)
    requires AllIndexable(fields)
    ensures v in MissingVars(fields, env) <==> exists i :: 0 <= i < |fields| && Absent(fields[i], env) && v == MissingSentinel(fields[i])
  {
    if |fields| > 0 {
      var init := fields[..|fields| - 1];
      MissingVarsExactly(init, env, v);
      if v in MissingVars(init, env) {
        var i :| 0 <= i < |init| && Absent(init[i], env) && v == MissingSentinel(init[i]);
        assert fields[i] == init[i];
      }
      if exists i :: 0 <= i < |fields| && Absent(fields[i], env) && v == MissingSentinel(fields[i]) {
        var i :| 0 <= i < |fields| && Absent(fields[i], env) && v == MissingSentinel(fields[i]);
        if i < |init| {
          assert fields[i] == init[i];
        }
      }
    }
  }

  /** The Invalid sentinels recorded are exactly those of the entries whose value is rejected. */
  lemma {:induction false} FormatVarsExactly(fields: seq<TemplateData>, env: map<string, string>, valid: Validity, v: Sentinel)
    requires AllIndexable(fields)
    ensures v in FormatVars(fields, env, valid) <==>
      exists i :: 0 <= i < |fields| && Rejected(fields[i], env, valid) && v == InvalidSentinel(fields[i])
  {
    if |fields| > 0 {
      var init := fields[..|fields| - 1];
      FormatVarsExactly(init, env, valid, v);
      if v in FormatVars(init, env, valid) {
        var i :| 0 <= i < |init| && Rejected(init[i], env, valid) && v == InvalidSentinel(init[i]);
        assert fields[i] == init[i];
      }
      if exists i :: 0 <= i < |fields| && Rejected(fields[i], env, valid) && v == InvalidSentinel(fields[i]) {
        var i :| 0 <= i < |fields| && Rejected(fields[i], env, valid) && v == InvalidSentinel(fields[i]);
        if i < |init| {
          assert fields[i] == init[i];
        }
      }
    }
  }

  /** The corrected combination reports every recorded sentinel and no other,
      and fails exactly when something was recorded. */
  lemma {:induction false} CombineReportsAll(missingVars: seq<Sentinel>, formatVars: seq<Sentinel>)
    ensures Combine(missingVars, formatVars).Some? <==> |missingVars| > 0 || |formatVars| > 0
    ensures Combine(missingVars, formatVars).Some? ==>
      forall v :: v in Reported(Combine(missingVars, formatVars).value) <==> v in missingVars || v in formatVars
  {
    var c := Combine(missingVars, formatVars);
    if c.Some? {
      var groups := c.value;
      forall v ensures v in Reported(groups) <==> v in missingVars || v in formatVars {
        if v in missingVars {
          assert MissingGroup(missingVars) in groups;
        }
        if v in formatVars {
          assert InvalidGroup(formatVars) in groups;
        }
      }
    }
  }

  /** The combination as written fails exactly when something was recorded, but
      every group it builds wraps the missing sentinels: it reports those and
      no other, and a rejected value adds a second group over the same
      missing sentinels. */
  lemma {:induction false} CombineAsWrittenReports(missingVars: seq<Sentinel>, formatVars: seq<Sentinel>)
    ensures CombineAsWritten(missingVars, formatVars).Some? <==> |missingVars| > 0 || |formatVars| > 0
    ensures CombineAsWritten(missingVars, formatVars).Some? ==>
      forall v :: v in Reported(CombineAsWritten(missingVars, formatVars).value) <==> v in missingVars
    ensures |formatVars| > 0 ==> CombineAsWritten(missingVars, formatVars).Some?
                                 && InvalidGroup(missingVars) in CombineAsWritten(missingVars, formatVars).value
  {
    var c := CombineAsWritten(missingVars, formatVars);
    if c.Some? {
      var groups := c.value;
      assert forall g :: g in groups ==> g.vars == missingVars;
      forall v ensures v in Reported(groups) <==> v in missingVars {
        if v in missingVars {
          assert MissingGroup(missingVars) in groups;
        }
      }
    }
  }

  /** The corrected loader fails exactly when some key is absent or some value
      rejected; its error reports exactly the sentinels of those entries; on
      success every entry's field is filled with its value. */
  lemma {:induction false} LoadOutcome(fields: seq<TemplateData>, env: map<string, string>, valid: Validity)
    requires AllIndexable(fields)
    ensures LoadSpec(fields, env, valid).Err? <==>
      exists i :: 0 <= i < |fields| && (Absent(fields[i], env) || Rejected(fields[i], env, valid))
    ensures LoadSpec(fields, env, valid).Err? ==> forall v :: v in Reported(LoadSpec(fields, env, valid).error) <==>
      exists i :: 0 <= i < |fields| && ((Absent(fields[i], env) && v == MissingSentinel(fields[i]))
                                      || (Rejected(fields[i], env, valid) && v == InvalidSentinel(fields[i])))
  {
    var m := MissingVars(fields, env);
    var f := FormatVars(fields, env, valid);
    LoadFails(fields, env, valid);
    CombineReportsAll(m, f);
    forall v
      ensures v in m <==> exists i :: 0 <= i < |fields| && Absent(fields[i], env) && v == MissingSentinel(fields[i])
      ensures v in f <==> exists i :: 0 <= i < |fields| && Rejected(fields[i], env, valid) && v == InvalidSentinel(fields[i])
    {
      MissingVarsExactly(fields, env, v);
      FormatVarsExactly(fields, env, valid, v);
    }
  }

  /** The loader as written fails exactly when the corrected one does, and
      returns the same fields when it succeeds; but its error reports only the
      Missing sentinels of the absent keys, never an Invalid sentinel. */
  lemma {:induction false} LoadAsWrittenOutcome(fields: seq<TemplateData>, env: map<string, string>, valid: Validity)
    requires AllIndexable(fields)
    ensures LoadSpecAsWritten(fields, env, valid).Err? <==>
      exists i :: 0 <= i < |fields| && (Absent(fields[i], env) || Rejected(fields[i], env, valid))
    ensures LoadSpecAsWritten(fields, env, valid).Ok? ==> LoadSpecAsWritten(fields, env, valid) == LoadSpec(fields, env, valid)
    ensures LoadSpecAsWritten(fields, env, valid).Err? ==>
      forall v :: v in Reported(LoadSpecAsWritten(fields, env, valid).error) <==>
        exists i :: 0 <= i < |fields| && Absent(fields[i], env) && v == MissingSentinel(fields[i])
  {
    var m := MissingVars(fields, env);
    var f := FormatVars(fields, env, valid);
    LoadFails(fields, env, valid);
    CombineAsWrittenReports(m, f);
    forall v
      ensures v in m <==> exists i :: 0 <= i < |fields| && Absent(fields[i], env) && v == MissingSentinel(fields[i])
    {
      MissingVarsExactly(fields, env, v);
    }
  }

  /** Something is recorded exactly when some key is absent or some value rejected. */
  lemma {:induction false} LoadFails(fields: seq<TemplateData>, env: map<string, string>, valid: Validity)
    requires AllIndexable(fields)
    ensures |MissingVars(fields, env)| > 0 || |FormatVars(fields, env, valid)| > 0 <==>
      exists i :: 0 <= i < |fields| && (Absent(fields[i], env) || Rejected(fields[i], env, valid))
  {
    var m := MissingVars(fields, env);
    var f := FormatVars(fields, env, valid);
    if |m| > 0 {
      MissingVarsExactly(fields, env, m[0]);
    }
    if |f| > 0 {
      FormatVarsExactly(fields, env, valid, f[0]);
    }
    if exists i :: 0 <= i < |fields| && (Absent(fields[i], env) || Rejected(fields[i], env, valid)) {
      var i :| 0 <= i < |fields| && (Absent(fields[i], env) || Rejected(fields[i], env, valid));
      if Absent(fields[i], env) {
        MissingVarsExactly(fields, env, MissingSentinel(fields[i]));
      } else {
        FormatVarsExactly(fields, env, valid, InvalidSentinel(fields[i]));
      }
    }
  }

  /** The fields a load fills are those of the entries whose value is present
      and accepted. */
  lemma {:induction false} AssignedKeys(fields: seq<TemplateData>, env: map<string, string>, valid: Validity, name: string)
    ensures name in Assigned(fields, env, valid) <==>
      exists i :: 0 <= i < |fields| && fields[i].name == name && fields[i].envVar in env && !Rejected(fields[i], env, valid)
  {
    if |fields| > 0 {
      var init := fields[..|fields| - 1];
      AssignedKeys(init, env, valid, name);
      if name in Assigned(init, env, valid) {
        var i :| 0 <= i < |init| && init[i].name == name && init[i].envVar in env && !Rejected(init[i], env, valid);
        assert fields[i] == init[i];
      }
      if exists i :: 0 <= i < |fields| && fields[i].name == name && fields[i].envVar in env && !Rejected(fields[i], env, valid) {
        var i :| 0 <= i < |fields| && fields[i].name == name && fields[i].envVar in env && !Rejected(fields[i], env, valid);
        if i < |init| {
          assert fields[i] == init[i];
        }
      }
    }
  }

  /** A successful load, as written, fills every field. */
  lemma {:induction false} LoadFillsAll(fields: seq<TemplateData>, env: map<string, string>, valid: Validity)
    requires AllIndexable(fields)
    requires LoadSpecAsWritten(fields, env, valid).Ok?
    ensures forall i :: 0 <= i < |fields| ==> fields[i].name in LoadSpecAsWritten(fields, env, valid).value
  {
    LoadAsWrittenOutcome(fields, env, valid);
    forall i | 0 <= i < |fields| ensures fields[i].name in LoadSpecAsWritten(fields, env, valid).value {
      AssignedKeys(fields, env, valid, fields[i].name);
    }
  }

  /** A single int field whose value does not parse. */
  const PortEntry := TemplateData("Port", "val_Port", "APP_PORT", "strconv.Atoi",
                                  ["ErrAppPortEnvMissing", "ErrAppPortEnvInvalid"], true, 0, "")

  /** Every parse function rejects every value. */
  function RejectAll(fn: string, bitSize: int, text: string): bool
  {
    false
  }

  /** As written, when values are rejected but no key is absent, the invalid
      group wraps the (empty) missing sentinels: the error names no sentinel and
      its message is empty. The corrected loader reports the Invalid sentinel. */
  lemma {:induction false} AsWrittenLosesInvalid()
    ensures WellFormed(PortEntry)
    ensures LoadSpecAsWritten([PortEntry], map["APP_PORT" := "eighty"], RejectAll) == Err([InvalidGroup([])])
    ensures Reported([InvalidGroup([])]) == {}
    ensures Message([InvalidGroup([])]) == ""
    ensures LoadSpec([PortEntry], map["APP_PORT" := "eighty"], RejectAll)
         == Err([InvalidGroup([Sentinel("ErrAppPortEnvInvalid", "APP_PORT")])])
  {
    var env := map["APP_PORT" := "eighty"];
    var missing := "ErrAppPortEnvMissing";
    assert missing[|missing| - 7..] == "Missing";
    assert [PortEntry][..0] == [];
    assert Rejected(PortEntry, env, RejectAll);
    assert MissingVars([PortEntry], env) == [];
    assert FormatVars([PortEntry], env, RejectAll) == [Sentinel("ErrAppPortEnvInvalid", "APP_PORT")];
    var g := [InvalidGroup([])];
    assert CombineAsWritten([], [Sentinel("ErrAppPortEnvInvalid", "APP_PORT")]) == Some([] + g);
    assert [] + g == g;
    var h := [InvalidGroup([Sentinel("ErrAppPortEnvInvalid", "APP_PORT")])];
    assert Combine([], [Sentinel("ErrAppPortEnvInvalid", "APP_PORT")]) == Some([] + h);
    assert [] + h == h;
    assert Message(g) == GroupMessage(g[0]);
  }

  /** Two fields with the same parse function but widths 8 and 16. */
  const NarrowEntry := TemplateData("A", "val_A", "APP_A", "strconv.ParseInt",
                                    ["ErrAppAEnvMissing", "ErrAppAEnvInvalid"], true, 8, "int8")
  const WideEntry := TemplateData("B", "val_B", "APP_B", "strconv.ParseInt",
                                  ["ErrAppBEnvMissing", "ErrAppBEnvInvalid"], true, 16, "int16")

  /** The bit size reaches the parse function: when "200" is out of range for
      8 bits but not for 16, only the narrow field is reported invalid and only
      the wide one is assigned. */
  lemma {:induction false} WidthDecidesRejection(valid: Validity)
    requires !valid("strconv.ParseInt", 8, "200") && valid("strconv.ParseInt", 16, "200")
    ensures FormatVars([NarrowEntry, WideEntry], map["APP_A" := "200", "APP_B" := "200"], valid)
         == [Sentinel("ErrAppAEnvInvalid", "APP_A")]
    ensures Assigned([NarrowEntry, WideEntry], map["APP_A" := "200", "APP_B" := "200"], valid).Keys == {"B"}
  {
    var env := map["APP_A" := "200", "APP_B" := "200"];
    var fields := [NarrowEntry, WideEntry];
    assert fields[..1] == [NarrowEntry];
    assert fields[..1][..0] == [];
    assert Rejected(NarrowEntry, env, valid);
    assert !Rejected(WideEntry, env, valid);
    assert FormatVars(fields[..1], env, valid) == [Sentinel("ErrAppAEnvInvalid", "APP_A")];
    assert Assigned(fields[..1], env, valid) == map[];
  }
}
