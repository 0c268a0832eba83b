/** What the loader the legacy generator emits does when it runs: for each
    entry, look the key up; an absent key is listed as missing, a value its
    parse function rejects is listed as invalid, any other value is parsed
    into the field. When anything was listed the loader returns the zero struct
    and one error whose text names the listed keys; otherwise the filled struct. */
module LegacyLoader {
  import opened Wrappers
  import opened Strs
  import opened Legacy
  import Loader

  /** The entry's value is present but its parse function rejects it. */
  predicate LegacyRejected(e: LegacyEntry, env: map<string, string>, valid: Loader.Validity)
  {
    e.envVar in env && e.parseFunc != "raw" && !valid(e.parseFunc, e.bitSize, env[e.envVar])
  }

  /** The keys that are absent, in entry order. */
  function MissingKeys(fields: seq<LegacyEntry>, env: map<string, string>): (r: seq<string>)
    ensures |r| <= |fields|
  {
    if |fields| == 0 then []
    else
      var e := fields[|fields| - 1];
      MissingKeys(fields[..|fields| - 1], env) + (if e.envVar !in env then [e.envVar] else [])
  }

  /** The keys whose values are rejected, in entry order. */
  function InvalidKeys(fields: seq<LegacyEntry>, env: map<string, string>, valid: Loader.Validity): (r: seq<string>)
    ensures |r| <= |fields|
  {
    if |fields| == 0 then []
    else
      var e := fields[|fields| - 1];
      InvalidKeys(fields[..|fields| - 1], env, valid) + (if LegacyRejected(e, env, valid) then [e.envVar] else [])
  }

  /** The fields filled in: every entry whose value is present and accepted. */
  function LegacyAssigned(fields: seq<LegacyEntry>, env: map<string, string>, valid: Loader.Validity): map<string, Loader.FieldValue>
  {
    if |fields| == 0 then map[]
    else
      var e := fields[|fields| - 1];
      var config := LegacyAssigned(fields[..|fields| - 1], env, valid);
      if e.envVar in env && !LegacyRejected(e, env, valid) then config[e.name := Loader.FieldValue(e.parseFunc, e.castFunc, env[e.envVar])]
      else config
  }

  const MissingHead := "missing env vars: "
  const InvalidHead := "invalid format in env vars: "

  /** The parts of the error text: the missing keys' sentence when there are
      any, then the invalid keys' sentence when there are any. */
  function ErrorParts(missing: seq<string>, invalid: seq<string>): seq<string>
  {
    (if |missing| > 0 then [MissingHead + Join(missing, ", ")] else [])
    + (if |invalid| > 0 then [InvalidHead + Join(invalid, ", ")] else [])
  }

  /** The outcome of the generated loader: the filled fields by name, or the
      error text (returned with the zero struct). */
  function LegacyLoadSpec(fields: seq<LegacyEntry>, env: map<string, string>, valid: Loader.Validity): Result<map<string, Loader.FieldValue>, string>
  {
    var missing := MissingKeys(fields, env);
    var invalid := InvalidKeys(fields, env, valid);
    if |missing| > 0 || |invalid| > 0 then Err(Join(ErrorParts(missing, invalid), "; "))
    else Ok(LegacyAssigned(fields, env, valid))
  }

  /** The loop of the generated loader over its entries. */
  method CollectLegacyFields(fields: seq<LegacyEntry>, env: map<string, string>, valid: Loader.Validity)
    returns (config: map<string, Loader.FieldValue>, missingVars: seq<string>, formatVars: seq<string>)
    ensures config == LegacyAssigned(fields, env, valid)
    ensures missingVars == MissingKeys(fields, env)
    ensures formatVars == InvalidKeys(fields, env, valid)
  {
    config := map[];
    missingVars := [];
    formatVars := [];
    for i := 0 to |fields|
      invariant config == LegacyAssigned(fields[..i], env, valid)
      invariant missingVars == MissingKeys(fields[..i], env)
      invariant formatVars == InvalidKeys(fields[..i], env, valid)
    {
      var e := fields[i];
      assert fields[..i + 1][..i] == fields[..i];
      assert fields[..i + 1][i] == e;
      if e.envVar !in env {
        missingVars := missingVars + [e.envVar];
      } else if e.parseFunc == "raw" {
        config := config[e.name := Loader.FieldValue(e.parseFunc, e.castFunc, env[e.envVar])];
      } else if !valid(e.parseFunc, e.bitSize, env[e.envVar]) {
        formatVars := formatVars + [e.envVar];
      } else {
        config := config[e.name := Loader.FieldValue(e.parseFunc, e.castFunc, env[e.envVar])];
      }
    }
    assert fields[..|fields|] == fields;
  }

  /** The generated legacy loader. */
  method LegacyLoad(fields: seq<LegacyEntry>, env: map<string, string>, valid: Loader.Validity)
    returns (r: Result<map<string, Loader.FieldValue>, string>)
    ensures r == LegacyLoadSpec(fields, env, valid)
  {
    var config, missingVars, formatVars := CollectLegacyFields(fields, env, valid);
    if |missingVars| > 0 || |formatVars| > 0 {
      var parts: seq<string> := [];
      if |missingVars| > 0 {
        parts := parts + [MissingHead + Join(missingVars, ", ")];
      }
      if |formatVars| > 0 {
        parts := parts + [InvalidHead + Join(formatVars, ", ")];
      }
      assert parts == ErrorParts(missingVars, formatVars);
      return Err(Join(parts, "; "));
    }
    return Ok(config);
  }

  /** The missing keys are exactly the absent ones. */
  lemma {:induction false} MissingKeysExactly(fields: seq<LegacyEntry>, env: map<string, string>, k: string)
    ensures k in MissingKeys(fields, env) <==> exists i :: 0 <= i < |fields| && fields[i].envVar == k && k !in env
  {
    if |fields| > 0 {
      var init := fields[..|fields| - 1];
      MissingKeysExactly(init, env, k);
      if k in MissingKeys(init, env) {
        var i :| 0 <= i < |init| && init[i].envVar == k && k !in env;
        assert fields[i] == init[i];
      }
      if exists i :: 0 <= i < |fields| && fields[i].envVar == k && k !in env {
        var i :| 0 <= i < |fields| && fields[i].envVar == k && k !in env;
        if i < |init| {
          assert fields[i] == init[i];
        }
      }
    }
  }

  /** The invalid keys are exactly those of the rejected values. */
  lemma {:induction false} InvalidKeysExactly(fields: seq<LegacyEntry>, env: map<string, string>, valid: Loader.Validity, k: string)
    ensures k in InvalidKeys(fields, env, valid) <==>
      exists i :: 0 <= i < |fields| && fields[i].envVar == k && LegacyRejected(fields[i], env, valid)
  {
    if |fields| > 0 {
      var init := fields[..|fields| - 1];
      InvalidKeysExactly(init, env, valid, k);
      if k in InvalidKeys(init, env, valid) {
        var i :| 0 <= i < |init| && init[i].envVar == k && LegacyRejected(init[i], env, valid);
        assert fields[i] == init[i];
      }
      if exists i :: 0 <= i < |fields| && fields[i].envVar == k && LegacyRejected(fields[i], env, valid) {
        var i :| 0 <= i < |fields| && fields[i].envVar == k && LegacyRejected(fields[i], env, valid);
        if i < |init| {
          assert fields[i] == init[i];
        }
      }
    }
  }

  /** A piece of `s` is a piece of anything `s` is part of. */
  lemma {:induction false} ContainsWithin(a: string, s: string, b: string, t: string)
    requires Contains(s, t)
    ensures Contains(a + s + b, t)
  {
    var i :| OccursAt(s, t, i);
    var whole := a + s + b;
    assert whole[|a| + i..|a| + i + |t|] == s[i..i + |t|];
    assert OccursAt(whole, t, |a| + i);
  }

  /** The error text names every listed key; it opens with the missing keys'
      sentence exactly when some key is missing, and otherwise with the
      invalid keys' sentence. */
  lemma {:induction false} ErrorTextNamesKeys(missing: seq<string>, invalid: seq<string>)
    requires |missing| > 0 || |invalid| > 0
    ensures var text := Join(ErrorParts(missing, invalid), "; ");
      && (forall k :: k in missing || k in invalid ==> Contains(text, k))
      && (HasPrefix(text, MissingHead) <==> |missing| > 0)
      && (|missing| == 0 ==> HasPrefix(text, InvalidHead))
  {
    var text := Join(ErrorParts(missing, invalid), "; ");
    var mj, ij := Join(missing, ", "), Join(invalid, ", ");
    var mpart, ipart := MissingHead + mj, InvalidHead + ij;
    if |missing| > 0 && |invalid| > 0 {
      assert ErrorParts(missing, invalid) == [mpart, ipart];
      assert text == MissingHead + mj + ("; " + ipart);
      assert text == (mpart + "; " + InvalidHead) + ij + "";
    } else if |missing| > 0 {
      assert ErrorParts(missing, invalid) == [mpart];
      assert text == MissingHead + mj + "";
    } else {
      assert ErrorParts(missing, invalid) == [ipart];
      assert text == InvalidHead + ij + "";
      assert text[0] == 'i';
    }
    forall k | k in missing || k in invalid ensures Contains(text, k) {
      if k in missing {
        var n :| 0 <= n < |missing| && missing[n] == k;
        JoinContains(missing, ", ", n);
        if |invalid| > 0 {
          ContainsWithin(MissingHead, mj, "; " + ipart, k);
        } else {
          ContainsWithin(MissingHead, mj, "", k);
        }
      } else {
        var n :| 0 <= n < |invalid| && invalid[n] == k;
        JoinContains(invalid, ", ", n);
        if |missing| > 0 {
          ContainsWithin(mpart + "; " + InvalidHead, ij, "", k);
        } else {
          ContainsWithin(InvalidHead, ij, "", k);
        }
      }
    }
  }

  /** The generated loader fails exactly when some key is absent or some value
      rejected, and its error text then names every such key. */
  lemma {:induction false} LegacyLoadOutcome(fields: seq<LegacyEntry>, env: map<string, string>, valid: Loader.Validity)
    ensures LegacyLoadSpec(fields, env, valid).Err? <==>
      exists i :: 0 <= i < |fields| && (fields[i].envVar !in env || LegacyRejected(fields[i], env, valid))
    ensures LegacyLoadSpec(fields, env, valid).Err? ==>
      forall i :: 0 <= i < |fields| && (fields[i].envVar !in env || LegacyRejected(fields[i], env, valid)) ==>
        Contains(LegacyLoadSpec(fields, env, valid).error, fields[i].envVar)
    ensures LegacyLoadSpec(fields, env, valid).Err? ==>
      (HasPrefix(LegacyLoadSpec(fields, env, valid).error, MissingHead) <==> exists i :: 0 <= i < |fields| && fields[i].envVar !in env)
  {
    var m := MissingKeys(fields, env);
    var f := InvalidKeys(fields, env, valid);
    forall i | 0 <= i < |fields|
      ensures fields[i].envVar !in env ==> fields[i].envVar in m
      ensures LegacyRejected(fields[i], env, valid) ==> fields[i].envVar in f
    {
      MissingKeysExactly(fields, env, fields[i].envVar);
      InvalidKeysExactly(fields, env, valid, fields[i].envVar);
    }
    if |m| > 0 {
      MissingKeysExactly(fields, env, m[0]);
    } else if |f| > 0 {
      InvalidKeysExactly(fields, env, valid, f[0]);
    }
    if |m| > 0 || |f| > 0 {
      ErrorTextNamesKeys(m, f);
    }
  }

  /** The fields a load fills are those of the entries whose value is present
      and accepted. */
  lemma {:induction false} LegacyAssignedKeys(fields: seq<LegacyEntry>, env: map<string, string>, valid: Loader.Validity, name: string)
    ensures name in LegacyAssigned(fields, env, valid) <==>
      exists i :: 0 <= i < |fields| && fields[i].name == name && fields[i].envVar in env && !LegacyRejected(fields[i], env, valid)
  {
    if |fields| > 0 {
      var init := fields[..|fields| - 1];
      LegacyAssignedKeys(init, env, valid, name);
      if name in LegacyAssigned(init, env, valid) {
        var i :| 0 <= i < |init| && init[i].name == name && init[i].envVar in env && !LegacyRejected(init[i], env, valid);
        assert fields[i] == init[i];
      }
      if exists i :: 0 <= i < |fields| && fields[i].name == name && fields[i].envVar in env && !LegacyRejected(fields[i], env, valid) {
        var i :| 0 <= i < |fields| && fields[i].name == name && fields[i].envVar in env && !LegacyRejected(fields[i], env, valid);
        if i < |init| {
          assert fields[i] == init[i];
        }
      }
    }
  }

  /** A successful load fills every field. */
  lemma {:induction false} LegacyLoadFillsAll(fields: seq<LegacyEntry>, env: map<string, string>, valid: Loader.Validity)
    requires LegacyLoadSpec(fields, env, valid).Ok?
    ensures forall i :: 0 <= i < |fields| ==> fields[i].name in LegacyLoadSpec(fields, env, valid).value
  {
    LegacyLoadOutcome(fields, env, valid);
    forall i | 0 <= i < |fields| ensures fields[i].name in LegacyLoadSpec(fields, env, valid).value {
      LegacyAssignedKeys(fields, env, valid, fields[i].name);
    }
  }
}
