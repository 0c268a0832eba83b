/** Identifier derivation of the recursive generator: the environment-variable key
    (getEnvKey) and the stem of the error sentinels (getErrKey) of a leaf field,
    both computed from its canonical name list [project prefix, parent field
    names..., field name]. */
module Naming {
  import opened Strs

  /** What one character contributes to an environment key: a digit itself, a
      letter upper-cased, anything else nothing. */
  function KeyChar(c: char): string
  {
    if IsDigit(c) then [c] else if IsLetter(c) then [ToUpperChar(c)] else []
  }

  /** A name segment as it appears in an environment key. */
  function KeySegment(part: string): string
  {
    if |part| == 0 then "" else KeySegment(part[..|part| - 1]) + KeyChar(part[|part| - 1])
  }

  function KeySegments(list: seq<string>): (r: seq<string>)
    ensures |r| == |list| && forall i :: 0 <= i < |list| ==> r[i] == KeySegment(list[i])
  {
    seq(|list|, i requires 0 <= i < |list| => KeySegment(list[i]))
  }

  /** The environment key of a canonical name list: its segments, each reduced to
      upper-case letters and digits, joined by single underscores. */
  function EnvKey(list: seq<string>): string
  {
    Join(KeySegments(list), "_")
  }

  /** What the builder in getEnvKey holds after the outer loop: every segment
      followed by an underscore. */
  function Terminated(list: seq<string>): string
  {
    if |list| == 0 then "" else Terminated(list[..|list| - 1]) + KeySegment(list[|list| - 1]) + "_"
  }

  /** A key segment holds only upper-case letters and digits, and is never longer
      than the segment it came from. */
  lemma {:induction false} KeySegmentChars(part: string)
    ensures |KeySegment(part)| <= |part|
    ensures forall i :: 0 <= i < |KeySegment(part)| ==> IsUpper(KeySegment(part)[i]) || IsDigit(KeySegment(part)[i])
    ensures '_' !in KeySegment(part)
  {
    if |part| > 0 {
      KeySegmentChars(part[..|part| - 1]);
    }
  }

  /** An environment key holds only upper-case letters, digits and underscores. */
  lemma {:induction false} EnvKeyChars(list: seq<string>, c: char)
    requires !IsUpper(c) && !IsDigit(c) && c != '_'
    ensures c !in EnvKey(list)
  {
    var segs := KeySegments(list);
    forall i | 0 <= i < |segs| ensures c !in segs[i] {
      KeySegmentChars(list[i]);
    }
    JoinExcludes(segs, "_", c);
  }

  lemma {:induction false} TerminatedIsKeyPlusSeparator(list: seq<string>)
    requires |list| > 0
    ensures Terminated(list) == EnvKey(list) + "_"
  {
    var init := list[..|list| - 1];
    var last := KeySegment(list[|list| - 1]);
    assert Terminated(list) == Terminated(init) + last + "_";
    var segs := KeySegments(list);
    if |init| == 0 {
      assert segs == [last];
      assert EnvKey(list) == last;
    } else {
      TerminatedIsKeyPlusSeparator(init);
      assert segs == KeySegments(init) + [last];
      JoinSnoc(KeySegments(init), last, "_");
      assert EnvKey(list) == EnvKey(init) + "_" + last;
    }
  }

  lemma {:induction false} KeySegmentStep(part: string, k: nat)
    requires k < |part|
    ensures KeySegment(part[..k + 1]) == KeySegment(part[..k]) + KeyChar(part[k])
  {
    assert part[..k + 1][..k] == part[..k];
  }

  lemma {:induction false} KeyCharCases(c: char)
    ensures IsDigit(c) ==> !IsLetter(c) && KeyChar(c) == [c]
    ensures IsLetter(c) ==> KeyChar(c) == [ToUpperChar(c)]
    ensures !IsDigit(c) && !IsLetter(c) ==> KeyChar(c) == []
  {
  }

  /** getEnvKey. The outer loop writes each segment followed by an underscore,
      then the trailing underscore is trimmed. */
  method GetEnvKey(canonicalNameList: seq<string>) returns (key: string)
    ensures key == EnvKey(canonicalNameList)
  {
    var sb: string := "";
    for i := 0 to |canonicalNameList|
      invariant sb == Terminated(canonicalNameList[..i])
    {
      sb := WriteKeySegment(sb, canonicalNameList[i]);
      assert canonicalNameList[..i + 1][..i] == canonicalNameList[..i];
      sb := sb + "_";
    }
    assert canonicalNameList[..|canonicalNameList|] == canonicalNameList;
    key := TrimSuffix(sb, "_");
    if |canonicalNameList| > 0 {
      TerminatedIsKeyPlusSeparator(canonicalNameList);
      assert sb[..|sb| - 1] == EnvKey(canonicalNameList);
    }
  }

  /** The inner loop of getEnvKey: the runes of one segment written to the builder. */
  method WriteKeySegment(sb: string, part: string) returns (out: string)
    ensures out == sb + KeySegment(part)
  {
    out := sb;
    for k := 0 to |part|
      invariant out == sb + KeySegment(part[..k])
    {
      var r := part[k];
      KeyCharCases(r);
      KeySegmentStep(part, k);
      if IsDigit(r) {
        out := out + [r];
      }
      if IsLetter(r) {
        out := out + [ToUpperChar(r)];
      }
    }
    assert part[..|part|] == part;
  }

  /** The key splits back, on its underscores, into exactly the reduced segments:
      nothing but the segments' letters and digits is lost. */
  lemma {:induction false} EnvKeySplitsBack(list: seq<string>)
    requires |list| > 0
    ensures Split(EnvKey(list), '_') == KeySegments(list)
  {
    forall i | 0 <= i < |list| ensures '_' !in KeySegments(list)[i] {
      KeySegmentChars(list[i]);
    }
    SplitJoin(KeySegments(list), '_');
  }

  /** Two non-empty name lists share an environment key exactly when their
      segments reduce to the same letters and digits: case and every other
      character are erased, and no check for such collisions is made. */
  lemma {:induction false} EnvKeyCollision(l1: seq<string>, l2: seq<string>)
    requires |l1| > 0 && |l2| > 0
    ensures EnvKey(l1) == EnvKey(l2) <==> KeySegments(l1) == KeySegments(l2)
  {
    EnvKeySplitsBack(l1);
    EnvKeySplitsBack(l2);
  }

  /** On a segment made only of letters and digits the key form is the upper-cased segment. */
  lemma {:induction false} KeySegmentOfAlnum(part: string)
    requires forall i :: 0 <= i < |part| ==> IsLetter(part[i]) || IsDigit(part[i])
    ensures KeySegment(part) == ToUpper(part)
  {
    if |part| > 0 {
      KeySegmentOfAlnum(part[..|part| - 1]);
    }
  }

  /** Case is erased: fields `Ab` and `AB` share a key. */
  lemma {:induction false} EnvKeyCaseCollision()
    ensures EnvKey(["Ab"]) == EnvKey(["AB"]) == "AB"
  {
    KeySegmentOfAlnum("Ab");
    KeySegmentOfAlnum("AB");
    assert KeySegments(["Ab"]) == [KeySegment("Ab")];
    assert KeySegments(["AB"]) == [KeySegment("AB")];
  }

  /** Other characters are erased: fields `a_b` and `ab` share a key. */
  lemma {:induction false} EnvKeyUnderscoreCollision()
    ensures EnvKey(["a_b"]) == EnvKey(["ab"]) == "AB"
  {
    KeySegmentOfAlnum("ab");
    KeySegmentOfAlnum("a");
    assert "a_b"[..2] == "a_" && "a_"[..1] == "a";
    assert KeySegment("a_b") == KeySegment("a") + KeyChar('_') + KeyChar('b');
    assert KeySegments(["a_b"]) == [KeySegment("a_b")];
    assert KeySegments(["ab"]) == [KeySegment("ab")];
  }

  /** An empty project prefix still contributes its separator. */
  lemma {:induction false} EnvKeyEmptyPrefix()
    ensures EnvKey(["", "Port"]) == "_PORT"
  {
    KeySegmentOfAlnum("Port");
    assert ToUpper("Port") == "PORT";
    assert KeySegments(["", "Port"]) == ["", "PORT"];
  }

  /** What one character at position `i` of its segment contributes to an error
      identifier: a digit itself, a letter upper-cased at position 0 and
      lower-cased elsewhere, anything else nothing. */
  function ErrChar(c: char, i: nat): string
  {
    if IsDigit(c) then [c]
    else if IsLetter(c) && i == 0 then [ToUpperChar(c)]
    else if IsLetter(c) then [ToLowerChar(c)]
    else []
  }

  function ErrSegment(part: string): string
  {
    if |part| == 0 then "" else ErrSegment(part[..|part| - 1]) + ErrChar(part[|part| - 1], |part| - 1)
  }

  /** The segments' error forms, concatenated with no separator. */
  function ErrBody(list: seq<string>): string
  {
    if |list| == 0 then "" else ErrBody(list[..|list| - 1]) + ErrSegment(list[|list| - 1])
  }

  /** The stem of a leaf's error sentinels: "Err", the segments, "Env". */
  function ErrKey(list: seq<string>): string
  {
    "Err" + ErrBody(list) + "Env"
  }

  lemma {:induction false} ErrSegmentStep(part: string, k: nat)
    requires k < |part|
    ensures ErrSegment(part[..k + 1]) == ErrSegment(part[..k]) + ErrChar(part[k], k)
  {
    assert part[..k + 1][..k] == part[..k];
  }

  lemma {:induction false} ErrCharCases(c: char, i: nat)
    ensures IsDigit(c) ==> !IsLetter(c) && ErrChar(c, i) == [c]
    ensures IsLetter(c) && i == 0 ==> ErrChar(c, i) == [ToUpperChar(c)]
    ensures IsLetter(c) && i != 0 ==> ErrChar(c, i) == [ToLowerChar(c)]
    ensures !IsDigit(c) && !IsLetter(c) ==> ErrChar(c, i) == []
  {
  }

  /** getErrKey. */
  method GetErrKey(canonicalNameList: seq<string>) returns (key: string)
    ensures key == ErrKey(canonicalNameList)
  {
    var sb: string := "Err";
    for i := 0 to |canonicalNameList|
      invariant sb == "Err" + ErrBody(canonicalNameList[..i])
    {
      sb := WriteErrSegment(sb, canonicalNameList[i]);
      assert canonicalNameList[..i + 1][..i] == canonicalNameList[..i];
    }
    assert canonicalNameList[..|canonicalNameList|] == canonicalNameList;
    sb := sb + "Env";
    key := sb;
  }

  /** The inner loop of getErrKey: the runes of one segment written to the builder. */
  method WriteErrSegment(sb: string, part: string) returns (out: string)
    ensures out == sb + ErrSegment(part)
  {
    out := sb;
    for k := 0 to |part|
      invariant out == sb + ErrSegment(part[..k])
    {
      var r := part[k];
      ErrCharCases(r, k);
      ErrSegmentStep(part, k);
      if IsDigit(r) {
        out := out + [r];
      }
      if IsLetter(r) && k == 0 {
        out := out + [ToUpperChar(r)];
      } else if IsLetter(r) && k != 0 {
        out := out + [ToLowerChar(r)];
      }
    }
    assert part[..|part|] == part;
  }

  /** Within a segment's error form only the first character can be upper-case,
      and only when the segment starts with a letter; every character is a letter
      or a digit, one per letter or digit of the segment. */
  lemma {:induction false} ErrSegmentShape(part: string)
    ensures |ErrSegment(part)| == |KeySegment(part)|
    ensures forall i :: 0 <= i < |ErrSegment(part)| ==> IsLetter(ErrSegment(part)[i]) || IsDigit(ErrSegment(part)[i])
    ensures forall i :: 0 < i < |ErrSegment(part)| ==> !IsUpper(ErrSegment(part)[i])
    ensures |ErrSegment(part)| > 0 && IsUpper(ErrSegment(part)[0]) ==> IsLetter(part[0])
  {
    if |part| > 0 {
      var init := part[..|part| - 1];
      ErrSegmentShape(init);
      if |init| > 0 {
        assert init[0] == part[0];
      }
    }
  }

  lemma {:induction false} ErrCharUpper(c: char, i: nat)
    ensures ToUpper(ErrChar(c, i)) == KeyChar(c)
  {
    if IsLetter(c) && !IsDigit(c) {
      var e := ErrChar(c, i);
      assert |e| == 1;
      assert ToUpperChar(ToLowerChar(c)) == ToUpperChar(c);
      assert ToUpper(e)[0] == ToUpperChar(c);
    }
  }

  /** Up to case, a segment's error form and its key form hold the same characters. */
  lemma {:induction false} ErrSegmentUpperIsKeySegment(part: string)
    ensures ToUpper(ErrSegment(part)) == KeySegment(part)
  {
    if |part| > 0 {
      var init := part[..|part| - 1];
      var c := part[|part| - 1];
      ErrSegmentUpperIsKeySegment(init);
      ToUpperAppend(ErrSegment(init), ErrChar(c, |part| - 1));
      ErrCharUpper(c, |part| - 1);
    }
  }

  /** The error identifier spells the environment key without its underscores,
      up to case: the two names of a leaf always agree on its letters and digits. */
  lemma {:induction false} ErrBodyMatchesEnvKey(list: seq<string>)
    ensures ToUpper(ErrBody(list)) == Without(EnvKey(list), '_')
  {
    if |list| > 0 {
      var init := list[..|list| - 1];
      var seg := list[|list| - 1];
      var key := KeySegment(seg);
      assert ErrBody(list) == ErrBody(init) + ErrSegment(seg);
      ToUpperAppend(ErrBody(init), ErrSegment(seg));
      ErrSegmentUpperIsKeySegment(seg);
      assert ToUpper(ErrBody(list)) == ToUpper(ErrBody(init)) + key;
      KeySegmentChars(seg);
      WithoutAbsent(key, '_');
      if |init| == 0 {
        assert KeySegments(list) == [key];
        assert EnvKey(list) == key;
        assert ErrBody(init) == "";
      } else {
        ErrBodyMatchesEnvKey(init);
        EnvKeySnoc(list);
        WithoutSeparated(EnvKey(init), key);
      }
    }
  }

  lemma {:induction false} EnvKeySnoc(list: seq<string>)
    requires |list| > 1
    ensures EnvKey(list) == EnvKey(list[..|list| - 1]) + "_" + KeySegment(list[|list| - 1])
  {
    var init := list[..|list| - 1];
    assert KeySegments(list) == KeySegments(init) + [KeySegment(list[|list| - 1])];
    JoinSnoc(KeySegments(init), KeySegment(list[|list| - 1]), "_");
  }

  lemma {:induction false} WithoutSeparated(a: string, b: string)
    requires '_' !in b
    ensures Without(a + "_" + b, '_') == Without(a, '_') + b
  {
    var u: string := "_";
    assert Without(u, '_') == "" by {
      assert u[..0] == "";
    }
    WithoutAppend(a, u, '_');
    WithoutAppend(a + u, b, '_');
    WithoutAbsent(b, '_');
    assert Without(a, '_') + "" == Without(a, '_');
  }

  /** On a segment of letters only, the error form is the first letter upper-cased
      and the rest lower-cased. */
  lemma {:induction false} ErrSegmentOfLetters(part: string)
    requires |part| > 0
    requires forall i :: 0 <= i < |part| ==> IsLetter(part[i])
    ensures ErrSegment(part) == [ToUpperChar(part[0])] + ToLower(part[1..])
  {
    var init := part[..|part| - 1];
    var last := part[|part| - 1];
    if |init| > 0 {
      forall i | 0 <= i < |init| ensures IsLetter(init[i]) {
        assert init[i] == part[i];
      }
      ErrSegmentOfLetters(init);
      assert ErrChar(last, |part| - 1) == [ToLowerChar(last)];
      assert init[0] == part[0];
      assert part[1..] == init[1..] + [last];
      ToLowerAppend(init[1..], [last]);
      assert ToLower([last]) == [ToLowerChar(last)];
    } else {
      assert ErrSegment(init) == "";
      assert part[1..] == [];
    }
  }

  /** A leading underscore hides a segment boundary: for lower-case letters
      a and b, the lists ["a", "_b"] and ["ab"] get the same error identifier,
      "Err" + upper-case a + b + "Env" (["x", "_y"] and ["xy"] both give
      "ErrXyEnv"). */
  lemma {:induction false} ErrKeyBoundaryCollision(a: char, b: char)
    requires IsLower(a) && IsLower(b)
    ensures ErrKey([[a], ['_', b]]) == ErrKey([[a, b]]) == "Err" + [ToUpperChar(a), b] + "Env"
  {
    ErrCharCases(a, 0);
    ErrCharCases(b, 1);
    ErrCharCases('_', 0);
    var x := ErrSegment([a]);
    assert x == [ToUpperChar(a)] by {
      assert [a][..0] == "";
      assert x == ErrSegment("") + ErrChar(a, 0);
      assert IsLetter(a);
    }
    assert ErrSegment([a, b]) == x + [b] by {
      assert [a, b][..1] == [a];
    }
    assert ErrSegment(['_', b]) == [b] by {
      assert ['_', b][..1] == ['_'];
      assert ['_'][..0] == "";
    }
    assert ErrBody([[a], ['_', b]]) == ErrBody([[a]]) + [b] by {
      assert [[a], ['_', b]][..1] == [[a]];
    }
    assert ErrBody([[a]]) == x by {
      assert [[a]][..0] == [];
    }
    assert ErrBody([[a, b]]) == x + [b] by {
      assert [[a, b]][..0] == [];
    }
  }


}
