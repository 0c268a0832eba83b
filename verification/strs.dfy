/** Character classes, case mapping and the few string operations the generator
    uses (strings.Join, strings.TrimSuffix, strings.HasPrefix, byte-wise string
    order). Characters are ASCII: a letter is 'A'..'Z' or 'a'..'z', a digit '0'..'9'. */
module Strs {

  predicate IsDigit(c: char) { '0' <= c <= '9' }
  predicate IsUpper(c: char) { 'A' <= c <= 'Z' }
  predicate IsLower(c: char) { 'a' <= c <= 'z' }
  predicate IsLetter(c: char) { IsUpper(c) || IsLower(c) }

  function ToUpperChar(c: char): (r: char)
    ensures IsLetter(c) ==> IsUpper(r)
    ensures !IsLower(c) ==> r == c
  {
    if IsLower(c) then (c as int - 32) as char else c
  }

  function ToLowerChar(c: char): (r: char)
    ensures IsLetter(c) ==> IsLower(r)
    ensures !IsUpper(c) ==> r == c
  {
    if IsUpper(c) then (c as int + 32) as char else c
  }

  /** strings.ToUpper restricted to ASCII. */
  function ToUpper(s: string): (r: string)
    ensures |r| == |s|
    ensures forall i :: 0 <= i < |s| ==> r[i] == ToUpperChar(s[i])
  {
    if |s| == 0 then "" else ToUpper(s[..|s| - 1]) + [ToUpperChar(s[|s| - 1])]
  }

  /** strings.ToLower restricted to ASCII. */
  function ToLower(s: string): (r: string)
    ensures |r| == |s|
    ensures forall i :: 0 <= i < |s| ==> r[i] == ToLowerChar(s[i])
  {
    if |s| == 0 then "" else ToLower(s[..|s| - 1]) + [ToLowerChar(s[|s| - 1])]
  }

  predicate NoLower(s: string) { forall i :: 0 <= i < |s| ==> !IsLower(s[i]) }
  predicate NoUpper(s: string) { forall i :: 0 <= i < |s| ==> !IsUpper(s[i]) }

  lemma {:induction false} ToUpperAppend(a: string, b: string)
    ensures ToUpper(a + b) == ToUpper(a) + ToUpper(b)
  {
    assert forall i :: 0 <= i < |a + b| ==> ToUpper(a + b)[i] == (ToUpper(a) + ToUpper(b))[i];
  }

  lemma {:induction false} ToLowerAppend(a: string, b: string)
    ensures ToLower(a + b) == ToLower(a) + ToLower(b)
  {
    assert forall i :: 0 <= i < |a + b| ==> ToLower(a + b)[i] == (ToLower(a) + ToLower(b))[i];
  }

  /** strings.Join: the segments with `sep` between consecutive ones. */
  function Join(segs: seq<string>, sep: string): string
  {
    if |segs| == 0 then ""
    else if |segs| == 1 then segs[0]
    else segs[0] + sep + Join(segs[1..], sep)
  }

  lemma {:induction false} JoinSnoc(segs: seq<string>, last: string, sep: string)
    requires |segs| > 0
    ensures Join(segs + [last], sep) == Join(segs, sep) + sep + last
  {
    if |segs| > 1 {
      assert (segs + [last])[1..] == segs[1..] + [last];
      JoinSnoc(segs[1..], last, sep);
    } else {
      assert (segs + [last])[1..] == [last];
    }
  }

  /** A character in neither the separator nor any segment is not in the join. */
  lemma {:induction false} JoinExcludes(segs: seq<string>, sep: string, c: char)
    requires c !in sep
    requires forall i :: 0 <= i < |segs| ==> c !in segs[i]
    ensures c !in Join(segs, sep)
  {
    if |segs| > 1 {
      assert forall i :: 0 <= i < |segs[1..]| ==> segs[1..][i] == segs[i + 1];
      JoinExcludes(segs[1..], sep, c);
    }
  }

  /** strings.TrimSuffix: removes `suffix` once, when `s` ends with it. */
  function TrimSuffix(s: string, suffix: string): string
  {
    if |suffix| <= |s| && s[|s| - |suffix|..] == suffix then s[..|s| - |suffix|] else s
  }

  /** strings.HasPrefix. */
  predicate HasPrefix(s: string, prefix: string)
  {
    |prefix| <= |s| && s[..|prefix|] == prefix
  }

  /** `t` occurs in `s` starting at position `i`. */
  predicate OccursAt(s: string, t: string, i: int)
  {
    0 <= i <= |s| - |t| && s[i..i + |t|] == t
  }

  /** `t` occurs in `s` as a contiguous piece (strings.Contains). */
  ghost predicate Contains(s: string, t: string)
  {
    exists i :: OccursAt(s, t, i)
  }

  /** Every segment of a join occurs in the joined string. */
  lemma {:induction false} JoinContains(segs: seq<string>, sep: string, k: nat)
    requires k < |segs|
    ensures Contains(Join(segs, sep), segs[k])
  {
    var j := Join(segs, sep);
    if |segs| == 1 || k == 0 {
      assert OccursAt(j, segs[k], 0);
    } else {
      JoinContains(segs[1..], sep, k - 1);
      var rest := Join(segs[1..], sep);
      var i :| OccursAt(rest, segs[k], i);
      var off := |segs[0]| + |sep|;
      assert j == segs[0] + sep + rest;
      assert j[off + i..off + i + |segs[k]|] == rest[i..i + |segs[k]|];
      assert OccursAt(j, segs[k], off + i);
    }
  }

  /** All occurrences of `c` removed. */
  function Without(s: string, c: char): (r: string)
    ensures c !in r
  {
    if |s| == 0 then "" else Without(s[..|s| - 1], c) + (if s[|s| - 1] == c then "" else [s[|s| - 1]])
  }

  lemma {:induction false} WithoutAppend(a: string, b: string, c: char)
    ensures Without(a + b, c) == Without(a, c) + Without(b, c)
  {
    if |b| == 0 {
      assert a + b == a;
    } else {
      assert (a + b)[..|a + b| - 1] == a + b[..|b| - 1];
      WithoutAppend(a, b[..|b| - 1], c);
    }
  }

  lemma {:induction false} WithoutAbsent(s: string, c: char)
    requires c !in s
    ensures Without(s, c) == s
  {
    if |s| > 0 {
      var init := s[..|s| - 1];
      assert forall i :: 0 <= i < |init| ==> init[i] == s[i];
      assert c !in init;
      WithoutAbsent(init, c);
      assert s == init + [s[|s| - 1]];
    }
  }

  /** Position of the first `c` in `s`. */
  function IndexOf(s: string, c: char): (k: nat)
    requires c in s
    ensures k < |s| && s[k] == c && c !in s[..k]
  {
    if s[0] == c then 0 else 1 + IndexOf(s[1..], c)
  }

  /** strings.Split on a one-character separator. */
  function Split(s: string, c: char): (parts: seq<string>)
    ensures |parts| > 0
    decreases |s|
  {
    if c !in s then [s]
    else
      var k := IndexOf(s, c);
      [s[..k]] + Split(s[k + 1..], c)
  }

  /** The first separator after a separator-free piece is the one right after it. */
  lemma {:induction false} IndexOfAfter(a: string, c: char, b: string)
    requires c !in a
    ensures c in a + [c] + b && IndexOf(a + [c] + b, c) == |a|
  {
    var s := a + [c] + b;
    assert s[|a|] == c;
    if |a| > 0 {
      assert a[0] != c;
      assert forall i :: 0 <= i < |a[1..]| ==> a[1..][i] == a[i + 1];
      IndexOfAfter(a[1..], c, b);
      assert s[1..] == a[1..] + [c] + b;
    }
  }

  /** Splitting at the first separator peels off the separator-free piece before it. */
  lemma {:induction false} SplitFirst(a: string, c: char, rest: string)
    requires c !in a
    ensures Split(a + [c] + rest, c) == [a] + Split(rest, c)
  {
    var s := a + [c] + rest;
    IndexOfAfter(a, c, rest);
    assert s[..|a|] == a;
    assert s[|a| + 1..] == rest;
  }

  /** Splitting a join on its one-character separator gives the segments back,
      provided no segment contains the separator. */
  lemma {:induction false} SplitJoin(segs: seq<string>, c: char)
    requires |segs| > 0
    requires forall i :: 0 <= i < |segs| ==> c !in segs[i]
    ensures Split(Join(segs, [c]), c) == segs
  {
    if |segs| == 1 {
      assert Join(segs, [c]) == segs[0];
    } else {
      var tail := segs[1..];
      assert forall i :: 0 <= i < |tail| ==> c !in tail[i] by {
        forall i | 0 <= i < |tail| ensures c !in tail[i] {
          assert tail[i] == segs[i + 1];
        }
      }
      SplitJoin(tail, c);
      SplitFirst(segs[0], c, Join(tail, [c]));
      assert segs == [segs[0]] + tail;
    }
  }

  /** Byte-wise lexicographic order on strings, as Go's `<` and `slices.Sort`
      compare them. */
  predicate StrLeq(a: string, b: string)
  {
    |a| == 0 || (|b| > 0 && (a[0] < b[0] || (a[0] == b[0] && StrLeq(a[1..], b[1..]))))
  }

  lemma {:induction false} StrLeqTotal(a: string, b: string)
    ensures StrLeq(a, b) || StrLeq(b, a)
  {
    if |a| > 0 && |b| > 0 && a[0] == b[0] {
      StrLeqTotal(a[1..], b[1..]);
    }
  }

  lemma {:induction false} StrLeqAntisymmetric(a: string, b: string)
    requires StrLeq(a, b) && StrLeq(b, a)
    ensures a == b
  {
    if |a| > 0 {
      StrLeqAntisymmetric(a[1..], b[1..]);
      assert a == [a[0]] + a[1..];
      assert b == [b[0]] + b[1..];
    }
  }

  lemma {:induction false} StrLeqTransitive(a: string, b: string, c: string)
    requires StrLeq(a, b) && StrLeq(b, c)
    ensures StrLeq(a, c)
  {
    if |a| > 0 && a[0] == b[0] && b[0] == c[0] {
      StrLeqTransitive(a[1..], b[1..], c[1..]);
    }
  }

  lemma {:induction false} StrLeqReflexive(a: string)
    ensures StrLeq(a, a)
  {
    if |a| > 0 {
      StrLeqReflexive(a[1..]);
    }
  }

  predicate Sorted(s: seq<string>)
  {
    forall i, j :: 0 <= i < j < |s| ==> StrLeq(s[i], s[j])
  }

  lemma {:induction false} SortedTail(a: seq<string>)
    requires |a| > 0 && Sorted(a)
    ensures Sorted(a[1..])
  {
    forall p, q | 0 <= p < q < |a[1..]| ensures StrLeq(a[1..][p], a[1..][q]) {
      assert a[1..][p] == a[p + 1] && a[1..][q] == a[q + 1];
    }
  }

  /** A sorted sequence is determined by its multiset of elements: this is why
      sorting makes the rendered import list independent of map order. */
  lemma {:induction false} SortedUnique(a: seq<string>, b: seq<string>)
    requires Sorted(a) && Sorted(b)
    requires multiset(a) == multiset(b)
    ensures a == b
  {
    if |a| == 0 {
      assert |b| == |multiset(b)| == 0;
    } else {
      assert a[0] in multiset(a);
      assert a[0] in b;
      var j :| 0 <= j < |b| && b[j] == a[0];
      assert b[0] in multiset(b);
      assert b[0] in a;
      var i :| 0 <= i < |a| && a[i] == b[0];
      assert StrLeq(b[0], a[0]) by {
        if j > 0 { assert StrLeq(b[0], b[j]); } else { StrLeqReflexive(b[0]); }
      }
      assert StrLeq(a[0], b[0]) by {
        if i > 0 { assert StrLeq(a[0], a[i]); } else { StrLeqReflexive(a[0]); }
      }
      StrLeqAntisymmetric(a[0], b[0]);
      assert a == [a[0]] + a[1..];
      assert b == [b[0]] + b[1..];
      assert multiset(a) == multiset{a[0]} + multiset(a[1..]);
      assert multiset(b) == multiset{b[0]} + multiset(b[1..]);
      assert multiset(a[1..]) == multiset(a) - multiset{a[0]};
      assert multiset(b[1..]) == multiset(b) - multiset{b[0]};
      SortedTail(a);
      SortedTail(b);
      SortedUnique(a[1..], b[1..]);
    }
  }
}
