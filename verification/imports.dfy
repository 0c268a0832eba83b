/** The import block of the generated loader: the packages every loader needs,
    plus those the fields' parse functions bring in, rendered one per line in
    sorted order (generateImportsListAsTemplateString). */
module Imports {
  import opened Strs

  /** The import set the recursive generator starts from (setupImportsAlwaysNeeded). */
  const InternalAlwaysNeeded: set<string> := {"\"os\"", "\"strings\"", "\"errors\""}

  /** The import set the flat generator starts from (setupImportsAlwaysNeeded). */
  const LegacyAlwaysNeeded: set<string> := {"\"fmt\"", "\"os\"", "\"strings\""}

  /** What separates two imports in the rendered list: a newline and the
      template's four-space indentation. */
  const ImportSeparator: string := "\n    "

  /** `m` is the least element of `s`. */
  ghost predicate IsLeast(m: string, s: set<string>)
  {
    m in s && forall y :: y in s ==> StrLeq(m, y)
  }

  /** Adding `x` to a set whose least element is `m`: the new least is the smaller of the two. */
  lemma {:induction false} LeastOfAdded(m: string, rest: set<string>, x: string)
    requires IsLeast(m, rest)
    ensures StrLeq(m, x) ==> IsLeast(m, rest + {x})
    ensures !StrLeq(m, x) ==> IsLeast(x, rest + {x})
  {
    if !StrLeq(m, x) {
      StrLeqTotal(m, x);
      forall y | y in rest + {x} ensures StrLeq(x, y) {
        if y == x {
          StrLeqReflexive(x);
        } else {
          StrLeqTransitive(x, m, y);
        }
      }
    }
  }

  /** The least element of a non-empty set of strings under the byte-wise order. */
  ghost function Least(s: set<string>): (m: string)
    requires s != {}
    ensures IsLeast(m, s)
    decreases |s|
  {
    var x :| x in s;
    if s == {x} then
      StrLeqReflexive(x);
      x
    else
      var m := Least(s - {x});
      LeastOfAdded(m, s - {x}, x);
      assert s - {x} + {x} == s;
      if StrLeq(m, x) then m else x
  }

  /** The elements of a set in ascending byte-wise order, each once: the order
      slices.Sort leaves the collected map keys in. */
  ghost function SortedStrings(s: set<string>): (r: seq<string>)
    ensures Sorted(r)
    ensures multiset(r) == multiset(s)
    decreases |s|
  {
    if s == {} then []
    else
      var m := Least(s);
      var rest := SortedStrings(s - {m});
      LeastThenSorted(m, s, rest);
      [m] + rest
  }

  lemma {:induction false} LeastThenSorted(m: string, s: set<string>, rest: seq<string>)
    requires IsLeast(m, s) && Sorted(rest) && multiset(rest) == multiset(s - {m})
    ensures Sorted([m] + rest)
    ensures multiset([m] + rest) == multiset(s)
  {
    forall x | x in rest ensures StrLeq(m, x) {
      assert x in multiset(rest);
    }
    var out := [m] + rest;
    forall p, q | 0 <= p < q < |out| ensures StrLeq(out[p], out[q]) {
      assert out[q] == rest[q - 1];
      if p > 0 {
        assert out[p] == rest[p - 1];
      }
    }
    assert s == (s - {m}) + {m};
  }

  /** The rendered import list of an import set. */
  ghost function ImportList(s: set<string>): string
  {
    Join(SortedStrings(s), ImportSeparator)
  }

  /** The collected keys of the import map: each once, in any order. */
  lemma {:induction false} SortedOfSetIsSortedStrings(s: set<string>, pkgs: seq<string>)
    requires Sorted(pkgs) && multiset(pkgs) == multiset(s)
    ensures pkgs == SortedStrings(s)
  {
    SortedUnique(pkgs, SortedStrings(s));
  }

  /** slices.Sort on a slice of strings: the sorted rearrangement of its elements.
      Each element is inserted into the sorted prefix built so far. */
  method SortStrings(a: seq<string>) returns (r: seq<string>)
    ensures Sorted(r)
    ensures multiset(r) == multiset(a)
  {
    r := [];
    for i := 0 to |a|
      invariant Sorted(r)
      invariant multiset(r) == multiset(a[..i])
    {
      r := InsertSorted(r, a[i]);
      assert a[..i + 1] == a[..i] + [a[i]];
    }
    assert a[..|a|] == a;
  }

  /** Inserts `x` into the sorted sequence `r` before the first element above it. */
  method InsertSorted(r: seq<string>, x: string) returns (out: seq<string>)
    requires Sorted(r)
    ensures Sorted(out)
    ensures multiset(out) == multiset(r) + multiset{x}
  {
    var k := 0;
    while k < |r| && StrLeq(r[k], x)
      invariant 0 <= k <= |r|
      invariant forall j :: 0 <= j < k ==> StrLeq(r[j], x)
    {
      k := k + 1;
    }
    if k < |r| {
      StrLeqTotal(x, r[k]);
    }
    out := r[..k] + [x] + r[k..];
    InsertedSorted(r, k, x);
    assert r == r[..k] + r[k..];
  }

  /** Placing `x` after every element not above it and before the rest keeps a
      sequence sorted. */
  lemma {:induction false} InsertedSorted(r: seq<string>, k: nat, x: string)
    requires Sorted(r) && k <= |r|
    requires forall j :: 0 <= j < k ==> StrLeq(r[j], x)
    requires k < |r| ==> StrLeq(x, r[k])
    ensures Sorted(r[..k] + [x] + r[k..])
  {
    var out := r[..k] + [x] + r[k..];
    forall p, q | 0 <= p < q < |out| ensures StrLeq(out[p], out[q]) {
      if q == k {
        assert out[p] == r[p];
      } else if p == k {
        assert out[q] == r[q - 1];
        if q - 1 > k {
          StrLeqTransitive(x, r[k], r[q - 1]);
        }
      } else {
        var p' := if p < k then p else p - 1;
        var q' := if q < k then q else q - 1;
        assert out[p] == r[p'] && out[q] == r[q'];
      }
    }
  }

  /** generateImportsListAsTemplateString: the map keys are collected in the
      map's (unspecified) iteration order, sorted and joined one per line. The
      result depends on the set alone. */
  method GenerateImportsListAsTemplateString(outputImports: set<string>) returns (importList: string)
    ensures importList == ImportList(outputImports)
  {
    var pkgs: seq<string> := [];
    var remaining := outputImports;
    while remaining != {}
      invariant remaining <= outputImports
      invariant multiset(pkgs) == multiset(outputImports - remaining)
      decreases |remaining|
    {
      var p :| p in remaining;
      assert outputImports - (remaining - {p}) == (outputImports - remaining) + {p};
      pkgs := pkgs + [p];
      remaining := remaining - {p};
    }
    assert outputImports - remaining == outputImports;
    pkgs := SortStrings(pkgs);
    SortedOfSetIsSortedStrings(outputImports, pkgs);
    importList := Join(pkgs, ImportSeparator);
  }

  /** A sequence with the multiset of a set holds every element of the set
      exactly once; so does the rendered list, whose pieces are SortedStrings(s). */
  lemma {:induction false} EntriesOfSet(r: seq<string>, s: set<string>)
    requires multiset(r) == multiset(s)
    ensures |r| == |s|
    ensures forall p :: p in r <==> p in s
    ensures forall i, j :: 0 <= i < j < |r| ==> r[i] != r[j]
  {
    assert |r| == |multiset(r)| == |multiset(s)| == |s|;
    forall p ensures p in r <==> p in s {
      assert p in r <==> p in multiset(r);
    }
    forall i, j | 0 <= i < j < |r| ensures r[i] != r[j] {
      if r[i] == r[j] {
        TwoOccurrences(r, i, j);
        assert false;
      }
    }
  }

  lemma {:induction false} TwoOccurrences(r: seq<string>, i: nat, j: nat)
    requires i < j < |r| && r[i] == r[j]
    ensures multiset(r)[r[i]] >= 2
  {
    assert r == r[..i] + [r[i]] + r[i + 1..j] + [r[j]] + r[j + 1..];
  }

  /** Two strings that agree before position k and differ at k are ordered by
      their characters at k. */
  lemma {:induction false} FirstDifference(a: string, b: string, k: nat)
    requires k < |a| && k < |b| && a[..k] == b[..k] && a[k] < b[k]
    ensures StrLeq(a, b)
  {
    if k > 0 {
      assert a[0] == a[..k][0] == b[..k][0] == b[0];
      assert a[1..][..k - 1] == a[1..k] == a[..k][1..];
      assert b[1..][..k - 1] == b[1..k] == b[..k][1..];
      FirstDifference(a[1..], b[1..], k - 1);
    }
  }

  /** The four imports of a loader with strconv-parsed fields, in byte order. */
  lemma {:induction false} StrconvImportsSorted()
    ensures Sorted(["\"errors\"", "\"os\"", "\"strconv\"", "\"strings\""])
  {
    var e, o, c, s := "\"errors\"", "\"os\"", "\"strconv\"", "\"strings\"";
    FirstDifference(e, o, 1);
    FirstDifference(o, c, 1);
    assert c[..4] == s[..4];
    FirstDifference(c, s, 4);
    StrLeqTransitive(e, o, c);
    StrLeqTransitive(e, c, s);
    StrLeqTransitive(o, c, s);
  }

  /** A loader whose fields parse with strconv imports exactly errors, os,
      strconv and strings, in that order. */
  lemma {:induction false} StrconvImportListExample()
    ensures ImportList(InternalAlwaysNeeded + {"\"strconv\""})
         == Join(["\"errors\"", "\"os\"", "\"strconv\"", "\"strings\""], ImportSeparator)
  {
    var list := ["\"errors\"", "\"os\"", "\"strconv\"", "\"strings\""];
    StrconvImportsSorted();
    SortedOfSetIsSortedStrings(InternalAlwaysNeeded + {"\"strconv\""}, list);
  }
}
