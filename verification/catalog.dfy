/** The type catalog of the recursive generator (getAllTopLevelStructDefinitions):
    every top-level `type X struct{...}` of the parsed file, indexed by name. */
module Catalog {
  import opened Wrappers
  import opened GoAst

  /** The struct definitions among the specs of one `type` declaration, in order.
      A spec that is not a type spec, or whose type is not a struct literal
      (an alias `type A = B`, a defined type `type A B`), contributes nothing. */
  function StructSpecsOf(specs: seq<Spec>): seq<(string, StructType)>
  {
    if |specs| == 0 then []
    else
      var sp := specs[|specs| - 1];
      StructSpecsOf(specs[..|specs| - 1])
        + (if sp.TypeSpec? && sp.ty.Struct? then [(sp.name, sp.ty.st)] else [])
  }

  /** The struct definitions of a file's top-level declarations, in order. */
  function StructSpecs(decls: seq<Decl>): seq<(string, StructType)>
  {
    if |decls| == 0 then []
    else
      var d := decls[|decls| - 1];
      StructSpecs(decls[..|decls| - 1])
        + (if d.GenDecl? && d.tok == TypeTok then StructSpecsOf(d.specs) else [])
  }

  /** A map filled from a list of entries in order: a later entry for the same
      name overwrites an earlier one. */
  function MapFrom(entries: seq<(string, StructType)>): map<string, StructType>
  {
    if |entries| == 0 then map[]
    else
      var e := entries[|entries| - 1];
      MapFrom(entries[..|entries| - 1])[e.0 := e.1]
  }

  /** The catalog of a file. */
  function CatalogOf(file: File): map<string, StructType>
  {
    MapFrom(StructSpecs(file.decls))
  }

  /** getAllTopLevelStructDefinitions. */
  method GetAllTopLevelStructDefinitions(node: File) returns (all: map<string, StructType>)
    ensures all == CatalogOf(node)
  {
    all := map[];
    ghost var seen: seq<(string, StructType)> := [];
    for i := 0 to |node.decls|
      invariant seen == StructSpecs(node.decls[..i])
      invariant all == MapFrom(seen)
    {
      var decl := node.decls[i];
      assert node.decls[..i + 1][..i] == node.decls[..i];
      if !decl.GenDecl? || decl.tok != TypeTok {
        continue;
      }
      all := AddStructSpecs(all, seen, decl.specs);
      seen := seen + StructSpecsOf(decl.specs);
    }
    assert node.decls[..|node.decls|] == node.decls;
  }

  /** The inner loop over the specs of one `type` declaration: each struct
      definition is stored under its name. */
  method AddStructSpecs(all0: map<string, StructType>, ghost seen: seq<(string, StructType)>, specs: seq<Spec>)
    returns (all: map<string, StructType>)
    requires all0 == MapFrom(seen)
    ensures all == MapFrom(seen + StructSpecsOf(specs))
  {
    all := all0;
    assert seen + StructSpecsOf(specs[..0]) == seen;
    for j := 0 to |specs|
      invariant all == MapFrom(seen + StructSpecsOf(specs[..j]))
    {
      var spec := specs[j];
      assert specs[..j + 1][..j] == specs[..j];
      if !spec.TypeSpec? || !spec.ty.Struct? {
        assert StructSpecsOf(specs[..j + 1]) == StructSpecsOf(specs[..j]);
        continue;
      }
      ghost var e := (spec.name, spec.ty.st);
      ghost var prev := seen + StructSpecsOf(specs[..j]);
      MapFromSnoc(prev, e);
      assert StructSpecsOf(specs[..j + 1]) == StructSpecsOf(specs[..j]) + [e];
      AppendAssociative(seen, StructSpecsOf(specs[..j]), [e]);
      all := all[spec.name := spec.ty.st];
      assert all == MapFrom(prev + [e]);
    }
    assert specs[..|specs|] == specs;
  }

  lemma {:induction false} MapFromSnoc(entries: seq<(string, StructType)>, e: (string, StructType))
    ensures MapFrom(entries + [e]) == MapFrom(entries)[e.0 := e.1]
  {
    assert (entries + [e])[..|entries|] == entries;
  }

  /** Some entry of the list carries `name`. */
  ghost predicate HasName(entries: seq<(string, StructType)>, name: string)
  {
    exists k :: 0 <= k < |entries| && entries[k].0 == name
  }

  lemma {:induction false} HasNameAppend(a: seq<(string, StructType)>, b: seq<(string, StructType)>, name: string)
    ensures HasName(a + b, name) <==> HasName(a, name) || HasName(b, name)
  {
    if HasName(a + b, name) {
      var k :| 0 <= k < |a + b| && (a + b)[k].0 == name;
      if k >= |a| {
        assert b[k - |a|].0 == name;
      }
    }
    if HasName(a, name) {
      var k :| 0 <= k < |a| && a[k].0 == name;
      assert (a + b)[k].0 == name;
    }
    if HasName(b, name) {
      var k :| 0 <= k < |b| && b[k].0 == name;
      assert (a + b)[|a| + k].0 == name;
    }
  }

  /** A key is in the filled map exactly when some entry carries it. */
  lemma {:induction false} MapFromKeys(entries: seq<(string, StructType)>, name: string)
    ensures name in MapFrom(entries) <==> HasName(entries, name)
  {
    if |entries| > 0 {
      var init := entries[..|entries| - 1];
      var e := entries[|entries| - 1];
      MapFromKeys(init, name);
      assert entries == init + [e];
      HasNameAppend(init, [e], name);
      assert HasName([e], name) <==> e.0 == name by {
        if e.0 == name {
          assert [e][0].0 == name;
        }
      }
    }
  }

  /** The value stored for a name is the one of its last entry. */
  lemma {:induction false} MapFromLast(entries: seq<(string, StructType)>, k: nat)
    requires k < |entries|
    requires forall l :: k < l < |entries| ==> entries[l].0 != entries[k].0
    ensures entries[k].0 in MapFrom(entries) && MapFrom(entries)[entries[k].0] == entries[k].1
  {
    var init := entries[..|entries| - 1];
    if k < |init| {
      forall l | k < l < |init| ensures init[l].0 != init[k].0 {
        assert init[l] == entries[l];
      }
      MapFromLast(init, k);
    }
  }

  /** The spec at position j of a `type` declaration defines struct `name`. */
  predicate DefinesStructAt(specs: seq<Spec>, j: int, name: string)
  {
    0 <= j < |specs| && specs[j].TypeSpec? && specs[j].name == name && specs[j].ty.Struct?
  }

  /** A `type` declaration that defines struct `name`. */
  ghost predicate DefinesStruct(d: Decl, name: string)
  {
    d.GenDecl? && d.tok == TypeTok && exists j :: DefinesStructAt(d.specs, j, name)
  }

  /** Some top-level declaration of the list defines struct `name`. */
  ghost predicate DeclaresStruct(decls: seq<Decl>, name: string)
  {
    exists i :: 0 <= i < |decls| && DefinesStruct(decls[i], name)
  }

  lemma {:induction false} StructSpecsOfNames(specs: seq<Spec>, name: string)
    ensures HasName(StructSpecsOf(specs), name) <==> exists j :: DefinesStructAt(specs, j, name)
  {
    if |specs| > 0 {
      var init := specs[..|specs| - 1];
      var sp := specs[|specs| - 1];
      var last: seq<(string, StructType)> := if sp.TypeSpec? && sp.ty.Struct? then [(sp.name, sp.ty.st)] else [];
      StructSpecsOfNames(init, name);
      HasNameAppend(StructSpecsOf(init), last, name);
      assert HasName(last, name) <==> DefinesStructAt(specs, |specs| - 1, name) by {
        if DefinesStructAt(specs, |specs| - 1, name) {
          assert last[0].0 == name;
        }
      }
      if j :| DefinesStructAt(specs, j, name) {
        if j < |init| {
          assert DefinesStructAt(init, j, name);
        }
      }
      if j :| DefinesStructAt(init, j, name) {
        assert DefinesStructAt(specs, j, name);
      }
    }
  }

  lemma {:induction false} StructSpecsNames(decls: seq<Decl>, name: string)
    ensures HasName(StructSpecs(decls), name) <==> DeclaresStruct(decls, name)
  {
    if |decls| > 0 {
      var init := decls[..|decls| - 1];
      var d := decls[|decls| - 1];
      var last := if d.GenDecl? && d.tok == TypeTok then StructSpecsOf(d.specs) else [];
      StructSpecsNames(init, name);
      HasNameAppend(StructSpecs(init), last, name);
      assert HasName(last, name) <==> DefinesStruct(d, name) by {
        if d.GenDecl? {
          StructSpecsOfNames(d.specs, name);
        }
      }
      DeclaresStructSnoc(decls, name);
    }
  }

  lemma {:induction false} DeclaresStructSnoc(decls: seq<Decl>, name: string)
    requires |decls| > 0
    ensures DeclaresStruct(decls, name)
        <==> DeclaresStruct(decls[..|decls| - 1], name) || DefinesStruct(decls[|decls| - 1], name)
  {
    var init := decls[..|decls| - 1];
    if DeclaresStruct(decls, name) {
      var i :| 0 <= i < |decls| && DefinesStruct(decls[i], name);
      if i < |init| {
        assert init[i] == decls[i];
      }
    }
    if DeclaresStruct(init, name) {
      var i :| 0 <= i < |init| && DefinesStruct(init[i], name);
      assert init[i] == decls[i];
    }
  }

  /** A name is in the catalog exactly when some top-level `type` declaration
      defines it as a struct literal; aliases and other type forms are not. */
  lemma {:induction false} CatalogKeys(file: File, name: string)
    ensures name in CatalogOf(file) <==> DeclaresStruct(file.decls, name)
  {
    MapFromKeys(StructSpecs(file.decls), name);
    StructSpecsNames(file.decls, name);
  }
}
