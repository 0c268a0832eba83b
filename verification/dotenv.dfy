/** The .env skeleton both generators write next to the loader: one `KEY=`
    line per entry, in entry order. The generators hand over the keys of their
    entries; creating and writing the file is not modelled. */
module Dotenv {
  import opened Wrappers
  import opened Strs

  function DotenvOf(keys: seq<string>): string
  {
    if |keys| == 0 then "" else keys[0] + "=\n" + DotenvOf(keys[1..])
  }

  /** The lines of the .env file without their line breaks. */
  function DotenvLines(keys: seq<string>): (r: seq<string>)
    ensures |r| == |keys| && forall i :: 0 <= i < |keys| ==> r[i] == keys[i] + "="
  {
    seq(|keys|, i requires 0 <= i < |keys| => keys[i] + "=")
  }

  /** The loop writing one `KEY=` line per key. */
  method WriteDotenv(keys: seq<string>) returns (contents: string)
    ensures contents == DotenvOf(keys)
  {
    contents := "";
    for i := 0 to |keys|
      invariant contents == DotenvOf(keys[..i])
    {
      DotenvSnoc(keys[..i + 1]);
      assert keys[..i + 1][..i] == keys[..i];
      contents := contents + keys[i] + "=\n";
    }
    assert keys[..|keys|] == keys;
  }

  lemma {:induction false} DotenvSnoc(keys: seq<string>)
    requires |keys| > 0
    ensures DotenvOf(keys) == DotenvOf(keys[..|keys| - 1]) + keys[|keys| - 1] + "=\n"
  {
    if |keys| > 1 {
      var tail := keys[1..];
      DotenvSnoc(tail);
      assert tail[..|tail| - 1] == keys[..|keys| - 1][1..];
    }
  }

  /** Splitting the .env contents at line breaks gives back one `KEY=` line per
      key (and the empty piece after the final line break), provided no key
      holds a line break. */
  lemma {:induction false} DotenvSplitsIntoLines(keys: seq<string>)
    requires forall i :: 0 <= i < |keys| ==> '\n' !in keys[i]
    ensures Split(DotenvOf(keys), '\n') == DotenvLines(keys) + [""]
  {
    if |keys| == 0 {
      assert '\n' !in "";
    } else {
      var tail := keys[1..];
      var line := keys[0] + "=";
      assert forall i :: 0 <= i < |tail| ==> tail[i] == keys[i + 1];
      DotenvSplitsIntoLines(tail);
      assert '\n' !in line by {
        assert line == keys[0] + ['='];
      }
      assert DotenvOf(keys) == line + ['\n'] + DotenvOf(tail) by {
        assert keys[0] + "=\n" == line + ['\n'];
      }
      SplitFirst(line, '\n', DotenvOf(tail));
      DotenvLinesCons(keys);
      AppendAssociative([line], DotenvLines(tail), [""]);
    }
  }

  lemma {:induction false} DotenvLinesCons(keys: seq<string>)
    requires |keys| > 0
    ensures DotenvLines(keys) == [keys[0] + "="] + DotenvLines(keys[1..])
  {
    var r := [keys[0] + "="] + DotenvLines(keys[1..]);
    forall i | 0 <= i < |keys| ensures DotenvLines(keys)[i] == r[i] {
      if i > 0 {
        assert r[i] == DotenvLines(keys[1..])[i - 1];
      }
    }
  }
}
