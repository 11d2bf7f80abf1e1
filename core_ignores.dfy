/**
 * The hard-coded ignore tables and the listing that prints them.
 */
module CoreTables {
  import opened Text
  import opened Glob
  import opened Patterns
  import opened Output

  /** Excluded in both tree and source mode. */
  const CoreIgnores: seq<string> := ["Thumbs.db", "__pycache__"]

  /** Excluded in source mode only. */
  const CoreSourceIgnores: seq<string> := [
    "go.sum", "vendor", "node_modules", "package-lock.json", "yarn.lock",
    "npm-debug.log", "__pycache__", "*.pyc", "*.pyo", "*.pyd", "*.egg-info",
    "build", "dist", "*.class", "target", "*.jar", "*.war", "*.ear",
    "Gemfile.lock", ".bundle", "*.o", "*.obj", "*.exe", "*.so", "*.dSYM",
    "CMakeCache.txt", "CMakeFiles", "bin", "obj"
  ]

  const BothModesHeader := "Core Ignores (Both Tree and Source Modes):"
  const SourceModeHeader := "Core Ignores (Only for Source Mode):"

  /** One `"  %s\n"` chunk per pattern, in table order. */
  function Indented(patterns: seq<string>): (r: seq<Chunk>)
    ensures |r| == |patterns|
    ensures forall k :: 0 <= k < |r| ==> r[k] == Text("  " + patterns[k] + "\n")
  {
    if patterns == [] then []
    else Indented(patterns[..|patterns| - 1]) + [Text("  " + patterns[|patterns| - 1] + "\n")]
  }

  /** What PrintCoreIgnores writes, one chunk per Fprintln/Fprintf call. */
  function ListingChunks(both: seq<string>, sourceOnly: seq<string>): seq<Chunk> {
    [Text(BothModesHeader + "\n")] + Indented(both)
      + [Text("\n" + SourceModeHeader + "\n")] + Indented(sourceOnly)
  }

  /** The listing as lines (the second header call contributes a blank line and the header). */
  function ListingLines(both: seq<string>, sourceOnly: seq<string>): seq<string> {
    [BothModesHeader] + IndentedLines(both) + ["", SourceModeHeader] + IndentedLines(sourceOnly)
  }

  function IndentedLines(patterns: seq<string>): (r: seq<string>)
    ensures |r| == |patterns|
    ensures forall k :: 0 <= k < |r| ==> r[k] == "  " + patterns[k]
  {
    if patterns == [] then []
    else IndentedLines(patterns[..|patterns| - 1]) + ["  " + patterns[|patterns| - 1]]
  }

  /** The text of a sequence of text chunks. */
  function TextOf(cs: seq<Chunk>): string {
    if cs == [] then []
    else TextOf(cs[..|cs| - 1]) + match cs[|cs| - 1] { case Text(s) => s case Data(_) => [] }
  }

  /** Lines joined, each followed by a newline. */
  function Unlines(ls: seq<string>): string {
    if ls == [] then [] else Unlines(ls[..|ls| - 1]) + ls[|ls| - 1] + "\n"
  }

  lemma {:induction false} TextOfAppend(a: seq<Chunk>, b: seq<Chunk>)
    ensures TextOf(a + b) == TextOf(a) + TextOf(b)
    decreases |b|
  {
    if b == [] {
      assert a + b == a;
    } else {
      assert (a + b)[..|a + b| - 1] == a + b[..|b| - 1];
      TextOfAppend(a, b[..|b| - 1]);
    }
  }

  lemma {:induction false} UnlinesAppend(a: seq<string>, b: seq<string>)
    ensures Unlines(a + b) == Unlines(a) + Unlines(b)
    decreases |b|
  {
    if b == [] {
      assert a + b == a;
    } else {
      assert (a + b)[..|a + b| - 1] == a + b[..|b| - 1];
      UnlinesAppend(a, b[..|b| - 1]);
    }
  }

  lemma {:induction false} IndentedText(patterns: seq<string>)
    ensures TextOf(Indented(patterns)) == Unlines(IndentedLines(patterns))
    decreases |patterns|
  {
    if patterns != [] {
      var pre := patterns[..|patterns| - 1];
      var last := "  " + patterns[|patterns| - 1];
      IndentedText(pre);
      TextOfAppend(Indented(pre), [Text(last + "\n")]);
      assert TextOf([Text(last + "\n")]) == last + "\n" by {
        assert [Text(last + "\n")][..0] == [];
      }
      UnlinesAppend(IndentedLines(pre), [last]);
      assert Unlines([last]) == last + "\n" by {
        assert [last][..0] == [];
      }
    }
  }

  /**
   * The listing of two tables is their lines: the first header, each entry
   * of the first table indented, a blank line, the second header, each entry
   * of the second table indented, in table order.
   */
  lemma ListingShape(both: seq<string>, sourceOnly: seq<string>)
    ensures TextOf(ListingChunks(both, sourceOnly)) == Unlines(ListingLines(both, sourceOnly))
    ensures |ListingLines(both, sourceOnly)| == |both| + |sourceOnly| + 3
    ensures ListingLines(both, sourceOnly)[0] == BothModesHeader
    ensures forall k :: 0 <= k < |both| ==> ListingLines(both, sourceOnly)[1 + k] == "  " + both[k]
    ensures ListingLines(both, sourceOnly)[|both| + 1] == ""
    ensures ListingLines(both, sourceOnly)[|both| + 2] == SourceModeHeader
    ensures forall k :: 0 <= k < |sourceOnly| ==>
      ListingLines(both, sourceOnly)[|both| + 3 + k] == "  " + sourceOnly[k]
  {
    ListingText(both, sourceOnly);
    var l1 := [BothModesHeader];
    var la := IndentedLines(both);
    var l2 := ["", SourceModeHeader];
    var lb := IndentedLines(sourceOnly);
    var lines := l1 + la + l2 + lb;
    forall k | 0 <= k < |both|
      ensures lines[1 + k] == "  " + both[k]
    {
      assert lines[1 + k] == la[k];
    }
    forall k | 0 <= k < |sourceOnly|
      ensures lines[|both| + 3 + k] == "  " + sourceOnly[k]
    {
      assert lines[|both| + 3 + k] == lb[k];
    }
  }

  lemma ListingText(both: seq<string>, sourceOnly: seq<string>)
    ensures TextOf(ListingChunks(both, sourceOnly)) == Unlines(ListingLines(both, sourceOnly))
  {
    var h1 := [Text(BothModesHeader + "\n")];
    var a := Indented(both);
    var h2 := [Text("\n" + SourceModeHeader + "\n")];
    var b := Indented(sourceOnly);
    var l1 := [BothModesHeader];
    var la := IndentedLines(both);
    var l2 := ["", SourceModeHeader];
    var lb := IndentedLines(sourceOnly);
    HeaderTexts();
    IndentedText(both);
    IndentedText(sourceOnly);
    TextOfAppend(h1 + a + h2, b);
    TextOfAppend(h1 + a, h2);
    TextOfAppend(h1, a);
    UnlinesAppend(l1 + la + l2, lb);
    UnlinesAppend(l1 + la, l2);
    UnlinesAppend(l1, la);
    assert TextOf(h1 + a + h2 + b) == TextOf(h1) + TextOf(a) + TextOf(h2) + TextOf(b);
    assert Unlines(l1 + la + l2 + lb) == Unlines(l1) + Unlines(la) + Unlines(l2) + Unlines(lb);
  }

  lemma HeaderTexts()
    ensures TextOf([Text(BothModesHeader + "\n")]) == Unlines([BothModesHeader])
    ensures TextOf([Text("\n" + SourceModeHeader + "\n")]) == Unlines(["", SourceModeHeader])
  {
    var h1 := [Text(BothModesHeader + "\n")];
    var h2 := [Text("\n" + SourceModeHeader + "\n")];
    assert h1[..0] == [] && h2[..0] == [];
    var l1 := [BothModesHeader];
    var l2 := ["", SourceModeHeader];
    assert l1[..0] == [];
    assert l2[..1] == [""] && [""][..0] == [];
    assert Unlines([""]) == "\n";
  }

  /** For the two core tables the listing is 34 lines. */
  lemma CoreListingLength()
    ensures |ListingLines(CoreIgnores, CoreSourceIgnores)| == 34
  {
    ListingShape(CoreIgnores, CoreSourceIgnores);
  }

  /** One indented line per pattern. */
  method PrintIndented(w: Writer, patterns: seq<string>)
    modifies w
    ensures w.chunks == old(w.chunks) + Indented(patterns)
  {
    for i := 0 to |patterns|
      invariant w.chunks == old(w.chunks) + Indented(patterns[..i])
    {
      w.WriteString("  " + patterns[i] + "\n");
      assert patterns[..i + 1][..i] == patterns[..i];
    }
    assert patterns[..|patterns|] == patterns;
  }

  /** PrintCoreIgnores: the header, the core table, the second header, the source table. */
  method PrintCoreIgnores(w: Writer)
    modifies w
    ensures w.chunks == old(w.chunks) + ListingChunks(CoreIgnores, CoreSourceIgnores)
  {
    ghost var h1 := [Text(BothModesHeader + "\n")];
    ghost var h2 := [Text("\n" + SourceModeHeader + "\n")];
    ghost var a := Indented(CoreIgnores);
    ghost var b := Indented(CoreSourceIgnores);
    w.Println(BothModesHeader);
    assert w.chunks == old(w.chunks) + h1;
    PrintIndented(w, CoreIgnores);
    assert w.chunks == old(w.chunks) + h1 + a;
    w.Println("\n" + SourceModeHeader);
    assert w.chunks == old(w.chunks) + h1 + a + h2;
    PrintIndented(w, CoreSourceIgnores);
    assert w.chunks == old(w.chunks) + (h1 + a + h2 + b);
  }

  /** Both core patterns are literal names without '/': they match whole path segments. */
  lemma CoreIgnoresAreSegments(k: nat, path: string)
    requires k < |CoreIgnores|
    ensures MatchPattern(CoreIgnores[k], path) <==> exists i :: DelimitedAt(path, CoreIgnores[k], '/', i)
  {
    var p := CoreIgnores[k];
    assert !ContainsAny(p, "*?[") && '/' !in p;
    LiteralSegment(p, path);
  }

  /** The entries of the source table that start with `*`: the rest are literal names. */
  const StarEntries: set<nat> := {7, 8, 9, 10, 13, 15, 16, 17, 20, 21, 22, 23, 24}

  /** Every `*` entry is `*` and a plain suffix without '/'. */
  lemma StarEntryShape(k: nat)
    requires k in StarEntries
    ensures var p := CoreSourceIgnores[k];
      |p| >= 2 && p[0] == '*' && forall j :: 1 <= j < |p| ==> Plain(p[j]) && p[j] != '/'
  {
  }

  /**
   * So each of them, e.g. `*.pyc`, rejects exactly the paths whose base
   * name ends with its suffix, at any depth.
   */
  lemma SourceWildcardByBaseName(k: nat, path: string)
    requires k in StarEntries
    ensures k < |CoreSourceIgnores| && |CoreSourceIgnores[k]| >= 2
    ensures MatchPattern(CoreSourceIgnores[k], path) <==> HasSuffix(Base(path), CoreSourceIgnores[k][1..])
  {
    var p := CoreSourceIgnores[k];
    StarEntryShape(k);
    var suffix := p[1..];
    assert p == "*" + suffix;
    StarSuffixPattern(suffix, path);
  }
}
