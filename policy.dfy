/**
 * The ignore policy (`isAllowed`): an ordered chain of rejections evaluated
 * against the configuration, and the line filter that loads user ignore
 * patterns from `.aictxignore` and `.gitignore`.
 */
module Policy {
  import opened Wrappers
  import opened Text
  import opened Glob
  import opened Patterns
  import opened Helpers
  import opened CoreTables

  /** The fields of the application record that the policy reads. */
  datatype Config = Config(
    globalInclude: string,
    globalExclude: string,
    treeInclude: string,
    treeExclude: string,
    treeShowHidden: bool,
    sourceInclude: string,
    sourceExclude: string,
    sourceShowHidden: bool,
    sourceThreshold: real,
    outFilename: string,
    noCoreIgnores: bool,
    ignorePatterns: seq<string>)

  /** cmp.Or on two strings: the first one that is not empty. */
  function Or(a: string, b: string): string {
    if a != [] then a else b
  }

  function ShowHidden(cfg: Config, isSource: bool): bool {
    if isSource then cfg.sourceShowHidden else cfg.treeShowHidden
  }

  function ModeInclude(cfg: Config, isSource: bool): string {
    if isSource then cfg.sourceInclude else cfg.treeInclude
  }

  function ModeExclude(cfg: Config, isSource: bool): string {
    if isSource then cfg.sourceExclude else cfg.treeExclude
  }

  /** The mode's include list, else the global one, else `**`. */
  function EffectiveInclude(cfg: Config, isSource: bool): string {
    Or(Or(ModeInclude(cfg, isSource), cfg.globalInclude), "**")
  }

  /** The mode's exclude list, else the global one (possibly empty). */
  function EffectiveExclude(cfg: Config, isSource: bool): string {
    Or(ModeExclude(cfg, isSource), cfg.globalExclude)
  }

  /** The path has the base name of the output file. */
  predicate IsOutputFile(cfg: Config, path: string) {
    cfg.outFilename != [] && Base(cfg.outFilename) == Base(path)
  }

  /** With hidden files off: the path or its base name starts with a dot. */
  predicate HiddenRejected(cfg: Config, path: string, isSource: bool) {
    !ShowHidden(cfg, isSource) && (IsHidden(path) || IsHidden(Base(path)))
  }

  /** Some pattern of a table matches (the tables are used untrimmed). */
  predicate MatchesSome(patterns: seq<string>, path: string) {
    exists k :: 0 <= k < |patterns| && MatchPattern(patterns[k], path)
  }

  /** Some entry, trimmed and not empty, matches. */
  predicate MatchesTrimmed(patterns: seq<string>, path: string) {
    exists k :: 0 <= k < |patterns| && TrimmedHit(patterns[k], path)
  }

  /** The entry, trimmed, is not empty and matches. */
  predicate TrimmedHit(pattern: string, path: string) {
    TrimSpace(pattern) != [] && MatchPattern(TrimSpace(pattern), path)
  }

  /** The core tables reject the path: both-mode table, then (in source mode) the source table. */
  predicate CoreRejected(cfg: Config, path: string, isSource: bool) {
    !cfg.noCoreIgnores
    && (MatchesSome(CoreIgnores, path) || (isSource && MatchesSome(CoreSourceIgnores, path)))
  }

  /** What isAllowed decides. */
  predicate Allowed(cfg: Config, path: string, isSource: bool) {
    && !IsOutputFile(cfg, path)
    && !HiddenRejected(cfg, path, isSource)
    && !CoreRejected(cfg, path, isSource)
    && !MatchesTrimmed(cfg.ignorePatterns, path)
    && MatchesTrimmed(Split(EffectiveInclude(cfg, isSource), ','), path)
    && !MatchesTrimmed(Split(EffectiveExclude(cfg, isSource), ','), path)
  }

  /** The trimmed-pattern loop shared by the user-pattern, include and exclude steps. */
  method AnyTrimmedMatch(patterns: seq<string>, path: string) returns (found: bool)
    ensures found == MatchesTrimmed(patterns, path)
  {
    for i := 0 to |patterns|
      invariant forall j :: 0 <= j < i ==> !TrimmedHit(patterns[j], path)
    {
      var pattern := TrimSpace(patterns[i]);
      if pattern == [] {
        continue;
      }
      var hit := MatchPattern(pattern, path);
      assert hit == TrimmedHit(patterns[i], path);
      if hit {
        return true;
      }
    }
    return false;
  }

  /** A core table loop: the first matching pattern rejects. */
  method AnyMatch(patterns: seq<string>, path: string) returns (found: bool)
    ensures found == MatchesSome(patterns, path)
  {
    for i := 0 to |patterns|
      invariant forall j :: 0 <= j < i ==> !MatchPattern(patterns[j], path)
    {
      if MatchPattern(patterns[i], path) {
        return true;
      }
    }
    return false;
  }

  /** isAllowed: the rejection chain in source order. */
  method IsAllowed(cfg: Config, path: string, isSource: bool) returns (ok: bool)
    ensures ok == Allowed(cfg, path, isSource)
  {
    if cfg.outFilename != [] && Base(cfg.outFilename) == Base(path) {
      assert IsOutputFile(cfg, path);
      return false;
    }
    var showHidden, modeInclude, modeExclude;
    if isSource {
      showHidden, modeInclude, modeExclude := cfg.sourceShowHidden, cfg.sourceInclude, cfg.sourceExclude;
    } else {
      showHidden, modeInclude, modeExclude := cfg.treeShowHidden, cfg.treeInclude, cfg.treeExclude;
    }
    assert showHidden == ShowHidden(cfg, isSource);
    if !showHidden {
      if IsHidden(path) || IsHidden(Base(path)) {
        assert HiddenRejected(cfg, path, isSource);
        return false;
      }
    }
    assert !HiddenRejected(cfg, path, isSource);
    if !cfg.noCoreIgnores {
      var core := AnyMatch(CoreIgnores, path);
      if core {
        assert CoreRejected(cfg, path, isSource);
        return false;
      }
      if isSource {
        var sourceCore := AnyMatch(CoreSourceIgnores, path);
        if sourceCore {
          assert CoreRejected(cfg, path, isSource);
          return false;
        }
      }
    }
    assert !CoreRejected(cfg, path, isSource);
    var ignored := AnyTrimmedMatch(cfg.ignorePatterns, path);
    if ignored {
      return false;
    }
    var effectiveInclude := Or(Or(modeInclude, cfg.globalInclude), "**");
    assert effectiveInclude == EffectiveInclude(cfg, isSource);
    var matched := AnyTrimmedMatch(Split(effectiveInclude, ','), path);
    if !matched {
      return false;
    }
    var effectiveExclude := Or(modeExclude, cfg.globalExclude);
    assert effectiveExclude == EffectiveExclude(cfg, isSource);
    var excluded := AnyTrimmedMatch(Split(effectiveExclude, ','), path);
    return !excluded;
  }

  // ---- Properties of the policy ----

  /** The output file is rejected at any depth, in both modes. */
  lemma OutputFileRejected(cfg: Config, path: string, isSource: bool)
    requires cfg.outFilename != [] && Base(cfg.outFilename) == Base(path)
    ensures !Allowed(cfg, path, isSource)
  {
  }

  /** With hidden files off, a leading dot on the path or on its base name rejects. */
  lemma HiddenRule(cfg: Config, path: string, isSource: bool)
    requires !ShowHidden(cfg, isSource)
    requires HasPrefix(path, ".") || HasPrefix(Base(path), ".")
    ensures !Allowed(cfg, path, isSource)
  {
  }

  /** A dot-directory in the middle of the path is not caught by the hidden rule. */
  lemma HiddenRuleMissesInnerDirs(cfg: Config, isSource: bool)
    ensures !HiddenRejected(cfg, "a/.cache/x", isSource)
  {
    BaseOfNameSuffix();
  }

  lemma BaseOfNameSuffix()
    ensures Base("a/.cache/x") == "x"
  {
    var p := "a/.cache/x";
    assert StripTrailingSlashes(p) == p;
    assert p[8] == '/' && p[9] == 'x';
    assert LastIndex(p, '/') == 8;
    assert p[9..] == "x";
  }

  /** Both core patterns reject any path having them as a segment, in both modes. */
  lemma CoreSegmentRejected(cfg: Config, path: string, isSource: bool, k: nat, i: int)
    requires !cfg.noCoreIgnores && k < |CoreIgnores|
    requires DelimitedAt(path, CoreIgnores[k], '/', i)
    ensures !Allowed(cfg, path, isSource)
  {
    CoreIgnoresAreSegments(k, path);
  }

  /** The source table rejects only in source mode. */
  lemma SourceTableOnlyInSourceMode(cfg: Config, path: string)
    ensures CoreRejected(cfg, path, false) <==> !cfg.noCoreIgnores && MatchesSome(CoreIgnores, path)
    ensures !cfg.noCoreIgnores && MatchesSome(CoreSourceIgnores, path) ==> !Allowed(cfg, path, true)
  {
  }

  /** NoCoreIgnores switches both tables off. */
  lemma NoCoreIgnoresDisablesTables(cfg: Config, path: string, isSource: bool)
    requires cfg.noCoreIgnores
    ensures !CoreRejected(cfg, path, isSource)
  {
  }

  /** A user pattern that matches after trimming rejects. */
  lemma UserPatternRejects(cfg: Config, path: string, isSource: bool, k: nat)
    requires k < |cfg.ignorePatterns|
    requires TrimSpace(cfg.ignorePatterns[k]) != [] && MatchPattern(TrimSpace(cfg.ignorePatterns[k]), path)
    ensures !Allowed(cfg, path, isSource)
  {
  }

  /** Include precedence: the mode's list wins over the global one, which wins over `**`. */
  lemma IncludePrecedence(cfg: Config, isSource: bool)
    ensures ModeInclude(cfg, isSource) != [] ==> EffectiveInclude(cfg, isSource) == ModeInclude(cfg, isSource)
    ensures ModeInclude(cfg, isSource) == [] && cfg.globalInclude != [] ==> EffectiveInclude(cfg, isSource) == cfg.globalInclude
    ensures ModeInclude(cfg, isSource) == [] && cfg.globalInclude == [] ==> EffectiveInclude(cfg, isSource) == "**"
    ensures ModeExclude(cfg, isSource) != [] ==> EffectiveExclude(cfg, isSource) == ModeExclude(cfg, isSource)
    ensures ModeExclude(cfg, isSource) == [] ==> EffectiveExclude(cfg, isSource) == cfg.globalExclude
  {
  }

  /** An include list with no non-blank entry rejects every path. */
  lemma BlankIncludeRejectsAll(cfg: Config, path: string, isSource: bool)
    requires forall k :: 0 <= k < |Split(EffectiveInclude(cfg, isSource), ',')| ==>
      TrimSpace(Split(EffectiveInclude(cfg, isSource), ',')[k]) == []
    ensures !Allowed(cfg, path, isSource)
  {
  }

  /** For instance an include made only of commas and spaces. */
  lemma CommaIncludeExample(s: string)
    requires s == ", ,"
    ensures Split(s, ',') == ["", " ", ""]
    ensures forall k :: 0 <= k < 3 ==> TrimSpace(Split(s, ',')[k]) == []
  {
    var t := s[1..];
    assert s == "" + [','] + t;
    SplitCons(s, "", t, ',');
    var u := t[2..];
    assert t == " " + [','] + u;
    SplitCons(t, " ", u, ',');
    assert u == "";
    assert Split(u, ',') == [""];
    assert TrimLeft(" ") == "";
  }

  /** Without any include, the default `**` accepts every path not made only of slashes. */
  lemma DefaultInclude(path: string)
    ensures MatchesTrimmed(Split("**", ','), path) <==> !AllSlashes(path)
  {
    assert ',' !in "**";
    assert Split("**", ',') == ["**"];
    TrimSpaceIdentity("**");
    DoubleStar(path);
    if !AllSlashes(path) {
      assert TrimSpace(Split("**", ',')[0]) == "**";
    }
  }

  /** A matching exclude entry rejects. */
  lemma ExcludeRejects(cfg: Config, path: string, isSource: bool, k: nat)
    requires k < |Split(EffectiveExclude(cfg, isSource), ',')|
    requires var e := TrimSpace(Split(EffectiveExclude(cfg, isSource), ',')[k]);
      e != [] && MatchPattern(e, path)
    ensures !Allowed(cfg, path, isSource)
  {
  }

  /** Tree-mode decisions depend only on the shared and the tree settings. */
  lemma TreeModeIgnoresSourceSettings(cfg: Config, path: string, si: string, se: string, sh: bool, t: real)
    ensures Allowed(cfg, path, false)
      == Allowed(cfg.(sourceInclude := si, sourceExclude := se, sourceShowHidden := sh, sourceThreshold := t), path, false)
  {
    var other := cfg.(sourceInclude := si, sourceExclude := se, sourceShowHidden := sh, sourceThreshold := t);
    assert EffectiveInclude(other, false) == EffectiveInclude(cfg, false);
    assert EffectiveExclude(other, false) == EffectiveExclude(cfg, false);
    assert HiddenRejected(other, path, false) == HiddenRejected(cfg, path, false);
    assert CoreRejected(other, path, false) == CoreRejected(cfg, path, false);
    assert IsOutputFile(other, path) == IsOutputFile(cfg, path);
  }

  /** With the same settings for both modes, source mode is at least as strict as tree mode. */
  lemma SourceModeStricter(cfg: Config, path: string)
    requires cfg.sourceInclude == cfg.treeInclude && cfg.sourceExclude == cfg.treeExclude
    requires cfg.sourceShowHidden == cfg.treeShowHidden
    ensures Allowed(cfg, path, true) ==> Allowed(cfg, path, false)
  {
  }

  /** The configuration with every option at its zero value. */
  function DefaultConfig(): Config {
    Config("", "", "", "", false, "", "", false, 0.0, "", false, [])
  }

  /**
   * `vendor/x.go` is rejected in source mode (the `vendor` entry) but allowed
   * in tree mode, under the default configuration.
   */
  lemma VendorExample()
    ensures Allowed(DefaultConfig(), "vendor/x.go", false)
    ensures !Allowed(DefaultConfig(), "vendor/x.go", true)
  {
    var cfg := DefaultConfig();
    var path := "vendor/x.go";
    VendorBase();
    assert !HiddenRejected(cfg, path, false);
    VendorNotCore();
    assert Split("", ',') == [""];
    assert !MatchesTrimmed(Split("", ','), path);
    assert EffectiveInclude(cfg, false) == "**";
    DefaultInclude(path);
    assert !AllSlashes(path) by { assert path[0] != '/'; }
    VendorSourceCore();
  }

  lemma VendorBase()
    ensures Base("vendor/x.go") == "x.go"
  {
    var p := "vendor/x.go";
    assert StripTrailingSlashes(p) == p;
    assert p[6] == '/' && forall k :: 6 < k < |p| ==> p[k] != '/';
    assert LastIndex(p, '/') == 6;
    assert p[7..] == "x.go";
  }

  lemma VendorNotCore()
    ensures !MatchesSome(CoreIgnores, "vendor/x.go")
  {
    NotSegment("vendor/x.go", 0);
    NotSegment("vendor/x.go", 1);
  }

  lemma NotSegment(path: string, k: nat)
    requires k < |CoreIgnores| && path == "vendor/x.go"
    ensures !MatchPattern(CoreIgnores[k], path)
  {
    CoreIgnoresAreSegments(k, path);
    var p := CoreIgnores[k];
    assert |p| >= 9 && (p[0] == 'T' || p[0] == '_');
    forall i | DelimitedAt(path, p, '/', i)
      ensures false
    {
    }
  }

  lemma VendorSourceCore()
    ensures MatchesSome(CoreSourceIgnores, "vendor/x.go")
  {
    var path := "vendor/x.go";
    var p := CoreSourceIgnores[1];
    assert p == "vendor";
    assert !HasWildcard(p) && '/' !in p;
    LiteralSegment(p, path);
    assert DelimitedAt(path, p, '/', 0);
    assert MatchPattern(CoreSourceIgnores[1], path);
  }

  // ---- User ignore files ----

  /** A line of an ignore file is kept when its trimmed text is not empty and not a comment. */
  predicate KeepLine(line: string) {
    TrimSpace(line) != [] && !HasPrefix(TrimSpace(line), "#")
  }

  /** The patterns an ignore file's lines give: trimmed, in file order. */
  function IgnorePatterns(lines: seq<string>): seq<string> {
    if lines == [] then []
    else
      var last := lines[|lines| - 1];
      IgnorePatterns(lines[..|lines| - 1]) + (if KeepLine(last) then [TrimSpace(last)] else [])
  }

  /** The scanning loop of loadDotIgnoreFromFS over the file's lines. */
  method LoadIgnorePatterns(lines: seq<string>) returns (patterns: seq<string>)
    ensures patterns == IgnorePatterns(lines)
  {
    patterns := [];
    for i := 0 to |lines|
      invariant patterns == IgnorePatterns(lines[..i])
    {
      assert lines[..i + 1][..i] == lines[..i];
      var line := TrimSpace(lines[i]);
      if line == [] || HasPrefix(line, "#") {
        continue;
      }
      patterns := patterns + [line];
    }
    assert lines[..|lines|] == lines;
  }

  /** Loading two runs of lines gives the patterns of the first, then of the second. */
  lemma {:induction false} IgnorePatternsAppend(a: seq<string>, b: seq<string>)
    ensures IgnorePatterns(a + b) == IgnorePatterns(a) + IgnorePatterns(b)
    decreases |b|
  {
    if b == [] {
      assert a + b == a;
    } else {
      assert (a + b)[..|a + b| - 1] == a + b[..|b| - 1];
      IgnorePatternsAppend(a, b[..|b| - 1]);
    }
  }

  /** Every loaded pattern is trimmed, not empty and not a comment. */
  lemma {:induction false} IgnorePatternsClean(lines: seq<string>)
    ensures forall k :: 0 <= k < |IgnorePatterns(lines)| ==>
      var p := IgnorePatterns(lines)[k];
      p != [] && !HasPrefix(p, "#") && TrimSpace(p) == p
    decreases |lines|
  {
    if lines != [] {
      IgnorePatternsClean(lines[..|lines| - 1]);
      var t := TrimSpace(lines[|lines| - 1]);
      TrimSpaceIdentity(t);
    }
  }

  /** Each kept line contributes exactly one pattern, and the others none. */
  lemma {:induction false} IgnorePatternsCount(lines: seq<string>)
    ensures |IgnorePatterns(lines)| <= |lines|
    ensures (forall k :: 0 <= k < |lines| ==> KeepLine(lines[k])) ==> |IgnorePatterns(lines)| == |lines|
    decreases |lines|
  {
    if lines != [] {
      IgnorePatternsCount(lines[..|lines| - 1]);
    }
  }

  /** `build`, a comment, a blank line and `node_modules` give exactly two patterns. */
  lemma IgnoreFileExample(a: string, b: string, c: string, d: string)
    requires a == "build" && b == "# c" && c == "" && d == "node_modules"
    ensures IgnorePatterns([a, b, c, d]) == ["build", "node_modules"]
  {
    KeptPlain(a);
    CommentLine(b);
    assert !KeepLine(c) by {
      TrimSpaceIdentity(c);
    }
    KeptPlain(d);
    KeepFirstAndLast(a, b, c, d);
  }

  lemma KeepFirstAndLast(a: string, b: string, c: string, d: string)
    requires KeepLine(a) && !KeepLine(b) && !KeepLine(c) && KeepLine(d)
    ensures IgnorePatterns([a, b, c, d]) == [TrimSpace(a), TrimSpace(d)]
  {
    var l1 := [a];
    var l2 := l1 + [b];
    var l3 := l2 + [c];
    assert l1 == [] + [a];
    IgnoreKept([], a, []);
    IgnoreDropped(l1, b, [TrimSpace(a)]);
    IgnoreDropped(l2, c, [TrimSpace(a)]);
    IgnoreKept(l3, d, [TrimSpace(a)]);
    FourLines(a, b, c, d);
  }

  lemma FourLines(a: string, b: string, c: string, d: string)
    ensures [a, b, c, d] == [a] + [b] + [c] + [d]
  {
  }

  /** A line of letters, digits and punctuation other than `#` is kept as it is. */
  lemma KeptPlain(line: string)
    requires line != [] && line[0] != '#'
    requires forall k :: 0 <= k < |line| ==> 'A' <= line[k] <= 'z'
    ensures KeepLine(line) && TrimSpace(line) == line
  {
    TrimSpaceIdentity(line);
  }

  /** A line whose trimmed text starts with `#` is a comment. */
  lemma CommentLine(line: string)
    requires line != [] && line[0] == '#' && !IsSpace(line[|line| - 1])
    ensures !KeepLine(line)
  {
    TrimSpaceIdentity(line);
    assert line[..1] == "#";
  }

  lemma IgnorePatternsStep(lines: seq<string>, line: string)
    ensures IgnorePatterns(lines + [line])
      == IgnorePatterns(lines) + (if KeepLine(line) then [TrimSpace(line)] else [])
  {
    assert (lines + [line])[..|lines|] == lines;
  }

  /** A kept line adds its trimmed text after the patterns before it. */
  lemma IgnoreKept(lines: seq<string>, line: string, before: seq<string>)
    requires IgnorePatterns(lines) == before && KeepLine(line)
    ensures IgnorePatterns(lines + [line]) == before + [TrimSpace(line)]
  {
    IgnorePatternsStep(lines, line);
  }

  /** A blank or comment line adds nothing. */
  lemma IgnoreDropped(lines: seq<string>, line: string, before: seq<string>)
    requires IgnorePatterns(lines) == before && !KeepLine(line)
    ensures IgnorePatterns(lines + [line]) == before
  {
    IgnorePatternsStep(lines, line);
  }

  /** The lines of an ignore file that was found, or none when it is missing. */
  function LoadedPatterns(file: Option<seq<string>>): seq<string> {
    match file
    case None => []
    case Some(lines) => IgnorePatterns(lines)
  }

  /** Run's load order: `.aictxignore`, then `.gitignore` unless NoGitIgnore is set. */
  function UserPatterns(aictxIgnore: Option<seq<string>>, gitIgnore: Option<seq<string>>, noGitIgnore: bool): seq<string> {
    LoadedPatterns(aictxIgnore) + (if noGitIgnore then [] else LoadedPatterns(gitIgnore))
  }

  /**
   * The loaded patterns are already trimmed and non-empty, so isAllowed's own
   * trimming changes nothing: the user-pattern rule fires exactly when some
   * loaded pattern matches as written.
   */
  lemma LoadedPatternsHit(lines: seq<string>, path: string)
    ensures MatchesTrimmed(IgnorePatterns(lines), path) <==> MatchesSome(IgnorePatterns(lines), path)
  {
    IgnorePatternsClean(lines);
    var ps := IgnorePatterns(lines);
    assert forall k :: 0 <= k < |ps| ==> (TrimmedHit(ps[k], path) <==> MatchPattern(ps[k], path));
  }

  /** Hence a loaded pattern that matches the path rejects it, in either mode. */
  lemma LoadedPatternRejects(cfg: Config, path: string, isSource: bool, lines: seq<string>, k: nat)
    requires cfg.ignorePatterns == IgnorePatterns(lines) && k < |cfg.ignorePatterns|
    requires MatchPattern(cfg.ignorePatterns[k], path)
    ensures !Allowed(cfg, path, isSource)
  {
    IgnorePatternsClean(lines);
  }

  /** With NoGitIgnore the `.gitignore` file contributes nothing; otherwise its patterns follow. */
  lemma GitIgnoreOrder(aictxIgnore: Option<seq<string>>, gitIgnore: Option<seq<string>>)
    ensures UserPatterns(aictxIgnore, gitIgnore, true) == LoadedPatterns(aictxIgnore)
    ensures UserPatterns(aictxIgnore, gitIgnore, false)[..|LoadedPatterns(aictxIgnore)|] == LoadedPatterns(aictxIgnore)
    ensures UserPatterns(aictxIgnore, None, false) == LoadedPatterns(aictxIgnore)
  {
    assert LoadedPatterns(aictxIgnore) + [] == LoadedPatterns(aictxIgnore);
  }
}
