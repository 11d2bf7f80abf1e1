/**
 * The ignore-pattern matcher (`matchPattern`): five rules tried in order on a
 * slash-separated path relative to the traversal root.
 */
module Patterns {
  import opened Wrappers
  import opened Text
  import opened Glob

  /** The pattern holds one of the wildcard characters `*`, `?` or `[`. */
  predicate HasWildcard(p: string) {
    ContainsAny(p, "*?[")
  }

  /** The segment loop of the literal rule: some part equals `p`. */
  predicate SomePartIs(parts: seq<string>, p: string)
    decreases |parts|
  {
    parts != [] && (parts[0] == p || SomePartIs(parts[1..], p))
  }

  lemma {:induction false} SomePartIsMember(parts: seq<string>, p: string)
    ensures SomePartIs(parts, p) <==> p in parts
    decreases |parts|
  {
    if parts != [] {
      SomePartIsMember(parts[1..], p);
      assert parts == [parts[0]] + parts[1..];
    }
  }

  /**
   * Rules in order: anchored `/x` (root-level paths only), directory-prefix `d` + "/" + "**",
   * literal (any segment, or a leading directory), wildcard with '/' (whole
   * path), wildcard without '/' (base name).
   */
  predicate MatchPattern(pattern: string, path: string) {
    if HasPrefix(pattern, "/") then
      if '/' in path then false
      else
        var stripped := pattern[1..];
        if !HasWildcard(stripped) then stripped == path else Match(stripped, path)
    else if HasSuffix(pattern, "/**") then
      var prefix := TrimSuffix(pattern, "/**");
      path == prefix || HasPrefix(path, prefix + "/")
    else if !HasWildcard(pattern) then
      SomePartIs(Split(path, '/'), pattern) || HasPrefix(path, pattern + "/")
    else if '/' in pattern then Match(pattern, path)
    else Match(pattern, Base(path))
  }

  /** An anchored pattern never matches below the root. */
  lemma AnchoredRootOnly(pattern: string, path: string)
    requires HasPrefix(pattern, "/") && '/' in path
    ensures !MatchPattern(pattern, path)
  {
  }

  /** An anchored pattern without wildcards matches only the root-level path it names. */
  lemma AnchoredLiteral(pattern: string, path: string)
    requires HasPrefix(pattern, "/") && !HasWildcard(pattern[1..])
    ensures MatchPattern(pattern, path) <==> path == pattern[1..] && '/' !in path
  {
  }

  // A pattern `d` + "/**" matches `d` itself and everything below it, and nothing else.
  lemma PrefixPattern(d: string, path: string)
    requires d != [] && d[0] != '/'
    ensures MatchPattern(d + "/**", path) <==> path == d || HasPrefix(path, d + "/")
  {
    var pattern := d + "/**";
    assert pattern[0] == d[0];
    assert pattern[|pattern| - 3..] == "/**";
    assert TrimSuffix(pattern, "/**") == d by {
      assert pattern[..|pattern| - 3] == d;
    }
  }

  lemma PrefixPatternExamples()
    ensures MatchPattern("dir/**", "dir")
    ensures MatchPattern("dir/**", "dir/sub/file")
    ensures !MatchPattern("dir/**", "dirother")
  {
    PrefixPattern("dir", "dir");
    PrefixPattern("dir", "dir/sub/file");
    assert HasPrefix("dir/sub/file", "dir/") by {
      assert "dir/sub/file"[..4] == "dir/";
    }
    PrefixPattern("dir", "dirother");
    assert "dirother"[..4] != "dir/" by {
      assert "dirother"[3] != "dir/"[3];
    }
  }

  /** A leading `d/` makes `d` a delimited segment at position 0. */
  lemma LeadingDirDelimited(path: string, p: string)
    requires HasPrefix(path, p + "/")
    ensures DelimitedAt(path, p, '/', 0)
  {
    assert path[..|p| + 1] == p + "/";
    assert path[|p|] == (p + "/")[|p|];
    forall k | 0 <= k < |p|
      ensures path[k] == p[k]
    {
      assert path[k] == path[..|p| + 1][k];
    }
  }

  /**
   * A literal pattern without '/' matches exactly the paths in which it is a
   * whole '/'-separated segment.
   */
  lemma LiteralSegment(pattern: string, path: string)
    requires !HasWildcard(pattern) && '/' !in pattern
    ensures MatchPattern(pattern, path) <==> exists i :: DelimitedAt(path, pattern, '/', i)
  {
    assert !HasPrefix(pattern, "/") by {
      if pattern != [] { assert pattern[0] in pattern; }
    }
    assert !HasSuffix(pattern, "/**") by {
      if |pattern| >= 3 { assert pattern[|pattern| - 3] in pattern; }
    }
    SomePartIsMember(Split(path, '/'), pattern);
    SplitPartIff(path, pattern, '/');
    if HasPrefix(path, pattern + "/") {
      LeadingDirDelimited(path, pattern);
    }
  }

  /**
   * A literal pattern holding '/' never equals a segment, so it matches only
   * the paths that start with it followed by '/' (not the path it names).
   */
  lemma LiteralWithSlash(pattern: string, path: string)
    requires !HasWildcard(pattern) && '/' in pattern
    requires !HasPrefix(pattern, "/") && !HasSuffix(pattern, "/**")
    ensures MatchPattern(pattern, path) <==> HasPrefix(path, pattern + "/")
  {
    SomePartIsMember(Split(path, '/'), pattern);
  }

  /** A wildcard pattern holding '/' is matched against the whole path. */
  lemma WildcardFullPath(pattern: string, path: string)
    requires HasWildcard(pattern) && '/' in pattern
    requires !HasPrefix(pattern, "/") && !HasSuffix(pattern, "/**")
    ensures MatchPattern(pattern, path) == Match(pattern, path)
  {
  }

  /** A wildcard pattern without '/' is matched against the base name only. */
  lemma WildcardBaseName(pattern: string, path: string)
    requires HasWildcard(pattern) && '/' !in pattern
    ensures MatchPattern(pattern, path) == Match(pattern, Base(path))
  {
    assert !HasPrefix(pattern, "/") by {
      if pattern != [] { assert pattern[0] in pattern; }
    }
    assert !HasSuffix(pattern, "/**") by {
      if |pattern| >= 3 { assert pattern[|pattern| - 3] in pattern; }
    }
  }

  /** Consequently such a pattern cannot tell apart two paths with the same base name. */
  lemma WildcardSameBase(pattern: string, path1: string, path2: string)
    requires HasWildcard(pattern) && '/' !in pattern && Base(path1) == Base(path2)
    ensures MatchPattern(pattern, path1) == MatchPattern(pattern, path2)
  {
    WildcardBaseName(pattern, path1);
    WildcardBaseName(pattern, path2);
  }

  /** A malformed glob matches nothing. */
  lemma MalformedNeverMatches(pattern: string, path: string)
    ensures (!HasPrefix(pattern, "/") && !HasSuffix(pattern, "/**") && HasWildcard(pattern)
             && Tokenize(pattern).None?) ==> !MatchPattern(pattern, path)
    ensures (HasPrefix(pattern, "/") && HasWildcard(pattern[1..]) && Tokenize(pattern[1..]).None?)
            ==> !MatchPattern(pattern, path)
  {
  }

  /**
   * `*.pyc`-style patterns: `*` and then plain characters without '/'
   * match, at any depth, exactly the paths whose base name ends with them.
   */
  lemma StarSuffixPattern(suffix: string, path: string)
    requires suffix != []
    requires forall k :: 0 <= k < |suffix| ==> Plain(suffix[k]) && suffix[k] != '/'
    ensures MatchPattern("*" + suffix, path) <==> HasSuffix(Base(path), suffix)
  {
    var pattern := "*" + suffix;
    assert pattern[0] == '*';
    assert HasWildcard(pattern);
    assert '/' !in pattern by {
      assert forall k :: 0 < k < |pattern| ==> pattern[k] == suffix[k - 1];
    }
    WildcardBaseName(pattern, path);
    StarSuffixGlob(suffix, Base(path));
    BaseSlash(path);
    NotSuffixOfSlash(suffix);
  }

  lemma NotSuffixOfSlash(suffix: string)
    requires suffix != [] && '/' !in suffix
    ensures !HasSuffix("/", suffix)
  {
    if |suffix| == 1 {
      assert suffix[0] in suffix;
    }
  }

  /** `**` matches every path except one made only of slashes. */
  lemma DoubleStar(path: string)
    ensures MatchPattern("**", path) <==> !AllSlashes(path)
  {
    assert "**"[0] == '*';
    assert HasWildcard("**");
    WildcardBaseName("**", path);
    StarGlob(Base(path));
    BaseSlash(path);
  }

  lemma TokenizeBuildDir()
    ensures Tokenize("build/**") == Some(LitTokens("build/") + [Star, Star])
  {
    TokenizeStep("*", Star, "", []);
    assert [Star] + [] == [Star];
    TokenizeStep("**", Star, "*", [Star]);
    assert [Star] + [Star] == [Star, Star];
    assert "build/**" == "build/" + "**";
    TokenizePlainPrefix("build/", "**");
  }

  // Anchoring a directory pattern ("/build" + "/**") makes it match nothing.
  lemma AnchoredDirectoryPattern(path: string)
    ensures !MatchPattern("/build/**", path)
  {
    var stripped := "/build/**"[1..];
    assert stripped == "build/**";
    TokenizeBuildDir();
    var ts := LitTokens("build/") + [Star, Star];
    if '/' !in path && Match(stripped, path) {
      assert ts[5] == Lit('/');
      MatchesLitOccurs(ts, path, 5);
    }
  }
}
