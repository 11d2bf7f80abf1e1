/**
 * Go's `path/filepath.Match` on forward-slash paths: `*` matches any run of
 * characters other than '/', `?` one character other than '/', `[...]` one
 * character in (or, with `[^...]`, not in) a set of ranges, and `\` quotes
 * the next character.  A malformed pattern never matches.
 */
module Glob {
  import opened Wrappers
  import opened Text

  datatype Range = Range(lo: char, hi: char)

  datatype Token =
    | Star
    | AnyChar
    | Lit(c: char)
    | Class(negated: bool, ranges: seq<Range>)

  /**
   * One character of a class (Go's getEsc): it may not be '-' or ']' unless
   * quoted, and the class must go on after it.
   */
  function GetEsc(p: string): (r: Option<(char, string)>)
    ensures r.Some? ==> 1 <= |r.value.1| < |p|
    ensures r.Some? && p[0] != '\\' ==> r.value == (p[0], p[1..])
    ensures r.Some? && p[0] == '\\' ==> r.value == (p[1], p[2..])
    ensures p != [] && p[0] != '-' && p[0] != ']' && p[0] != '\\' && |p| >= 2 ==> r.Some?
  {
    if p == [] || p[0] == '-' || p[0] == ']' then None
    else if p[0] == '\\' then
      if |p| < 3 then None else Some((p[1], p[2..]))
    else if |p| < 2 then None
    else Some((p[0], p[1..]))
  }

  /**
   * The ranges of a class up to and including its closing ']', and what follows
   * it.  A ']' closes the class only after at least one range.
   */
  function ParseRanges(p: string, first: bool): (r: Option<(seq<Range>, string)>)
    ensures r.Some? ==> |r.value.1| < |p|
    decreases |p|
  {
    if !first && p != [] && p[0] == ']' then Some(([], p[1..]))
    else
      match GetEsc(p)
      case None => None
      case Some((lo, rest)) =>
        if rest[0] == '-' then
          match GetEsc(rest[1..])
          case None => None
          case Some((hi, rest2)) =>
            match ParseRanges(rest2, false)
            case None => None
            case Some((rs, tail)) => Some(([Range(lo, hi)] + rs, tail))
        else
          match ParseRanges(rest, false)
          case None => None
          case Some((rs, tail)) => Some(([Range(lo, lo)] + rs, tail))
  }

  /** The first token of a non-empty pattern and the text after it, or None when malformed. */
  function Head(p: string): (r: Option<(Token, string)>)
    requires p != []
    ensures r.Some? ==> |r.value.1| < |p|
    ensures Plain(p[0]) ==> r == Some((Lit(p[0]), p[1..]))
    ensures p[0] == '*' ==> r == Some((Star, p[1..]))
  {
    if p[0] == '*' then Some((Star, p[1..]))
    else if p[0] == '?' then Some((AnyChar, p[1..]))
    else if p[0] == '\\' then
      (if |p| < 2 then None else Some((Lit(p[1]), p[2..])))
    else if p[0] == '[' then
      var negated := |p| > 1 && p[1] == '^';
      match ParseRanges(if negated then p[2..] else p[1..], true)
      case None => None
      case Some((rs, tail)) => Some((Class(negated, rs), tail))
    else Some((Lit(p[0]), p[1..]))
  }

  /** The tokens of a pattern, or None when the pattern is malformed. */
  function Tokenize(p: string): (r: Option<seq<Token>>)
    decreases |p|
  {
    if p == [] then Some([])
    else
      match Head(p)
      case None => None
      case Some((t, rest)) =>
        match Tokenize(rest)
        case None => None
        case Some(ts) => Some([t] + ts)
  }

  /** Tokenize reads the first token and then the rest. */
  lemma TokenizeStep(p: string, t: Token, rest: string, ts: seq<Token>)
    requires p != [] && Head(p) == Some((t, rest)) && Tokenize(rest) == Some(ts)
    ensures Tokenize(p) == Some([t] + ts)
  {
  }

  predicate InRanges(rs: seq<Range>, c: char) {
    exists k :: 0 <= k < |rs| && rs[k].lo <= c <= rs[k].hi
  }

  /** Whether a single-character token accepts `c`; a class may accept '/'. */
  predicate MatchOne(t: Token, c: char)
    requires !t.Star?
  {
    match t
    case AnyChar => c != '/'
    case Lit(x) => c == x
    case Class(negated, rs) => InRanges(rs, c) != negated
  }

  /** Whether the token sequence matches all of `s`. */
  predicate Matches(ts: seq<Token>, s: string)
    decreases |ts| + |s|
  {
    if ts == [] then s == []
    else if ts[0].Star? then
      Matches(ts[1..], s) || (s != [] && s[0] != '/' && Matches(ts, s[1..]))
    else
      s != [] && MatchOne(ts[0], s[0]) && Matches(ts[1..], s[1..])
  }

  /** filepath.Match(pattern, name) with its error folded into "no match". */
  predicate Match(pattern: string, name: string) {
    match Tokenize(pattern)
    case None => false
    case Some(ts) => Matches(ts, name)
  }

  /** A character that `Tokenize` reads as itself. */
  predicate Plain(c: char) {
    c != '*' && c != '?' && c != '[' && c != '\\'
  }

  function LitTokens(s: string): (ts: seq<Token>)
    ensures |ts| == |s| && forall k :: 0 <= k < |s| ==> ts[k] == Lit(s[k])
  {
    if s == [] then [] else [Lit(s[0])] + LitTokens(s[1..])
  }

  /** A pattern of plain characters is read character by character. */
  lemma {:induction false} TokenizePlain(s: string)
    requires forall k :: 0 <= k < |s| ==> Plain(s[k])
    ensures Tokenize(s) == Some(LitTokens(s))
    decreases |s|
  {
    if s != [] {
      TokenizePlain(s[1..]);
    }
  }

  /** Literal tokens match exactly their own text. */
  lemma {:induction false} MatchesLiteral(lit: string, s: string)
    ensures Matches(LitTokens(lit), s) <==> s == lit
    decreases |lit|
  {
    if lit != [] {
      assert LitTokens(lit)[1..] == LitTokens(lit[1..]);
      if s != [] {
        MatchesLiteral(lit[1..], s[1..]);
        if s == lit {
          assert s[1..] == lit[1..];
        }
        if s[0] == lit[0] && s[1..] == lit[1..] {
          assert s == [s[0]] + s[1..];
          assert lit == [lit[0]] + lit[1..];
        }
      }
    }
  }

  /** A leading star consumes some '/'-free prefix of the name. */
  lemma {:induction false} MatchesStar(ts: seq<Token>, s: string)
    ensures Matches([Star] + ts, s) <==>
      exists k :: 0 <= k <= |s| && '/' !in s[..k] && Matches(ts, s[k..])
    decreases |s|
  {
    var st := [Star] + ts;
    assert st[1..] == ts;
    if Matches(st, s) {
      if Matches(ts, s) {
        assert s[0..] == s && '/' !in s[..0];
      } else {
        MatchesStar(ts, s[1..]);
        var k :| 0 <= k <= |s[1..]| && '/' !in s[1..][..k] && Matches(ts, s[1..][k..]);
        assert s[1..][k..] == s[k + 1..];
        assert s[..k + 1] == [s[0]] + s[1..][..k];
      }
    }
    if exists k :: 0 <= k <= |s| && '/' !in s[..k] && Matches(ts, s[k..]) {
      var k :| 0 <= k <= |s| && '/' !in s[..k] && Matches(ts, s[k..]);
      if k > 0 {
        assert s[0] == s[..k][0];
        MatchesStar(ts, s[1..]);
        assert s[1..][k - 1..] == s[k..];
        assert s[1..][..k - 1] == s[1..k];
        assert forall c :: c in s[1..k] ==> c in s[..k];
      } else {
        assert s[0..] == s;
      }
    }
  }


  /** No '/' in `s` exactly when there is none on either side of a cut. */
  lemma NoSlashSplit(s: string, k: nat)
    requires k <= |s|
    ensures '/' !in s <==> '/' !in s[..k] && '/' !in s[k..]
  {
    assert s == s[..k] + s[k..];
  }

  lemma StarAlone(name: string)
    ensures Matches([Star], name) <==> '/' !in name
  {
    MatchesStar([], name);
    assert name[..|name|] == name;
    forall k | 0 <= k <= |name| && Matches([], name[k..])
      ensures k == |name|
    {
    }
  }

  /** `*` alone matches exactly the names with no '/'. */
  lemma StarGlob(name: string)
    ensures Match("*", name) <==> '/' !in name
    ensures Match("**", name) <==> '/' !in name
  {
    TokenizeStep("*", Star, "", []);
    assert [Star] + [] == [Star];
    TokenizeStep("**", Star, "*", [Star]);
    StarAlone(name);
    assert [Star, Star] == [Star] + [Star];
    MatchesStar([Star], name);
    forall k | 0 <= k <= |name|
      ensures Matches([Star], name[k..]) <==> '/' !in name[k..]
    {
      StarAlone(name[k..]);
    }
    forall k | 0 <= k <= |name|
      ensures '/' !in name <==> '/' !in name[..k] && '/' !in name[k..]
    {
      NoSlashSplit(name, k);
    }
    assert name[0..] == name && name[..0] == [];
  }

  /** `*` and then literal characters: a suffix, with no '/' before it. */
  lemma StarThenLiteral(suffix: string, name: string)
    ensures Matches([Star] + LitTokens(suffix), name) <==>
      HasSuffix(name, suffix) && '/' !in name[..|name| - |suffix|]
  {
    MatchesStar(LitTokens(suffix), name);
    forall k | 0 <= k <= |name|
      ensures Matches(LitTokens(suffix), name[k..]) <==> name[k..] == suffix
    {
      MatchesLiteral(suffix, name[k..]);
    }
  }

  /**
   * `*` followed by plain characters with no '/' in them (such as `*.pyc`)
   * matches exactly the '/'-free names that end with those characters.
   */
  lemma StarSuffixGlob(suffix: string, name: string)
    requires forall k :: 0 <= k < |suffix| ==> Plain(suffix[k]) && suffix[k] != '/'
    ensures Match("*" + suffix, name) <==> '/' !in name && HasSuffix(name, suffix)
  {
    var p := "*" + suffix;
    assert p[1..] == suffix;
    TokenizePlain(suffix);
    assert Tokenize(p) == Some([Star] + LitTokens(suffix));
    StarThenLiteral(suffix, name);
    if HasSuffix(name, suffix) {
      NoSlashSplit(name, |name| - |suffix|);
      assert '/' !in suffix;
    }
  }

  /** Plain characters in front of a pattern become literal tokens in front of its tokens. */
  lemma {:induction false} TokenizePlainPrefix(plain: string, p: string)
    requires forall k :: 0 <= k < |plain| ==> Plain(plain[k])
    ensures Tokenize(plain + p) ==
      match Tokenize(p)
      case None => None
      case Some(ts) => Some(LitTokens(plain) + ts)
    decreases |plain|
  {
    if plain == [] {
      assert plain + p == p;
      match Tokenize(p)
      case None =>
      case Some(ts) => assert LitTokens(plain) + ts == ts;
    } else {
      var q := plain + p;
      assert q[1..] == plain[1..] + p;
      TokenizePlainPrefix(plain[1..], p);
      assert LitTokens(plain) == [Lit(plain[0])] + LitTokens(plain[1..]);
      match Tokenize(p)
      case None =>
      case Some(ts) =>
        assert [Lit(plain[0])] + (LitTokens(plain[1..]) + ts) == LitTokens(plain) + ts;
    }
  }

  /** Every literal token of a match appears in the name. */
  lemma {:induction false} MatchesLitOccurs(ts: seq<Token>, s: string, k: nat)
    requires Matches(ts, s) && k < |ts| && ts[k].Lit?
    ensures ts[k].c in s
    decreases |ts| + |s|
  {
    if ts[0].Star? {
      if Matches(ts[1..], s) {
        MatchesLitOccurs(ts[1..], s, k - 1);
      } else {
        MatchesLitOccurs(ts, s[1..], k);
        assert s == [s[0]] + s[1..];
      }
    } else if k > 0 {
      MatchesLitOccurs(ts[1..], s[1..], k - 1);
      assert s == [s[0]] + s[1..];
    }
  }

  /** A token list with no star matches only names of its own length. */
  lemma {:induction false} MatchesLength(ts: seq<Token>, s: string)
    requires forall k :: 0 <= k < |ts| ==> !ts[k].Star?
    requires Matches(ts, s)
    ensures |s| == |ts|
    decreases |ts|
  {
    if ts != [] {
      MatchesLength(ts[1..], s[1..]);
    }
  }

  /** Go's class syntax: these patterns are malformed and so match nothing. */
  lemma MalformedExamples()
    ensures !Tokenize("[]a]").Some?
    ensures !Tokenize("[a-]").Some?
    ensures !Tokenize("[^]").Some?
    ensures !Tokenize("[a").Some?
    ensures !Tokenize("ab\\").Some?
  {
    assert "[]a]"[1..] == "]a]";
    assert GetEsc("]a]") == None;
    assert "[a-]"[1..] == "a-]" && "a-]"[1..] == "-]" && "-]"[1..] == "]";
    assert GetEsc("a-]") == Some(('a', "-]"));
    assert GetEsc("]") == None;
    assert "[^]"[2..] == "]";
    assert "[a"[1..] == "a";
    assert GetEsc("a") == None;
    assert "ab\\"[1..] == "b\\" && "b\\"[1..] == "\\";
    assert Head("\\") == None;
  }

  /** A class of one range: `[a-c]x`. */
  lemma ClassExample()
    ensures Match("[a-c]x", "bx") && !Match("[a-c]x", "dx")
  {
    var x := [Lit('x')];
    TokenizeStep("x", Lit('x'), "", []);
    assert [Lit('x')] + [] == x;
    var rs := [Range('a', 'c')];
    assert GetEsc("a-c]x") == Some(('a', "-c]x"));
    assert GetEsc("c]x") == Some(('c', "]x"));
    assert ParseRanges("]x", false) == Some(([], "x"));
    assert rs + [] == rs;
    assert ParseRanges("a-c]x", true) == Some((rs, "x"));
    TokenizeStep("[a-c]x", Class(false, rs), "x", x);
    assert rs[0].lo <= 'b' <= rs[0].hi;
    assert !InRanges(rs, 'd');
    assert "bx"[1..] == "x" && "dx"[1..] == "x";
  }

  /** A negated class accepts '/', which `?` never does. */
  lemma NegatedClassExample()
    ensures Match("[^a]", "/") && !Match("?", "/")
  {
    var ra := [Range('a', 'a')];
    assert GetEsc("a]") == Some(('a', "]"));
    assert ParseRanges("]", false) == Some(([], ""));
    assert ra + [] == ra;
    assert ParseRanges("a]", true) == Some((ra, ""));
    TokenizeStep("[^a]", Class(true, ra), "", []);
    assert [Class(true, ra)] + [] == [Class(true, ra)];
    assert !InRanges(ra, '/');
    TokenizeStep("?", AnyChar, "", []);
    assert [AnyChar] + [] == [AnyChar];
    assert "/"[1..] == [];
  }

  /** A quoted star is a literal '*'. */
  lemma EscapeExample()
    ensures Match("\\*", "*") && !Match("\\*", "a")
  {
    TokenizeStep("\\*", Lit('*'), "", []);
    assert [Lit('*')] + [] == [Lit('*')];
    assert "*"[1..] == [] && "a"[1..] == [];
  }

  /** `?` takes one character; `*` does not cross '/'. */
  lemma WildcardExample()
    ensures Match("a?c", "abc") && !Match("a*c", "a/c")
  {
    var c := [Lit('c')];
    TokenizeStep("c", Lit('c'), "", []);
    assert [Lit('c')] + [] == c;
    TokenizeStep("?c", AnyChar, "c", c);
    TokenizeStep("a?c", Lit('a'), "?c", [AnyChar] + c);
    assert "abc"[1..] == "bc" && "bc"[1..] == "c";
    TokenizeStep("*c", Star, "c", c);
    TokenizeStep("a*c", Lit('a'), "*c", [Star] + c);
    var t := [Star] + c;
    assert "a/c"[1..] == "/c" && "/c"[1..] == "c";
    assert t[1..] == c;
    assert !Matches(c, "/c");
    assert !Matches(t, "/c");
    assert ([Lit('a')] + t)[1..] == t;
  }
}
