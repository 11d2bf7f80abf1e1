/**
 * The parts of Go's `strings`, `strconv` and `path/filepath` packages that the
 * selection engine relies on, written over `string` (a sequence of Unicode
 * scalar values).  Only forward slashes are separators.
 */
module Text {

  predicate HasPrefix(s: string, p: string) {
    |p| <= |s| && s[..|p|] == p
  }

  predicate HasSuffix(s: string, p: string) {
    |p| <= |s| && s[|s| - |p|..] == p
  }

  /** strings.TrimPrefix: removes one leading `p` if present. */
  function TrimPrefix(s: string, p: string): (r: string)
    ensures HasPrefix(s, p) ==> s == p + r
    ensures !HasPrefix(s, p) ==> r == s
  {
    if HasPrefix(s, p) then s[|p|..] else s
  }

  /** strings.TrimSuffix: removes one trailing `p` if present. */
  function TrimSuffix(s: string, p: string): (r: string)
    ensures HasSuffix(s, p) ==> s == r + p
    ensures !HasSuffix(s, p) ==> r == s
  {
    if HasSuffix(s, p) then s[..|s| - |p|] else s
  }

  /** strings.ContainsAny(s, chars). */
  predicate ContainsAny(s: string, chars: string) {
    exists i :: 0 <= i < |s| && s[i] in chars
  }

  /** unicode.IsSpace: the White_Space property of Unicode (as Go's table lists it). */
  predicate IsSpace(c: char) {
    || ('\t' <= c <= '\r')
    || c == ' '
    || c == '\U{0085}'
    || c == '\U{00A0}'
    || c == '\U{1680}'
    || ('\U{2000}' <= c <= '\U{200A}')
    || c == '\U{2028}'
    || c == '\U{2029}'
    || c == '\U{202F}'
    || c == '\U{205F}'
    || c == '\U{3000}'
  }

  function TrimLeft(s: string): (r: string)
    ensures |r| <= |s| && r == s[|s| - |r|..]
    ensures r != [] ==> !IsSpace(r[0])
    ensures forall k :: 0 <= k < |s| - |r| ==> IsSpace(s[k])
  {
    if s != [] && IsSpace(s[0]) then TrimLeft(s[1..]) else s
  }

  function TrimRight(s: string): (r: string)
    ensures |r| <= |s| && r == s[..|r|]
    ensures r != [] ==> !IsSpace(r[|r| - 1])
    ensures forall k :: |r| <= k < |s| ==> IsSpace(s[k])
  {
    if s != [] && IsSpace(s[|s| - 1]) then TrimRight(s[..|s| - 1]) else s
  }

  /** strings.TrimSpace: removes leading and trailing white space. */
  function TrimSpace(s: string): (r: string)
    ensures r != [] ==> !IsSpace(r[0]) && !IsSpace(r[|r| - 1])
  {
    TrimRight(TrimLeft(s))
  }

  /** A string with no white space at either end is its own trimming. */
  lemma TrimSpaceIdentity(s: string)
    requires s != [] ==> !IsSpace(s[0]) && !IsSpace(s[|s| - 1])
    ensures TrimSpace(s) == s
  {
  }

  /** First index of `c` in `s` (strings.IndexByte, for a present character). */
  function IndexOf(s: string, c: char): (i: nat)
    requires c in s
    ensures i < |s| && s[i] == c && c !in s[..i]
  {
    if s[0] == c then 0 else 1 + IndexOf(s[1..], c)
  }

  /** strings.LastIndex(s, string(c)): -1 when `c` does not occur. */
  function LastIndex(s: string, c: char): (i: int)
    ensures -1 <= i < |s|
    ensures i >= 0 ==> s[i] == c
    ensures forall k :: i < k < |s| ==> s[k] != c
  {
    if s == [] then -1
    else if s[|s| - 1] == c then |s| - 1
    else LastIndex(s[..|s| - 1], c)
  }

  /** strings.Split(s, string(sep)): never empty, and no part holds `sep`. */
  function Split(s: string, sep: char): (parts: seq<string>)
    ensures |parts| >= 1
    ensures forall k :: 0 <= k < |parts| ==> sep !in parts[k]
    decreases |s|
  {
    if sep !in s then [s]
    else
      var i := IndexOf(s, sep);
      [s[..i]] + Split(s[i + 1..], sep)
  }

  /** Splitting at a first separator gives the part before it, then the rest split. */
  lemma SplitCons(s: string, a: string, b: string, sep: char)
    requires s == a + [sep] + b && sep !in a
    ensures Split(s, sep) == [a] + Split(b, sep)
  {
    assert s[|a|] == sep;
    IndexOfFirst(a, b, sep);
    assert s[..|a|] == a && s[|a| + 1..] == b;
  }

  lemma IndexOfFirst(a: string, b: string, sep: char)
    requires sep !in a
    ensures sep in a + [sep] + b && IndexOf(a + [sep] + b, sep) == |a|
  {
    assert (a + [sep] + b)[|a|] == sep;
    if a != [] {
      assert (a + [sep] + b)[1..] == a[1..] + [sep] + b;
      IndexOfFirst(a[1..], b, sep);
    }
  }

  /** `p` occurs in `s` at position `i`, bounded on both sides by `sep` or an end of `s`. */
  predicate DelimitedAt(s: string, p: string, sep: char, i: int) {
    && 0 <= i && i + |p| <= |s|
    && (forall k :: i <= k < i + |p| ==> s[k] == p[k - i])
    && (i == 0 || s[i - 1] == sep)
    && (i + |p| == |s| || s[i + |p|] == sep)
  }

  /** Moving a delimited occurrence from `s[d + 1..]` out to `s`, where `s[d]` is `sep`. */
  lemma DelimitedShift(s: string, p: string, sep: char, d: nat, j: int)
    requires d < |s| && s[d] == sep
    requires DelimitedAt(s[d + 1..], p, sep, j)
    ensures DelimitedAt(s, p, sep, d + 1 + j)
  {
    var rest := s[d + 1..];
    assert forall k :: d + 1 + j <= k < d + 1 + j + |p| ==> s[k] == rest[k - d - 1];
  }

  /** DelimitedShift, returning the index it moves to. */
  lemma ShiftedPart(s: string, p: string, sep: char, d: nat, j: int) returns (i: int)
    requires d < |s| && s[d] == sep
    requires DelimitedAt(s[d + 1..], p, sep, j)
    ensures DelimitedAt(s, p, sep, i)
  {
    DelimitedShift(s, p, sep, d, j);
    i := d + 1 + j;
  }

  /** The converse move, for an occurrence that starts after position `d`. */
  lemma DelimitedUnshift(s: string, p: string, sep: char, d: nat, i: int)
    requires d < |s| && s[d] == sep && d < i
    requires DelimitedAt(s, p, sep, i)
    ensures DelimitedAt(s[d + 1..], p, sep, i - d - 1)
  {
    var rest := s[d + 1..];
    assert forall k :: i - d - 1 <= k < i - d - 1 + |p| ==> rest[k] == s[k + d + 1];
  }

  /** A `sep`-free occurrence delimited before the first `sep` is the whole first run. */
  lemma DelimitedFirstRun(s: string, p: string, sep: char, d: nat, i: int)
    requires d <= |s| && (d < |s| ==> s[d] == sep)
    requires forall k :: 0 <= k < d ==> s[k] != sep
    requires sep !in p && DelimitedAt(s, p, sep, i) && i <= d
    ensures i == 0 && p == s[..d]
  {
  }

  /** The first `sep`-free run of `s`, up to `d`, is delimited. */
  lemma FirstRunDelimited(s: string, p: string, sep: char, d: nat) returns (i: int)
    requires d <= |s| && (d < |s| ==> s[d] == sep) && p == s[..d]
    ensures DelimitedAt(s, p, sep, i)
  {
    i := 0;
  }

  /** Every part of Split occurs in `s` delimited by `sep` or the ends. */
  lemma {:induction false} SplitPartDelimited(s: string, p: string, sep: char) returns (i: int)
    requires p in Split(s, sep)
    ensures DelimitedAt(s, p, sep, i)
    decreases |s|, 1
  {
    if sep !in s {
      i := OnlyPartDelimited(s, p, sep);
    } else {
      i := SplitPartAfter(s, p, sep);
    }
  }

  /** SplitPartDelimited when `s` holds a `sep`. */
  lemma {:induction false} SplitPartAfter(s: string, p: string, sep: char) returns (i: int)
    requires sep in s && p in Split(s, sep)
    ensures DelimitedAt(s, p, sep, i)
    decreases |s|, 0
  {
    var i0 := IndexOf(s, sep);
    if p == s[..i0] {
      i := FirstRunDelimited(s, p, sep, i0);
    } else {
      assert p in Split(s[i0 + 1..], sep) by {
        LaterPart(s, p, sep, i0);
      }
      var j := SplitPartDelimited(s[i0 + 1..], p, sep);
      i := ShiftedPart(s, p, sep, i0, j);
    }
  }

  /** Without `sep`, the one part is `s` itself. */
  lemma OnlyPartDelimited(s: string, p: string, sep: char) returns (i: int)
    requires sep !in s && p in Split(s, sep)
    ensures DelimitedAt(s, p, sep, i)
  {
    assert Split(s, sep) == [s];
    assert s[..|s|] == s;
    i := FirstRunDelimited(s, p, sep, |s|);
  }

  /** A part other than the first run is a part of what follows the first `sep`. */
  lemma LaterPart(s: string, p: string, sep: char, i0: nat)
    requires sep in s && i0 == IndexOf(s, sep)
    requires p in Split(s, sep) && p != s[..i0]
    ensures p in Split(s[i0 + 1..], sep)
  {
    var parts := Split(s, sep);
    var tail := Split(s[i0 + 1..], sep);
    assert parts == [s[..i0]] + tail;
    var k :| 0 <= k < |parts| && parts[k] == p;
    assert k > 0 && tail[k - 1] == p;
  }

  /** A `sep`-free run of `s` delimited by `sep` or the ends is a part of Split. */
  lemma {:induction false} DelimitedIsSplitPart(s: string, p: string, sep: char, i: int)
    requires sep !in p && DelimitedAt(s, p, sep, i)
    ensures p in Split(s, sep)
    decreases |s|
  {
    if sep !in s {
      assert forall k :: 0 <= k < |s| ==> s[k] != sep;
      DelimitedFirstRun(s, p, sep, |s|, i);
      assert p == s by { assert s[..|s|] == s; }
      assert Split(s, sep) == [s];
    } else {
      var i0 := IndexOf(s, sep);
      if i <= i0 {
        assert forall k :: 0 <= k < i0 ==> s[k] != sep by {
          assert forall k :: 0 <= k < i0 ==> s[k] == s[..i0][k];
        }
        DelimitedFirstRun(s, p, sep, i0, i);
        assert Split(s, sep) == [s[..i0]] + Split(s[i0 + 1..], sep);
      } else {
        DelimitedUnshift(s, p, sep, i0, i);
        DelimitedIsSplitPart(s[i0 + 1..], p, sep, i - i0 - 1);
        assert Split(s, sep) == [s[..i0]] + Split(s[i0 + 1..], sep);
      }
    }
  }

  /**
   * Split's parts are exactly the maximal `sep`-free runs of `s`: a `sep`-free
   * string is a part iff it occurs in `s` delimited by `sep` or the ends.
   */
  lemma SplitPartIff(s: string, p: string, sep: char)
    requires sep !in p
    ensures p in Split(s, sep) <==> exists i :: DelimitedAt(s, p, sep, i)
  {
    if p in Split(s, sep) {
      var i := SplitPartDelimited(s, p, sep);
    }
    if i :| DelimitedAt(s, p, sep, i) {
      DelimitedIsSplitPart(s, p, sep, i);
    }
  }

  /** strings.Repeat(string(c), n). */
  function Repeat(c: char, n: nat): (r: string)
    ensures |r| == n && forall k :: 0 <= k < n ==> r[k] == c
  {
    seq(n, _ => c)
  }

  function DigitChar(d: nat): char
    requires d < 10
  {
    "0123456789"[d]
  }

  /** strconv.Itoa for a non-negative integer: decimal digits, no leading zero. */
  function Itoa(n: nat): (r: string)
    ensures 1 <= |r|
    ensures forall k :: 0 <= k < |r| ==> '0' <= r[k] <= '9'
    ensures |r| > 1 ==> r[0] != '0'
  {
    if n < 10 then [DigitChar(n)] else Itoa(n / 10) + [DigitChar(n % 10)]
  }

  function Pow10(k: nat): (r: nat)
    ensures r >= 1
  {
    if k == 0 then 1 else 10 * Pow10(k - 1)
  }

  /** The decimal form of `n` has at most `k` digits exactly when n < 10^k. */
  lemma {:induction false} ItoaLength(n: nat, k: nat)
    requires k >= 1
    ensures |Itoa(n)| <= k <==> n < Pow10(k)
  {
    if n >= 10 {
      if k == 1 {
        assert |Itoa(n)| >= 2 by { assert |Itoa(n)| == |Itoa(n / 10)| + 1; }
      } else {
        ItoaLength(n / 10, k - 1);
      }
    } else {
      if k > 1 { Pow10Grows(k); }
    }
  }

  lemma {:induction false} Pow10Grows(k: nat)
    requires k >= 1
    ensures Pow10(k) >= 10
  {
    if k > 1 { Pow10Grows(k - 1); }
  }

  /** fmt's `%0*d`: left-pads the decimal form of `n` with '0' up to `width`. */
  function ZeroPad(n: nat, width: nat): (r: string)
    ensures |r| == if |Itoa(n)| >= width then |Itoa(n)| else width
    ensures HasSuffix(r, Itoa(n))
    ensures forall j :: 0 <= j < |r| - |Itoa(n)| ==> r[j] == '0'
  {
    var digits := Itoa(n);
    if |digits| >= width then digits else Repeat('0', width - |digits|) + digits
  }

  /** Removes every trailing '/'. */
  function StripTrailingSlashes(s: string): (r: string)
    ensures |r| <= |s| && r == s[..|r|]
    ensures r != [] ==> r[|r| - 1] != '/'
    ensures forall k :: |r| <= k < |s| ==> s[k] == '/'
  {
    if s != [] && s[|s| - 1] == '/' then StripTrailingSlashes(s[..|s| - 1]) else s
  }

  /**
   * filepath.Base: the last element of `path` after trailing slashes are
   * removed; "." for the empty path and "/" for a path made only of slashes.
   */
  function Base(path: string): (r: string)
    ensures r != []
  {
    if path == [] then "."
    else
      var p := StripTrailingSlashes(path);
      var b := p[LastIndex(p, '/') + 1..];
      if b == [] then "/" else b
  }

  /** A path with no '/' is its own base name. */
  lemma BaseOfName(name: string)
    requires name != [] && '/' !in name
    ensures Base(name) == name
  {
  }

  /** A base name never holds '/', unless the path was made only of slashes. */
  lemma BaseHasNoSlash(path: string)
    requires exists k :: 0 <= k < |path| && path[k] != '/'
    ensures '/' !in Base(path)
  {
    var k :| 0 <= k < |path| && path[k] != '/';
    var p := StripTrailingSlashes(path);
    assert k < |p|;
    var i := LastIndex(p, '/');
    assert p[i + 1..] != [];
  }

  /** A non-empty path made only of slashes. */
  predicate AllSlashes(path: string) {
    path != [] && forall k :: 0 <= k < |path| ==> path[k] == '/'
  }

  /** A base name holds '/' exactly when it is "/", the base of a path made only of slashes. */
  lemma BaseSlash(path: string)
    ensures '/' in Base(path) <==> AllSlashes(path)
    ensures '/' in Base(path) ==> Base(path) == "/"
  {
    if exists k :: 0 <= k < |path| && path[k] != '/' {
      BaseHasNoSlash(path);
      var k :| 0 <= k < |path| && path[k] != '/';
      assert !AllSlashes(path);
    } else if path != [] {
      assert AllSlashes(path);
      AllSlashesBase(path);
    } else {
      assert Base(path) == ".";
    }
  }

  /** Stripping a path made only of slashes leaves nothing, so its base is "/". */
  lemma AllSlashesBase(path: string)
    requires AllSlashes(path)
    ensures Base(path) == "/"
  {
  }

  /** Path joining as the builders use it: "." is the traversal root itself. */
  function Join(root: string, name: string): string {
    if root == "." then name else root + "/" + name
  }
}
