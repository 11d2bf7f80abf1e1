/**
 * The repository shorthand accepted by `--git`: an SSH URL passed through
 * with an optional `@branch`, or a GitHub path in any of several spellings
 * normalised to `https://github.com/<owner>/<name>.git`.
 */
module Git {
  import opened Wrappers
  import opened Text

  /** The two errors ValidateGitRepoName reports, with the text it quotes. */
  datatype RepoError = InvalidName(repo: string) | InvalidFormat(repo: string)

  /** The clone URL and the branch (empty for the default branch). */
  datatype Repo = Repo(url: string, branch: string)

  /** `parts[0]` before the last `@`, `parts[1]` after it, both trimmed; the whole when there is no `@`. */
  function SplitBranch(repo: string): (parts: (string, string))
    ensures '@' !in parts.1
    ensures '@' !in repo ==> parts == (repo, "")
  {
    if '@' !in repo then (repo, "")
    else
      var lastAt := LastIndex(repo, '@');
      AfterLastHasNone(repo, '@');
      TrimSpaceKeepsOut(repo[lastAt + 1..], '@');
      (TrimSpace(repo[..lastAt]), TrimSpace(repo[lastAt + 1..]))
  }

  /** Strips one `https://`, one `http://` and one `.git`, then makes sure of the `github.com/` host. */
  function GitHubPath(repo: string): (path: string)
    ensures HasPrefix(path, "github.com/")
  {
    var bare := TrimSuffix(TrimPrefix(TrimPrefix(repo, "https://"), "http://"), ".git");
    if HasPrefix(bare, "github.com/") then bare else "github.com/" + bare
  }

  /** ValidateGitRepoName: the clone URL and branch for a shorthand, or why it is refused. */
  function ValidateGitRepoName(input: string): (r: Result<Repo, RepoError>)
    ensures r.Success? ==> '@' !in r.value.branch
    ensures HasPrefix(TrimSpace(input), "git@") ==> r.Success? && HasPrefix(r.value.url, "git@")
    ensures r.Success? && !HasPrefix(TrimSpace(input), "git@") ==>
      HasPrefix(r.value.url, "https://github.com/") && HasSuffix(r.value.url, ".git")
  {
    var repo := TrimSpace(input);
    if repo == "." || repo == "" then Failure(InvalidName(repo))
    else if HasPrefix(repo, "git@") then SshRepo(repo)
    else HttpsRepo(repo)
  }

  /**
   * Any other shorthand: the branch is split off at the last `@`, the rest
   * must hold a `/`, and it is rebuilt as an HTTPS clone URL on GitHub.
   */
  function HttpsRepo(repo: string): (r: Result<Repo, RepoError>)
    ensures r.Success? ==> '@' !in r.value.branch
    ensures r.Success? ==> HasPrefix(r.value.url, "https://github.com/") && HasSuffix(r.value.url, ".git")
  {
    var (rest, branch) := SplitBranch(repo);
    if '/' !in rest then Failure(InvalidFormat(rest))
    else
      var path := GitHubPath(rest);
      Framed("https://", "github.com/", path, ".git");
      GitHubBase();
      Success(Repo("https://" + path + ".git", branch))
  }

  /**
   * An SSH URL is returned as it is; only an `@` after the one in `git@`
   * separates a branch.
   */
  function SshRepo(repo: string): (r: Result<Repo, RepoError>)
    requires HasPrefix(repo, "git@")
    ensures r.Success? && HasPrefix(r.value.url, "git@") && '@' !in r.value.branch
  {
    GitAtIndex(repo);
    var firstAt := IndexOf(repo, '@');
    var lastAt := LastIndex(repo, '@');
    if lastAt > firstAt then
      AfterLastHasNone(repo, '@');
      TrimSpaceKeepsOut(repo[lastAt + 1..], '@');
      assert repo[..lastAt][..4] == repo[..4];
      TrimKeepsLead(repo[..lastAt], "git@");
      Success(Repo(TrimSpace(repo[..lastAt]), TrimSpace(repo[lastAt + 1..])))
    else Success(Repo(repo, ""))
  }

  /** The first `@` of an SSH URL is the one in `git@`. */
  lemma GitAtIndex(repo: string)
    requires HasPrefix(repo, "git@")
    ensures '@' in repo && IndexOf(repo, '@') == 3
  {
    assert repo[..4][3] == repo[3];
    var lead := repo[..3];
    assert lead == "git";
    assert '@' !in lead;
    assert repo == lead + repo[3..];
    IndexAfter(lead, repo[3..], '@');
  }

  /** The first `c` of `a + b` lies in `b` when `a` holds none. */
  lemma {:induction false} IndexAfter(a: string, b: string, c: char)
    requires c !in a && c in b
    ensures c in a + b && IndexOf(a + b, c) == |a| + IndexOf(b, c)
    decreases |a|
  {
    if a == [] {
      assert a + b == b;
    } else {
      assert (a + b)[0] == a[0];
      assert (a + b)[1..] == a[1..] + b;
      IndexAfter(a[1..], b, c);
    }
  }

  lemma GitHubBase()
    ensures "https://" + "github.com/" == "https://github.com/"
  {
  }

  /** A framed middle keeps the frame's prefix and suffix. */
  lemma Framed(x: string, q: string, mid: string, z: string)
    requires HasPrefix(mid, q)
    ensures HasPrefix(x + mid + z, x + q) && HasSuffix(x + mid + z, z)
  {
    assert (x + mid + z)[..|x + q|] == x + mid[..|q|];
    assert (x + mid + z)[|x + mid + z| - |z|..] == z;
  }

  /** Nothing after the last occurrence of `c` is `c`. */
  lemma AfterLastHasNone(s: string, c: char)
    requires c in s
    ensures c !in s[LastIndex(s, c) + 1..]
  {
    var i := LastIndex(s, c);
    var after := s[i + 1..];
    forall k | 0 <= k < |after|
      ensures after[k] != c
    {
      assert after[k] == s[i + 1 + k];
    }
  }

  /** Trimming removes characters and never adds one. */
  lemma TrimSpaceKeepsOut(s: string, c: char)
    requires c !in s
    ensures c !in TrimSpace(s)
  {
    var l := TrimLeft(s);
    assert l == s[|s| - |l|..|s|];
    NotInSlice(s, |s| - |l|, |s|, c);
    var r := TrimRight(l);
    assert r == l[0..|r|];
    NotInSlice(l, 0, |r|, c);
  }

  /** A slice holds no character its string does not. */
  lemma NotInSlice(s: string, i: nat, j: nat, c: char)
    requires i <= j <= |s| && c !in s
    ensures c !in s[i..j]
  {
    forall k | 0 <= k < j - i
      ensures s[i..j][k] != c
    {
      assert s[i..j][k] == s[i + k];
    }
  }

  /** A lead without white space at its ends survives trimming. */
  lemma TrimKeepsLead(s: string, lead: string)
    requires HasPrefix(s, lead) && lead != [] && !IsSpace(lead[0]) && !IsSpace(lead[|lead| - 1])
    ensures HasPrefix(TrimSpace(s), lead)
  {
    assert s[0] == lead[0];
    assert TrimLeft(s) == s;
    var r := TrimRight(s);
    assert s[|lead| - 1] == lead[|lead| - 1];
    assert |r| >= |lead|;
    assert r[..|lead|] == s[..|lead|];
  }

  /** No white space at either end. */
  predicate Trimmed(s: string) {
    s != [] ==> !IsSpace(s[0]) && !IsSpace(s[|s| - 1])
  }

  /** A string whose two ends are not white space is its own trimming. */
  lemma TrimmedFrame(x: string, mid: string, z: string)
    requires x != [] && z != [] && !IsSpace(x[0]) && !IsSpace(z[|z| - 1])
    ensures TrimSpace(x + mid + z) == x + mid + z
  {
    var s := x + mid + z;
    assert s[0] == x[0] && s[|s| - 1] == z[|z| - 1];
    TrimSpaceIdentity(s);
  }

  lemma StripPrefix(x: string, m: string)
    ensures TrimPrefix(x + m, x) == m
  {
    assert (x + m)[..|x|] == x;
  }

  lemma StripSuffix(m: string, z: string)
    ensures TrimSuffix(m + z, z) == m
  {
    assert (m + z)[|m + z| - |z|..] == z;
  }

  /** A string whose first character differs from `q`'s does not start with `q`. */
  lemma NoStrip(m: string, q: string)
    requires m != [] && q != [] && m[0] != q[0]
    ensures TrimPrefix(m, q) == m
  {
    if |q| <= |m| {
      assert m[..|q|][0] == m[0];
    }
  }

  /** The last `c` of `a + [c] + b`, when `b` holds none, is the one between. */
  lemma {:induction false} LastIndexBefore(a: string, c: char, b: string)
    requires c !in b
    ensures LastIndex(a + [c] + b, c) == |a|
    decreases |b|
  {
    var s := a + [c] + b;
    if b == [] {
      assert s[|s| - 1] == c;
    } else {
      assert s[|s| - 1] == b[|b| - 1];
      assert s[..|s| - 1] == a + [c] + b[..|b| - 1];
      LastIndexBefore(a, c, b[..|b| - 1]);
    }
  }

  /** A trimmed `a` and `b` around an `@` split back into `a` and `b`. */
  lemma SplitAround(a: string, b: string)
    requires '@' !in b && Trimmed(a) && Trimmed(b)
    ensures SplitBranch(a + "@" + b) == (a, b)
  {
    var s := a + "@" + b;
    Around(a, b);
    LastIndexBefore(a, '@', b);
    TrimSpaceIdentity(a);
    TrimSpaceIdentity(b);
  }

  /** The pieces of `a + "@" + b`. */
  lemma Around(a: string, b: string)
    ensures var s := a + "@" + b;
      s == a + ['@'] + b && s[|a|] == '@' && s[..|a|] == a && s[|a| + 1..] == b
  {
    var s := a + "@" + b;
    assert s[..|a|] == a;
    assert s[|a| + 1..] == b;
  }

  /** Empty input, or `.`, after trimming is refused. */
  lemma EmptyOrDotRefused(input: string)
    requires TrimSpace(input) == "" || TrimSpace(input) == "."
    ensures ValidateGitRepoName(input) == Failure(InvalidName(TrimSpace(input)))
  {
  }

  /**
   * Apart from the empty and `.` inputs, only a non-SSH shorthand whose part
   * before the branch has no `/` is refused.
   */
  lemma RefusedExactly(input: string)
    ensures var repo := TrimSpace(input);
      ValidateGitRepoName(input).Failure? <==>
        || repo == "" || repo == "."
        || (!HasPrefix(repo, "git@") && '/' !in SplitBranch(repo).0)
  {
  }

  /** Without a later `@`, an SSH URL is its own clone URL under the default branch. */
  lemma SshWithoutBranch(input: string)
    requires HasPrefix(TrimSpace(input), "git@") && '@' !in TrimSpace(input)[4..]
    ensures ValidateGitRepoName(input) == Success(Repo(TrimSpace(input), ""))
  {
    var repo := TrimSpace(input);
    GitAtIndex(repo);
    forall k | 4 <= k < |repo|
      ensures repo[k] != '@'
    {
      assert repo[4..][k - 4] == repo[k];
    }
    assert LastIndex(repo, '@') == 3;
  }

  /** An SSH URL followed by `@branch` gives that URL and that branch. */
  lemma SshWithBranch(u: string, b: string)
    requires HasPrefix(u, "git@") && Trimmed(u)
    requires '@' !in b && Trimmed(b)
    ensures ValidateGitRepoName(u + "@" + b) == Success(Repo(u, b))
  {
    var s := u + "@" + b;
    SshAround(u, b);
    TrimmedAround(u, b);
    ValidateSsh(s);
    TrimSpaceIdentity(u);
    TrimSpaceIdentity(b);
  }

  /** A trimmed SSH URL goes to SshRepo. */
  lemma ValidateSsh(s: string)
    requires TrimSpace(s) == s && HasPrefix(s, "git@")
    ensures ValidateGitRepoName(s) == SshRepo(s)
  {
  }

  /** A trimmed shorthand that is neither empty, `.` nor SSH goes to HttpsRepo. */
  lemma ValidateHttps(s: string)
    requires TrimSpace(s) == s && s != "" && s != "." && !HasPrefix(s, "git@")
    ensures ValidateGitRepoName(s) == HttpsRepo(s)
  {
  }

  /** A path with a slash and no `@` becomes its GitHub URL under the default branch. */
  lemma HttpsNoAt(s: string)
    requires '@' !in s && '/' in s
    ensures HttpsRepo(s) == Success(Repo("https://" + GitHubPath(s) + ".git", ""))
  {
  }

  /** SshRepo splits `u@b` at the `@` after `u`. */
  lemma SshAround(u: string, b: string)
    requires HasPrefix(u, "git@") && '@' !in b
    ensures HasPrefix(u + "@" + b, "git@")
    ensures SshRepo(u + "@" + b) == Success(Repo(TrimSpace(u), TrimSpace(b)))
  {
    var s := u + "@" + b;
    Around(u, b);
    assert s[..4] == s[..|u|][..4];
    GitAtIndex(s);
    LastIndexBefore(u, '@', b);
  }

  /** Around an `@`, two trimmed strings make a trimmed string. */
  lemma TrimmedAround(a: string, b: string)
    requires a != [] && Trimmed(a) && Trimmed(b)
    ensures TrimSpace(a + "@" + b) == a + "@" + b
  {
    var s := a + "@" + b;
    assert s[0] == a[0];
    assert s[|s| - 1] == if b == [] then '@' else b[|b| - 1];
    TrimSpaceIdentity(s);
  }
  /** Without `@` there is no SSH prefix. */
  lemma NoAtNotGit(s: string)
    requires '@' !in s
    ensures !HasPrefix(s, "git@")
  {
    if |s| >= 4 {
      assert s[..4][3] == s[3];
    }
  }

  /** A path with a slash and no `@`, followed by `@branch`, is not an SSH URL. */
  lemma PathAroundNotGit(p: string, b: string)
    requires '@' !in p && '/' in p
    ensures !HasPrefix(p + "@" + b, "git@")
  {
    var s := p + "@" + b;
    Around(p, b);
    if |s| >= 4 {
      if |p| >= 4 {
        assert s[..4][3] == p[3];
      } else {
        var j :| 0 <= j < |p| && p[j] == '/';
        assert s[..4][j] == p[j];
      }
    }
  }

  /** Without `@`, the branch is empty. */
  lemma NoAtNoBranch(input: string)
    requires '@' !in TrimSpace(input) && ValidateGitRepoName(input).Success?
    ensures ValidateGitRepoName(input).value.branch == ""
  {
    NoAtNotGit(TrimSpace(input));
  }

  /** A trimmed path with a slash and no `@` is turned into its GitHub URL. */
  lemma PlainPath(p: string)
    requires Trimmed(p) && '@' !in p && '/' in p
    ensures ValidateGitRepoName(p) == Success(Repo("https://" + GitHubPath(p) + ".git", ""))
  {
    TrimSpaceIdentity(p);
    NoAtNotGit(p);
  }

  /** A `@branch` suffix changes only the branch. */
  lemma BranchSuffix(p: string, b: string)
    requires Trimmed(p) && '@' !in p && '/' in p
    requires Trimmed(b) && '@' !in b
    ensures ValidateGitRepoName(p).Success?
    ensures ValidateGitRepoName(p + "@" + b) == Success(Repo(ValidateGitRepoName(p).value.url, b))
  {
    PlainPath(p);
    var s := p + "@" + b;
    assert p != [];
    TrimmedAround(p, b);
    PathAroundNotGit(p, b);
    assert |s| == |p| + 1 + |b| >= 2;
    ValidateHttps(s);
    HttpsAround(p, b);
  }

  /** HttpsRepo splits `p@b` at the `@` after `p`. */
  lemma HttpsAround(p: string, b: string)
    requires Trimmed(p) && '/' in p && Trimmed(b) && '@' !in b
    ensures HttpsRepo(p + "@" + b) == Success(Repo("https://" + GitHubPath(p) + ".git", b))
  {
    SplitAround(p, b);
  }

  /** GitHubPath undoes the URL framing of a path on the GitHub host. */
  lemma PathOfUrl(path: string)
    requires HasPrefix(path, "github.com/")
    ensures GitHubPath("https://" + path + ".git") == path
  {
    var m := path + ".git";
    assert "https://" + path + ".git" == "https://" + m;
    StripPrefix("https://", m);
    assert m[0] == path[0] == 'g';
    NoStripAt(m, "http://", 0);
    StripSuffix(path, ".git");
  }

  /** A string that differs from `q` at some index within both does not start with `q`. */
  lemma NoStripAt(m: string, q: string, k: nat)
    requires k < |m| && k < |q| && m[k] != q[k]
    ensures TrimPrefix(m, q) == m
  {
    if |q| <= |m| {
      assert m[..|q|][k] == m[k];
    }
  }

  /**
   * Every GitHub URL without `@` is a fixed point: it validates to itself
   * under the default branch.
   */
  lemma UrlFixedPoint(path: string)
    requires HasPrefix(path, "github.com/") && '@' !in path
    ensures var url := "https://" + path + ".git";
      ValidateGitRepoName(url) == Success(Repo(url, ""))
  {
    UrlValidates(path);
    UrlPath(path);
    PathOfUrl(path);
  }

  lemma UrlValidates(path: string)
    requires HasPrefix(path, "github.com/") && '@' !in path
    ensures var url := "https://" + path + ".git";
      ValidateGitRepoName(url) == HttpsRepo(url)
  {
    var tail := path + ".git";
    assert "https://" + path + ".git" == "https://" + tail;
    assert tail[0] == path[0] == 'g' && tail[|tail| - 1] == 't';
    Schemes();
    ValidateFramed("https://", tail);
  }

  lemma UrlPath(path: string)
    requires '@' !in path
    ensures var url := "https://" + path + ".git";
      HttpsRepo(url) == Success(Repo("https://" + GitHubPath(url) + ".git", ""))
  {
    var url := "https://" + path + ".git";
    assert '/' in url by {
      assert url[6] == '/';
    }
    assert '@' !in url by {
      Schemes();
      NoAtJoin("https://", path, ".git");
    }
    HttpsNoAt(url);
  }

  /** The two schemes are trimmed, hold a slash and no `@`. */
  lemma Schemes()
    ensures Trimmed("https://") && '@' !in "https://" && '/' in "https://"
    ensures Trimmed("http://") && '@' !in "http://" && '/' in "http://"
    ensures '@' !in ".git"
  {
    assert "https://"[6] == '/';
    assert "http://"[5] == '/';
  }

  lemma NoAtJoin(x: string, y: string, z: string)
    requires '@' !in x && '@' !in y && '@' !in z
    ensures '@' !in x + y + z
  {
  }

  /** A trimmed address behind a scheme with a slash goes to HttpsRepo. */
  lemma ValidateFramed(x: string, y: string)
    requires |x| >= 2 && Trimmed(x) && '@' !in x && '/' in x
    requires Trimmed(y) && '@' !in y
    ensures ValidateGitRepoName(x + y) == HttpsRepo(x + y)
  {
    var s := x + y;
    assert !HasPrefix(s, "git@") by {
      NoAtNotGit(s);
    }
    assert s != "" && s != "." by {
      assert |s| >= 2;
    }
    assert TrimSpace(s) == s by {
      TrimmedJoin(x, y);
    }
    ValidateHttps(s);
  }

  /** So validating the URL a shorthand produced gives that URL back. */
  lemma NormalisedIsFixed(input: string)
    requires ValidateGitRepoName(input).Success? && !HasPrefix(TrimSpace(input), "git@")
    requires '@' !in ValidateGitRepoName(input).value.url
    ensures var url := ValidateGitRepoName(input).value.url;
      ValidateGitRepoName(url) == Success(Repo(url, ""))
  {
    var repo := TrimSpace(input);
    var path := GitHubPath(SplitBranch(repo).0);
    assert ValidateGitRepoName(input).value.url == "https://" + path + ".git";
    UrlFixedPoint(path);
  }

  /** The `http://` spelling of an address gives what the `https://` one gives. */
  lemma HttpLikeHttps(host: string)
    requires Trimmed(host) && '@' !in host && !HasPrefix(host, "http://")
    ensures ValidateGitRepoName("http://" + host) == ValidateGitRepoName("https://" + host)
  {
    Schemes();
    assert ValidateGitRepoName("http://" + host) == HttpsRepo("http://" + host) by {
      ValidateFramed("http://", host);
    }
    assert ValidateGitRepoName("https://" + host) == HttpsRepo("https://" + host) by {
      ValidateFramed("https://", host);
    }
    HttpSchemes(host);
  }

  lemma HttpSchemes(host: string)
    requires '@' !in host && !HasPrefix(host, "http://")
    ensures HttpsRepo("http://" + host) == HttpsRepo("https://" + host)
  {
    var a := "http://" + host;
    var b := "https://" + host;
    assert a[4] == ':' && a[5] == '/' && b[6] == '/';
    HttpsNoAt(a);
    HttpsNoAt(b);
    NoStripAt(a, "https://", 4);
    StripPrefix("http://", host);
    StripPrefix("https://", host);
  }

  /** A trimmed non-empty string followed by a trimmed string is trimmed. */
  lemma TrimmedJoin(x: string, y: string)
    requires x != [] && Trimmed(x) && Trimmed(y)
    ensures TrimSpace(x + y) == x + y
  {
    var s := x + y;
    assert s[0] == x[0];
    assert s[|s| - 1] == if y == [] then x[|x| - 1] else y[|y| - 1];
    TrimSpaceIdentity(s);
  }
}
