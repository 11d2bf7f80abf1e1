/**
 * The shorthands of the repository's own table for ValidateGitRepoName,
 * each derived from the general lemmas of module Git.
 */
module GitCases {
  import opened Wrappers
  import opened Text
  import opened Git

  /** A slashed owner/name with no scheme, host or `.git` of its own gains all three. */
  lemma OwnerPath(p: string)
    requires Trimmed(p) && '@' !in p && '/' in p
    requires p[0] != 'h' && p[0] != 'g' && !HasSuffix(p, ".git")
    ensures ValidateGitRepoName(p) == Success(Repo("https://github.com/" + p + ".git", ""))
  {
    PlainPath(p);
    assert GitHubPath(p) == "github.com/" + p by {
      NoStripAt(p, "https://", 0);
      NoStripAt(p, "http://", 0);
      assert !HasPrefix(p, "github.com/") by {
        assert "github.com/"[0] == 'g';
      }
    }
    Prefixed(p);
  }

  /** An owner/name followed by `@branch` keeps that branch. */
  lemma OwnerBranch(s: string, p: string, b: string)
    requires s == p + "@" + b
    requires Trimmed(p) && '@' !in p && '/' in p
    requires p[0] != 'h' && p[0] != 'g' && !HasSuffix(p, ".git")
    requires Trimmed(b) && '@' !in b
    ensures ValidateGitRepoName(s) == Success(Repo("https://github.com/" + p + ".git", b))
  {
    OwnerPath(p);
    BranchSuffix(p, b);
  }

  /** A path already on the GitHub host only gains the scheme and `.git`. */
  lemma HostPath(p: string)
    requires HasPrefix(p, "github.com/") && Trimmed(p) && '@' !in p && !HasSuffix(p, ".git")
    ensures ValidateGitRepoName(p) == Success(Repo("https://" + p + ".git", ""))
  {
    assert '/' in p by {
      assert p[10] == p[..11][10] == "github.com/"[10] == '/';
    }
    PlainPath(p);
    assert GitHubPath(p) == p by {
      assert p[0] == p[..11][0] == 'g';
      NoStripAt(p, "https://", 0);
      NoStripAt(p, "http://", 0);
    }
  }

  /** The `https://` scheme in front of a path on the GitHub host changes nothing. */
  lemma SchemeOptional(p: string)
    requires HasPrefix(p, "github.com/") && Trimmed(p) && '@' !in p
    ensures ValidateGitRepoName("https://" + p) == ValidateGitRepoName(p)
  {
    assert '/' in p by {
      assert p[10] == p[..11][10] == "github.com/"[10] == '/';
    }
    PlainPath(p);
    SchemeValidates(p);
    SchemeNoAt(p);
    SchemePath(p);
  }

  lemma SchemeValidates(p: string)
    requires Trimmed(p) && '@' !in p
    ensures ValidateGitRepoName("https://" + p) == HttpsRepo("https://" + p)
  {
    Schemes();
    ValidateFramed("https://", p);
  }

  lemma SchemeNoAt(p: string)
    requires '@' !in p
    ensures HttpsRepo("https://" + p) == Success(Repo("https://" + GitHubPath("https://" + p) + ".git", ""))
  {
    var s := "https://" + p;
    assert '/' in s by {
      assert s[6] == '/';
    }
    assert '@' !in s by {
      Schemes();
      NoAtJoin("https://", p, "");
      assert s == "https://" + p + "";
    }
    HttpsNoAt(s);
  }

  lemma SchemePath(p: string)
    requires p != [] && p[0] == 'g'
    ensures GitHubPath("https://" + p) == GitHubPath(p)
  {
    StripPrefix("https://", p);
    NoStripAt(p, "https://", 0);
    NoStripAt(p, "http://", 0);
  }

  /** The host prefix regrouped as one literal. */
  lemma Prefixed(p: string)
    ensures "https://" + ("github.com/" + p) + ".git" == "https://github.com/" + p + ".git"
  {
    Regroup("https://", "github.com/", p, ".git");
    GitHubBase();
  }

  lemma Regroup(a: string, b: string, c: string, d: string)
    ensures a + (b + c) + d == (a + b) + c + d
  {
  }

  /** A trimmed shorthand without `@` or `/` (other than `.`) is refused for its format. */
  lemma NoSlashRefused(p: string)
    requires Trimmed(p) && '@' !in p && '/' !in p && p != "" && p != "."
    ensures ValidateGitRepoName(p) == Failure(InvalidFormat(p))
  {
    TrimSpaceIdentity(p);
    NoAtNotGit(p);
  }

  /** After the branch is split off, a repository part without `/` is refused for its format. */
  lemma BranchNoSlashRefused(s: string, p: string, b: string)
    requires s == p + "@" + b
    requires p != [] && p[0] != 'g' && Trimmed(p) && '/' !in p
    requires Trimmed(b) && '@' !in b
    ensures ValidateGitRepoName(s) == Failure(InvalidFormat(p))
  {
    assert ValidateGitRepoName(s) == HttpsRepo(s) by {
      TrimmedAround(p, b);
      assert s[0] == p[0] && |s| >= 2;
      assert !HasPrefix(s, "git@") by {
        assert "git@"[0] == 'g';
      }
      ValidateHttps(s);
    }
    assert SplitBranch(s) == (p, b) by {
      SplitAround(p, b);
    }
  }

  lemma FooAtBarCase(input: string)
    requires input == "foo@bar"
    ensures ValidateGitRepoName(input) == Failure(InvalidFormat("foo"))
  {
    assert input == "foo" + "@" + "bar";
    assert Trimmed("foo") && '/' !in "foo";
    assert Trimmed("bar") && '@' !in "bar";
    BranchNoSlashRefused(input, "foo", "bar");
  }

  lemma EmptyCase(input: string)
    requires input == "" || input == "."
    ensures ValidateGitRepoName(input).Failure?
  {
    TrimSpaceIdentity(input);
    EmptyOrDotRefused(input);
  }

  lemma FooBarFacts()
    ensures Trimmed("foo/bar") && '@' !in "foo/bar" && '/' in "foo/bar"
    ensures !HasSuffix("foo/bar", ".git")
    ensures Trimmed("dev") && '@' !in "dev"
  {
    assert "foo/bar"[3] == '/';
    assert "foo/bar"[3..][0] == '/';
  }

  lemma FooBarCase(input: string)
    requires input == "foo/bar"
    ensures ValidateGitRepoName(input) == Success(Repo("https://github.com/foo/bar.git", ""))
  {
    FooBarFacts();
    OwnerPath(input);
    FooBarUrl();
  }

  lemma FooBarDevCase(input: string)
    requires input == "foo/bar@dev"
    ensures ValidateGitRepoName(input) == Success(Repo("https://github.com/foo/bar.git", "dev"))
  {
    FooBarFacts();
    assert input == "foo/bar" + "@" + "dev";
    OwnerBranch(input, "foo/bar", "dev");
    FooBarUrl();
  }

  lemma FooBarUrl()
    ensures "https://github.com/" + "foo/bar" + ".git" == "https://github.com/foo/bar.git"
  {
  }

  /** A path on the GitHub host followed by `@branch` keeps that branch. */
  lemma HostBranch(s: string, p: string, b: string)
    requires s == p + "@" + b
    requires HasPrefix(p, "github.com/") && Trimmed(p) && '@' !in p && !HasSuffix(p, ".git")
    requires Trimmed(b) && '@' !in b
    ensures ValidateGitRepoName(s) == Success(Repo("https://" + p + ".git", b))
  {
    assert '/' in p by {
      assert p[10] == p[..11][10] == "github.com/"[10] == '/';
    }
    HostPath(p);
    BranchSuffix(p, b);
  }

  /** The `http://` spelling of a path on the GitHub host is upgraded to HTTPS. */
  lemma HttpHost(s: string, p: string)
    requires s == "http://" + p
    requires HasPrefix(p, "github.com/") && Trimmed(p) && '@' !in p && !HasSuffix(p, ".git")
    ensures ValidateGitRepoName(s) == Success(Repo("https://" + p + ".git", ""))
  {
    assert p[0] == p[..11][0] == 'g';
    assert !HasPrefix(p, "http://") by {
      assert "http://"[0] == 'h';
    }
    HttpLikeHttps(p);
    SchemeOptional(p);
    HostPath(p);
  }

  /** A full GitHub clone URL is kept as it is. */
  lemma FullUrl(s: string, path: string)
    requires s == "https://" + path + ".git"
    requires HasPrefix(path, "github.com/") && '@' !in path
    ensures ValidateGitRepoName(s) == Success(Repo(s, ""))
  {
    UrlFixedPoint(path);
  }

  /** An SSH URL with no second `@` is kept as it is, on the default branch. */
  lemma SshPlain(s: string, rest: string)
    requires s == "git@" + rest && Trimmed(s) && '@' !in rest
    ensures ValidateGitRepoName(s) == Success(Repo(s, ""))
  {
    TrimSpaceIdentity(s);
    assert s[..4] == "git@" && s[4..] == rest;
    SshWithoutBranch(s);
  }

  /** An SSH URL followed by `@branch`. */
  lemma SshBranch(s: string, rest: string, b: string)
    requires s == "git@" + rest + "@" + b
    requires rest != [] && !IsSpace(rest[|rest| - 1])
    requires Trimmed(b) && '@' !in b
    ensures ValidateGitRepoName(s) == Success(Repo("git@" + rest, b))
  {
    var u := "git@" + rest;
    assert s == u + "@" + b;
    assert HasPrefix(u, "git@") by {
      assert u[..4] == "git@";
    }
    assert Trimmed(u) by {
      assert u[0] == 'g' && u[|u| - 1] == rest[|rest| - 1];
    }
    SshWithBranch(u, b);
  }

  lemma HostFacts()
    ensures "github.com/foo/bar" == "github.com/" + "foo/bar"
    ensures HasPrefix("github.com/foo/bar", "github.com/")
    ensures Trimmed("github.com/foo/bar") && '@' !in "github.com/foo/bar"
    ensures !HasSuffix("github.com/foo/bar", ".git")
    ensures Trimmed("feature") && '@' !in "feature"
  {
    assert "github.com/foo/bar"[14] == '/';
  }

  lemma HostCase(input: string)
    requires input == "github.com/foo/bar"
    ensures ValidateGitRepoName(input) == Success(Repo("https://github.com/foo/bar.git", ""))
  {
    HostFacts();
    HostPath(input);
    HostUrl();
  }

  lemma HostFeatureCase(input: string)
    requires input == "github.com/foo/bar@feature"
    ensures ValidateGitRepoName(input) == Success(Repo("https://github.com/foo/bar.git", "feature"))
  {
    HostFacts();
    assert input == "github.com/foo/bar" + "@" + "feature";
    HostBranch(input, "github.com/foo/bar", "feature");
    HostUrl();
  }

  lemma HttpsCase(input: string)
    requires input == "https://github.com/foo/bar.git"
    ensures ValidateGitRepoName(input) == Success(Repo("https://github.com/foo/bar.git", ""))
  {
    HostFacts();
    HostUrl();
    FullUrl(input, "github.com/foo/bar");
  }

  lemma HttpCase(input: string)
    requires input == "http://github.com/foo/bar"
    ensures ValidateGitRepoName(input) == Success(Repo("https://github.com/foo/bar.git", ""))
  {
    assert input == "http://" + "github.com/foo/bar" by {
      HttpSpelling();
    }
    assert ValidateGitRepoName(input) == Success(Repo("https://" + "github.com/foo/bar" + ".git", "")) by {
      HostFacts();
      HttpHost(input, "github.com/foo/bar");
    }
    HostUrl();
  }

  lemma HttpSpelling()
    ensures "http://github.com/foo/bar" == "http://" + "github.com/foo/bar"
  {
  }

  lemma HostUrl()
    ensures "https://" + "github.com/foo/bar" + ".git" == "https://github.com/foo/bar.git"
  {
  }

  lemma NoSlashCase(input: string)
    requires input == "foobar"
    ensures ValidateGitRepoName(input) == Failure(InvalidFormat("foobar"))
  {
    assert Trimmed(input) && '@' !in input && '/' !in input;
    NoSlashRefused(input);
  }

  lemma SshFacts()
    ensures "git@github.com:user/repo.git" == "git@" + "github.com:user/repo.git"
  {
  }

  lemma SshTrimmed()
    ensures Trimmed("git@github.com:user/repo.git")
  {
  }

  lemma SshRestFacts()
    ensures '@' !in "github.com:user/repo.git"
    ensures Trimmed("feature-branch") && '@' !in "feature-branch"
  {
  }

  lemma SshCase(input: string)
    requires input == "git@github.com:user/repo.git"
    ensures ValidateGitRepoName(input) == Success(Repo("git@github.com:user/repo.git", ""))
  {
    SshFacts();
    SshTrimmed();
    SshRestFacts();
    SshPlain(input, "github.com:user/repo.git");
  }

  lemma SshBranchCase(input: string)
    requires input == "git@github.com:user/repo.git@feature-branch"
    ensures ValidateGitRepoName(input) == Success(Repo("git@github.com:user/repo.git", "feature-branch"))
  {
    SshFacts();
    SshRestFacts();
    assert input == "git@" + "github.com:user/repo.git" + "@" + "feature-branch";
    SshBranch(input, "github.com:user/repo.git", "feature-branch");
  }
}
