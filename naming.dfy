/** How the analyser names a repository and the paths it uses for it:
    `repo_name = repo_url.split('/')[-1].replace('.git', '')`, the artifact
    `<output_dir>/<repo_name>.arch.md` and the working copy
    `<output_dir>/clone_<repo_name>`. Paths are strings joined with `/`;
    the output directory is taken as already normalised. */
module Naming {
  import opened Strings

  const GitSuffix: string := ".git"
  const ArtifactSuffix: string := ".arch.md"
  const ClonePrefix: string := "clone_"

  /** Python's `s.split('/')[-1]`: the text after the last `/`, or all of `s`. */
  function LastSegment(s: string): (r: string)
    ensures '/' !in r
    ensures EndsWith(s, r)
    ensures |r| < |s| ==> s[|s| - |r| - 1] == '/'
  {
    if s == [] then []
    else if s[|s| - 1] == '/' then []
    else LastSegment(s[..|s| - 1]) + [s[|s| - 1]]
  }

  /** Python's `s.replace('.git', '')`: scan left to right, dropping every
      non-overlapping occurrence of `.git`. */
  function StripGit(s: string): (r: string)
    ensures forall c :: c in r ==> c in s
    ensures |r| <= |s|
  {
    if s == [] then []
    else if GitSuffix <= s then StripGit(s[|GitSuffix|..])
    else [s[0]] + StripGit(s[1..])
  }

  /** The repository name derived from its URL. */
  function RepoName(url: string): (name: string)
    ensures '/' !in name
  {
    StripGit(LastSegment(url))
  }

  function OutputFile(outputDir: string, name: string): string
  {
    outputDir + "/" + name + ArtifactSuffix
  }

  function CloneDir(outputDir: string, name: string): string
  {
    outputDir + "/" + ClonePrefix + name
  }

  /** `p` is `root` itself or lies somewhere below it. */
  predicate Under(p: string, root: string)
  {
    p == root || root + "/" <= p
  }

  /** A string without `.git` is left as it is. */
  lemma {:induction false} StripGitNoMatch(s: string)
    requires !Contains(s, GitSuffix)
    ensures StripGit(s) == s
  {
    if s != [] {
      if GitSuffix <= s {
        assert OccursAt(s, GitSuffix, 0);
        assert false;
      }
      forall i | 0 <= i <= |s[1..]| && OccursAt(s[1..], GitSuffix, i) ensures OccursAt(s, GitSuffix, i + 1) {
        assert s[i + 1..i + 1 + |GitSuffix|] == s[1..][i..i + |GitSuffix|];
      }
      StripGitNoMatch(s[1..]);
    }
  }

  /** No occurrence of `.git` can straddle a boundary that is followed by a
      dot, because `.git` has no other dot: the scan of `a + b` is the scan of
      `a` followed by the scan of `b`. */
  lemma {:induction false} StripGitConcat(a: string, b: string)
    requires b == [] || b[0] == '.'
    ensures StripGit(a + b) == StripGit(a) + StripGit(b)
  {
    if a == [] {
      assert a + b == b;
    } else if GitSuffix <= a {
      assert GitSuffix <= a + b;
      assert (a + b)[4..] == a[4..] + b;
      StripGitConcat(a[4..], b);
    } else {
      NoStraddle(a, b);
      assert (a + b)[1..] == a[1..] + b;
      StripGitConcat(a[1..], b);
    }
  }

  /** A `.git` that does not start `a` cannot start `a + b` either when `b`
      is empty or starts with a dot. */
  lemma NoStraddle(a: string, b: string)
    requires a != [] && !(GitSuffix <= a)
    requires b == [] || b[0] == '.'
    ensures !(GitSuffix <= a + b)
  {
    if |a| >= 4 {
      assert (a + b)[..4] == a[..4];
    } else if b == [] {
      assert a + b == a;
    } else {
      assert (a + b)[|a|] == b[0];
    }
  }

  /** `replace` removes every occurrence, wherever it stands: an infix `.git`
      disappears just as a trailing one does. */
  lemma StripGitInfix(a: string, b: string)
    ensures StripGit(a + GitSuffix + b) == StripGit(a) + StripGit(b)
  {
    StripGitConcat(a, GitSuffix + b);
    assert a + GitSuffix + b == a + (GitSuffix + b);
    assert (GitSuffix + b)[4..] == b;
  }

  /** For the usual URL `<anything>/<base>.git` or `<anything>/<base>`, where
      `<base>` has no `/` and no `.git`, the name is `<base>`. */
  lemma RepoNameOfUsualUrl(host: string, base: string, withSuffix: bool)
    requires '/' !in base && !Contains(base, GitSuffix)
    ensures RepoName(host + "/" + base + (if withSuffix then GitSuffix else "")) == base
  {
    var tail := base + (if withSuffix then GitSuffix else "");
    var url := host + "/" + base + (if withSuffix then GitSuffix else "");
    assert url == (host + "/") + tail;
    LastSegmentAfterSlash(host + "/", tail);
    StripGitNoMatch(base);
    if withSuffix {
      StripGitConcat(base, GitSuffix);
      assert StripGit(GitSuffix[4..]) == [];
    } else {
      assert tail == base;
    }
  }

  lemma {:induction false} LastSegmentAfterSlash(head: string, tail: string)
    requires head != [] && head[|head| - 1] == '/' && '/' !in tail
    ensures LastSegment(head + tail) == tail
  {
    if tail == [] {
      assert head + tail == head;
    } else {
      var s := head + tail;
      assert s[..|s| - 1] == head + tail[..|tail| - 1];
      LastSegmentAfterSlash(head, tail[..|tail| - 1]);
      assert tail == tail[..|tail| - 1] + [tail[|tail| - 1]];
    }
  }

  /** The artifact's own file name is `<name>.arch.md`, directly inside the
      output directory. */
  lemma OutputFileShape(outputDir: string, name: string)
    requires '/' !in name
    ensures EndsWith(OutputFile(outputDir, name), ArtifactSuffix)
    ensures LastSegment(OutputFile(outputDir, name)) == name + ArtifactSuffix
    ensures outputDir + "/" <= OutputFile(outputDir, name)
  {
    assert OutputFile(outputDir, name) == (outputDir + "/") + (name + ArtifactSuffix);
    LastSegmentAfterSlash(outputDir + "/", name + ArtifactSuffix);
  }

  /** No artifact lies strictly below any clone directory of the same
      output directory, because the artifact's file name has no `/`. */
  lemma ArtifactNotBelowCloneDir(outputDir: string, name: string, other: string)
    requires '/' !in name
    ensures !(CloneDir(outputDir, other) + "/" <= OutputFile(outputDir, name))
  {
    var out := OutputFile(outputDir, name);
    var clone := CloneDir(outputDir, other);
    var k := |outputDir| + 1;
    assert out[k..] == name + ArtifactSuffix;
    if |clone| < |out| {
      assert out[|clone|] == out[k..][|clone| - k];
      assert out[|clone|] != '/';
    }
  }

  /** A repository's artifact is never its own clone directory, so removing
      the working copy leaves the artifact alone. (Two DIFFERENT names can
      collide: `clone_x` has artifact `clone_x.arch.md`, which is the clone
      directory of a repository named `x.arch.md`.) */
  lemma ArtifactOutsideOwnCloneDir(outputDir: string, name: string)
    requires '/' !in name
    ensures !Under(OutputFile(outputDir, name), CloneDir(outputDir, name))
  {
    ArtifactNotBelowCloneDir(outputDir, name, name);
    assert |OutputFile(outputDir, name)| != |CloneDir(outputDir, name)|;
  }

  /** The output directory itself is never inside a clone directory. */
  lemma OutputDirOutsideCloneDir(outputDir: string, other: string)
    ensures !Under(outputDir, CloneDir(outputDir, other))
  {
  }
}
