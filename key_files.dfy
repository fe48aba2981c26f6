/** `_read_key_files`: the configuration and documentation files that go
    into the prompt. A fixed list of exact names at the repository root and
    of wildcard patterns under `.github/workflows` is tried in order; each
    readable file found is recorded under its path relative to the root, its
    text cut to the first 5000 characters. Unreadable files, and directories
    that happen to match, are skipped silently. The result is a Python dict,
    kept here as a list of (path, content) entries in insertion order. */
module KeyFiles {
  import opened Strings
  import opened Checkout

  const KeyFileLimit: nat := 5000

  /** One entry of the `common_files` list: a plain name, or a directory and
      a `*<suffix>` file-name pattern inside it. */
  datatype Pattern = Exact(name: string) | Wildcard(dir: seq<string>, suffix: string)

  const WorkflowDir: seq<string> := [".github", "workflows"]

  const CommonFiles: seq<Pattern> := [
    Exact("README.md"),
    Exact("package.json"),
    Exact("requirements.txt"),
    Exact("pyproject.toml"),
    Exact("Cargo.toml"),
    Wildcard(WorkflowDir, ".yml"),
    Wildcard(WorkflowDir, ".yaml")
  ]

  datatype KeyFile = KeyFile(path: string, content: string)

  /** `read_text()[:5000]`. */
  function Truncate(text: string): string
  {
    Take(text, KeyFileLimit)
  }

  /** The truncation law: the recorded text is the first `min(len, 5000)`
      characters: all of a shorter file, exactly 5000 characters otherwise. */
  lemma TruncationLaw(text: string)
    ensures Truncate(text) <= text
    ensures |text| <= KeyFileLimit ==> Truncate(text) == text
    ensures |text| > KeyFileLimit ==> |Truncate(text)| == KeyFileLimit && Truncate(text) == text[..KeyFileLimit]
  {
  }

  // ------------------------------------------------------------ dict model

  /** `d[path] = content`: overwrite in place if the key is present, else
      append at the end. */
  function Put(d: seq<KeyFile>, path: string, content: string): (r: seq<KeyFile>)
  {
    if d == [] then [KeyFile(path, content)]
    else if d[0].path == path then [KeyFile(path, content)] + d[1..]
    else [d[0]] + Put(d[1..], path, content)
  }

  /** `d.get(path)`. */
  function Get(d: seq<KeyFile>, path: string): Option<string>
  {
    if d == [] then None
    else if d[0].path == path then Some(d[0].content)
    else Get(d[1..], path)
  }

  predicate DistinctKeys(d: seq<KeyFile>)
  {
    forall i, j :: 0 <= i < j < |d| ==> d[i].path != d[j].path
  }

  /** Assignment keeps the keys distinct and changes the value of `path` only. */
  lemma {:induction false} PutLaws(d: seq<KeyFile>, path: string, content: string)
    ensures DistinctKeys(d) ==> DistinctKeys(Put(d, path, content))
    ensures forall k :: Get(Put(d, path, content), k) == if k == path then Some(content) else Get(d, k)
    ensures forall e :: e in Put(d, path, content) ==> e in d || e == KeyFile(path, content)
  {
    if d != [] && d[0].path != path {
      PutLaws(d[1..], path, content);
      var r := Put(d, path, content);
      var tail := Put(d[1..], path, content);
      assert r == [d[0]] + tail;
      if DistinctKeys(d) {
        assert DistinctKeys(d[1..]) by {
          forall i, j | 0 <= i < j < |d[1..]| ensures d[1..][i].path != d[1..][j].path {
            assert d[1..][i] == d[i + 1] && d[1..][j] == d[j + 1];
          }
        }
        forall j | 0 <= j < |tail| ensures tail[j].path != d[0].path {
          assert tail[j] in tail;
          if tail[j] != KeyFile(path, content) {
            var m :| 0 <= m < |d[1..]| && d[1..][m] == tail[j];
            assert d[m + 1] == tail[j];
          }
        }
        forall i, j | 0 <= i < j < |r| ensures r[i].path != r[j].path {
          if i == 0 { assert r[j] == tail[j - 1]; }
          else { assert r[i] == tail[i - 1] && r[j] == tail[j - 1]; }
        }
      }
    } else if d != [] {
      var r := Put(d, path, content);
      if DistinctKeys(d) {
        forall i, j | 0 <= i < j < |r| ensures r[i].path != r[j].path {
          if i == 0 { assert r[j] == d[j]; assert d[0].path != d[j].path; }
          else { assert r[i] == d[i] && r[j] == d[j]; }
        }
      }
      forall k | k != path ensures Get(r, k) == Get(d, k) {
        assert r[1..] == d[1..];
      }
    }
  }

  /** The assignments `d[h.path] = h.content` for every hit `h`, in order. */
  function PutAll(d: seq<KeyFile>, hits: seq<KeyFile>): seq<KeyFile>
  {
    if hits == [] then d
    else
      var last := hits[|hits| - 1];
      Put(PutAll(d, hits[..|hits| - 1]), last.path, last.content)
  }

  /** The value a sequence of assignments leaves for `path`: the last one
      made, if any. */
  function LastFor(hits: seq<KeyFile>, path: string): Option<string>
  {
    if hits == [] then None
    else if hits[|hits| - 1].path == path then Some(hits[|hits| - 1].content)
    else LastFor(hits[..|hits| - 1], path)
  }

  lemma {:induction false} PutAllLaws(d: seq<KeyFile>, hits: seq<KeyFile>)
    ensures DistinctKeys(d) ==> DistinctKeys(PutAll(d, hits))
    ensures forall k :: Get(PutAll(d, hits), k) == if LastFor(hits, k).Some? then LastFor(hits, k) else Get(d, k)
    ensures forall e :: e in PutAll(d, hits) ==> e in d || e in hits
  {
    if hits != [] {
      var init := hits[..|hits| - 1];
      var last := hits[|hits| - 1];
      PutAllLaws(d, init);
      PutLaws(PutAll(d, init), last.path, last.content);
      forall e | e in PutAll(d, hits) ensures e in d || e in hits {
        if e != KeyFile(last.path, last.content) {
          assert e in PutAll(d, init);
          if e in init {
            var m :| 0 <= m < |init| && init[m] == e;
            assert hits[m] == e;
          }
        }
      }
    }
  }

  lemma {:induction false} LastForAppend(a: seq<KeyFile>, b: seq<KeyFile>, path: string)
    ensures LastFor(a + b, path) == if LastFor(b, path).Some? then LastFor(b, path) else LastFor(a, path)
  {
    if b == [] {
      assert a + b == a;
    } else {
      assert (a + b)[..|a + b| - 1] == a + b[..|b| - 1];
      assert (a + b)[|a + b| - 1] == b[|b| - 1];
      LastForAppend(a, b[..|b| - 1], path);
    }
  }

  lemma {:induction false} LastForNone(hits: seq<KeyFile>, path: string)
    requires forall h :: h in hits ==> h.path != path
    ensures LastFor(hits, path) == None
  {
    if hits != [] {
      assert hits[|hits| - 1] in hits;
      assert forall h :: h in hits[..|hits| - 1] ==> h in hits;
      LastForNone(hits[..|hits| - 1], path);
    }
  }

  // ------------------------------------------------------------ what is read

  /** The record for one found file: the file when it is a readable regular
      file, nothing otherwise (`read_text` raised and the error was ignored). */
  function FileHit(path: string, f: Entry): seq<KeyFile>
  {
    if !f.isDir && f.readable then [KeyFile(path, Truncate(f.content))] else []
  }

  /** `parent.glob("*" + suffix)` over a listing, in listing order. */
  function GlobHits(listing: seq<Entry>, base: string, suffix: string): seq<KeyFile>
  {
    if listing == [] then []
    else
      var f := listing[|listing| - 1];
      GlobHits(listing[..|listing| - 1], base, suffix)
      + (if EndsWith(f.name, suffix) then FileHit(base + "/" + f.name, f) else [])
  }

  /** The records one entry of `common_files` contributes. A wildcard's
      directory must exist; globbing a path that is not a directory, or whose
      listing cannot be read, yields nothing. */
  function PatternHits(root: Entry, p: Pattern): seq<KeyFile>
  {
    match p
    case Exact(name) =>
      (match Lookup(root, [name])
       case None => []
       case Some(f) => FileHit(name, f))
    case Wildcard(dir, suffix) =>
      (match Lookup(root, dir)
       case None => []
       case Some(parent) =>
         if parent.isDir && parent.readable then GlobHits(parent.children, Join(dir, "/"), suffix) else [])
  }

  function HitsOf(root: Entry, ps: seq<Pattern>): seq<KeyFile>
  {
    if ps == [] then []
    else HitsOf(root, ps[..|ps| - 1]) + PatternHits(root, ps[|ps| - 1])
  }

  /** The dict `_read_key_files(repo_dir)` returns. */
  function KeyFilesOf(root: Entry): seq<KeyFile>
  {
    PutAll([], HitsOf(root, CommonFiles))
  }

  lemma {:induction false} GlobHitsShape(listing: seq<Entry>, base: string, suffix: string)
    ensures forall h :: h in GlobHits(listing, base, suffix) ==>
      |h.content| <= KeyFileLimit && base + "/" <= h.path && EndsWith(h.path, suffix)
  {
    if listing != [] {
      var f := listing[|listing| - 1];
      GlobHitsShape(listing[..|listing| - 1], base, suffix);
      if EndsWith(f.name, suffix) && !f.isDir && f.readable {
        var path := base + "/" + f.name;
        assert path[|path| - |suffix|..] == f.name[|f.name| - |suffix|..];
      }
    }
  }

  /** Found if present: every readable regular file of the listing whose
      name ends in `suffix` is recorded, under `base/<name>`, with its
      truncated text. */
  lemma {:induction false} GlobHitsMember(listing: seq<Entry>, base: string, suffix: string, k: nat)
    requires k < |listing| && EndsWith(listing[k].name, suffix) && !listing[k].isDir && listing[k].readable
    ensures KeyFile(base + "/" + listing[k].name, Truncate(listing[k].content)) in GlobHits(listing, base, suffix)
  {
    var init := listing[..|listing| - 1];
    if k < |listing| - 1 {
      assert init[k] == listing[k];
      GlobHitsMember(init, base, suffix, k);
    }
  }

  /** Conversely, every record of a glob is the truncated text of a readable
      regular file of the listing whose name ends in `suffix`. */
  lemma {:induction false} GlobHitsSource(listing: seq<Entry>, base: string, suffix: string)
    ensures forall h :: h in GlobHits(listing, base, suffix) ==>
      exists f :: f in listing && EndsWith(f.name, suffix) && !f.isDir && f.readable
                  && h == KeyFile(base + "/" + f.name, Truncate(f.content))
  {
    if listing != [] {
      var init := listing[..|listing| - 1];
      var last := listing[|listing| - 1];
      GlobHitsSource(init, base, suffix);
      forall h | h in GlobHits(listing, base, suffix)
        ensures exists f :: f in listing && EndsWith(f.name, suffix) && !f.isDir && f.readable
                            && h == KeyFile(base + "/" + f.name, Truncate(f.content))
      {
        if h in GlobHits(init, base, suffix) {
          var f :| f in init && EndsWith(f.name, suffix) && !f.isDir && f.readable
                   && h == KeyFile(base + "/" + f.name, Truncate(f.content));
          assert f in listing;
        } else {
          assert last in listing;
        }
      }
    }
  }

  /** The shape of every record a pattern yields. */
  predicate FromPattern(h: KeyFile, p: Pattern)
  {
    && |h.content| <= KeyFileLimit
    && match p
       case Exact(name) => h.path == name
       case Wildcard(dir, suffix) => Join(dir, "/") + "/" <= h.path && EndsWith(h.path, suffix)
  }

  lemma PatternHitsShape(root: Entry, p: Pattern)
    ensures forall h :: h in PatternHits(root, p) ==> FromPattern(h, p)
  {
    match p
    case Exact(name) =>
    case Wildcard(dir, suffix) =>
      match Lookup(root, dir)
      case None =>
      case Some(parent) =>
        GlobHitsShape(parent.children, Join(dir, "/"), suffix);
  }

  lemma {:induction false} HitsOfShape(root: Entry, ps: seq<Pattern>)
    ensures forall h :: h in HitsOf(root, ps) ==> exists p :: p in ps && FromPattern(h, p)
  {
    if ps != [] {
      var last := ps[|ps| - 1];
      HitsOfShape(root, ps[..|ps| - 1]);
      PatternHitsShape(root, last);
      forall h | h in HitsOf(root, ps) ensures exists p :: p in ps && FromPattern(h, p) {
        if h in PatternHits(root, last) {
          assert last in ps && FromPattern(h, last);
        } else {
          assert h in HitsOf(root, ps[..|ps| - 1]);
          var p :| p in ps[..|ps| - 1] && FromPattern(h, p);
          assert p in ps;
        }
      }
    }
  }

  /** Every recorded key is unique, every recorded text is at most 5000
      characters, and every key is one of the five root names or a
      `.github/workflows/` path ending in `.yml` or `.yaml`. */
  lemma KeyFilesShape(root: Entry)
    ensures DistinctKeys(KeyFilesOf(root))
    ensures forall e :: e in KeyFilesOf(root) ==> |e.content| <= KeyFileLimit
    ensures forall e :: e in KeyFilesOf(root) ==>
      || e.path in {"README.md", "package.json", "requirements.txt", "pyproject.toml", "Cargo.toml"}
      || (".github/workflows/" <= e.path && (EndsWith(e.path, ".yml") || EndsWith(e.path, ".yaml")))
  {
    var hits := HitsOf(root, CommonFiles);
    PutAllLaws([], hits);
    HitsOfShape(root, CommonFiles);
    WorkflowBase();
    forall e | e in KeyFilesOf(root)
      ensures || e.path in {"README.md", "package.json", "requirements.txt", "pyproject.toml", "Cargo.toml"}
              || (".github/workflows/" <= e.path && (EndsWith(e.path, ".yml") || EndsWith(e.path, ".yaml")))
    {
      assert e in hits;
      var p :| p in CommonFiles && FromPattern(e, p);
    }
  }

  lemma WorkflowBase()
    ensures Join(WorkflowDir, "/") == ".github/workflows"
  {
    assert WorkflowDir[1..] == ["workflows"];
  }

  /** A root-level key file is recorded exactly when a readable regular file
      of that name exists, and then with its truncated text. */
  lemma ExactKeyFile(root: Entry, name: string)
    requires Exact(name) in CommonFiles
    ensures Get(KeyFilesOf(root), name) ==
      match Lookup(root, [name])
      case Some(f) => if !f.isDir && f.readable then Some(Truncate(f.content)) else None
      case None => None
  {
    var k :| 0 <= k < |CommonFiles| && CommonFiles[k] == Exact(name);
    forall q | 0 <= q < |CommonFiles| && q != k
      ensures LastFor(PatternHits(root, CommonFiles[q]), name) == None
    {
      OtherPatternSilent(root, k, q);
    }
    LastForOfPatterns(root, CommonFiles, k, name);
    PutAllLaws([], HitsOf(root, CommonFiles));
    var hits := PatternHits(root, Exact(name));
    if hits != [] {
      assert hits[..0] == [];
    }
  }

  /** Every record of the full hit list comes from one of the patterns. */
  lemma {:induction false} HitsOfMember(root: Entry, ps: seq<Pattern>)
    ensures forall h :: h in HitsOf(root, ps) ==> exists p :: p in ps && h in PatternHits(root, p)
  {
    if ps != [] {
      var init := ps[..|ps| - 1];
      var last := ps[|ps| - 1];
      HitsOfMember(root, init);
      forall h | h in HitsOf(root, ps) ensures exists p :: p in ps && h in PatternHits(root, p) {
        if h in PatternHits(root, last) {
          assert last in ps;
        } else {
          assert h in HitsOf(root, init);
          var p :| p in init && h in PatternHits(root, p);
          assert p in ps;
        }
      }
    }
  }

  /** Every record of one pattern is in the full hit list. */
  lemma {:induction false} HitsOfIncludes(root: Entry, ps: seq<Pattern>, q: nat)
    requires q < |ps|
    ensures forall h :: h in PatternHits(root, ps[q]) ==> h in HitsOf(root, ps)
  {
    var init := ps[..|ps| - 1];
    if q < |ps| - 1 {
      assert init[q] == ps[q];
      HitsOfIncludes(root, init, q);
    }
  }

  /** A key that some assignment sets ends up set, to a value one of the
      assignments gave it. */
  lemma {:induction false} LastForIn(hits: seq<KeyFile>, h: KeyFile)
    requires h in hits
    ensures LastFor(hits, h.path).Some?
    ensures KeyFile(h.path, LastFor(hits, h.path).value) in hits
  {
    var init := hits[..|hits| - 1];
    if hits[|hits| - 1].path != h.path {
      assert h in init;
      LastForIn(init, h);
      assert forall x :: x in init ==> x in hits;
    }
  }

  /** A record whose key is not one of the root names was globbed from the
      readable `.github/workflows` directory. */
  lemma WorkflowHitSource(root: Entry, h: KeyFile)
    requires h in HitsOf(root, CommonFiles) && Exact(h.path) !in CommonFiles
    ensures Lookup(root, WorkflowDir).Some?
    ensures Lookup(root, WorkflowDir).value.isDir && Lookup(root, WorkflowDir).value.readable
    ensures exists f :: f in Lookup(root, WorkflowDir).value.children
                        && (EndsWith(f.name, ".yml") || EndsWith(f.name, ".yaml")) && !f.isDir && f.readable
                        && h == KeyFile(".github/workflows/" + f.name, Truncate(f.content))
  {
    HitsOfMember(root, CommonFiles);
    var p :| p in CommonFiles && h in PatternHits(root, p);
    WorkflowBase();
    match p
    case Exact(name) =>
      assert false;
    case Wildcard(dir, suffix) =>
      assert dir == WorkflowDir && (suffix == ".yml" || suffix == ".yaml");
      var parent := Lookup(root, WorkflowDir).value;
      GlobHitsSource(parent.children, ".github/workflows", suffix);
      var f :| f in parent.children && EndsWith(f.name, suffix) && !f.isDir && f.readable
               && h == KeyFile(".github/workflows" + "/" + f.name, Truncate(f.content));
      assert ".github/workflows" + "/" + f.name == ".github/workflows/" + f.name;
  }

  /** Every workflow record of the dict is the truncated text of a readable
      `.yml` or `.yaml` file of the `.github/workflows` directory. */
  lemma WorkflowKeyFileSource(root: Entry, e: KeyFile)
    requires e in KeyFilesOf(root) && Exact(e.path) !in CommonFiles
    ensures Lookup(root, WorkflowDir).Some?
    ensures Lookup(root, WorkflowDir).value.isDir && Lookup(root, WorkflowDir).value.readable
    ensures exists f :: f in Lookup(root, WorkflowDir).value.children
                        && (EndsWith(f.name, ".yml") || EndsWith(f.name, ".yaml")) && !f.isDir && f.readable
                        && e == KeyFile(".github/workflows/" + f.name, Truncate(f.content))
  {
    PutAllLaws([], HitsOf(root, CommonFiles));
    WorkflowHitSource(root, e);
  }

  /** Found if present: a readable `.yml` or `.yaml` file in a readable
      `.github/workflows` directory is recorded under
      `.github/workflows/<name>` with the truncated text of a file of that
      name, which is this file when no other entry shares its name. */
  lemma WorkflowKeyFile(root: Entry, c: Entry)
    requires Lookup(root, WorkflowDir).Some?
    requires Lookup(root, WorkflowDir).value.isDir && Lookup(root, WorkflowDir).value.readable
    requires c in Lookup(root, WorkflowDir).value.children
    requires (EndsWith(c.name, ".yml") || EndsWith(c.name, ".yaml")) && !c.isDir && c.readable
    ensures Get(KeyFilesOf(root), ".github/workflows/" + c.name).Some?
    ensures exists f :: f in Lookup(root, WorkflowDir).value.children && f.name == c.name && !f.isDir && f.readable
                        && Get(KeyFilesOf(root), ".github/workflows/" + c.name) == Some(Truncate(f.content))
    ensures (forall f :: f in Lookup(root, WorkflowDir).value.children && f.name == c.name ==> f == c) ==>
              Get(KeyFilesOf(root), ".github/workflows/" + c.name) == Some(Truncate(c.content))
  {
    var path := ".github/workflows/" + c.name;
    var hits := HitsOf(root, CommonFiles);
    WorkflowHitPresent(root, c);
    LastForIn(hits, KeyFile(path, Truncate(c.content)));
    PutAllLaws([], hits);
    var v := LastFor(hits, path).value;
    WorkflowPathNotRoot(c.name);
    WorkflowHitSource(root, KeyFile(path, v));
    var f :| f in Lookup(root, WorkflowDir).value.children && !f.isDir && f.readable
             && KeyFile(path, v) == KeyFile(".github/workflows/" + f.name, Truncate(f.content));
    assert f.name == c.name by {
      assert c.name == path[18..] && f.name == path[18..];
    }
  }

  /** The glob record of a matching workflow file is among the hits. */
  lemma WorkflowHitPresent(root: Entry, c: Entry)
    requires Lookup(root, WorkflowDir).Some?
    requires Lookup(root, WorkflowDir).value.isDir && Lookup(root, WorkflowDir).value.readable
    requires c in Lookup(root, WorkflowDir).value.children
    requires (EndsWith(c.name, ".yml") || EndsWith(c.name, ".yaml")) && !c.isDir && c.readable
    ensures KeyFile(".github/workflows/" + c.name, Truncate(c.content)) in HitsOf(root, CommonFiles)
  {
    var parent := Lookup(root, WorkflowDir).value;
    WorkflowBase();
    var k :| 0 <= k < |parent.children| && parent.children[k] == c;
    var q := if EndsWith(c.name, ".yml") then 5 else 6;
    GlobHitsMember(parent.children, ".github/workflows", CommonFiles[q].suffix, k);
    assert ".github/workflows" + "/" + c.name == ".github/workflows/" + c.name;
    HitsOfIncludes(root, CommonFiles, q);
  }

  /** A workflow path is none of the root names: it has a `/` at index 7. */
  lemma WorkflowPathNotRoot(name: string)
    ensures Exact(".github/workflows/" + name) !in CommonFiles
  {
    var path := ".github/workflows/" + name;
    assert path[7] == '/';
  }

  /** Only the pattern `Exact(name)` yields the key `name`: the other exact
      names differ, and workflow paths contain a `/`. */
  lemma OtherPatternSilent(root: Entry, k: nat, q: nat)
    requires k < |CommonFiles| && q < |CommonFiles| && q != k && CommonFiles[k].Exact?
    ensures LastFor(PatternHits(root, CommonFiles[q]), CommonFiles[k].name) == None
  {
    var name := CommonFiles[k].name;
    PatternHitsShape(root, CommonFiles[q]);
    if q >= 5 {
      WorkflowBase();
      forall h | h in PatternHits(root, CommonFiles[q]) ensures h.path != name {
        assert ".github/workflows/" <= h.path;
        assert h.path[7] == '/';
      }
    }
    LastForNone(PatternHits(root, CommonFiles[q]), name);
  }

  /** When only pattern `k` can yield the key `path`, the last assignment to
      `path` is the last one that pattern made. */
  lemma {:induction false} LastForOfPatterns(root: Entry, ps: seq<Pattern>, k: nat, path: string)
    requires k < |ps|
    requires forall q :: 0 <= q < |ps| && q != k ==> LastFor(PatternHits(root, ps[q]), path) == None
    ensures LastFor(HitsOf(root, ps), path) == LastFor(PatternHits(root, ps[k]), path)
  {
    var init := ps[..|ps| - 1];
    var last := ps[|ps| - 1];
    LastForAppend(HitsOf(root, init), PatternHits(root, last), path);
    if k < |ps| - 1 {
      LastForOfPatterns(root, init, k, path);
    } else if init != [] {
      LastForNoneOfPatterns(root, init, path);
    }
  }

  lemma {:induction false} LastForNoneOfPatterns(root: Entry, ps: seq<Pattern>, path: string)
    requires forall q :: 0 <= q < |ps| ==> LastFor(PatternHits(root, ps[q]), path) == None
    ensures LastFor(HitsOf(root, ps), path) == None
  {
    if ps != [] {
      LastForAppend(HitsOf(root, ps[..|ps| - 1]), PatternHits(root, ps[|ps| - 1]), path);
      LastForNoneOfPatterns(root, ps[..|ps| - 1], path);
    }
  }

  lemma {:induction false} PutAllAppend(d: seq<KeyFile>, a: seq<KeyFile>, b: seq<KeyFile>)
    ensures PutAll(d, a + b) == PutAll(PutAll(d, a), b)
  {
    if b == [] {
      assert a + b == a;
    } else {
      assert (a + b)[..|a + b| - 1] == a + b[..|b| - 1];
      assert (a + b)[|a + b| - 1] == b[|b| - 1];
      PutAllAppend(d, a, b[..|b| - 1]);
    }
  }

  /** `_read_key_files(repo_dir)`. */
  method ReadKeyFiles(root: Entry) returns (keyFiles: seq<KeyFile>)
    ensures keyFiles == KeyFilesOf(root)
  {
    keyFiles := [];
    var p := 0;
    while p < |CommonFiles|
      invariant 0 <= p <= |CommonFiles|
      invariant keyFiles == PutAll([], HitsOf(root, CommonFiles[..p]))
    {
      var pattern := CommonFiles[p];
      assert CommonFiles[..p + 1][..p] == CommonFiles[..p];
      PutAllAppend([], HitsOf(root, CommonFiles[..p]), PatternHits(root, pattern));
      keyFiles := ReadPattern(root, pattern, keyFiles);
      p := p + 1;
    }
    assert CommonFiles[..p] == CommonFiles;
  }

  /** One iteration of the loop over `common_files`. */
  method ReadPattern(root: Entry, pattern: Pattern, keyFiles: seq<KeyFile>) returns (r: seq<KeyFile>)
    ensures r == PutAll(keyFiles, PatternHits(root, pattern))
  {
    r := keyFiles;
    match pattern {
      case Wildcard(dir, suffix) =>
        var parent := Lookup(root, dir);
        if parent.Some? && parent.value.isDir && parent.value.readable {
          r := ReadGlob(parent.value.children, Join(dir, "/"), suffix, keyFiles);
        }
      case Exact(name) =>
        var found := Lookup(root, [name]);
        if found.Some? && !found.value.isDir && found.value.readable {
          r := Put(keyFiles, name, Truncate(found.value.content));
        }
    }
  }

  /** The inner loop over `parent.glob(pattern)`. */
  method ReadGlob(listing: seq<Entry>, base: string, suffix: string, keyFiles: seq<KeyFile>) returns (r: seq<KeyFile>)
    ensures r == PutAll(keyFiles, GlobHits(listing, base, suffix))
  {
    r := keyFiles;
    var j := 0;
    while j < |listing|
      invariant 0 <= j <= |listing|
      invariant r == PutAll(keyFiles, GlobHits(listing[..j], base, suffix))
    {
      var f := listing[j];
      assert listing[..j + 1][..j] == listing[..j];
      PutAllAppend(keyFiles, GlobHits(listing[..j], base, suffix),
                   if EndsWith(f.name, suffix) then FileHit(base + "/" + f.name, f) else []);
      if EndsWith(f.name, suffix) && !f.isDir && f.readable {
        r := Put(r, base + "/" + f.name, Truncate(f.content));
      }
      j := j + 1;
    }
    assert listing[..j] == listing;
  }
}
