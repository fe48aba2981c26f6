/** `SimpleInvestigator.analyze_repository`: one repository from URL to
    artifact. The local filesystem it touches is a set of directory paths
    and a map from file paths to their text; the clone, the prompt-catalog
    parser and the model call are inputs. */
module Orchestrator {
  import opened Strings
  import opened Naming
  import opened Checkout
  import opened FileTree
  import opened KeyFiles
  import opened Prompt
  import opened Reply

  // ------------------------------------------------------------ filesystem

  /** Directory paths and file contents, paths as `/`-joined strings. */
  datatype Disk = Disk(dirs: set<string>, files: map<string, string>)

  predicate Exists(d: Disk, p: string)
  {
    p in d.dirs || p in d.files
  }

  function FileExistsMessage(p: string): string
  {
    "[Errno 17] File exists: '" + p + "'"
  }

  function IsADirectoryMessage(p: string): string
  {
    "[Errno 21] Is a directory: '" + p + "'"
  }

  /** `Path(p).mkdir(parents=True, exist_ok=True)`: an existing directory is
      accepted, an existing file raises `FileExistsError`. */
  function MkdirP(d: Disk, p: string): (r: Result<Disk>)
    ensures r.Ok? <==> p !in d.files
    ensures r.Ok? ==> p in r.value.dirs && r.value.files == d.files && r.value.dirs - {p} == d.dirs - {p}
  {
    if p in d.files then Err(FileExistsMessage(p)) else Ok(Disk(d.dirs + {p}, d.files))
  }

  /** `Path(p).write_text(text)`: replaces the file's text; writing where a
      directory stands raises `IsADirectoryError`. */
  function WriteFile(d: Disk, p: string, text: string): (r: Result<Disk>)
    ensures r.Ok? <==> p !in d.dirs
    ensures r.Ok? ==> r.value.dirs == d.dirs && p in r.value.files && r.value.files[p] == text
    ensures r.Ok? ==> forall q :: q != p ==> (q in r.value.files <==> q in d.files)
    ensures r.Ok? ==> forall q :: q != p && q in d.files ==> r.value.files[q] == d.files[q]
  {
    if p in d.dirs then Err(IsADirectoryMessage(p)) else Ok(Disk(d.dirs, d.files[p := text]))
  }

  /** `shutil.rmtree(p, ignore_errors=True)` when the removal succeeds:
      everything at or below `p` goes, everything else stays. */
  function RemoveAll(d: Disk, p: string): (r: Disk)
    ensures forall q :: Under(q, p) ==> q !in r.dirs && q !in r.files
    ensures forall q :: !Under(q, p) ==> (q in r.dirs <==> q in d.dirs) && (q in r.files <==> q in d.files)
    ensures forall q :: q in r.files ==> q in d.files && r.files[q] == d.files[q]
  {
    Disk(set q | q in d.dirs && !Under(q, p), map q | q in d.files && !Under(q, p) :: d.files[q])
  }

  /** The local filesystem as the steps of `analyze_repository` change it. */
  class FileSystem {
    var dirs: set<string>
    var files: map<string, string>

    function State(): Disk
      reads this
    {
      Disk(dirs, files)
    }

    /** `Path(p).exists()`. */
    predicate PathExists(p: string)
      reads this
    {
      Exists(State(), p)
    }

    constructor (init: Disk)
      ensures State() == init
    {
      dirs := init.dirs;
      files := init.files;
    }

    method MakeDirs(p: string) returns (err: Option<string>)
      modifies this
      ensures MkdirP(old(State()), p).Ok? ==> err.None? && State() == MkdirP(old(State()), p).value
      ensures MkdirP(old(State()), p).Err? ==> err == Some(MkdirP(old(State()), p).error) && State() == old(State())
    {
      if p in files {
        err := Some(FileExistsMessage(p));
      } else {
        dirs := dirs + {p};
        err := None;
      }
    }

    method WriteText(p: string, text: string) returns (err: Option<string>)
      modifies this
      ensures WriteFile(old(State()), p, text).Ok? ==> err.None? && State() == WriteFile(old(State()), p, text).value
      ensures WriteFile(old(State()), p, text).Err? ==> err == Some(WriteFile(old(State()), p, text).error) && State() == old(State())
    {
      if p in dirs {
        err := Some(IsADirectoryMessage(p));
      } else {
        files := files[p := text];
        err := None;
      }
    }

    method RemoveTree(p: string)
      modifies this
      ensures State() == RemoveAll(old(State()), p)
    {
      dirs := set q | q in dirs && !Under(q, p);
      files := map q | q in files && !Under(q, p) :: files[q];
    }
  }

  // ------------------------------------------------------------ inputs

  /** What `git clone --depth=1` gave: its exit code, its standard error and
      the working copy, or the message of the exception it raised (a
      timeout after 300 seconds, a missing `git`). */
  datatype CloneOutcome = Cloned(returnCode: int, stderr: string, checkout: Entry) | CloneRaised(message: string)

  /** The outside world: the clone of a URL into a directory, the model
      call, and `json.load` of a catalog file followed by `.get('prompts', [])`. */
  datatype Services = Services(
    fetch: (string, string) -> CloneOutcome,
    invoke: (string, Request) -> CallOutcome,
    parseCatalog: string -> Result<seq<InvestigationPrompt>>)

  // ------------------------------------------------------------ catalog

  const PromptsRoot: string := "prompts"
  const SharedType: string := "shared"
  const CatalogName: string := "prompts.json"

  /** `prompts/<type>/prompts.json` when `prompts/<type>` exists, else the
      shared catalog's path. */
  function CatalogPath(d: Disk, repoType: string): (path: string)
    ensures Exists(d, PromptsRoot + "/" + repoType) ==> path == PromptsRoot + "/" + repoType + "/" + CatalogName
    ensures !Exists(d, PromptsRoot + "/" + repoType) ==> path == PromptsRoot + "/" + SharedType + "/" + CatalogName
  {
    var typed := PromptsRoot + "/" + repoType;
    (if Exists(d, typed) then typed else PromptsRoot + "/" + SharedType) + "/" + CatalogName
  }

  /** The investigation prompts for a repository type. A missing catalog
      file is an empty list, not an error; a directory in its place makes
      `open` raise. */
  function LoadCatalog(d: Disk, repoType: string, parse: string -> Result<seq<InvestigationPrompt>>): (r: Result<seq<InvestigationPrompt>>)
    ensures !Exists(d, CatalogPath(d, repoType)) ==> r == Ok([])
    ensures CatalogPath(d, repoType) in d.files ==> r == parse(d.files[CatalogPath(d, repoType)])
    ensures r.Ok? && r.value != [] ==> CatalogPath(d, repoType) in d.files
  {
    var path := CatalogPath(d, repoType);
    if path in d.files then parse(d.files[path])
    else if path in d.dirs then Err(IsADirectoryMessage(path))
    else Ok([])
  }

  // ------------------------------------------------------------ one repository

  datatype AnalysisResult = AnalysisResult(success: bool, repoName: string, outputFile: Option<string>, error: Option<string>)

  /** The call returns a result, or lets an exception out: `mkdir` of the
      clone directory stands before the `try`. */
  datatype Outcome = Returned(result: AnalysisResult) | Escaped(message: string)

  datatype Run = Run(outcome: Outcome, disk: Disk)

  const CloneFailedPrefix: string := "Git clone failed: "

  /** The body of the `try`: clone, load the catalog, render the tree, read
      the key files, call the model and write the artifact. The first step
      that fails gives the message; the write is the only change it makes. */
  function Pipeline(d: Disk, repoUrl: string, repoType: string, outputDir: string,
                    apiKey: string, svc: Services): Result<Disk>
  {
    var name := RepoName(repoUrl);
    match svc.fetch(repoUrl, CloneDir(outputDir, name))
    case CloneRaised(msg) => Err(msg)
    case Cloned(code, stderr, checkout) =>
      if code != 0 then Err(CloneFailedPrefix + stderr)
      else
        match LoadCatalog(d, repoType, svc.parseCatalog)
        case Err(msg) => Err(msg)
        case Ok(prompts) =>
          match CallModel(apiKey, svc.invoke, name, repoType,
                          FileTreeText(DefaultMaxDepth, checkout), KeyFilesOf(checkout), prompts)
          case Err(msg) => Err(msg)
          case Ok(doc) => WriteFile(d, OutputFile(outputDir, name), doc)
  }

  /** `analyze_repository(repo_url, repo_type, output_dir)`. */
  function Analyze(d: Disk, repoUrl: string, repoType: string, outputDir: string,
                   apiKey: string, svc: Services): Run
  {
    var name := RepoName(repoUrl);
    var clone := CloneDir(outputDir, name);
    match MkdirP(d, clone)
    case Err(msg) => Run(Escaped(msg), d)
    case Ok(created) =>
      var body := Pipeline(created, repoUrl, repoType, outputDir, apiKey, svc);
      var after := if body.Ok? then body.value else created;
      var cleaned := if Exists(after, clone) then RemoveAll(after, clone) else after;
      var result := if body.Ok? then AnalysisResult(true, name, Some(OutputFile(outputDir, name)), None)
                    else AnalysisResult(false, name, None, Some(body.error));
      Run(Returned(result), cleaned)
  }

  /** The disk right after the clone directory was created: the successful
      outcome of `MkdirP` on the clone path. */
  function Created(d: Disk, repoUrl: string, outputDir: string): (r: Disk)
    ensures CloneDir(outputDir, RepoName(repoUrl)) !in d.files ==> MkdirP(d, CloneDir(outputDir, RepoName(repoUrl))) == Ok(r)
  {
    Disk(d.dirs + {CloneDir(outputDir, RepoName(repoUrl))}, d.files)
  }

  /** An exception escapes only when a file stands at the clone path, and it
      leaves everything as it was; otherwise exactly one result comes back,
      named after the URL, with an artifact path on success and an error
      message on failure, never both. */
  lemma AnalyzeOutcome(d: Disk, repoUrl: string, repoType: string, outputDir: string, apiKey: string, svc: Services)
    ensures var run := Analyze(d, repoUrl, repoType, outputDir, apiKey, svc);
      var name := RepoName(repoUrl);
      && (run.outcome.Escaped? <==> CloneDir(outputDir, name) in d.files)
      && (run.outcome.Escaped? ==> run.outcome.message == FileExistsMessage(CloneDir(outputDir, name)) && run.disk == d)
      && (run.outcome.Returned? ==>
            var r := run.outcome.result;
            && r.repoName == name
            && (r.success <==> r.outputFile.Some?)
            && (r.success <==> r.error.None?)
            && (r.success ==> r.outputFile == Some(OutputFile(outputDir, name))))
  {
  }

  /** Success needs every step: a clone that exits with 0, a readable
      catalog, a model reply that can be read, and an artifact path that is
      not a directory. */
  lemma AnalyzeSuccessIff(d: Disk, repoUrl: string, repoType: string, outputDir: string, apiKey: string, svc: Services)
    ensures var run := Analyze(d, repoUrl, repoType, outputDir, apiKey, svc);
      var name := RepoName(repoUrl);
      var created := Created(d, repoUrl, outputDir);
      var cloned := svc.fetch(repoUrl, CloneDir(outputDir, name));
      var catalog := LoadCatalog(created, repoType, svc.parseCatalog);
      (run.outcome.Returned? && run.outcome.result.success) <==>
        && CloneDir(outputDir, name) !in d.files
        && cloned.Cloned? && cloned.returnCode == 0
        && catalog.Ok?
        && CallModel(apiKey, svc.invoke, name, repoType, FileTreeText(DefaultMaxDepth, cloned.checkout),
                     KeyFilesOf(cloned.checkout), catalog.value).Ok?
        && OutputFile(outputDir, name) !in created.dirs
  {
  }

  /** A clone that exits with a non-zero code fails the repository with
      `Git clone failed: <stderr>` and writes nothing. */
  lemma CloneFailure(d: Disk, repoUrl: string, repoType: string, outputDir: string, apiKey: string, svc: Services)
    requires CloneDir(outputDir, RepoName(repoUrl)) !in d.files
    requires svc.fetch(repoUrl, CloneDir(outputDir, RepoName(repoUrl))).Cloned?
    requires svc.fetch(repoUrl, CloneDir(outputDir, RepoName(repoUrl))).returnCode != 0
    ensures var run := Analyze(d, repoUrl, repoType, outputDir, apiKey, svc);
      var cloned := svc.fetch(repoUrl, CloneDir(outputDir, RepoName(repoUrl)));
      && run.outcome == Returned(AnalysisResult(false, RepoName(repoUrl), None, Some(CloneFailedPrefix + cloned.stderr)))
      && (forall p :: p in run.disk.files ==> p in d.files && run.disk.files[p] == d.files[p])
  {
  }

  /** A response without `content`, or with an empty one, fails the
      repository with an error that quotes the response. */
  lemma EnvelopeFailure(d: Disk, repoUrl: string, repoType: string, outputDir: string, apiKey: string, svc: Services)
    requires CloneDir(outputDir, RepoName(repoUrl)) !in d.files
    requires var cloned := svc.fetch(repoUrl, CloneDir(outputDir, RepoName(repoUrl)));
      && cloned.Cloned? && cloned.returnCode == 0
      && LoadCatalog(Created(d, repoUrl, outputDir), repoType, svc.parseCatalog).Ok?
    requires var cloned := svc.fetch(repoUrl, CloneDir(outputDir, RepoName(repoUrl)));
      var prompts := LoadCatalog(Created(d, repoUrl, outputDir), repoType, svc.parseCatalog).value;
      var name := RepoName(repoUrl);
      var sent := svc.invoke(apiKey, MakeRequest(BuildPrompt(name, repoType, FileTreeText(DefaultMaxDepth, cloned.checkout),
                                                             KeyFilesOf(cloned.checkout), prompts)));
      sent.Replied? && (sent.envelope.content.None? || sent.envelope.content.value == [])
    ensures var cloned := svc.fetch(repoUrl, CloneDir(outputDir, RepoName(repoUrl)));
      var prompts := LoadCatalog(Created(d, repoUrl, outputDir), repoType, svc.parseCatalog).value;
      var name := RepoName(repoUrl);
      var sent := svc.invoke(apiKey, MakeRequest(BuildPrompt(name, repoType, FileTreeText(DefaultMaxDepth, cloned.checkout),
                                                             KeyFilesOf(cloned.checkout), prompts)));
      var run := Analyze(d, repoUrl, repoType, outputDir, apiKey, svc);
      && run.outcome.Returned? && !run.outcome.result.success
      && run.outcome.result.error == Some(ApiErrorPrefix + sent.envelope.repr)
  {
    var cloned := svc.fetch(repoUrl, CloneDir(outputDir, RepoName(repoUrl)));
    var prompts := LoadCatalog(Created(d, repoUrl, outputDir), repoType, svc.parseCatalog).value;
    var name := RepoName(repoUrl);
    var sent := svc.invoke(apiKey, MakeRequest(BuildPrompt(name, repoType, FileTreeText(DefaultMaxDepth, cloned.checkout),
                                                           KeyFilesOf(cloned.checkout), prompts)));
    ExtractReplyCases(sent.envelope);
  }

  /** After a returned result the filesystem is the one the `try` body
      left, with the clone directory removed; the body changes at most the
      artifact. */
  lemma AnalyzeDisk(d: Disk, repoUrl: string, repoType: string, outputDir: string, apiKey: string, svc: Services)
    ensures var run := Analyze(d, repoUrl, repoType, outputDir, apiKey, svc);
      var created := Created(d, repoUrl, outputDir);
      var body := Pipeline(created, repoUrl, repoType, outputDir, apiKey, svc);
      var out := OutputFile(outputDir, RepoName(repoUrl));
      && (run.outcome.Returned? ==>
            run.disk == RemoveAll(if body.Ok? then body.value else created, CloneDir(outputDir, RepoName(repoUrl))))
      && (run.outcome.Returned? ==> (run.outcome.result.success <==> body.Ok?))
      && (body.Ok? ==> body.value.dirs == created.dirs && out in body.value.files)
      && (body.Ok? ==> forall p :: p != out ==> (p in body.value.files <==> p in d.files))
      && (body.Ok? ==> forall p :: p != out && p in d.files ==> body.value.files[p] == d.files[p])
  {
  }

  /** Whatever happened, once a result is returned nothing is left at or
      below the clone directory. */
  lemma CloneDirRemoved(d: Disk, repoUrl: string, repoType: string, outputDir: string, apiKey: string, svc: Services)
    ensures var run := Analyze(d, repoUrl, repoType, outputDir, apiKey, svc);
      var clone := CloneDir(outputDir, RepoName(repoUrl));
      run.outcome.Returned? ==> forall p :: Under(p, clone) ==> p !in run.disk.dirs && p !in run.disk.files
  {
    AnalyzeDisk(d, repoUrl, repoType, outputDir, apiKey, svc);
  }

  /** Apart from the clone directory, the only change is the artifact, and
      a failed repository leaves every file as it was. */
  lemma AnalyzeEffects(d: Disk, repoUrl: string, repoType: string, outputDir: string, apiKey: string, svc: Services)
    ensures var run := Analyze(d, repoUrl, repoType, outputDir, apiKey, svc);
      var name := RepoName(repoUrl);
      var clone := CloneDir(outputDir, name);
      var out := OutputFile(outputDir, name);
      run.outcome.Returned? ==>
        && (forall p :: !Under(p, clone) ==> (p in run.disk.dirs <==> p in d.dirs))
        && (forall p :: !Under(p, clone) && p != out ==> (p in run.disk.files <==> p in d.files))
        && (forall p :: p in run.disk.files && p != out ==> p in d.files && run.disk.files[p] == d.files[p])
        && (!run.outcome.result.success ==> forall p :: p in run.disk.files ==> p in d.files && run.disk.files[p] == d.files[p])
  {
    AnalyzeDisk(d, repoUrl, repoType, outputDir, apiKey, svc);
  }

  /** On success the artifact holds the text of the model's reply to the
      prompt built from the working copy and the catalog. */
  lemma ArtifactIsReply(d: Disk, repoUrl: string, repoType: string, outputDir: string, apiKey: string, svc: Services)
    requires var run := Analyze(d, repoUrl, repoType, outputDir, apiKey, svc);
      run.outcome.Returned? && run.outcome.result.success
    ensures var run := Analyze(d, repoUrl, repoType, outputDir, apiKey, svc);
      var name := RepoName(repoUrl);
      var cloned := svc.fetch(repoUrl, CloneDir(outputDir, name));
      var catalog := LoadCatalog(Created(d, repoUrl, outputDir), repoType, svc.parseCatalog);
      && cloned.Cloned? && catalog.Ok?
      && var reply := CallModel(apiKey, svc.invoke, name, repoType, FileTreeText(DefaultMaxDepth, cloned.checkout),
                                KeyFilesOf(cloned.checkout), catalog.value);
         && reply.Ok?
         && OutputFile(outputDir, name) in run.disk.files
         && run.disk.files[OutputFile(outputDir, name)] == reply.value
  {
    AnalyzeDisk(d, repoUrl, repoType, outputDir, apiKey, svc);
    ArtifactOutsideOwnCloneDir(outputDir, RepoName(repoUrl));
  }

  // ------------------------------------------------------------ the method

  /** `analyze_repository`, step by step against the filesystem. */
  method AnalyzeRepository(fs: FileSystem, repoUrl: string, repoType: string, outputDir: string,
                           apiKey: string, svc: Services) returns (outcome: Outcome)
    modifies fs
    ensures Run(outcome, fs.State()) == Analyze(old(fs.State()), repoUrl, repoType, outputDir, apiKey, svc)
  {
    var name := RepoName(repoUrl);
    var outputFile := OutputFile(outputDir, name);
    var cloneDir := CloneDir(outputDir, name);
    var mkdirError := fs.MakeDirs(cloneDir);
    if mkdirError.Some? {
      return Escaped(mkdirError.value);
    }
    ghost var created := fs.State();
    var error: Option<string> := None;
    var cloned := svc.fetch(repoUrl, cloneDir);
    if cloned.CloneRaised? {
      error := Some(cloned.message);
    } else if cloned.returnCode != 0 {
      error := Some(CloneFailedPrefix + cloned.stderr);
    } else {
      var catalog := LoadCatalog(fs.State(), repoType, svc.parseCatalog);
      if catalog.Err? {
        error := Some(catalog.error);
      } else {
        var fileTree := BuildFileTree(cloned.checkout, DefaultMaxDepth);
        var keyFiles := ReadKeyFiles(cloned.checkout);
        var reply := CallModel(apiKey, svc.invoke, name, repoType, fileTree, keyFiles, catalog.value);
        if reply.Err? {
          error := Some(reply.error);
        } else {
          error := fs.WriteText(outputFile, reply.value);
        }
      }
    }
    ghost var body := Pipeline(created, repoUrl, repoType, outputDir, apiKey, svc);
    assert error.None? <==> body.Ok?;
    assert body.Ok? ==> fs.State() == body.value;
    assert body.Err? ==> fs.State() == created && error == Some(body.error);
    // finally: remove the working copy
    if fs.PathExists(cloneDir) {
      fs.RemoveTree(cloneDir);
    }
    if error.None? {
      outcome := Returned(AnalysisResult(true, name, Some(outputFile), None));
    } else {
      outcome := Returned(AnalysisResult(false, name, None, error));
    }
  }
}
