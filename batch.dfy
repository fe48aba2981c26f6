/** The two drivers: `analyze_all_repositories`, which runs the
    orchestrator over every configured repository in order and summarises
    the results, and `analyze_one_repository`, which runs it once and turns
    failure into exit status 1. Reading the configuration file is an input:
    the `repositories` mapping arrives as a list of entries in its order. */
module Batch {
  import opened Strings
  import opened Naming
  import opened Orchestrator

  /** One `repositories` entry; `url` or `type` may be missing from it. */
  datatype RepoEntry = RepoEntry(key: string, url: Option<string>, repoType: Option<string>)

  /** The message of `KeyError(key)`. */
  function KeyErrorMessage(key: string): string
  {
    "'" + key + "'"
  }

  /** The loop's state: the filesystem, the results so far, and the message
      of an exception that ended the loop, if one did. */
  datatype BatchState = BatchState(disk: Disk, results: seq<AnalysisResult>, escaped: Option<string>)

  /** One iteration: read `url` and `type`, run the orchestrator, append its
      result. A missing key or an exception from the orchestrator ends the
      whole run. */
  function Step(b: BatchState, e: RepoEntry, outputDir: string, apiKey: string, svc: Services): BatchState
  {
    if b.escaped.Some? then b
    else if e.url.None? then BatchState(b.disk, b.results, Some(KeyErrorMessage("url")))
    else if e.repoType.None? then BatchState(b.disk, b.results, Some(KeyErrorMessage("type")))
    else
      var run := Analyze(b.disk, e.url.value, e.repoType.value, outputDir, apiKey, svc);
      match run.outcome
      case Escaped(msg) => BatchState(run.disk, b.results, Some(msg))
      case Returned(r) => BatchState(run.disk, b.results + [r], None)
  }

  function RunEntries(b: BatchState, entries: seq<RepoEntry>, outputDir: string, apiKey: string, svc: Services): BatchState
  {
    if entries == [] then b
    else Step(RunEntries(b, entries[..|entries| - 1], outputDir, apiKey, svc), entries[|entries| - 1], outputDir, apiKey, svc)
  }

  // ------------------------------------------------------------ summary

  /** `sum(1 for r in results if r['success'])`. */
  function CountSuccesses(results: seq<AnalysisResult>): nat
  {
    if results == [] then 0 else (if results[0].success then 1 else 0) + CountSuccesses(results[1..])
  }

  /** The results listed under "Failed", in order. */
  function Failures(results: seq<AnalysisResult>): seq<AnalysisResult>
  {
    if results == [] then []
    else (if results[0].success then [] else [results[0]]) + Failures(results[1..])
  }

  datatype Summary = Summary(successful: nat, failed: int, failures: seq<AnalysisResult>)

  function Summarize(results: seq<AnalysisResult>): Summary
  {
    var successful := CountSuccesses(results);
    Summary(successful, |results| - successful, Failures(results))
  }

  lemma {:induction false} FailuresCount(results: seq<AnalysisResult>)
    ensures CountSuccesses(results) + |Failures(results)| == |results|
    ensures forall r :: r in Failures(results) <==> r in results && !r.success
  {
    if results != [] {
      FailuresCount(results[1..]);
      var head := if results[0].success then [] else [results[0]];
      assert Failures(results) == head + Failures(results[1..]);
      assert results == [results[0]] + results[1..];
      forall r ensures r in Failures(results) <==> r in results && !r.success {
        assert r in Failures(results) <==> r in head || r in Failures(results[1..]);
        assert r in results <==> r == results[0] || r in results[1..];
      }
    }
  }

  /** Successes and failures add up to the number of results; the failures
      listed are exactly the unsuccessful results, in their order. */
  lemma SummaryLaws(results: seq<AnalysisResult>)
    ensures var s := Summarize(results);
      && s.successful + s.failed == |results|
      && s.failed == |s.failures| >= 0
      && (forall r :: r in s.failures <==> r in results && !r.success)
      && (s.failed == 0 <==> forall r :: r in results ==> r.success)
  {
    FailuresCount(results);
    var s := Summarize(results);
    if s.failures != [] {
      assert s.failures[0] in s.failures;
    }
  }

  // ------------------------------------------------------------ the run

  lemma {:induction false} EscapedSticks(b: BatchState, entries: seq<RepoEntry>, outputDir: string, apiKey: string, svc: Services)
    requires b.escaped.Some?
    ensures RunEntries(b, entries, outputDir, apiKey, svc) == b
  {
    if entries != [] {
      EscapedSticks(b, entries[..|entries| - 1], outputDir, apiKey, svc);
    }
  }

  lemma {:induction false} RunEntriesAppend(b: BatchState, a: seq<RepoEntry>, c: seq<RepoEntry>, outputDir: string, apiKey: string, svc: Services)
    ensures RunEntries(b, a + c, outputDir, apiKey, svc)
         == RunEntries(RunEntries(b, a, outputDir, apiKey, svc), c, outputDir, apiKey, svc)
  {
    if c == [] {
      assert a + c == a;
    } else {
      assert (a + c)[..|a + c| - 1] == a + c[..|c| - 1];
      assert (a + c)[|a + c| - 1] == c[|c| - 1];
      RunEntriesAppend(b, a, c[..|c| - 1], outputDir, apiKey, svc);
    }
  }

  /** A run that was not cut short holds one result per entry, appended
      after the results it started with. */
  lemma {:induction false} OneResultPerEntry(b: BatchState, entries: seq<RepoEntry>, outputDir: string, apiKey: string, svc: Services)
    requires RunEntries(b, entries, outputDir, apiKey, svc).escaped.None?
    ensures var end := RunEntries(b, entries, outputDir, apiKey, svc);
      && b.escaped.None?
      && |end.results| == |b.results| + |entries|
      && end.results[..|b.results|] == b.results
  {
    if entries != [] {
      var init := entries[..|entries| - 1];
      var mid := RunEntries(b, init, outputDir, apiKey, svc);
      var end := RunEntries(b, entries, outputDir, apiKey, svc);
      assert end == Step(mid, entries[|entries| - 1], outputDir, apiKey, svc);
      assert mid.escaped.None?;
      OneResultPerEntry(b, init, outputDir, apiKey, svc);
      assert end.results == mid.results + [end.results[|end.results| - 1]];
    }
  }

  /** ... and they come in entry order: the `i`-th new result is what the
      orchestrator returned for the `i`-th entry on the filesystem the
      earlier entries left, whether or not those earlier entries failed. */
  lemma {:induction false} ResultOfEntry(b: BatchState, entries: seq<RepoEntry>, i: nat, outputDir: string, apiKey: string, svc: Services)
    requires i < |entries|
    requires RunEntries(b, entries, outputDir, apiKey, svc).escaped.None?
    ensures var end := RunEntries(b, entries, outputDir, apiKey, svc);
      var e := entries[i];
      var before := RunEntries(b, entries[..i], outputDir, apiKey, svc);
      && |end.results| == |b.results| + |entries|
      && e.url.Some? && e.repoType.Some?
      && Analyze(before.disk, e.url.value, e.repoType.value, outputDir, apiKey, svc).outcome
         == Returned(end.results[|b.results| + i])
  {
    var init := entries[..|entries| - 1];
    var mid := RunEntries(b, init, outputDir, apiKey, svc);
    var end := RunEntries(b, entries, outputDir, apiKey, svc);
    assert end == Step(mid, entries[|entries| - 1], outputDir, apiKey, svc);
    assert mid.escaped.None?;
    OneResultPerEntry(b, entries, outputDir, apiKey, svc);
    OneResultPerEntry(b, init, outputDir, apiKey, svc);
    if i < |init| {
      ResultOfEntry(b, init, i, outputDir, apiKey, svc);
      assert entries[..i] == init[..i];
      assert entries[i] == init[i];
      assert end.results[|b.results| + i] == mid.results[|b.results| + i];
    } else {
      assert entries[..i] == init;
    }
  }

  datatype BatchOutcome = Completed(results: seq<AnalysisResult>, summary: Summary) | Aborted(message: string)

  datatype BatchRun = BatchRun(outcome: BatchOutcome, disk: Disk)

  /** `analyze_all_repositories`, after the configuration was read. */
  function AnalyzeAll(d: Disk, outputDir: string, entries: seq<RepoEntry>, apiKey: string, svc: Services): BatchRun
  {
    match MkdirP(d, outputDir)
    case Err(msg) => BatchRun(Aborted(msg), d)
    case Ok(created) =>
      var end := RunEntries(BatchState(created, [], None), entries, outputDir, apiKey, svc);
      if end.escaped.Some? then BatchRun(Aborted(end.escaped.value), end.disk)
      else BatchRun(Completed(end.results, Summarize(end.results)), end.disk)
  }

  /** A completed batch has one result per configured repository, in
      configuration order, each named after its URL, and a summary whose
      counts add up. */
  lemma CompletedBatch(d: Disk, outputDir: string, entries: seq<RepoEntry>, apiKey: string, svc: Services)
    requires AnalyzeAll(d, outputDir, entries, apiKey, svc).outcome.Completed?
    ensures var out := AnalyzeAll(d, outputDir, entries, apiKey, svc).outcome;
      && |out.results| == |entries|
      && (forall i :: 0 <= i < |entries| ==> entries[i].url.Some? && out.results[i].repoName == RepoName(entries[i].url.value))
      && out.summary.successful + out.summary.failed == |entries|
      && out.summary.failed == |out.summary.failures|
  {
    var created := MkdirP(d, outputDir).value;
    var start := BatchState(created, [], None);
    var end := RunEntries(start, entries, outputDir, apiKey, svc);
    OneResultPerEntry(start, entries, outputDir, apiKey, svc);
    forall i | 0 <= i < |entries|
      ensures entries[i].url.Some? && end.results[i].repoName == RepoName(entries[i].url.value)
    {
      ResultOfEntry(start, entries, i, outputDir, apiKey, svc);
      var before := RunEntries(start, entries[..i], outputDir, apiKey, svc);
      AnalyzeOutcome(before.disk, entries[i].url.value, entries[i].repoType.value, outputDir, apiKey, svc);
    }
    SummaryLaws(end.results);
  }

  /** Every file on the filesystem was there at the start or is the
      artifact of one of the entries. */
  predicate OnlyArtifacts(disk: Disk, start: Disk, outputDir: string, entries: seq<RepoEntry>)
  {
    forall p :: p in disk.files ==>
      p in start.files || exists j :: 0 <= j < |entries| && entries[j].url.Some? && p == OutputFile(outputDir, RepoName(entries[j].url.value))
  }

  lemma {:induction false} ArtifactsOnly(b: BatchState, entries: seq<RepoEntry>, outputDir: string, apiKey: string, svc: Services)
    ensures OnlyArtifacts(RunEntries(b, entries, outputDir, apiKey, svc).disk, b.disk, outputDir, entries)
  {
    if entries != [] {
      var init := entries[..|entries| - 1];
      var last := entries[|entries| - 1];
      var mid := RunEntries(b, init, outputDir, apiKey, svc);
      ArtifactsOnly(b, init, outputDir, apiKey, svc);
      var end := RunEntries(b, entries, outputDir, apiKey, svc);
      assert end == Step(mid, last, outputDir, apiKey, svc);
      forall p | p in end.disk.files
        ensures p in b.disk.files || exists j :: 0 <= j < |entries| && entries[j].url.Some? && p == OutputFile(outputDir, RepoName(entries[j].url.value))
      {
        if p in mid.disk.files {
          if p !in b.disk.files {
            var j :| 0 <= j < |init| && init[j].url.Some? && p == OutputFile(outputDir, RepoName(init[j].url.value));
            assert entries[j] == init[j];
          }
        } else {
          assert mid.escaped.None? && last.url.Some? && last.repoType.Some?;
          AnalyzeEffects(mid.disk, last.url.value, last.repoType.value, outputDir, apiKey, svc);
          AnalyzeOutcome(mid.disk, last.url.value, last.repoType.value, outputDir, apiKey, svc);
          assert p == OutputFile(outputDir, RepoName(last.url.value));
        }
      }
    }
  }

  /** A batch whose entries all have `url` and `type` runs to the end, and
      so reports on every repository, as long as no clone path is a file at
      the start and no repository's artifact path is another's clone path
      (failures of single repositories do not stop it). */
  lemma BatchCompletes(d: Disk, outputDir: string, entries: seq<RepoEntry>, apiKey: string, svc: Services)
    requires outputDir !in d.files
    requires forall i :: 0 <= i < |entries| ==> entries[i].url.Some? && entries[i].repoType.Some?
    requires forall i :: 0 <= i < |entries| ==> CloneDir(outputDir, RepoName(entries[i].url.value)) !in d.files
    requires forall i, j :: 0 <= i < |entries| && 0 <= j < |entries| ==>
      CloneDir(outputDir, RepoName(entries[i].url.value)) != OutputFile(outputDir, RepoName(entries[j].url.value))
    ensures AnalyzeAll(d, outputDir, entries, apiKey, svc).outcome.Completed?
    ensures |AnalyzeAll(d, outputDir, entries, apiKey, svc).outcome.results| == |entries|
  {
    var created := MkdirP(d, outputDir).value;
    var start := BatchState(created, [], None);
    NeverEscapes(start, entries, entries, outputDir, apiKey, svc);
    OneResultPerEntry(start, entries, outputDir, apiKey, svc);
  }

  lemma {:induction false} NeverEscapes(b: BatchState, entries: seq<RepoEntry>, all: seq<RepoEntry>, outputDir: string, apiKey: string, svc: Services)
    requires b.escaped.None?
    requires forall e :: e in entries ==> e in all
    requires forall e :: e in all ==> e.url.Some? && e.repoType.Some?
    requires forall e :: e in all ==> CloneDir(outputDir, RepoName(e.url.value)) !in b.disk.files
    requires forall e, f :: e in all && f in all ==>
      CloneDir(outputDir, RepoName(e.url.value)) != OutputFile(outputDir, RepoName(f.url.value))
    ensures RunEntries(b, entries, outputDir, apiKey, svc).escaped.None?
    ensures forall e :: e in all ==> CloneDir(outputDir, RepoName(e.url.value)) !in RunEntries(b, entries, outputDir, apiKey, svc).disk.files
  {
    if entries != [] {
      var init := entries[..|entries| - 1];
      var last := entries[|entries| - 1];
      assert forall e :: e in init ==> e in entries;
      NeverEscapes(b, init, all, outputDir, apiKey, svc);
      var mid := RunEntries(b, init, outputDir, apiKey, svc);
      assert last in all;
      AnalyzeOutcome(mid.disk, last.url.value, last.repoType.value, outputDir, apiKey, svc);
      AnalyzeEffects(mid.disk, last.url.value, last.repoType.value, outputDir, apiKey, svc);
    }
  }

  /** One pass of the loop of `analyze_all_repositories`: read `url` and
      `type`, run the orchestrator on the filesystem, append its result. */
  method AnalyzeEntry(fs: FileSystem, results: seq<AnalysisResult>, e: RepoEntry, outputDir: string,
                      apiKey: string, svc: Services) returns (after: seq<AnalysisResult>, escaped: Option<string>)
    modifies fs
    ensures BatchState(fs.State(), after, escaped) == Step(BatchState(old(fs.State()), results, None), e, outputDir, apiKey, svc)
  {
    if e.url.None? {
      return results, Some(KeyErrorMessage("url"));
    }
    if e.repoType.None? {
      return results, Some(KeyErrorMessage("type"));
    }
    var run := AnalyzeRepository(fs, e.url.value, e.repoType.value, outputDir, apiKey, svc);
    match run {
      case Escaped(msg) =>
        after, escaped := results, Some(msg);
      case Returned(r) =>
        after, escaped := results + [r], None;
    }
  }

  /** Running one more entry is one more step. */
  lemma RunEntriesNext(b: BatchState, entries: seq<RepoEntry>, i: nat, outputDir: string, apiKey: string, svc: Services)
    requires i < |entries|
    ensures RunEntries(b, entries[..i + 1], outputDir, apiKey, svc)
         == Step(RunEntries(b, entries[..i], outputDir, apiKey, svc), entries[i], outputDir, apiKey, svc)
  {
    assert entries[..i + 1][..i] == entries[..i];
  }

  /** Once a prefix of the entries has ended the run, the rest changes
      nothing. */
  lemma AbortedPrefix(b: BatchState, entries: seq<RepoEntry>, i: nat, outputDir: string, apiKey: string, svc: Services)
    requires i <= |entries|
    requires RunEntries(b, entries[..i], outputDir, apiKey, svc).escaped.Some?
    ensures RunEntries(b, entries, outputDir, apiKey, svc) == RunEntries(b, entries[..i], outputDir, apiKey, svc)
  {
    RunEntriesAppend(b, entries[..i], entries[i..], outputDir, apiKey, svc);
    assert entries[..i] + entries[i..] == entries;
    EscapedSticks(RunEntries(b, entries[..i], outputDir, apiKey, svc), entries[i..], outputDir, apiKey, svc);
  }

  /** The loop of `analyze_all_repositories`, appending to `results` until
      an entry or the orchestrator raises. */
  method AnalyzeEntries(fs: FileSystem, entries: seq<RepoEntry>, outputDir: string, apiKey: string, svc: Services)
    returns (results: seq<AnalysisResult>, escaped: Option<string>)
    modifies fs
    ensures BatchState(fs.State(), results, escaped)
         == RunEntries(BatchState(old(fs.State()), [], None), entries, outputDir, apiKey, svc)
  {
    ghost var start := BatchState(fs.State(), [], None);
    results, escaped := [], None;
    var i := 0;
    while i < |entries| && escaped.None?
      invariant 0 <= i <= |entries|
      invariant RunEntries(start, entries[..i], outputDir, apiKey, svc) == BatchState(fs.State(), results, escaped)
    {
      RunEntriesNext(start, entries, i, outputDir, apiKey, svc);
      results, escaped := AnalyzeEntry(fs, results, entries[i], outputDir, apiKey, svc);
      i := i + 1;
    }
    if escaped.Some? {
      AbortedPrefix(start, entries, i, outputDir, apiKey, svc);
    } else {
      assert entries[..i] == entries;
    }
  }

  /** `analyze_all_repositories`: create the output directory, run every
      entry, and summarise. */
  method AnalyzeAllRepositories(fs: FileSystem, outputDir: string, entries: seq<RepoEntry>,
                                apiKey: string, svc: Services) returns (outcome: BatchOutcome)
    modifies fs
    ensures BatchRun(outcome, fs.State()) == AnalyzeAll(old(fs.State()), outputDir, entries, apiKey, svc)
  {
    var mkdirError := fs.MakeDirs(outputDir);
    if mkdirError.Some? {
      return Aborted(mkdirError.value);
    }
    var results, escaped := AnalyzeEntries(fs, entries, outputDir, apiKey, svc);
    if escaped.Some? {
      outcome := Aborted(escaped.value);
    } else {
      outcome := Completed(results, Summarize(results));
    }
  }

  // ------------------------------------------------------------ one repository

  /** How the process ends: `sys.exit(code)` or normal return (code 0), or
      an exception that escaped. */
  datatype Exit = ExitCode(code: int) | Uncaught(message: string)

  /** `analyze_one_repository`. */
  function AnalyzeOne(d: Disk, repoUrl: string, repoType: string, outputDir: string, apiKey: string, svc: Services): (Exit, Disk)
  {
    match MkdirP(d, outputDir)
    case Err(msg) => (Uncaught(msg), d)
    case Ok(created) =>
      var run := Analyze(created, repoUrl, repoType, outputDir, apiKey, svc);
      match run.outcome
      case Escaped(msg) => (Uncaught(msg), run.disk)
      case Returned(r) => (ExitCode(if r.success then 0 else 1), run.disk)
  }

  /** The exit status is 0 exactly when the repository was analysed
      successfully and 1 exactly when the orchestrator reported a failure. */
  lemma AnalyzeOneStatus(d: Disk, repoUrl: string, repoType: string, outputDir: string, apiKey: string, svc: Services)
    requires outputDir !in d.files
    ensures var (status, _) := AnalyzeOne(d, repoUrl, repoType, outputDir, apiKey, svc);
      var run := Analyze(MkdirP(d, outputDir).value, repoUrl, repoType, outputDir, apiKey, svc);
      && (status == ExitCode(0) <==> run.outcome.Returned? && run.outcome.result.success)
      && (status == ExitCode(1) <==> run.outcome.Returned? && !run.outcome.result.success)
      && (status.Uncaught? <==> run.outcome.Escaped?)
  {
  }

  method AnalyzeOneRepository(fs: FileSystem, repoUrl: string, repoType: string, outputDir: string,
                              apiKey: string, svc: Services) returns (status: Exit)
    modifies fs
    ensures (status, fs.State()) == AnalyzeOne(old(fs.State()), repoUrl, repoType, outputDir, apiKey, svc)
  {
    var mkdirError := fs.MakeDirs(outputDir);
    if mkdirError.Some? {
      return Uncaught(mkdirError.value);
    }
    var run := AnalyzeRepository(fs, repoUrl, repoType, outputDir, apiKey, svc);
    match run {
      case Escaped(msg) => status := Uncaught(msg);
      case Returned(r) => status := ExitCode(if r.success then 0 else 1);
    }
  }
}
