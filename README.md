# reposwarm CLI analyser, modelled in Dafny

This project models the deterministic core of `reposwarm_cli.py`. The CLI
clones each configured repository, renders its directory tree, reads a few key
files, builds a prompt and sends it to the Claude model. It writes the reply as
`<output_dir>/<name>.arch.md` and removes the working copy. A batch driver
runs this for every repository in a configuration and summarises the results.

The model has one module per part of the program:

| module | file | models |
|---|---|---|
| `Strings` | strings.dfy | `Option`/`Result`, `str.join`, `in`, `endswith`, `s[:n]` |
| `Naming` | naming.dfy | the repository name and the artifact and clone paths |
| `Checkout` | checkout.dfy | the fetched working copy as a tree of entries |
| `FileTree` | file_tree.dfy | `_build_file_tree` and its nested `walk_dir` |
| `KeyFiles` | key_files.dfy | `_read_key_files` |
| `Prompt` | prompt.dfy | the prompt built in `_call_claude_api` |
| `Reply` | reply.dfy | the request sent and how the reply is read |
| `Orchestrator` | orchestrator.dfy | `analyze_repository` and the local filesystem it changes |
| `Batch` | batch.dfy | `analyze_all_repositories` and `analyze_one_repository` |

The modules follow the source's own form.

**Pure logic: functions and lemmas.** The following are functions with lemmas about them:
- naming;
- tree rendering;
- the key-file selection;
- prompt assembly;
- reply extraction;
- the single-repository pipeline.

**State changes step by step: classes and methods, each proved against those functions.**
- `walk_dir` appends to a shared list. This is the `FileTreeBuilder` class with a `lines` field.
- `_read_key_files` fills a dict in a loop. These are the methods `ReadKeyFiles`, `ReadPattern` and `ReadGlob`.
- `analyze_repository` creates the clone directory, writes the artifact and removes the clone. This is `AnalyzeRepository`, working on a `FileSystem` object.
- The batch loop appends to `results`. This is `AnalyzeAllRepositories` and `AnalyzeEntries`.

**Where the code differs from the project's design description, the model follows the code:**
- **Catalog order.** The prompt catalog is loaded right after the clone and before the tree and the key files are built (`reposwarm_cli.py:71-92`). The description puts structure extraction first. No result depends on this order, because catalog loading reads only the local filesystem.
- **Escaping exception.** The clone directory is created *before* the `try` (`reposwarm_cli.py:53-56`). If a regular file stands at `<output_dir>/clone_<name>`, `mkdir` raises `FileExistsError` and it escapes `analyze_repository`. The batch driver then stops. The description says no error ever propagates to the batch driver. The model has this path as `Outcome.Escaped`. `Orchestrator.AnalyzeOutcome` states exactly when it happens.
- **Empty artifact.** A successful analysis writes whatever text the reply carries, even an empty one. The description says a successful output file is non-empty, but the code does not check this.
- **Missing keys in the batch.** A repository entry without `url` or `type` raises `KeyError` in the batch loop (`reposwarm_cli.py:291-294`). That ends the whole batch, and no summary is printed. The model has this as `BatchOutcome.Aborted`.

**Inputs.** The outside world is passed in as values:
- `git clone` is a function from URL and target directory to an exit code, stderr and the fetched tree, or to a raised message.
- The `curl` call is a function from credential and request to a decoded response or a raised message.
- The catalog's `json.load` is a parsing function.
- The configuration file arrives as the list of its `repositories` entries, in order.

## Model

| member | source | states |
|---|---|---|
| Naming.LastSegment | reposwarm_cli.py:43 | `split('/')[-1]` has no `/`, is a suffix of the URL and is preceded by a `/` when shorter than it |
| Naming.StripGit | reposwarm_cli.py:43 | `replace('.git', '')` keeps only characters of its input and never lengthens it |
| Naming.RepoName | reposwarm_cli.py:43 | a repository name never contains `/` |
| Naming.StripGitNoMatch | reposwarm_cli.py:43 | a name without `.git` is left unchanged |
| Naming.StripGitConcat | reposwarm_cli.py:43 | the removal scan splits at any boundary followed by a dot |
| Naming.StripGitInfix | reposwarm_cli.py:43 | every occurrence of `.git` is removed, not only a trailing one |
| Naming.RepoNameOfUsualUrl | reposwarm_cli.py:43 | for `<host>/<base>` and `<host>/<base>.git`, where `<base>` has no `/` and no `.git`, the name is `<base>` |
| Naming.LastSegmentAfterSlash | reposwarm_cli.py:43 | the last segment of `head/tail` is `tail` when `tail` has no `/` |
| Naming.OutputFileShape | reposwarm_cli.py:44 | the artifact lies directly in the output directory and its file name is `<name>.arch.md` |
| Naming.ArtifactNotBelowCloneDir | reposwarm_cli.py:43-53 | no artifact lies below any clone directory of the same output directory |
| Naming.ArtifactOutsideOwnCloneDir | reposwarm_cli.py:43-53 | removing a repository's clone directory cannot remove its artifact |
| Naming.OutputDirOutsideCloneDir | reposwarm_cli.py:53 | the output directory is never inside a clone directory |
| Checkout.Child | reposwarm_cli.py:174-175 | the child found has the name asked for; none is found only when no child has it |
| FileTree.Insert | reposwarm_cli.py:137 | insertion adds exactly one entry (as a multiset) |
| FileTree.SortEntries | reposwarm_cli.py:137 | the sorted listing is a permutation of the directory's listing |
| FileTree.NameLeqTotal | reposwarm_cli.py:137 | the name order is total |
| FileTree.NameLeqTrans | reposwarm_cli.py:137 | the name order is transitive |
| FileTree.KeyLeqTotal | reposwarm_cli.py:137 | the key `(not is_dir, name)` order is total |
| FileTree.KeyLeqTrans | reposwarm_cli.py:137 | the key order is transitive |
| FileTree.InsertSorted | reposwarm_cli.py:137 | inserting into a sorted listing keeps it sorted |
| FileTree.SortEntriesSorted | reposwarm_cli.py:137 | the sorted listing is ordered by the key and is a permutation of the input |
| FileTree.SortEntriesMembers | reposwarm_cli.py:137 | sorting neither adds nor drops an entry |
| FileTree.DirectoriesFirst | reposwarm_cli.py:137 | in the sorted listing every directory precedes every file, and same-kind entries are in name order |
| FileTree.Texts | reposwarm_cli.py:147 | one text line per rendered entry |
| FileTree.TextsAppend | reposwarm_cli.py:147 | rendering lines distributes over concatenation |
| FileTree.GoodLineDeeper | reposwarm_cli.py:145-150 | a line below a child call, whose prefix is extended by one bar or blank block, is well formed for the parent call |
| FileTree.RenderDirGood | reposwarm_cli.py:132-152 | every line emitted by `walk_dir(dir, prefix, depth)` names a non-ignored entry, lies at a depth from `depth` to `max_depth`, and extends `prefix` by 4 characters of bar or blank per level |
| FileTree.RenderItemsGood | reposwarm_cli.py:138-150 | the same holds for every line the listing loop emits from position `i` on |
| FileTree.ItemLinesGood | reposwarm_cli.py:140-150 | the same holds for the lines of one loop iteration |
| FileTree.FileTreeLines | reposwarm_cli.py:128-155 | over the whole tree, no line names `.git`, `node_modules`, `__pycache__`, `venv`, `.venv`, `dist` or `build`; lines lie at depths 0 to `max_depth`; each prefix is exactly `depth` blocks of 4 characters, each `│   ` or four blanks |
| FileTree.NamesAtAppend | reposwarm_cli.py:147 | the names listed at a level distribute over concatenation |
| FileTree.NamesAtNone | reposwarm_cli.py:150 | lines all deeper than a level list no names at it |
| FileTree.ItemLinesNames | reposwarm_cli.py:140-150 | one iteration lists exactly its entry's name at its own level, or nothing for an ignored name |
| FileTree.RenderItemsNames | reposwarm_cli.py:138-150 | the loop lists, at its own level, exactly the non-ignored names of the remaining listing, in order |
| FileTree.SiblingOrder | reposwarm_cli.py:137-150 | the lines directly in a readable directory within the depth limit are its non-ignored children in sorted order: directories first, then by name |
| FileTree.CornerOnlyForLast | reposwarm_cli.py:143-147 | a line at the loop's level gets `└── ` only if the last entry of the full sorted listing is not ignored, and that line is the last entry's own line (it carries that entry's name) |
| FileTree.IgnoredLastEntryHidesCorner | reposwarm_cli.py:140-147 | when the last sorted entry is an ignored name, no sibling gets `└── ` |
| FileTree.RenderItemsStep | reposwarm_cli.py:138-150 | the loop's text is the current iteration's text followed by the rest |
| FileTree.FileTreeBuilder.constructor | reposwarm_cli.py:130 | the builder starts with an empty `lines` list |
| FileTree.FileTreeBuilder.WalkDir | reposwarm_cli.py:132-152 | `walk_dir` appends exactly the lines of the rendering specification, returning early beyond the depth limit and on an unreadable listing |
| FileTree.FileTreeBuilder.WalkListing | reposwarm_cli.py:137-150 | the `enumerate(items)` loop appends exactly the specified lines |
| FileTree.ItemLinesIgnored | reposwarm_cli.py:140-141 | an ignored name contributes no line |
| FileTree.ItemLinesText | reposwarm_cli.py:143-150 | an iteration emits `prefix + connector + name`, then the lines of the walk below a directory, under the prefix extended by `    ` after the last entry and by `│   ` otherwise |
| FileTree.BuildFileTree | reposwarm_cli.py:128-155 | `_build_file_tree` returns the specified lines joined by newlines |
| KeyFiles.TruncationLaw | reposwarm_cli.py:178-185 | a recorded text is a prefix of the file: all of it up to 5000 characters, else exactly its first 5000 |
| KeyFiles.PutLaws | reposwarm_cli.py:178-185 | dict assignment keeps keys unique, sets only the assigned key and adds only the assigned pair |
| KeyFiles.PutAllLaws | reposwarm_cli.py:171-187 | a sequence of assignments keeps keys unique, leaves each key at its last assigned value, and adds only assigned pairs |
| KeyFiles.LastForAppend | reposwarm_cli.py:171-187 | the last assignment to a key over two runs is the second run's, if it made one |
| KeyFiles.LastForNone | reposwarm_cli.py:171-187 | assignments that never name a key leave it unassigned |
| KeyFiles.GlobHitsShape | reposwarm_cli.py:174-180 | every glob record is truncated, lies under the pattern's directory and ends with the pattern's suffix |
| KeyFiles.GlobHitsMember | reposwarm_cli.py:176-178 | every readable regular file of the listing whose name ends with the suffix is recorded under `<dir>/<name>` with its first 5000 characters |
| KeyFiles.GlobHitsSource | reposwarm_cli.py:176-178 | every glob record is `<dir>/<name>` with the first 5000 characters of a readable regular listing file whose name ends with the suffix |
| KeyFiles.WorkflowKeyFile | reposwarm_cli.py:171-178 | a readable `.yml` or `.yaml` file in a readable `.github/workflows` directory is in the dict under `.github/workflows/<name>`, with the truncated text of a file of that name (this file when the name is unique in the listing) |
| KeyFiles.WorkflowKeyFileSource | reposwarm_cli.py:171-178 | every dict entry whose key is not a root name is the truncated text of a readable `.yml` or `.yaml` file in a readable `.github/workflows` directory, under `.github/workflows/<name>` |
| KeyFiles.PatternHitsShape | reposwarm_cli.py:172-187 | every record of a pattern has that pattern's shape |
| KeyFiles.HitsOfShape | reposwarm_cli.py:171-187 | every record comes from one of the patterns tried |
| KeyFiles.KeyFilesShape | reposwarm_cli.py:157-189 | the key-file dict has unique keys and texts of at most 5000 characters; each key is one of the five root names or a `.github/workflows/` path ending in `.yml` or `.yaml` |
| KeyFiles.WorkflowBase | reposwarm_cli.py:167-174 | the wildcard patterns' directory is `.github/workflows` |
| KeyFiles.ExactKeyFile | reposwarm_cli.py:181-187 | a root name is recorded exactly when a readable regular file of that name exists, and then with its truncated text |
| KeyFiles.OtherPatternSilent | reposwarm_cli.py:161-169 | no other pattern yields a root name's key |
| KeyFiles.LastForOfPatterns | reposwarm_cli.py:171-187 | a key that only one pattern yields gets that pattern's last record |
| KeyFiles.LastForNoneOfPatterns | reposwarm_cli.py:171-187 | a key no pattern yields is never assigned |
| KeyFiles.PutAllAppend | reposwarm_cli.py:171-187 | assigning two runs of records is assigning one run after the other |
| KeyFiles.ReadKeyFiles | reposwarm_cli.py:157-189 | the loop over `common_files` builds exactly the specified dict |
| KeyFiles.ReadPattern | reposwarm_cli.py:172-187 | one iteration assigns exactly the records its pattern yields: a readable file for a root name, the matching readable files of an existing readable directory for a wildcard |
| KeyFiles.ReadGlob | reposwarm_cli.py:176-180 | the glob loop assigns the truncated text of each matching readable file, in listing order |
| Prompt.KeyFileBlocks | reposwarm_cli.py:210-211 | one fenced `### <path>` block per key file, in map order |
| Prompt.Bullets | reposwarm_cli.py:224-225 | one `- ` bullet per prompt, in order |
| Prompt.DescribeFallback | reposwarm_cli.py:225 | a bullet shows the description if present, else the name, else `Unknown` |
| Prompt.PartsSizes | reposwarm_cli.py:202-225 | the sections have 3 parts; `1 + len(key_files)` parts or none; 8 parts; and `1 + min(len(prompts), 5)` parts or none |
| Prompt.PartsLayout | reposwarm_cli.py:202-225 | the parts are the header, type and tree parts, then the Key Files section, then the analysis request, then the investigation section, in that order |
| Prompt.SliceFour | reposwarm_cli.py:202-225 | each of four concatenated lists is recovered by slicing |
| Prompt.KeyFileSectionContent | reposwarm_cli.py:208-211 | a non-empty map gives the `## Key Files` heading, then one block per entry in map order |
| Prompt.InvestigationSectionContent | reposwarm_cli.py:222-225 | a non-empty prompt list gives the investigation heading, then one bullet for each of the first five prompts, in order |
| Prompt.CountBulletsAppend | reposwarm_cli.py:222-225 | bullet counts add over concatenation |
| Prompt.NoBullets | reposwarm_cli.py:202-221 | parts that do not start with `-` hold no bullet |
| Prompt.AllBullets | reposwarm_cli.py:224-225 | every bullet part counts |
| Prompt.BulletCount | reposwarm_cli.py:202-225 | exactly `min(len(prompts), 5)` parts of `prompt_parts` are investigation bullets (parts starting with `- `) |
| Prompt.CountFour | reposwarm_cli.py:202-225 | bullet counts add over four sections |
| Prompt.FixedPartsNoBullets | reposwarm_cli.py:202-221 | the head, Key Files and request sections hold no bullet |
| Prompt.HeadStarts | reposwarm_cli.py:203-205 | the header starts with `#`, and the type and tree parts with a newline followed by text |
| Prompt.KeyFileSectionStarts | reposwarm_cli.py:209-211 | every Key Files part starts with a newline and `##` |
| Prompt.KeyFileBlockStart | reposwarm_cli.py:211 | a key-file block starts with `\n###` |
| Prompt.RequestStarts | reposwarm_cli.py:213-220 | the request heading is `\n## A…`, and the lead line and topics start neither with a newline nor with `-` |
| Prompt.TopicsStart | reposwarm_cli.py:215-220 | the six topics are numbered 1 to 6 in order |
| Prompt.KeyFilesSectionIff | reposwarm_cli.py:208-209 | the `## Key Files` heading is present if and only if the key-file map is non-empty |
| Prompt.InvestigationSectionIff | reposwarm_cli.py:222-223 | the `## Specific Investigation Points` heading is present if and only if the prompt list is non-empty |
| Prompt.HeadHasNoHeadings | reposwarm_cli.py:203-205 | the head parts are neither optional heading |
| Prompt.RequestHasNoHeadings | reposwarm_cli.py:213-220 | the request parts are neither optional heading |
| Prompt.KeyFilesHaveNoInvestigationHeading | reposwarm_cli.py:209-211 | the Key Files section holds no investigation heading |
| Prompt.InvestigationHasNoKeyFilesHeading | reposwarm_cli.py:223-225 | the investigation section holds no Key Files heading |
| Prompt.PromptText | reposwarm_cli.py:202-227 | the prompt text is the head, the Key Files section when present, the request, and the investigation section when present, joined by newlines; it starts with `# Architecture Analysis for <name>` |
| Prompt.JoinSections | reposwarm_cli.py:227 | joining four lists separates the joins of the non-empty ones by single newlines |
| Prompt.JoinOptional | reposwarm_cli.py:227 | joining with an optional tail adds a separator only when the tail is non-empty |
| Reply.MakeRequest | reposwarm_cli.py:232-241 | the request names model `claude-sonnet-4-20250514` with `max_tokens` 4000 and one user message holding the prompt |
| Reply.ExtractReplyCases | reposwarm_cli.py:254-259 | the reply succeeds if and only if `content` is present and non-empty and its first block has `text`; it returns that first text; a missing or empty `content` gives `Claude API error: ` followed by the response |
| Orchestrator.MkdirP | reposwarm_cli.py:54 | `mkdir(parents=True, exist_ok=True)` succeeds unless a file stands at the path, and then adds only that directory |
| Orchestrator.Created | reposwarm_cli.py:54 | the disk after the clone directory is created is the successful outcome of `mkdir` on the clone path whenever no file stands there |
| Orchestrator.WriteFile | reposwarm_cli.py:104 | `write_text` fails on a directory, else sets that file's text and changes no other path |
| Orchestrator.RemoveAll | reposwarm_cli.py:126 | when the removal succeeds, nothing at or below the path remains and everything else is unchanged |
| Orchestrator.FileSystem.constructor | reposwarm_cli.py:52-54 | the filesystem starts in the given state |
| Orchestrator.FileSystem.MakeDirs | reposwarm_cli.py:54 | the directory is created as `MkdirP` says, or the state is unchanged and the error returned |
| Orchestrator.FileSystem.WriteText | reposwarm_cli.py:104 | the file is written as `WriteFile` says, or the state is unchanged and the error returned |
| Orchestrator.FileSystem.RemoveTree | reposwarm_cli.py:126 | the tree is removed as `RemoveAll` says |
| Orchestrator.CatalogPath | reposwarm_cli.py:72-76 | the catalog is `prompts/<type>/prompts.json` when `prompts/<type>` exists, else `prompts/shared/prompts.json` |
| Orchestrator.LoadCatalog | reposwarm_cli.py:78-100 | a missing catalog gives an empty list, not an error; an existing one gives what parsing it gives; prompts come only from an existing file |
| Orchestrator.AnalyzeOutcome | reposwarm_cli.py:43-121 | an exception escapes exactly when a file stands at the clone path, and then nothing changes; otherwise exactly one result comes back, named after the URL, with the artifact path on success and an error on failure, never both |
| Orchestrator.AnalyzeSuccessIff | reposwarm_cli.py:56-112 | success if and only if the clone directory could be made, the clone exits with 0, the catalog loads, the model reply can be read and the artifact path is not a directory |
| Orchestrator.CloneFailure | reposwarm_cli.py:66-121 | a non-zero clone exit fails with `Git clone failed: <stderr>`, no output file, and no file written |
| Orchestrator.EnvelopeFailure | reposwarm_cli.py:256-259 | a response with missing or empty `content` fails the repository with an error quoting the response |
| Orchestrator.AnalyzeDisk | reposwarm_cli.py:56-126 | the final filesystem is the one the `try` body left, minus the clone directory; the body changes nothing but the artifact |
| Orchestrator.CloneDirRemoved | reposwarm_cli.py:123-126 | after a returned result nothing exists at or below the clone directory, whichever step failed, given that the removal succeeds |
| Orchestrator.AnalyzeEffects | reposwarm_cli.py:104-126 | outside the clone directory, directories are unchanged and the artifact is the only file that may change; a failed repository leaves every file as it was |
| Orchestrator.ArtifactIsReply | reposwarm_cli.py:88-104 | on success the artifact holds the model's reply to the prompt built from the fetched tree, its key files and the catalog |
| Orchestrator.AnalyzeRepository | reposwarm_cli.py:26-126 | the step-by-step method returns the outcome and leaves the filesystem that `Analyze` specifies |
| Batch.FailuresCount | reposwarm_cli.py:302-309 | successes plus listed failures make up all results; the failures listed are exactly the unsuccessful results |
| Batch.SummaryLaws | reposwarm_cli.py:302-309 | `successful + failed == len(results)`; the failures listed are exactly the results with `success == false`; `failed` is 0 exactly when every result succeeded |
| Batch.EscapedSticks | reposwarm_cli.py:290-295 | once an exception has escaped, later entries change nothing |
| Batch.RunEntriesAppend | reposwarm_cli.py:290-296 | running two runs of entries is running one after the other |
| Batch.OneResultPerEntry | reposwarm_cli.py:287-296 | a run that is not cut short appends exactly one result per entry after the existing ones |
| Batch.ResultOfEntry | reposwarm_cli.py:290-296 | the `i`-th result is what the orchestrator returned for the `i`-th entry, on the filesystem the earlier entries left, whether or not they failed |
| Batch.CompletedBatch | reposwarm_cli.py:287-303 | a completed batch has one result per entry in configuration order, each named after its URL, and its counts add up |
| Batch.ArtifactsOnly | reposwarm_cli.py:287-296 | after any number of entries, every file either existed before or is the artifact of one of them |
| Batch.BatchCompletes | reposwarm_cli.py:281-296 | if every entry has `url` and `type`, no clone path is a file and no artifact path is a clone path, the batch runs every entry to the end, whatever the single repositories' outcomes |
| Batch.NeverEscapes | reposwarm_cli.py:290-296 | under those conditions no entry lets an exception escape, and no clone path becomes a file |
| Batch.AnalyzeEntry | reposwarm_cli.py:291-296 | one iteration reads `url` and `type` (a missing key raises `KeyError`), runs the orchestrator and appends its result, as `Step` specifies |
| Batch.RunEntriesNext | reposwarm_cli.py:290-296 | one more entry is one more step |
| Batch.AbortedPrefix | reposwarm_cli.py:290-296 | once a prefix of the entries has ended the run, the remaining entries change nothing |
| Batch.AnalyzeEntries | reposwarm_cli.py:287-296 | the loop leaves the results, the escaped exception and the filesystem that `RunEntries` specifies |
| Batch.AnalyzeAllRepositories | reposwarm_cli.py:265-309 | `analyze_all_repositories` creates the output directory, runs the loop and summarises, as `AnalyzeAll` specifies |
| Batch.AnalyzeOneStatus | reposwarm_cli.py:313-335 | the exit status is 0 exactly on success, 1 exactly on a reported failure, and an exception escapes exactly when the orchestrator lets one out |
| Batch.AnalyzeOneRepository | reposwarm_cli.py:313-335 | `analyze_one_repository` ends with the status and filesystem that `AnalyzeOne` specifies |

## Left out

- **Subprocesses:** the `git clone` process and its 300-second timeout. It is an input function.
- **The HTTP call:** `curl`, the temporary request file and its removal, JSON encoding of the request, and decoding of the response. These are external processes and foreign code. The model call is an input function returning a decoded response or a raised message.
- **JSON files:** the JSON parsing of the prompt catalog and of the configuration file. The catalog parser is an input. The configuration arrives as its list of entries.
- **Runtime and console:** `argparse`, the `ANTHROPIC_API_KEY` check, `asyncio.run`, and all `print` output, including the summary lines. The summary's counts and failure list are modelled; their printing is not.
- **Real filesystem behaviour:** `iterdir`, `glob`, `read_text` and `exists` are lookups in the `Checkout.Entry` tree. Unreadable entries are a flag on the entry. Listing order is the order of `children`.
- **Checkout separation:** the fetched working copy is not placed in the `Disk` of the local filesystem. It is a separate input tree, and everything below the clone directory is removed afterwards anyway.
- **Path handling:** paths are `/`-joined strings, with no normalisation of `.`, `..` or repeated slashes.
- Orchestrator.RemoveAll: removal failures that `ignore_errors=True` swallows (a partial removal) are not modelled, so `Orchestrator.CloneDirRemoved` assumes the removal succeeds.
- Orchestrator.MkdirP: does not create missing ancestor directories or check that they are not files, because the filesystem model keeps no parent structure.
- Orchestrator.LoadCatalog: does not model a catalog whose JSON is not an object, or whose entries are not objects, because those are parse errors that the input function reports.
- **Exception variety:** exceptions other than the modelled ones are outside the model. The modelled ones are:
  - the clone's,
  - the catalog's,
  - the model call's,
  - `write_text` on a directory,
  - `mkdir` on a file.
- Prompt.DescribeFallback: a `description` or `name` that is present but not a string, for example `null`, is not modelled. Each field is a string or absent.
- **Duplicate repository names:** the model says nothing about two batch entries with the same derived name. The artifact paths would collide, and the source does not define that behaviour.
