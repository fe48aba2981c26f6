/** The request text put together in `_call_claude_api`: a list of parts
    joined with newlines. The parts are the header, the repository type and
    the fenced file tree; a `## Key Files` section with one fenced block per
    key file, only when there are key files; the analysis request with its
    six numbered topics; and, only when the catalog lists prompts, a section
    with one bullet for each of the first five. */
module Prompt {
  import opened Strings
  import opened KeyFiles

  /** One catalog entry. Either field may be absent from the JSON object. */
  datatype InvestigationPrompt = InvestigationPrompt(description: Option<string>, name: Option<string>)

  const MaxInvestigationPoints: nat := 5

  const Fence: string := "```"
  const KeyFilesHeading: string := "\n## Key Files"
  const RequestHeading: string := "\n## Analysis Request"
  const RequestLead: string := "Generate" + " comprehensive architecture documentation covering:"
  const InvestigationHeading: string := "\n## Specific Investigation Points"
  const BulletMark: string := "- "

  const Topics: seq<string> := [
    "1. System Overview",
    "2. Key Components",
    "3. Data Flow",
    "4. Technology Stack",
    "5. Deployment Architecture",
    "6. Security Considerations"
  ]

  function Min(a: nat, b: nat): nat
  {
    if a < b then a else b
  }

  /** `prompt.get('description', prompt.get('name', 'Unknown'))`. */
  function Describe(p: InvestigationPrompt): string
  {
    match p.description
    case Some(d) => d
    case None => match p.name case Some(n) => n case None => "Unknown"
  }

  function Header(repoName: string): string
  {
    "# Architecture Analysis for " + repoName
  }

  function HeadParts(repoName: string, repoType: string, fileTree: string): seq<string>
  {
    [Header(repoName), "\nRepository Type: " + repoType, "\n## File Structure\n" + Fence + "\n" + fileTree + "\n" + Fence]
  }

  function KeyFileBlock(f: KeyFile): string
  {
    "\n### " + f.path + "\n" + Fence + "\n" + f.content + "\n" + Fence
  }

  function KeyFileBlocks(files: seq<KeyFile>): (r: seq<string>)
    ensures |r| == |files|
    ensures forall i :: 0 <= i < |files| ==> r[i] == KeyFileBlock(files[i])
  {
    if files == [] then [] else [KeyFileBlock(files[0])] + KeyFileBlocks(files[1..])
  }

  function KeyFileSection(files: seq<KeyFile>): seq<string>
  {
    if files == [] then [] else [KeyFilesHeading] + KeyFileBlocks(files)
  }

  function RequestSection(): seq<string>
  {
    [RequestHeading, RequestLead] + Topics
  }

  function Bullets(prompts: seq<InvestigationPrompt>): (r: seq<string>)
    ensures |r| == |prompts|
    ensures forall i :: 0 <= i < |prompts| ==> r[i] == BulletMark + Describe(prompts[i])
  {
    if prompts == [] then [] else [BulletMark + Describe(prompts[0])] + Bullets(prompts[1..])
  }

  /** `prompts[:5]`. */
  function FirstPrompts(prompts: seq<InvestigationPrompt>): seq<InvestigationPrompt>
  {
    prompts[..Min(|prompts|, MaxInvestigationPoints)]
  }

  function InvestigationSection(prompts: seq<InvestigationPrompt>): seq<string>
  {
    if prompts == [] then [] else [InvestigationHeading] + Bullets(FirstPrompts(prompts))
  }

  /** `prompt_parts` once all of it has been appended. */
  function PromptParts(repoName: string, repoType: string, fileTree: string,
                       keyFiles: seq<KeyFile>, prompts: seq<InvestigationPrompt>): seq<string>
  {
    HeadParts(repoName, repoType, fileTree) + KeyFileSection(keyFiles) + RequestSection() + InvestigationSection(prompts)
  }

  /** `full_prompt = "\n".join(prompt_parts)`. */
  function BuildPrompt(repoName: string, repoType: string, fileTree: string,
                       keyFiles: seq<KeyFile>, prompts: seq<InvestigationPrompt>): string
  {
    Join(PromptParts(repoName, repoType, fileTree, keyFiles, prompts), "\n")
  }

  /** The description wins, then the name, then `Unknown`. */
  lemma DescribeFallback(p: InvestigationPrompt)
    ensures p.description.Some? ==> Describe(p) == p.description.value
    ensures p.description.None? && p.name.Some? ==> Describe(p) == p.name.value
    ensures p.description.None? && p.name.None? ==> Describe(p) == "Unknown"
  {
  }

  /** The four sections, in order, make up the list of parts; their sizes
      are 3, `1 + len(key_files)` or 0, 8, and `1 + min(len(prompts), 5)` or 0. */
  lemma PartsSizes(repoName: string, repoType: string, fileTree: string,
                   keyFiles: seq<KeyFile>, prompts: seq<InvestigationPrompt>)
    ensures |HeadParts(repoName, repoType, fileTree)| == 3
    ensures |KeyFileSection(keyFiles)| == if keyFiles == [] then 0 else 1 + |keyFiles|
    ensures |RequestSection()| == 8
    ensures |InvestigationSection(prompts)| == if prompts == [] then 0 else 1 + Min(|prompts|, MaxInvestigationPoints)
  {
  }

  /** The list of parts is the head, the key-file section, the request
      section and the investigation section, one after the other. */
  lemma PartsLayout(repoName: string, repoType: string, fileTree: string,
                    keyFiles: seq<KeyFile>, prompts: seq<InvestigationPrompt>)
    ensures var parts := PromptParts(repoName, repoType, fileTree, keyFiles, prompts);
      var k := if keyFiles == [] then 0 else 1 + |keyFiles|;
      && |parts| == 11 + k + (if prompts == [] then 0 else 1 + Min(|prompts|, MaxInvestigationPoints))
      && parts[0] == Header(repoName)
      && parts[..3] == HeadParts(repoName, repoType, fileTree)
      && parts[3..3 + k] == KeyFileSection(keyFiles)
      && parts[3 + k..11 + k] == RequestSection()
      && parts[11 + k..] == InvestigationSection(prompts)
  {
    var a := HeadParts(repoName, repoType, fileTree);
    var b := KeyFileSection(keyFiles);
    var c := RequestSection();
    var d := InvestigationSection(prompts);
    PartsSizes(repoName, repoType, fileTree, keyFiles, prompts);
    SliceFour(a, b, c, d);
  }

  lemma SliceFour<T>(a: seq<T>, b: seq<T>, c: seq<T>, d: seq<T>)
    ensures var s := a + b + c + d;
      && s[..|a|] == a
      && s[|a|..|a| + |b|] == b
      && s[|a| + |b|..|a| + |b| + |c|] == c
      && s[|a| + |b| + |c|..] == d
  {
    var s := a + b + c + d;
    assert s == a + (b + (c + d));
    assert s[|a|..] == b + (c + d);
    assert s[|a| + |b|..] == c + d;
  }

  /** A non-empty map gives the Key Files heading followed by one fenced
      block per entry, in map order. */
  lemma KeyFileSectionContent(files: seq<KeyFile>)
    requires files != []
    ensures var sec := KeyFileSection(files);
      && |sec| == 1 + |files|
      && sec[0] == KeyFilesHeading
      && forall i :: 0 <= i < |files| ==> sec[1 + i] == KeyFileBlock(files[i])
  {
  }

  /** A non-empty catalog gives the investigation heading followed by one
      bullet for each of its first five prompts, in order. */
  lemma InvestigationSectionContent(prompts: seq<InvestigationPrompt>)
    requires prompts != []
    ensures var sec := InvestigationSection(prompts);
      var b := Min(|prompts|, MaxInvestigationPoints);
      && |sec| == 1 + b
      && sec[0] == InvestigationHeading
      && forall i :: 0 <= i < b ==> sec[1 + i] == BulletMark + Describe(prompts[i])
  {
    var sec := InvestigationSection(prompts);
    forall i | 0 <= i < Min(|prompts|, MaxInvestigationPoints)
      ensures sec[1 + i] == BulletMark + Describe(prompts[i])
    {
      assert FirstPrompts(prompts)[i] == prompts[i];
    }
  }

  /** A part that is an investigation bullet line. */
  predicate IsBullet(part: string)
  {
    BulletMark <= part
  }

  function CountBullets(parts: seq<string>): nat
  {
    if parts == [] then 0 else (if IsBullet(parts[0]) then 1 else 0) + CountBullets(parts[1..])
  }

  lemma {:induction false} CountBulletsAppend(a: seq<string>, b: seq<string>)
    ensures CountBullets(a + b) == CountBullets(a) + CountBullets(b)
  {
    if a == [] {
      assert a + b == b;
    } else {
      assert (a + b)[1..] == a[1..] + b;
      CountBulletsAppend(a[1..], b);
    }
  }

  lemma {:induction false} NoBullets(parts: seq<string>)
    requires forall i :: 0 <= i < |parts| ==> |parts[i]| > 0 && parts[i][0] != '-'
    ensures CountBullets(parts) == 0
  {
    if parts != [] {
      NoBullets(parts[1..]);
    }
  }

  lemma {:induction false} AllBullets(prompts: seq<InvestigationPrompt>)
    ensures CountBullets(Bullets(prompts)) == |prompts|
  {
    if prompts != [] {
      assert Bullets(prompts)[1..] == Bullets(prompts[1..]);
      AllBullets(prompts[1..]);
    }
  }

  /** The prompt carries exactly `min(len(prompts), 5)` bullet lines: every
      other part starts with `#`, a newline, a digit or `G`. */
  lemma BulletCount(repoName: string, repoType: string, fileTree: string,
                    keyFiles: seq<KeyFile>, prompts: seq<InvestigationPrompt>)
    ensures CountBullets(PromptParts(repoName, repoType, fileTree, keyFiles, prompts))
         == Min(|prompts|, MaxInvestigationPoints)
  {
    var head := HeadParts(repoName, repoType, fileTree);
    var keys := KeyFileSection(keyFiles);
    var req := RequestSection();
    var inv := InvestigationSection(prompts);
    CountFour(head, keys, req, inv);
    FixedPartsNoBullets(repoName, repoType, fileTree, keyFiles);
    if prompts != [] {
      CountBulletsAppend([InvestigationHeading], Bullets(FirstPrompts(prompts)));
      NoBullets([InvestigationHeading]);
      AllBullets(FirstPrompts(prompts));
    }
  }

  lemma CountFour(a: seq<string>, b: seq<string>, c: seq<string>, d: seq<string>)
    ensures CountBullets(a + b + c + d) == CountBullets(a) + CountBullets(b) + CountBullets(c) + CountBullets(d)
  {
    CountBulletsAppend(a + b + c, d);
    CountBulletsAppend(a + b, c);
    CountBulletsAppend(a, b);
  }

  lemma FixedPartsNoBullets(repoName: string, repoType: string, fileTree: string, keyFiles: seq<KeyFile>)
    ensures CountBullets(HeadParts(repoName, repoType, fileTree)) == 0
    ensures CountBullets(KeyFileSection(keyFiles)) == 0
    ensures CountBullets(RequestSection()) == 0
  {
    HeadStarts(repoName, repoType, fileTree);
    NoBullets(HeadParts(repoName, repoType, fileTree));
    KeyFileSectionStarts(keyFiles);
    NoBullets(KeyFileSection(keyFiles));
    RequestStarts();
    NoBullets(RequestSection());
  }

  /** What tells the head parts apart from the headings and bullets. */
  lemma HeadStarts(repoName: string, repoType: string, fileTree: string)
    ensures var head := HeadParts(repoName, repoType, fileTree);
      && head[0][0] == '#'
      && |head[1]| > 1 && head[1][0] == '\n' && head[1][1] == 'R'
      && |head[2]| > 4 && head[2][0] == '\n' && head[2][4] == 'F'
  {
  }

  /** Every part of the key-file section starts with a newline and two `#`;
      the heading has ` K` next, a block a third `#`. */
  lemma KeyFileSectionStarts(files: seq<KeyFile>)
    ensures forall i :: 0 <= i < |KeyFileSection(files)| ==>
      var p := KeyFileSection(files)[i];
      |p| > 4 && p[0] == '\n' && ((p[3] == ' ' && p[4] == 'K') || p[3] == '#')
  {
    var keys := KeyFileSection(files);
    forall i | 0 <= i < |keys|
      ensures |keys[i]| > 4 && keys[i][0] == '\n' && ((keys[i][3] == ' ' && keys[i][4] == 'K') || keys[i][3] == '#')
    {
      if i > 0 {
        KeyFileBlockStart(files[i - 1]);
      }
    }
  }

  lemma KeyFileBlockStart(f: KeyFile)
    ensures |KeyFileBlock(f)| > 4 && KeyFileBlock(f)[0] == '\n' && KeyFileBlock(f)[3] == '#'
  {
    var rest := f.path + "\n" + Fence + "\n" + f.content + "\n" + Fence;
    assert KeyFileBlock(f) == "\n### " + rest;
  }

  lemma RequestStarts()
    ensures var req := RequestSection();
      && |req| == 8
      && |req[0]| > 4 && req[0][0] == '\n' && req[0][4] == 'A'
      && forall j :: 1 <= j < 8 ==> |req[j]| > 0 && req[j][0] != '\n' && req[j][0] != '-'
  {
    var req := RequestSection();
    assert req[1] == RequestLead && RequestLead[0] == 'G';
    TopicsStart();
    forall j | 2 <= j < 8 ensures |req[j]| > 0 && req[j][0] != '\n' && req[j][0] != '-' {
      assert req[j] == Topics[j - 2];
    }
  }

  /** The six topics are numbered 1 to 6. */
  lemma TopicsStart()
    ensures forall j :: 0 <= j < |Topics| ==> |Topics[j]| > 0 && Topics[j][0] == "123456"[j]
  {
    forall j | 0 <= j < |Topics| ensures |Topics[j]| > 0 && Topics[j][0] == "123456"[j] {
      if j == 0 {} else if j == 1 {} else if j == 2 {} else if j == 3 {} else if j == 4 {} else {}
    }
  }

  /** The Key Files heading is one of the parts exactly when the map is not
      empty. */
  lemma KeyFilesSectionIff(repoName: string, repoType: string, fileTree: string,
                           keyFiles: seq<KeyFile>, prompts: seq<InvestigationPrompt>)
    ensures KeyFilesHeading in PromptParts(repoName, repoType, fileTree, keyFiles, prompts) <==> keyFiles != []
  {
    var head := HeadParts(repoName, repoType, fileTree);
    var keys := KeyFileSection(keyFiles);
    var req := RequestSection();
    var inv := InvestigationSection(prompts);
    assert PromptParts(repoName, repoType, fileTree, keyFiles, prompts) == head + keys + req + inv;
    HeadHasNoHeadings(repoName, repoType, fileTree);
    RequestHasNoHeadings();
    InvestigationHasNoKeyFilesHeading(prompts);
    if keyFiles != [] {
      KeyFileSectionContent(keyFiles);
      assert keys[0] in keys;
    }
  }

  /** The investigation heading is one of the parts exactly when the catalog
      lists at least one prompt. */
  lemma InvestigationSectionIff(repoName: string, repoType: string, fileTree: string,
                                keyFiles: seq<KeyFile>, prompts: seq<InvestigationPrompt>)
    ensures InvestigationHeading in PromptParts(repoName, repoType, fileTree, keyFiles, prompts) <==> prompts != []
  {
    var head := HeadParts(repoName, repoType, fileTree);
    var keys := KeyFileSection(keyFiles);
    var req := RequestSection();
    var inv := InvestigationSection(prompts);
    assert PromptParts(repoName, repoType, fileTree, keyFiles, prompts) == head + keys + req + inv;
    HeadHasNoHeadings(repoName, repoType, fileTree);
    RequestHasNoHeadings();
    KeyFilesHaveNoInvestigationHeading(keyFiles);
    if prompts != [] {
      InvestigationSectionContent(prompts);
      assert inv[0] in inv;
    }
  }

  lemma HeadHasNoHeadings(repoName: string, repoType: string, fileTree: string)
    ensures KeyFilesHeading !in HeadParts(repoName, repoType, fileTree)
    ensures InvestigationHeading !in HeadParts(repoName, repoType, fileTree)
  {
    HeadStarts(repoName, repoType, fileTree);
    assert KeyFilesHeading[1] == '#' && KeyFilesHeading[4] == 'K';
    assert InvestigationHeading[1] == '#' && InvestigationHeading[4] == 'S';
  }

  lemma RequestHasNoHeadings()
    ensures KeyFilesHeading !in RequestSection()
    ensures InvestigationHeading !in RequestSection()
  {
    RequestStarts();
    assert KeyFilesHeading[0] == '\n' && KeyFilesHeading[4] == 'K';
    assert InvestigationHeading[0] == '\n' && InvestigationHeading[4] == 'S';
  }

  lemma KeyFilesHaveNoInvestigationHeading(files: seq<KeyFile>)
    ensures InvestigationHeading !in KeyFileSection(files)
  {
    KeyFileSectionStarts(files);
    assert InvestigationHeading[3] == ' ' && InvestigationHeading[4] == 'S';
  }

  lemma InvestigationHasNoKeyFilesHeading(prompts: seq<InvestigationPrompt>)
    ensures KeyFilesHeading !in InvestigationSection(prompts)
  {
    if prompts != [] {
      var inv := InvestigationSection(prompts);
      InvestigationSectionContent(prompts);
      forall i | 1 <= i < |inv| ensures inv[i] != KeyFilesHeading {
        assert inv[i][0] == '-';
      }
      assert inv[0][4] == 'S';
    }
  }

  /** The text itself: the head, then the key-file section on its own lines
      when present, then the analysis request, then the investigation section
      when present. The prompt therefore starts with its header. */
  lemma PromptText(repoName: string, repoType: string, fileTree: string,
                   keyFiles: seq<KeyFile>, prompts: seq<InvestigationPrompt>)
    ensures BuildPrompt(repoName, repoType, fileTree, keyFiles, prompts)
         == Join(HeadParts(repoName, repoType, fileTree), "\n")
          + (if keyFiles == [] then "" else "\n" + Join(KeyFileSection(keyFiles), "\n"))
          + "\n" + Join(RequestSection(), "\n")
          + (if prompts == [] then "" else "\n" + Join(InvestigationSection(prompts), "\n"))
    ensures Header(repoName) <= BuildPrompt(repoName, repoType, fileTree, keyFiles, prompts)
  {
    PartsSizes(repoName, repoType, fileTree, keyFiles, prompts);
    JoinSections(HeadParts(repoName, repoType, fileTree), KeyFileSection(keyFiles),
                 RequestSection(), InvestigationSection(prompts), "\n");
  }

  /** Joining four lists, the first and third non-empty, separates the joins
      of the non-empty ones by one separator each. */
  lemma JoinSections(a: seq<string>, b: seq<string>, c: seq<string>, d: seq<string>, sep: string)
    requires a != [] && c != []
    ensures Join(a + b + c + d, sep)
         == Join(a, sep) + (if b == [] then "" else sep + Join(b, sep))
          + sep + Join(c, sep) + (if d == [] then "" else sep + Join(d, sep))
    ensures a[0] <= Join(a + b + c + d, sep)
  {
    JoinOptional(a, b, sep);
    JoinAppend(a + b, c, sep);
    JoinOptional(a + b + c, d, sep);
    assert (a + b + c + d)[0] == a[0];
  }

  lemma JoinOptional(a: seq<string>, b: seq<string>, sep: string)
    requires a != []
    ensures Join(a + b, sep) == Join(a, sep) + (if b == [] then "" else sep + Join(b, sep))
  {
    if b == [] {
      assert a + b == a;
    } else {
      JoinAppend(a, b, sep);
    }
  }
}
