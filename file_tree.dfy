/** `_build_file_tree`: the text picture of the working copy that goes into
    the prompt. At each directory the children are sorted with directories
    first and then by name, a fixed set of noise names is skipped, and each
    entry becomes one line `prefix + connector + name`; a directory is
    descended into with the prefix extended by a bar or by blanks. The walk
    returns at once below `maxDepth` (3 by default) and on a directory whose
    listing cannot be read. */
module FileTree {
  import opened Strings
  import opened Checkout

  const DefaultMaxDepth: int := 3

  const IgnoredNames: set<string> := {".git", "node_modules", "__pycache__", "venv", ".venv", "dist", "build"}

  const Tee: string := "├── "
  const Corner: string := "└── "
  const Bar: string := "│   "
  const Blank: string := "    "

  function Connector(isLast: bool): string { if isLast then Corner else Tee }
  function Continuation(isLast: bool): string { if isLast then Blank else Bar }

  // ---------------------------------------------------------------- ordering

  /** Python's `<=` on `str`: lexicographic by code point. */
  predicate NameLeq(a: string, b: string)
  {
    if a == [] then true
    else if b == [] then false
    else if a[0] != b[0] then a[0] < b[0]
    else NameLeq(a[1..], b[1..])
  }

  /** The sort key `(not x.is_dir(), x.name)`, compared as a tuple. */
  predicate KeyLeq(x: Entry, y: Entry)
  {
    (x.isDir && !y.isDir) || (x.isDir == y.isDir && NameLeq(x.name, y.name))
  }

  predicate Sorted(s: seq<Entry>)
  {
    forall i, j :: 0 <= i < j < |s| ==> KeyLeq(s[i], s[j])
  }

  /** Insert `x` in front of the first entry it does not exceed; an equal
      key goes before, since `x` came first in the listing (the sort is stable). */
  function Insert(x: Entry, t: seq<Entry>): (r: seq<Entry>)
    ensures |r| == |t| + 1
    ensures multiset(r) == multiset(t) + multiset{x}
  {
    if t == [] then [x]
    else if KeyLeq(x, t[0]) then [x] + t
    else
      assert t == [t[0]] + t[1..];
      [t[0]] + Insert(x, t[1..])
  }

  /** Python's `sorted(items, key=lambda x: (not x.is_dir(), x.name))`. */
  function SortEntries(s: seq<Entry>): (r: seq<Entry>)
    ensures |r| == |s|
    ensures multiset(r) == multiset(s)
  {
    if s == [] then []
    else
      assert s == [s[0]] + s[1..];
      Insert(s[0], SortEntries(s[1..]))
  }

  lemma {:induction false} NameLeqTotal(a: string, b: string)
    ensures NameLeq(a, b) || NameLeq(b, a)
  {
    if a != [] && b != [] && a[0] == b[0] {
      NameLeqTotal(a[1..], b[1..]);
    }
  }

  lemma {:induction false} NameLeqTrans(a: string, b: string, c: string)
    requires NameLeq(a, b) && NameLeq(b, c)
    ensures NameLeq(a, c)
  {
    if a != [] && b != [] && c != [] && a[0] == b[0] && b[0] == c[0] {
      NameLeqTrans(a[1..], b[1..], c[1..]);
    }
  }

  lemma KeyLeqTotal(x: Entry, y: Entry)
    ensures KeyLeq(x, y) || KeyLeq(y, x)
  {
    NameLeqTotal(x.name, y.name);
  }

  lemma KeyLeqTrans(x: Entry, y: Entry, z: Entry)
    requires KeyLeq(x, y) && KeyLeq(y, z)
    ensures KeyLeq(x, z)
  {
    if x.isDir == y.isDir == z.isDir {
      NameLeqTrans(x.name, y.name, z.name);
    }
  }

  lemma {:induction false} InsertSorted(x: Entry, t: seq<Entry>)
    requires Sorted(t)
    ensures Sorted(Insert(x, t))
  {
    if t == [] {
    } else if KeyLeq(x, t[0]) {
      var r := [x] + t;
      forall i, j | 0 <= i < j < |r| ensures KeyLeq(r[i], r[j]) {
        if i == 0 && j > 1 { KeyLeqTrans(x, t[0], t[j - 1]); }
      }
    } else {
      KeyLeqTotal(x, t[0]);
      InsertSorted(x, t[1..]);
      var rest := Insert(x, t[1..]);
      var r := [t[0]] + rest;
      forall j | 0 <= j < |rest| ensures KeyLeq(t[0], rest[j]) {
        assert rest[j] in multiset(rest);
        assert rest[j] == x || rest[j] in multiset(t[1..]);
        if rest[j] != x {
          assert rest[j] in t[1..];
          var k :| 0 <= k < |t[1..]| && t[1..][k] == rest[j];
          assert t[k + 1] == rest[j];
        }
      }
      forall i, j | 0 <= i < j < |r| ensures KeyLeq(r[i], r[j]) {
        if i == 0 { assert r[j] == rest[j - 1]; }
      }
    }
  }

  /** The siblings come out ordered by the key and are exactly the listed ones. */
  lemma {:induction false} SortEntriesSorted(s: seq<Entry>)
    ensures Sorted(SortEntries(s))
    ensures multiset(SortEntries(s)) == multiset(s)
  {
    if s != [] {
      SortEntriesSorted(s[1..]);
      InsertSorted(s[0], SortEntries(s[1..]));
    }
  }

  /** Sorting neither adds nor drops an entry. */
  lemma SortEntriesMembers(s: seq<Entry>)
    ensures forall x :: x in SortEntries(s) <==> x in s
  {
    var r := SortEntries(s);
    forall x ensures x in r <==> x in s {
      assert x in r <==> x in multiset(r);
      assert x in s <==> x in multiset(s);
    }
  }

  /** In a sorted listing every directory comes before every file, and entries
      of the same kind are ordered by name. */
  lemma DirectoriesFirst(s: seq<Entry>, i: int, j: int)
    requires 0 <= i < j < |SortEntries(s)|
    ensures SortEntries(s)[j].isDir ==> SortEntries(s)[i].isDir
    ensures SortEntries(s)[i].isDir == SortEntries(s)[j].isDir ==>
              NameLeq(SortEntries(s)[i].name, SortEntries(s)[j].name)
  {
    SortEntriesSorted(s);
  }

  // ---------------------------------------------------------------- rendering

  /** One rendered line, before it is flattened to text: the inherited prefix,
      whether its entry was the last of the sorted listing, the entry's name
      and the walk depth at which it was listed. */
  datatype TreeLine = TreeLine(prefix: string, isLast: bool, name: string, level: nat)

  function Text(l: TreeLine): string
  {
    l.prefix + Connector(l.isLast) + l.name
  }

  function Texts(ls: seq<TreeLine>): (r: seq<string>)
    ensures |r| == |ls|
  {
    if ls == [] then [] else [Text(ls[0])] + Texts(ls[1..])
  }

  lemma {:induction false} TextsAppend(a: seq<TreeLine>, b: seq<TreeLine>)
    ensures Texts(a + b) == Texts(a) + Texts(b)
  {
    if a == [] {
      assert a + b == b;
    } else {
      assert (a + b)[0] == a[0];
      assert (a + b)[1..] == a[1..] + b;
      TextsAppend(a[1..], b);
    }
  }

  /** The lines `walk_dir(dir, prefix, depth)` appends. */
  function RenderDir(maxDepth: int, dir: Entry, prefix: string, depth: nat): seq<TreeLine>
    decreases dir, 2, 0
  {
    if depth > maxDepth || !dir.readable then []
    else
      var items := SortEntries(dir.children);
      assert forall x :: x in items ==> x in multiset(dir.children);
      RenderItems(maxDepth, dir, items, 0, prefix, depth)
  }

  /** The lines appended by the loop over `items[i..]`. */
  function RenderItems(maxDepth: int, parent: Entry, items: seq<Entry>, i: nat, prefix: string, depth: nat): seq<TreeLine>
    requires forall x :: x in items ==> x in parent.children
    decreases parent, 1, |items| - i
  {
    if i >= |items| then []
    else ItemLines(maxDepth, parent, items, i, prefix, depth) + RenderItems(maxDepth, parent, items, i + 1, prefix, depth)
  }

  /** The lines one iteration appends for `items[i]`: nothing for an ignored
      name, else its own line and, for a directory, the lines of the walk
      below it. `is_last` is judged against the whole sorted listing,
      skipped names included. */
  function ItemLines(maxDepth: int, parent: Entry, items: seq<Entry>, i: nat, prefix: string, depth: nat): seq<TreeLine>
    requires forall x :: x in items ==> x in parent.children
    requires i < |items|
    decreases parent, 0, 0
  {
    var item := items[i];
    var isLast := i == |items| - 1;
    if item.name in IgnoredNames then []
    else
      assert item in parent.children;
      [TreeLine(prefix, isLast, item.name, depth)]
      + (if item.isDir then RenderDir(maxDepth, item, prefix + Continuation(isLast), depth + 1) else [])
  }

  /** `_build_file_tree`: the rendered lines joined with newlines. */
  function FileTreeText(maxDepth: int, root: Entry): string
  {
    Join(Texts(RenderDir(maxDepth, root, "", 0)), "\n")
  }

  /** A prefix extension made only of 4-character bar or blank blocks. */
  predicate IsIndent(s: string)
    decreases |s|
  {
    s == [] || (|s| >= 4 && (s[..4] == Bar || s[..4] == Blank) && IsIndent(s[4..]))
  }

  /** What every line below a call `walk_dir(_, prefix, depth)` satisfies. */
  predicate GoodLine(l: TreeLine, maxDepth: int, prefix: string, depth: nat)
  {
    && l.name !in IgnoredNames
    && depth <= l.level <= maxDepth
    && prefix <= l.prefix
    && |l.prefix| == |prefix| + 4 * (l.level - depth)
    && IsIndent(l.prefix[|prefix|..])
  }

  lemma GoodLineDeeper(l: TreeLine, maxDepth: int, prefix: string, isLast: bool, depth: nat)
    requires GoodLine(l, maxDepth, prefix + Continuation(isLast), depth + 1)
    ensures GoodLine(l, maxDepth, prefix, depth)
  {
    var ext := Continuation(isLast);
    var rest := l.prefix[|prefix + ext|..];
    assert l.prefix == prefix + ext + rest;
    assert l.prefix[|prefix|..] == ext + rest;
    assert (ext + rest)[..4] == ext;
    assert (ext + rest)[4..] == rest;
  }

  lemma {:induction false} RenderDirGood(maxDepth: int, dir: Entry, prefix: string, depth: nat)
    ensures forall l :: l in RenderDir(maxDepth, dir, prefix, depth) ==> GoodLine(l, maxDepth, prefix, depth)
    decreases dir, 2, 0
  {
    if depth <= maxDepth && dir.readable {
      var items := SortEntries(dir.children);
      assert forall x :: x in items ==> x in multiset(dir.children);
      RenderItemsGood(maxDepth, dir, items, 0, prefix, depth);
    }
  }

  lemma {:induction false} RenderItemsGood(maxDepth: int, parent: Entry, items: seq<Entry>, i: nat, prefix: string, depth: nat)
    requires forall x :: x in items ==> x in parent.children
    requires depth <= maxDepth
    ensures forall l :: l in RenderItems(maxDepth, parent, items, i, prefix, depth) ==> GoodLine(l, maxDepth, prefix, depth)
    decreases parent, 1, |items| - i
  {
    if i < |items| {
      ItemLinesGood(maxDepth, parent, items, i, prefix, depth);
      RenderItemsGood(maxDepth, parent, items, i + 1, prefix, depth);
    }
  }

  lemma {:induction false} ItemLinesGood(maxDepth: int, parent: Entry, items: seq<Entry>, i: nat, prefix: string, depth: nat)
    requires forall x :: x in items ==> x in parent.children
    requires depth <= maxDepth && i < |items|
    ensures forall l :: l in ItemLines(maxDepth, parent, items, i, prefix, depth) ==> GoodLine(l, maxDepth, prefix, depth)
    decreases parent, 0, 0
  {
    var item := items[i];
    var isLast := i == |items| - 1;
    if item.name !in IgnoredNames {
      assert GoodLine(TreeLine(prefix, isLast, item.name, depth), maxDepth, prefix, depth) by {
        assert prefix[|prefix|..] == [];
      }
      if item.isDir {
        assert item in parent.children;
        var sub := RenderDir(maxDepth, item, prefix + Continuation(isLast), depth + 1);
        RenderDirGood(maxDepth, item, prefix + Continuation(isLast), depth + 1);
        forall l | l in sub ensures GoodLine(l, maxDepth, prefix, depth) {
          GoodLineDeeper(l, maxDepth, prefix, isLast, depth);
        }
      }
    }
  }

  /** Over the whole tree: no line names an ignored entry, entries are listed
      at walk depths 0 to `maxDepth` only, and each line's prefix is made of
      exactly `depth` bar-or-blank blocks, 4 characters each. */
  lemma FileTreeLines(maxDepth: int, root: Entry)
    ensures forall l :: l in RenderDir(maxDepth, root, "", 0) ==>
      && l.name !in IgnoredNames
      && 0 <= l.level <= maxDepth
      && |l.prefix| == 4 * l.level
      && IsIndent(l.prefix)
  {
    RenderDirGood(maxDepth, root, "", 0);
    forall l | l in RenderDir(maxDepth, root, "", 0) ensures IsIndent(l.prefix) {
      assert l.prefix[0..] == l.prefix;
    }
  }

  /** Names of the lines listed at walk depth `level`, in order. */
  function NamesAt(ls: seq<TreeLine>, level: nat): seq<string>
  {
    if ls == [] then []
    else (if ls[0].level == level then [ls[0].name] else []) + NamesAt(ls[1..], level)
  }

  lemma {:induction false} NamesAtAppend(a: seq<TreeLine>, b: seq<TreeLine>, level: nat)
    ensures NamesAt(a + b, level) == NamesAt(a, level) + NamesAt(b, level)
  {
    if a == [] {
      assert a + b == b;
    } else {
      assert (a + b)[0] == a[0];
      assert (a + b)[1..] == a[1..] + b;
      NamesAtAppend(a[1..], b, level);
    }
  }

  lemma {:induction false} NamesAtNone(ls: seq<TreeLine>, level: nat)
    requires forall l :: l in ls ==> l.level > level
    ensures NamesAt(ls, level) == []
  {
    if ls != [] {
      assert ls[0] in ls;
      NamesAtNone(ls[1..], level);
    }
  }

  /** Names of the entries that are not skipped, in order. */
  function VisibleNames(items: seq<Entry>): seq<string>
  {
    if items == [] then []
    else (if items[0].name in IgnoredNames then [] else [items[0].name]) + VisibleNames(items[1..])
  }

  lemma ItemLinesNames(maxDepth: int, parent: Entry, items: seq<Entry>, i: nat, prefix: string, depth: nat)
    requires forall x :: x in items ==> x in parent.children
    requires depth <= maxDepth && i < |items|
    ensures NamesAt(ItemLines(maxDepth, parent, items, i, prefix, depth), depth)
            == if items[i].name in IgnoredNames then [] else [items[i].name]
  {
    var item := items[i];
    var isLast := i == |items| - 1;
    if item.name !in IgnoredNames {
      var head := [TreeLine(prefix, isLast, item.name, depth)];
      assert item in parent.children;
      var sub := if item.isDir then RenderDir(maxDepth, item, prefix + Continuation(isLast), depth + 1) else [];
      RenderDirGood(maxDepth, item, prefix + Continuation(isLast), depth + 1);
      NamesAtNone(sub, depth);
      NamesAtAppend(head, sub, depth);
      assert NamesAt(head, depth) == [item.name] by {
        assert head[1..] == [];
      }
    }
  }

  lemma {:induction false} RenderItemsNames(maxDepth: int, parent: Entry, items: seq<Entry>, i: nat, prefix: string, depth: nat)
    requires forall x :: x in items ==> x in parent.children
    requires depth <= maxDepth && i <= |items|
    ensures NamesAt(RenderItems(maxDepth, parent, items, i, prefix, depth), depth) == VisibleNames(items[i..])
    decreases |items| - i
  {
    if i < |items| {
      RenderItemsNames(maxDepth, parent, items, i + 1, prefix, depth);
      ItemLinesNames(maxDepth, parent, items, i, prefix, depth);
      NamesAtAppend(ItemLines(maxDepth, parent, items, i, prefix, depth),
                    RenderItems(maxDepth, parent, items, i + 1, prefix, depth), depth);
      assert items[i..][0] == items[i];
      assert items[i..][1..] == items[i + 1..];
    }
  }

  /** The siblings listed directly in a readable directory within the depth
      limit are its non-ignored children in sorted order: directories first,
      then by name. */
  lemma SiblingOrder(maxDepth: int, dir: Entry, prefix: string, depth: nat)
    requires depth <= maxDepth && dir.readable
    ensures NamesAt(RenderDir(maxDepth, dir, prefix, depth), depth) == VisibleNames(SortEntries(dir.children))
  {
    var items := SortEntries(dir.children);
    assert forall x :: x in items ==> x in multiset(dir.children);
    RenderItemsNames(maxDepth, dir, items, 0, prefix, depth);
    assert items[0..] == items;
  }

  lemma {:induction false} CornerOnlyForLast(maxDepth: int, parent: Entry, items: seq<Entry>, i: nat, prefix: string, depth: nat)
    requires forall x :: x in items ==> x in parent.children
    requires depth <= maxDepth
    ensures forall l :: l in RenderItems(maxDepth, parent, items, i, prefix, depth) && l.level == depth && l.isLast ==>
              0 < |items| && items[|items| - 1].name !in IgnoredNames && l.name == items[|items| - 1].name
    decreases |items| - i
  {
    if i < |items| {
      CornerOnlyForLast(maxDepth, parent, items, i + 1, prefix, depth);
      var item := items[i];
      var isLast := i == |items| - 1;
      var own := ItemLines(maxDepth, parent, items, i, prefix, depth);
      if item.name !in IgnoredNames {
        var head := TreeLine(prefix, isLast, item.name, depth);
        assert item in parent.children;
        var sub := if item.isDir then RenderDir(maxDepth, item, prefix + Continuation(isLast), depth + 1) else [];
        assert own == [head] + sub;
        RenderDirGood(maxDepth, item, prefix + Continuation(isLast), depth + 1);
        assert forall l :: l in sub ==> l.level > depth;
      }
    }
  }

  /** The connector quirk: `is_last` is computed over the full sorted listing,
      so when the last entry is an ignored name, no sibling gets the corner
      connector. */
  lemma IgnoredLastEntryHidesCorner(maxDepth: int, dir: Entry, prefix: string, depth: nat)
    requires dir.children != []
    requires SortEntries(dir.children)[|dir.children| - 1].name in IgnoredNames
    ensures forall l :: l in RenderDir(maxDepth, dir, prefix, depth) && l.level == depth ==> !l.isLast
  {
    if depth <= maxDepth && dir.readable {
      var items := SortEntries(dir.children);
      assert forall x :: x in items ==> x in multiset(dir.children);
      CornerOnlyForLast(maxDepth, dir, items, 0, prefix, depth);
    }
  }

  lemma {:induction false} RenderItemsStep(maxDepth: int, parent: Entry, items: seq<Entry>, i: nat, prefix: string, depth: nat)
    requires forall x :: x in items ==> x in parent.children
    requires i < |items|
    ensures Texts(RenderItems(maxDepth, parent, items, i, prefix, depth))
            == Texts(ItemLines(maxDepth, parent, items, i, prefix, depth))
               + Texts(RenderItems(maxDepth, parent, items, i + 1, prefix, depth))
  {
    TextsAppend(ItemLines(maxDepth, parent, items, i, prefix, depth),
                RenderItems(maxDepth, parent, items, i + 1, prefix, depth));
  }

  /** The mutable part of `_build_file_tree`: the shared `lines` list that the
      nested `walk_dir` appends to. */
  class FileTreeBuilder {
    const maxDepth: int
    var lines: seq<string>

    constructor (maxDepth: int)
      ensures this.maxDepth == maxDepth && lines == []
    {
      this.maxDepth := maxDepth;
      lines := [];
    }

    /** `walk_dir(dir, prefix, depth)`. */
    method WalkDir(dir: Entry, prefix: string, depth: nat)
      modifies this
      ensures lines == old(lines) + Texts(RenderDir(maxDepth, dir, prefix, depth))
      decreases dir, 1
    {
      if depth > maxDepth {
        return;
      }
      if !dir.readable {
        // listing raised PermissionError, which is swallowed
        return;
      }
      var items := SortEntries(dir.children);
      SortEntriesMembers(dir.children);
      WalkListing(dir, items, prefix, depth);
    }

    /** The `for i, item in enumerate(items)` loop of `walk_dir` over the
        sorted listing of `dir`. */
    method WalkListing(dir: Entry, items: seq<Entry>, prefix: string, depth: nat)
      requires forall x :: x in items ==> x in dir.children
      modifies this
      ensures lines == old(lines) + Texts(RenderItems(maxDepth, dir, items, 0, prefix, depth))
      decreases dir, 0
    {
      ghost var total := lines + Texts(RenderItems(maxDepth, dir, items, 0, prefix, depth));
      var i := 0;
      while i < |items|
        invariant 0 <= i <= |items|
        invariant total == lines + Texts(RenderItems(maxDepth, dir, items, i, prefix, depth))
      {
        ghost var before := lines;
        ghost var own := Texts(ItemLines(maxDepth, dir, items, i, prefix, depth));
        ghost var rest := Texts(RenderItems(maxDepth, dir, items, i + 1, prefix, depth));
        RenderItemsStep(maxDepth, dir, items, i, prefix, depth);
        var item := items[i];
        if item.name !in IgnoredNames {
          var isLast := i == |items| - 1;
          var line := prefix + Connector(isLast) + item.name;
          lines := lines + [line];
          ghost var mid := lines;
          if item.isDir {
            assert item in dir.children;
            WalkDir(item, prefix + Continuation(isLast), depth + 1);
          }
          ghost var sub := if item.isDir then Texts(RenderDir(maxDepth, item, prefix + Continuation(isLast), depth + 1)) else [];
          assert lines == mid + sub;
          ItemLinesText(maxDepth, dir, items, i, prefix, depth, line, sub);
          AppendAssoc(before, [line], sub);
        } else {
          ItemLinesIgnored(maxDepth, dir, items, i, prefix, depth);
        }
        Chain(total, before, lines, own, rest);
        i := i + 1;
      }
    }
  }

  /** Regrouping the accumulated output: `lines` already holds this entry's part. */
  lemma Chain(total: seq<string>, before: seq<string>, after: seq<string>, own: seq<string>, rest: seq<string>)
    requires total == before + (own + rest)
    requires after == before + own
    ensures total == after + rest
  {
  }

  lemma ItemLinesIgnored(maxDepth: int, parent: Entry, items: seq<Entry>, i: nat, prefix: string, depth: nat)
    requires forall x :: x in items ==> x in parent.children
    requires i < |items| && items[i].name in IgnoredNames
    ensures ItemLines(maxDepth, parent, items, i, prefix, depth) == []
  {
  }

  lemma AppendAssoc(a: seq<string>, b: seq<string>, c: seq<string>)
    ensures a + b + c == a + (b + c)
  {
  }

  lemma ItemLinesText(maxDepth: int, parent: Entry, items: seq<Entry>, i: nat, prefix: string, depth: nat,
                      line: string, sub: seq<string>)
    requires forall x :: x in items ==> x in parent.children
    requires i < |items| && items[i].name !in IgnoredNames
    requires line == prefix + Connector(i == |items| - 1) + items[i].name
    requires sub == if items[i].isDir then Texts(RenderDir(maxDepth, items[i], prefix + Continuation(i == |items| - 1), depth + 1)) else []
    ensures Texts(ItemLines(maxDepth, parent, items, i, prefix, depth)) == [line] + sub
  {
    var isLast := i == |items| - 1;
    var head := [TreeLine(prefix, isLast, items[i].name, depth)];
    assert items[i] in parent.children;
    var subLines := if items[i].isDir then RenderDir(maxDepth, items[i], prefix + Continuation(isLast), depth + 1) else [];
    TextsAppend(head, subLines);
    assert Texts(head) == [Text(head[0])] by { assert head[1..] == []; }
  }

  /** `_build_file_tree(repo_dir, max_depth)`. */
  method BuildFileTree(root: Entry, maxDepth: int) returns (tree: string)
    ensures tree == FileTreeText(maxDepth, root)
  {
    var builder := new FileTreeBuilder(maxDepth);
    builder.WalkDir(root, "", 0);
    assert builder.lines == Texts(RenderDir(maxDepth, root, "", 0));
    tree := Join(builder.lines, "\n");
  }
}
