/** The fetched working copy, seen as a tree of directory entries. Children
    are kept in the order the operating system lists them (unsorted). On a
    directory, `readable` says whether its listing can be read (otherwise
    listing raises `PermissionError`); on a file, whether its text can be read.
    Looking up a known path does not need the listing, as `Path.exists()`
    does not. */
module Checkout {
  import opened Strings

  datatype Entry = Entry(name: string, isDir: bool, readable: bool, content: string, children: seq<Entry>)

  /** The first child of `dir` called `name`. */
  function Child(dir: Entry, name: string): (r: Option<Entry>)
    ensures r.Some? ==> r.value in dir.children && r.value.name == name
    ensures r.None? ==> forall c :: c in dir.children ==> c.name != name
  {
    ChildIn(dir.children, name)
  }

  function ChildIn(cs: seq<Entry>, name: string): (r: Option<Entry>)
    ensures r.Some? ==> r.value in cs && r.value.name == name
    ensures r.None? ==> forall c :: c in cs ==> c.name != name
  {
    if cs == [] then None
    else if cs[0].name == name then Some(cs[0])
    else ChildIn(cs[1..], name)
  }

  /** The entry at the relative path `path` (a list of names) below `root`,
      if every step exists and every step but the last is a directory. */
  function Lookup(root: Entry, path: seq<string>): Option<Entry>
    decreases |path|
  {
    if path == [] then Some(root)
    else if !root.isDir then None
    else match Child(root, path[0])
      case None => None
      case Some(c) => Lookup(c, path[1..])
  }
}
