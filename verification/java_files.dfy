/**
 * Models of the java.io.File path operations the plugin relies on, for the
 * Unix separator '/', and a snapshot of the file system for the checks that
 * read it.
 */
module JavaFiles {
  import opened JavaStrings
  import opened Optional

  /** The index of the last '/' in `p`, if there is one. */
  function LastSlash(p: string): (r: Option<nat>)
    ensures r.None? ==> '/' !in p
    ensures r.Some? ==> r.value < |p| && p[r.value] == '/' && '/' !in p[r.value + 1..]
  {
    if p == [] then None
    else if p[|p| - 1] == '/' then Some(|p| - 1)
    else
      match LastSlash(p[..|p| - 1])
      case None => None
      case Some(i) =>
        assert p[i + 1..] == p[..|p| - 1][i + 1..] + [p[|p| - 1]];
        Some(i)
  }

  /** `new File(p).getParent()`: null for a bare name and for the root itself. */
  function Parent(p: string): Option<string>
  {
    match LastSlash(p)
    case None => None
    case Some(i) =>
      if i == 0 then (if |p| > 1 then Some("/") else None)
      else Some(p[..i])
  }

  /** `new File(p).getName()`: what follows the last '/'. */
  function Name(p: string): (r: string)
    ensures '/' !in r
  {
    match LastSlash(p)
    case None => p
    case Some(i) => p[i + 1..]
  }

  /** `new File(parent, child).getPath()`. */
  function Child(parent: string, child: string): string
  {
    if child == "" then parent
    else if parent == "/" then "/" + child
    else parent + "/" + child
  }

  /** `new File(parent, child)` where `parent` is a File that may be null. */
  function ChildOf(parent: Option<string>, child: string): string
  {
    match parent
    case None => child
    case Some(d) => Child(d, child)
  }

  predicate IsAbsolute(p: string)
  {
    StartsWith(p, "/")
  }

  /** `new File(p).getAbsolutePath()`, with `cwd` the working directory. */
  function AbsolutePath(cwd: string, p: string): (r: string)
    requires IsAbsolute(cwd)
    ensures IsAbsolute(r)
    ensures IsAbsolute(p) ==> r == p
    ensures p == "" ==> r == cwd
    ensures !IsAbsolute(p) && p != "" && '/' !in p ==> Parent(r) == Some(cwd) && Name(r) == p
  {
    if IsAbsolute(p) then p
    else if p == "" then cwd
    else if '/' !in p then
      NameInDirectory(cwd, p);
      Child(cwd, p)
    else Child(cwd, p)
  }

  /** Making a path absolute twice is making it absolute once. */
  lemma AbsolutePathIdempotent(cwd: string, p: string)
    requires IsAbsolute(cwd)
    ensures AbsolutePath(cwd, AbsolutePath(cwd, p)) == AbsolutePath(cwd, p)
  {
  }

  /** Replacing a file's name inside its parent directory. */
  lemma ChildKeepsParent(p: string, name: string)
    requires name != "" && '/' !in name
    ensures Parent(ChildOf(Parent(p), name)) == Parent(p)
    ensures Name(ChildOf(Parent(p), name)) == name
  {
    match Parent(p)
    case None =>
    case Some(d) =>
      NameInDirectory(d, name);
  }

  /** A name placed in a directory has that directory as parent and itself as name. */
  lemma NameInDirectory(d: string, name: string)
    requires d != "" && name != "" && '/' !in name
    ensures Parent(Child(d, name)) == Some(d)
    ensures Name(Child(d, name)) == name
  {
    if d == "/" {
      LastSlashAfter("/", name);
    } else {
      LastSlashAfter(d + "/", name);
      assert (d + "/" + name)[..|d|] == d;
    }
  }

  /** The last '/' of `x + y`, when `x` ends with one and `y` has none. */
  lemma {:induction false} LastSlashAfter(x: string, y: string)
    requires x != "" && x[|x| - 1] == '/' && '/' !in y
    ensures LastSlash(x + y) == Some(|x| - 1)
    decreases |y|
  {
    if y != "" {
      var y' := y[..|y| - 1];
      assert (x + y)[..|x + y| - 1] == x + y';
      LastSlashAfter(x, y');
    } else {
      assert x + y == x;
    }
  }

  /** What a path names on disk. */
  datatype EntryKind = RegularFile | Directory

  /** A snapshot of the file system: the kind of every existing path. */
  datatype FileSystem = FileSystem(entries: map<string, EntryKind>)

  /** `f.exists() && f.isDirectory()`. */
  predicate IsExistingDirectory(fs: FileSystem, path: string)
  {
    path in fs.entries && fs.entries[path] == Directory
  }
}
