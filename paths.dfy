/** A value model of `pathlib.PurePosixPath`: an optional root and a list of name segments. */
module Paths {
  import Strings

  /** `absolute` says whether the path starts at the root; each part is one file name (no '/'). */
  datatype Path = Path(absolute: bool, parts: seq<string>)

  /** `dir / name` for a single file name `name`. */
  function Child(dir: Path, name: string): (p: Path)
    ensures p.absolute == dir.absolute && |p.parts| == |dir.parts| + 1
    ensures p.parts[..|dir.parts|] == dir.parts && p.parts[|dir.parts|] == name
  {
    Path(dir.absolute, dir.parts + [name])
  }

  /** `p.parent`: the root and the empty relative path are their own parents. */
  function Parent(p: Path): Path
  {
    if p.parts == [] then p else Path(p.absolute, p.parts[..|p.parts| - 1])
  }

  /** `str(p)`: parts joined by '/', a leading '/' when absolute, "." for the empty relative path. */
  function PathString(p: Path): string
  {
    if !p.absolute && p.parts == [] then "."
    else (if p.absolute then "/" else "") + Strings.Join(p.parts, "/")
  }

  lemma ParentOfChild(dir: Path, name: string)
    ensures Parent(Child(dir, name)) == dir
  {
  }

  /** Two children of one directory are equal only when their names are. */
  lemma ChildInjective(dir: Path, a: string, b: string)
    requires Child(dir, a) == Child(dir, b)
    ensures a == b
  {
  }
}
