/** The slice of pathlib the core uses: a file is a directory plus a name, and the
    name splits into stem and suffix exactly as PurePath.stem / PurePath.suffix do. */
module Paths {
  import opened Text

  /** An absolute path: the parent directory and the final component. */
  datatype Path = Path(parent: string, name: string)

  /** PurePath(dir).name for a normalised directory path: the text after its last '/'
      (empty for the root "/"). */
  function DirName(dir: string): (r: string)
    ensures '/' !in r
    ensures EndsWith(dir, r)
    decreases |dir|
  {
    if dir == [] || dir[|dir| - 1] == '/' then []
    else
      var init := dir[..|dir| - 1];
      assert dir == init + [dir[|dir| - 1]];
      DirName(init) + [dir[|dir| - 1]]
  }

  /** Names that, joined to a directory, name no entry inside it: pathlib drops "" and "."
      (the join is the directory itself) and ".." is the directory above. */
  predicate JoinsOutside(name: string)
  {
    name == "" || name == "." || name == ".."
  }

  /** PurePath.name of parent.joinpath(name). */
  function JoinedName(parent: string, name: string): string
  {
    if name == "" || name == "." then DirName(parent) else name
  }

  /** The sort key of a path among siblings (and os.path.basename). */
  function NameOf(p: Path): string { p.name }

  /** name.rfind('.'): the index of the last dot, or -1 when there is none. */
  function LastDot(s: string): (r: int)
    ensures -1 <= r < |s|
    ensures r >= 0 ==> s[r] == '.'
    ensures forall k :: r < k < |s| ==> s[k] != '.'
    decreases |s|
  {
    if s == [] then -1
    else if s[|s| - 1] == '.' then |s| - 1
    else LastDot(s[..|s| - 1])
  }

  /** pathlib counts a last dot as a suffix only when it neither starts nor ends the name. */
  predicate HasSuffix(name: string)
  {
    0 < LastDot(name) < |name| - 1
  }

  function Suffix(name: string): (r: string)
    ensures r == [] || (|r| >= 2 && r[0] == '.' && EndsWith(name, r))
  {
    if HasSuffix(name) then name[LastDot(name)..] else []
  }

  function Stem(name: string): (r: string)
    ensures r + Suffix(name) == name
  {
    if HasSuffix(name) then name[..LastDot(name)] else name
  }
}
