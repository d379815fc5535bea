/** The parts of Windows path handling (`os.path` as `ntpath`) that the utilities rely on:
    `basename`, `splitext` and `join` with a plain file name. */
module Paths {
  import opened Text

  /** Both separators accepted by `ntpath`. */
  predicate IsSep(c: char) {
    c == '/' || c == '\\'
  }

  /** The separator `ntpath.join` inserts. */
  const SEP: char := '\\'

  /** `os.path.basename`: everything after the last separator. */
  function Basename(p: string): (r: string)
    ensures EndsWith(p, r)
    ensures forall i :: 0 <= i < |r| ==> !IsSep(r[i])
    ensures |r| < |p| ==> IsSep(p[|p| - |r| - 1])
  {
    if p == [] then []
    else if IsSep(p[|p| - 1]) then []
    else Basename(p[..|p| - 1]) + [p[|p| - 1]]
  }

  /** Index of the last occurrence of `c` in `s`, or -1. */
  function LastIndexOf(s: string, c: char): (i: int)
    ensures -1 <= i < |s|
    ensures i >= 0 ==> s[i] == c
    ensures forall j :: i < j < |s| ==> s[j] != c
  {
    if s == [] then -1
    else if s[|s| - 1] == c then |s| - 1
    else LastIndexOf(s[..|s| - 1], c)
  }

  /** `os.path.splitext` applied to a file name: the extension starts at the last dot,
      provided some character before that dot is not itself a dot (so ".bashrc" and
      "..x" have no extension). */
  function SplitExt(name: string): (parts: (string, string))
    ensures parts.0 + parts.1 == name
    ensures parts.1 != [] ==> parts.1[0] == '.' && forall j :: 0 < j < |parts.1| ==> parts.1[j] != '.'
  {
    var d := LastIndexOf(name, '.');
    if d > 0 && exists j | 0 <= j < d :: name[j] != '.' then (name[..d], name[d..]) else (name, [])
  }

  /** A name has an extension exactly when some character before its last dot is not a dot. */
  lemma SplitExtRule(name: string)
    ensures SplitExt(name).1 != [] <==> exists j :: 0 <= j < LastIndexOf(name, '.') && name[j] != '.'
  {
  }

  /** `os.path.join(directory, name)` for a `name` holding no separator and no drive:
      a separator is inserted unless the directory is empty, already ends in a separator,
      or is a bare drive such as "C:". */
  function Join(directory: string, name: string): (r: string)
    ensures |r| == |directory| + |name| || (|r| == |directory| + 1 + |name| && r[|directory|] == SEP)
    ensures r[..|directory|] == directory && EndsWith(r, name)
  {
    if directory == [] || IsSep(directory[|directory| - 1]) || (|directory| == 2 && directory[1] == ':')
    then directory + name
    else directory + [SEP] + name
  }
}
