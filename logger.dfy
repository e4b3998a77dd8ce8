/** Logger::fileName: the last component of a path, where either '/' or
    '\\' separates the components. */
module Logger {
  import opened Wrappers

  /** The two characters find_last_of is given. */
  predicate IsSeparator(c: char) {
    c == '/' || c == '\\'
  }

  /** No separator anywhere in s. */
  predicate NoSeparator(s: string) {
    forall i :: 0 <= i < |s| ==> !IsSeparator(s[i])
  }

  /** find_last_of("\\/"): the index of the last separator in path, or None
      (npos) when there is none. */
  function LastSeparator(path: string): (r: Option<nat>)
    ensures r.None? <==> NoSeparator(path)
    ensures r.Some? ==> r.value < |path| && IsSeparator(path[r.value]) && NoSeparator(path[r.value + 1..])
  {
    if |path| == 0 then None
    else if IsSeparator(path[|path| - 1]) then Some(|path| - 1)
    else
      var r := LastSeparator(path[..|path| - 1]);
      assert forall i :: 0 <= i < |path| - 1 ==> path[..|path| - 1][i] == path[i];
      if r.Some? then
        assert path[r.value + 1..] == path[..|path| - 1][r.value + 1..] + [path[|path| - 1]];
        r
      else
        r
  }

  /** fileName: what follows the last separator, or the whole path when it
      has none. */
  function FileName(path: string): (name: string)
    ensures NoSeparator(name)
    ensures |name| <= |path| && path[|path| - |name|..] == name
    ensures NoSeparator(path) ==> name == path
    ensures |path| > 0 && IsSeparator(path[|path| - 1]) ==> name == ""
  {
    match LastSeparator(path)
    case None => path
    case Some(pos) => path[pos + 1..]
  }

  /** The name is the longest suffix without a separator: one character
      more would take the separator in. */
  lemma FileNameIsLongest(path: string)
    ensures var name := FileName(path);
            |name| < |path| ==> IsSeparator(path[|path| - |name| - 1])
  {
  }

  /** Taking the file name of a file name changes nothing. */
  lemma FileNameIdempotent(path: string)
    ensures FileName(FileName(path)) == FileName(path)
  {
  }

  /** A name without separators appended to a directory and a separator
      comes back out. */
  lemma FileNameOfJoin(dir: string, sep: char, name: string)
    requires IsSeparator(sep) && NoSeparator(name)
    ensures FileName(dir + [sep] + name) == name
  {
    var path := dir + [sep] + name;
    var pos := |dir|;
    assert path[pos] == sep && path[pos + 1..] == name;
  }
}
