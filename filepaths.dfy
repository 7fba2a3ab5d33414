/**
 * The parts of Go's `path/filepath` package used by the project utilities,
 * fixed to '/' as the path separator and ':' as the list separator.
 * Lexical clean-up (".", "..", doubled separators inside a path) is not modelled:
 * paths are taken as already clean.
 */
module FilePaths {
  import opened GoStrings

  const SEPARATOR: char := '/'
  const LIST_SEPARATOR: char := ':'

  /**
   * filepath.Join of two elements: empty elements are dropped, and one
   * separator goes between two non-empty ones unless the first already ends in it.
   */
  function Join(a: string, b: string): (r: string)
    ensures HasPrefix(r, a) && HasSuffix(r, b)
    ensures a == "" ==> r == b
    ensures b == "" ==> r == a
    ensures a != "" && b != "" && a[|a| - 1] != SEPARATOR ==> r == a + [SEPARATOR] + b
    ensures a != "" && b != "" && a[|a| - 1] == SEPARATOR ==> r == a + b
  {
    if a == "" then b
    else if b == "" then a
    else if a[|a| - 1] == SEPARATOR then a + b
    else a + [SEPARATOR] + b
  }

  /**
   * filepath.Dir: everything before the last separator, with the trailing
   * separators dropped; "." when there is no separator, "/" when only
   * separators precede it.
   */
  function Dir(p: string): (r: string)
    ensures r != ""
    ensures SEPARATOR !in p ==> r == "."
    ensures SEPARATOR in p ==>
              var i := LastIndex(p, [SEPARATOR]);
              && 0 <= i < |p| && p[i] == SEPARATOR && SEPARATOR !in p[i + 1..]
              && ((r == [SEPARATOR] && AllChar(p[..i + 1], SEPARATOR))
                  || (HasPrefix(p, r) && |r| <= i + 1 && r[|r| - 1] != SEPARATOR && AllChar(p[|r|..i + 1], SEPARATOR)))
    ensures SEPARATOR in p && r != [SEPARATOR] ==> HasPrefix(p, r) && |r| < |p|
  {
    IndexOfChar(p, SEPARATOR);
    var i := LastIndex(p, [SEPARATOR]);
    if i == -1 then "."
    else
      LastSeparator(p, i);
      var d := TrimRight(p[..i + 1], SEPARATOR);
      if d == "" then [SEPARATOR] else d
  }

  /** The last occurrence of the separator is a separator with none after it. */
  lemma LastSeparator(p: string, i: int)
    requires i != -1 && i == LastIndex(p, [SEPARATOR])
    ensures 0 <= i < |p| && p[i] == SEPARATOR && SEPARATOR !in p[i + 1..]
  {
    assert p[i..i + 1] == [SEPARATOR];
    if SEPARATOR in p[i + 1..] {
      var j :| i + 1 <= j < |p| && p[j] == SEPARATOR;
      assert p[j..j + 1] == [SEPARATOR];
      assert OccursAt(p, [SEPARATOR], j);
    }
  }

  /**
   * filepath.SplitList: an empty list is empty, any other list is split at
   * every ':' (empty elements are kept).
   */
  function SplitList(path: string): (r: seq<string>)
    ensures r == [] <==> path == ""
    ensures forall j :: 0 <= j < |r| ==> LIST_SEPARATOR !in r[j]
    ensures path != "" ==> JoinWith(r, LIST_SEPARATOR) == path
  {
    if path == "" then [] else Split(path, LIST_SEPARATOR)
  }
}
