/**
 * The parts of Go's `strings` package that the project utilities rely on.
 * A Go string is a sequence of bytes; here each byte is one `char`, so every
 * index below is a byte offset as in Go.
 */
module GoStrings {

  /** `t` occurs in `s` at offset `k`. */
  predicate OccursAt(s: string, t: string, k: int) {
    0 <= k && k + |t| <= |s| && s[k..k + |t|] == t
  }

  /** `k` is the offset of the last occurrence of `t` in `s`. */
  ghost predicate IsLastOccurrence(s: string, t: string, k: int) {
    OccursAt(s, t, k) && forall j :: k < j ==> !OccursAt(s, t, j)
  }

  /** strings.HasPrefix */
  predicate HasPrefix(s: string, p: string) {
    |p| <= |s| && s[..|p|] == p
  }

  /** strings.HasSuffix */
  predicate HasSuffix(s: string, p: string) {
    |p| <= |s| && s[|s| - |p|..] == p
  }

  /** Every character of `s` is `c`. */
  predicate AllChar(s: string, c: char) {
    forall j :: 0 <= j < |s| ==> s[j] == c
  }

  /** The first occurrence of `t` in `s` at or after `k`, or -1. */
  function IndexFrom(s: string, t: string, k: nat): (r: int)
    requires k <= |s|
    decreases |s| - k
    ensures r == -1 || (k <= r && OccursAt(s, t, r))
    ensures r == -1 <==> forall j :: k <= j ==> !OccursAt(s, t, j)
    ensures r != -1 ==> forall j :: k <= j < r ==> !OccursAt(s, t, j)
  {
    if k + |t| > |s| then -1
    else if s[k..k + |t|] == t then k
    else IndexFrom(s, t, k + 1)
  }

  /** strings.Index: the offset of the first occurrence of `t` in `s`, or -1. */
  function Index(s: string, t: string): (r: int)
    ensures r == -1 || OccursAt(s, t, r)
    ensures r == -1 <==> forall j :: !OccursAt(s, t, j)
    ensures r != -1 ==> forall j :: j < r ==> !OccursAt(s, t, j)
  {
    IndexFrom(s, t, 0)
  }

  /** strings.Contains */
  function Contains(s: string, t: string): (b: bool)
    ensures b <==> exists j :: OccursAt(s, t, j)
  {
    Index(s, t) != -1
  }

  /** The last occurrence of `t` in `s` at or before `k`, or -1. */
  function LastIndexAtOrBelow(s: string, t: string, k: nat): (r: int)
    requires k + |t| <= |s|
    decreases k
    ensures r == -1 || (r <= k && OccursAt(s, t, r))
    ensures r == -1 <==> forall j :: j <= k ==> !OccursAt(s, t, j)
    ensures r != -1 ==> forall j :: r < j <= k ==> !OccursAt(s, t, j)
  {
    if s[k..k + |t|] == t then k
    else if k == 0 then -1
    else LastIndexAtOrBelow(s, t, k - 1)
  }

  /**
   * strings.LastIndex: the offset of the last occurrence of `t` in `s`, or -1.
   * For an empty `t` this is |s|.
   */
  function LastIndex(s: string, t: string): (r: int)
    ensures r == -1 <==> forall j :: !OccursAt(s, t, j)
    ensures r != -1 ==> IsLastOccurrence(s, t, r)
  {
    if |t| > |s| then -1 else LastIndexAtOrBelow(s, t, |s| - |t|)
  }

  /** The first occurrence of a single character, stated on characters. */
  lemma IndexOfChar(s: string, c: char)
    ensures Index(s, [c]) == -1 <==> c !in s
    ensures Index(s, [c]) != -1 ==>
              0 <= Index(s, [c]) < |s| && s[Index(s, [c])] == c && c !in s[..Index(s, [c])]
  {
    var r := Index(s, [c]);
    if r == -1 {
      forall j | 0 <= j < |s| ensures s[j] != c {
        assert !OccursAt(s, [c], j);
        assert s[j..j + 1] == [s[j]];
      }
    } else {
      assert s[r..r + 1] == [s[r]];
      forall j | 0 <= j < r ensures s[j] != c {
        assert !OccursAt(s, [c], j);
        assert s[j..j + 1] == [s[j]];
      }
    }
  }

  /**
   * strings.Replace(s, pat, rep, 1): the first occurrence of `pat` is replaced
   * by `rep`; an empty `pat` matches at the very beginning.
   */
  function ReplaceFirst(s: string, pat: string, rep: string): (r: string)
    ensures pat == [] ==> r == rep + s
    ensures pat != [] && !Contains(s, pat) ==> r == s
    ensures pat != [] && HasPrefix(s, pat) ==> r == rep + s[|pat|..]
    ensures pat != [] && Contains(s, pat) ==> |r| == |s| - |pat| + |rep|
    ensures pat != [] && Contains(s, pat) ==>
              var i := Index(s, pat);
              0 <= i && i + |pat| <= |s| && r == s[..i] + rep + s[i + |pat|..]
  {
    if |pat| == 0 then rep + s
    else
      var i := Index(s, pat);
      assert HasPrefix(s, pat) ==> OccursAt(s, pat, 0);
      if i == -1 then s else s[..i] + rep + s[i + |pat|..]
  }

  /** strings.TrimLeft(s, string(c)): `r` is what follows the leading run of `c`. */
  function TrimLeft(s: string, c: char): (r: string)
    ensures HasSuffix(s, r)
    ensures forall j :: 0 <= j < |s| - |r| ==> s[j] == c
    ensures r == [] || r[0] != c
  {
    if |s| > 0 && s[0] == c then TrimLeft(s[1..], c) else s
  }

  /** strings.TrimRight(s, string(c)): `r` is what precedes the trailing run of `c`. */
  function TrimRight(s: string, c: char): (r: string)
    ensures HasPrefix(s, r)
    ensures forall j :: |r| <= j < |s| ==> s[j] == c
    ensures r == [] || r[|r| - 1] != c
  {
    if |s| > 0 && s[|s| - 1] == c then TrimRight(s[..|s| - 1], c) else s
  }

  /** `r` sits at offset `lo` of `s`, with only `c` before and after it. */
  ghost predicate Surrounds(s: string, r: string, lo: int, c: char) {
    && 0 <= lo <= |s| - |r|
    && (forall j :: 0 <= j < |r| ==> s[lo + j] == r[j])
    && (forall j :: 0 <= j < lo ==> s[j] == c)
    && (forall j :: lo + |r| <= j < |s| ==> s[j] == c)
  }

  /** strings.Trim(s, string(c)): strips `c` from both ends. */
  function Trim(s: string, c: char): (r: string)
    ensures r == [] || (r[0] != c && r[|r| - 1] != c)
  {
    TrimRight(TrimLeft(s, c), c)
  }

  /** Trim removes nothing but `c`: the result is a piece of `s` with only `c` on either side. */
  lemma TrimBounds(s: string, c: char)
    ensures Surrounds(s, Trim(s, c), |s| - |TrimLeft(s, c)|, c)
  {
    var left := TrimLeft(s, c);
    var r := TrimRight(left, c);
    var lo := |s| - |left|;
    assert s[lo..] == left;
    forall j | 0 <= j < |r| ensures s[lo + j] == r[j] {
      assert r[j] == left[j] == s[lo..][j];
    }
    forall j | lo + |r| <= j < |s| ensures s[j] == c {
      assert left[j - lo] == c;
    }
  }

  /** Trimming text that is surrounded only by `c` gives back that text. */
  lemma {:induction false} TrimSurrounded(a: string, p: string, b: string, c: char)
    requires AllChar(a, c) && AllChar(b, c)
    requires p == [] || (p[0] != c && p[|p| - 1] != c)
    ensures Trim(a + p + b, c) == p
  {
    if p == [] {
      assert a + p + b == (a + b) + [];
      TrimLeftSurrounded(a + b, [], c);
    } else {
      assert a + p + b == a + (p + b);
      TrimLeftSurrounded(a, p + b, c);
      TrimRightSurrounded(p, b, c);
    }
  }

  lemma {:induction false} TrimLeftSurrounded(a: string, q: string, c: char)
    requires AllChar(a, c) && (q == [] || q[0] != c)
    ensures TrimLeft(a + q, c) == q
    decreases |a|
  {
    if |a| > 0 {
      assert (a + q)[1..] == a[1..] + q;
      TrimLeftSurrounded(a[1..], q, c);
    }
  }

  lemma {:induction false} TrimRightSurrounded(p: string, b: string, c: char)
    requires AllChar(b, c) && (p == [] || p[|p| - 1] != c)
    ensures TrimRight(p + b, c) == p
    decreases |b|
  {
    if |b| > 0 {
      assert (p + b)[..|p + b| - 1] == p + b[..|b| - 1];
      TrimRightSurrounded(p, b[..|b| - 1], c);
    } else {
      assert p + b == p;
    }
  }

  /** The pieces of `parts` glued with `sep`. */
  function JoinWith(parts: seq<string>, sep: char): string {
    if |parts| == 0 then ""
    else if |parts| == 1 then parts[0]
    else parts[0] + [sep] + JoinWith(parts[1..], sep)
  }

  /**
   * strings.Split(s, string(sep)): the pieces between separators; there is
   * always at least one piece, and gluing them back gives `s`.
   */
  function Split(s: string, sep: char): (r: seq<string>)
    decreases |s|
    ensures |r| >= 1
    ensures forall j :: 0 <= j < |r| ==> sep !in r[j]
    ensures JoinWith(r, sep) == s
  {
    IndexOfChar(s, sep);
    var i := Index(s, [sep]);
    if i == -1 then [s]
    else
      var rest := Split(s[i + 1..], sep);
      SplitStep(s, sep, i, rest);
      [s[..i]] + rest
  }

  /** One step of Split: the piece before the first separator, then the pieces of the rest. */
  lemma SplitStep(s: string, sep: char, i: int, rest: seq<string>)
    requires 0 <= i < |s| && s[i] == sep && sep !in s[..i]
    requires |rest| >= 1 && JoinWith(rest, sep) == s[i + 1..]
    requires forall j :: 0 <= j < |rest| ==> sep !in rest[j]
    ensures forall j :: 0 <= j < |[s[..i]] + rest| ==> sep !in ([s[..i]] + rest)[j]
    ensures JoinWith([s[..i]] + rest, sep) == s
  {
    var r := [s[..i]] + rest;
    assert r[1..] == rest;
    assert JoinWith(r, sep) == s[..i] + [sep] + s[i + 1..];
    assert s == s[..i] + [sep] + s[i + 1..];
    forall j | 0 <= j < |r| ensures sep !in r[j] {
      if j > 0 { assert r[j] == rest[j - 1]; }
    }
  }
}
