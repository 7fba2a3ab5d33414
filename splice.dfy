/**
 * Marker-based text splicing: `appendContent` and `RewriteFileContents`.
 * New text is put on the line after the line that holds the LAST occurrence
 * of a marker string.
 */
module Splice {
  import opened Wrappers
  import opened GoStrings

  /** The two ways the splice can fail. */
  datatype SpliceError =
    | TargetNotFound(target: string)   // the marker does not occur at all
    | NoTrailingNewline(tail: string)  // no line break after its last occurrence; `tail` is the text from there on

  /** No line break in s[lo..hi]. */
  ghost predicate NoNewline(s: string, lo: int, hi: int)
    requires 0 <= lo <= hi <= |s|
  {
    forall j :: lo <= j < hi ==> s[j] != '\n'
  }

  /**
   * `i` is where new text goes: `k` is the last occurrence of `t`, and `i` is
   * one past the first line break at or after `k`.
   */
  ghost predicate IsInsertionPoint(s: string, t: string, k: int, i: int) {
    && IsLastOccurrence(s, t, k)
    && k < i <= |s|
    && s[i - 1] == '\n'
    && NoNewline(s, k, i - 1)
  }

  /** appendContent: returns the contents with `newContent` on the line after the marker's last line. */
  function AppendContent(fileContents: string, target: string, newContent: string): (r: Result<string, SpliceError>)
    ensures r == Failure(TargetNotFound(target)) <==> !Contains(fileContents, target)
    ensures r.Failure? && r.error.NoTrailingNewline? ==> HasSuffix(fileContents, r.error.tail) && HasPrefix(r.error.tail, target)
    ensures r.Success? ==> |r.value| == |fileContents| + |newContent| && Contains(r.value, newContent)
  {
    var labelIndex := LastIndex(fileContents, target);
    if labelIndex == -1 then Failure(TargetNotFound(target))
    else
      var separationIndex := Index(fileContents[labelIndex..], "\n");
      if separationIndex == -1 then
        assert fileContents[labelIndex..][..|target|] == fileContents[labelIndex..labelIndex + |target|];
        Failure(NoTrailingNewline(fileContents[labelIndex..]))
      else
        var index := labelIndex + separationIndex + 1;
        var u := fileContents[..index] + newContent + fileContents[index..];
        assert u[index..index + |newContent|] == newContent;
        assert OccursAt(u, newContent, index);
        Success(u)
  }

  /** The last occurrence is unique. */
  lemma LastOccurrenceUnique(s: string, t: string, k: int, k': int)
    requires IsLastOccurrence(s, t, k) && IsLastOccurrence(s, t, k')
    ensures k == k'
  {
  }

  /** The insertion point, when there is one, is unique. */
  lemma InsertionPointUnique(s: string, t: string, k: int, i: int, k': int, i': int)
    requires IsInsertionPoint(s, t, k, i) && IsInsertionPoint(s, t, k', i')
    ensures k == k' && i == i'
  {
    LastOccurrenceUnique(s, t, k, k');
  }

  /** What appendContent computes once it has found the marker: the insertion point the two searches give. */
  lemma SearchGivesInsertionPoint(s: string, t: string)
    requires LastIndex(s, t) != -1
    ensures var k := LastIndex(s, t);
            Index(s[k..], "\n") != -1 <==> !NoNewline(s, k, |s|)
    ensures var k := LastIndex(s, t);
            Index(s[k..], "\n") != -1 ==> IsInsertionPoint(s, t, k, k + Index(s[k..], "\n") + 1)
  {
    var k := LastIndex(s, t);
    var tail := s[k..];
    IndexOfChar(tail, '\n');
    assert "\n" == ['\n'];
    var sep := Index(tail, "\n");
    if sep == -1 {
      forall j | k <= j < |s| ensures s[j] != '\n' {
        assert s[j] == tail[j - k];
      }
    } else {
      assert s[k + sep] == tail[sep];
      forall j | k <= j < k + sep ensures s[j] != '\n' {
        assert s[j] == tail[..sep][j - k];
      }
    }
  }

  /** appendContent succeeds exactly when the marker occurs and a line break follows its last occurrence. */
  lemma AppendContentSucceedsIff(s: string, t: string, n: string)
    ensures AppendContent(s, t, n).Success? <==> exists k, i :: IsInsertionPoint(s, t, k, i)
  {
    var k := LastIndex(s, t);
    if k != -1 {
      SearchGivesInsertionPoint(s, t);
      if AppendContent(s, t, n).Failure? {
        forall k', i' | IsInsertionPoint(s, t, k', i') ensures false {
          LastOccurrenceUnique(s, t, k, k');
        }
      }
    }
  }

  /** On success the new text sits exactly at the insertion point, with the original on both sides. */
  lemma AppendContentInsertsAt(s: string, t: string, n: string, k: int, i: int)
    requires IsInsertionPoint(s, t, k, i)
    ensures AppendContent(s, t, n) == Success(s[..i] + n + s[i..])
  {
    LastOccurrenceUnique(s, t, k, LastIndex(s, t));
    SearchGivesInsertionPoint(s, t);
    InsertionPointUnique(s, t, k, i, k, k + Index(s[k..], "\n") + 1);
  }

  /** The spliced text keeps the whole original around the new content, and removing the new content gives it back. */
  lemma AppendContentKeepsOriginal(s: string, t: string, n: string, k: int, i: int)
    requires IsInsertionPoint(s, t, k, i)
    ensures AppendContent(s, t, n).Success?
    ensures var u := AppendContent(s, t, n).value;
            && |u| == |s| + |n|
            && u[..i] == s[..i]
            && u[i..i + |n|] == n
            && u[i + |n|..] == s[i..]
            && u[..i] + u[i + |n|..] == s
  {
    AppendContentInsertsAt(s, t, n, k, i);
    var u := s[..i] + n + s[i..];
    assert u[..i] == s[..i];
    assert u[i..i + |n|] == n;
    assert u[i + |n|..] == s[i..];
  }

  /** The insertion point comes after every occurrence of the marker, and after the whole of the last one when the marker is a single line. */
  lemma InsertionAfterEveryOccurrence(s: string, t: string, k: int, i: int)
    requires IsInsertionPoint(s, t, k, i)
    ensures forall j :: OccursAt(s, t, j) ==> j < i
    ensures '\n' !in t ==> k + |t| < i
  {
  }

  /** The two failures: a missing marker, or a last occurrence on an unterminated final line. */
  lemma AppendContentErrors(s: string, t: string, n: string)
    ensures AppendContent(s, t, n) == Failure(TargetNotFound(t)) <==> forall j :: !OccursAt(s, t, j)
    ensures AppendContent(s, t, n).Failure? && AppendContent(s, t, n).error.NoTrailingNewline? ==>
              var tail := AppendContent(s, t, n).error.tail;
              && HasSuffix(s, tail)
              && HasPrefix(tail, t)
              && '\n' !in tail
              && IsLastOccurrence(s, t, |s| - |tail|)
  {
    var k := LastIndex(s, t);
    if k != -1 {
      SearchGivesInsertionPoint(s, t);
      var tail := s[k..];
      if Index(tail, "\n") == -1 {
        assert s[k..k + |t|] == tail[..|t|];
        forall j | 0 <= j < |tail| ensures tail[j] != '\n' {
          assert tail[j] == s[k + j];
        }
      }
    }
  }

  /** An empty marker never succeeds: its last occurrence is at the very end, where no line break can follow. */
  lemma EmptyTargetFails(s: string, n: string)
    ensures AppendContent(s, "", n) == Failure(NoTrailingNewline(""))
  {
    assert OccursAt(s, "", |s|);
    LastOccurrenceUnique(s, "", |s|, LastIndex(s, ""));
  }

  /** Why RewriteFileContents failed. */
  datatype RewriteError =
    | ReadFailed(filename: string)
    | SpliceFailed(cause: SpliceError)
    | WriteFailed(filename: string)

  /**
   * An in-memory file system: `files` maps each readable path to its contents;
   * a path in `readOnly` cannot be opened for writing.
   */
  class FileStore {
    var files: map<string, string>
    const readOnly: set<string>

    constructor (initial: map<string, string>, locked: set<string>)
      ensures files == initial && readOnly == locked
    {
      files := initial;
      readOnly := locked;
    }

    /**
     * RewriteFileContents: reads `filename`, splices `newContent` after the last
     * line holding `target`, and writes the result back over the file.
     * The store changes only when all three steps succeed.
     */
    method RewriteFileContents(filename: string, target: string, newContent: string)
      returns (err: Option<RewriteError>)
      modifies this
      ensures filename !in old(files) ==> err == Some(ReadFailed(filename)) && files == old(files)
      ensures filename in old(files) && AppendContent(old(files)[filename], target, newContent).Failure? ==>
                && err == Some(SpliceFailed(AppendContent(old(files)[filename], target, newContent).error))
                && files == old(files)
      ensures filename in old(files) && AppendContent(old(files)[filename], target, newContent).Success? ==>
                if filename in readOnly then
                  err == Some(WriteFailed(filename)) && files == old(files)
                else
                  err == None && files == old(files)[filename := AppendContent(old(files)[filename], target, newContent).value]
      ensures err == None <==>
                (filename in old(files) && filename !in readOnly
                 && AppendContent(old(files)[filename], target, newContent).Success?)
    {
      if filename !in files {
        return Some(ReadFailed(filename));
      }
      var text := files[filename];
      var modifiedContent := AppendContent(text, target, newContent);
      if modifiedContent.Failure? {
        return Some(SpliceFailed(modifiedContent.error));
      }
      if filename in readOnly {
        return Some(WriteFailed(filename));
      }
      files := files[filename := modifiedContent.value];
      return None;
    }
  }
}
