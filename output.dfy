/** Bounding captured output to a number of lines (`_truncate_lines`). */
module OutputLimit {
  import opened PyText

  /** Python's `s[:n]`; a negative `n` counts from the end. */
  function SliceTo<T>(s: seq<T>, n: int): (r: seq<T>)
    ensures r <= s
    ensures |r| == if n >= 0 then (if n <= |s| then n else |s|) else (if |s| + n > 0 then |s| + n else 0)
  {
    if n >= |s| then s
    else if n >= 0 then s[..n]
    else if |s| + n > 0 then s[..|s| + n]
    else []
  }

  /**
   * `_truncate_lines(text, max_lines)`: the text split on newlines, cut to
   * its first `max_lines` pieces and re-joined, with a flag that says
   * whether anything was cut.
   */
  function TruncateLines(text: string, maxLines: int): (string, bool)
  {
    if text == [] then (text, false)
    else
      var lines := Split(text, '\n');
      if |lines| <= maxLines then (text, false)
      else (Join(SliceTo(lines, maxLines), '\n'), true)
  }

  /** The number of newline-separated pieces of `text`. */
  function LineCount(text: string): (n: nat)
    ensures n == multiset(text)['\n'] + 1
  {
    SplitCount(text, '\n');
    |Split(text, '\n')|
  }

  /**
   * The text comes back unchanged, unflagged, exactly when it is empty or
   * has fewer than `maxLines` newlines; otherwise it is flagged.
   */
  lemma TruncateUnchanged(text: string, maxLines: int)
    ensures !TruncateLines(text, maxLines).1 <==> text == [] || multiset(text)['\n'] < maxLines
    ensures !TruncateLines(text, maxLines).1 ==> TruncateLines(text, maxLines).0 == text
  {
    SplitCount(text, '\n');
  }

  /** When the flag is set and `maxLines` is positive, the result is exactly the first `maxLines` lines. */
  lemma TruncatedIsFirstLines(text: string, maxLines: int)
    requires maxLines >= 1 && TruncateLines(text, maxLines).1
    ensures Split(TruncateLines(text, maxLines).0, '\n') == Split(text, '\n')[..maxLines]
    ensures LineCount(TruncateLines(text, maxLines).0) == maxLines
  {
    var lines := Split(text, '\n');
    SplitJoin(lines[..maxLines], '\n');
  }

  /** The result is always a prefix of the input. */
  lemma TruncatePrefix(text: string, maxLines: int)
    ensures TruncateLines(text, maxLines).0 <= text
  {
    if text != [] {
      var lines := Split(text, '\n');
      if |lines| > maxLines {
        var kept := SliceTo(lines, maxLines);
        assert kept == lines[..|kept|];
        JoinTakePrefix(lines, |kept|, '\n');
        JoinSplit(text, '\n');
      }
    }
  }

  /** With a positive limit the result never has more than `maxLines` lines. */
  lemma TruncateBounded(text: string, maxLines: int)
    requires maxLines >= 1
    ensures LineCount(TruncateLines(text, maxLines).0) <= maxLines
  {
    if TruncateLines(text, maxLines).1 {
      TruncatedIsFirstLines(text, maxLines);
    } else if text == [] {
      assert Split(text, '\n') == [[]];
    }
  }

  /** Truncating an already truncated text changes nothing and sets no flag. */
  lemma TruncateIdempotent(text: string, maxLines: int)
    requires maxLines >= 0
    ensures var once := TruncateLines(text, maxLines).0;
            TruncateLines(once, maxLines) == (once, false)
  {
    if maxLines >= 1 {
      TruncateBounded(text, maxLines);
    }
  }
}
