/**
 * Python's `str.split(sep)` and `sep.join(parts)` for a one-character
 * separator, and the facts about them that path normalisation and line
 * truncation rely on.
 */
module PyText {

  /** `s.split(sep)`: the pieces between separators, empty pieces included. */
  function Split(s: string, sep: char): (parts: seq<string>)
    ensures |parts| >= 1
    ensures forall i :: 0 <= i < |parts| ==> sep !in parts[i]
  {
    if s == [] then [[]]
    else
      var rest := Split(s[1..], sep);
      if s[0] == sep then [[]] + rest
      else [[s[0]] + rest[0]] + rest[1..]
  }

  /** There is one more piece than there are separators. */
  lemma {:induction false} SplitCount(s: string, sep: char)
    ensures |Split(s, sep)| == multiset(s)[sep] + 1
  {
    if s != [] {
      SplitCount(s[1..], sep);
      assert s == [s[0]] + s[1..];
    }
  }

  /** `sep.join(parts)`. */
  function Join(parts: seq<string>, sep: char): string
  {
    if |parts| == 0 then []
    else if |parts| == 1 then parts[0]
    else parts[0] + [sep] + Join(parts[1..], sep)
  }

  /** Joining the pieces of a split gives the original text back. */
  lemma {:induction false} JoinSplit(s: string, sep: char)
    ensures Join(Split(s, sep), sep) == s
  {
    if s != [] {
      var rest := Split(s[1..], sep);
      JoinSplit(s[1..], sep);
      if s[0] != sep && |rest| > 1 {
        assert Join(rest, sep) == rest[0] + [sep] + Join(rest[1..], sep);
        assert rest[1..][1..] == rest[2..];
      }
    }
  }

  /** A piece free of the separator, then the separator, splits off as one piece. */
  lemma {:induction false} SplitAfterPiece(a: string, b: string, sep: char)
    requires sep !in a
    ensures Split(a + [sep] + b, sep) == [a] + Split(b, sep)
  {
    if a == [] {
      assert ([sep] + b)[1..] == b;
    } else {
      assert (a + [sep] + b)[1..] == a[1..] + [sep] + b;
      SplitAfterPiece(a[1..], b, sep);
      assert [a[0]] + a[1..] == a;
    }
  }

  /** Text without the separator splits into itself alone. */
  lemma {:induction false} SplitNoSeparator(a: string, sep: char)
    requires sep !in a
    ensures Split(a, sep) == [a]
  {
    if a != [] {
      SplitNoSeparator(a[1..], sep);
      assert [a[0]] + a[1..] == a;
    }
  }

  /** Splitting a join of separator-free pieces gives the pieces back. */
  lemma {:induction false} SplitJoin(parts: seq<string>, sep: char)
    requires |parts| >= 1
    requires forall i :: 0 <= i < |parts| ==> sep !in parts[i]
    ensures Split(Join(parts, sep), sep) == parts
  {
    if |parts| == 1 {
      SplitNoSeparator(parts[0], sep);
    } else {
      SplitJoin(parts[1..], sep);
      SplitAfterPiece(parts[0], Join(parts[1..], sep), sep);
    }
  }

  /** The join of the first `k` pieces is a prefix of the join of all of them. */
  lemma {:induction false} JoinTakePrefix(parts: seq<string>, k: nat, sep: char)
    requires k <= |parts|
    ensures Join(parts[..k], sep) <= Join(parts, sep)
  {
    if k == |parts| {
      assert parts[..k] == parts;
    } else if k >= 1 {
      if k >= 2 {
        JoinTakePrefix(parts[1..], k - 1, sep);
        assert parts[..k][1..] == parts[1..][..k - 1];
      }
    }
  }

  /** A join of two or more pieces starts with the first piece and a separator. */
  lemma JoinHead(parts: seq<string>, sep: char)
    requires |parts| >= 1
    ensures parts[0] <= Join(parts, sep)
    ensures |parts| >= 2 ==> parts[0] + [sep] <= Join(parts, sep)
  {
  }
}
