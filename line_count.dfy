/**
  The physical line count of a source file, as the Xdebug driver computes it
  from the file's contents: the number of newline characters, plus one when
  the buffer does not end in a newline (so an empty file has one line).

  `Split` and `Join` give an independent account of what a "line" is: the
  pieces between newlines. `LineCountBySplit` ties the count to them.
*/
module LineCounting {

  const Newline: char := '\n'

  /** The number of newline characters in `s` (what `substr_count($s, "\n")` returns). */
  function NewlineCount(s: string): (n: nat)
    ensures n == multiset(s)[Newline]
    ensures n <= |s|
  {
    if s == [] then 0
    else
      assert s == [s[0]] + s[1..];
      (if s[0] == Newline then 1 else 0) + NewlineCount(s[1..])
  }

  /** True when the last character of `s` is a newline. */
  predicate EndsWithNewline(s: string) {
    |s| > 0 && s[|s| - 1] == Newline
  }

  /** The number of physical lines in a file whose contents are `buffer`. */
  function LineCount(buffer: string): (n: nat)
    ensures 1 <= n <= |buffer| + 1
  {
    var newlines := NewlineCount(buffer);
    assert EndsWithNewline(buffer) ==> Newline in multiset(buffer);
    if EndsWithNewline(buffer) then newlines else newlines + 1
  }

  /** The pieces of `s` between newline characters; `s` with k newlines has k + 1 pieces. */
  function Split(s: string): (pieces: seq<string>)
    ensures |pieces| >= 1
    ensures forall i :: 0 <= i < |pieces| ==> Newline !in pieces[i]
  {
    if s == [] then [[]]
    else
      var rest := Split(s[1..]);
      if s[0] == Newline then [[]] + rest
      else [[s[0]] + rest[0]] + rest[1..]
  }

  /** The pieces glued back together with a newline between each two. */
  function Join(pieces: seq<string>): string {
    if pieces == [] then []
    else if |pieces| == 1 then pieces[0]
    else pieces[0] + [Newline] + Join(pieces[1..])
  }

  /** Splitting loses nothing: joining the pieces gives back the buffer. */
  lemma {:induction false} JoinSplit(s: string)
    ensures Join(Split(s)) == s
  {
    if s != [] {
      var rest := Split(s[1..]);
      JoinSplit(s[1..]);
      if s[0] == Newline {
        assert Split(s) == [[]] + rest;
        assert ([[]] + rest)[1..] == rest;
        assert s == [] + [Newline] + s[1..];
      } else {
        var pieces := [[s[0]] + rest[0]] + rest[1..];
        assert Split(s) == pieces;
        if |rest| == 1 {
          assert Join(pieces) == [s[0]] + rest[0];
        } else {
          assert pieces[1..] == rest[1..];
          assert Join(rest) == rest[0] + [Newline] + Join(rest[1..]);
          assert Join(pieces) == [s[0]] + rest[0] + [Newline] + Join(rest[1..]);
        }
        assert s == [s[0]] + s[1..];
      }
    }
  }

  /** There is one more piece than there are newlines. */
  lemma {:induction false} SplitLength(s: string)
    ensures |Split(s)| == NewlineCount(s) + 1
  {
    if s != [] {
      SplitLength(s[1..]);
    }
  }

  /** The last piece is empty exactly when the buffer is empty or ends in a newline. */
  lemma {:induction false} SplitLastPiece(s: string)
    ensures (Split(s)[|Split(s)| - 1] == []) <==> (s == [] || EndsWithNewline(s))
  {
    if s != [] {
      SplitLastPiece(s[1..]);
      var rest := Split(s[1..]);
      if s[0] != Newline && |rest| == 1 {
        assert s[1..] != [] ==> s[|s| - 1] == s[1..][|s[1..]| - 1];
      } else if s[1..] != [] {
        assert s[|s| - 1] == s[1..][|s[1..]| - 1];
      }
    }
  }

  /**
    The line count is the number of pieces, not counting the empty piece that
    follows a final newline; an empty buffer still counts as one (empty) line.
  */
  lemma {:induction false} LineCountBySplit(s: string)
    ensures LineCount(s) == |Split(s)| - (if EndsWithNewline(s) then 1 else 0)
    ensures EndsWithNewline(s) ==> Split(s)[|Split(s)| - 1] == []
    ensures s != [] && !EndsWithNewline(s) ==> Split(s)[|Split(s)| - 1] != []
  {
    SplitLength(s);
    SplitLastPiece(s);
  }

  /** The three buffers the driver's behaviour is usually illustrated with. */
  lemma LineCountExamples()
    ensures LineCount("a\nb\nc") == 3
    ensures LineCount("a\nb\nc\n") == 3
    ensures LineCount("") == 1
  {
  }
}
