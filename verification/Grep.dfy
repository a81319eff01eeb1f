/** The line search of the `grep` program (syscalls/ece391grep.c): a sliding buffer of 1024
    bytes is proved to print exactly the matching lines of any file without NUL bytes. */
module Grep {
  import opened Base
  import opened Command

  const BUFSIZE: int := 1024
  const COLON: byte := 58

  // ---------------------------------------------------------------------------
  // What the search should print

  predicate OneLine(s: seq<byte>) {
    forall i :: 0 <= i < |s| ==> s[i] != NEWLINE
  }

  predicate NulFree(s: seq<byte>) {
    forall i :: 0 <= i < |s| ==> s[i] != 0
  }

  /** The number of bytes before the first newline. */
  function LineLength(s: seq<byte>): (n: nat)
    ensures n <= |s|
  {
    Span(s, {NEWLINE}, 0)
  }

  lemma FirstLine(s: seq<byte>)
    ensures var n := LineLength(s); OneLine(s[..n]) && (n < |s| ==> s[n] == NEWLINE)
  {
    SpanMeans(s, {NEWLINE}, 0);
  }

  /** The lines of a file; what follows its last newline counts as one. */
  function Lines(f: seq<byte>): seq<seq<byte>>
    decreases |f|
  {
    var n := LineLength(f);
    if n < |f| then [f[..n]] + Lines(f[n + 1..]) else [f]
  }

  /** The same with every line cut into pieces of 1024 bytes from its start. */
  function Pieces(f: seq<byte>): seq<seq<byte>>
    decreases |f|
  {
    var n := LineLength(f);
    if n >= BUFSIZE then [f[..BUFSIZE]] + Pieces(f[BUFSIZE..])
    else if n < |f| then [f[..n]] + Pieces(f[n + 1..])
    else [f]
  }

  predicate OccursAt(line: seq<byte>, s: seq<byte>, k: int) {
    0 <= k && k + |s| <= |line| && line[k..k + |s|] == s
  }

  /** The pattern occurs in the line. A pattern is compared as signed characters, so one
      that starts above 127 is never found, and neither is the empty one. */
  predicate Matches(line: seq<byte>, s: seq<byte>) {
    s != [] && s[0] < 128 && exists k :: 0 <= k < |line| && OccursAt(line, s, k)
  }

  function Report(name: seq<byte>, line: seq<byte>): seq<byte> {
    name + [COLON] + line + [NEWLINE]
  }

  function Shown(name: seq<byte>, s: seq<byte>, line: seq<byte>): seq<byte> {
    if Matches(line, s) then Report(name, line) else []
  }

  /** The matching lines, once each and in order. */
  function Matching(name: seq<byte>, s: seq<byte>, lines: seq<seq<byte>>): seq<byte> {
    if lines == [] then [] else Shown(name, s, lines[0]) + Matching(name, s, lines[1..])
  }

  lemma LineLengthIs(a: seq<byte>, rest: seq<byte>)
    requires OneLine(a)
    ensures LineLength(a + rest) == |a| + LineLength(rest)
  {
    var n := LineLength(rest);
    SpanMeans(rest, {NEWLINE}, 0);
    assert forall k :: |a| <= k < |a| + |rest| ==> (a + rest)[k] == rest[k - |a|];
    SpanUnique(a + rest, {NEWLINE}, 0, |a| + n);
  }

  lemma PiecesLine(a: seq<byte>, rest: seq<byte>)
    requires OneLine(a) && |a| < BUFSIZE
    ensures Pieces(a + [NEWLINE] + rest) == [a] + Pieces(rest)
  {
    var f := a + [NEWLINE] + rest;
    assert f == a + ([NEWLINE] + rest);
    LineLengthIs(a, [NEWLINE] + rest);
    assert f[..|a|] == a && f[|a| + 1..] == rest;
  }

  lemma PiecesFull(a: seq<byte>, rest: seq<byte>)
    requires OneLine(a) && |a| == BUFSIZE
    ensures Pieces(a + rest) == [a] + Pieces(rest)
  {
    LineLengthIs(a, rest);
    assert (a + rest)[..BUFSIZE] == a && (a + rest)[BUFSIZE..] == rest;
  }

  lemma PiecesLast(a: seq<byte>)
    requires OneLine(a) && |a| < BUFSIZE
    ensures Pieces(a) == [a]
  {
    LineLengthIs(a, []);
    assert a + [] == a;
  }

  lemma MatchingFirst(name: seq<byte>, s: seq<byte>, line: seq<byte>, lines: seq<seq<byte>>)
    ensures Matching(name, s, [line] + lines) == Shown(name, s, line) + Matching(name, s, lines)
  {
    assert ([line] + lines)[1..] == lines;
  }

  /** A line of at most 1024 bytes counts once, followed by what follows it. */
  lemma LineCounts(name: seq<byte>, s: seq<byte>, a: seq<byte>, rest: seq<byte>)
    requires OneLine(a) && |a| <= BUFSIZE
    ensures Matching(name, s, Pieces(a + [NEWLINE] + rest)) == Shown(name, s, a) + Matching(name, s, Pieces(rest))
  {
    if |a| < BUFSIZE {
      PiecesLine(a, rest);
      MatchingFirst(name, s, a, Pieces(rest));
    } else {
      FullLineCounts(name, s, a, rest);
    }
  }

  lemma FullLineCounts(name: seq<byte>, s: seq<byte>, a: seq<byte>, rest: seq<byte>)
    requires OneLine(a) && |a| == BUFSIZE
    ensures Matching(name, s, Pieces(a + [NEWLINE] + rest)) == Shown(name, s, a) + Matching(name, s, Pieces(rest))
  {
    var more := [NEWLINE] + rest;
    assert Pieces(more) == [[]] + Pieces(rest) by {
      assert [] + [NEWLINE] + rest == more;
      PiecesLine([], rest);
    }
    assert a + [NEWLINE] + rest == a + more;
    PiecesFull(a, more);
    MatchingFirst(name, s, a, Pieces(more));
    MatchingFirst(name, s, [], Pieces(rest));
  }

  lemma LastCounts(name: seq<byte>, s: seq<byte>, a: seq<byte>)
    requires OneLine(a) && |a| <= BUFSIZE
    ensures Matching(name, s, Pieces(a)) == Shown(name, s, a)
  {
    if |a| < BUFSIZE {
      PiecesLast(a);
    } else {
      assert a + [] == a;
      PiecesFull(a, []);
      PiecesLast([]);
      MatchingFirst(name, s, [], []);
    }
    MatchingFirst(name, s, a, Pieces(a)[1..]);
  }

  predicate LinesFit(f: seq<byte>) {
    forall i :: 0 <= i < |Lines(f)| ==> |Lines(f)[i]| <= BUFSIZE
  }

  // ---------------------------------------------------------------------------
  // Lines that do not fit

  /** The pieces of one line. */
  function Chunks(line: seq<byte>): seq<seq<byte>>
    decreases |line|
  {
    if |line| < BUFSIZE then [line] else [line[..BUFSIZE]] + Chunks(line[BUFSIZE..])
  }

  lemma CutFirst(line: seq<byte>, rest: seq<byte>)
    requires |line| >= BUFSIZE
    ensures line + [NEWLINE] + rest == line[..BUFSIZE] + (line[BUFSIZE..] + [NEWLINE] + rest)
  {
  }

  lemma {:induction false} PiecesChunks(line: seq<byte>, rest: seq<byte>)
    requires OneLine(line)
    ensures Pieces(line + [NEWLINE] + rest) == Chunks(line) + Pieces(rest)
    decreases |line|
  {
    if |line| < BUFSIZE {
      PiecesLine(line, rest);
    } else {
      var first, more := line[..BUFSIZE], line[BUFSIZE..];
      CutFirst(line, rest);
      PiecesFull(first, more + [NEWLINE] + rest);
      PiecesChunks(more, rest);
    }
  }

  lemma {:induction false} PiecesChunksLast(line: seq<byte>)
    requires OneLine(line)
    ensures Pieces(line) == Chunks(line)
    decreases |line|
  {
    if |line| < BUFSIZE {
      PiecesLast(line);
    } else {
      var first, more := line[..BUFSIZE], line[BUFSIZE..];
      assert line == first + more;
      PiecesFull(first, more);
      PiecesChunksLast(more);
    }
  }

  lemma {:induction false} MatchingConcat(name: seq<byte>, s: seq<byte>, x: seq<seq<byte>>, y: seq<seq<byte>>)
    ensures Matching(name, s, x + y) == Matching(name, s, x) + Matching(name, s, y)
  {
    if x == [] {
      assert x + y == y;
    } else {
      assert (x + y)[1..] == x[1..] + y;
      MatchingConcat(name, s, x[1..], y);
    }
  }

  /** A line without the pattern's first byte does not match, and neither do its pieces. */
  lemma NoFirstByte(line: seq<byte>, s: seq<byte>)
    requires s != [] ==> s[0] !in line
    ensures !Matches(line, s)
  {
    if s != [] {
      forall k | 0 <= k < |line|
        ensures !OccursAt(line, s, k)
      {
        assert line[k] in line;
        if k + |s| <= |line| {
          assert line[k..k + |s|][0] == line[k];
        }
      }
    }
  }

  lemma {:induction false} ChunksMiss(name: seq<byte>, s: seq<byte>, line: seq<byte>)
    requires s != [] ==> s[0] !in line
    ensures Matching(name, s, Chunks(line)) == []
    decreases |line|
  {
    if |line| < BUFSIZE {
      NoFirstByte(line, s);
      MatchingFirst(name, s, line, []);
    } else {
      NoFirstByte(line[..BUFSIZE], s);
      ChunksMiss(name, s, line[BUFSIZE..]);
      MatchingFirst(name, s, line[..BUFSIZE], Chunks(line[BUFSIZE..]));
    }
  }

  lemma HasByte(line: seq<byte>, c: byte)
    requires c in line && c < 128
    ensures Matches(line, [c])
  {
    var k :| 0 <= k < |line| && line[k] == c;
    assert line[k..k + 1] == [c];
    assert OccursAt(line, [c], k);
  }

  /** `text` begins with the report of a piece of at most 1024 bytes. */
  ghost predicate ReportsPiece(name: seq<byte>, text: seq<byte>) {
    exists piece, more :: |piece| <= BUFSIZE && text == Report(name, piece) + more
  }

  lemma {:induction false} ChunksHit(name: seq<byte>, c: byte, line: seq<byte>)
    requires c in line && c < 128
    ensures ReportsPiece(name, Matching(name, [c], Chunks(line)))
    decreases |line|
  {
    if |line| < BUFSIZE {
      HasByte(line, c);
      MatchingFirst(name, [c], line, []);
      assert Matching(name, [c], Chunks(line)) == Report(name, line) + [];
    } else {
      var first, more := line[..BUFSIZE], line[BUFSIZE..];
      MatchingFirst(name, [c], first, Chunks(more));
      if c in first {
        HasByte(first, c);
      } else {
        NoFirstByte(first, [c]);
        assert c in more by {
          assert line == first + more;
        }
        ChunksHit(name, c, more);
      }
    }
  }

  /** The report of a piece is not the report of a longer line: the newline comes too soon. */
  lemma ReportsDiffer(name: seq<byte>, text: seq<byte>, line: seq<byte>, x: seq<byte>, y: seq<byte>)
    requires ReportsPiece(name, text) && OneLine(line) && |line| > BUFSIZE
    ensures text + x != Report(name, line) + y
  {
    var piece, more :| |piece| <= BUFSIZE && text == Report(name, piece) + more;
    var k := |name| + 1 + |piece|;
    assert (text + x)[k] == NEWLINE;
    assert (Report(name, line) + y)[k] == line[|piece|];
  }

  /** What the program prints is what it should. */
  predicate Right(name: seq<byte>, s: seq<byte>, f: seq<byte>) {
    Matching(name, s, Pieces(f)) == Matching(name, s, Lines(f))
  }

  /** No line that is longer than the buffer holds byte `c`. */
  ghost predicate LongLinesLack(f: seq<byte>, c: byte) {
    forall line :: line in Lines(f) && |line| > BUFSIZE ==> c !in line
  }

  /** The first line and what follows it, as lines and as pieces. */
  lemma Peel(name: seq<byte>, s: seq<byte>, f: seq<byte>)
    ensures var n := LineLength(f);
            && OneLine(f[..n])
            && Lines(f) == [f[..n]] + (if n < |f| then Lines(f[n + 1..]) else [])
            && Matching(name, s, Lines(f)) ==
               Shown(name, s, f[..n]) + (if n < |f| then Matching(name, s, Lines(f[n + 1..])) else [])
            && Matching(name, s, Pieces(f)) ==
               Matching(name, s, Chunks(f[..n])) + (if n < |f| then Matching(name, s, Pieces(f[n + 1..])) else [])
  {
    var n := LineLength(f);
    FirstLine(f);
    if n < |f| {
      var rest := f[n + 1..];
      assert f == f[..n] + [NEWLINE] + rest;
      PiecesChunks(f[..n], rest);
      MatchingConcat(name, s, Chunks(f[..n]), Pieces(rest));
      MatchingFirst(name, s, f[..n], Lines(rest));
    } else {
      assert f[..n] == f;
      PiecesChunksLast(f);
      MatchingFirst(name, s, f, []);
    }
  }

  /** The first line is printed right: it fits, or it lacks the pattern's first byte. */
  lemma FirstRight(name: seq<byte>, s: seq<byte>, line: seq<byte>)
    requires OneLine(line) && (|line| <= BUFSIZE || s == [] || s[0] !in line)
    ensures Matching(name, s, Chunks(line)) == Shown(name, s, line)
  {
    if |line| <= BUFSIZE {
      PiecesChunksLast(line);
      LastCounts(name, s, line);
    } else {
      ChunksMiss(name, s, line);
      NoFirstByte(line, s);
    }
  }

  lemma Cancel(a: seq<byte>, x: seq<byte>, y: seq<byte>)
    ensures a + x == a + y <==> x == y
  {
    assert x == (a + x)[|a|..] && y == (a + y)[|a|..];
  }

  lemma RestDecidesMore(name: seq<byte>, s: seq<byte>, f: seq<byte>, first: seq<byte>, rest: seq<byte>)
    requires first == f[..LineLength(f)] && LineLength(f) < |f| && rest == f[LineLength(f) + 1..]
    requires Matching(name, s, Chunks(first)) == Shown(name, s, first)
    ensures Right(name, s, f) <==> Right(name, s, rest)
  {
    Peel(name, s, f);
    Cancel(Shown(name, s, first), Matching(name, s, Pieces(rest)), Matching(name, s, Lines(rest)));
  }

  /** With the first line printed right, the rest decides. */
  lemma RestDecides(name: seq<byte>, s: seq<byte>, f: seq<byte>)
    requires var n := LineLength(f); n <= BUFSIZE || s == [] || s[0] !in f[..n]
    ensures var n := LineLength(f); Right(name, s, f) <==> (n < |f| ==> Right(name, s, f[n + 1..]))
  {
    var n := LineLength(f);
    FirstLine(f);
    FirstRight(name, s, f[..n]);
    if n < |f| {
      RestDecidesMore(name, s, f, f[..n], f[n + 1..]);
    } else {
      Peel(name, s, f);
    }
  }

  lemma LinesPeel(f: seq<byte>, n: nat)
    requires n == LineLength(f)
    ensures n < |f| ==> Lines(f) == [f[..n]] + Lines(f[n + 1..])
    ensures n == |f| ==> Lines(f) == [f[..n]]
  {
    if n == |f| {
      assert f[..n] == f;
    }
  }

  lemma LinesSplit(f: seq<byte>, line: seq<byte>)
    ensures var n := LineLength(f);
            line in Lines(f) <==> line == f[..n] || (n < |f| && line in Lines(f[n + 1..]))
  {
    LinesPeel(f, LineLength(f));
  }

  /** The output is right if no line that is too long holds the pattern's first byte. */
  lemma {:induction false} RightIfLacking(name: seq<byte>, s: seq<byte>, f: seq<byte>)
    requires s != [] ==> LongLinesLack(f, s[0])
    ensures Right(name, s, f)
    decreases |f|
  {
    var n := LineLength(f);
    LinesSplit(f, f[..n]);
    RestDecides(name, s, f);
    if n < |f| {
      forall line | line in Lines(f[n + 1..])
        ensures line in Lines(f)
      {
        LinesSplit(f, line);
      }
      RightIfLacking(name, s, f[n + 1..]);
    }
  }

  /** When every line fits the buffer, the pieces print what the lines would. */
  lemma PiecesAreLines(name: seq<byte>, s: seq<byte>, f: seq<byte>)
    requires LinesFit(f)
    ensures Right(name, s, f)
  {
    RightIfLacking(name, s, f);
  }

  lemma FirstWrong(name: seq<byte>, c: byte, line: seq<byte>, x: seq<byte>, y: seq<byte>)
    requires c < 128 && OneLine(line) && |line| > BUFSIZE && c in line
    ensures Matching(name, [c], Chunks(line)) + x != Shown(name, [c], line) + y
  {
    HasByte(line, c);
    ChunksHit(name, c, line);
    ReportsDiffer(name, Matching(name, [c], Chunks(line)), line, x, y);
  }

  /** A one-byte pattern is printed wrong as soon as a line that is too long holds it. */
  lemma {:induction false} WrongIfHeld(name: seq<byte>, c: byte, f: seq<byte>, line: seq<byte>)
    requires c < 128 && line in Lines(f) && |line| > BUFSIZE && c in line
    ensures !Right(name, [c], f)
    decreases |f|
  {
    var n := LineLength(f);
    if n > BUFSIZE && c in f[..n] {
      Peel(name, [c], f);
      FirstWrong(name, c, f[..n],
                 if n < |f| then Matching(name, [c], Pieces(f[n + 1..])) else [],
                 if n < |f| then Matching(name, [c], Lines(f[n + 1..])) else []);
    } else {
      LinesSplit(f, line);
      RestDecides(name, [c], f);
      WrongIfHeld(name, c, f[n + 1..], line);
    }
  }

  /** Exactly when a one-byte pattern is printed right. */
  lemma OneByteExactly(name: seq<byte>, c: byte, f: seq<byte>)
    requires c < 128
    ensures Right(name, [c], f) <==> LongLinesLack(f, c)
  {
    if LongLinesLack(f, c) {
      RightIfLacking(name, [c], f);
    } else {
      var line :| line in Lines(f) && |line| > BUFSIZE && c in line;
      WrongIfHeld(name, c, f, line);
    }
  }

  predicate Ascii(f: seq<byte>) {
    forall k :: 0 <= k < |f| ==> 0 < f[k] < 128
  }

  lemma {:induction false} LinesAscii(f: seq<byte>, line: seq<byte>)
    requires Ascii(f) && line in Lines(f)
    ensures Ascii(line) && OneLine(line)
    decreases |f|
  {
    var n := LineLength(f);
    FirstLine(f);
    if line != f[..n] {
      LinesAscii(f[n + 1..], line);
    }
  }

  /** A pattern that the kernel can hand over: an argument tail that fits its buffer. */
  predicate Argument(s: seq<byte>) {
    1 <= |s| < 128 && IsTail(s)
  }

  /** Exactly when the program is right about an ASCII file for every pattern of at most 127
      bytes: when no line is longer than the buffer. */
  lemma RightExactlyWhenLinesFit(name: seq<byte>, f: seq<byte>)
    requires Ascii(f)
    ensures (forall s :: 1 <= |s| < 128 ==> Right(name, s, f)) <==> LinesFit(f)
  {
    if LinesFit(f) {
      forall s: seq<byte> | 1 <= |s| < 128
        ensures Right(name, s, f)
      {
        PiecesAreLines(name, s, f);
      }
    } else {
      var i :| 0 <= i < |Lines(f)| && |Lines(f)[i]| > BUFSIZE;
      var line := Lines(f)[i];
      LinesAscii(f, line);
      WrongIfHeld(name, line[0], f, line);
      assert !Right(name, [line[0]], f);
    }
  }

  /** Exactly when it is right for every pattern it can be given: an argument does not start
      with a space, so lines of nothing but spaces may be as long as they like. */
  lemma RightExactlyForArguments(name: seq<byte>, f: seq<byte>)
    requires Ascii(f)
    ensures (forall s :: Argument(s) ==> Right(name, s, f))
            <==> forall line :: line in Lines(f) && |line| > BUFSIZE ==> IsSpaces(line)
  {
    if forall line :: line in Lines(f) && |line| > BUFSIZE ==> IsSpaces(line) {
      forall s: seq<byte> | Argument(s)
        ensures Right(name, s, f)
      {
        RightIfLacking(name, s, f);
      }
    } else {
      var line :| line in Lines(f) && |line| > BUFSIZE && !IsSpaces(line);
      LinesAscii(f, line);
      var k :| 0 <= k < |line| && line[k] != SPACE;
      WrongIfHeld(name, line[k], f, line);
      assert Argument([line[k]]);
    }
  }

  // ---------------------------------------------------------------------------
  // The program

  /** `ece391_strncmp` of the buffer from `at` with the whole pattern
      (syscalls/ece391support.c:35-46): the buffer is NUL-terminated at `end`, so the
      comparison never passes it. */
  method SameText(data: array<byte>, at: nat, end: nat, s: seq<byte>) returns (same: bool)
    requires at < end < data.Length && data[end] == 0 && NulFree(data[at..end])
    requires NulFree(s) && s != []
    ensures same <==> OccursAt(data[at..end], s, 0)
  {
    ghost var text := data[at..end];
    var i := 0;
    while data[at + i] == s[i]
      invariant 0 <= i < |s| && at + i <= end
      invariant forall k :: 0 <= k < i ==> text[k] == s[k]
      decreases |s| - i
    {
      assert at + i < end;
      assert text[i] == data[at + i];
      if i + 1 == |s| {
        assert text[0..0 + |s|] == s;
        return true;
      }
      i := i + 1;
    }
    if |s| <= |text| {
      assert text[0..0 + |s|][i] == text[i] == data[at + i];
    }
    return false;
  }

  /** The search of one line, already ended by a NUL (syscalls/ece391grep.c:42-51). */
  method Search(data: array<byte>, start: nat, end: nat, s: seq<byte>) returns (found: bool)
    requires start <= end < data.Length && data[end] == 0 && NulFree(data[start..end]) && NulFree(s)
    ensures found <==> Matches(data[start..end], s)
  {
    var check := start;
    ghost var line := data[start..end];
    while check < end
      invariant start <= check <= end
      invariant s != [] && s[0] < 128 ==> forall k :: 0 <= k < check - start ==> !OccursAt(line, s, k)
    {
      ghost var k := check - start;
      if s != [] && s[0] < 128 && s[0] == data[check] {
        assert data[check..end] == line[k..];
        var same := SameText(data, check, end, s);
        assert same <==> OccursAt(line, s, k) by {
          if k + |s| <= |line| {
            assert line[k..][0..0 + |s|] == line[k..k + |s|];
          }
        }
        if same { return true; }
      } else if s != [] && s[0] < 128 {
        assert !OccursAt(line, s, k) by {
          assert line[k] == data[check];
        }
      }
      check := check + 1;
    }
    return false;
  }

  /** The buffer holds `rest` from index `at` on. */
  ghost predicate HoldsAt(data: array<byte>, at: nat, rest: seq<byte>)
    reads data
  {
    at + |rest| <= data.Length && forall i :: at <= i < at + |rest| ==> data[i] == rest[i - at]
  }

  /** `ece391_strcpy` down to the front (syscalls/ece391support.c:14-17). */
  method MoveDown(data: array<byte>, from: nat, ghost rest: seq<byte>)
    requires from > 0 && HoldsAt(data, from, rest) && NulFree(rest)
    requires from + |rest| < data.Length && data[from + |rest|] == 0
    modifies data
    ensures HoldsAt(data, 0, rest)
    ensures forall i :: |rest| < i < data.Length ==> data[i] == old(data[i])
  {
    var i := 0;
    while data[from + i] != 0
      invariant 0 <= i <= |rest|
      invariant forall k :: 0 <= k < i ==> data[k] == rest[k]
      invariant forall k :: from + i <= k < from + |rest| ==> data[k] == rest[k - from] && data[k] != 0
      invariant forall k :: i <= k < data.Length ==> data[k] == old(data[k])
      decreases |rest| - i
    {
      assert i < |rest|;
      data[i] := data[from + i];
      i := i + 1;
    }
    data[i] := 0;
    assert forall k :: 0 <= k < |rest| ==> data[k] == rest[k];
  }

  /** The end of the line that starts at `start` (syscalls/ece391grep.c:30-32). */
  method FindEnd(data: array<byte>, start: nat, last: nat, ghost rest: seq<byte>) returns (end: nat)
    requires start + |rest| == last < data.Length && HoldsAt(data, start, rest)
    ensures end == start + LineLength(rest) && (end < last ==> data[end] == NEWLINE)
  {
    end := start;
    while end < last && data[end] != NEWLINE
      invariant start <= end <= last && OneLine(rest[..end - start])
    {
      assert rest[..end + 1 - start] == rest[..end - start] + [rest[end - start]];
      end := end + 1;
    }
    LineLengthIs(rest[..end - start], rest[end - start..]);
    assert rest == rest[..end - start] + rest[end - start..];
  }

  /** A line is ended by a NUL, searched and printed if it matches
      (syscalls/ece391grep.c:41-51). */
  method SearchLine(data: array<byte>, start: nat, end: nat, s: seq<byte>, name: seq<byte>, ghost line: seq<byte>)
    returns (text: seq<byte>)
    requires start + |line| == end < data.Length && HoldsAt(data, start, line) && NulFree(line) && NulFree(s)
    modifies data
    ensures text == Shown(name, s, line)
    ensures data[end] == 0 && forall i :: 0 <= i < data.Length && i != end ==> data[i] == old(data[i])
  {
    data[end] := 0;
    assert data[start..end] == line;
    var found := Search(data, start, end, s);
    text := [];
    if found {
      CLenUnique(data[start..], end - start);
      assert CStr(data[start..]) == line;
      text := Report(name, CStr(data[start..]));
    }
  }

  /** What is still to be printed of a file of which `rest` is left. */
  function Due(name: seq<byte>, s: seq<byte>, rest: seq<byte>): seq<byte> {
    Matching(name, s, Pieces(rest))
  }

  /** What follows the first line. */
  function After(rest: seq<byte>): seq<byte> {
    if LineLength(rest) < |rest| then rest[LineLength(rest) + 1..] else []
  }

  /** The first line of the buffer may be searched: it is complete, it fills the buffer, or
      the file holds nothing more. */
  predicate Searchable(rest: seq<byte>, tail: seq<byte>) {
    |rest| <= BUFSIZE && (LineLength(rest) == |rest| && tail != [] ==> |rest| == BUFSIZE)
  }

  /** `due` tells what is still to be printed: searching the first line settles its part. */
  ghost predicate Accounts(due: seq<byte> -> seq<byte>, name: seq<byte>, s: seq<byte>) {
    forall rest, tail {:trigger Searchable(rest, tail)} :: Searchable(rest, tail) ==>
      due(rest + tail) == Shown(name, s, rest[..LineLength(rest)]) + due(After(rest) + tail)
  }

  /** The same for the first of the lines left in the buffer; `after` is what follows it. */
  method SearchFirst(
      data: array<byte>, start: nat, end: nat, s: seq<byte>, name: seq<byte>,
      ghost rest: seq<byte>, ghost tail: seq<byte>, ghost due: seq<byte> -> seq<byte>)
    returns (text: seq<byte>, ghost after: seq<byte>)
    requires start + |rest| < data.Length == BUFSIZE + 1 && HoldsAt(data, start, rest) && NulFree(rest) && NulFree(s)
    requires end == start + LineLength(rest) && data[BUFSIZE] != NEWLINE
    requires Accounts(due, name, s) && (end == start + |rest| && tail != [] ==> |rest| == BUFSIZE)
    modifies data
    ensures data[BUFSIZE] != NEWLINE
    ensures |after| == (if end < start + |rest| then start + |rest| - end - 1 else 0) && NulFree(after)
    ensures after != [] ==> HoldsAt(data, end + 1, after)
    ensures due(rest + tail) == text + due(after + tail)
  {
    after := After(rest);
    AfterMeans(rest);
    FirstHolds(data, start, rest, end - start);
    text := SearchLine(data, start, end, s, name, rest[..end - start]);
    AfterHolds(data, start, end, rest);
    Settles(due, name, s, rest, tail);
  }

  lemma AfterHolds(data: array<byte>, start: nat, end: nat, rest: seq<byte>)
    requires start + |rest| < data.Length && end == start + LineLength(rest) && NulFree(rest)
    requires forall i :: end < i < start + |rest| ==> data[i] == rest[i - start]
    ensures After(rest) != [] ==> HoldsAt(data, end + 1, After(rest))
  {
    AfterMeans(rest);
  }

  lemma Settles(due: seq<byte> -> seq<byte>, name: seq<byte>, s: seq<byte>, rest: seq<byte>, tail: seq<byte>)
    requires Accounts(due, name, s) && Searchable(rest, tail)
    ensures due(rest + tail) == Shown(name, s, rest[..LineLength(rest)]) + due(After(rest) + tail)
  {
  }

  lemma AfterMeans(rest: seq<byte>)
    requires NulFree(rest)
    ensures NulFree(After(rest)) && NulFree(rest[..LineLength(rest)])
    ensures |After(rest)| == if LineLength(rest) < |rest| then |rest| - LineLength(rest) - 1 else 0
    ensures forall i :: 0 <= i < |After(rest)| ==> After(rest)[i] == rest[LineLength(rest) + 1 + i]
  {
  }

  lemma FirstHolds(data: array<byte>, at: nat, rest: seq<byte>, n: nat)
    requires HoldsAt(data, at, rest) && n <= |rest|
    ensures HoldsAt(data, at, rest[..n])
  {
  }

  /** One pass over the buffer: every complete line is searched, an incomplete one is moved
      to the front (syscalls/ece391grep.c:28-57). `tail` is what the file still holds, and
      `more` tells whether the last read brought anything. */
  method ScanBuffer(
      data: array<byte>, filled: nat, more: bool, s: seq<byte>, name: seq<byte>,
      ghost all: seq<byte>, ghost tail: seq<byte>, ghost due: seq<byte> -> seq<byte>)
    returns (last: nat, printed: seq<byte>, ghost kept: seq<byte>)
    requires data.Length == BUFSIZE + 1 && filled <= BUFSIZE && data[BUFSIZE] != NEWLINE
    requires |all| == filled && HoldsAt(data, 0, all) && NulFree(all) && NulFree(s)
    requires Accounts(due, name, s) && (tail == [] || (filled == BUFSIZE && more))
    modifies data
    ensures last < BUFSIZE && data[BUFSIZE] != NEWLINE && (!more ==> last == 0)
    ensures |kept| == last && HoldsAt(data, 0, kept) && NulFree(kept)
    ensures due(all + tail) == printed + due(kept + tail)
  {
    last, printed, kept := filled, [], all;
    var start := 0;
    while true
      invariant start <= last == filled && (start == last ==> start == 0) && data[BUFSIZE] != NEWLINE
      invariant |kept| == last - start && HoldsAt(data, start, kept) && NulFree(kept)
      invariant due(all + tail) == printed + due(kept + tail)
      decreases last - start
    {
      var end := FindEnd(data, start, last, kept);
      if data[end] != NEWLINE && more && start != 0 {
        data[end] := 0;
        MoveDown(data, start, kept);
        last := last - start;
        return;
      }
      var text, after := SearchFirst(data, start, end, s, name, kept, tail, due);
      printed, kept := printed + text, after;
      start := end + 1;
      if start >= last {
        last := 0;
        return;
      }
    }
  }

  /** What a searched line leaves to be printed. */
  lemma LineDone(name: seq<byte>, s: seq<byte>, rest: seq<byte>, tail: seq<byte>)
    requires Searchable(rest, tail)
    ensures Due(name, s, rest + tail) == Shown(name, s, rest[..LineLength(rest)]) + Due(name, s, After(rest) + tail)
  {
    var line := rest[..LineLength(rest)];
    LineParts(rest);
    if LineLength(rest) < |rest| {
      MiddleDone(name, s, line, After(rest), tail);
    } else {
      assert After(rest) + tail == tail;
      EndDone(name, s, rest, tail);
    }
  }

  lemma DueAccounts(name: seq<byte>, s: seq<byte>, due: seq<byte> -> seq<byte>)
    requires forall r :: due(r) == Due(name, s, r)
    ensures Accounts(due, name, s)
  {
    forall rest, tail | Searchable(rest, tail)
      ensures due(rest + tail) == Shown(name, s, rest[..LineLength(rest)]) + due(After(rest) + tail)
    {
      LineDone(name, s, rest, tail);
    }
  }

  lemma SplitAt(s: seq<byte>, n: nat)
    requires n < |s|
    ensures s == s[..n] + ([s[n]] + s[n + 1..])
  {
  }

  lemma LineParts(rest: seq<byte>)
    ensures OneLine(rest[..LineLength(rest)])
    ensures if LineLength(rest) < |rest| then rest == rest[..LineLength(rest)] + ([NEWLINE] + After(rest))
            else rest[..LineLength(rest)] == rest
  {
    FirstLine(rest);
    if LineLength(rest) < |rest| {
      SplitAt(rest, LineLength(rest));
    }
  }

  lemma Reassociate(line: seq<byte>, after: seq<byte>, tail: seq<byte>)
    ensures line + ([NEWLINE] + after) + tail == line + [NEWLINE] + (after + tail)
  {
  }

  lemma MiddleDone(name: seq<byte>, s: seq<byte>, line: seq<byte>, after: seq<byte>, tail: seq<byte>)
    requires OneLine(line) && |line| <= BUFSIZE
    ensures Due(name, s, line + ([NEWLINE] + after) + tail) == Shown(name, s, line) + Due(name, s, after + tail)
  {
    Reassociate(line, after, tail);
    LineCounts(name, s, line, after + tail);
  }

  lemma EndDone(name: seq<byte>, s: seq<byte>, rest: seq<byte>, tail: seq<byte>)
    requires OneLine(rest) && |rest| <= BUFSIZE && (tail != [] ==> |rest| == BUFSIZE)
    ensures Due(name, s, rest + tail) == Shown(name, s, rest) + Due(name, s, tail)
  {
    if |rest| == BUFSIZE {
      PiecesFull(rest, tail);
      MatchingFirst(name, s, rest, Pieces(tail));
    } else {
      assert rest + tail == rest;
      LastCounts(name, s, rest);
      LastCounts(name, s, []);
    }
  }

  /** `do_one_file` (syscalls/ece391grep.c:10-66) on a file that opens, reads and closes. A
      read fills the space it is given unless the file ends; one that meets the end may
      leave a byte `junk` behind the data. `stack` is what the buffer holds at first. */
  method DoOneFile(s: seq<byte>, name: seq<byte>, file: seq<byte>, stack: seq<byte>, junk: byte)
    returns (printed: seq<byte>)
    requires NulFree(file) && NulFree(s)
    requires |stack| == BUFSIZE + 1 && stack[BUFSIZE] != NEWLINE
    ensures printed == Matching(name, s, Pieces(file))
  {
    var data := new byte[BUFSIZE + 1](i requires 0 <= i < BUFSIZE + 1 => stack[i]);
    ghost var due := r => Due(name, s, r);
    DueAccounts(name, s, due);
    LastCounts(name, s, []);
    printed := ReadAndScan(data, s, name, file, junk, due);
  }

  /** The read loop (syscalls/ece391grep.c:20-60). */
  method ReadAndScan(
      data: array<byte>, s: seq<byte>, name: seq<byte>, file: seq<byte>, junk: byte, ghost due: seq<byte> -> seq<byte>)
    returns (printed: seq<byte>)
    requires NulFree(file) && NulFree(s) && data.Length == BUFSIZE + 1 && data[BUFSIZE] != NEWLINE
    requires Accounts(due, name, s) && due([]) == []
    modifies data
    ensures printed == due(file)
  {
    var last: nat, pos: nat := 0, 0;
    printed := [];
    var more := true;
    ghost var kept := [];
    assert kept + file[pos..] == file;
    while more
      invariant pos <= |file| && last < BUFSIZE && data[BUFSIZE] != NEWLINE
      invariant |kept| == last && HoldsAt(data, 0, kept) && NulFree(kept)
      invariant due(file) == printed + due(kept + file[pos..])
      invariant !more ==> last == 0 && pos == |file|
      decreases |file| - pos, more
    {
      var count := Read(data, last, file, pos, junk, kept);
      ghost var all := kept + file[pos..pos + count];
      assert all + file[pos + count..] == kept + file[pos..];
      last, pos := last + count, pos + count;
      more := count != 0;
      var lines;
      last, lines, kept := ScanBuffer(data, last, more, s, name, all, file[pos..], due);
      printed := printed + lines;
    }
    assert kept + file[pos..] == [];
  }

  /** The read of as much as fits, from position `pos`. */
  method Read(data: array<byte>, last: nat, file: seq<byte>, pos: nat, junk: byte, ghost kept: seq<byte>)
    returns (count: nat)
    requires data.Length == BUFSIZE + 1 && last < BUFSIZE && pos <= |file|
    requires |kept| == last && HoldsAt(data, 0, kept)
    modifies data
    ensures count == Min(BUFSIZE - last, |file| - pos)
    ensures HoldsAt(data, 0, kept + file[pos..pos + count])
    ensures data[BUFSIZE] == old(data[BUFSIZE])
  {
    count := 0;
    while last + count < BUFSIZE && pos + count < |file|
      invariant last + count <= BUFSIZE && pos + count <= |file|
      invariant HoldsAt(data, 0, kept + file[pos..pos + count])
      invariant data[BUFSIZE] == old(data[BUFSIZE])
    {
      data[last + count] := file[pos + count];
      assert kept + file[pos..pos + count + 1] == kept + file[pos..pos + count] + [file[pos + count]];
      count := count + 1;
    }
    if last + count < BUFSIZE {
      data[last + count] := junk;
    }
  }

  /** The program's purpose: in a file whose lines all fit the buffer, it prints exactly
      the lines that contain the pattern, once each and in order. */
  method GrepLines(s: seq<byte>, name: seq<byte>, file: seq<byte>, stack: seq<byte>, junk: byte)
    returns (printed: seq<byte>)
    requires NulFree(file) && NulFree(s)
    requires |stack| == BUFSIZE + 1 && stack[BUFSIZE] != NEWLINE
    requires LinesFit(file)
    ensures printed == Matching(name, s, Lines(file))
  {
    printed := DoOneFile(s, name, file, stack, junk);
    PiecesAreLines(name, s, file);
  }
}
