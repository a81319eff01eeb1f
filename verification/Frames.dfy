/** The `fish` program's frame merger (fish/fish.c): two text files become one blinker per
    position where their lines, padded with spaces, are not both blank. */
module Frames {
  import opened Base

  const START: byte := 48
  const OFFSET: int := 40
  const NUM_COLS: int := 80

  // ---------------------------------------------------------------------------
  // What should be added

  /** The lines of a file; what follows its last newline counts as one. */
  function Split(f: seq<byte>): (rows: seq<seq<byte>>)
    ensures |rows| >= 1
  {
    if f == [] then [[]]
    else
      var rest := Split(f[1..]);
      if f[0] == NEWLINE then [[]] + rest else [[f[0]] + rest[0]] + rest[1..]
  }

  /** Lines put together again, with a newline between any two. */
  function Join(rows: seq<seq<byte>>): seq<byte>
    requires |rows| >= 1
  {
    if |rows| == 1 then rows[0] else rows[0] + [NEWLINE] + Join(rows[1..])
  }

  /** The rows are the file's lines: joined they are the file, and none holds a newline. */
  lemma {:induction false} SplitJoins(f: seq<byte>)
    ensures Join(Split(f)) == f
    ensures forall r, c :: 0 <= r < |Split(f)| && 0 <= c < |Split(f)[r]| ==> Split(f)[r][c] != NEWLINE
  {
    if f != [] {
      SplitJoins(f[1..]);
      var rest := Split(f[1..]);
      if f[0] == NEWLINE {
        assert ([[]] + rest)[1..] == rest;
        assert Join(Split(f)) == [] + [NEWLINE] + Join(rest);
      } else {
        assert ([[f[0]] + rest[0]] + rest[1..])[1..] == rest[1..];
      }
    }
  }

  /** The line of a row, empty below the last one. */
  function RowOf(rows: seq<seq<byte>>, r: nat): seq<byte> {
    if r < |rows| then rows[r] else []
  }

  /** The character at a position, padded with spaces on all sides. */
  function Padded(rows: seq<seq<byte>>, r: nat, c: nat): byte {
    var row := RowOf(rows, r);
    if c < |row| then row[c] else SPACE
  }

  datatype Spot = Spot(row: nat, col: nat, on: byte, off: byte)

  function SpotAt(a: seq<seq<byte>>, b: seq<seq<byte>>, r: nat, c: nat): seq<Spot> {
    var on, off := Padded(a, r, c), Padded(b, r, c);
    if on != SPACE || off != SPACE then [Spot(r, c, on, off)] else []
  }

  /** The spots in the first `n` columns of a row. */
  function RowSpots(a: seq<seq<byte>>, b: seq<seq<byte>>, r: nat, n: nat): seq<Spot> {
    if n == 0 then [] else RowSpots(a, b, r, n - 1) + SpotAt(a, b, r, n - 1)
  }

  function Max(a: int, b: int): int {
    if a < b then b else a
  }

  function Width(a: seq<seq<byte>>, b: seq<seq<byte>>, r: nat): nat {
    Max(|RowOf(a, r)|, |RowOf(b, r)|)
  }

  /** The spots in the first `n` rows. */
  function Spots(a: seq<seq<byte>>, b: seq<seq<byte>>, n: nat): seq<Spot> {
    if n == 0 then [] else Spots(a, b, n - 1) + RowSpots(a, b, n - 1, Width(a, b, n - 1))
  }

  function AllSpots(f0: seq<byte>, f1: seq<byte>): seq<Spot> {
    var a, b := Split(f0), Split(f1);
    Spots(a, b, Max(|a|, |b|))
  }

  predicate Before(s: Spot, t: Spot) {
    s.row < t.row || (s.row == t.row && s.col < t.col)
  }

  predicate Genuine(a: seq<seq<byte>>, b: seq<seq<byte>>, s: Spot) {
    && s.on == Padded(a, s.row, s.col) && s.off == Padded(b, s.row, s.col)
    && (s.on != SPACE || s.off != SPACE)
  }

  predicate Ordered(all: seq<Spot>) {
    forall i, j :: 0 <= i < j < |all| ==> Before(all[i], all[j])
  }

  lemma OrderedConcat(x: seq<Spot>, y: seq<Spot>)
    requires Ordered(x) && Ordered(y) && forall s, t :: s in x && t in y ==> Before(s, t)
    ensures Ordered(x + y)
  {
    var all := x + y;
    forall i, j | 0 <= i < j < |all|
      ensures Before(all[i], all[j])
    {
      if i < |x| <= j {
        assert x[i] in x && y[j - |x|] in y;
      }
    }
  }

  lemma {:induction false} RowSpotsExact(a: seq<seq<byte>>, b: seq<seq<byte>>, r: nat, n: nat)
    ensures forall s :: s in RowSpots(a, b, r, n) <==> s.row == r && s.col < n && Genuine(a, b, s)
    ensures Ordered(RowSpots(a, b, r, n))
  {
    if n > 0 {
      RowSpotsExact(a, b, r, n - 1);
      OrderedConcat(RowSpots(a, b, r, n - 1), SpotAt(a, b, r, n - 1));
    }
  }

  lemma {:induction false} SpotsMembers(a: seq<seq<byte>>, b: seq<seq<byte>>, n: nat, s: Spot)
    ensures s in Spots(a, b, n) <==> s.row < n && Genuine(a, b, s)
  {
    if n > 0 {
      SpotsMembers(a, b, n - 1, s);
      RowSpotsExact(a, b, n - 1, Width(a, b, n - 1));
    }
  }

  lemma {:induction false} SpotsOrdered(a: seq<seq<byte>>, b: seq<seq<byte>>, n: nat)
    ensures Ordered(Spots(a, b, n))
  {
    if n > 0 {
      SpotsOrdered(a, b, n - 1);
      var above, below := Spots(a, b, n - 1), RowSpots(a, b, n - 1, Width(a, b, n - 1));
      RowSpotsExact(a, b, n - 1, Width(a, b, n - 1));
      forall s, t | s in above && t in below
        ensures Before(s, t)
      {
        SpotsMembers(a, b, n - 1, s);
      }
      OrderedConcat(above, below);
    }
  }

  /** The spots are exactly the positions of the whole plane where the padded lines are not
      both blank, each once, in reading order. */
  lemma AllSpotsExact(f0: seq<byte>, f1: seq<byte>)
    ensures forall s :: s in AllSpots(f0, f1) <==> Genuine(Split(f0), Split(f1), s)
    ensures Ordered(AllSpots(f0, f1))
  {
    var a, b := Split(f0), Split(f1);
    var n := Max(|a|, |b|);
    SpotsOrdered(a, b, n);
    forall s
      ensures s in Spots(a, b, n) <==> Genuine(a, b, s)
    {
      SpotsMembers(a, b, n, s);
    }
  }

  // ---------------------------------------------------------------------------
  // The program

  /** What is handed to the blink list: the location is a 16-bit field. */
  datatype Blinker = Blinker(location: int, on: byte, off: byte)

  function Placed(s: Spot): Blinker {
    Blinker((s.row * NUM_COLS + s.col + OFFSET) % TWO_16, s.on, s.off)
  }

  function Place(spots: seq<Spot>): seq<Blinker> {
    seq(|spots|, i requires 0 <= i < |spots| => Placed(spots[i]))
  }

  /** How far one file has been read when `col` columns of row `row` are done: `c` is the
      last character, a newline once the row is over. */
  ghost predicate Reading(rows: seq<seq<byte>>, file: seq<byte>, row: nat, col: nat, c: byte, pos: nat, eof: bool) {
    && pos <= |file|
    && if c == NEWLINE then
         && col >= |RowOf(rows, row)|
         && (if eof then row + 1 >= |rows| else row + 1 < |rows| && Split(file[pos..]) == rows[row + 1..])
       else
         && !eof && row < |rows| && col <= |rows[row]|
         && Split(file[pos..]) == [rows[row][col..]] + rows[row + 1..]
  }

  lemma SplitAhead(f: seq<byte>, row: seq<byte>, rest: seq<seq<byte>>)
    requires Split(f) == [row] + rest
    ensures f == [] ==> row == [] && rest == []
    ensures f != [] && f[0] == NEWLINE ==> row == [] && Split(f[1..]) == rest
    ensures f != [] && f[0] != NEWLINE ==> row != [] && row[0] == f[0] && Split(f[1..]) == [row[1..]] + rest
  {
    assert Split(f)[0] == row && Split(f)[1..] == rest;
    if f != [] && f[0] != NEWLINE {
      var more := Split(f[1..]);
      assert row == [f[0]] + more[0] && row[1..] == more[0];
      assert rest == more[1..];
    }
  }

  /** One character more of a row, unless it is over (fish/fish.c:102-116). */
  method Next(file: seq<byte>, c: byte, pos: nat, eof: bool, ghost rows: seq<seq<byte>>, ghost row: nat, ghost col: nat)
    returns (c': byte, pos': nat, eof': bool)
    requires Reading(rows, file, row, col, c, pos, eof)
    ensures if c' == NEWLINE then Reading(rows, file, row, col, c', pos', eof')
            else Reading(rows, file, row, col + 1, c', pos', eof')
    ensures c' == NEWLINE ==> Padded(rows, row, col) == SPACE
    ensures c' != NEWLINE ==> col < |RowOf(rows, row)| && c' == Padded(rows, row, col)
    ensures c == NEWLINE ==> (c', pos', eof') == (c, pos, eof)
    ensures c != NEWLINE && c' == NEWLINE ==> col == |RowOf(rows, row)|
    ensures c != NEWLINE ==> Unread(file, pos', eof') < Unread(file, pos, eof)
  {
    c', pos', eof' := c, pos, eof;
    if c != NEWLINE {
      SplitAhead(file[pos..], rows[row][col..], rows[row + 1..]);
      if pos < |file| {
        c', pos' := file[pos], pos + 1;
        assert file[pos..][1..] == file[pos + 1..];
      } else {
        c', eof' := NEWLINE, true;
      }
    }
  }

  function Unread(file: seq<byte>, pos: nat, eof: bool): int {
    |file| - pos + if eof then 0 else 1
  }

  /** The two files as one reading position. */
  datatype Heads = Heads(c0: byte, c1: byte, pos0: nat, pos1: nat, eof0: bool, eof1: bool)

  ghost predicate BothReading(
      a: seq<seq<byte>>, b: seq<seq<byte>>, f0: seq<byte>, f1: seq<byte>, row: nat, col: nat, h: Heads)
  {
    Reading(a, f0, row, col, h.c0, h.pos0, h.eof0) && Reading(b, f1, row, col, h.c1, h.pos1, h.eof1)
  }

  predicate RowOver(h: Heads) {
    h.c0 == NEWLINE && h.c1 == NEWLINE
  }

  function Left(f0: seq<byte>, f1: seq<byte>, h: Heads): int {
    Unread(f0, h.pos0, h.eof0) + Unread(f1, h.pos1, h.eof1)
  }

  /** The character shown for a head: a space when its row is over. */
  function Face(c: byte): byte {
    if c == NEWLINE then SPACE else c
  }

  /** A column of both files. */
  method NextBoth(
      f0: seq<byte>, f1: seq<byte>, h: Heads,
      ghost a: seq<seq<byte>>, ghost b: seq<seq<byte>>, ghost row: nat, ghost col: nat)
    returns (h': Heads)
    requires BothReading(a, b, f0, f1, row, col, h) && !RowOver(h)
    ensures if RowOver(h') then col == Width(a, b, row) && BothReading(a, b, f0, f1, row, col, h')
            else BothReading(a, b, f0, f1, row, col + 1, h')
    ensures Face(h'.c0) == Padded(a, row, col) && Face(h'.c1) == Padded(b, row, col)
    ensures 0 <= Left(f0, f1, h') < Left(f0, f1, h)
  {
    var c0, pos0, eof0 := Next(f0, h.c0, h.pos0, h.eof0, a, row, col);
    var c1, pos1, eof1 := Next(f1, h.c1, h.pos1, h.eof1, b, row, col);
    h' := Heads(c0, c1, pos0, pos1, eof0, eof1);
  }

  lemma PlaceConcat(x: seq<Spot>, y: seq<Spot>)
    ensures Place(x + y) == Place(x) + Place(y)
  {
  }

  /** The blinkers of the first `n` columns of a row. */
  function RowAdds(a: seq<seq<byte>>, b: seq<seq<byte>>, row: nat, n: nat): seq<Blinker> {
    if n == 0 then [] else RowAdds(a, b, row, n - 1) + Place(SpotAt(a, b, row, n - 1))
  }

  /** The blinkers of the first `n` rows. */
  function Adds(a: seq<seq<byte>>, b: seq<seq<byte>>, n: nat): seq<Blinker> {
    if n == 0 then [] else Adds(a, b, n - 1) + RowAdds(a, b, n - 1, Width(a, b, n - 1))
  }

  lemma {:induction false} RowAddsPlaced(a: seq<seq<byte>>, b: seq<seq<byte>>, row: nat, n: nat)
    ensures RowAdds(a, b, row, n) == Place(RowSpots(a, b, row, n))
  {
    if n > 0 {
      RowAddsPlaced(a, b, row, n - 1);
      PlaceConcat(RowSpots(a, b, row, n - 1), SpotAt(a, b, row, n - 1));
    }
  }

  lemma {:induction false} AddsPlaced(a: seq<seq<byte>>, b: seq<seq<byte>>, n: nat)
    ensures Adds(a, b, n) == Place(Spots(a, b, n))
  {
    if n > 0 {
      var w := Width(a, b, n - 1);
      AddsPlaced(a, b, n - 1);
      RowAddsPlaced(a, b, n - 1, w);
      PlaceConcat(Spots(a, b, n - 1), RowSpots(a, b, n - 1, w));
      assert Adds(a, b, n) == Adds(a, b, n - 1) + RowAdds(a, b, n - 1, w);
    }
  }

  lemma AllPlaced(f0: seq<byte>, f1: seq<byte>, a: seq<seq<byte>>, b: seq<seq<byte>>, n: nat)
    requires a == Split(f0) && b == Split(f1) && n == Max(|a|, |b|)
    ensures Adds(a, b, n) == Place(AllSpots(f0, f1))
  {
    AddsPlaced(a, b, n);
  }

  lemma SpotPlaced(a: seq<seq<byte>>, b: seq<seq<byte>>, row: nat, col: nat, on: byte, off: byte)
    requires on == Padded(a, row, col) && off == Padded(b, row, col)
    ensures Place(SpotAt(a, b, row, col)) ==
            if on != SPACE || off != SPACE then [Placed(Spot(row, col, on, off))] else []
  {
  }

  /** One turn of the inner loop (fish/fish.c:102-129). */
  method AddColumn(
      f0: seq<byte>, f1: seq<byte>, row: nat, col: nat, h: Heads, ghost a: seq<seq<byte>>, ghost b: seq<seq<byte>>)
    returns (added: seq<Blinker>, h': Heads)
    requires BothReading(a, b, f0, f1, row, col, h) && !RowOver(h)
    ensures if RowOver(h') then col == Width(a, b, row) && BothReading(a, b, f0, f1, row, col, h')
            else BothReading(a, b, f0, f1, row, col + 1, h') && added == Place(SpotAt(a, b, row, col))
    ensures 0 <= Left(f0, f1, h') < Left(f0, f1, h)
  {
    h' := NextBoth(f0, f1, h, a, b, row, col);
    SpotPlaced(a, b, row, col, Face(h'.c0), Face(h'.c1));
    added := [];
    if (h'.c0 != SPACE && h'.c0 != NEWLINE) || (h'.c1 != SPACE && h'.c1 != NEWLINE) {
      added := [Blinker((row * NUM_COLS + col + OFFSET) % TWO_16, Face(h'.c0), Face(h'.c1))];
    }
  }

  /** One row of both files (fish/fish.c:99-130). */
  method AddRow(f0: seq<byte>, f1: seq<byte>, row: nat, h: Heads, ghost a: seq<seq<byte>>, ghost b: seq<seq<byte>>)
    returns (added: seq<Blinker>, h': Heads)
    requires BothReading(a, b, f0, f1, row, 0, h) && !RowOver(h)
    ensures added == RowAdds(a, b, row, Width(a, b, row))
    ensures RowOver(h') && BothReading(a, b, f0, f1, row, Width(a, b, row), h')
    ensures 0 <= Left(f0, f1, h') < Left(f0, f1, h)
  {
    added := [];
    var col := 0;
    h' := h;
    while true
      invariant BothReading(a, b, f0, f1, row, col, h') && !RowOver(h')
      invariant added == RowAdds(a, b, row, col)
      invariant Left(f0, f1, h') <= Left(f0, f1, h)
      decreases Left(f0, f1, h')
    {
      var more;
      more, h' := AddColumn(f0, f1, row, col, h', a, b);
      if RowOver(h') {
        return;
      }
      added := added + more;
      col := col + 1;
    }
  }

  function Restart(eof: bool): byte {
    if eof then NEWLINE else START
  }

  lemma NextRow(rows: seq<seq<byte>>, file: seq<byte>, row: nat, col: nat, pos: nat, eof: bool)
    requires Reading(rows, file, row, col, NEWLINE, pos, eof)
    ensures Reading(rows, file, row + 1, 0, Restart(eof), pos, eof)
    ensures eof <==> row + 1 >= |rows|
  {
  }

  lemma FirstRow(file: seq<byte>)
    ensures Reading(Split(file), file, 0, 0, START, 0, false)
  {
    assert file[0..] == file;
  }

  /** Between two rows: the files are at the start of row `row`, or over. */
  ghost predicate Between(f0: seq<byte>, f1: seq<byte>, a: seq<seq<byte>>, b: seq<seq<byte>>, row: nat, h: Heads) {
    && BothReading(a, b, f0, f1, row, 0, h)
    && h.c0 == Restart(h.eof0) && h.c1 == Restart(h.eof1)
    && (h.eof0 <==> row >= |a|) && (h.eof1 <==> row >= |b|)
  }

  lemma StartsBetween(f0: seq<byte>, f1: seq<byte>)
    ensures Between(f0, f1, Split(f0), Split(f1), 0, Heads(START, START, 0, 0, false, false))
  {
    FirstRow(f0);
    FirstRow(f1);
  }

  /** One turn of the outer loop (fish/fish.c:99-146). */
  method AddNextRow(f0: seq<byte>, f1: seq<byte>, row: nat, h: Heads, ghost a: seq<seq<byte>>, ghost b: seq<seq<byte>>)
    returns (added: seq<Blinker>, h': Heads)
    requires Between(f0, f1, a, b, row, h) && (!h.eof0 || !h.eof1)
    ensures Between(f0, f1, a, b, row + 1, h') && row < Max(|a|, |b|)
    ensures added == RowAdds(a, b, row, Width(a, b, row))
    ensures 0 <= Left(f0, f1, h') < Left(f0, f1, h)
  {
    added, h' := AddRow(f0, f1, row, h, a, b);
    NextRow(a, f0, row, Width(a, b, row), h'.pos0, h'.eof0);
    NextRow(b, f1, row, Width(a, b, row), h'.pos1, h'.eof1);
    h' := h'.(c0 := Restart(h'.eof0), c1 := Restart(h'.eof1));
  }

  /** The outer loop (fish/fish.c:98-147). */
  method AddRows(f0: seq<byte>, f1: seq<byte>, ghost a: seq<seq<byte>>, ghost b: seq<seq<byte>>)
    returns (added: seq<Blinker>)
    requires Between(f0, f1, a, b, 0, Heads(START, START, 0, 0, false, false))
    ensures added == Adds(a, b, Max(|a|, |b|))
  {
    added := [];
    var row := 0;
    var h := Heads(START, START, 0, 0, false, false);
    while !h.eof0 || !h.eof1
      invariant Between(f0, f1, a, b, row, h) && row <= Max(|a|, |b|)
      invariant added == Adds(a, b, row)
      decreases Left(f0, f1, h)
    {
      var more;
      more, h := AddNextRow(f0, f1, row, h, a, b);
      added := added + more;
      row := row + 1;
    }
  }

  /** `add_frames` on two files that open (fish/fish.c:79-148): it terminates, and it adds
      exactly the spots, in reading order, at their place on the screen. */
  method AddFrames(f0: seq<byte>, f1: seq<byte>) returns (added: seq<Blinker>)
    ensures added == Place(AllSpots(f0, f1))
  {
    StartsBetween(f0, f1);
    added := AddRows(f0, f1, Split(f0), Split(f1));
    AllPlaced(f0, f1, Split(f0), Split(f1), Max(|Split(f0)|, |Split(f1)|));
  }
}
