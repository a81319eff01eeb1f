/** One terminal's 80 by 25 text screen: what printing, rubbing out and clearing do to a
    video page and its cursor (student-distrib/lib.c), and the proof that they follow an
    unbounded text of which the page shows a window. */
module Screen {
  import opened Base

  const NUM_COLS: int := 80
  const NUM_ROWS: int := 25
  const CELLS: int := 2000
  const PAGE: int := 4096
  const ATTRIB: byte := 7

  /** Line feed and carriage return. */
  const NEWLINES: set<byte> := {10, 13}

  predicate IsNewline(c: byte) {
    c in NEWLINES
  }

  /** A page of video memory and the cursor that belongs to it. Cell `k` has its character
      at byte `2 * k` and its attribute in the byte after it. */
  datatype Screen = Screen(page: seq<byte>, x: int, y: int)

  predicate ScreenOk(s: Screen) {
    |s.page| == PAGE && 0 <= s.x < NUM_COLS && 0 <= s.y < NUM_ROWS
  }

  function Position(s: Screen): int {
    s.y * NUM_COLS + s.x
  }

  function SetCell(page: seq<byte>, k: nat, c: byte): seq<byte>
    requires |page| == PAGE && k < CELLS
  {
    page[2 * k := c][2 * k + 1 := ATTRIB]
  }

  /** NUL in the cells `from` to `to`; attributes stay. */
  function NewLined(page: seq<byte>, from: int, to: int): (r: seq<byte>)
    requires |page| == PAGE
    ensures |r| == PAGE
  {
    seq(PAGE, i requires 0 <= i < PAGE => if i % 2 == 0 && from <= i / 2 <= to then 0 as byte else page[i])
  }

  /** Every row moved up by one, the last one empty: the first `n` cells of the result. */
  function Lifted(page: seq<byte>, n: nat): (r: seq<byte>)
    requires |page| == PAGE && n <= CELLS
    ensures |r| == PAGE
  {
    seq(PAGE, i requires 0 <= i < PAGE =>
      if i >= 2 * n then page[i]
      else if i % 2 == 1 then ATTRIB
      else if i < 2 * (CELLS - NUM_COLS) then page[i + 2 * NUM_COLS] else 0 as byte)
  }

  function Scrolled(page: seq<byte>): (r: seq<byte>)
    requires |page| == PAGE
    ensures |r| == PAGE
  {
    Lifted(page, CELLS)
  }

  function Cleared(page: seq<byte>): (r: seq<byte>)
    requires |page| == PAGE
    ensures |r| == PAGE
  {
    seq(PAGE, i requires 0 <= i < PAGE =>
      if i >= 2 * CELLS then page[i]
      else if i % 2 == 1 then ATTRIB
      else if (i / 2) % NUM_COLS == 0 then SPACE else 0 as byte)
  }

  function Scroll(s: Screen): Screen
    requires |s.page| == PAGE
  {
    if s.y == NUM_ROWS then Screen(Scrolled(s.page), 0, NUM_ROWS - 1) else s
  }

  /** A printed character before any scrolling: a newline blanks the columns after the
      cursor and the first of the next row. */
  function Unscrolled(s: Screen, c: byte): (r: Screen)
    requires ScreenOk(s)
    ensures |r.page| == PAGE && 0 <= r.x < NUM_COLS && 0 <= r.y <= NUM_ROWS
  {
    if IsNewline(c) then Screen(NewLined(s.page, Position(s) + 1, NUM_COLS * s.y + NUM_COLS), 0, s.y + 1)
    else
      var page := SetCell(s.page, Position(s), c);
      if s.x + 1 == NUM_COLS then Screen(page, 0, s.y + 1) else Screen(page, s.x + 1, s.y)
  }

  /** Printing one character (student-distrib/lib.c:296-323). */
  function Put(s: Screen, c: byte): (r: Screen)
    requires ScreenOk(s)
    ensures ScreenOk(r)
  {
    Scroll(Unscrolled(s, c))
  }

  /** Where a backspace stops looking for a character: at one, at the end of the row above,
      or before the first cell. */
  function Landing(page: seq<byte>, offset: int): (r: int)
    requires |page| == PAGE && -1 <= offset < CELLS
    ensures -1 <= r <= offset
    decreases offset + 1
  {
    if offset < 0 || page[2 * offset] != 0 || (offset + 1) % NUM_COLS == 0 then offset
    else Landing(page, offset - 1)
  }

  function CursorAt(page: seq<byte>, k: int): Screen {
    Screen(page, k % NUM_COLS, k / NUM_COLS)
  }

  /** Rubbing out (student-distrib/lib.c:55-77). */
  function Back(s: Screen): (r: Screen)
    requires ScreenOk(s)
    ensures ScreenOk(r)
  {
    if Position(s) == 0 then s
    else
      var page := SetCell(s.page, Position(s) - 1, 0);
      var k := Landing(page, Position(s) - 2) + 1;
      CursorAt(page, k)
  }

  /** Clearing (student-distrib/lib.c:29-45). */
  function Clear(s: Screen): (r: Screen)
    requires ScreenOk(s)
    ensures ScreenOk(r)
  {
    Screen(Cleared(s.page), 0, 0)
  }

  // ---------------------------------------------------------------------------
  // The text a screen shows

  /** All rows printed since the last clear; the window starts at row `top`, and the cursor
      is at the end of the last row. `spaced` are the rows whose first cell still holds the
      space that clearing put there. */
  datatype Text = Text(rows: seq<seq<byte>>, top: nat, spaced: set<int>)

  predicate TextOk(t: Text) {
    && t.top < |t.rows| <= t.top + NUM_ROWS
    && (forall i :: 0 <= i < |t.rows| ==> |t.rows[i]| <= NUM_COLS)
    && |t.rows[|t.rows| - 1]| < NUM_COLS
    && (forall i :: i in t.spaced ==> i < t.top + NUM_ROWS && (0 <= i < |t.rows| ==> t.rows[i] == []))
  }

  const BLANK: Text := Text([[]], 0, set i: int | 0 <= i < NUM_ROWS)

  function Last(t: Text): seq<byte>
    requires TextOk(t)
  {
    t.rows[|t.rows| - 1]
  }

  function Follow(top: nat, rows: seq<seq<byte>>): nat {
    if |rows| > top + NUM_ROWS then top + 1 else top
  }

  /** Typing a character: a newline or a full row starts a new row. */
  function Type(t: Text, c: byte): (r: Text)
    requires TextOk(t)
    ensures TextOk(r)
  {
    var n := |t.rows|;
    if IsNewline(c) then
      var rows := t.rows + [[]];
      Text(rows, Follow(t.top, rows), t.spaced - {n})
    else
      var row := Last(t) + [c];
      var rows := t.rows[n - 1 := row] + if |row| == NUM_COLS then [[]] else [];
      Text(rows, Follow(t.top, rows), t.spaced - {n - 1})
  }

  function Strip(row: seq<byte>): (r: seq<byte>)
    ensures r <= row
    ensures r != [] ==> r[|r| - 1] != 0
    ensures forall i :: |r| <= i < |row| ==> row[i] == 0
  {
    if row == [] || row[|row| - 1] != 0 then row else Strip(row[..|row| - 1])
  }

  /** Where rubbing out from the row below lands: after the last character of row `i`, or
      after the space that clearing left in an empty one. */
  function Landed(t: Text, i: nat): seq<byte>
    requires i < |t.rows|
  {
    var row := t.rows[i];
    if row == [] && i in t.spaced then [SPACE] else Strip(row[..Min(|row|, NUM_COLS - 1)])
  }

  /** Rubbing out a character: the last of the last row, or, from an empty row, back to the
      end of the row above; never above the window. */
  function Rub(t: Text): (r: Text)
    requires TextOk(t)
    ensures TextOk(r)
  {
    var n := |t.rows|;
    var last := Last(t);
    if last != [] then t.(rows := t.rows[n - 1 := Strip(last[..|last| - 1])])
    else if n == t.top + 1 then t
    else
      Text(t.rows[..n - 2] + [Landed(t, n - 2)], t.top, t.spaced - {n - 2})
  }

  function Cell(r: int, c: int): (k: int)
    ensures 0 <= r < NUM_ROWS && 0 <= c < NUM_COLS ==> 0 <= k < CELLS
  {
    r * NUM_COLS + c
  }

  /** The characters of a page are those of a window that starts at row `top`. */
  predicate Window(page: seq<byte>, t: Text, top: int) {
    && |page| == PAGE && top >= 0
    && forall r, c :: 0 <= r < NUM_ROWS && 0 <= c < NUM_COLS ==> page[2 * Cell(r, c)] == InkAt(t, top + r, c)
  }

  /** The character in row `i` of the whole text, column `c`. */
  function InkAt(t: Text, i: int, c: int): byte
    requires 0 <= i && 0 <= c
  {
    if i < |t.rows| && c < |t.rows[i]| then t.rows[i][c]
    else if c == 0 && i in t.spaced then SPACE else 0
  }

  /** The page shows the text's window, cell for cell, with the cursor at its end. */
  predicate Shows(s: Screen, t: Text) {
    && ScreenOk(s) && TextOk(t) && Window(s.page, t, t.top)
    && s.x == |Last(t)| && s.y == |t.rows| - 1 - t.top
  }

  lemma CellInjective(r: int, c: int, q: int, d: int)
    requires 0 <= c < NUM_COLS && 0 <= d < NUM_COLS
    ensures Cell(r, c) == Cell(q, d) <==> r == q && c == d
  {
  }

  lemma CursorAtCell(page: seq<byte>, r: int, c: int)
    requires 0 <= c < NUM_COLS
    ensures CursorAt(page, Cell(r, c)) == Screen(page, c, r)
  {
  }

  ghost predicate IsCleared(page: seq<byte>) {
    exists before :: |before| == PAGE && page == Cleared(before)
  }

  lemma ClearedShows(page: seq<byte>)
    requires IsCleared(page)
    ensures Shows(Screen(page, 0, 0), BLANK)
  {
    var before :| |before| == PAGE && page == Cleared(before);
    ClearShows(Screen(before, 0, 0));
  }

  lemma ClearShows(s: Screen)
    requires ScreenOk(s)
    ensures Shows(Clear(s), BLANK)
  {
  }

  /** Scrolling moves the window down one row. */
  lemma ScrollWindow(page: seq<byte>, t: Text, top: int)
    requires Window(page, t, top)
    requires top + NUM_ROWS !in t.spaced && (top + NUM_ROWS < |t.rows| ==> t.rows[top + NUM_ROWS] == [])
    ensures Window(Scrolled(page), t, top + 1)
  {
    forall r, c | 0 <= r < NUM_ROWS && 0 <= c < NUM_COLS
      ensures Scrolled(page)[2 * Cell(r, c)] == InkAt(t, top + 1 + r, c)
    {
      if r < NUM_ROWS - 1 {
        assert Cell(r + 1, c) == Cell(r, c) + NUM_COLS;
        assert top + 1 + r == top + (r + 1);
      } else {
        assert top + 1 + r == top + NUM_ROWS;
      }
    }
  }

  lemma NewlineWindow(s: Screen, t: Text, c: byte)
    requires Shows(s, t) && IsNewline(c)
    ensures Window(Unscrolled(s, c).page, Type(t, c), t.top)
  {
    forall q, d | 0 <= q < NUM_ROWS && 0 <= d < NUM_COLS
      ensures Unscrolled(s, c).page[2 * Cell(q, d)] == InkAt(Type(t, c), t.top + q, d)
    {
      assert s.page[2 * Cell(q, d)] == InkAt(t, t.top + q, d);
    }
  }

  lemma CharWindow(s: Screen, t: Text, c: byte)
    requires Shows(s, t) && !IsNewline(c)
    ensures Window(Unscrolled(s, c).page, Type(t, c), t.top)
  {
    forall q, d | 0 <= q < NUM_ROWS && 0 <= d < NUM_COLS
      ensures Unscrolled(s, c).page[2 * Cell(q, d)] == InkAt(Type(t, c), t.top + q, d)
    {
      CellInjective(q, d, s.y, s.x);
      assert s.page[2 * Cell(q, d)] == InkAt(t, t.top + q, d);
    }
  }

  lemma TypeMoves(s: Screen, t: Text, c: byte)
    requires Shows(s, t)
    ensures Unscrolled(s, c).x == |Last(Type(t, c))|
    ensures Unscrolled(s, c).y == |Type(t, c).rows| - 1 - t.top
    ensures Type(t, c).top == t.top + if Unscrolled(s, c).y == NUM_ROWS then 1 else 0
    ensures Unscrolled(s, c).y == NUM_ROWS ==> Last(Type(t, c)) == []
  {
  }

  /** Printing follows typing. */
  lemma PutShows(s: Screen, t: Text, c: byte)
    requires Shows(s, t)
    ensures Shows(Put(s, c), Type(t, c))
  {
    if IsNewline(c) {
      NewlineWindow(s, t, c);
    } else {
      CharWindow(s, t, c);
    }
    TypeMoves(s, t, c);
    if Unscrolled(s, c).y == NUM_ROWS {
      ScrollWindow(Unscrolled(s, c).page, Type(t, c), t.top);
    }
  }

  lemma LandingStep(page: seq<byte>, r: int, c: int)
    requires |page| == PAGE && 0 <= r < NUM_ROWS && 0 <= c < NUM_COLS - 1
    ensures Landing(page, Cell(r, c)) == if page[2 * Cell(r, c)] != 0 then Cell(r, c) else Landing(page, Cell(r, c) - 1)
    ensures c == 0 ==> Landing(page, Cell(r, c) - 1) == Cell(r, c) - 1
  {
  }

  /** A backspace looks back over NULs and stops after the row's last other character. */
  lemma {:induction false} LandingStrips(page: seq<byte>, row: seq<byte>, r: int)
    requires |page| == PAGE && 0 <= r < NUM_ROWS && |row| < NUM_COLS
    requires forall c :: 0 <= c < |row| ==> page[2 * Cell(r, c)] == row[c]
    ensures Landing(page, Cell(r, |row|) - 1) == Cell(r, |Strip(row)|) - 1
  {
    if row == [] {
      LandingStep(page, r, 0);
    } else {
      var c := |row| - 1;
      LandingStep(page, r, c);
      assert page[2 * Cell(r, c)] == row[c];
      if row[c] == 0 {
        LandingStrips(page, row[..c], r);
      }
    }
  }

  /** Erasing a cell leaves those before it in its row. */
  lemma SetBeyond(page: seq<byte>, r: int, row: seq<byte>)
    requires |page| == PAGE && 0 <= r < NUM_ROWS && |row| < NUM_COLS
    requires forall c :: 0 <= c < |row| ==> page[2 * Cell(r, c)] == row[c]
    ensures forall c :: 0 <= c < |row| ==> SetCell(page, Cell(r, |row|), 0)[2 * Cell(r, c)] == row[c]
  {
  }

  lemma BackIs(s: Screen)
    requires ScreenOk(s) && Position(s) > 0
    ensures var page := SetCell(s.page, Position(s) - 1, 0);
            Back(s) == CursorAt(page, Landing(page, Position(s) - 2) + 1)
  {
  }

  /** Where the cursor ends when the row being rubbed holds `row` before the erased cell. */
  lemma BackLands(s: Screen, r: int, row: seq<byte>)
    requires ScreenOk(s) && 0 <= r < NUM_ROWS && |row| < NUM_COLS && Position(s) - 1 == Cell(r, |row|)
    requires forall c :: 0 <= c < |row| ==> s.page[2 * Cell(r, c)] == row[c]
    ensures Back(s) == Screen(SetCell(s.page, Cell(r, |row|), 0), |Strip(row)|, r)
  {
    var page := SetCell(s.page, Cell(r, |row|), 0);
    BackIs(s);
    SetBeyond(s.page, r, row);
    LandingStrips(page, row, r);
    CursorAtCell(page, r, |Strip(row)|);
  }

  /** Erasing a cell that the text no longer covers. */
  lemma EraseWindow(page: seq<byte>, t: Text, u: Text, top: int, r: int, x: int)
    requires Window(page, t, top) && 0 <= r < NUM_ROWS && 0 <= x < NUM_COLS
    requires InkAt(u, top + r, x) == 0
    requires forall i, d :: 0 <= i && 0 <= d < NUM_COLS && (i != top + r || d != x) ==> InkAt(u, i, d) == InkAt(t, i, d)
    ensures Window(SetCell(page, Cell(r, x), 0), u, top)
  {
    forall q, d | 0 <= q < NUM_ROWS && 0 <= d < NUM_COLS
      ensures SetCell(page, Cell(r, x), 0)[2 * Cell(q, d)] == InkAt(u, top + q, d)
    {
      CellInjective(q, d, r, x);
      assert page[2 * Cell(q, d)] == InkAt(t, top + q, d);
    }
  }

  lemma RubRowInk(t: Text)
    requires TextOk(t) && Last(t) != []
    ensures var i, x := |t.rows| - 1, |Last(t)| - 1;
            && InkAt(Rub(t), i, x) == 0
            && forall j, d :: 0 <= j && 0 <= d < NUM_COLS && (j != i || d != x) ==>
                 InkAt(Rub(t), j, d) == InkAt(t, j, d)
  {
  }

  lemma WindowRow(page: seq<byte>, t: Text, top: int, r: int, row: seq<byte>)
    requires Window(page, t, top) && 0 <= r < NUM_ROWS && top + r < |t.rows| && row <= t.rows[top + r]
    requires |row| < NUM_COLS
    ensures forall c :: 0 <= c < |row| ==> page[2 * Cell(r, c)] == row[c]
  {
    forall c | 0 <= c < |row|
      ensures page[2 * Cell(r, c)] == row[c]
    {
      assert page[2 * Cell(r, c)] == InkAt(t, top + r, c);
    }
  }

  lemma RubRow(s: Screen, t: Text)
    requires Shows(s, t) && Last(t) != []
    ensures Shows(Back(s), Rub(t))
  {
    var row := Last(t)[..s.x - 1];
    WindowRow(s.page, t, t.top, s.y, row);
    BackLands(s, s.y, row);
    RubRowInk(t);
    EraseWindow(s.page, t, Rub(t), t.top, s.y, s.x - 1);
  }

  lemma {:induction false} StripUnique(row: seq<byte>, r: seq<byte>)
    requires r <= row && (r != [] ==> r[|r| - 1] != 0)
    requires forall i :: |r| <= i < |row| ==> row[i] == 0
    ensures Strip(row) == r
  {
    if r != row {
      StripUnique(row[..|row| - 1], r);
    } else if row != [] {
      assert r[|r| - 1] != 0;
    }
  }

  /** The cells of row `i` but the last. */
  function Visible(t: Text, i: nat): (r: seq<byte>)
    ensures |r| == NUM_COLS - 1
  {
    seq(NUM_COLS - 1, c requires 0 <= c => InkAt(t, i, c))
  }

  lemma VisibleStrips(t: Text, i: nat)
    requires TextOk(t) && i < |t.rows|
    ensures Strip(Visible(t, i)) == Landed(t, i)
  {
    StripUnique(Visible(t, i), Landed(t, i));
  }

  lemma RubUpInk(t: Text)
    requires TextOk(t) && Last(t) == [] && |t.rows| - 2 >= t.top
    ensures var i := |t.rows| - 2;
            && InkAt(Rub(t), i, NUM_COLS - 1) == 0
            && forall j, d :: 0 <= j && 0 <= d < NUM_COLS && (j != i || d != NUM_COLS - 1) ==>
                 InkAt(Rub(t), j, d) == InkAt(t, j, d)
  {
  }

  /** Rubbing out from an empty row goes back to the end of the row above. */
  lemma RubUp(s: Screen, t: Text)
    requires Shows(s, t) && Last(t) == [] && s.y > 0
    ensures Shows(Back(s), Rub(t))
  {
    var i := |t.rows| - 2;
    var row := Visible(t, i);
    forall c | 0 <= c < |row|
      ensures s.page[2 * Cell(s.y - 1, c)] == row[c]
    {
      assert s.page[2 * Cell(s.y - 1, c)] == InkAt(t, t.top + (s.y - 1), c);
    }
    BackLands(s, s.y - 1, row);
    VisibleStrips(t, i);
    RubUpInk(t);
    EraseWindow(s.page, t, Rub(t), t.top, s.y - 1, NUM_COLS - 1);
  }

  /** Backspacing follows rubbing out. */
  lemma BackShows(s: Screen, t: Text)
    requires Shows(s, t)
    ensures Shows(Back(s), Rub(t))
  {
    if Last(t) != [] {
      RubRow(s, t);
    } else if s.y > 0 {
      RubUp(s, t);
    }
  }

  // ---------------------------------------------------------------------------
  // Sequences of operations

  datatype Op = Typed(c: byte) | Rubbed | Wiped

  function Apply(s: Screen, op: Op): (r: Screen)
    requires ScreenOk(s)
    ensures ScreenOk(r)
  {
    match op
    case Typed(c) => Put(s, c)
    case Rubbed => Back(s)
    case Wiped => Clear(s)
  }

  function Edit(t: Text, op: Op): (r: Text)
    requires TextOk(t)
    ensures TextOk(r)
  {
    match op
    case Typed(c) => Type(t, c)
    case Rubbed => Rub(t)
    case Wiped => BLANK
  }

  function ApplyAll(s: Screen, ops: seq<Op>): (r: Screen)
    requires ScreenOk(s)
    ensures ScreenOk(r)
  {
    if ops == [] then s else Apply(ApplyAll(s, ops[..|ops| - 1]), ops[|ops| - 1])
  }

  function EditAll(t: Text, ops: seq<Op>): (r: Text)
    requires TextOk(t)
    ensures TextOk(r)
  {
    if ops == [] then t else Edit(EditAll(t, ops[..|ops| - 1]), ops[|ops| - 1])
  }

  /** A screen that shows a text goes on showing it through any operations. */
  lemma {:induction false} ScreenFollowsText(s: Screen, t: Text, ops: seq<Op>)
    requires Shows(s, t)
    ensures Shows(ApplyAll(s, ops), EditAll(t, ops))
  {
    if ops != [] {
      var n := |ops| - 1;
      ScreenFollowsText(s, t, ops[..n]);
      var s' := ApplyAll(s, ops[..n]);
      var t' := EditAll(t, ops[..n]);
      match ops[n] {
        case Typed(c) => PutShows(s', t', c);
        case Rubbed => BackShows(s', t');
        case Wiped => ClearShows(s');
      }
    }
  }

  /** From the cursor on, a screen that shows a text is blank. */
  lemma BlankFromCursor(s: Screen, t: Text, k: int)
    requires Shows(s, t) && Position(s) <= k < CELLS
    ensures s.page[2 * k] == 0 || s.page[2 * k] == SPACE
  {
    var r, c := k / NUM_COLS, k % NUM_COLS;
    assert Cell(r, c) == k;
    assert s.page[2 * Cell(r, c)] == InkAt(t, t.top + r, c);
  }

  /** Clearing leaves spaces in column 0: after a newline on a cleared screen, a backspace
      comes back to column 1 of the first row, not to column 0. */
  lemma BackspaceToColumnOne(s: Screen)
    requires ScreenOk(s)
    ensures var r := ApplyAll(Clear(s), [Typed(10), Rubbed]);
            r.x == 1 && r.y == 0 && r.page[0] == SPACE
  {
    var ops := [Typed(10), Rubbed];
    ClearShows(s);
    ScreenFollowsText(Clear(s), BLANK, ops);
    var t := Type(BLANK, 10);
    var one := ops[..1];
    assert one == [Typed(10)] && one[..0] == [];
    assert EditAll(BLANK, one) == Edit(EditAll(BLANK, one[..0]), one[0]) == t;
    assert EditAll(BLANK, ops) == Edit(EditAll(BLANK, one), ops[1]);
    assert t.rows == [[], []] && 0 in t.spaced;
    assert EditAll(BLANK, ops) == Rub(t);
    assert Rub(t).rows == [[SPACE]];
    assert ApplyAll(Clear(s), ops).page[2 * Cell(0, 0)] == InkAt(Rub(t), 0 + 0, 0);
  }

  // ---------------------------------------------------------------------------
  // Printing from a cleared screen: wrapped text

  /** The number of characters before the first newline. */
  function RowSpan(s: seq<byte>): (n: nat)
    ensures n <= |s|
  {
    Span(s, NEWLINES, 0)
  }

  lemma RowSpanExtends(s: seq<byte>, c: byte)
    ensures var n := RowSpan(s);
            RowSpan(s + [c]) == if n < |s| || IsNewline(c) then n else n + 1
  {
    var n := RowSpan(s);
    SpanMeans(s, NEWLINES, 0);
    assert forall k :: 0 <= k < |s| ==> (s + [c])[k] == s[k];
    SpanUnique(s + [c], NEWLINES, 0, if n < |s| || IsNewline(c) then n else n + 1);
  }

  /** A character stream as rows of at most 80: every line is cut from its start, and a row
      that is full is followed by another. */
  function Wrapped(s: seq<byte>): (rows: seq<seq<byte>>)
    ensures |rows| >= 1
    decreases |s|
  {
    var n := RowSpan(s);
    if n >= NUM_COLS then [s[..NUM_COLS]] + Wrapped(s[NUM_COLS..])
    else if n < |s| then [s[..n]] + Wrapped(s[n + 1..])
    else [s]
  }

  function Extended(rows: seq<seq<byte>>, c: byte): seq<seq<byte>>
    requires |rows| >= 1
  {
    var n := |rows| - 1;
    if IsNewline(c) then rows + [[]]
    else rows[n := rows[n] + [c]] + if |rows[n]| + 1 == NUM_COLS then [[]] else []
  }

  lemma ExtendedAfter(row: seq<byte>, rows: seq<seq<byte>>, c: byte)
    requires |rows| >= 1
    ensures Extended([row] + rows, c) == [row] + Extended(rows, c)
  {
  }

  lemma WrappedShort(s: seq<byte>)
    requires RowSpan(s) == |s| < NUM_COLS
    ensures Wrapped(s) == [s]
  {
  }

  lemma EndNewline(s: seq<byte>, c: byte)
    requires RowSpan(s) == |s| < NUM_COLS && IsNewline(c)
    ensures Wrapped(s + [c]) == [s] + [[]]
  {
    RowSpanExtends(s, c);
    assert (s + [c])[|s| + 1..] == [] && (s + [c])[..|s|] == s;
    WrappedShort([]);
  }

  lemma EndFull(s: seq<byte>, c: byte)
    requires RowSpan(s) == |s| == NUM_COLS - 1 && !IsNewline(c)
    ensures Wrapped(s + [c]) == [s + [c]] + [[]]
  {
    RowSpanExtends(s, c);
    assert (s + [c])[..NUM_COLS] == s + [c] && (s + [c])[NUM_COLS..] == [];
    WrappedShort([]);
  }

  /** A character after the end of a stream's last row. */
  lemma WrappedEnd(s: seq<byte>, c: byte)
    requires RowSpan(s) == |s| < NUM_COLS
    ensures Wrapped(s + [c]) == Extended([s], c)
  {
    if IsNewline(c) {
      EndNewline(s, c);
    } else if |s| + 1 == NUM_COLS {
      EndFull(s, c);
    } else {
      RowSpanExtends(s, c);
      WrappedShort(s + [c]);
    }
  }

  lemma SliceExtends(s: seq<byte>, c: byte, k: nat, n: nat)
    requires k <= |s| && n <= |s|
    ensures (s + [c])[k..] == s[k..] + [c] && (s + [c])[..n] == s[..n]
  {
  }

  lemma WrappedFirst(s: seq<byte>, m: nat)
    requires m == RowSpan(s) && (m >= NUM_COLS || m < |s|)
    ensures m >= NUM_COLS ==> Wrapped(s) == [s[..NUM_COLS]] + Wrapped(s[NUM_COLS..])
    ensures m < NUM_COLS ==> Wrapped(s) == [s[..m]] + Wrapped(s[m + 1..])
  {
  }

  /** A character after a stream with more than one row leaves the first row alone. */
  lemma WrappedRest(s: seq<byte>, c: byte, m: nat)
    requires m == RowSpan(s) && (m >= NUM_COLS || m < |s|)
    ensures m >= NUM_COLS ==> Wrapped(s + [c]) == [s[..NUM_COLS]] + Wrapped(s[NUM_COLS..] + [c])
    ensures m < NUM_COLS ==> Wrapped(s + [c]) == [s[..m]] + Wrapped(s[m + 1..] + [c])
  {
    RowSpanExtends(s, c);
    WrappedFirst(s + [c], RowSpan(s + [c]));
    if m >= NUM_COLS {
      SliceExtends(s, c, NUM_COLS, NUM_COLS);
    } else {
      SliceExtends(s, c, m + 1, m);
    }
  }

  lemma {:induction false} WrappedExtends(s: seq<byte>, c: byte)
    ensures Wrapped(s + [c]) == Extended(Wrapped(s), c)
    decreases |s|
  {
    var m := RowSpan(s);
    if m >= NUM_COLS || m < |s| {
      var k := if m >= NUM_COLS then NUM_COLS else m + 1;
      WrappedFirst(s, m);
      WrappedRest(s, c, m);
      WrappedExtends(s[k..], c);
      ExtendedAfter(s[..Min(m, NUM_COLS)], Wrapped(s[k..]), c);
    } else {
      WrappedEnd(s, c);
    }
  }

  predicate Tail(t: Text) {
    t.top == if |t.rows| > NUM_ROWS then |t.rows| - NUM_ROWS else 0
  }

  lemma TypeExtends(t: Text, c: byte)
    requires TextOk(t) && Tail(t)
    ensures Type(t, c).rows == Extended(t.rows, c) && Tail(Type(t, c))
  {
  }

  function Stream(s: seq<byte>): (ops: seq<Op>)
    ensures |ops| == |s|
  {
    seq(|s|, i requires 0 <= i < |s| => Typed(s[i]))
  }

  lemma StreamSnoc(s: seq<byte>)
    requires s != []
    ensures var n := |s| - 1;
            s[..n] + [s[n]] == s && EditAll(BLANK, Stream(s)) == Type(EditAll(BLANK, Stream(s[..n])), s[n])
  {
    var n := |s| - 1;
    assert Stream(s)[..n] == Stream(s[..n]);
  }

  /** Printed alone, a stream is shown wrapped, and the window is on its last 25 rows. */
  lemma {:induction false} TypedIsWrapped(s: seq<byte>)
    ensures var t := EditAll(BLANK, Stream(s));
            && t.rows == Wrapped(s)
            && Tail(t)
  {
    if s != [] {
      var n := |s| - 1;
      var t := EditAll(BLANK, Stream(s[..n]));
      TypedIsWrapped(s[..n]);
      StreamSnoc(s);
      TypeExtends(t, s[n]);
      WrappedExtends(s[..n], s[n]);
    }
  }

  /** A screen shows the last 25 of `rows`, blank where they have no character, with the
      cursor at their end. */
  predicate ShowsLast(s: Screen, rows: seq<seq<byte>>) {
    var top := if |rows| > NUM_ROWS then |rows| - NUM_ROWS else 0;
    && |s.page| == PAGE && |rows| >= 1
    && s.y == |rows| - 1 - top && s.x == |rows[|rows| - 1]|
    && forall r, c :: 0 <= r < NUM_ROWS && 0 <= c < NUM_COLS ==>
         var shown := s.page[2 * Cell(r, c)];
         if top + r < |rows| && c < |rows[top + r]| then shown == rows[top + r][c] else shown == 0 || shown == SPACE
  }

  lemma TailShowsLast(s: Screen, t: Text)
    requires Shows(s, t) && Tail(t)
    ensures ShowsLast(s, t.rows)
  {
    forall r, c | 0 <= r < NUM_ROWS && 0 <= c < NUM_COLS
      ensures var shown := s.page[2 * Cell(r, c)];
              if t.top + r < |t.rows| && c < |t.rows[t.top + r]| then shown == t.rows[t.top + r][c]
              else shown == 0 || shown == SPACE
    {
      assert s.page[2 * Cell(r, c)] == InkAt(t, t.top + r, c);
    }
  }

  /** Printing any stream from a cleared screen shows the last 25 rows of its wrapped
      text. */
  lemma PrintShowsWrapped(s: Screen, stream: seq<byte>)
    requires ScreenOk(s)
    ensures ShowsLast(ApplyAll(Clear(s), Stream(stream)), Wrapped(stream))
  {
    ClearShows(s);
    ScreenFollowsText(Clear(s), BLANK, Stream(stream));
    TypedIsWrapped(stream);
    TailShowsLast(ApplyAll(Clear(s), Stream(stream)), EditAll(BLANK, Stream(stream)));
  }
}
