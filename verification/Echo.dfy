/** The line discipline and the screen together: what the echo shows while a terminal reads
    is the line being built, typed at the end of the text that was there. */
module Echo {
  import opened Base
  import opened S = Screen
  import K = Keyboard

  /** Everything that the keys of a read draw. */
  function EchoAll(keys: seq<K.Press>): seq<Op> {
    if keys == [] then []
    else EchoAll(keys[..|keys| - 1]) + K.EchoLine(K.Line(keys[..|keys| - 1]), keys[|keys| - 1])
  }

  /** The text the line is typed on: the one that was there, or an empty one since the last
      Ctrl-L. */
  function BaseOf(t: Text, keys: seq<K.Press>): Text {
    if keys == [] then t
    else if keys[|keys| - 1].Wipe? then BLANK
    else BaseOf(t, keys[..|keys| - 1])
  }

  /** A line typed at the end of some rows. */
  function TypedOn(rows: seq<seq<byte>>, line: seq<int>): (r: seq<seq<byte>>)
    requires |rows| >= 1
    ensures |r| >= 1
  {
    if line == [] then rows
    else
      var c := line[|line| - 1];
      Extended(TypedOn(rows, line[..|line| - 1]), if 0 <= c < 256 then c else 0)
  }

  predicate Printable(line: seq<int>) {
    forall i :: 0 <= i < |line| ==> 32 <= line[i] < 127
  }

  /** No NUL at the end of the text: terminal output holds none. */
  predicate Ended(t: Text)
    requires TextOk(t)
  {
    Strip(Last(t)) == Last(t)
  }

  /** The text is `base` with `line` typed on it, all of it inside the window. */
  ghost predicate Echoed(u: Text, base: Text, line: seq<int>) {
    && TextOk(u) && TextOk(base) && Ended(base) && Printable(line) && |line| < K.BUF_SIZE
    && u.rows == TypedOn(base.rows, line) && |base.rows| - 1 >= u.top
  }

  /** Rows fill up eighty by eighty. */
  lemma {:induction false} TypedCount(rows: seq<seq<byte>>, line: seq<int>)
    requires |rows| >= 1 && |rows[|rows| - 1]| < NUM_COLS && Printable(line)
    ensures var r := TypedOn(rows, line);
            && |r[|r| - 1]| < NUM_COLS && |r| >= |rows|
            && NUM_COLS * (|r| - |rows|) + |r[|r| - 1]| == |rows[|rows| - 1]| + |line|
  {
    if line != [] {
      TypedCount(rows, line[..|line| - 1]);
    }
  }

  lemma TypeRows(t: Text, c: byte)
    requires TextOk(t)
    ensures Type(t, c).rows == Extended(t.rows, c) && Type(t, c).top == Follow(t.top, Extended(t.rows, c))
  {
  }

  lemma TypeEchoed(u: Text, base: Text, line: seq<int>, c: int)
    requires Echoed(u, base, line) && 32 <= c < 127 && |line| < K.BUF_SIZE - 1
    ensures Echoed(Type(u, K.Chr(c)), base, line + [c])
  {
    TypeRows(u, K.Chr(c));
    assert (line + [c])[..|line|] == line;
    TypedCount(base.rows, line + [c]);
  }

  lemma {:induction false} LineEnds(rows: seq<seq<byte>>, line: seq<int>)
    requires |rows| >= 1 && |rows[|rows| - 1]| < NUM_COLS && Printable(line)
    requires Strip(rows[|rows| - 1]) == rows[|rows| - 1]
    ensures var r := TypedOn(rows, line); Strip(r[|r| - 1]) == r[|r| - 1]
  {
    if line != [] {
      var n := |line| - 1;
      TypedCount(rows, line[..n]);
    }
  }

  lemma UpdateBack(rows: seq<seq<byte>>, n: nat, row: seq<byte>)
    requires n < |rows|
    ensures rows[n := row][n := rows[n]] == rows
  {
  }

  lemma ButLast(row: seq<byte>, c: byte)
    ensures (row + [c])[..|row + [c]| - 1] == row
  {
  }

  lemma TakeBackInRow(u: Text, rows: seq<seq<byte>>, last: seq<byte>, c: byte)
    requires TextOk(u) && |rows| >= 1 && last == rows[|rows| - 1] && Strip(last) == last
    requires u.rows == rows[|rows| - 1 := last + [c]]
    ensures Rub(u).rows == rows && Rub(u).top == u.top
  {
    ButLast(last, c);
    UpdateBack(rows, |rows| - 1, last + [c]);
  }

  lemma TakeBackOverEdge(u: Text, rows: seq<seq<byte>>, last: seq<byte>, c: byte)
    requires TextOk(u) && |rows| >= 1 && last == rows[|rows| - 1] && Strip(last) == last
    requires |last| + 1 == NUM_COLS && |rows| - 1 >= u.top
    requires u.rows == rows[|rows| - 1 := last + [c]] + [[]]
    ensures Rub(u).rows == rows && Rub(u).top == u.top
  {
    var n := |rows| - 1;
    assert u.rows[n] == last + [c] && |u.rows| == n + 2 && Last(u) == [];
    assert (last + [c])[..NUM_COLS - 1] == last;
    assert Landed(u, n) == last;
    assert u.rows[..n] + [last] == rows;
  }

  /** Rubbing out takes back exactly the last character typed, over a row's edge too. */
  lemma RubTakesBack(u: Text, rows: seq<seq<byte>>, c: byte)
    requires TextOk(u) && |rows| >= 1 && |rows[|rows| - 1]| < NUM_COLS && !IsNewline(c)
    requires u.rows == Extended(rows, c) && |rows| - 1 >= u.top
    requires Strip(rows[|rows| - 1]) == rows[|rows| - 1]
    ensures Rub(u).rows == rows && Rub(u).top == u.top
  {
    var last := rows[|rows| - 1];
    if |last| + 1 < NUM_COLS {
      TakeBackInRow(u, rows, last, c);
    } else {
      TakeBackOverEdge(u, rows, last, c);
    }
  }

  lemma RubEchoed(u: Text, base: Text, line: seq<int>)
    requires Echoed(u, base, line) && line != []
    ensures Echoed(Rub(u), base, line[..|line| - 1])
  {
    var n := |line| - 1;
    var rows := TypedOn(base.rows, line[..n]);
    TypedCount(base.rows, line[..n]);
    LineEnds(base.rows, line[..n]);
    assert u.rows == Extended(rows, K.Chr(line[n]));
    RubTakesBack(u, rows, K.Chr(line[n]));
  }

  lemma {:induction false} EditConcat(t: Text, a: seq<Op>, b: seq<Op>)
    requires TextOk(t)
    ensures EditAll(t, a + b) == EditAll(EditAll(t, a), b)
    decreases |b|
  {
    if b == [] {
      assert a + b == a;
    } else {
      assert (a + b)[..|a + b| - 1] == a + b[..|b| - 1];
      EditConcat(t, a, b[..|b| - 1]);
    }
  }

  lemma EditOne(t: Text, op: Op)
    requires TextOk(t)
    ensures EditAll(t, [op]) == Edit(t, op)
  {
    assert [op][..0] == [];
  }

  lemma BlankFirst(u: Text, m: nat)
    requires TextOk(u) && m > 0
    ensures EditAll(u, K.Blanks(m)) == EditAll(Type(u, K.BLANK), K.Blanks(m - 1))
  {
    assert K.Blanks(m) == [Typed(K.BLANK)] + K.Blanks(m - 1);
    EditConcat(u, [Typed(K.BLANK)], K.Blanks(m - 1));
    EditOne(u, Typed(K.BLANK));
  }

  lemma PadStep(line: seq<int>, n: nat)
    requires n > 0 && |line| < K.BUF_SIZE - 1
    ensures K.Pad(line, n) == K.Pad(line + [K.BLANK], n - 1)
  {
  }

  /** `m` blanks typed one after the other. */
  function TypeBlanks(u: Text, m: nat): (r: Text)
    requires TextOk(u)
    ensures TextOk(r)
    decreases m
  {
    if m == 0 then u else TypeBlanks(Type(u, K.BLANK), m - 1)
  }

  lemma {:induction false} BlanksTyped(u: Text, m: nat)
    requires TextOk(u)
    ensures EditAll(u, K.Blanks(m)) == TypeBlanks(u, m)
    decreases m
  {
    if m > 0 {
      BlankFirst(u, m);
      BlanksTyped(Type(u, K.BLANK), m - 1);
    }
  }

  lemma {:induction false} TabEchoed(u: Text, base: Text, line: seq<int>, n: nat, m: nat)
    requires Echoed(u, base, line) && m == Min(n, K.BUF_SIZE - 1 - |line|)
    ensures TextOk(u) && Echoed(TypeBlanks(u, m), base, K.Pad(line, n))
    decreases n
  {
    if m > 0 {
      TypeEchoed(u, base, line, K.BLANK);
      PadStep(line, n);
      assert TextOk(Type(u, K.BLANK));
      TabEchoed(Type(u, K.BLANK), base, line + [K.BLANK], n - 1, m - 1);
    }
  }

  predicate Drawable(k: K.Press) {
    !k.Enter? && K.Typeable(k)
  }

  lemma KeyEchoed(u: Text, base: Text, line: seq<int>, k: K.Press)
    requires Echoed(u, base, line) && Drawable(k)
    ensures Echoed(EditAll(u, K.EchoLine(line, k)), if k.Wipe? then BLANK else base, K.Edit(line, k))
  {
    match k
    case Put(c) =>
      if |line| < K.BUF_SIZE - 1 {
        TypeEchoed(u, base, line, c);
        EditOne(u, Typed(K.Chr(c)));
      }
    case Tab =>
      var m := Min(K.TAB_SPACE, K.BUF_SIZE - 1 - |line|);
      TabEchoed(u, base, line, K.TAB_SPACE, m);
      BlanksTyped(u, m);
    case Erase =>
      if line != [] {
        RubEchoed(u, base, line);
        EditOne(u, Rubbed);
      }
    case Wipe => EditOne(u, Wiped);
    case _ =>
  }

  lemma {:induction false} KeysEchoed(t: Text, keys: seq<K.Press>)
    requires TextOk(t) && Ended(t) && forall i :: 0 <= i < |keys| ==> Drawable(keys[i])
    ensures Echoed(EditAll(t, EchoAll(keys)), BaseOf(t, keys), K.Line(keys))
  {
    if keys != [] {
      var n := |keys| - 1;
      KeysEchoed(t, keys[..n]);
      var u := EditAll(t, EchoAll(keys[..n]));
      KeyEchoed(u, BaseOf(t, keys[..n]), K.Line(keys[..n]), keys[n]);
      EditConcat(t, EchoAll(keys[..n]), K.EchoLine(K.Line(keys[..n]), keys[n]));
    }
  }

  /** While a terminal reads, its screen shows the text that was there with the line built
      so far typed at its end, whatever was typed, rubbed out or cleared in between. */
  lemma EchoShowsLine(s: Screen, t: Text, keys: seq<K.Press>)
    requires Shows(s, t) && Ended(t) && forall i :: 0 <= i < |keys| ==> Drawable(keys[i])
    ensures var u := EditAll(t, EchoAll(keys));
            && Shows(ApplyAll(s, EchoAll(keys)), u)
            && TextOk(BaseOf(t, keys)) && u.rows == TypedOn(BaseOf(t, keys).rows, K.Line(keys))
  {
    ScreenFollowsText(s, t, EchoAll(keys));
    KeysEchoed(t, keys);
  }

  // ---------------------------------------------------------------------------
  // Over a run

  /** What the keys of `events` that reach terminal `t` draw on it. */
  function Drawn(r: K.Ref, events: seq<K.Event>, t: nat): seq<Op>
    requires K.RefShape(r) && t < TERMINALS
  {
    if events == [] then []
    else
      var n := |events| - 1;
      var before := K.RunRef(r, events[..n]);
      Drawn(r, events[..n], t) + K.Echoes(before.readers[t], K.KeyFor(before, events[n], t))
  }

  lemma NoEnterBefore(r: K.Ref, events: seq<K.Event>, t: nat)
    requires K.RefShape(r) && events != [] && K.NoEnter(K.KeysTyped(r, events, t))
    ensures K.NoEnter(K.KeysTyped(r, events[..|events| - 1], t))
  {
    var keys, more := K.KeysTyped(r, events[..|events| - 1], t), K.KeysTyped(r, events, t);
    assert forall i :: 0 <= i < |keys| ==> keys[i] == more[i];
  }

  lemma {:induction false} DrawnIsEcho(r: K.Ref, events: seq<K.Event>, t: nat, n: int)
    requires K.RefShape(r) && t < TERMINALS && r.readers[t] == K.Reading(n, [])
    requires K.NoEnter(K.KeysTyped(r, events, t))
    ensures Drawn(r, events, t) == EchoAll(K.KeysTyped(r, events, t))
  {
    if events != [] {
      var m := |events| - 1;
      var keys := K.KeysTyped(r, events[..m], t);
      NoEnterBefore(r, events, t);
      DrawnIsEcho(r, events[..m], t, n);
      K.ReadCollects(r, events[..m], t, n);
      var k := K.KeyFor(K.RunRef(r, events[..m]), events[m], t);
      if !k.Nothing? {
        assert (keys + [k])[..|keys|] == keys;
      } else {
        assert keys + [] == keys;
      }
    }
  }

  /** Over every interleaving: since a read began on terminal `t`, what its keys drew shows
      the text that was there with the line typed so far at its end. */
  lemma ReadShowsItsLine(r: K.Ref, events: seq<K.Event>, t: nat, n: int, s: Screen, text: Text)
    requires K.RefShape(r) && t < TERMINALS && r.readers[t] == K.Reading(n, [])
    requires K.NoEnter(K.KeysTyped(r, events, t)) && Shows(s, text) && Ended(text)
    ensures var keys := K.KeysTyped(r, events, t);
            var shown := EditAll(text, Drawn(r, events, t));
            && Shows(ApplyAll(s, Drawn(r, events, t)), shown)
            && TextOk(BaseOf(text, keys)) && shown.rows == TypedOn(BaseOf(text, keys).rows, K.Line(keys))
  {
    DrawnIsEcho(r, events, t, n);
    K.KeysTypeable(r, events, t);
    EchoShowsLine(s, text, K.KeysTyped(r, events, t));
  }
}
