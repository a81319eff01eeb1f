/** The terminal line discipline: keys go to the displayed terminal, reads belong to the
    scheduled one, and the two move independently (student-distrib/keyboard.c). A read is
    proved to deliver exactly the line that a simple editor builds from the keys typed
    while its terminal was displayed and reading. */
module Keyboard {
  import opened Base
  import S = Screen

  const BUF_SIZE: int := 128
  const TAB_SPACE: int := 4

  const CAPS_PRESS: int := 0x3A
  const L_SHIFT_PRESS: int := 0x2A
  const L_SHIFT_RELEASE: int := 0xAA
  const R_SHIFT_PRESS: int := 0x36
  const R_SHIFT_RELEASE: int := 0xB6
  const CTRL_PRESS: int := 0x1D
  const CTRL_RELEASE: int := 0x9D
  const ALT_PRESS: int := 0x38
  const ALT_RELEASE: int := 0xB8
  const ENTER_PRESS: int := 0x1C
  const BACKSPACE: int := 0x0E
  const TAB: int := 0x0F
  const L_PRESS: int := 0x26
  const F1_PRESS: int := 0x3B
  const F3_PRESS: int := 0x3D
  const NUM_SCANCODE: int := 0x3A
  const NEW_LINE: int := 0x0A
  const INVALID: int := -1
  const CTRL_L: int := -2
  const BLANK: int := 0x20

  // The three scancode tables, row by row (student-distrib/keyboard.c:130-157)
  const DIGITS := "\0\01234567890-=\0\0"
  const PLAIN: string := DIGITS + "qwertyuiop[]\0\0" + "asdfghjkl;'`\0\\" + "zxcvbnm,./\0\0\0 "
  const CAPITAL: string := DIGITS + "QWERTYUIOP[]\0\0" + "ASDFGHJKL;'`\0\\" + "ZXCVBNM,./\0\0\0 "
  const SHIFTED: string := "\0\0!@#$%^&*()_+\0\0" + "QWERTYUIOP{}\0\0" + "ASDFGHJKL:\"~\0|" + "ZXCVBNM<>?\0\0\0 "

  datatype Mods = Mods(caps: bool, leftShift: bool, rightShift: bool, ctrl: bool, alt: bool)

  /** The modifier flags after a scancode (student-distrib/keyboard.c:173-206). */
  function Shifted(m: Mods, code: byte): Mods {
    Mods(
      if code == CAPS_PRESS then !m.caps else m.caps,
      if code == L_SHIFT_PRESS then true else if code == L_SHIFT_RELEASE then false else m.leftShift,
      if code == R_SHIFT_PRESS then true else if code == R_SHIFT_RELEASE then false else m.rightShift,
      if code == CTRL_PRESS then true else if code == CTRL_RELEASE then false else m.ctrl,
      if code == ALT_PRESS then true else if code == ALT_RELEASE then false else m.alt)
  }

  function TableOf(m: Mods): (r: string)
    ensures |r| == NUM_SCANCODE
  {
    if m.leftShift || m.rightShift then SHIFTED else if m.caps then CAPITAL else PLAIN
  }

  /** What a key means to the line being edited, or to the display. */
  datatype Press = Nothing | Put(c: int) | Tab | Erase | Wipe | Enter | Show(term: nat)

  /** The meaning of a scancode under the modifiers it leaves. The characters `;`, `<` and
      `=` have the values of F1 to F3 and are taken for them. */
  function Meaning(m: Mods, code: byte): Press {
    if F1_PRESS <= code <= F3_PRESS then FunctionKey(m, code)
    else if m.ctrl && code == L_PRESS then Wipe
    else if code == BACKSPACE then Erase
    else if code == ENTER_PRESS then Enter
    else if code == TAB then Tab
    else if code < NUM_SCANCODE then
      var c := TableOf(m)[code] as int;
      if c == 0 then Nothing
      else if F1_PRESS <= c <= F3_PRESS then FunctionKey(m, c)
      else Put(c)
    else Nothing
  }

  function FunctionKey(m: Mods, c: int): Press
    requires F1_PRESS <= c <= F3_PRESS
  {
    if m.alt then Show(c - F1_PRESS) else Nothing
  }

  // ---------------------------------------------------------------------------
  // The reference: a line editor, and reads that collect keys

  /** `n` blanks, as many as fit. */
  function Pad(line: seq<int>, n: nat): seq<int>
    decreases n
  {
    if n == 0 || |line| >= BUF_SIZE - 1 then line else Pad(line + [BLANK], n - 1)
  }

  /** One key applied to the line: at most 127 characters, a tab is up to four blanks. */
  function Edit(line: seq<int>, k: Press): seq<int> {
    match k
    case Put(c) => if |line| < BUF_SIZE - 1 then line + [c] else line
    case Tab => Pad(line, TAB_SPACE)
    case Erase => if line == [] then line else line[..|line| - 1]
    case Wipe => []
    case _ => line
  }

  /** The line a sequence of keys builds. */
  function Line(keys: seq<Press>): (r: seq<int>)
    ensures |r| < BUF_SIZE
  {
    if keys == [] then [] else
      var line := Line(keys[..|keys| - 1]);
      EditFits(line, keys[|keys| - 1]);
      Edit(line, keys[|keys| - 1])
  }

  lemma PadFits(line: seq<int>, n: nat)
    requires |line| < BUF_SIZE
    ensures |line| <= |Pad(line, n)| < BUF_SIZE && |Pad(line, n)| == Min(|line| + n, BUF_SIZE - 1)
    ensures Pad(line, n)[..|line|] == line
    ensures forall i :: |line| <= i < |Pad(line, n)| ==> Pad(line, n)[i] == BLANK
    decreases n
  {
    if n != 0 && |line| < BUF_SIZE - 1 {
      PadFits(line + [BLANK], n - 1);
    }
  }

  lemma EditFits(line: seq<int>, k: Press)
    requires |line| < BUF_SIZE
    ensures |Edit(line, k)| < BUF_SIZE
  {
    PadFits(line, TAB_SPACE);
  }

  // What the editor promises, law by law

  /** Characters alone come out as typed, the first 127 of them. */
  lemma {:induction false} TypedPlain(keys: seq<Press>)
    requires forall i :: 0 <= i < |keys| ==> keys[i].Put?
    ensures |Line(keys)| == Min(|keys|, BUF_SIZE - 1)
    ensures forall i :: 0 <= i < |Line(keys)| ==> Line(keys)[i] == keys[i].c
  {
    if keys != [] {
      TypedPlain(keys[..|keys| - 1]);
    }
  }

  lemma LineSnoc(keys: seq<Press>, k: Press)
    ensures Line(keys + [k]) == Edit(Line(keys), k)
  {
    assert (keys + [k])[..|keys|] == keys;
  }

  /** A backspace undoes the character before it, if that one had room, and does nothing on
      an empty line. */
  lemma TypedThenErased(keys: seq<Press>, c: int)
    ensures |Line(keys)| < BUF_SIZE - 1 ==> Line(keys + [Put(c)] + [Erase]) == Line(keys)
    ensures Line(keys) == [] ==> Line(keys + [Erase]) == []
  {
    LineSnoc(keys, Put(c));
    LineSnoc(keys + [Put(c)], Erase);
    LineSnoc(keys, Erase);
  }

  /** A tab is four blanks, as far as they fit. */
  lemma TabIsFourBlanks(keys: seq<Press>)
    ensures var b := Put(BLANK); Line(keys + [Tab]) == Line(keys + [b] + [b] + [b] + [b])
  {
    var b, line := Put(BLANK), Line(keys);
    LineSnoc(keys, Tab);
    LineSnoc(keys, b);
    LineSnoc(keys + [b], b);
    LineSnoc(keys + [b] + [b], b);
    LineSnoc(keys + [b] + [b] + [b], b);
    assert Pad(line, 4) == Pad(Edit(line, b), 3);
    assert Pad(Edit(line, b), 3) == Pad(Edit(Edit(line, b), b), 2);
  }

  /** Ctrl-L forgets what was typed before it. */
  lemma {:induction false} WipeForgets(keys: seq<Press>, more: seq<Press>)
    ensures Line(keys + [Wipe] + more) == Line(more)
  {
    if more == [] {
      assert keys + [Wipe] + more == keys + [Wipe];
      LineSnoc(keys, Wipe);
    } else {
      var n := |more| - 1;
      WipeForgets(keys, more[..n]);
      assert keys + [Wipe] + more == (keys + [Wipe] + more[..n]) + [more[n]];
      LineSnoc(keys + [Wipe] + more[..n], more[n]);
    }
  }

  /** A terminal's read: none, collecting keys for a reader of `n` bytes, or finished. */
  datatype Reader = Idle | Reading(n: int, keys: seq<Press>) | Finished(n: int, keys: seq<Press>)

  datatype Ref = Ref(mods: Mods, active: nat, cur: nat, readers: seq<Reader>)

  datatype Event = Scan(code: byte) | Tick | BeginRead(n: int) | EndRead

  predicate RefShape(r: Ref) {
    && r.active < TERMINALS && r.cur < TERMINALS && |r.readers| == TERMINALS
    && forall t :: 0 <= t < TERMINALS && !r.readers[t].Idle? ==> r.readers[t].n >= 1
  }

  function Lines(reader: Reader): (r: seq<int>)
    ensures |r| < BUF_SIZE
  {
    if reader.Idle? then [] else Line(reader.keys)
  }

  /** A key reaches a reader that is collecting. */
  function Collect(reader: Reader, k: Press): Reader {
    match reader
    case Reading(n, keys) => if k.Enter? then Finished(n, keys) else Reading(n, keys + [k])
    case _ => reader
  }

  /** What the reader's buffer receives: the line cut to fit, and a newline. */
  function Delivery(line: seq<int>, n: int): seq<int>
    requires n >= 1
  {
    line[..Min(n - 1, |line|)] + [NEW_LINE]
  }

  // What a key draws

  function Chr(c: int): byte {
    if 0 <= c < 256 then c else 0
  }

  function Blanks(n: nat): (r: seq<S.Op>)
    ensures |r| == n
  {
    seq(n, i => S.Typed(BLANK))
  }

  /** On a terminal that is reading, only what changes the line is echoed. */
  function EchoLine(line: seq<int>, k: Press): seq<S.Op>
    requires |line| < BUF_SIZE
  {
    match k
    case Put(c) => if |line| < BUF_SIZE - 1 then [S.Typed(Chr(c))] else []
    case Tab => Blanks(Min(TAB_SPACE, BUF_SIZE - 1 - |line|))
    case Erase => if line == [] then [] else [S.Rubbed]
    case Wipe => [S.Wiped]
    case Enter => [S.Typed(NEW_LINE)]
    case _ => []
  }

  /** On one that is not, everything is. */
  function EchoIdle(k: Press): seq<S.Op> {
    match k
    case Put(c) => [S.Typed(Chr(c))]
    case Tab => Blanks(TAB_SPACE)
    case Erase => [S.Rubbed]
    case Wipe => [S.Wiped]
    case Enter => [S.Typed(NEW_LINE)]
    case _ => []
  }

  /** A terminal that is not reading echoes a key as one with room and something to rub out
      would. */
  lemma IdleEchoesAlike(line: seq<int>, k: Press)
    requires 0 < |line| < BUF_SIZE - TAB_SPACE
    ensures EchoIdle(k) == EchoLine(line, k)
  {
  }

  function Echoes(reader: Reader, k: Press): seq<S.Op> {
    if reader.Reading? then EchoLine(Line(reader.keys), k) else EchoIdle(k)
  }

  function ScanRef(r: Ref, code: byte): (s: Ref)
    requires RefShape(r)
    ensures RefShape(s)
  {
    var m := Shifted(r.mods, code);
    KeyRef(r, m, Meaning(m, code))
  }

  function KeyRef(r: Ref, m: Mods, k: Press): (s: Ref)
    requires RefShape(r) && (k.Show? ==> k.term < TERMINALS)
    ensures RefShape(s)
  {
    match k
    case Nothing => r.(mods := m)
    case Show(t) => r.(mods := m, active := t)
    case k => r.(mods := m, readers := r.readers[r.active := Collect(r.readers[r.active], k)])
  }

  predicate Can(r: Ref, e: Event)
    requires RefShape(r)
  {
    match e
    case BeginRead(n) => r.readers[r.cur].Idle? && 1 <= n < 0x8000_0000
    case EndRead => r.readers[r.cur].Finished?
    case _ => true
  }

  function StepRef(r: Ref, e: Event): (s: Ref)
    requires RefShape(r)
    ensures RefShape(s)
  {
    if !Can(r, e) then r
    else
      match e
      case Scan(code) => ScanRef(r, code)
      case Tick => r.(cur := (r.cur + 1) % TERMINALS)
      case BeginRead(n) => r.(readers := r.readers[r.cur := Reading(n, [])])
      case EndRead => r.(readers := r.readers[r.cur := Idle])
  }

  /** What a step delivers to a process, if anything. */
  function Output(r: Ref, e: Event): Option<seq<int>>
    requires RefShape(r)
  {
    if e.EndRead? && Can(r, e) then Some(Delivery(Line(r.readers[r.cur].keys), r.readers[r.cur].n)) else None
  }

  function RunRef(r: Ref, events: seq<Event>): (s: Ref)
    requires RefShape(r)
    ensures RefShape(s)
  {
    if events == [] then r else StepRef(RunRef(r, events[..|events| - 1]), events[|events| - 1])
  }

  // ---------------------------------------------------------------------------
  // The keys of a read, told by the events alone

  /** The keys among `events` that reach terminal `t` while it is displayed, starting with
      modifiers and display as in `r`. */
  function KeysTyped(r: Ref, events: seq<Event>, t: nat): seq<Press>
    requires RefShape(r)
  {
    if events == [] then []
    else
      var n := |events| - 1;
      var k := KeyFor(RunRef(r, events[..n]), events[n], t);
      KeysTyped(r, events[..n], t) + if k.Nothing? then [] else [k]
  }

  predicate NoEnter(keys: seq<Press>) {
    forall i :: 0 <= i < |keys| ==> !keys[i].Enter?
  }

  /** The key that event `e` gives to terminal `t`, if any. */
  function KeyFor(r: Ref, e: Event, t: nat): Press {
    match e
    case Scan(code) =>
      var k := Meaning(Shifted(r.mods, code), code);
      if r.active == t && !k.Show? then k else Nothing
    case _ => Nothing
  }

  lemma ReaderStep(r: Ref, e: Event, t: nat)
    requires RefShape(r) && t < TERMINALS && !r.readers[t].Idle?
    requires e.EndRead? && r.cur == t ==> !r.readers[t].Finished?
    ensures var k := KeyFor(r, e, t);
            StepRef(r, e).readers[t] == if k.Nothing? then r.readers[t] else Collect(r.readers[t], k)
  {
  }

  /** A read that begins on terminal `t` collects exactly the keys typed while `t` is
      displayed, in order, until the first Enter; nothing that happens on the other
      terminals or to the scheduler matters. */
  lemma {:induction false} ReadCollects(r: Ref, events: seq<Event>, t: nat, n: int)
    requires RefShape(r) && t < TERMINALS && r.readers[t] == Reading(n, [])
    requires NoEnter(KeysTyped(r, events, t))
    ensures RunRef(r, events).readers[t] == Reading(n, KeysTyped(r, events, t))
  {
    if events != [] {
      var m := |events| - 1;
      var keys := KeysTyped(r, events[..m], t);
      var more := KeysTyped(r, events, t);
      assert keys <= more;
      assert NoEnter(keys) by {
        assert forall i :: 0 <= i < |keys| ==> keys[i] == more[i];
      }
      ReadCollects(r, events[..m], t, n);
      ReaderStep(RunRef(r, events[..m]), events[m], t);
      var k := KeyFor(RunRef(r, events[..m]), events[m], t);
      assert !k.Nothing? ==> more[|keys|] == k;
    }
  }

  /** The Enter that ends it: until the reader comes to fetch it, the line stays as it was
      when Enter was pressed, whatever is typed meanwhile. */
  lemma {:induction false} ReadFinishes(r: Ref, events: seq<Event>, t: nat, n: int, keys: seq<Press>)
    requires RefShape(r) && t < TERMINALS && r.readers[t] == Finished(n, keys)
    requires forall i :: 0 <= i < |events| && events[i].EndRead? ==> RunRef(r, events[..i]).cur != t
    ensures RunRef(r, events).readers[t] == Finished(n, keys)
  {
    if events != [] {
      var m := |events| - 1;
      forall i | 0 <= i < m && events[..m][i].EndRead?
        ensures RunRef(r, events[..m][..i]).cur != t
      {
        assert events[..m][..i] == events[..i] && events[i].EndRead?;
      }
      ReadFinishes(r, events[..m], t, n, keys);
      ReaderStep(RunRef(r, events[..m]), events[m], t);
    }
  }

  /** A whole read, over any interleaving: begun on the scheduled terminal `t`, it ends when
      `t` is scheduled again after the Enter, and it delivers the line that the keys typed
      on `t` between its beginning and that Enter build: every character of it in its place,
      as many as fit with a newline behind them. */
  lemma ReadDelivers(
      n: int, typed: seq<Event>, enter: Event, after: seq<Event>,
      r0: Ref, r1: Ref, r2: Ref, r3: Ref, r4: Ref)
    requires RefShape(r0) && Can(r0, BeginRead(n)) && r1 == StepRef(r0, BeginRead(n))
    requires r2 == RunRef(r1, typed) && NoEnter(KeysTyped(r1, typed, r0.cur))
    requires r3 == StepRef(r2, enter) && KeyFor(r2, enter, r0.cur).Enter?
    requires r4 == RunRef(r3, after) && r4.cur == r0.cur
    requires forall i :: 0 <= i < |after| && after[i].EndRead? ==> RunRef(r3, after[..i]).cur != r0.cur
    ensures Can(r4, EndRead)
    ensures var line := Line(KeysTyped(r1, typed, r0.cur));
            && Output(r4, EndRead).Some?
            && var d := Output(r4, EndRead).value;
               && |d| == Min(n, |line| + 1) && d[|d| - 1] == NEW_LINE
               && (forall i :: 0 <= i < |d| - 1 ==> d[i] == line[i])
  {
    ReadEnds(n, typed, enter, after, r0, r1, r2, r3, r4);
    DeliveryFits(Line(KeysTyped(r1, typed, r0.cur)), n);
  }

  lemma ReadEnds(
      n: int, typed: seq<Event>, enter: Event, after: seq<Event>,
      r0: Ref, r1: Ref, r2: Ref, r3: Ref, r4: Ref)
    requires RefShape(r0) && Can(r0, BeginRead(n)) && r1 == StepRef(r0, BeginRead(n))
    requires r2 == RunRef(r1, typed) && NoEnter(KeysTyped(r1, typed, r0.cur))
    requires r3 == StepRef(r2, enter) && KeyFor(r2, enter, r0.cur).Enter?
    requires r4 == RunRef(r3, after) && r4.cur == r0.cur
    requires forall i :: 0 <= i < |after| && after[i].EndRead? ==> RunRef(r3, after[..i]).cur != r0.cur
    ensures Can(r4, EndRead)
    ensures Output(r4, EndRead) == Some(Delivery(Line(KeysTyped(r1, typed, r0.cur)), n))
  {
    var keys := KeysTyped(r1, typed, r0.cur);
    assert r1.readers[r0.cur] == Reading(n, []);
    ReadCollects(r1, typed, r0.cur, n);
    assert r2.readers[r0.cur] == Reading(n, keys);
    ReaderStep(r2, enter, r0.cur);
    assert r3.readers[r0.cur] == Finished(n, keys);
    ReadFinishes(r3, after, r0.cur, n, keys);
  }

  lemma DeliveryFits(line: seq<int>, n: int)
    requires n >= 1
    ensures var d := Delivery(line, n);
            && |d| == Min(n, |line| + 1) && d[|d| - 1] == NEW_LINE
            && (forall i :: 0 <= i < |d| - 1 ==> d[i] == line[i])
  {
  }

  /** What a read delivers is one line: between 1 and 128 characters, ended by its only
      newline, never longer than asked, and without the characters that the keyboard takes
      for function keys. */
  lemma DeliveryIsALine(keys: seq<Press>, n: int)
    requires n >= 1 && (forall i :: 0 <= i < |keys| ==> Typeable(keys[i]))
    ensures var d := Delivery(Line(keys), n);
            && 1 <= |d| <= Min(n, BUF_SIZE)
            && d[|d| - 1] == NEW_LINE
            && (forall i :: 0 <= i < |d| - 1 ==> 0 < d[i] < 256 && d[i] != NEW_LINE && !(F1_PRESS <= d[i] <= F3_PRESS))
  {
    LineIsClean(keys);
  }

  predicate Clean(c: int) {
    0 < c < 256 && c != NEW_LINE && !(F1_PRESS <= c <= F3_PRESS)
  }

  predicate Typeable(k: Press) {
    k.Put? ==> 32 <= k.c < 127 && Clean(k.c)
  }

  lemma {:induction false} LineIsClean(keys: seq<Press>)
    requires forall i :: 0 <= i < |keys| ==> Typeable(keys[i])
    ensures forall i :: 0 <= i < |Line(keys)| ==> Clean(Line(keys)[i])
  {
    if keys != [] {
      var before := Line(keys[..|keys| - 1]);
      LineIsClean(keys[..|keys| - 1]);
      assert Typeable(keys[|keys| - 1]);
      PadFits(before, TAB_SPACE);
      assert forall i :: 0 <= i < |before| ==> Pad(before, TAB_SPACE)[..|before|][i] == before[i];
    }
  }

  /** Every key the tables produce is one the lines above may hold. */
  lemma TablesPrintable(m: Mods, code: byte)
    requires code < NUM_SCANCODE
    ensures var c := TableOf(m)[code] as int; c == 0 || 32 <= c < 127
  {
    var k := if code < 16 then code else if code < 30 then code - 16 else if code < 44 then code - 30 else code - 44;
    assert || k == 0 || k == 1 || k == 2 || k == 3 || k == 4 || k == 5 || k == 6 || k == 7
           || k == 8 || k == 9 || k == 10 || k == 11 || k == 12 || k == 13 || k == 14 || k == 15;
  }

  lemma MeaningTypeable(m: Mods, code: byte)
    ensures Typeable(Meaning(m, code))
  {
    if code < NUM_SCANCODE {
      TablesPrintable(m, code);
    }
  }

  lemma {:induction false} KeysTypeable(r: Ref, events: seq<Event>, t: nat)
    requires RefShape(r)
    ensures forall i :: 0 <= i < |KeysTyped(r, events, t)| ==> Typeable(KeysTyped(r, events, t)[i])
  {
    if events != [] {
      var m := |events| - 1;
      KeysTypeable(r, events[..m], t);
      if events[m].Scan? {
        MeaningTypeable(Shifted(RunRef(r, events[..m]).mods, events[m].code), events[m].code);
      }
    }
  }

  predicate Lowercase(c: char) {
    'a' <= c <= 'z'
  }

  /** What the modifiers do to a key's character: Shift or Caps Lock makes a letter the
      capital one, both together still do; Caps Lock changes nothing else, Shift changes
      every other visible character. */
  lemma CharacterOf(m: Mods, code: byte)
    requires code < NUM_SCANCODE
    ensures var plain, c := PLAIN[code], TableOf(m)[code];
            var shift := m.leftShift || m.rightShift;
            && (Lowercase(plain) ==> c as int == if shift || m.caps then plain as int - 32 else plain as int)
            && (!Lowercase(plain) && !shift ==> c == plain)
            && (!Lowercase(plain) && shift ==> (c == plain <==> plain as int == 0 || plain as int == BLANK))
  {
    var k := if code < 16 then code else if code < 30 then code - 16 else if code < 44 then code - 30 else code - 44;
    assert || k == 0 || k == 1 || k == 2 || k == 3 || k == 4 || k == 5 || k == 6 || k == 7
           || k == 8 || k == 9 || k == 10 || k == 11 || k == 12 || k == 13 || k == 14 || k == 15;
  }

  /** A letter's key types that letter, unless it is Ctrl-L. */
  lemma LettersType(m: Mods, code: byte)
    requires code < NUM_SCANCODE && Lowercase(PLAIN[code]) && !(m.ctrl && code == L_PRESS)
    ensures Meaning(m, code) ==
            Put(if m.leftShift || m.rightShift || m.caps then PLAIN[code] as int - 32 else PLAIN[code] as int)
  {
    CharacterOf(m, code);
  }

  /** A key is down: it was pressed, or down before, and not released since. */
  ghost predicate Held(was: bool, events: seq<Event>, press: byte, release: byte) {
    || (was && forall i :: 0 <= i < |events| ==> events[i] != Scan(release))
    || exists i :: 0 <= i < |events| && events[i] == Scan(press)
                   && forall j :: i < j < |events| ==> events[j] != Scan(release)
  }

  lemma HeldSnoc(was: bool, events: seq<Event>, e: Event, press: byte, release: byte)
    requires press != release
    ensures Held(was, events + [e], press, release) ==
            if e == Scan(press) then true else if e == Scan(release) then false
            else Held(was, events, press, release)
  {
    var more := events + [e];
    assert forall i :: 0 <= i < |events| ==> events[i] == more[i];
    assert more[|events|] == e;
    if e != Scan(press) && e != Scan(release) {
      HeldSame(was, events, more, press, release);
    }
  }

  lemma HeldSame(was: bool, events: seq<Event>, more: seq<Event>, press: byte, release: byte)
    requires |more| == |events| + 1 && forall i :: 0 <= i < |events| ==> events[i] == more[i]
    requires more[|events|] != Scan(press) && more[|events|] != Scan(release)
    ensures Held(was, more, press, release) == Held(was, events, press, release)
  {
  }

  lemma ModsStep(r: Ref, e: Event)
    requires RefShape(r)
    ensures StepRef(r, e).mods == if e.Scan? then Shifted(r.mods, e.code) else r.mods
  {
  }

  ghost predicate ShiftsHeld(was: Mods, events: seq<Event>, m: Mods) {
    && m.leftShift == Held(was.leftShift, events, L_SHIFT_PRESS, L_SHIFT_RELEASE)
    && m.rightShift == Held(was.rightShift, events, R_SHIFT_PRESS, R_SHIFT_RELEASE)
  }

  ghost predicate OthersHeld(was: Mods, events: seq<Event>, m: Mods) {
    && m.ctrl == Held(was.ctrl, events, CTRL_PRESS, CTRL_RELEASE)
    && m.alt == Held(was.alt, events, ALT_PRESS, ALT_RELEASE)
  }

  predicate CapsCounted(was: Mods, events: seq<Event>, m: Mods) {
    m.caps == (was.caps != (multiset(events)[Scan(CAPS_PRESS)] % 2 == 1))
  }

  lemma ShiftsSnoc(was: Mods, events: seq<Event>, m: Mods, code: byte)
    requires ShiftsHeld(was, events, m)
    ensures ShiftsHeld(was, events + [Scan(code)], Shifted(m, code))
  {
    HeldSnoc(was.leftShift, events, Scan(code), L_SHIFT_PRESS, L_SHIFT_RELEASE);
    HeldSnoc(was.rightShift, events, Scan(code), R_SHIFT_PRESS, R_SHIFT_RELEASE);
  }

  lemma OthersSnoc(was: Mods, events: seq<Event>, m: Mods, code: byte)
    requires OthersHeld(was, events, m)
    ensures OthersHeld(was, events + [Scan(code)], Shifted(m, code))
  {
    HeldSnoc(was.ctrl, events, Scan(code), CTRL_PRESS, CTRL_RELEASE);
    HeldSnoc(was.alt, events, Scan(code), ALT_PRESS, ALT_RELEASE);
  }

  lemma CapsSnoc(was: Mods, events: seq<Event>, m: Mods, code: byte)
    requires CapsCounted(was, events, m)
    ensures CapsCounted(was, events + [Scan(code)], Shifted(m, code))
  {
    var caps := Scan(CAPS_PRESS);
    assert multiset(events + [Scan(code)])[caps] == multiset(events)[caps] + if code == CAPS_PRESS then 1 else 0;
  }

  lemma QuietSnoc(was: Mods, events: seq<Event>, m: Mods, e: Event)
    requires !e.Scan? && ShiftsHeld(was, events, m) && OthersHeld(was, events, m) && CapsCounted(was, events, m)
    ensures ShiftsHeld(was, events + [e], m) && OthersHeld(was, events + [e], m) && CapsCounted(was, events + [e], m)
  {
    HeldSnoc(was.leftShift, events, e, L_SHIFT_PRESS, L_SHIFT_RELEASE);
    HeldSnoc(was.rightShift, events, e, R_SHIFT_PRESS, R_SHIFT_RELEASE);
    HeldSnoc(was.ctrl, events, e, CTRL_PRESS, CTRL_RELEASE);
    HeldSnoc(was.alt, events, e, ALT_PRESS, ALT_RELEASE);
  }

  /** After any run the modifier flags are those of the keys held down, whatever else
      happened meanwhile; Caps Lock is on after an odd number of presses. */
  lemma {:induction false} ModsAreHeldKeys(r: Ref, events: seq<Event>)
    requires RefShape(r)
    ensures var m := RunRef(r, events).mods;
            ShiftsHeld(r.mods, events, m) && OthersHeld(r.mods, events, m) && CapsCounted(r.mods, events, m)
  {
    if events != [] {
      var n := |events| - 1;
      var m := RunRef(r, events[..n]).mods;
      ModsAreHeldKeys(r, events[..n]);
      ModsStep(RunRef(r, events[..n]), events[n]);
      assert events == events[..n] + [events[n]];
      if events[n].Scan? {
        ShiftsSnoc(r.mods, events[..n], m, events[n].code);
        OthersSnoc(r.mods, events[..n], m, events[n].code);
        CapsSnoc(r.mods, events[..n], m, events[n].code);
      } else {
        QuietSnoc(r.mods, events[..n], m, events[n]);
      }
    }
  }

  /** Pressed while Alt is held, F1 to F3 display terminal 0 to 2; without Alt they do not. */
  lemma FunctionKeysShow(r: Ref, events: seq<Event>, t: nat)
    requires RefShape(r) && t < TERMINALS
    ensures RunRef(r, events + [Scan(F1_PRESS + t)]).active ==
            if Held(r.mods.alt, events, ALT_PRESS, ALT_RELEASE) then t else RunRef(r, events).active
  {
    ModsAreHeldKeys(r, events);
    assert (events + [Scan(F1_PRESS + t)])[..|events|] == events;
  }

  /** The tables hold nothing for the backspace key. */
  lemma NoCharacter(m: Mods)
    ensures TableOf(m)[BACKSPACE] as int == 0
  {
  }

  /** The characters the scancode conversion may answer for a key. */
  predicate Denotes(character: int, k: Press, alt: bool) {
    match k
    case Nothing => character == INVALID || (F1_PRESS <= character <= F3_PRESS && !alt)
    case Put(c) => character == c && 32 <= c < 127 && !(F1_PRESS <= c <= F3_PRESS)
    case Tab => character == TAB
    case Erase => character == INVALID
    case Wipe => character == CTRL_L
    case Enter => character == NEW_LINE
    case Show(t) => character == F1_PRESS + t && t < TERMINALS && alt
  }

  function Erased(k: Press, reading: seq<bool>, active: nat, index: seq<int>): seq<int>
    requires active < |index| == |reading|
  {
    if k.Erase? && reading[active] && index[active] > 0 then index[active := index[active] - 1] else index
  }

  /** What the conversion itself draws. */
  function Rubs(k: Press, reading: seq<bool>, active: nat, index: seq<int>): seq<S.Op>
    requires active < |index| == |reading|
  {
    match k
    case Wipe => [S.Wiped]
    case Erase => if reading[active] && index[active] == 0 then [] else [S.Rubbed]
    case _ => []
  }

  /** What is drawn after it. */
  function Typing(ops: seq<S.Op>, k: Press): seq<S.Op> {
    if k.Wipe? || k.Erase? then [] else ops
  }

  lemma CollectLine(reader: Reader, k: Press)
    requires reader.Reading?
    ensures k.Enter? ==> Collect(reader, k) == Finished(reader.n, reader.keys)
    ensures !k.Enter? ==> Collect(reader, k).Reading? && Line(Collect(reader, k).keys) == Edit(Line(reader.keys), k)
  {
    assert (reader.keys + [k])[..|reader.keys|] == reader.keys;
  }

  // ---------------------------------------------------------------------------
  // The keyboard driver

  /** The driver's variables: the modifier flags, the displayed and the scheduled terminal,
      and each terminal's line buffer, fill index and read flag. */
  class Console {
    var caps: bool
    var leftShift: bool
    var rightShift: bool
    var shift: bool
    var ctrl: bool
    var alt: bool
    var active: nat
    var cur: nat
    const bufs: array2<int>
    var index: seq<int>
    var reading: seq<bool>

    constructor ()
      ensures fresh(bufs) && Shows(Ref(Mods(false, false, false, false, false), 0, 0, [Idle, Idle, Idle]))
    {
      caps, leftShift, rightShift, shift, ctrl, alt := false, false, false, false, false, false;
      active, cur := 0, 0;
      bufs := new int[TERMINALS, BUF_SIZE]((t, i) => 0);
      index, reading := [0, 0, 0], [false, false, false];
    }

    ghost function Modifiers(): Mods
      reads this
    {
      Mods(caps, leftShift, rightShift, ctrl, alt)
    }

    /** Every index stays inside its buffer. */
    ghost predicate Valid()
      reads this
    {
      && bufs.Length0 == TERMINALS && bufs.Length1 == BUF_SIZE
      && |index| == TERMINALS && |reading| == TERMINALS
      && active < TERMINALS && cur < TERMINALS
      && (forall t :: 0 <= t < TERMINALS ==> 0 <= index[t] <= BUF_SIZE)
      && (forall t :: 0 <= t < TERMINALS && reading[t] ==> index[t] < BUF_SIZE)
    }

    ghost predicate Holds(t: nat, line: seq<int>)
      reads this, bufs
      requires Valid() && t < TERMINALS
    {
      index[t] == |line| && forall i :: 0 <= i < |line| ==> bufs[t, i] == line[i]
    }

    ghost predicate Buffered(t: nat, reader: Reader)
      reads this, bufs
      requires Valid() && t < TERMINALS
    {
      && reading[t] == reader.Reading?
      && (reader.Reading? ==> Holds(t, Line(reader.keys)))
      && (reader.Finished? ==> Holds(t, Line(reader.keys) + [NEW_LINE]))
    }

    /** The driver is in the state that the reference machine describes. */
    ghost predicate Shows(r: Ref)
      reads this, bufs
    {
      && Valid() && RefShape(r)
      && r.mods == Modifiers() && r.active == active && r.cur == cur
      && forall t :: 0 <= t < TERMINALS ==> Buffered(t, r.readers[t])
    }

    method UpdateFlags(code: byte)
      modifies this`caps, this`leftShift, this`rightShift, this`shift, this`ctrl, this`alt
      ensures Modifiers() == Shifted(old(Modifiers()), code) && shift == (leftShift || rightShift)
    {
      if code == CAPS_PRESS { caps := !caps; }
      if code == L_SHIFT_PRESS { leftShift := true; }
      if code == R_SHIFT_PRESS { rightShift := true; }
      if code == L_SHIFT_RELEASE { leftShift := false; }
      if code == R_SHIFT_RELEASE { rightShift := false; }
      shift := leftShift || rightShift;
      if code == CTRL_PRESS { ctrl := true; }
      if code == CTRL_RELEASE { ctrl := false; }
      if code == ALT_PRESS { alt := true; }
      if code == ALT_RELEASE { alt := false; }
    }

    method Fetch(code: byte) returns (c: int)
      requires code < NUM_SCANCODE && shift == (leftShift || rightShift)
      ensures c == TableOf(Modifiers())[code] as int
    {
      if !caps && !shift {
        c := PLAIN[code] as int;
      } else if caps && !shift {
        c := CAPITAL[code] as int;
      } else {
        c := SHIFTED[code] as int;
      }
    }

    /** Conversion of a scancode: the flags, the backspace's effect on the index and the
        character, -1 for none and -2 for Ctrl-L (student-distrib/keyboard.c:169-261). It
        draws Ctrl-L and the backspace. */
    method ScancodeHandler(code: byte) returns (character: int, drawn: seq<S.Op>)
      requires Valid()
      modifies this
      ensures Valid() && Modifiers() == Shifted(old(Modifiers()), code)
      ensures active == old(active) && cur == old(cur) && reading == old(reading)
      ensures index == Erased(Meaning(Modifiers(), code), reading, active, old(index))
      ensures Denotes(character, Meaning(Modifiers(), code), alt)
      ensures drawn == Rubs(Meaning(Modifiers(), code), reading, active, old(index))
    {
      UpdateFlags(code);
      MeaningTypeable(Modifiers(), code);
      drawn := [];
      if F1_PRESS <= code <= F3_PRESS { return code, []; }
      if ctrl && code == L_PRESS { return CTRL_L, [S.Wiped]; }
      if code == BACKSPACE {
        if reading[active] {
          if index[active] == 0 { return INVALID, []; }
          index := index[active := index[active] - 1];
        }
        drawn := [S.Rubbed];
      }
      character := INVALID;
      if code == ENTER_PRESS {
        character := NEW_LINE;
      } else if code == TAB {
        character := TAB;
      } else if code < NUM_SCANCODE {
        character := Fetch(code);
        if code == BACKSPACE { NoCharacter(Modifiers()); }
        if character == 0 { return INVALID, drawn; }
      }
    }

    method Store(c: int)
      requires Valid() && index[active] < BUF_SIZE && (reading[active] ==> index[active] < BUF_SIZE - 1)
      modifies this`index, bufs
      ensures Valid()
      ensures index == old(index)[active := old(index)[active] + 1]
      ensures bufs[active, old(index)[active]] == c
      ensures forall t, i :: 0 <= t < TERMINALS && 0 <= i < BUF_SIZE && (t != active || i != old(index)[active])
                             ==> bufs[t, i] == old(bufs[t, i])
    {
      bufs[active, index[active]] := c;
      index := index[active := index[active] + 1];
    }

    /** A key applied to the line of a terminal that is reading
        (student-distrib/keyboard.c:77-110). */
    method EditLine(character: int, ghost line: seq<int>, ghost k: Press) returns (drawn: seq<S.Op>)
      requires Valid() && reading[active] && |line| < BUF_SIZE
      requires match k
               case Put(c) => Holds(active, line) && character == c && c != TAB && c != NEW_LINE && c != CTRL_L
               case Tab => Holds(active, line) && character == TAB
               case Wipe => character == CTRL_L
               case Enter => Holds(active, line) && character == NEW_LINE
               case _ => false
      modifies this`index, this`reading, bufs
      ensures Valid() && reading == if k.Enter? then old(reading)[active := false] else old(reading)
      ensures Holds(active, if k.Enter? then line + [NEW_LINE] else Edit(line, k))
      ensures drawn == Typing(EchoLine(line, k), k)
      ensures forall t :: 0 <= t < TERMINALS && t != active ==> index[t] == old(index)[t]
      ensures forall t, i :: 0 <= t < TERMINALS && t != active && 0 <= i < BUF_SIZE ==> bufs[t, i] == old(bufs[t, i])
    {
      drawn := [];
      if character == CTRL_L {
        index := index[active := 0];
        return;
      }
      if character == NEW_LINE {
        reading := reading[active := false];
        Store(character);
        return [S.Typed(NEW_LINE)];
      }
      var tabs := 0;
      ghost var padded := line;
      while index[active] < BUF_SIZE - 1 && character == TAB && tabs < TAB_SPACE
        invariant reading == old(reading) && Valid() && 0 <= tabs <= TAB_SPACE && Holds(active, padded)
        invariant character != TAB ==> padded == line && tabs == 0
        invariant |padded| < BUF_SIZE && Pad(padded, TAB_SPACE - tabs) == Pad(line, TAB_SPACE)
        invariant drawn == Blanks(tabs) && |padded| == |line| + tabs
        invariant forall t :: 0 <= t < TERMINALS && t != active ==> index[t] == old(index)[t]
        invariant forall t, i :: 0 <= t < TERMINALS && t != active && 0 <= i < BUF_SIZE ==>
                    bufs[t, i] == old(bufs[t, i])
      {
        Store(BLANK);
        drawn := drawn + [S.Typed(BLANK)];
        padded := padded + [BLANK];
        tabs := tabs + 1;
      }
      if index[active] < BUF_SIZE - 1 && character != TAB {
        Store(character);
        drawn := [S.Typed(Chr(character))];
      }
    }

    /** The echo of a key on a terminal that is not reading (student-distrib/keyboard.c:112-124). */
    method EchoOnly(character: int, ghost k: Press) returns (drawn: seq<S.Op>)
      requires Denotes(character, k, alt) && (k.Put? || k.Tab? || k.Wipe? || k.Enter?)
      ensures drawn == Typing(EchoIdle(k), k)
    {
      drawn := [];
      if character == CTRL_L { return; }
      var tabs := 0;
      while character == TAB && tabs < TAB_SPACE
        invariant 0 <= tabs <= TAB_SPACE && drawn == Blanks(tabs) && (character != TAB ==> tabs == 0)
      {
        drawn := drawn + [S.Typed(BLANK)];
        tabs := tabs + 1;
      }
      if character != TAB {
        drawn := [S.Typed(Chr(character))];
      }
    }

    /** A keyboard interrupt (student-distrib/keyboard.c:44-126): the reference machine's
        step, and what is drawn on the displayed terminal. */
    method KeyboardHandler(code: byte, ghost r: Ref) returns (drawn: seq<S.Op>)
      requires Shows(r)
      modifies this, bufs
      ensures Shows(StepRef(r, Scan(code)))
      ensures drawn == Echoes(r.readers[r.active], Meaning(Shifted(r.mods, code), code))
    {
      var character, rubbed := ScancodeHandler(code);
      var typed := HandleKey(character, r, Meaning(Modifiers(), code));
      drawn := rubbed + typed;
    }

    /** What the interrupt does with the converted character
        (student-distrib/keyboard.c:50-126). */
    method HandleKey(character: int, ghost r: Ref, ghost k: Press) returns (drawn: seq<S.Op>)
      requires Valid() && RefShape(r) && r.active == active && r.cur == cur
      requires Denotes(character, k, alt)
      requires forall t :: 0 <= t < TERMINALS && t != active ==> Buffered(t, r.readers[t])
      requires k.Erase? && reading[active] ==> Holds(active, Edit(Lines(r.readers[active]), k))
      requires reading[active] == r.readers[active].Reading?
      requires !(k.Erase? && reading[active]) ==> Buffered(active, r.readers[active])
      modifies this, bufs
      ensures Shows(KeyRef(r, old(Modifiers()), k))
      ensures drawn == Typing(Echoes(r.readers[r.active], k), k)
    {
      drawn := [];
      if character == INVALID { return; }
      if F1_PRESS <= character <= F3_PRESS {
        if alt { active := character - F1_PRESS; }
        return;
      }
      if reading[active] {
        drawn := EditRead(character, r, k);
      } else {
        drawn := EchoOnly(character, k);
      }
    }

    /** The same on a terminal that is reading: its reader collects the key. */
    method EditRead(character: int, ghost r: Ref, ghost k: Press) returns (drawn: seq<S.Op>)
      requires Valid() && RefShape(r) && r.active == active && r.cur == cur
      requires Denotes(character, k, alt) && (k.Put? || k.Tab? || k.Wipe? || k.Enter?)
      requires reading[active] && forall t :: 0 <= t < TERMINALS ==> Buffered(t, r.readers[t])
      modifies this`index, this`reading, bufs
      ensures Shows(KeyRef(r, Modifiers(), k))
      ensures drawn == Typing(EchoLine(Lines(r.readers[active]), k), k)
    {
      drawn := EditLine(character, Lines(r.readers[active]), k);
      CollectLine(r.readers[active], k);
    }

    /** A read begins on the scheduled terminal (student-distrib/keyboard.c:289-303). */
    method BeginRead(n: int, ghost r: Ref)
      requires Shows(r) && Can(r, Event.BeginRead(n))
      modifies this
      ensures Shows(StepRef(r, Event.BeginRead(n)))
    {
      reading := reading[cur := true];
      index := index[cur := 0];
    }

    /** The read's end, once the scheduled terminal's read flag is clear: the line is copied
        out, cut to `n` bytes (student-distrib/keyboard.c:304-313). */
    method EndRead(n: int, ghost r: Ref) returns (copied: seq<int>)
      requires Shows(r) && Can(r, Event.EndRead) && r.readers[cur].n == n
      modifies this
      ensures Shows(StepRef(r, Event.EndRead)) && Output(r, Event.EndRead) == Some(copied)
      ensures var line := Line(r.readers[cur].keys);
              && |copied| == Min(n, |line| + 1) && copied[|copied| - 1] == NEW_LINE
              && (forall i :: 0 <= i < |copied| - 1 ==> copied[i] == line[i])
    {
      ghost var line := Line(r.readers[cur].keys);
      var end := if n < index[cur] then n else index[cur];
      copied := [];
      var i := 0;
      while i < end - 1
        invariant 0 <= i <= end - 1 && copied == line[..i]
      {
        copied := copied + [bufs[cur, i]];
        i := i + 1;
      }
      copied := copied + [NEW_LINE];
    }
 
    /** A timer tick, as far as the terminals see it (student-distrib/scheduling.c:188-201). */
    method Tick(ghost r: Ref)
      requires Shows(r)
      modifies this`cur
      ensures Shows(StepRef(r, Event.Tick))
    {
      cur := (cur + 1) % TERMINALS;
    }

    /** One event; `wants` is the byte count each waiting reader asked for. */
    method Handle(e: Event, wants: seq<int>, ghost r: Ref) returns (output: Option<seq<int>>, wanted: seq<int>)
      requires Shows(r) && Can(r, e) && Wants(r, wants)
      modifies this, bufs
      ensures Shows(StepRef(r, e)) && Wants(StepRef(r, e), wanted) && output == Output(r, e)
    {
      WantsStep(r, wants, e);
      output, wanted := None, wants;
      match e {
        case Scan(code) => var _ := KeyboardHandler(code, r);
        case Tick => Tick(r);
        case BeginRead(n) =>
          wanted := wants[cur := n];
          BeginRead(n, r);
        case EndRead =>
          var copied := EndRead(wants[cur], r);
          output := Some(copied);
      }
    }

    /** Any interleaving of key presses, ticks and reads: the driver follows the reference
        machine throughout, and every finished read gets exactly what the reference
        machine delivers. */
    method Drive(events: seq<Event>, ghost trace: seq<Ref>) returns (outputs: seq<Option<seq<int>>>)
      requires Trace(trace, events) && Shows(trace[0]) && Wants(trace[0], [0, 0, 0])
      modifies this, bufs
      ensures Shows(trace[|events|]) && |outputs| == |events|
      ensures forall i :: 0 <= i < |events| ==> outputs[i] == Output(trace[i], events[i])
    {
      outputs := [];
      var wants := [0, 0, 0];
      while |outputs| < |events|
        invariant |outputs| <= |events| && Shows(trace[|outputs|]) && Wants(trace[|outputs|], wants)
        invariant forall i :: 0 <= i < |outputs| ==> outputs[i] == Output(trace[i], events[i])
      {
        ghost var now := trace[|outputs|];
        var output, wanted := Handle(events[|outputs|], wants, now);
        outputs, wants := outputs + [output], wanted;
      }
    }
  }

  /** The states that a sequence of events runs through, each event possible in its state. */
  predicate Trace(trace: seq<Ref>, events: seq<Event>) {
    && |trace| == |events| + 1 && (forall i :: 0 <= i < |trace| ==> RefShape(trace[i]))
    && forall i :: 0 <= i < |events| ==> Can(trace[i], events[i]) && trace[i + 1] == StepRef(trace[i], events[i])
  }

  /** They are the states of the run. */
  lemma {:induction false} TraceIsRun(trace: seq<Ref>, events: seq<Event>, k: nat)
    requires Trace(trace, events) && k <= |events|
    ensures trace[k] == RunRef(trace[0], events[..k])
  {
    if k > 0 {
      TraceIsRun(trace, events, k - 1);
      RunSnoc(trace[0], events, k - 1);
    }
  }

  /** Every waiting reader asked for the count that `wants` gives; with no reader waiting
      any counts will do. */
  predicate Wants(r: Ref, wants: seq<int>) {
    && RefShape(r) && |wants| == TERMINALS
    && forall t :: 0 <= t < TERMINALS && !r.readers[t].Idle? ==> r.readers[t].n == wants[t]
  }

  lemma WantsStep(r: Ref, wants: seq<int>, e: Event)
    requires Wants(r, wants) && Can(r, e)
    ensures Wants(StepRef(r, e), if e.BeginRead? then wants[r.cur := e.n] else wants)
  {
  }

  lemma RunSnoc(r: Ref, events: seq<Event>, k: nat)
    requires RefShape(r) && k < |events|
    ensures RunRef(r, events[..k + 1]) == StepRef(RunRef(r, events[..k]), events[k])
  {
    assert events[..k + 1][..k] == events[..k];
  }
}
