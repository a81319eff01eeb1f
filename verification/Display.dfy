/** Three terminals on one display: the displayed terminal's screen is video memory, the
    others' are backup pages (student-distrib/lib.c, paging.c, scheduling.c). */
module Display {
  import opened Base
  import opened Screen

  // ---------------------------------------------------------------------------
  // The reference: three independent screens

  datatype View = View(screens: seq<Screen>, active: nat, cur: nat)

  predicate ViewOk(v: View) {
    && |v.screens| == TERMINALS && v.active < TERMINALS && v.cur < TERMINALS
    && forall t :: 0 <= t < TERMINALS ==> ScreenOk(v.screens[t])
  }

  /** What reaches the screens: characters printed by the scheduled process, keys echoed,
      rubbed out or cleared on the displayed terminal, a change of the displayed terminal
      and a timer tick. */
  datatype Event = Print(c: byte) | Echo(c: byte) | Erase | Wipe | Show(term: nat) | Tick

  function OpOf(e: Event): Op
    requires e.Print? || e.Echo? || e.Erase? || e.Wipe?
  {
    match e
    case Print(c) => Typed(c)
    case Echo(c) => Typed(c)
    case Erase => Rubbed
    case Wipe => Wiped
  }

  /** The terminal whose screen an event changes, if any: printing goes to the scheduled
      one, everything else to the displayed one. */
  function Target(v: View, e: Event): Option<nat> {
    match e
    case Print(_) => Some(v.cur)
    case Echo(_) => Some(v.active)
    case Erase => Some(v.active)
    case Wipe => Some(v.active)
    case _ => None
  }

  function Draw(v: View, t: nat, op: Op): (r: View)
    requires ViewOk(v) && t < TERMINALS
    ensures ViewOk(r)
  {
    v.(screens := v.screens[t := Apply(v.screens[t], op)])
  }

  function StepView(v: View, e: Event): (r: View)
    requires ViewOk(v)
    ensures ViewOk(r)
  {
    match e
    case Show(t) => if t < TERMINALS then v.(active := t) else v
    case Tick => v.(cur := (v.cur + 1) % TERMINALS)
    case _ => Draw(v, Target(v, e).value, OpOf(e))
  }

  function RunView(v: View, events: seq<Event>): (r: View)
    requires ViewOk(v)
    ensures ViewOk(r)
  {
    if events == [] then v else StepView(RunView(v, events[..|events| - 1]), events[|events| - 1])
  }

  /** The operations among `events` that concern terminal `t`. */
  function OpsFor(v: View, events: seq<Event>, t: nat): seq<Op>
    requires ViewOk(v)
  {
    if events == [] then []
    else
      var n := |events| - 1;
      OpsFor(v, events[..n], t) +
      if Target(RunView(v, events[..n]), events[n]) == Some(t) then [OpOf(events[n])] else []
  }

  lemma StepScreen(v: View, e: Event, t: nat)
    requires ViewOk(v) && t < TERMINALS
    ensures StepView(v, e).screens[t] == if Target(v, e) == Some(t) then Apply(v.screens[t], OpOf(e)) else v.screens[t]
  {
  }

  lemma ApplySnoc(s: Screen, ops: seq<Op>, op: Op)
    requires ScreenOk(s)
    ensures ApplyAll(s, ops + [op]) == Apply(ApplyAll(s, ops), op)
  {
    assert (ops + [op])[..|ops|] == ops;
  }

  /** Whatever happens on the other terminals, a screen holds the result of the operations
      that concerned its own terminal. */
  lemma {:induction false} ScreensIndependent(v: View, events: seq<Event>, t: nat)
    requires ViewOk(v) && t < TERMINALS
    ensures RunView(v, events).screens[t] == ApplyAll(v.screens[t], OpsFor(v, events, t))
  {
    if events != [] {
      var n := |events| - 1;
      var before := RunView(v, events[..n]);
      var ops := OpsFor(v, events[..n], t);
      ScreensIndependent(v, events[..n], t);
      StepScreen(before, events[n], t);
      if Target(before, events[n]) == Some(t) {
        ApplySnoc(v.screens[t], ops, OpOf(events[n]));
      } else {
        assert OpsFor(v, events, t) == ops;
      }
    }
  }

  /** Over every interleaving, each terminal that once shows a text goes on showing it,
      displayed or not. */
  lemma EveryTerminalShowsItsText(v: View, events: seq<Event>, t: nat, text: Text)
    requires ViewOk(v) && t < TERMINALS && Shows(v.screens[t], text)
    ensures Shows(RunView(v, events).screens[t], EditAll(text, OpsFor(v, events, t)))
  {
    ScreensIndependent(v, events, t);
    ScreenFollowsText(v.screens[t], text, OpsFor(v, events, t));
  }

  /** What is printed on terminal `t`: the bytes printed while the ticks have the scheduler
      there. */
  function PrintedOn(cur: nat, events: seq<Event>, t: nat): seq<byte> {
    if events == [] then []
    else
      var n := |events| - 1;
      PrintedOn(cur, events[..n], t) + if events[n].Print? && Turn(cur, events[..n]) == t then [events[n].c] else []
  }

  lemma TicksSnoc(events: seq<Event>, e: Event)
    ensures multiset(events + [e])[Tick] == multiset(events)[Tick] + if e == Tick then 1 else 0
  {
  }

  lemma StepCur(v: View, e: Event)
    requires ViewOk(v)
    ensures StepView(v, e).cur == if e == Tick then (v.cur + 1) % TERMINALS else v.cur
  {
  }

  /** Whose turn it is after some events. */
  function Turn(c: nat, events: seq<Event>): nat {
    (c + multiset(events)[Tick]) % TERMINALS
  }

  lemma TurnSnoc(c: nat, events: seq<Event>, e: Event)
    ensures Turn(c, events + [e]) == if e == Tick then (Turn(c, events) + 1) % TERMINALS else Turn(c, events)
  {
    TicksSnoc(events, e);
  }

  lemma {:induction false} TicksSchedule(v: View, events: seq<Event>)
    requires ViewOk(v)
    ensures RunView(v, events).cur == Turn(v.cur, events)
  {
    if events != [] {
      var before, e := events[..|events| - 1], events[|events| - 1];
      assert events == before + [e];
      TicksSchedule(v, before);
      StepCur(RunView(v, before), e);
      TurnSnoc(v.cur, before, e);
    }
  }

  lemma StreamConcat(a: seq<byte>, b: seq<byte>)
    ensures Stream(a + b) == Stream(a) + Stream(b)
  {
  }

  lemma OneOp(v: View, e: Event, t: nat)
    requires e.Print? || e.Show? || e.Tick?
    ensures (if Target(v, e) == Some(t) then [OpOf(e)] else []) == Stream(if e.Print? && v.cur == t then [e.c] else [])
  {
  }

  lemma {:induction false} PrintedOps(v: View, events: seq<Event>, t: nat)
    requires ViewOk(v) && forall i :: 0 <= i < |events| ==> events[i].Print? || events[i].Show? || events[i].Tick?
    ensures OpsFor(v, events, t) == Stream(PrintedOn(v.cur, events, t))
  {
    if events != [] {
      var n := |events| - 1;
      var e, before := events[n], RunView(v, events[..n]);
      PrintedOps(v, events[..n], t);
      TicksSchedule(v, events[..n]);
      OneOp(before, e, t);
      StreamConcat(PrintedOn(v.cur, events[..n], t), if e.Print? && before.cur == t then [e.c] else []);
    }
  }

  /** Three programs print on three empty screens, in any interleaving and whatever is
      displayed: each screen shows the last 25 rows of its own terminal's output, wrapped. */
  lemma EachShowsItsOutput(v: View, events: seq<Event>, t: nat)
    requires ViewOk(v) && t < TERMINALS && Shows(v.screens[t], BLANK)
    requires forall i :: 0 <= i < |events| ==> events[i].Print? || events[i].Show? || events[i].Tick?
    ensures ShowsLast(RunView(v, events).screens[t], Wrapped(PrintedOn(v.cur, events, t)))
  {
    var printed := PrintedOn(v.cur, events, t);
    PrintedOps(v, events, t);
    EveryTerminalShowsItsText(v, events, t, BLANK);
    TypedIsWrapped(printed);
    TailShowsLast(RunView(v, events).screens[t], EditAll(BLANK, Stream(printed)));
  }

  // ---------------------------------------------------------------------------
  // The display driver

  /** Video memory is page 0, the backup of terminal `t` page `t + 1`; `hardware` is the
      position programmed into the cursor registers. */
  class Console {
    const mem: array2<byte>
    var xs: seq<int>
    var ys: seq<int>
    var active: nat
    var cur: nat
    var hardware: int

    /** Video memory at power-on holds anything. */
    constructor (video: seq<seq<byte>>)
      requires |video| == 4 && forall p :: 0 <= p < 4 ==> |video[p]| == PAGE
      ensures fresh(mem) && Shape() && forall p :: 0 <= p < 4 ==> Holds(p, video[p])
    {
      mem := new byte[4, PAGE]((p, i) requires 0 <= p < 4 && 0 <= i < PAGE => video[p][i]);
      xs, ys, active, cur, hardware := [0, 0, 0], [0, 0, 0], 0, 0, 0;
    }

    ghost predicate Shape()
      reads this
    {
      && mem.Length0 == 4 && mem.Length1 == PAGE && |xs| == TERMINALS && |ys| == TERMINALS
      && active < TERMINALS && cur < TERMINALS
    }

    ghost predicate Holds(p: nat, page: seq<byte>)
      reads mem
    {
      && p < mem.Length0 && mem.Length1 == PAGE == |page|
      && forall i :: 0 <= i < PAGE ==> mem[p, i] == page[i]
    }

    ghost function PageOf(t: nat): nat
      reads this`active
    {
      if t == active then 0 else t + 1
    }

    /** The driver is in the state that the three screens of `v` describe: the displayed
        one in video memory, the others in their backup pages, and the hardware cursor at
        the displayed terminal's. */
    ghost predicate Depicts(v: View)
      reads this, mem
    {
      && Shape() && ViewOk(v) && v.active == active && v.cur == cur
      && hardware == Position(v.screens[active])
      && forall t :: 0 <= t < TERMINALS ==>
           xs[t] == v.screens[t].x && ys[t] == v.screens[t].y && Holds(PageOf(t), v.screens[t].page)
    }

    method UpdateCursor(t: nat)
      requires Shape() && t < TERMINALS
      modifies this`hardware
      ensures hardware == ys[t] * NUM_COLS + xs[t]
    {
      hardware := ys[t] * NUM_COLS + xs[t];
    }

    /** The loop of a newline on page `p` (student-distrib/lib.c:304-305). */
    method BlankRow(p: nat, ghost page: seq<byte>)
      requires Shape() && Holds(p, page) && 0 <= xs[cur] < NUM_COLS && 0 <= ys[cur] < NUM_ROWS
      modifies mem, this`xs
      ensures Holds(p, NewLined(page, ys[cur] * NUM_COLS + old(xs)[cur] + 1, NUM_COLS * ys[cur] + NUM_COLS))
      ensures forall q, i :: 0 <= q < 4 && q != p && 0 <= i < PAGE ==> mem[q, i] == old(mem[q, i])
      ensures |xs| == TERMINALS && forall u :: 0 <= u < TERMINALS && u != cur ==> xs[u] == old(xs)[u]
    {
      ghost var first := ys[cur] * NUM_COLS + xs[cur] + 1;
      var more := xs[cur] < NUM_COLS;
      xs := xs[cur := xs[cur] + 1];
      while more
        invariant Shape() && 1 <= xs[cur] && more == (xs[cur] <= NUM_COLS) && xs[cur] <= NUM_COLS + 1
        invariant first <= ys[cur] * NUM_COLS + xs[cur]
        invariant forall u :: 0 <= u < TERMINALS && u != cur ==> xs[u] == old(xs)[u]
        invariant Holds(p, NewLined(page, first, ys[cur] * NUM_COLS + xs[cur] - 1))
        invariant forall q, i :: 0 <= q < 4 && q != p && 0 <= i < PAGE ==> mem[q, i] == old(mem[q, i])
        decreases NUM_COLS + 1 - xs[cur]
      {
        mem[p, 2 * (NUM_COLS * ys[cur] + xs[cur])] := 0;
        more := xs[cur] < NUM_COLS;
        xs := xs[cur := xs[cur] + 1];
      }
    }

    /** Row `i` becomes a copy of the row below it (student-distrib/lib.c:136-140). */
    method LiftRow(p: nat, i: nat, ghost page: seq<byte>)
      requires Shape() && i < NUM_ROWS - 1 && |page| == PAGE && Holds(p, Lifted(page, NUM_COLS * i))
      modifies mem
      ensures Holds(p, Lifted(page, NUM_COLS * i + NUM_COLS))
      ensures forall q, i :: 0 <= q < 4 && q != p && 0 <= i < PAGE ==> mem[q, i] == old(mem[q, i])
    {
      var j := 0;
      while j < NUM_COLS
        invariant 0 <= j <= NUM_COLS && Holds(p, Lifted(page, NUM_COLS * i + j))
        invariant forall q, i :: 0 <= q < 4 && q != p && 0 <= i < PAGE ==> mem[q, i] == old(mem[q, i])
      {
        var offset := i * NUM_COLS + j;
        mem[p, 2 * offset] := mem[p, 2 * (offset + NUM_COLS)];
        mem[p, 2 * offset + 1] := ATTRIB;
        j := j + 1;
      }
    }

    /** Scrolling page `p` of the scheduled terminal (student-distrib/lib.c:123-150). */
    method ScrollPage(p: nat, ghost page: seq<byte>)
      requires Shape() && Holds(p, page)
      modifies mem, this`xs, this`ys
      ensures Holds(p, Scrolled(page))
      ensures forall q, i :: 0 <= q < 4 && q != p && 0 <= i < PAGE ==> mem[q, i] == old(mem[q, i])
      ensures xs == old(xs)[cur := 0] && ys == old(ys)[cur := NUM_ROWS - 1]
    {
      var i := 0;
      while i < NUM_ROWS - 1
        invariant 0 <= i <= NUM_ROWS - 1 && xs == old(xs) && ys == old(ys)
        invariant Holds(p, Lifted(page, NUM_COLS * i))
        invariant forall q, i :: 0 <= q < 4 && q != p && 0 <= i < PAGE ==> mem[q, i] == old(mem[q, i])
      {
        LiftRow(p, i, page);
        i := i + 1;
      }
      var j := 0;
      while j < NUM_COLS
        invariant 0 <= j <= NUM_COLS && xs == old(xs) && ys == old(ys)
        invariant Holds(p, Lifted(page, NUM_COLS * i + j))
        invariant forall q, i :: 0 <= q < 4 && q != p && 0 <= i < PAGE ==> mem[q, i] == old(mem[q, i])
      {
        var offset := i * NUM_COLS + j;
        mem[p, 2 * offset] := 0;
        mem[p, 2 * offset + 1] := ATTRIB;
        j := j + 1;
      }
      xs, ys := xs[cur := 0], ys[cur := NUM_ROWS - 1];
    }

    /** The advance of a terminal's cursor past a printed character
        (student-distrib/lib.c:311-316). */
    method Advance(t: nat)
      requires Shape() && t < TERMINALS && 0 <= xs[t] < NUM_COLS && 0 <= ys[t] < NUM_ROWS
      modifies this`xs, this`ys
      ensures xs == old(xs)[t := if old(xs)[t] + 1 == NUM_COLS then 0 else old(xs)[t] + 1]
      ensures ys == old(ys)[t := if old(xs)[t] + 1 == NUM_COLS then old(ys)[t] + 1 else old(ys)[t]]
    {
      xs := xs[t := (xs[t] + 1) % NUM_COLS];
      ys := ys[t := (ys[t] + xs[t] / NUM_COLS) % NUM_ROWS];
      if xs[t] == 0 {
        ys := ys[t := ys[t] + 1];
      }
    }

    /** A character or a newline on page `p`, up to the scrolling
        (student-distrib/lib.c:303-317). */
    method Write(c: byte, p: nat, ghost s: Screen)
      requires Shape() && ScreenOk(s) && Holds(p, s.page) && xs[cur] == s.x && ys[cur] == s.y
      modifies mem, this`xs, this`ys
      ensures Shape() && Holds(p, Unscrolled(s, c).page)
      ensures xs[cur] == Unscrolled(s, c).x && ys[cur] == Unscrolled(s, c).y
      ensures forall q, i :: 0 <= q < 4 && q != p && 0 <= i < PAGE ==> mem[q, i] == old(mem[q, i])
      ensures forall u :: 0 <= u < TERMINALS && u != cur ==> xs[u] == old(xs)[u] && ys[u] == old(ys)[u]
    {
      if IsNewline(c) {
        BlankRow(p, s.page);
        ys := ys[cur := ys[cur] + 1];
        xs := xs[cur := 0];
      } else {
        mem[p, 2 * (NUM_COLS * ys[cur] + xs[cur])] := c;
        mem[p, 2 * (NUM_COLS * ys[cur] + xs[cur]) + 1] := ATTRIB;
        Advance(cur);
      }
    }

    /** Printing by the scheduled process: on video memory if its terminal is displayed,
        else on its backup page (student-distrib/lib.c:296-323). */
    method Putc(c: byte, ghost v: View)
      requires Depicts(v)
      modifies this`xs, this`ys, this`hardware, mem
      ensures Depicts(StepView(v, Print(c)))
    {
      var p := if cur == active then 0 else cur + 1;
      ghost var s := v.screens[cur];
      Write(c, p, s);
      if ys[cur] == NUM_ROWS {
        ScrollPage(p, Unscrolled(s, c).page);
      }
      if cur == active {
        UpdateCursor(cur);
      }
    }

    /** A newline on the displayed terminal, in video memory and in its own backup page
        (student-distrib/lib.c:479-484). */
    method BlankRowDirect(ghost page: seq<byte>)
      requires Shape() && Holds(0, page) && 0 <= xs[active] < NUM_COLS && 0 <= ys[active] < NUM_ROWS
      modifies mem, this`xs
      ensures Holds(0, NewLined(page, ys[active] * NUM_COLS + old(xs)[active] + 1, NUM_COLS * ys[active] + NUM_COLS))
      ensures forall q, i :: 0 < q < 4 && q != active + 1 && 0 <= i < PAGE ==> mem[q, i] == old(mem[q, i])
      ensures |xs| == TERMINALS && forall u :: 0 <= u < TERMINALS && u != active ==> xs[u] == old(xs)[u]
    {
      ghost var first := ys[active] * NUM_COLS + xs[active] + 1;
      var more := xs[active] < NUM_COLS;
      xs := xs[active := xs[active] + 1];
      while more
        invariant Shape() && 1 <= xs[active] && more == (xs[active] <= NUM_COLS) && xs[active] <= NUM_COLS + 1
        invariant first <= ys[active] * NUM_COLS + xs[active]
        invariant forall u :: 0 <= u < TERMINALS && u != active ==> xs[u] == old(xs)[u]
        invariant Holds(0, NewLined(page, first, ys[active] * NUM_COLS + xs[active] - 1))
        invariant forall q, i :: 0 < q < 4 && q != active + 1 && 0 <= i < PAGE ==> mem[q, i] == old(mem[q, i])
        decreases NUM_COLS + 1 - xs[active]
      {
        var cell := NUM_COLS * ys[active] + xs[active];
        mem[0, 2 * cell] := 0;
        mem[active + 1, 2 * cell] := 0;
        more := xs[active] < NUM_COLS;
        xs := xs[active := xs[active] + 1];
      }
    }

    method LiftRowDirect(i: nat, ghost page: seq<byte>)
      requires Shape() && i < NUM_ROWS - 1 && |page| == PAGE && Holds(0, Lifted(page, NUM_COLS * i))
      modifies mem
      ensures Holds(0, Lifted(page, NUM_COLS * i + NUM_COLS))
      ensures forall q, i :: 0 < q < 4 && q != active + 1 && 0 <= i < PAGE ==> mem[q, i] == old(mem[q, i])
    {
      var j := 0;
      while j < NUM_COLS
        invariant 0 <= j <= NUM_COLS && Holds(0, Lifted(page, NUM_COLS * i + j))
        invariant forall q, i :: 0 < q < 4 && q != active + 1 && 0 <= i < PAGE ==> mem[q, i] == old(mem[q, i])
      {
        var offset := i * NUM_COLS + j;
        mem[0, 2 * offset] := mem[0, 2 * (offset + NUM_COLS)];
        mem[0, 2 * offset + 1] := ATTRIB;
        mem[active + 1, 2 * offset] := mem[0, 2 * (offset + NUM_COLS)];
        mem[active + 1, 2 * offset + 1] := ATTRIB;
        j := j + 1;
      }
    }

    /** A byte of video memory by its offset, which may run into the page after it. */
    method Peek(offset: nat) returns (b: byte)
      requires Shape() && offset < 2 * PAGE
    {
      if offset < PAGE {
        b := mem[0, offset];
      } else {
        b := mem[1, offset - PAGE];
      }
    }

    /** Scrolling the displayed terminal. The last row of its backup page is filled from
        beyond the end of the screen; that page is not shown before it is overwritten
        (student-distrib/lib.c:515-538). */
    method ScrollDirect(ghost page: seq<byte>)
      requires Shape() && Holds(0, page)
      modifies mem, this`xs, this`ys
      ensures Holds(0, Scrolled(page))
      ensures forall q, i :: 0 < q < 4 && q != active + 1 && 0 <= i < PAGE ==> mem[q, i] == old(mem[q, i])
      ensures xs == old(xs)[active := 0] && ys == old(ys)[active := NUM_ROWS - 1]
    {
      var i := 0;
      while i < NUM_ROWS - 1
        invariant 0 <= i <= NUM_ROWS - 1 && xs == old(xs) && ys == old(ys)
        invariant Holds(0, Lifted(page, NUM_COLS * i))
        invariant forall q, i :: 0 < q < 4 && q != active + 1 && 0 <= i < PAGE ==> mem[q, i] == old(mem[q, i])
      {
        LiftRowDirect(i, page);
        i := i + 1;
      }
      var j := 0;
      while j < NUM_COLS
        invariant 0 <= j <= NUM_COLS && xs == old(xs) && ys == old(ys)
        invariant Holds(0, Lifted(page, NUM_COLS * i + j))
        invariant forall q, i :: 0 < q < 4 && q != active + 1 && 0 <= i < PAGE ==> mem[q, i] == old(mem[q, i])
      {
        var offset := i * NUM_COLS + j;
        mem[0, 2 * offset] := 0;
        mem[0, 2 * offset + 1] := ATTRIB;
        var beyond := Peek(2 * (offset + NUM_COLS));
        mem[active + 1, 2 * offset] := beyond;
        mem[active + 1, 2 * offset + 1] := ATTRIB;
        j := j + 1;
      }
      xs, ys := xs[active := 0], ys[active := NUM_ROWS - 1];
    }

    method WriteDirect(c: byte, ghost s: Screen)
      requires Shape() && ScreenOk(s) && Holds(0, s.page) && xs[active] == s.x && ys[active] == s.y
      modifies mem, this`xs, this`ys
      ensures Shape() && Holds(0, Unscrolled(s, c).page)
      ensures xs[active] == Unscrolled(s, c).x && ys[active] == Unscrolled(s, c).y
      ensures forall q, i :: 0 < q < 4 && q != active + 1 && 0 <= i < PAGE ==> mem[q, i] == old(mem[q, i])
      ensures forall u :: 0 <= u < TERMINALS && u != active ==> xs[u] == old(xs)[u] && ys[u] == old(ys)[u]
    {
      if IsNewline(c) {
        BlankRowDirect(s.page);
        ys := ys[active := ys[active] + 1];
        xs := xs[active := 0];
      } else {
        var cell := NUM_COLS * ys[active] + xs[active];
        mem[0, 2 * cell] := c;
        mem[0, 2 * cell + 1] := ATTRIB;
        mem[active + 1, 2 * cell] := c;
        mem[active + 1, 2 * cell + 1] := ATTRIB;
        Advance(active);
      }
    }

    /** Echoing a key: on the displayed terminal, whichever is scheduled
        (student-distrib/lib.c:477-504). */
    method PutcDirect(c: byte, ghost v: View)
      requires Depicts(v)
      modifies this`xs, this`ys, this`hardware, mem
      ensures Depicts(StepView(v, Echo(c)))
    {
      ghost var s := v.screens[active];
      WriteDirect(c, s);
      if ys[active] == NUM_ROWS {
        ScrollDirect(Unscrolled(s, c).page);
      }
      UpdateCursor(active);
    }

    /** `terminal_write` (student-distrib/keyboard.c:325-340): every byte but the NULs is
        printed; `buf` is what the caller's buffer holds from its start. */
    method TerminalWrite(fd: int, buf: seq<byte>, nbytes: int, ghost v: View) returns (ret: int)
      requires Depicts(v) && nbytes <= |buf|
      modifies this`xs, this`ys, this`hardware, mem
      ensures nbytes < 0 || fd != 1 ==> ret == -1 && Depicts(v)
      ensures nbytes >= 0 && fd == 1 ==> ret == nbytes && Depicts(RunView(v, Prints(buf[..nbytes])))
    {
      if nbytes < 0 || fd != 1 { return -1; }
      var i := 0;
      ghost var now := v;
      while i < nbytes
        invariant 0 <= i <= nbytes && now == RunView(v, Prints(buf[..i])) && Depicts(now)
      {
        PrintsSnoc(v, buf, i);
        if buf[i] != 0 {
          Putc(buf[i], now);
          now := StepView(now, Print(buf[i]));
        }
        i := i + 1;
      }
      return nbytes;
    }

    method CopyPage(from: nat, to: nat, ghost page: seq<byte>)
      requires Shape() && from < 4 && to < 4 && from != to && Holds(from, page)
      modifies mem
      ensures Holds(to, page) && forall q, i :: 0 <= q < 4 && q != to && 0 <= i < PAGE ==> mem[q, i] == old(mem[q, i])
    {
      var i := 0;
      while i < PAGE
        invariant 0 <= i <= PAGE
        invariant forall k :: 0 <= k < i ==> mem[to, k] == page[k]
        invariant forall q, k :: 0 <= q < 4 && q != to && 0 <= k < PAGE ==> mem[q, k] == old(mem[q, k])
      {
        mem[to, i] := mem[from, i];
        i := i + 1;
      }
    }

    /** Displaying another terminal changes no logical screen
        (student-distrib/scheduling.c:52-61, student-distrib/paging.c:151-165). */
    method SwitchTerminal(t: nat, ghost v: View)
      requires Depicts(v) && t < TERMINALS
      modifies this`active, this`hardware, mem
      ensures Depicts(StepView(v, Show(t)))
    {
      CopyPage(0, active + 1, v.screens[active].page);
      CopyPage(t + 1, 0, v.screens[t].page);
      active := t;
      UpdateCursor(t);
    }

    method Tick(ghost v: View)
      requires Depicts(v)
      modifies this`cur
      ensures Depicts(StepView(v, Event.Tick))
    {
      cur := (cur + 1) % TERMINALS;
    }

    /** The loop that clears a page: video memory's (student-distrib/lib.c:31-39) or a
        backup's (student-distrib/scheduling.c:150-156). */
    method ClearPage(p: nat, ghost page: seq<byte>)
      requires Shape() && p < 4 && Holds(p, page)
      modifies mem
      ensures Holds(p, Cleared(page))
      ensures forall q, k :: 0 <= q < 4 && q != p && 0 <= k < PAGE ==> mem[q, k] == old(mem[q, k])
    {
      var i := 0;
      while i < CELLS
        invariant 0 <= i <= CELLS
        invariant forall k :: 0 <= k < PAGE ==> mem[p, k] == if k < 2 * i then Cleared(page)[k] else page[k]
        invariant forall q, k :: 0 <= q < 4 && q != p && 0 <= k < PAGE ==> mem[q, k] == old(mem[q, k])
      {
        if i % NUM_COLS == 0 {
          mem[p, 2 * i] := SPACE;
        } else {
          mem[p, 2 * i] := 0;
        }
        mem[p, 2 * i + 1] := ATTRIB;
        i := i + 1;
      }
    }

    /** Clearing the displayed terminal (student-distrib/lib.c:29-45). */
    method ClearScreen(ghost v: View)
      requires Depicts(v)
      modifies this`xs, this`ys, this`hardware, mem
      ensures Depicts(StepView(v, Wipe))
    {
      ClearPage(0, v.screens[active].page);
      xs, ys := xs[active := 0], ys[active := 0];
      UpdateCursor(active);
    }

    /** The pages `init_terminals` fills for each terminal in turn
        (student-distrib/scheduling.c:148-157). */
    method ClearBackups(ghost pages: seq<seq<byte>>) returns (ghost cleared: seq<seq<byte>>)
      requires Shape() && |pages| == 4 && forall p :: 0 <= p < 4 ==> Holds(p, pages[p])
      modifies mem
      ensures |cleared| == 4 && cleared[0] == pages[0] && forall p :: 0 <= p < 4 ==> Holds(p, cleared[p])
      ensures forall p :: 1 <= p < 4 ==> IsCleared(cleared[p])
    {
      cleared := pages;
      var term := 1;
      while term <= TERMINALS
        invariant 1 <= term <= TERMINALS + 1 && |cleared| == 4
        invariant forall p :: 0 <= p < 4 ==> Holds(p, cleared[p])
        invariant cleared[0] == pages[0] && forall p :: 1 <= p < term ==> IsCleared(cleared[p])
      {
        ClearPage(term, cleared[term]);
        cleared := cleared[term := Cleared(cleared[term])];
        term := term + 1;
      }
    }

    /** `init_terminals` and the `clear` that follows it (student-distrib/scheduling.c:136-163,
        student-distrib/kernel.c:180-186): whatever video memory held, every terminal starts
        showing the empty text. */
    method InitTerminals(ghost pages: seq<seq<byte>>) returns (ghost v: View)
      requires Shape() && active == 0 && |pages| == 4 && forall p :: 0 <= p < 4 ==> Holds(p, pages[p])
      modifies this, mem
      ensures Depicts(v) && v.active == 0 && v.cur == 0
      ensures forall t :: 0 <= t < TERMINALS ==> Shows(v.screens[t], BLANK)
    {
      ghost var now := pages;
      var i := 0;
      while i < TERMINALS
        invariant 0 <= i <= TERMINALS && Shape() && active == 0 && |now| == 4
        invariant forall p :: 0 <= p < 4 ==> Holds(p, now[p])
        invariant forall t :: 0 <= t < i ==> xs[t] == 0 && ys[t] == 0
        invariant i > 0 ==> forall p :: 1 <= p < 4 ==> IsCleared(now[p])
      {
        xs, ys := xs[i := 0], ys[i := 0];
        ghost var cleared := ClearBackups(now);
        now := cleared;
        i := i + 1;
      }
      cur := 0;
      ClearPage(0, now[0]);
      xs, ys := xs[active := 0], ys[active := 0];
      UpdateCursor(active);
      v := View([Screen(Cleared(now[0]), 0, 0), Screen(now[2], 0, 0), Screen(now[3], 0, 0)], 0, 0);
      ClearedShows(Cleared(now[0]));
      ClearedShows(now[2]);
      ClearedShows(now[3]);
    }

    /** The search for the character to stop after (student-distrib/lib.c:64-71). */
    method SkipBack(from: int, ghost page: seq<byte>) returns (offset: int)
      requires Holds(0, page) && -1 <= from < CELLS
      ensures offset == Landing(page, from)
    {
      offset := from;
      while offset >= 0 && mem[0, 2 * offset] == 0
        invariant -1 <= offset <= from && Landing(page, from) == Landing(page, offset)
      {
        if (offset + 1) % NUM_COLS == 0 { break; }
        offset := offset - 1;
      }
    }

    /** Rubbing out on the displayed terminal (student-distrib/lib.c:55-77). */
    method Backspace(ghost v: View)
      requires Depicts(v)
      modifies this`xs, this`ys, this`hardware, mem
      ensures Depicts(StepView(v, Erase))
    {
      var offset := ys[active] * NUM_COLS + xs[active];
      if offset == 0 { return; }
      ghost var s := v.screens[active];
      BackIs(s);
      EraseCell(offset - 1, s.page);
      offset := SkipBack(offset - 2, SetCell(s.page, offset - 1, 0));
      offset := offset + 1;
      MoveTo(offset);
      Redrawn(v, Back(s));
    }

    method MoveTo(offset: nat)
      requires Shape() && offset < CELLS
      modifies this`xs, this`ys, this`hardware
      ensures xs == old(xs)[active := offset % NUM_COLS] && ys == old(ys)[active := offset / NUM_COLS]
      ensures hardware == offset
    {
      ys, xs := ys[active := offset / NUM_COLS], xs[active := offset % NUM_COLS];
      UpdateCursor(active);
    }

    /** The displayed screen is `s`, the others are as in `v`. */
    lemma Redrawn(v: View, s: Screen)
      requires Shape() && ViewOk(v) && v.active == active && v.cur == cur && ScreenOk(s)
      requires hardware == Position(s) && xs[active] == s.x && ys[active] == s.y && Holds(0, s.page)
      requires forall t :: 0 <= t < TERMINALS && t != active ==>
                 xs[t] == v.screens[t].x && ys[t] == v.screens[t].y && Holds(t + 1, v.screens[t].page)
      ensures Depicts(v.(screens := v.screens[active := s]))
    {
    }

    method EraseCell(k: nat, ghost page: seq<byte>)
      requires Shape() && Holds(0, page) && k < CELLS
      modifies mem
      ensures Holds(0, SetCell(page, k, 0))
      ensures forall q, i :: 0 < q < 4 && 0 <= i < PAGE ==> mem[q, i] == old(mem[q, i])
    {
      mem[0, 2 * k] := 0;
      mem[0, 2 * k + 1] := ATTRIB;
    }

    /** Any interleaving of printing, echoing, clearing, display switches and ticks. */
    method Drive(events: seq<Event>, ghost v: View)
      requires Depicts(v)
      modifies this, mem
      ensures Depicts(RunView(v, events))
    {
      var i := 0;
      ghost var now := v;
      while i < |events|
        invariant 0 <= i <= |events| && now == RunView(v, events[..i]) && Depicts(now)
      {
        RunSnoc(v, events, i);
        match events[i] {
          case Print(c) => Putc(c, now);
          case Echo(c) => PutcDirect(c, now);
          case Erase => Backspace(now);
          case Wipe => ClearScreen(now);
          case Show(t) => if t < TERMINALS { SwitchTerminal(t, now); }
          case Tick => Tick(now);
        }
        now := StepView(now, events[i]);
        i := i + 1;
      }
      assert events[..i] == events;
    }
  }

  /** The characters that a write of `s` prints. */
  function Prints(s: seq<byte>): seq<Event> {
    if s == [] then []
    else Prints(s[..|s| - 1]) + if s[|s| - 1] == 0 then [] else [Print(s[|s| - 1])]
  }

  /** A write prints its bytes one by one, in order; NULs are skipped. */
  lemma {:induction false} PrintsPlain(s: seq<byte>)
    requires 0 !in s
    ensures |Prints(s)| == |s| && forall i :: 0 <= i < |s| ==> Prints(s)[i] == Print(s[i])
  {
    if s != [] {
      PrintsPlain(s[..|s| - 1]);
    }
  }

  lemma {:induction false} PrintsSkips(a: seq<byte>, b: seq<byte>)
    ensures Prints(a + [0] + b) == Prints(a + b)
  {
    if b == [] {
      assert a + [0] + b == a + [0] && (a + [0])[..|a|] == a && a + b == a;
    } else {
      var n := |b| - 1;
      PrintsSkips(a, b[..n]);
      assert (a + [0] + b)[..|a| + 1 + n] == a + [0] + b[..n] && (a + b)[..|a| + n] == a + b[..n];
    }
  }

  lemma PrintedSnoc(cur: nat, events: seq<Event>, c: byte)
    requires cur < TERMINALS && Tick !in events
    ensures PrintedOn(cur, events + [Print(c)], cur) == PrintedOn(cur, events, cur) + [c]
  {
    assert (events + [Print(c)])[..|events|] == events;
    assert multiset(events)[Tick] == 0;
  }

  lemma PrintsAppend(s: seq<byte>, c: byte)
    requires 0 !in s && c != 0
    ensures Prints(s + [c]) == Prints(s) + [Print(c)] && Tick !in Prints(s)
  {
    assert (s + [c])[..|s|] == s;
    PrintsPlain(s);
  }

  lemma {:induction false} OutputOfWrite(cur: nat, s: seq<byte>)
    requires cur < TERMINALS && 0 !in s
    ensures PrintedOn(cur, Prints(s), cur) == s
  {
    if s != [] {
      var before, c := s[..|s| - 1], s[|s| - 1];
      assert s == before + [c];
      OutputOfWrite(cur, before);
      PrintsAppend(before, c);
      PrintedSnoc(cur, Prints(before), c);
    }
  }

  /** A program's write on its empty screen shows the last 25 rows of its text, wrapped. */
  lemma WriteShowsWrapped(v: View, s: seq<byte>)
    requires ViewOk(v) && Shows(v.screens[v.cur], BLANK) && 0 !in s
    ensures ShowsLast(RunView(v, Prints(s)).screens[v.cur], Wrapped(s))
  {
    PrintsPlain(s);
    OutputOfWrite(v.cur, s);
    EachShowsItsOutput(v, Prints(s), v.cur);
  }

  lemma PrintsSnoc(v: View, buf: seq<byte>, i: nat)
    requires ViewOk(v) && i < |buf|
    ensures var before := RunView(v, Prints(buf[..i]));
            RunView(v, Prints(buf[..i + 1])) == if buf[i] == 0 then before else StepView(before, Print(buf[i]))
  {
    var events := Prints(buf[..i]);
    assert buf[..i + 1][..i] == buf[..i];
    if buf[i] == 0 {
      assert Prints(buf[..i + 1]) == events;
    } else {
      assert (events + [Print(buf[i])])[..|events|] == events;
    }
  }

  lemma RunSnoc(v: View, events: seq<Event>, k: nat)
    requires ViewOk(v) && k < |events|
    ensures RunView(v, events[..k + 1]) == StepView(RunView(v, events[..k]), events[k])
  {
    assert events[..k + 1][..k] == events[..k];
  }
}
