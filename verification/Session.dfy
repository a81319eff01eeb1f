/** Three terminals in use: keys, output and ticks reach the line discipline and the display
    together, and a terminal whose process reads shows the line being typed, whatever the
    others print meanwhile. */
module Session {
  import opened Base
  import S = Screen
  import K = Keyboard
  import V = Display
  import opened Echo

  /** A key is pressed, the scheduled process prints, the timer ticks, or the scheduled
      process begins or ends a read. */
  datatype Scene = Key(code: byte) | Output(c: byte) | Tick | Begin(n: int) | End

  function OnKeys(e: Scene): seq<K.Event> {
    match e
    case Key(code) => [K.Scan(code)]
    case Output(_) => []
    case Tick => [K.Tick]
    case Begin(n) => [K.BeginRead(n)]
    case End => [K.EndRead]
  }

  /** The display event of one drawing operation of the keyboard. */
  function DrawEvent(op: S.Op): V.Event {
    match op
    case Typed(c) => V.Echo(c)
    case Rubbed => V.Erase
    case Wiped => V.Wipe
  }

  function DrawEvents(ops: seq<S.Op>): (r: seq<V.Event>)
    ensures |r| == |ops|
  {
    seq(|ops|, i requires 0 <= i < |ops| => DrawEvent(ops[i]))
  }

  function OnScreen(r: K.Ref, e: Scene): seq<V.Event>
    requires K.RefShape(r)
  {
    match e
    case Key(code) =>
      var k := K.Meaning(K.Shifted(r.mods, code), code);
      DrawEvents(K.Echoes(r.readers[r.active], k)) + if k.Show? then [V.Show(k.term)] else []
    case Output(c) => [V.Print(c)]
    case Tick => [V.Tick]
    case _ => []
  }

  function KeysOf(scenes: seq<Scene>): seq<K.Event> {
    if scenes == [] then [] else KeysOf(scenes[..|scenes| - 1]) + OnKeys(scenes[|scenes| - 1])
  }

  function ScreenOf(r: K.Ref, scenes: seq<Scene>): seq<V.Event>
    requires K.RefShape(r)
  {
    if scenes == [] then []
    else
      var n := |scenes| - 1;
      ScreenOf(r, scenes[..n]) + OnScreen(K.RunRef(r, KeysOf(scenes[..n])), scenes[n])
  }

  // ---------------------------------------------------------------------------
  // Runs over concatenations

  lemma {:induction false} KeysConcat(r: K.Ref, a: seq<K.Event>, b: seq<K.Event>)
    requires K.RefShape(r)
    ensures K.RunRef(r, a + b) == K.RunRef(K.RunRef(r, a), b)
    decreases |b|
  {
    if b == [] {
      assert a + b == a;
    } else {
      assert (a + b)[..|a + b| - 1] == a + b[..|b| - 1];
      KeysConcat(r, a, b[..|b| - 1]);
    }
  }

  lemma {:induction false} ViewConcat(v: V.View, a: seq<V.Event>, b: seq<V.Event>, t: nat)
    requires V.ViewOk(v)
    ensures V.RunView(v, a + b) == V.RunView(V.RunView(v, a), b)
    ensures V.OpsFor(v, a + b, t) == V.OpsFor(v, a, t) + V.OpsFor(V.RunView(v, a), b, t)
    decreases |b|
  {
    if b == [] {
      assert a + b == a;
    } else {
      assert (a + b)[..|a + b| - 1] == a + b[..|b| - 1];
      ViewConcat(v, a, b[..|b| - 1], t);
    }
  }

  lemma DrawStep(v: V.View, op: S.Op)
    requires V.ViewOk(v)
    ensures V.StepView(v, DrawEvent(op)).active == v.active && V.StepView(v, DrawEvent(op)).cur == v.cur
    ensures V.Target(v, DrawEvent(op)) == Some(v.active) && V.OpOf(DrawEvent(op)) == op
  {
  }

  /** Drawing changes neither the displayed nor the scheduled terminal, and concerns the
      displayed one. */
  lemma {:induction false} DrawsOnActive(v: V.View, ops: seq<S.Op>, t: nat)
    requires V.ViewOk(v)
    ensures var w := V.RunView(v, DrawEvents(ops)); w.active == v.active && w.cur == v.cur
    ensures V.OpsFor(v, DrawEvents(ops), t) == if v.active == t then ops else []
  {
    if ops != [] {
      var n := |ops| - 1;
      assert DrawEvents(ops)[..n] == DrawEvents(ops[..n]);
      DrawsOnActive(v, ops[..n], t);
      DrawStep(V.RunView(v, DrawEvents(ops[..n])), ops[n]);
      assert ops == ops[..n] + [ops[n]];
    }
  }

  // ---------------------------------------------------------------------------
  // One scene

  ghost predicate Agree(r: K.Ref, v: V.View) {
    K.RefShape(r) && V.ViewOk(v) && r.active == v.active && r.cur == v.cur
  }

  /** What a scene draws on terminal `t` as an echo. */
  function Drew(r: K.Ref, e: Scene, t: nat): seq<S.Op>
    requires K.RefShape(r) && t < TERMINALS
  {
    if e.Key? then K.Echoes(r.readers[t], K.KeyFor(r, K.Scan(e.code), t)) else []
  }

  lemma ShowScene(v: V.View, ops: seq<S.Op>, u: nat, t: nat)
    requires V.ViewOk(v) && u < TERMINALS
    ensures var w := V.RunView(v, DrawEvents(ops) + [V.Show(u)]); w.active == u && w.cur == v.cur
    ensures V.OpsFor(v, DrawEvents(ops) + [V.Show(u)], t) == if v.active == t then ops else []
  {
    var w := V.RunView(v, DrawEvents(ops));
    DrawsOnActive(v, ops, t);
    ViewConcat(v, DrawEvents(ops), [V.Show(u)], t);
    assert [V.Show(u)][..0] == [];
    assert V.RunView(w, [V.Show(u)]) == V.StepView(w, V.Show(u));
    assert V.OpsFor(w, [V.Show(u)], t) == [];
  }

  lemma KeyRefMoves(r: K.Ref, code: byte)
    requires K.RefShape(r)
    ensures var k := K.Meaning(K.Shifted(r.mods, code), code);
            var q := K.StepRef(r, K.Scan(code));
            && q.active == (if k.Show? then k.term else r.active) && q.cur == r.cur
            && (k.Show? ==> k.term < TERMINALS)
  {
  }

  lemma DrewIs(r: K.Ref, code: byte, t: nat)
    requires K.RefShape(r) && t < TERMINALS
    ensures Drew(r, Key(code), t) ==
            if r.active == t then K.Echoes(r.readers[r.active], K.Meaning(K.Shifted(r.mods, code), code)) else []
  {
  }

  lemma KeyScene(r: K.Ref, v: V.View, code: byte, t: nat)
    requires Agree(r, v) && t < TERMINALS
    ensures var w := V.RunView(v, OnScreen(r, Key(code)));
            var q := K.StepRef(r, K.Scan(code));
            w.active == q.active && w.cur == q.cur
    ensures V.OpsFor(v, OnScreen(r, Key(code)), t) == Drew(r, Key(code), t)
  {
    var k := K.Meaning(K.Shifted(r.mods, code), code);
    var ops := K.Echoes(r.readers[r.active], k);
    KeyRefMoves(r, code);
    DrewIs(r, code, t);
    if k.Show? {
      ShowScene(v, ops, k.term, t);
    } else {
      assert OnScreen(r, Key(code)) == DrawEvents(ops);
      DrawsOnActive(v, ops, t);
    }
  }

  /** Output by the scheduled process of another terminal, a tick, a read's begin or end. */
  lemma PlainScene(r: K.Ref, v: V.View, e: Scene, t: nat)
    requires Agree(r, v) && t < TERMINALS && !e.Key? && (e.Output? ==> r.cur != t)
    ensures var w := V.RunView(v, OnScreen(r, e));
            var q := K.RunRef(r, OnKeys(e));
            w.active == q.active && w.cur == q.cur
    ensures V.OpsFor(v, OnScreen(r, e), t) == []
  {
    var screen, keys := OnScreen(r, e), OnKeys(e);
    if screen != [] {
      assert screen[..0] == [];
      assert V.RunView(v, screen) == V.StepView(V.RunView(v, screen[..0]), screen[0]);
    }
    if keys != [] {
      assert keys[..0] == [];
      assert K.RunRef(r, keys) == K.StepRef(K.RunRef(r, keys[..0]), keys[0]);
    }
  }

  lemma OneScene(r: K.Ref, v: V.View, e: Scene, t: nat)
    requires Agree(r, v) && t < TERMINALS && (e.Output? ==> r.cur != t)
    ensures Agree(K.RunRef(r, OnKeys(e)), V.RunView(v, OnScreen(r, e)))
    ensures V.OpsFor(v, OnScreen(r, e), t) == Drew(r, e, t)
  {
    if e.Key? {
      KeyScene(r, v, e.code, t);
      var keys := OnKeys(e);
      assert keys[..0] == [];
      assert K.RunRef(r, keys) == K.StepRef(K.RunRef(r, keys[..0]), keys[0]);
    } else {
      PlainScene(r, v, e, t);
    }
  }

  lemma DrawnSnoc(r: K.Ref, a: seq<K.Event>, e: Scene, t: nat)
    requires K.RefShape(r) && t < TERMINALS
    ensures Drawn(r, a + OnKeys(e), t) == Drawn(r, a, t) + Drew(K.RunRef(r, a), e, t)
  {
    if OnKeys(e) == [] {
      assert a + OnKeys(e) == a;
    } else {
      var k := OnKeys(e)[0];
      assert OnKeys(e) == [k] && (a + [k])[..|a|] == a;
      assert !e.Key? ==> K.KeyFor(K.RunRef(r, a), k, t).Nothing?;
      NothingDrawn(K.RunRef(r, a).readers[t]);
    }
  }

  lemma NothingDrawn(reader: K.Reader)
    ensures K.Echoes(reader, K.Nothing) == []
  {
  }

  // ---------------------------------------------------------------------------
  // Whole sessions

  /** While terminal `t` is scheduled its process, waiting in its read, prints nothing. */
  predicate QuietOn(r: K.Ref, scenes: seq<Scene>, t: nat)
    requires K.RefShape(r)
  {
    forall i :: 0 <= i < |scenes| && scenes[i].Output? ==> K.RunRef(r, KeysOf(scenes[..i])).cur != t
  }

  lemma QuietBefore(r: K.Ref, scenes: seq<Scene>, t: nat)
    requires K.RefShape(r) && scenes != [] && QuietOn(r, scenes, t)
    ensures QuietOn(r, scenes[..|scenes| - 1], t)
    ensures scenes[|scenes| - 1].Output? ==> K.RunRef(r, KeysOf(scenes[..|scenes| - 1])).cur != t
  {
    var before := scenes[..|scenes| - 1];
    assert forall i :: 0 <= i < |before| ==> before[..i] == scenes[..i] && before[i] == scenes[i];
  }

  /** The display and the line discipline stay in step, and what reaches terminal `t`'s
      screen is what its keys draw. */
  lemma {:induction false} SessionDraws(r: K.Ref, v: V.View, scenes: seq<Scene>, t: nat)
    requires Agree(r, v) && t < TERMINALS && QuietOn(r, scenes, t)
    ensures Agree(K.RunRef(r, KeysOf(scenes)), V.RunView(v, ScreenOf(r, scenes)))
    ensures V.OpsFor(v, ScreenOf(r, scenes), t) == Drawn(r, KeysOf(scenes), t)
    decreases |scenes|
  {
    if scenes != [] {
      var n := |scenes| - 1;
      var before := scenes[..n];
      QuietBefore(r, scenes, t);
      SessionDraws(r, v, before, t);
      var q, w := K.RunRef(r, KeysOf(before)), V.RunView(v, ScreenOf(r, before));
      OneScene(q, w, scenes[n], t);
      KeysConcat(r, KeysOf(before), OnKeys(scenes[n]));
      ViewConcat(v, ScreenOf(r, before), OnScreen(q, scenes[n]), t);
      DrawnSnoc(r, KeysOf(before), scenes[n], t);
    }
  }

  /** Over every session in which terminal `t`'s process reads: its screen, displayed or not,
      shows the text that was there with the line typed so far at its end, whatever is typed,
      printed and switched on the other terminals. */
  lemma ReadingTerminalShowsItsLine(
      r: K.Ref, v: V.View, scenes: seq<Scene>, t: nat, n: int, text: S.Text, keys: seq<K.Press>)
    requires Agree(r, v) && t < TERMINALS && r.readers[t] == K.Reading(n, []) && QuietOn(r, scenes, t)
    requires keys == K.KeysTyped(r, KeysOf(scenes), t) && K.NoEnter(keys)
    requires S.Shows(v.screens[t], text) && Ended(text)
    ensures S.TextOk(BaseOf(text, keys))
    ensures exists shown :: S.Shows(V.RunView(v, ScreenOf(r, scenes)).screens[t], shown)
                            && shown.rows == TypedOn(BaseOf(text, keys).rows, K.Line(keys))
  {
    SessionDraws(r, v, scenes, t);
    V.ScreensIndependent(v, ScreenOf(r, scenes), t);
    ReadShowsItsLine(r, KeysOf(scenes), t, n, v.screens[t], text);
    assert S.Shows(V.RunView(v, ScreenOf(r, scenes)).screens[t], S.EditAll(text, Drawn(r, KeysOf(scenes), t)));
  }
}
