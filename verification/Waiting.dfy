/** The process machine and the line discipline together: a terminal's read belongs to the
    process that waits in it, so there is never a second one, and it ends only when Enter
    has finished its line (student-distrib/keyboard.c:288-314, student-distrib/scheduling.c). */
module Waiting {
  import opened Base
  import opened FileSystem
  import Command
  import opened Processes
  import opened Agreement
  import opened Invariants
  import opened Steps
  import opened Effects
  import opened Runs
  import K = Keyboard
  import D = Descriptors

  // ---------------------------------------------------------------------------
  // Who waits

  /** The top process of a terminal is inside a blocking read: it runs and is not in user
      code, or it was preempted there. */
  ghost predicate Waits(s: State, t: nat)
    requires Shape(s) && t < TERMINALS
  {
    if t == s.cur then !s.user
    else
      && s.terms[t].count > 0
      && var saved := s.pcbs[Top(s.terms[t])].termEbp;
         saved.Some? && saved.value.frame.TickFrame? && !saved.value.frame.fromUser
  }

  /** A step changes who waits in two ways only: a read that blocks makes the running process
      wait, and a wake-up ends its wait. */
  ghost predicate WaitRule(s: State, e: Event, s': State, a: Answer)
    requires Shape(s) && Shape(s')
  {
    forall t :: 0 <= t < TERMINALS ==>
      (Waits(s', t) <==>
       if t == s.cur && a == Replied(D.Blocks) then true
       else if t == s.cur && e.Wake? then false
       else Waits(s, t))
  }

  /** Another terminal's top process is left alone by a step that is not a tick. */
  lemma OthersWait(s: State, e: Event, s': State, a: Answer)
    requires Scheduled(s) && Shape(s') && Effect(s, e, s', a) && !e.Tick?
    requires s'.user <==> (a != Replied(D.Blocks) && (e.Wake? || s.user))
    requires a == Replied(D.Blocks) ==> s.user
    ensures WaitRule(s, e, s', a)
  {
    forall t | 0 <= t < TERMINALS && t != s.cur && s.terms[t].count > 0
      ensures s'.pcbs[Top(s.terms[t])] == s.pcbs[Top(s.terms[t])]
    {
      TopsDiffer(s.pcbs, s.terms, s.cur, t);
    }
  }

  lemma TopsDiffer(pcbs: seq<Pcb>, terms: seq<Term>, c: nat, t: nat)
    requires Fitting(pcbs, terms) && Links(pcbs, terms) && c < TERMINALS && t < TERMINALS && c != t
    requires terms[c].count > 0 && terms[t].count > 0
    ensures pcbs[Top(terms[t])].status && Top(terms[t]) != Top(terms[c])
  {
    assert Position(terms, t, terms[t].count - 1) && Linked(pcbs, terms, t, terms[t].count - 1);
    if Top(terms[t]) == Top(terms[c]) {
      PositionsUnique(pcbs, terms, t, terms[t].count - 1, c, terms[c].count - 1);
    }
  }

  lemma PlainReturns(img: Image, s: State, e: Event)
    requires Bootable(img) && Shape(s) && BlocksOk(img, s) && !s.user
    requires e.Open? || e.Close? || e.Vidmap? || e.GetArgs?
    requires Call(img, s, e).Ran?
    ensures Call(img, s, e).s.user && Call(img, s, e).answer != Replied(D.Blocks)
  {
  }

  lemma ReadReturns(img: Image, s: State, fd: int, n: int)
    requires WellFormed(img) && Shape(s) && BlocksOk(img, s) && !s.user && DoRead(img, s, fd, n).Ran?
    ensures DoRead(img, s, fd, n).s.user <==> DoRead(img, s, fd, n).answer != Replied(D.Blocks)
  {
  }

  lemma DyingReturns(img: Image, s: State, e: Event)
    requires Bootable(img) && Inside(s) && BlocksOk(img, s) && (e.Halt? || e.Exception?)
    ensures var r := Call(img, s, e); r.Ran? && r.s.user && r.answer != Replied(D.Blocks)
  {
    if e.Halt? {
      HaltReturns(img, s, e.status);
    } else {
      RaiseInside(s);
      HaltReturns(img, s.(exception := true), 0);
    }
  }

  /** After a call user code runs, unless the call blocked. */
  lemma CallReturns(img: Image, s: State, e: Event)
    requires Bootable(img) && Inside(s) && BlocksOk(img, s) && IsCall(e)
    requires e.Execute? && e.cmd.Some? ==> Command.IsCommand(e.cmd.value)
    requires Call(img, s, e).Ran?
    ensures Call(img, s, e).s.user <==> Call(img, s, e).answer != Replied(D.Blocks)
  {
    if e.Execute? {
      ExecuteReturns(img, s, e.cmd);
    } else if e.Read? {
      ReadReturns(img, s, e.fd, e.n);
    } else if e.Halt? || e.Exception? {
      DyingReturns(img, s, e);
    } else {
      PlainReturns(img, s, e);
    }
  }

  lemma ExecuteReturns(img: Image, s: State, command: Option<seq<byte>>)
    requires WellFormed(img) && Shape(s) && (command.Some? ==> Command.IsCommand(command.value))
    ensures var r := ExecuteCall(img, s, command); r.Ran? && r.s.user && r.answer != Replied(D.Blocks)
  {
    if command.Some? && DoExecute(img, s, command.value).Launched? {
      LaunchEffect(s, DoExecute(img, s, command.value).slot, Command.Resolve(img, command.value).params);
    }
  }

  lemma HaltReturns(img: Image, s: State, status: byte)
    requires Bootable(img) && Inside(s)
    ensures var r := DoHalt(img, s, status); r.Ran? && r.s.user && !r.answer.Replied?
  {
    HaltEffect(img, s, status);
    if s.terms[s.cur].count == 1 {
      NewRootAlone(s, Command.Resolve(img, Shell(img)).params);
    }
  }

  // ---------------------------------------------------------------------------
  // The rule for every step

  lemma TickWaits(img: Image, s: State)
    requires Inv(img, s) && DoTick(img, s).Ran? && Shape(DoTick(img, s).s)
    ensures WaitRule(s, Tick, DoTick(img, s).s, DoTick(img, s).answer)
  {
    if s.terms[NextTerm(s)].count > 0 {
      TickResumes(img, s);
      ResumeWaits(s);
    } else {
      TickStarts(img, s);
      StartWaits(s, FirstFree(Ticked(s).pcbs).value, Command.Resolve(img, Shell(img)).params);
    }
  }

  /** The preempted process waits afterwards exactly if it did before. */
  lemma TickedWaits(s: State)
    requires Scheduled(s)
    ensures var p := Top(s.terms[s.cur]);
            var saved := Ticked(s).pcbs[p].termEbp;
            && saved.Some? && saved.value.frame.TickFrame? && saved.value.frame.fromUser == s.user
            && (forall t :: 0 <= t < TERMINALS && t != s.cur && s.terms[t].count > 0 ==>
                  Ticked(s).pcbs[Top(s.terms[t])] == s.pcbs[Top(s.terms[t])])
  {
    TickedUntouched(s);
    forall t | 0 <= t < TERMINALS && t != s.cur && s.terms[t].count > 0
      ensures Ticked(s).pcbs[Top(s.terms[t])] == s.pcbs[Top(s.terms[t])]
    {
      TopsDiffer(s.pcbs, s.terms, s.cur, t);
    }
  }

  lemma ResumeWaits(s: State)
    requires Scheduled(s) && s.terms[NextTerm(s)].count > 0
    requires var s1 := Ticked(s);
             var pcb := s1.pcbs[Top(s1.terms[s1.cur])];
             pcb.termEbp.Some? && pcb.termEbp.value.frame.TickFrame?
    ensures var s1 := Ticked(s);
            var p := Top(s1.terms[s1.cur]);
            WaitRule(s, Tick, Woken(s1), Resumed(p, s1.pcbs[p].termEbp.value))
  {
    TickedWaits(s);
  }

  lemma StartWaits(s: State, slot: nat, params: seq<byte>)
    requires Scheduled(s) && s.terms[NextTerm(s)].count == 0 && slot < SLOTS && !Ticked(s).pcbs[slot].status
    ensures WaitRule(s, Tick, LaunchAt(Ticked(s), slot, params), Started(slot))
  {
    TickedWaits(s);
    LaunchEffect(Ticked(s), slot, params);
    SlotNotTop(s, slot);
  }

  lemma SlotNotTop(s: State, slot: nat)
    requires Scheduled(s) && slot < SLOTS && !Ticked(s).pcbs[slot].status
    ensures forall t :: 0 <= t < TERMINALS && s.terms[t].count > 0 ==> Top(s.terms[t]) != slot
  {
    TickedUntouched(s);
    forall t | 0 <= t < TERMINALS && s.terms[t].count > 0
      ensures Top(s.terms[t]) != slot
    {
      assert Position(s.terms, t, s.terms[t].count - 1) && Linked(s.pcbs, s.terms, t, s.terms[t].count - 1);
    }
  }

  /** Whether user code runs after a step that is not a tick. */
  lemma UserAfter(img: Image, s: State, e: Event)
    requires Inv(img, s) && !e.Tick? && Next(img, s, e).Some?
    ensures var (s', a) := Next(img, s, e).value;
            && (s'.user <==> (a != Replied(D.Blocks) && (e.Wake? || s.user)))
            && (a == Replied(D.Blocks) ==> s.user)
  {
    if Enabled(s, e) && IsCall(e) {
      NextCall(img, s, e);
      EnterOnBehalf(img, s);
      CallReturns(img, Enter(s), e);
    } else {
      NextStill(img, s, e);
    }
  }

  /** The rule holds of every step. */
  lemma StepWaits(img: Image, s: State, e: Event)
    requires Inv(img, s) && Next(img, s, e).Some?
    ensures Shape(Next(img, s, e).value.0)
    ensures WaitRule(s, e, Next(img, s, e).value.0, Next(img, s, e).value.1)
  {
    NextKeeps(img, s, e);
    if e.Tick? {
      NextTick(img, s);
      TickWaits(img, s);
    } else {
      NextEffect(img, s, e);
      UserAfter(img, s, e);
      OthersWait(s, e, Next(img, s, e).value.0, Next(img, s, e).value.1);
    }
  }

  // ---------------------------------------------------------------------------
  // The displayed terminal

  lemma HaltActive(img: Image, s: State, status: byte)
    requires Bootable(img) && Inside(s)
    ensures DoHalt(img, s, status).Ran? && DoHalt(img, s, status).s.active == s.active
  {
    HaltEffect(img, s, status);
    if s.terms[s.cur].count == 1 {
      LaunchEffect(WithoutTop(s), NextSlot(s).value, Command.Resolve(img, Shell(img)).params);
    }
  }

  lemma ExecuteActive(img: Image, s: State, command: Option<seq<byte>>)
    requires WellFormed(img) && Shape(s) && (command.Some? ==> Command.IsCommand(command.value))
    ensures ExecuteCall(img, s, command).Ran? && ExecuteCall(img, s, command).s.active == s.active
  {
    if command.Some? && DoExecute(img, s, command.value).Launched? {
      LaunchEffect(s, DoExecute(img, s, command.value).slot, Command.Resolve(img, command.value).params);
    }
  }

  lemma PlainActive(img: Image, s: State, e: Event)
    requires Bootable(img) && Shape(s) && BlocksOk(img, s)
    requires e.Open? || e.Close? || e.Vidmap? || e.GetArgs? || e.Read?
    requires Call(img, s, e).Ran?
    ensures Call(img, s, e).s.active == s.active
  {
  }

  lemma CallActive(img: Image, s: State, e: Event)
    requires Bootable(img) && Inside(s) && BlocksOk(img, s) && IsCall(e)
    requires e.Execute? && e.cmd.Some? ==> Command.IsCommand(e.cmd.value)
    requires Call(img, s, e).Ran?
    ensures Call(img, s, e).s.active == s.active
  {
    if e.Execute? {
      ExecuteActive(img, s, e.cmd);
    } else if e.Halt? {
      HaltActive(img, s, e.status);
    } else if e.Exception? {
      RaiseInside(s);
      HaltActive(img, s.(exception := true), 0);
    } else {
      PlainActive(img, s, e);
    }
  }

  lemma TickActive(img: Image, s: State)
    requires Inv(img, s) && DoTick(img, s).Ran?
    ensures DoTick(img, s).s.active == s.active
  {
    assert Ticked(s).active == s.active;
    if s.terms[NextTerm(s)].count > 0 {
      TickResumes(img, s);
    } else {
      TickStarts(img, s);
      LaunchEffect(Ticked(s), FirstFree(Ticked(s).pcbs).value, Command.Resolve(img, Shell(img)).params);
    }
  }

  /** Only the keyboard changes the displayed terminal. */
  lemma StepActive(img: Image, s: State, e: Event)
    requires Inv(img, s) && Next(img, s, e).Some?
    ensures Next(img, s, e).value.0.active == if e.Display? && e.term < TERMINALS then e.term else s.active
  {
    if e.Tick? {
      NextTick(img, s);
      TickActive(img, s);
    } else if Enabled(s, e) && IsCall(e) {
      NextCall(img, s, e);
      EnterOnBehalf(img, s);
      CallActive(img, Enter(s), e);
    } else {
      NextStill(img, s, e);
    }
  }

  // ---------------------------------------------------------------------------
  // The two machines together

  datatype Both = Both(kernel: State, keys: K.Ref)

  /** A key is pressed, or something happens to the processes. */
  datatype Happening = Key(code: byte) | Does(e: Event)

  /** The two agree on the scheduled and the displayed terminal, and whoever has a read under
      way is waiting in it. */
  ghost predicate Joined(img: Image, b: Both) {
    && Inv(img, b.kernel) && K.RefShape(b.keys)
    && b.keys.cur == b.kernel.cur && b.keys.active == b.kernel.active
    && forall t :: 0 <= t < TERMINALS && !b.keys.readers[t].Idle? ==> Waits(b.kernel, t)
  }

  /** The display changes through keys alone, and a process waiting for a line goes on only
      when its read flag is down. */
  predicate Possible(b: Both, h: Happening)
    requires K.RefShape(b.keys)
  {
    match h
    case Key(_) => true
    case Does(Display(_)) => false
    case Does(Wake) => !b.keys.readers[b.keys.cur].Reading?
    case Does(Read(fd, n)) => fd == 0 ==> 1 <= n < 0x8000_0000
    case _ => true
  }

  /** What a happening means to the process machine. */
  function KernelEvent(b: Both, h: Happening): Event
    requires K.RefShape(b.keys)
  {
    match h
    case Key(code) => Display(K.ScanRef(b.keys, code).active)
    case Does(e) => e
  }

  /** And to the line discipline, given the process machine's answer. */
  function KeysEvent(b: Both, h: Happening, a: Answer): Option<K.Event>
    requires K.RefShape(b.keys)
  {
    match h
    case Key(code) => Some(K.Scan(code))
    case Does(Tick) => Some(K.Tick)
    case Does(Read(fd, n)) => if fd == 0 && a == Replied(D.Blocks) then Some(K.BeginRead(n)) else None
    case Does(Wake) => if b.keys.readers[b.keys.cur].Finished? then Some(K.EndRead) else None
    case _ => None
  }

  /** The line discipline after it. */
  function KeysAfter(b: Both, h: Happening, a: Answer): (r: K.Ref)
    requires K.RefShape(b.keys)
    ensures K.RefShape(r)
  {
    match KeysEvent(b, h, a)
    case None => b.keys
    case Some(k) => K.StepRef(b.keys, k)
  }

  ghost function Advance(img: Image, b: Both, h: Happening): (r: Option<Both>)
    requires K.RefShape(b.keys)
    ensures r.Some? ==> K.RefShape(r.value.keys)
  {
    match Next(img, b.kernel, KernelEvent(b, h))
    case None => None
    case Some((s, a)) => Some(Both(s, KeysAfter(b, h, a)))
  }

  /** Nothing is ever asked of the line discipline that it does not allow: a read begins only
      on a terminal that has none. */
  lemma ReadsAllowed(img: Image, b: Both, h: Happening)
    requires Joined(img, b) && Possible(b, h) && Next(img, b.kernel, KernelEvent(b, h)).Some?
    ensures var k := KeysEvent(b, h, Next(img, b.kernel, KernelEvent(b, h)).value.1);
            k.Some? ==> K.Can(b.keys, k.value)
  {
    if h.Does? && h.e.Read? {
      UserAfter(img, b.kernel, h.e);
    }
  }

  lemma ReadersAfter(r: K.Ref, k: K.Event, t: nat)
    requires K.RefShape(r) && t < TERMINALS && K.Can(r, k) && !K.StepRef(r, k).readers[t].Idle?
    ensures (k.BeginRead? && t == r.cur) || !r.readers[t].Idle?
    ensures k.EndRead? ==> t != r.cur
  {
  }

  /** A reader that is busy afterwards was busy before and its process did not wake up, or its
      read has just blocked. */
  lemma BusyAfter(b: Both, h: Happening, a: Answer, t: nat)
    requires K.RefShape(b.keys) && Possible(b, h) && t < TERMINALS && !KeysAfter(b, h, a).readers[t].Idle?
    requires var k := KeysEvent(b, h, a); k.Some? ==> K.Can(b.keys, k.value)
    ensures || (t == b.keys.cur && a == Replied(D.Blocks))
            || (!b.keys.readers[t].Idle? && !(t == b.keys.cur && h == Does(Wake)))
  {
    var k := KeysEvent(b, h, a);
    if k.Some? {
      ReadersAfter(b.keys, k.value, t);
    }
  }

  lemma KeysFollow(r: K.Ref, k: K.Event)
    requires K.RefShape(r) && K.Can(r, k)
    ensures K.StepRef(r, k).cur == if k.Tick? then (r.cur + 1) % TERMINALS else r.cur
    ensures K.StepRef(r, k).active == if k.Scan? then K.ScanRef(r, k.code).active else r.active
  {
  }

  /** Who reads still waits. */
  lemma ReadersWait(s: State, b: Both, h: Happening, s': State, a: Answer)
    requires Shape(s) && Shape(s') && K.RefShape(b.keys) && Possible(b, h) && b.kernel == s && b.keys.cur == s.cur
    requires WaitRule(s, KernelEvent(b, h), s', a)
    requires var k := KeysEvent(b, h, a); k.Some? ==> K.Can(b.keys, k.value)
    requires forall t :: 0 <= t < TERMINALS && !b.keys.readers[t].Idle? ==> Waits(s, t)
    ensures forall t :: 0 <= t < TERMINALS && !KeysAfter(b, h, a).readers[t].Idle? ==> Waits(s', t)
  {
    forall t | 0 <= t < TERMINALS && !KeysAfter(b, h, a).readers[t].Idle?
      ensures Waits(s', t)
    {
      BusyAfter(b, h, a, t);
    }
  }

  /** Every step of the two together keeps them joined. */
  lemma StepJoined(img: Image, b: Both, h: Happening)
    requires Joined(img, b) && Possible(b, h) && Advance(img, b, h).Some?
    ensures Joined(img, Advance(img, b, h).value)
  {
    var e := KernelEvent(b, h);
    var (s, a) := Next(img, b.kernel, e).value;
    ReadsAllowed(img, b, h);
    NextKeeps(img, b.kernel, e);
    StepWaits(img, b.kernel, e);
    ReadersWait(b.kernel, b, h, s, a);
    NextEffect(img, b.kernel, e);
    StepActive(img, b.kernel, e);
    if KeysEvent(b, h, a).Some? {
      KeysFollow(b.keys, KeysEvent(b, h, a).value);
    }
  }

  /** A run of the two together, every happening possible when it comes. */
  ghost predicate JoinedRun(img: Image, b: Both, hs: seq<Happening>)
    requires K.RefShape(b.keys)
    decreases |hs|
  {
    hs == [] ||
    (Possible(b, hs[0]) && Advance(img, b, hs[0]).Some? && JoinedRun(img, Advance(img, b, hs[0]).value, hs[1..]))
  }

  ghost function After(img: Image, b: Both, hs: seq<Happening>): (r: Both)
    requires K.RefShape(b.keys) && JoinedRun(img, b, hs)
    ensures K.RefShape(r.keys)
    decreases |hs|
  {
    if hs == [] then b else After(img, Advance(img, b, hs[0]).value, hs[1..])
  }

  /** Over every run of keys, ticks, system calls and exceptions: a terminal has a read under
      way only while its top process waits in it, so no read ever begins where another is
      under way, and a waiting process goes on only with a finished line. */
  lemma {:induction false} RunsJoined(img: Image, b: Both, hs: seq<Happening>)
    requires Joined(img, b) && JoinedRun(img, b, hs)
    ensures Joined(img, After(img, b, hs))
    decreases |hs|
  {
    if hs != [] {
      StepJoined(img, b, hs[0]);
      RunsJoined(img, Advance(img, b, hs[0]).value, hs[1..]);
    }
  }

  lemma BlockedReadAllowed(img: Image, b: Both, n: int)
    requires Joined(img, b) && 1 <= n < 0x8000_0000
    requires Next(img, b.kernel, Read(0, n)).Some? && Next(img, b.kernel, Read(0, n)).value.1 == Replied(D.Blocks)
    ensures K.Can(b.keys, K.BeginRead(n))
  {
    UserAfter(img, b.kernel, Read(0, n));
  }

  /** In every state such a run reaches, a read that blocks on the keyboard finds its
      terminal's reader idle. */
  lemma NeverTwoReads(img: Image, b: Both, hs: seq<Happening>, n: int, r: Both)
    requires Joined(img, b) && JoinedRun(img, b, hs) && r == After(img, b, hs) && 1 <= n < 0x8000_0000
    requires Next(img, r.kernel, Read(0, n)).Some? && Next(img, r.kernel, Read(0, n)).value.1 == Replied(D.Blocks)
    ensures K.Can(r.keys, K.BeginRead(n))
  {
    RunsJoined(img, b, hs);
    BlockedReadAllowed(img, r, n);
  }
}
