/** What the kernel does to the user video page and to exit codes where one would expect
    something else: exact rules, and runs that show the difference. */
module Differences {
  import opened Base
  import opened FileSystem
  import opened Command
  import opened Paging
  import opened Processes
  import opened Agreement
  import opened Invariants
  import opened Steps
  import opened Runs
  import opened Calls
  import opened Boot
  import Machine
  import D = Descriptors

  /** A run of three events, from its steps. */
  lemma ThreeSteps<S, E, A>(step: (S, E) -> Option<(S, A)>, s0: S, s1: S, s2: S, s3: S,
                            e1: E, e2: E, e3: E, a1: A, a2: A, a3: A)
    requires step(s0, e1) == Some((s1, a1)) && step(s1, e2) == Some((s2, a2)) && step(s2, e3) == Some((s3, a3))
    ensures Machine.Run(step, s0, [e1, e2, e3]) == Some(s3)
    ensures Machine.Answers(step, s0, [e1, e2, e3]) == [a1, a2, a3]
  {
    assert [e1, e2, e3][1..] == [e2, e3] && [e2, e3][1..] == [e3] && [e3][1..] == [];
    assert Machine.Run(step, s2, [e3]) == Some(s3) && Machine.Answers(step, s2, [e3]) == [a3];
    assert Machine.Run(step, s1, [e2, e3]) == Some(s3) && Machine.Answers(step, s1, [e2, e3]) == [a2, a3];
  }

  /** With room on the terminal and in the pool, a program that loads is started above the
      running process. */
  lemma RunnableStarts(img: Image, s: State, cmd: seq<byte>)
    requires Inv(img, s) && s.user && Runnable(img, cmd)
    requires s.terms[s.cur].count < PER_TERMINAL && s.progCounter < SLOTS
    ensures Executes(img, s, Execute(Some(cmd)))
    ensures var s1 := Next(img, s, Execute(Some(cmd))).value.0;
            && Inv(img, s1) && OneAbove(s, s1) && s1.user
            && s1.exception == s.exception && s1.mapping.video == s.mapping.video
  {
    SlotAvailable(s.pcbs);
    ExecuteLaunches(img, s, cmd);
    NextKeeps(img, s, Execute(Some(cmd)));
    LaunchEffect(Enter(s), FirstFree(s.pcbs).value, Resolve(img, cmd).params);
  }

  lemma ChildHalts(img: Image, s: State, status: byte)
    requires Inv(img, s) && s.user && s.terms[s.cur].count > 1
    ensures Exits(img, s, Halt(status))
    ensures Next(img, s, Halt(status)).value.1.code == if s.exception then EXCEPTION_CODE else status
  {
    EnterOnBehalf(img, s);
    EnterFiles(img, s);
    HaltEffect(img, Enter(s), status);
    NextCall(img, s, Halt(status));
  }

  // ---------------------------------------------------------------------------
  // The exception flag outlives a root

  lemma RootRaises(img: Image, s: State)
    requires Inv(img, s) && s.user && s.terms[s.cur].count == 1
    ensures Next(img, s, Exception).Some? && Next(img, s, Exception).value.1 == Relaunched(true)
    ensures var s1 := Next(img, s, Exception).value.0;
            && Inv(img, s1) && s1.exception && s1.user && s1.progCounter == s.progCounter
            && s1.cur == s.cur && s1.terms[s.cur].count == 1
  {
    var raised := Enter(s).(exception := true);
    EnterOnBehalf(img, s);
    EnterFiles(img, s);
    RaiseOnBehalf(img, s, Enter(s));
    HaltEffect(img, raised, 0);
    NewRootAlone(raised, Resolve(img, Shell(img)).params);
    NextKeeps(img, s, Exception);
    NextCall(img, s, Exception);
    assert raised.progCounter == s.progCounter;
  }

  /** The three steps of such a run. */
  lemma TaintSteps(img: Image, s: State, cmd: seq<byte>)
    returns (s1: State, s2: State, a2: Answer, s3: State, a3: Answer)
    requires Inv(img, s) && s.user && s.terms[s.cur].count == 1 && s.progCounter < SLOTS && Runnable(img, cmd)
    ensures Next(img, s, Exception) == Some((s1, Relaunched(true)))
    ensures Next(img, s1, Execute(Some(cmd))) == Some((s2, a2)) && a2.Started?
    ensures Next(img, s2, Halt(0)) == Some((s3, a3)) && a3.Exited? && a3.code == EXCEPTION_CODE
  {
    RootRaises(img, s);
    s1 := Next(img, s, Exception).value.0;
    RunnableStarts(img, s1, cmd);
    s2, a2 := Next(img, s1, Execute(Some(cmd))).value.0, Next(img, s1, Execute(Some(cmd))).value.1;
    ChildHalts(img, s2, 0);
    s3, a3 := Next(img, s2, Halt(0)).value.0, Next(img, s2, Halt(0)).value.1;
  }

  /** A root dies by an exception; the next program its successor starts halts with status
      0, and is reported to have died by an exception. */
  lemma RootTaintsNextChild(img: Image, s: State, cmd: seq<byte>)
    requires Inv(img, s) && s.user && s.terms[s.cur].count == 1 && s.progCounter < SLOTS && Runnable(img, cmd)
    ensures var events := [Exception, Execute(Some(cmd)), Halt(0)];
            var answers := Machine.Answers(Kernel(img), s, events);
            && Run(img, s, events).Some?
            && answers[0] == Relaunched(true) && answers[1].Started?
            && answers[2].Exited? && answers[2].code == EXCEPTION_CODE
            && RootDiedSince(events[..2], answers[..2])
  {
    var s1, s2, a2, s3, a3 := TaintSteps(img, s, cmd);
    ThreeSteps(Kernel(img), s, s1, s2, s3, Exception, Execute(Some(cmd)), Halt(0), Relaunched(true), a2, a3);
    Tainted(cmd, a2, a3);
  }

  lemma Tainted(cmd: seq<byte>, a2: Answer, a3: Answer)
    requires a2.Started?
    ensures RootDiedSince([Exception, Execute(Some(cmd)), Halt(0)][..2], [Relaunched(true), a2, a3][..2])
  {
    var events, answers := [Exception, Execute(Some(cmd))], [Relaunched(true), a2];
    assert [Exception, Execute(Some(cmd)), Halt(0)][..2] == events && [Relaunched(true), a2, a3][..2] == answers;
    assert events[..1] == [Exception] && answers[..1] == [Relaunched(true)];
    assert RootDiedSince([Exception], [Relaunched(true)]);
  }

  // ---------------------------------------------------------------------------
  // A child's halt takes the caller's video page

  lemma VidmapEffect(s: State)
    requires Shape(s) && s.terms[s.cur].count > 0
    ensures DoVidmap(Enter(s), MB_128).Ran? && DoVidmap(Enter(s), MB_128).answer == Replied(D.Code(0))
    ensures var s1 := DoVidmap(Enter(s), MB_128).s;
            var p := Top(s.terms[s.cur]);
            && s1.user && s1.mapping == s.mapping.(video := true)
            && s1.terms == s.terms && s1.cur == s.cur && s1.active == s.active && s1.progCounter == s.progCounter
            && s1.pcbs == s.pcbs[p := s.pcbs[p].(video := true)]
  {
  }

  lemma VidmapMaps(img: Image, s: State) returns (s1: State)
    requires Inv(img, s) && s.user
    ensures Next(img, s, Vidmap(MB_128)) == Some((s1, Replied(D.Code(0)))) && Inv(img, s1)
    ensures s1.user && s1.mapping == s.mapping.(video := true) && s1.active == s.active
    ensures s1.terms == s.terms && s1.cur == s.cur && s1.progCounter == s.progCounter
    ensures var p := Top(s.terms[s.cur]); s1.pcbs == s.pcbs[p := s.pcbs[p].(video := true)]
  {
    VidmapEffect(s);
    NextCall(img, s, Vidmap(MB_128));
    NextKeeps(img, s, Vidmap(MB_128));
    s1 := DoVidmap(Enter(s), MB_128).s;
  }

  /** A program maps the video page, runs another program, and no longer has the page when
      that one halts. */
  lemma VideoPageLost(img: Image, s: State, cmd: seq<byte>, l: Layout)
    requires Inv(img, s) && s.user && Runnable(img, cmd) && l.table0 != l.tableVideo
    requires s.terms[s.cur].count < PER_TERMINAL && s.progCounter < SLOTS
    ensures Next(img, s, Vidmap(MB_128)).Some?
    ensures var s1 := Next(img, s, Vidmap(MB_128)).value.0;
            var end := Run(img, s, [Vidmap(MB_128), Execute(Some(cmd)), Halt(0)]);
            && Shape(s1) && s1.terms[s1.cur].count > 0 && end.Some? && GivenBack(s1, end.value)
            && Walk(l, TablesOf(l, s1.mapping), MB_132, true).Some?
            && Walk(l, TablesOf(l, end.value.mapping), MB_132, true).None?
  {
    var s1 := VidmapMaps(img, s);
    var a1 := Replied(D.Code(0));
    RunnableStarts(img, s1, cmd);
    var (s2, a2) := Next(img, s1, Execute(Some(cmd))).value;
    ChildHalts(img, s2, 0);
    var (s3, a3) := Next(img, s2, Halt(0)).value;
    NestedCall(img, s1, Execute(Some(cmd)), [], Halt(0), l);
    ThreeSteps(Kernel(img), s, s1, s2, s3, Vidmap(MB_128), Execute(Some(cmd)), Halt(0), a1, a2, a3);
    UserWalk(l, s1.mapping, MB_132);
    UserWalk(l, s3.mapping, MB_132);
  }

  // ---------------------------------------------------------------------------
  // When the video page is mapped, and for whom

  /** The page after a step: taken by a child's exit, given by `vidmap`, and, when a process
      resumes, given if that process asked for it but never taken if it did not. The frame
      shown changes only when a process that asked for the page resumes: to the display's
      for the displayed terminal, to its own backup page for another. */
  ghost predicate VideoRule(s: State, e: Event, s': State, a: Answer)
    requires |s.pcbs| == SLOTS
  {
    match a
    case Exited(_, _) => s'.mapping.video == false && s'.mapping.videoFrame == s.mapping.videoFrame
    case Resumed(p, _) =>
      && p < SLOTS
      && s'.mapping.video == (s.mapping.video || s.pcbs[p].video)
      && s'.mapping.videoFrame ==
         if !s.pcbs[p].video then s.mapping.videoFrame
         else if s'.cur == s.active then 0xB8
         else 0xB9 + s'.cur
    case _ =>
      && s'.mapping.video == (s.mapping.video || (e.Vidmap? && a == Replied(D.Code(0))))
      && s'.mapping.videoFrame == s.mapping.videoFrame
  }

  predicate SamePage(s: State, s': State) {
    s'.mapping.video == s.mapping.video && s'.mapping.videoFrame == s.mapping.videoFrame
  }

  lemma HaltVideo(img: Image, s: State, s1: State, status: byte, e: Event)
    requires Bootable(img) && Inside(s1) && Shape(s) && s1.mapping == s.mapping && !e.Vidmap?
    ensures DoHalt(img, s1, status).Ran?
    ensures VideoRule(s, e, DoHalt(img, s1, status).s, DoHalt(img, s1, status).answer)
  {
    HaltEffect(img, s1, status);
    if s1.terms[s1.cur].count == 1 {
      LaunchEffect(WithoutTop(s1), NextSlot(s1).value, Resolve(img, Shell(img)).params);
    }
  }

  lemma TickedPage(s: State)
    requires Shape(s) && s.terms[s.cur].count > 0
    ensures Ticked(s).mapping == s.mapping && Ticked(s).active == s.active
  {
  }

  lemma WokenPage(s: State)
    requires Shape(s) && s.terms[s.cur].count > 0
    requires var pcb := s.pcbs[Top(s.terms[s.cur])]; pcb.termEbp.Some? && pcb.termEbp.value.frame.TickFrame?
    ensures var pcb := s.pcbs[Top(s.terms[s.cur])];
            var m := Woken(s).mapping;
            && m.video == (s.mapping.video || pcb.video) && Woken(s).cur == s.cur
            && m.videoFrame == if pcb.video then ScreenFrame(s.cur, s.active) else s.mapping.videoFrame
  {
  }

  lemma ResumeVideo(img: Image, s: State)
    requires Inv(img, s) && s.terms[NextTerm(s)].count > 0
    ensures DoTick(img, s).Ran? && VideoRule(s, Tick, DoTick(img, s).s, DoTick(img, s).answer)
  {
    TickResumes(img, s);
    NextNotRunning(s);
    TickedPage(s);
    WokenPage(Ticked(s));
  }

  lemma ShellVideo(img: Image, s: State)
    requires Inv(img, s) && s.terms[NextTerm(s)].count == 0 && DoTick(img, s).Ran?
    ensures VideoRule(s, Tick, DoTick(img, s).s, DoTick(img, s).answer)
  {
    TickStarts(img, s);
    TickedPage(s);
    LaunchEffect(Ticked(s), FirstFree(Ticked(s).pcbs).value, Resolve(img, Shell(img)).params);
  }

  lemma TickVideo(img: Image, s: State)
    requires Inv(img, s) && DoTick(img, s).Ran?
    ensures VideoRule(s, Tick, DoTick(img, s).s, DoTick(img, s).answer)
  {
    if s.terms[NextTerm(s)].count > 0 {
      ResumeVideo(img, s);
    } else {
      ShellVideo(img, s);
    }
  }

  lemma ExecuteVideo(img: Image, s: State, command: Option<seq<byte>>)
    requires WellFormed(img) && Shape(s) && (command.Some? ==> IsCommand(command.value))
    ensures ExecuteCall(img, s, command).Ran?
    ensures var r := ExecuteCall(img, s, command);
            SamePage(s, r.s) && (r.answer.Started? || (r.answer.Replied? && r.answer.reply.Code?))
  {
    if command.Some? {
      match DoExecute(img, s, command.value)
      case Refused(_) =>
      case Launched(_, slot) => LaunchEffect(s, slot, Resolve(img, command.value).params);
    }
  }

  lemma ReadVideo(img: Image, s: State, fd: int, n: int)
    requires WellFormed(img) && Shape(s) && BlocksOk(img, s) && DoRead(img, s, fd, n).Ran?
    ensures SamePage(s, DoRead(img, s, fd, n).s) && DoRead(img, s, fd, n).answer.Replied?
  {
  }

  lemma VidmapVideo(s: State, addr: int)
    requires Shape(s) && DoVidmap(s, addr).Ran?
    ensures var r := DoVidmap(s, addr);
            && r.answer.Replied? && r.answer.reply.Code? && r.s.mapping.videoFrame == s.mapping.videoFrame
            && r.s.mapping.video == (s.mapping.video || r.answer.reply == D.Code(0))
  {
  }

  /** The calls that end no process. */
  lemma CallVideo(img: Image, s: State, e: Event)
    requires Bootable(img) && Shape(s) && BlocksOk(img, s) && IsCall(e) && !e.Halt? && !e.Exception?
    requires e.Execute? && e.cmd.Some? ==> IsCommand(e.cmd.value)
    requires Call(img, s, e).Ran?
    ensures VideoRule(s, e, Call(img, s, e).s, Call(img, s, e).answer)
  {
    match e
    case Execute(command) => ExecuteVideo(img, s, command);
    case Read(fd, n) => ReadVideo(img, s, fd, n);
    case Vidmap(addr) => VidmapVideo(s, addr);
    case _ =>
  }

  lemma DyingVideo(img: Image, s: State, e: Event)
    requires Inv(img, s) && s.user && (e.Halt? || e.Exception?)
    ensures Next(img, s, e).Some? && VideoRule(s, e, Next(img, s, e).value.0, Next(img, s, e).value.1)
  {
    EnterOnBehalf(img, s);
    EnterFiles(img, s);
    NextCall(img, s, e);
    if e.Halt? {
      HaltVideo(img, s, Enter(s), e.status, e);
    } else {
      RaiseOnBehalf(img, s, Enter(s));
      HaltVideo(img, s, Enter(s).(exception := true), 0, e);
    }
  }

  lemma EnteredVideo(s: State, s1: State, e: Event, s': State, a: Answer)
    requires Shape(s) && Shape(s1) && s1.mapping == s.mapping && s1.pcbs == s.pcbs && s1.active == s.active
    requires VideoRule(s1, e, s', a)
    ensures VideoRule(s, e, s', a)
  {
  }

  /** The rule holds of every step. */
  lemma StepVideo(img: Image, s: State, e: Event)
    requires Inv(img, s) && Next(img, s, e).Some?
    ensures VideoRule(s, e, Next(img, s, e).value.0, Next(img, s, e).value.1)
  {
    if e.Tick? {
      NextTick(img, s);
      TickVideo(img, s);
    } else if !Enabled(s, e) || !IsCall(e) {
      NextStill(img, s, e);
    } else if e.Halt? || e.Exception? {
      DyingVideo(img, s, e);
    } else {
      NextCall(img, s, e);
      CallVideo(img, Enter(s), e);
      EnterFiles(img, s);
      EnteredVideo(s, Enter(s), e, Next(img, s, e).value.0, Next(img, s, e).value.1);
    }
  }

  /** After a tick into a process that did not ask for the page, the page is where it was. */
  lemma PageStays(img: Image, s: State)
    requires Inv(img, s) && s.mapping.video && s.terms[NextTerm(s)].count > 0
    requires !s.pcbs[Top(s.terms[NextTerm(s)])].video
    ensures DoTick(img, s).Ran?
    ensures var r := DoTick(img, s).s;
            && Shape(r) && r.terms == s.terms && r.cur == NextTerm(s)
            && !r.pcbs[Top(s.terms[NextTerm(s)])].video
            && r.mapping.video && r.mapping.videoFrame == s.mapping.videoFrame
  {
    TickResumes(img, s);
    NextNotRunning(s);
    TickedPage(s);
    WokenPage(Ticked(s));
  }

  /** One process asks for the video page; after the next tick a process on another
      terminal that never did reaches the page through the same address. */
  lemma VideoPageLeaks(img: Image, s: State, l: Layout)
    requires Inv(img, s) && s.user && l.table0 != l.tableVideo && s.terms[NextTerm(s)].count > 0
    requires !s.pcbs[Top(s.terms[NextTerm(s)])].video
    ensures var end := Run(img, s, [Vidmap(MB_128), Tick]);
            && end.Some? && Shape(end.value) && end.value.terms[end.value.cur].count > 0
            && var p := Top(end.value.terms[end.value.cur]);
               && p == Top(s.terms[NextTerm(s)]) && !end.value.pcbs[p].video
               && Walk(l, TablesOf(l, end.value.mapping), MB_132, true) == Some(s.mapping.videoFrame * PAGE)
  {
    var s1 := VidmapMaps(img, s);
    NextNotRunning(s);
    PageStays(img, s1);
    NextTick(img, s1);
    var s2 := DoTick(img, s1).s;
    UserWalk(l, s2.mapping, MB_132);
    TwoSteps(Kernel(img), s, s1, s2, Vidmap(MB_128), Tick);
  }

  lemma TwoSteps<S, E, A>(step: (S, E) -> Option<(S, A)>, s0: S, s1: S, s2: S, e1: E, e2: E)
    requires step(s0, e1).Some? && step(s0, e1).value.0 == s1
    requires step(s1, e2).Some? && step(s1, e2).value.0 == s2
    ensures Machine.Run(step, s0, [e1, e2]) == Some(s2)
  {
    assert [e1, e2][1..] == [e2] && [e2][1..] == [];
    assert Machine.Run(step, s1, [e2]) == Some(s2);
  }
}
