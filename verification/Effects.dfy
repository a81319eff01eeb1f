/** What one step of the process machine can change: which processes it leaves untouched,
    how the pid stacks, the scheduled terminal and the exception flag move. */
module Effects {
  import opened Base
  import opened FileSystem
  import opened Command
  import opened Processes
  import opened Agreement
  import opened Invariants
  import opened Steps
  import D = Descriptors

  /** The exception flag, told by events and answers alone: raised when a root dies by an
      exception, lowered when a child exits. */
  function NextFlag(flag: bool, e: Event, a: Answer): bool {
    if a.Exited? then false
    else if a.Relaunched? && e.Exception? then true
    else flag
  }

  predicate RightCode(flag: bool, e: Event, a: Answer) {
    a.Exited? ==>
      match e
      case Halt(status) => a.code == if flag then EXCEPTION_CODE else status
      case Exception => a.code == EXCEPTION_CODE
      case _ => false
  }

  function NextCur(cur: nat, e: Event): nat {
    if e.Tick? then (cur + 1) % TERMINALS else cur
  }

  /** Below the tops of both, the two stacks hold the same processes. */
  predicate SameBelow(a: Term, b: Term) {
    && |a.pids| == |b.pids| == PER_TERMINAL
    && forall i :: 0 <= i < PER_TERMINAL && i < a.count - 1 && i < b.count - 1 ==> a.pids[i] == b.pids[i]
  }

  /** The same process, with the arguments, the caller's frame and the parent it started with. */
  predicate SameStart(a: Pcb, b: Pcb) {
    a.params == b.params && a.ebp == b.ebp && a.parent == b.parent && a.term == b.term
  }

  /** A step on behalf of the running process `p`: no other live process's control block
      changes. */
  predicate Untouched(pcbs: seq<Pcb>, pcbs': seq<Pcb>, p: nat) {
    && |pcbs| == |pcbs'| == SLOTS && p < SLOTS
    && (forall q :: 0 <= q < SLOTS && pcbs[q].status && q != p ==> pcbs'[q] == pcbs[q])
  }

  /** Block `b` takes the place of `a`: the same process with what it started with, or a
      process born since. */
  predicate Succeeds(a: Pcb, b: Pcb, spawned: nat) {
    b.status ==> b.born >= spawned || (a.status && b.born == a.born && SameStart(a, b))
  }

  predicate AllSucceed(pcbs: seq<Pcb>, pcbs': seq<Pcb>, spawned: nat) {
    && |pcbs| == |pcbs'| == SLOTS
    && forall q :: 0 <= q < SLOTS ==> Succeeds(pcbs[q], pcbs'[q], spawned)
  }

  predicate Stacked(terms: seq<Term>, terms': seq<Term>) {
    && |terms| == |terms'| == TERMINALS
    && forall t :: 0 <= t < TERMINALS ==> SameBelow(terms[t], terms'[t])
  }

  /** Only terminal `c` may have gained or lost a process. */
  predicate OnlyAt(terms: seq<Term>, terms': seq<Term>, c: nat) {
    && |terms| == |terms'| == TERMINALS
    && forall t :: 0 <= t < TERMINALS && t != c ==> terms'[t] == terms[t]
  }

  predicate Effect(s: State, e: Event, s': State, a: Answer)
    requires Shape(s) && s.terms[s.cur].count > 0
  {
    && Untouched(s.pcbs, s'.pcbs, Top(s.terms[s.cur]))
    && AllSucceed(s.pcbs, s'.pcbs, s.spawned) && s'.spawned >= s.spawned
    && Stacked(s.terms, s'.terms) && OnlyAt(s.terms, s'.terms, s'.cur)
    && s'.cur == NextCur(s.cur, e)
    && s'.exception == NextFlag(s.exception, e, a)
    && RightCode(s.exception, e, a)
  }

  /** A step that changes at most the running process's files or video flag. */
  ghost predicate Mild(s: State, s': State, a: Answer) {
    && Shape(s) && s.terms[s.cur].count > 0
    && s'.terms == s.terms && s'.cur == s.cur && s'.exception == s.exception && s'.spawned == s.spawned
    && !a.Exited? && !a.Relaunched?
    && exists pcb :: SamePlace(s.pcbs[Top(s.terms[s.cur])], pcb) && SameFrames(s.pcbs[Top(s.terms[s.cur])], pcb)
         && pcb.params == s.pcbs[Top(s.terms[s.cur])].params
         && s'.pcbs == s.pcbs[Top(s.terms[s.cur]) := pcb]
  }

  lemma MildEffect(s: State, e: Event, s': State, a: Answer)
    requires Mild(s, s', a) && !e.Tick?
    ensures Effect(s, e, s', a)
  {
  }

  /** Inside the kernel the running process may change its own block; back outside, the
      step was mild. */
  lemma InnerMild(s: State, s1: State, pcb: Pcb, s2: State, a: Answer)
    requires Shape(s) && s.terms[s.cur].count > 0
    requires s1.pcbs == s.pcbs && s1.terms == s.terms && s1.cur == s.cur && s1.exception == s.exception
    requires s1.spawned == s2.spawned == s.spawned
    requires s2.pcbs == s1.pcbs[Top(s.terms[s.cur]) := pcb]
    requires s2.terms == s1.terms && s2.cur == s1.cur && s2.exception == s1.exception
    requires SamePlace(s.pcbs[Top(s.terms[s.cur])], pcb) && SameFrames(s.pcbs[Top(s.terms[s.cur])], pcb)
    requires pcb.params == s.pcbs[Top(s.terms[s.cur])].params
    requires !a.Exited? && !a.Relaunched?
    ensures Mild(s, s2, a)
  {
  }

  lemma SetFilesMild(s: State, files: seq<D.Fd>, reply: D.Reply)
    requires Shape(s) && s.terms[s.cur].count > 0 && s.fileArray == Top(s.terms[s.cur]) && D.Sized(files)
    ensures Mild(s, SetFiles(Enter(s), files).(user := true), Replied(reply))
  {
    var p := s.fileArray;
    InnerMild(s, Enter(s), s.pcbs[p].(files := files), SetFiles(Enter(s), files).(user := true), Replied(reply));
  }

  /** System calls that start or end no process are mild. */
  lemma OpenMild(img: Image, s: State, name: seq<byte>)
    requires WellFormed(img) && Shape(s) && s.terms[s.cur].count > 0 && s.fileArray == Top(s.terms[s.cur])
    ensures var s1 := Enter(s);
            var (files, ret) := D.Open(img, s1.pcbs[s1.fileArray].files, name);
            Mild(s, SetFiles(s1, files).(user := true), Replied(D.Code(ret)))
  {
    var r := D.Open(img, s.pcbs[s.fileArray].files, name);
    SetFilesMild(s, r.0, D.Code(r.1));
  }

  lemma CloseMild(s: State, fd: int)
    requires Shape(s) && s.terms[s.cur].count > 0 && s.fileArray == Top(s.terms[s.cur])
    ensures var s1 := Enter(s);
            var (files, ret) := D.Close(s1.pcbs[s1.fileArray].files, fd);
            Mild(s, SetFiles(s1, files).(user := true), Replied(D.Code(ret)))
  {
    var r := D.Close(s.pcbs[s.fileArray].files, fd);
    SetFilesMild(s, r.0, D.Code(r.1));
  }

  lemma ReadMild(img: Image, s: State, fd: int, n: int)
    requires WellFormed(img) && Shape(s) && BlocksOk(img, Enter(s))
    requires s.terms[s.cur].count > 0 && s.fileArray == Top(s.terms[s.cur])
    ensures DoRead(img, Enter(s), fd, n).Ran?
    ensures Mild(s, DoRead(img, Enter(s), fd, n).s, DoRead(img, Enter(s), fd, n).answer)
  {
    var r := D.Read(img, Enter(s).pcbs[Enter(s).fileArray].files, fd, n);
    if r.1.Blocks? {
      var out := DoRead(img, Enter(s), fd, n);
      StillMild(s, out.s, out.answer);
    } else {
      SetFilesMild(s, r.0, r.1);
    }
  }

  lemma VidmapMild(s: State, addr: int)
    requires Shape(s) && s.terms[s.cur].count > 0
    ensures DoVidmap(Enter(s), addr).Ran?
    ensures Mild(s, DoVidmap(Enter(s), addr).s, DoVidmap(Enter(s), addr).answer)
  {
    var r := DoVidmap(Enter(s), addr);
    var p := Top(s.terms[s.cur]);
    assert s.pcbs[p := s.pcbs[p]] == s.pcbs;
    InnerMild(s, Enter(s), r.s.pcbs[p], r.s, r.answer);
  }

  /** A step that leaves every control block alone. */
  lemma StillMild(s: State, s': State, a: Answer)
    requires Shape(s) && s.terms[s.cur].count > 0
    requires s'.pcbs == s.pcbs && s'.terms == s.terms && s'.cur == s.cur && s'.exception == s.exception
    requires s'.spawned == s.spawned
    requires !a.Exited? && !a.Relaunched?
    ensures Mild(s, s', a)
  {
    var p := Top(s.terms[s.cur]);
    assert s.pcbs[p := s.pcbs[p]] == s.pcbs;
    InnerMild(s, s, s.pcbs[p], s', a);
  }

  lemma LaunchUntouched(s: State, slot: nat, params: seq<byte>)
    requires Shape(s) && slot < SLOTS && !s.pcbs[slot].status && s.terms[s.cur].count < PER_TERMINAL
    ensures var r := LaunchAt(s, slot, params);
            && (forall q :: 0 <= q < SLOTS && q != slot ==> r.pcbs[q] == s.pcbs[q])
            && r.pcbs[slot].born == s.spawned && r.spawned == s.spawned + 1
            && Stacked(s.terms, r.terms) && OnlyAt(s.terms, r.terms, s.cur)
            && r.cur == s.cur && r.exception == s.exception
  {
    LaunchEffect(s, slot, params);
  }

  lemma LaunchedEffect(s: State, s1: State, slot: nat, params: seq<byte>, e: Event, a: Answer)
    requires Shape(s) && Shape(s1) && s.terms[s.cur].count > 0 && s.pcbs[Top(s.terms[s.cur])].status
    requires s1.pcbs == s.pcbs && s1.terms == s.terms && s1.cur == s.cur && s1.exception == s.exception
    requires s1.spawned == s.spawned
    requires slot < SLOTS && !s.pcbs[slot].status && s.terms[s.cur].count < PER_TERMINAL
    requires !e.Tick? && !a.Exited? && !a.Relaunched?
    ensures Effect(s, e, LaunchAt(s1, slot, params), a)
  {
    LaunchUntouched(s1, slot, params);
  }

  /** `_execute` touches no live process. */
  lemma DoExecuteEffect(img: Image, s: State, s1: State, cmd: seq<byte>, e: Event)
    requires WellFormed(img) && IsCommand(cmd) && !e.Tick?
    requires Shape(s) && Shape(s1) && s.terms[s.cur].count > 0 && s.pcbs[Top(s.terms[s.cur])].status
    requires s1.pcbs == s.pcbs && s1.terms == s.terms && s1.cur == s.cur && s1.exception == s.exception
    requires s1.spawned == s.spawned
    ensures match DoExecute(img, s1, cmd)
            case Launched(s2, slot) => Effect(s, e, s2, Started(slot))
            case Refused(ret) => Effect(s, e, s1.(user := true), Replied(D.Code(ret)))
  {
    match DoExecute(img, s1, cmd)
    case Launched(s2, slot) =>
      LaunchedEffect(s, s1, slot, Resolve(img, cmd).params, e, Started(slot));
    case Refused(ret) =>
      StillMild(s, s1.(user := true), Replied(D.Code(ret)));
      MildEffect(s, e, s1.(user := true), Replied(D.Code(ret)));
  }

  lemma ExecuteEffect(img: Image, s: State, e: Event)
    requires Inv(img, s) && e.Execute? && Enabled(s, e)
    ensures Step(img, s, e).Ran? && Effect(s, e, Step(img, s, e).s, Step(img, s, e).answer)
  {
    TopAlive(s);
    if e.cmd.Some? {
      DoExecuteEffect(img, s, Enter(s), e.cmd.value, e);
    } else {
      StillMild(s, Enter(s).(user := true), Replied(D.Code(-1)));
      MildEffect(s, e, Enter(s).(user := true), Replied(D.Code(-1)));
    }
  }

  lemma NewRootUntouched(s: State, params: seq<byte>)
    requires Inside(s) && s.terms[s.cur].count == 1
    ensures NextSlot(s).Some?
    ensures var r := NewRoot(s, params);
            && (forall q :: 0 <= q < SLOTS && s.pcbs[q].status && q != s.cpu ==> r.pcbs[q] == s.pcbs[q])
            && (forall q :: 0 <= q < SLOTS && r.pcbs[q].status ==>
                  r.pcbs[q].born == s.spawned || (q != s.cpu && r.pcbs[q] == s.pcbs[q]))
            && r.spawned == s.spawned + 1
            && Stacked(s.terms, r.terms) && OnlyAt(s.terms, r.terms, s.cur)
            && r.cur == s.cur && r.exception == s.exception
  {
    RoomForRoot(s);
    LaunchEffect(WithoutTop(s), NextSlot(s).value, params);
  }

  lemma BackUntouched(s: State)
    requires Shape(s) && s.terms[s.cur].count > 1
    ensures var r := BackToParent(s);
            var p := Top(s.terms[s.cur]);
            && (forall q :: 0 <= q < SLOTS && q != p ==> r.pcbs[q] == s.pcbs[q])
            && !r.pcbs[p].status && r.spawned == s.spawned
            && Stacked(s.terms, r.terms) && OnlyAt(s.terms, r.terms, s.cur) && r.cur == s.cur && !r.exception
  {
    assert BackToParent(s).terms == Popped(s.terms, s.cur);
  }

  /** The event that makes the running process die, as `halt` sees it. */
  predicate Dying(s: State, s1: State, e: Event, status: byte) {
    && s1.pcbs == s.pcbs && s1.terms == s.terms && s1.cur == s.cur && s1.spawned == s.spawned
    && match e
       case Halt(st) => status == st && s1.exception == s.exception
       case Exception => s1.exception
       case _ => false
  }

  lemma RootDies(s: State, s1: State, e: Event, status: byte, params: seq<byte>)
    requires Shape(s) && Inside(s1) && s1.terms[s1.cur].count == 1 && Dying(s, s1, e, status)
    ensures NextSlot(s1).Some?
    ensures Effect(s, e, NewRoot(s1, params), Relaunched(s1.exception))
  {
    NewRootUntouched(s1, params);
  }

  lemma ChildDies(s: State, s1: State, e: Event, status: byte, back: Ebp)
    requires Shape(s) && Shape(s1) && s1.terms[s1.cur].count > 1 && Dying(s, s1, e, status)
    ensures Effect(s, e, BackToParent(s1), Exited(if s1.exception then EXCEPTION_CODE else status, back))
  {
    BackUntouched(s1);
  }

  /** Halting touches no process but the one that halts. `s1` is `s` inside the kernel. */
  lemma DyingEffect(img: Image, s: State, s1: State, e: Event, status: byte)
    requires Shape(s) && s.terms[s.cur].count > 0 && OnBehalf(img, s, s1) && Dying(s, s1, e, status)
    ensures DoHalt(img, s1, status).Ran?
    ensures Effect(s, e, DoHalt(img, s1, status).s, DoHalt(img, s1, status).answer)
  {
    HaltEffect(img, s1, status);
    if s1.terms[s1.cur].count == 1 {
      RootDies(s, s1, e, status, Resolve(img, Shell(img)).params);
    } else {
      ChildDies(s, s1, e, status, s1.pcbs[s1.cpu].ebp);
    }
  }

  lemma HaltStepEffect(img: Image, s: State, e: Event)
    requires Inv(img, s) && s.user && (e.Halt? || e.Exception?)
    ensures var r := Step(img, s, e); r.Ran? && Effect(s, e, r.s, r.answer)
  {
    EnterOnBehalf(img, s);
    EnterFiles(img, s);
    if e.Halt? {
      DyingEffect(img, s, Enter(s), e, e.status);
    } else {
      RaiseOnBehalf(img, s, Enter(s));
      DyingEffect(img, s, Enter(s).(exception := true), e, 0);
    }
  }

  lemma TickedUntouched(s: State)
    requires Shape(s) && s.terms[s.cur].count > 0
    ensures var r := Ticked(s);
            var p := Top(s.terms[s.cur]);
            && (forall q :: 0 <= q < SLOTS && q != p ==> r.pcbs[q] == s.pcbs[q])
            && SameStart(s.pcbs[p], r.pcbs[p]) && r.pcbs[p].status == s.pcbs[p].status
            && r.pcbs[p].born == s.pcbs[p].born
  {
  }

  lemma WokenEffect(s: State, a: Answer)
    requires Shape(s) && s.terms[s.cur].count > 0 && s.terms[NextTerm(s)].count > 0
    requires var s1 := Ticked(s);
             var pcb := s1.pcbs[Top(s1.terms[s1.cur])];
             pcb.termEbp.Some? && pcb.termEbp.value.frame.TickFrame?
    requires !a.Exited? && !a.Relaunched?
    ensures Effect(s, Tick, Woken(Ticked(s)), a)
  {
    TickedUntouched(s);
  }

  lemma FirstShellEffect(s: State, slot: nat, params: seq<byte>, a: Answer)
    requires Shape(s) && s.terms[s.cur].count > 0 && s.pcbs[Top(s.terms[s.cur])].status
    requires s.terms[NextTerm(s)].count == 0 && slot < SLOTS && !Ticked(s).pcbs[slot].status
    requires !a.Exited? && !a.Relaunched?
    ensures Effect(s, Tick, LaunchAt(Ticked(s), slot, params), a)
  {
    TickedUntouched(s);
    LaunchUntouched(Ticked(s), slot, params);
  }

  /** A tick changes no control block but the preempted one's, and no pid stack but that
      of a terminal it starts a shell on. */
  lemma TickStepEffect(img: Image, s: State)
    requires Inv(img, s)
    ensures DoTick(img, s).Ran? ==> Effect(s, Tick, DoTick(img, s).s, DoTick(img, s).answer)
  {
    if s.terms[NextTerm(s)].count > 0 {
      TickResumes(img, s);
      WokenEffect(s, DoTick(img, s).answer);
    } else {
      TickStarts(img, s);
      if s.progCounter < SLOTS {
        TopAlive(s);
        FirstShellEffect(s, FirstFree(Ticked(s).pcbs).value, Resolve(img, Shell(img)).params, DoTick(img, s).answer);
      }
    }
  }

  lemma TopAlive(s: State)
    requires Scheduled(s)
    ensures s.pcbs[Top(s.terms[s.cur])].status
  {
    var n := s.terms[s.cur].count - 1;
    assert Position(s.terms, s.cur, n) && Linked(s.pcbs, s.terms, s.cur, n);
  }

  /** The effect of every step. */
  lemma StepEffect(img: Image, s: State, e: Event)
    requires Inv(img, s) && Step(img, s, e).Ran?
    ensures Effect(s, e, Step(img, s, e).s, Step(img, s, e).answer)
  {
    var r := Step(img, s, e);
    if e.Tick? {
      TickStepEffect(img, s);
    } else if Enabled(s, e) && (e.Halt? || e.Exception?) {
      HaltStepEffect(img, s, e);
    } else if Enabled(s, e) && e.Execute? {
      ExecuteEffect(img, s, e);
    } else {
      QuietMild(img, s, e);
      MildEffect(s, e, r.s, r.answer);
    }
  }

  /** The system calls that start or end no process, inside the kernel. */
  lemma InsideMild(img: Image, s: State, e: Event)
    requires Bootable(img) && Shape(s) && s.terms[s.cur].count > 0 && s.fileArray == Top(s.terms[s.cur])
    requires BlocksOk(img, Enter(s)) && (e.Open? || e.Close? || e.Read? || e.Vidmap? || e.GetArgs?)
    ensures var r := Call(img, Enter(s), e); r.Ran? && Mild(s, r.s, r.answer)
  {
    match e
    case Open(name) => OpenMild(img, s, name);
    case Close(fd) => CloseMild(s, fd);
    case Read(fd, n) => ReadMild(img, s, fd, n);
    case Vidmap(addr) => VidmapMild(s, addr);
    case GetArgs(n) => GetArgsMild(s, n);
  }

  lemma CallMild(img: Image, s: State, e: Event)
    requires Inv(img, s) && Enabled(s, e) && (e.Open? || e.Close? || e.Read? || e.Vidmap? || e.GetArgs?)
    ensures Step(img, s, e).Ran? && Mild(s, Step(img, s, e).s, Step(img, s, e).answer)
  {
    EnterFiles(img, s);
    InsideMild(img, s, e);
  }

  lemma GetArgsMild(s: State, n: int)
    requires Shape(s) && s.terms[s.cur].count > 0
    ensures DoGetArgs(Enter(s), n).Ran?
    ensures Mild(s, DoGetArgs(Enter(s), n).s, DoGetArgs(Enter(s), n).answer)
  {
    var r := DoGetArgs(Enter(s), n);
    StillMild(s, r.s, r.answer);
  }

  /** The events that change no control block. */
  lemma StillStep(img: Image, s: State, e: Event)
    requires Ready(img, s) && s.terms[s.cur].count > 0 && (!Enabled(s, e) || e.Wake? || e.Display?)
    ensures Step(img, s, e).Ran? && Mild(s, Step(img, s, e).s, Step(img, s, e).answer)
  {
    StillMild(s, Step(img, s, e).s, Quiet);
  }

  lemma QuietMild(img: Image, s: State, e: Event)
    requires Inv(img, s)
    requires !Enabled(s, e) || !(e.Tick? || e.Halt? || e.Exception? || e.Execute?)
    ensures Step(img, s, e).Ran? && Mild(s, Step(img, s, e).s, Step(img, s, e).answer)
  {
    if !Enabled(s, e) || e.Wake? || e.Display? {
      StillStep(img, s, e);
    } else {
      CallMild(img, s, e);
    }
  }
}
