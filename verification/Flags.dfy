/** The flag that says a process asked for the video page lives in the process's slot. It
    goes up by `vidmap`, down by a child's exit, and by nothing else: a root's halt leaves
    it, and a new process finds it as it is (student-distrib/process.c:42-83,
    student-distrib/system_call.c:55-63). */
module Flags {
  import opened Base
  import opened FileSystem
  import opened Command
  import opened Processes
  import opened Invariants
  import opened Steps
  import opened Effects
  import opened Runs
  import opened Differences
  import D = Descriptors

  predicate SameFlags(pcbs: seq<Pcb>, pcbs': seq<Pcb>) {
    |pcbs| == |pcbs'| == SLOTS && forall q :: 0 <= q < SLOTS ==> pcbs'[q].video == pcbs[q].video
  }

  /** Every slot's flag after a step. */
  predicate FlagRule(s: State, e: Event, s': State, a: Answer)
    requires Shape(s) && s.terms[s.cur].count > 0
  {
    var p := Top(s.terms[s.cur]);
    && |s'.pcbs| == SLOTS
    && forall q :: 0 <= q < SLOTS ==>
         (s'.pcbs[q].video <==>
          if q == p && e.Vidmap? && a == Replied(D.Code(0)) then true
          else if q == p && a.Exited? then false
          else s.pcbs[q].video)
  }

  lemma SameRule(s: State, e: Event, s': State, a: Answer)
    requires Shape(s) && s.terms[s.cur].count > 0 && SameFlags(s.pcbs, s'.pcbs) && !a.Exited? && !e.Vidmap?
    ensures FlagRule(s, e, s', a)
  {
  }

  lemma LaunchFlags(s: State, slot: nat, params: seq<byte>)
    requires Shape(s) && slot < SLOTS && s.terms[s.cur].count < PER_TERMINAL
    ensures SameFlags(s.pcbs, LaunchAt(s, slot, params).pcbs)
  {
    LaunchEffect(s, slot, params);
  }

  lemma SameThenSame(a: seq<Pcb>, b: seq<Pcb>, c: seq<Pcb>)
    requires SameFlags(a, b) && SameFlags(b, c)
    ensures SameFlags(a, c)
  {
  }

  lemma BuriedFlags(s: State)
    requires Shape(s) && s.terms[s.cur].count > 0
    ensures SameFlags(s.pcbs, WithoutTop(s).pcbs)
  {
  }

  lemma RootFlags(s: State, params: seq<byte>)
    requires Inside(s) && s.terms[s.cur].count == 1
    ensures NextSlot(s).Some? && SameFlags(s.pcbs, NewRoot(s, params).pcbs)
  {
    RoomForRoot(s);
    BuriedFlags(s);
    LaunchFlags(WithoutTop(s), NextSlot(s).value, params);
    SameThenSame(s.pcbs, WithoutTop(s).pcbs, NewRoot(s, params).pcbs);
  }

  lemma ChildFlags(s: State, e: Event, code: int, back: Ebp)
    requires Shape(s) && s.terms[s.cur].count > 1 && !e.Vidmap?
    ensures FlagRule(s, e, BackToParent(s), Exited(code, back))
  {
    BackUntouched(s);
  }

  lemma HaltFlags(img: Image, s: State, status: byte, e: Event)
    requires Bootable(img) && Inside(s) && !e.Vidmap?
    ensures DoHalt(img, s, status).Ran?
    ensures FlagRule(s, e, DoHalt(img, s, status).s, DoHalt(img, s, status).answer)
  {
    HaltEffect(img, s, status);
    var r := DoHalt(img, s, status);
    if s.terms[s.cur].count == 1 {
      RootFlags(s, Resolve(img, Shell(img)).params);
      SameRule(s, e, r.s, r.answer);
    } else {
      ChildFlags(s, e, r.answer.code, r.answer.back);
    }
  }

  lemma ExecuteFlags(img: Image, s: State, command: Option<seq<byte>>)
    requires WellFormed(img) && Shape(s) && (command.Some? ==> IsCommand(command.value))
    ensures ExecuteCall(img, s, command).Ran? && !ExecuteCall(img, s, command).answer.Exited?
    ensures SameFlags(s.pcbs, ExecuteCall(img, s, command).s.pcbs)
  {
    if command.Some? && DoExecute(img, s, command.value).Launched? {
      LaunchFlags(s, DoExecute(img, s, command.value).slot, Resolve(img, command.value).params);
    }
  }

  lemma SetFilesFlags(s: State, files: seq<D.Fd>)
    requires Shape(s) && D.Sized(files)
    ensures SameFlags(s.pcbs, SetFiles(s, files).pcbs)
  {
  }

  lemma ReadFlags(img: Image, s: State, fd: int, n: int)
    requires WellFormed(img) && Shape(s) && BlocksOk(img, s) && DoRead(img, s, fd, n).Ran?
    ensures SameFlags(s.pcbs, DoRead(img, s, fd, n).s.pcbs) && !DoRead(img, s, fd, n).answer.Exited?
  {
    SetFilesFlags(s, D.Read(img, s.pcbs[s.fileArray].files, fd, n).0);
  }

  lemma GetArgsFlags(s: State, n: int)
    requires Shape(s) && DoGetArgs(s, n).Ran?
    ensures SameFlags(s.pcbs, DoGetArgs(s, n).s.pcbs) && !DoGetArgs(s, n).answer.Exited?
  {
  }

  lemma OpenFlags(img: Image, s: State, e: Event)
    requires Bootable(img) && Shape(s) && BlocksOk(img, s) && (e.Open? || e.Close?)
    ensures Call(img, s, e).Ran? && !Call(img, s, e).answer.Exited?
    ensures SameFlags(s.pcbs, Call(img, s, e).s.pcbs)
  {
    CallIs(img, s, e);
    var files := s.pcbs[s.fileArray].files;
    SetFilesFlags(s, if e.Open? then D.Open(img, files, e.name).0 else D.Close(files, e.fd).0);
  }

  lemma VidmapFlags(s: State, addr: int)
    requires Shape(s) && s.terms[s.cur].count > 0
    ensures DoVidmap(s, addr).Ran? && FlagRule(s, Vidmap(addr), DoVidmap(s, addr).s, DoVidmap(s, addr).answer)
  {
  }

  lemma CallFlags(img: Image, s: State, e: Event)
    requires Bootable(img) && Inside(s) && BlocksOk(img, s) && IsCall(e)
    requires e.Execute? && e.cmd.Some? ==> IsCommand(e.cmd.value)
    requires Call(img, s, e).Ran?
    ensures FlagRule(s, e, Call(img, s, e).s, Call(img, s, e).answer)
  {
    var r := Call(img, s, e);
    CallIs(img, s, e);
    if e.Execute? {
      ExecuteFlags(img, s, e.cmd);
      SameRule(s, e, r.s, r.answer);
    } else if e.Halt? {
      HaltFlags(img, s, e.status, e);
    } else if e.Exception? {
      RaiseInside(s);
      HaltFlags(img, s.(exception := true), 0, e);
    } else if e.Vidmap? {
      VidmapFlags(s, e.addr);
    } else if e.Read? {
      ReadFlags(img, s, e.fd, e.n);
      SameRule(s, e, r.s, r.answer);
    } else if e.Open? || e.Close? {
      OpenFlags(img, s, e);
      SameRule(s, e, r.s, r.answer);
    } else {
      GetArgsFlags(s, e.n);
      SameRule(s, e, r.s, r.answer);
    }
  }

  lemma TickedFlags(s: State)
    requires Shape(s) && s.terms[s.cur].count > 0
    ensures SameFlags(s.pcbs, Ticked(s).pcbs)
  {
  }

  lemma TickFlags(img: Image, s: State)
    requires Inv(img, s) && DoTick(img, s).Ran?
    ensures SameFlags(s.pcbs, DoTick(img, s).s.pcbs) && !DoTick(img, s).answer.Exited?
  {
    TickedFlags(s);
    if s.terms[NextTerm(s)].count > 0 {
      TickResumes(img, s);
    } else {
      TickStarts(img, s);
      LaunchFlags(Ticked(s), FirstFree(Ticked(s).pcbs).value, Resolve(img, Shell(img)).params);
      SameThenSame(s.pcbs, Ticked(s).pcbs, DoTick(img, s).s.pcbs);
    }
  }

  /** The rule holds of every step. */
  lemma StepFlags(img: Image, s: State, e: Event)
    requires Inv(img, s) && Next(img, s, e).Some?
    ensures FlagRule(s, e, Next(img, s, e).value.0, Next(img, s, e).value.1)
  {
    if e.Tick? {
      NextTick(img, s);
      TickFlags(img, s);
    } else if Enabled(s, e) && IsCall(e) {
      NextCall(img, s, e);
      EnterOnBehalf(img, s);
      CallFlags(img, Enter(s), e);
    } else {
      NextStill(img, s, e);
    }
  }

  // ---------------------------------------------------------------------------
  // A new shell inherits the flag

  lemma LowestIs(pcbs: seq<Pcb>, p: nat)
    requires p < |pcbs| && !pcbs[p].status && forall q :: 0 <= q < p ==> pcbs[q].status
    ensures FirstFree(pcbs) == Some(p)
  {
    FirstFreeMeans(pcbs);
  }

  lemma RootKeepsSlot(s: State)
    requires Inside(s) && s.terms[s.cur].count == 1 && forall q :: 0 <= q < s.cpu ==> s.pcbs[q].status
    ensures NextSlot(s) == Some(s.cpu)
  {
    LowestIs(WithoutTop(s).pcbs, s.cpu);
  }

  lemma RootSucceeds(img: Image, s: State)
    requires Inv(img, s) && s.user && s.terms[s.cur].count == 1
    requires forall q :: 0 <= q < Top(s.terms[s.cur]) ==> s.pcbs[q].status
    ensures Next(img, s, Halt(0)).Some? && Next(img, s, Halt(0)).value.1.Relaunched?
    ensures var r := Next(img, s, Halt(0)).value.0;
            && Shape(r) && r.cur == s.cur && r.terms[r.cur].count == 1
            && Top(r.terms[r.cur]) == Top(s.terms[s.cur]) && r.pcbs[Top(r.terms[r.cur])].born == s.spawned
  {
    EnterOnBehalf(img, s);
    NextCall(img, s, Halt(0));
    HaltEffect(img, Enter(s), 0);
    RootKeepsSlot(Enter(s));
    NewRootAlone(Enter(s), Resolve(img, Shell(img)).params);
    LaunchEffect(WithoutTop(Enter(s)), NextSlot(Enter(s)).value, Resolve(img, Shell(img)).params);
  }

  /** A root whose slot is the lowest free one once it is gone maps the video page and halts:
      the shell that replaces it has the flag without having asked. */
  lemma FlagInherited(img: Image, s: State)
    requires Inv(img, s) && s.user && s.terms[s.cur].count == 1
    requires forall q :: 0 <= q < Top(s.terms[s.cur]) ==> s.pcbs[q].status
    ensures var end := Run(img, s, [Vidmap(MB_128), Halt(0)]);
            && end.Some? && Shape(end.value) && end.value.terms[end.value.cur].count == 1
            && var p := Top(end.value.terms[end.value.cur]);
               end.value.pcbs[p].born >= s.spawned && end.value.pcbs[p].video
  {
    var s1 := VidmapMaps(img, s);
    NextEffect(img, s, Vidmap(MB_128));
    RootSucceeds(img, s1);
    StepFlags(img, s1, Halt(0));
    TwoSteps(Kernel(img), s, s1, Next(img, s1, Halt(0)).value.0, Vidmap(MB_128), Halt(0));
  }
}
