/** Every step of every event keeps the invariant of the process machine. */
module Steps {
  import opened Base
  import opened FileSystem
  import opened Command
  import opened Paging
  import opened Processes
  import opened Invariants
  import D = Descriptors

  /** Replacing the running process's files by consistent ones, inside a system call. */
  lemma FilesKeep(img: Image, s: State, files: seq<D.Fd>)
    requires WellFormed(img) && BlocksOk(img, s) && Inside(s)
    requires D.Sized(files) && D.Consistent(img, files)
    ensures Scheduled(SetFiles(s, files).(user := true)) && BlocksOk(img, SetFiles(s, files))
  {
    UpdateKeeps(s, s.pcbs[s.cpu].(files := files));
    LeaveKeeps(SetFiles(s, files));
    SetFilesOk(img, s, files);
  }

  lemma SetFilesOk(img: Image, s: State, files: seq<D.Fd>)
    requires WellFormed(img) && Shape(s) && BlocksOk(img, s) && D.Sized(files) && D.Consistent(img, files)
    ensures BlocksOk(img, SetFiles(s, files))
  {
  }

  lemma EnterFiles(img: Image, s: State)
    requires WellFormed(img) && Shape(s) && BlocksOk(img, s)
    ensures BlocksOk(img, Enter(s))
    ensures Enter(s).terms == s.terms && Enter(s).pcbs == s.pcbs && Enter(s).cur == s.cur
    ensures Enter(s).exception == s.exception && Enter(s).spawned == s.spawned
    ensures Enter(s).mapping == s.mapping
  {
  }

  /** A step that moves no process between terminals keeps the invariant if the rest is in order. */
  lemma SamePlaces(img: Image, s: State, s': State, a: Answer)
    requires Bootable(img) && Scheduled(s') && BlocksOk(img, s')
    requires AllOwned(s) ==> AllOwned(s')
    ensures Kept(img, s, Ran(s', a))
  {
  }

  lemma SameTerms(img: Image, s: State, r: Outcome)
    requires r.Ran? && Bootable(img) && Scheduled(r.s) && BlocksOk(img, r.s) && r.s.terms == s.terms
    ensures Kept(img, s, r)
  {
  }

  lemma LaunchOwned(s: State, slot: nat, params: seq<byte>)
    requires Shape(s) && slot < SLOTS && s.terms[s.cur].count < PER_TERMINAL && AllOwned(s)
    ensures AllOwned(LaunchAt(s, slot, params))
  {
    LaunchEffect(s, slot, params);
  }

  /** A system call body that starts from inside the kernel on behalf of `s`. */
  ghost predicate OnBehalf(img: Image, s: State, s1: State) {
    Bootable(img) && Inside(s1) && BlocksOk(img, s1) && s1.terms == s.terms
  }

  /** The `execute` system call, refused or not. */
  lemma ExecuteCallKeeps(img: Image, s: State, s1: State, command: Option<seq<byte>>)
    requires OnBehalf(img, s, s1)
    requires command.Some? ==> IsCommand(command.value) && |Tail(command.value)| < PARAMS_LEN
    ensures Kept(img, s, ExecuteCall(img, s1, command))
  {
    ExecuteSplits(img, s1, command);
    if command.Some? && DoExecute(img, s1, command.value).Launched? {
      LaunchedKeeps(img, s, s1, command.value);
    } else {
      LeaveKeeps(s1);
      SameTerms(img, s, ExecuteCall(img, s1, command));
    }
  }

  /** A refused `execute` answers its caller; a granted one goes on in the new process. */
  lemma ExecuteSplits(img: Image, s: State, command: Option<seq<byte>>)
    requires WellFormed(img) && Shape(s) && (command.Some? ==> IsCommand(command.value))
    ensures var r := ExecuteCall(img, s, command);
            if command.Some? && DoExecute(img, s, command.value).Launched? then
              var l := DoExecute(img, s, command.value); r == Ran(l.s, Started(l.slot))
            else r.Ran? && r.s == s.(user := true)
  {
  }

  lemma LaunchedKeeps(img: Image, s: State, s1: State, cmd: seq<byte>)
    requires OnBehalf(img, s, s1) && IsCommand(cmd) && |Tail(cmd)| < PARAMS_LEN && DoExecute(img, s1, cmd).Launched?
    ensures var r := DoExecute(img, s1, cmd); Kept(img, s, Ran(r.s, Started(r.slot)))
  {
    var r := DoExecute(img, s1, cmd);
    ExecuteKeeps(img, s1, cmd);
    if AllOwned(s) {
      LaunchOwned(s1, r.slot, Resolve(img, cmd).params);
    }
    SamePlaces(img, s, r.s, Started(r.slot));
  }

  lemma OpenKeeps(img: Image, s: State, s1: State, name: seq<byte>)
    requires OnBehalf(img, s, s1)
    ensures var (files, ret) := D.Open(img, s1.pcbs[s1.fileArray].files, name);
            Kept(img, s, Back(SetFiles(s1, files), D.Code(ret)))
  {
    var files := s1.pcbs[s1.fileArray].files;
    D.OpenConsistent(img, files, name);
    var (after, ret) := D.Open(img, files, name);
    FilesKeep(img, s1, after);
    SameTerms(img, s, Back(SetFiles(s1, after), D.Code(ret)));
  }

  lemma CloseKeeps(img: Image, s: State, s1: State, fd: int)
    requires OnBehalf(img, s, s1)
    ensures var (files, ret) := D.Close(s1.pcbs[s1.fileArray].files, fd);
            Kept(img, s, Back(SetFiles(s1, files), D.Code(ret)))
  {
    var files := s1.pcbs[s1.fileArray].files;
    D.CloseConsistent(img, files, fd);
    var (after, ret) := D.Close(files, fd);
    FilesKeep(img, s1, after);
    SameTerms(img, s, Back(SetFiles(s1, after), D.Code(ret)));
  }

  /** Whichever file it reads, a read keeps the invariant or leaves its process waiting. */
  lemma ReadKeeps(img: Image, s: State, s1: State, fd: int, n: int)
    requires OnBehalf(img, s, s1)
    ensures Kept(img, s, DoRead(img, s1, fd, n))
  {
    var files := s1.pcbs[s1.fileArray].files;
    var (after, reply) := D.Read(img, files, fd, n);
    var r := DoRead(img, s1, fd, n);
    if reply.Blocks? {
      WaitKeeps(s1);
    } else {
      D.ReadConsistent(img, files, fd, n);
      FilesKeep(img, s1, after);
      assert r.Ran? && r.s == SetFiles(s1, after).(user := true);
    }
    SameTerms(img, s, r);
  }

  lemma MapKeeps(s: State, m: Mapping)
    requires Scheduled(s) && m.program == s.mapping.program && m.videoFrame == s.mapping.videoFrame
    ensures Scheduled(s.(mapping := m))
  {
  }

  lemma VidmapScheduled(s: State, addr: int)
    requires Inside(s)
    ensures var r := DoVidmap(s, addr);
            r.Ran? && Scheduled(r.s) && r.s.terms == s.terms
  {
    if MB_128 <= addr < MB_132 {
      var pcb := s.pcbs[s.cpu].(video := true);
      UpdateKeeps(s, pcb);
      LeaveKeeps(SetPcb(s, s.cpu, pcb));
      MapKeeps(SetPcb(s, s.cpu, pcb).(user := true), s.mapping.(video := true));
    } else {
      LeaveKeeps(s);
    }
  }

  lemma VidmapFiles(img: Image, s: State, addr: int)
    requires WellFormed(img) && Shape(s) && BlocksOk(img, s) && s.terms[s.cur].count > 0
    ensures DoVidmap(s, addr).Ran? && BlocksOk(img, DoVidmap(s, addr).s)
  {
  }

  lemma VidmapKeeps(img: Image, s: State, s1: State, addr: int)
    requires OnBehalf(img, s, s1)
    ensures Kept(img, s, DoVidmap(s1, addr))
  {
    VidmapScheduled(s1, addr);
    VidmapFiles(img, s1, addr);
    SameTerms(img, s, DoVidmap(s1, addr));
  }

  lemma GetArgsKeeps(img: Image, s: State, s1: State, n: int)
    requires OnBehalf(img, s, s1)
    ensures Kept(img, s, DoGetArgs(s1, n))
  {
    LeaveKeeps(s1);
    SameTerms(img, s, DoGetArgs(s1, n));
  }

  lemma HaltOnBehalf(img: Image, s: State, s1: State, status: byte)
    requires OnBehalf(img, s, s1)
    ensures Kept(img, s, DoHalt(img, s1, status))
  {
    HaltKeeps(img, s1, status);
    if AllOwned(s) {
      HaltOwned(img, s1, status);
    }
    var r := DoHalt(img, s1, status);
    SamePlaces(img, s, r.s, r.answer);
  }

  lemma EnterOnBehalf(img: Image, s: State)
    requires Inv(img, s) && s.user
    ensures OnBehalf(img, s, Enter(s))
  {
    EnterKeeps(s);
    EnterFiles(img, s);
  }

  lemma RaiseInside(s: State)
    requires Inside(s)
    ensures Inside(s.(exception := true))
  {
  }

  lemma RaiseOnBehalf(img: Image, s: State, s1: State)
    requires OnBehalf(img, s, s1)
    ensures OnBehalf(img, s, s1.(exception := true))
  {
    RaiseInside(s1);
    assert s1.(exception := true).pcbs == s1.pcbs;
  }

  /** An interrupt that switches no process, taken in user code or inside a wait. */
  lemma DisplayKeeps(s: State, t: nat)
    requires Scheduled(s) && t < TERMINALS
    ensures Scheduled(Enter(s).(user := s.user, active := t))
  {
    if s.user {
      EnterKeeps(s);
      LeaveKeeps(Enter(s));
    }
  }

  lemma OtherStepKeeps(img: Image, s: State, e: Event)
    requires Inv(img, s) && Enabled(s, e) && (e.Wake? || e.Display?)
    ensures Kept(img, s, Step(img, s, e))
  {
    EnterFiles(img, s);
    var r := Step(img, s, e);
    if e.Wake? {
      WakeKeeps(s);
    } else {
      DisplayKeeps(s, e.term);
    }
    SamePlaces(img, s, r.s, r.answer);
  }

  lemma TickStepKeeps(img: Image, s: State)
    requires Inv(img, s)
    ensures Kept(img, s, DoTick(img, s))
  {
    TickKeeps(img, s);
    if AllOwned(s) {
      TickOwned(img, s);
    }
  }

  /** Every system call and every exception, inside the kernel. */
  lemma CallKeeps(img: Image, s: State, s1: State, e: Event)
    requires OnBehalf(img, s, s1) && IsCall(e)
    requires e.Execute? && e.cmd.Some? ==> IsCommand(e.cmd.value) && |Tail(e.cmd.value)| < PARAMS_LEN
    ensures Kept(img, s, Call(img, s1, e))
  {
    CallIs(img, s1, e);
    match e
    case Execute(command) => ExecuteCallKeeps(img, s, s1, command);
    case Halt(status) => HaltOnBehalf(img, s, s1, status);
    case Exception => RaiseOnBehalf(img, s, s1); HaltOnBehalf(img, s, s1.(exception := true), 0);
    case Open(name) => OpenKeeps(img, s, s1, name);
    case Close(fd) => CloseKeeps(img, s, s1, fd);
    case Read(fd, n) => ReadKeeps(img, s, s1, fd, n);
    case Vidmap(addr) => VidmapKeeps(img, s, s1, addr);
    case GetArgs(n) => GetArgsKeeps(img, s, s1, n);
  }

  // The call each event stands for, as one equation per event: `CallKeeps` needs no more of `Call`.
  lemma CallIs(img: Image, s: State, e: Event)
    requires Bootable(img) && Shape(s) && BlocksOk(img, s) && IsCall(e)
    requires e.Execute? && e.cmd.Some? ==> IsCommand(e.cmd.value)
    ensures e.Execute? ==> Call(img, s, e) == ExecuteCall(img, s, e.cmd)
    ensures e.Halt? ==> Call(img, s, e) == DoHalt(img, s, e.status)
    ensures e.Exception? ==> Call(img, s, e) == DoHalt(img, s.(exception := true), 0)
    ensures e.Open? ==> var (files, ret) := D.Open(img, s.pcbs[s.fileArray].files, e.name);
                        Call(img, s, e) == Back(SetFiles(s, files), D.Code(ret))
    ensures e.Close? ==> var (files, ret) := D.Close(s.pcbs[s.fileArray].files, e.fd);
                         Call(img, s, e) == Back(SetFiles(s, files), D.Code(ret))
    ensures e.Read? ==> Call(img, s, e) == DoRead(img, s, e.fd, e.n)
    ensures e.Vidmap? ==> Call(img, s, e) == DoVidmap(s, e.addr)
    ensures e.GetArgs? ==> Call(img, s, e) == DoGetArgs(s, e.n)
  {
  }

  /** An event that cannot happen changes nothing. */
  lemma DisabledKeeps(img: Image, s: State, e: Event)
    requires Inv(img, s) && !Enabled(s, e)
    ensures Kept(img, s, Step(img, s, e))
  {
  }

  lemma CallStep(img: Image, s: State, e: Event)
    requires Ready(img, s) && Enabled(s, e) && IsCall(e)
    ensures BlocksOk(img, Enter(s)) && Step(img, s, e) == Call(img, Enter(s), e)
  {
  }

  lemma CallStepKeeps(img: Image, s: State, e: Event)
    requires Inv(img, s) && Enabled(s, e) && IsCall(e)
    ensures Kept(img, s, Step(img, s, e))
  {
    EnterOnBehalf(img, s);
    CallKeeps(img, s, Enter(s), e);
    CallStep(img, s, e);
  }

  /** Every step of every event keeps the invariant; the one thing that can go wrong is
      the refused launch of a terminal's first shell. */
  lemma StepKeeps(img: Image, s: State, e: Event)
    requires Inv(img, s)
    ensures Kept(img, s, Step(img, s, e))
  {
    if e.Tick? {
      TickStepKeeps(img, s);
    } else if !Enabled(s, e) {
      DisabledKeeps(img, s, e);
    } else if IsCall(e) {
      CallStepKeeps(img, s, e);
    } else {
      OtherStepKeeps(img, s, e);
    }
  }
}
