/** The process, terminal and scheduler state machine: what one system call, exception
    or timer tick does to the kernel's tables (student-distrib/process.c,
    student-distrib/system_call.c, student-distrib/scheduling.c).

    System calls and handlers enter through interrupt gates (student-distrib/idt.c:54-59),
    so each of them is one step; the only places where a tick can arrive inside the
    kernel are the waits for the keyboard and for the clock. */
module Processes {
  import opened Base
  import opened FileSystem
  import opened Command
  import opened Paging
  import D = Descriptors

  const SLOTS: int := 6
  const PER_TERMINAL: int := 4
  const KSTACK_BOTTOM: int := 0x80_0000
  const KSTACK_SIZE: int := 0x2000
  const LIMIT_REACHED: int := 1
  const EXCEPTION_CODE: int := 256
  const MB_128: int := 0x0800_0000
  const MB_132: int := 0x0840_0000

  function ShellByte(i: int): byte {
    if i == 0 then 115 else if i == 1 then 104 else if i == 2 then 101 else if i == 3 || i == 4 then 108 else 0
  }

  /** The command that starts a shell, on any image: the text "shell" and its NUL. */
  function Shell(img: Image): seq<byte> {
    seq(6, i => ShellByte(i))
  }

  /** A frame on a kernel stack: of the `_execute` call that started process `child`, of
      the `nth` tick that preempted process `owner`, or of a blocked read. Processes are
      named by birth number, which is never reused. */
  datatype Frame =
    | ExecFrame(child: nat)
    | TickFrame(owner: nat, nth: nat, fromUser: bool)
    | WaitFrame(owner: nat)

  /** A saved EBP: the kernel stack it points into, and the frame found there. */
  datatype Ebp = Ebp(stack: nat, frame: Frame)

  /** A process control block. `born` and `preempted` are history kept by the model
      alone: the birth number of the process in this slot, and how often it was preempted. */
  datatype Pcb = Pcb(
    status: bool, pid: nat, parent: Option<nat>, files: seq<D.Fd>, term: nat,
    ebp: Ebp, termEbp: Option<Ebp>, video: bool, params: seq<byte>,
    born: nat, preempted: nat)

  /** `prog_pids` and `term_prog_counter` of a terminal. */
  datatype Term = Term(pids: seq<nat>, count: nat)

  /** The kernel's globals. `stacks` is what the six kernel stacks hold, `cpu` the one the
      processor last entered, and `user` whether it runs user code. */
  datatype State = State(
    pcbs: seq<Pcb>, terms: seq<Term>, progCounter: int,
    cur: nat, prev: nat, active: nat,
    fileArray: nat, esp0: int, mapping: Mapping, exception: bool,
    stacks: seq<seq<Frame>>, cpu: nat, user: bool, spawned: nat)

  datatype Event =
    | Execute(cmd: Option<seq<byte>>)
    | Halt(status: byte)
    | Exception
    | Tick
    | Open(name: seq<byte>)
    | Read(fd: int, n: int)
    | Close(fd: int)
    | Wake
    | Vidmap(addr: int)
    | GetArgs(n: int)
    | Display(term: nat)

  /** What a step means to the processes: a system call returned, a process started, a
      terminal's root was replaced, a child's exit code reached its parent, or a
      preempted process went on from a saved frame. */
  datatype Answer =
    | Quiet
    | Replied(reply: D.Reply)
    | Started(pid: nat)
    | Relaunched(byException: bool)
    | Exited(code: int, back: Ebp)
    | Resumed(pid: nat, back: Ebp)

  datatype Why = NoProcess | NullParent | StaleFrame | NoFrame | LaunchRefused

  datatype Outcome = Ran(s: State, answer: Answer) | Fault(why: Why)

  function EspOf(pid: nat): int {
    KSTACK_BOTTOM - KSTACK_SIZE * pid
  }

  function StackOf(esp0: int): int {
    (KSTACK_BOTTOM - esp0) / KSTACK_SIZE
  }

  predicate EbpShape(e: Ebp) {
    e.stack < SLOTS
  }

  predicate PcbShape(p: Pcb) {
    && D.Sized(p.files)
    && (p.parent.Some? ==> p.parent.value < SLOTS)
    && p.pid < SLOTS
    && EbpShape(p.ebp)
    && (p.termEbp.Some? ==> EbpShape(p.termEbp.value))
  }

  predicate TermShape(t: Term) {
    && |t.pids| == PER_TERMINAL && t.count <= PER_TERMINAL
    && forall i :: 0 <= i < PER_TERMINAL ==> t.pids[i] < SLOTS
  }

  /** Sizes and index ranges. */
  predicate Shape(s: State) {
    && |s.pcbs| == SLOTS && (forall p :: 0 <= p < SLOTS ==> PcbShape(s.pcbs[p]))
    && |s.terms| == TERMINALS && (forall t :: 0 <= t < TERMINALS ==> TermShape(s.terms[t]))
    && |s.stacks| == SLOTS
    && s.cur < TERMINALS && s.active < TERMINALS
    && s.fileArray < SLOTS && s.cpu < SLOTS && 0 <= StackOf(s.esp0) < SLOTS
  }

  /** Every block's descriptors have delivered what their files hold, and every live block's
      arguments fit their field of 128 bytes with a NUL. */
  predicate BlocksOk(img: Image, s: State)
    requires WellFormed(img)
  {
    && (forall p :: 0 <= p < |s.pcbs| ==> D.Consistent(img, s.pcbs[p].files))
    && (forall p :: 0 <= p < |s.pcbs| && s.pcbs[p].status ==> |s.pcbs[p].params| < PARAMS_LEN)
  }

  /** An image the system can boot from: well formed, with an executable shell. */
  predicate Bootable(img: Image) {
    WellFormed(img) && IsCommand(Shell(img)) && Resolve(img, Shell(img)).Loadable?
  }

  /** The shell's arguments fit their field. */
  lemma ShellFits(img: Image)
    requires Bootable(img)
    ensures |Tail(Shell(img))| < PARAMS_LEN && Resolve(img, Shell(img)).params == Tail(Shell(img))
  {
  }

  predicate Ready(img: Image, s: State) {
    Bootable(img) && Shape(s) && BlocksOk(img, s)
  }

  function Top(t: Term): nat
    requires TermShape(t) && t.count > 0
  {
    t.pids[t.count - 1]
  }

  function SetPcb(s: State, p: nat, pcb: Pcb): State
    requires Shape(s) && p < SLOTS
  {
    s.(pcbs := s.pcbs[p := pcb])
  }

  function SetTerm(s: State, t: Term): State
    requires Shape(s)
  {
    s.(terms := s.terms[s.cur := t])
  }

  function Push(s: State, f: Frame): State
    requires Shape(s)
  {
    s.(stacks := s.stacks[s.cpu := s.stacks[s.cpu] + [f]])
  }

  /** Entering the kernel: from user code the processor starts at `tss.esp0`, so whatever
      that stack held is overwritten. */
  function Enter(s: State): (r: State)
    requires Shape(s)
    ensures Shape(r)
  {
    if s.user then
      var k := StackOf(s.esp0);
      s.(stacks := s.stacks[k := []], cpu := k, user := false)
    else s
  }

  function FindFrameFrom(stack: seq<Frame>, f: Frame, i: nat): (r: Option<nat>)
    requires i <= |stack|
    ensures r.Some? ==> i <= r.value < |stack| && stack[r.value] == f
    decreases |stack| - i
  {
    if i == |stack| then None else if stack[i] == f then Some(i) else FindFrameFrom(stack, f, i + 1)
  }

  /** Where a frame lies on a kernel stack, counted from its base. */
  function FindFrame(stack: seq<Frame>, f: Frame): (r: Option<nat>)
    ensures r.Some? ==> r.value < |stack| && stack[r.value] == f
  {
    FindFrameFrom(stack, f, 0)
  }

  lemma {:induction false} FrameFound(stack: seq<Frame>, f: Frame, i: nat, k: nat)
    requires i <= k < |stack| && stack[k] == f && forall j :: i <= j < k ==> stack[j] != f
    ensures FindFrameFrom(stack, f, i) == Some(k)
    decreases k - i
  {
    if i < k {
      FrameFound(stack, f, i + 1, k);
    }
  }

  /** Loading a saved EBP and returning through the frame there: the stack is cut back to
      below that frame. There is nothing to return through when the frame is gone. */
  function Return(s: State, e: Ebp): (r: Option<State>)
    requires Shape(s) && EbpShape(e)
    ensures r.Some? ==> Shape(r.value)
  {
    match FindFrame(s.stacks[e.stack], e.frame)
    case None => None
    case Some(k) => Some(s.(stacks := s.stacks[e.stack := s.stacks[e.stack][..k]], cpu := e.stack))
  }

  function FirstFreeFrom(pcbs: seq<Pcb>, i: nat): (r: Option<nat>)
    requires i <= |pcbs|
    ensures r.Some? ==> i <= r.value < |pcbs| && !pcbs[r.value].status
    decreases |pcbs| - i
  {
    if i == |pcbs| then None else if !pcbs[i].status then Some(i) else FirstFreeFrom(pcbs, i + 1)
  }

  /** `get_active_pcb` (student-distrib/process.c:93-107): the first free slot. */
  function FirstFree(pcbs: seq<Pcb>): (r: Option<nat>)
    ensures r.Some? ==> r.value < |pcbs| && !pcbs[r.value].status
  {
    FirstFreeFrom(pcbs, 0)
  }

  lemma {:induction false} FirstFreeFromMeans(pcbs: seq<Pcb>, i: nat)
    requires i <= |pcbs|
    ensures var r := FirstFreeFrom(pcbs, i);
            && (r.Some? ==> forall k :: i <= k < r.value ==> pcbs[k].status)
            && (r.None? ==> forall k :: i <= k < |pcbs| ==> pcbs[k].status)
    decreases |pcbs| - i
  {
    if i < |pcbs| && pcbs[i].status {
      FirstFreeFromMeans(pcbs, i + 1);
    }
  }

  /** It is free and all before it are taken; if there is none, all are taken. */
  lemma FirstFreeMeans(pcbs: seq<Pcb>)
    ensures var r := FirstFree(pcbs);
            && (r.Some? ==> !pcbs[r.value].status && forall k :: 0 <= k < r.value ==> pcbs[k].status)
            && (r.None? ==> forall k :: 0 <= k < |pcbs| ==> pcbs[k].status)
  {
    FirstFreeFromMeans(pcbs, 0);
  }

  /** The control block of a new process. The slot's saved frames, video flag and closed
      descriptors are whatever its last owner left there. */
  function NewPcb(s: State, slot: nat): (r: Pcb)
    requires Shape(s) && slot < SLOTS
    ensures PcbShape(r)
  {
    var t := s.terms[s.cur];
    s.pcbs[slot].(
      status := true, pid := slot, files := D.Fresh(s.pcbs[slot].files),
      parent := if t.count == 0 then None else Some(Top(t)),
      term := s.cur, born := s.spawned, preempted := 0)
  }

  /** `create_pcb` (student-distrib/process.c:42-83) in a slot known to be free. */
  function CreateAt(s: State, slot: nat): (r: State)
    requires Shape(s) && slot < SLOTS && s.terms[s.cur].count < PER_TERMINAL
    ensures Shape(r)
  {
    var t := s.terms[s.cur];
    SetTerm(SetPcb(s, slot, NewPcb(s, slot)), Term(t.pids[t.count := slot], t.count + 1))
      .(progCounter := s.progCounter + 1, fileArray := slot, spawned := s.spawned + 1)
  }

  /** The rest of `_execute` (student-distrib/system_call.c:166-188): paging, arguments,
      the saved EBP, and the switch to user code on the new kernel stack. */
  function LaunchAt(s: State, slot: nat, params: seq<byte>): (r: State)
    requires Shape(s) && slot < SLOTS && s.terms[s.cur].count < PER_TERMINAL
    ensures Shape(r)
  {
    var frame := ExecFrame(s.spawned);
    var s1 := CreateAt(s, slot);
    var s2 := SetPcb(s1, slot, s1.pcbs[slot].(params := params, ebp := Ebp(s.cpu, frame)));
    Push(s2, frame).(
      mapping := s.mapping.(program := Some(slot)),
      esp0 := EspOf(Top(s2.terms[s2.cur])), user := true)
  }

  datatype Launch = Refused(ret: int) | Launched(s: State, slot: nat)

  /** `_execute` (student-distrib/system_call.c:127-191), entered on kernel stack `cpu`. */
  function DoExecute(img: Image, s: State, cmd: seq<byte>): (r: Launch)
    requires WellFormed(img) && Shape(s) && IsCommand(cmd)
    ensures r.Launched? ==> Shape(r.s)
  {
    if s.terms[s.cur].count >= PER_TERMINAL || s.progCounter >= SLOTS then Refused(LIMIT_REACHED)
    else
      match Resolve(img, cmd)
      case Unloadable => Refused(-1)
      case Loadable(_, params) =>
        match FirstFree(s.pcbs)
        case None => Refused(-1)
        case Some(slot) => Launched(LaunchAt(s, slot, params), slot)
  }

  /** The part of `halt` both cases share (student-distrib/system_call.c:39-52): the child
      is marked dead and the files of the current file array are closed. */
  function Bury(s: State, child: nat): (r: State)
    requires Shape(s) && child < SLOTS
    ensures Shape(r)
  {
    var s1 := SetPcb(s, child, s.pcbs[child].(status := false, parent := None));
    SetPcb(s1, s.fileArray, s1.pcbs[s.fileArray].(files := D.CloseBelow(s1.pcbs[s.fileArray].files, D.FILE_LIMIT)))
  }

  /** The current terminal without its root. */
  function Vacate(s: State): (r: State)
    requires Shape(s)
    ensures Shape(r)
  {
    SetTerm(s, s.terms[s.cur].(count := 0)).(progCounter := s.progCounter - 1)
  }

  /** `halt` of a terminal's root (student-distrib/system_call.c:55-60). */
  function HaltRoot(img: Image, s: State): Outcome
    requires Bootable(img) && Shape(s)
  {
    match DoExecute(img, Vacate(s), Shell(img))
    case Refused(_) => Fault(NullParent)
    case Launched(s1, _) => Ran(s1, Relaunched(s.exception))
  }

  /** A child's halt up to the return to its parent (student-distrib/system_call.c:61-71,
      96-99): the parent's files, page and kernel stack are current again. */
  function LeaveChild(s: State, child: nat, parent: nat): (r: State)
    requires Shape(s) && child < SLOTS && parent < SLOTS && s.terms[s.cur].count > 1
    ensures Shape(r)
  {
    var t := s.terms[s.cur];
    var popped := t.(count := t.count - 1);
    SetTerm(SetPcb(s, child, s.pcbs[child].(video := false)), popped).(
      mapping := s.mapping.(video := false, program := Some(s.pcbs[parent].pid)),
      fileArray := parent, progCounter := s.progCounter - 1, exception := false,
      esp0 := EspOf(Top(popped)))
  }

  /** `halt` of a child (student-distrib/system_call.c:61-80): back to the parent through
      the frame the child's own `_execute` saved. */
  function HaltChild(s: State, child: nat, parent: nat, status: byte): Outcome
    requires Shape(s) && child < SLOTS && parent < SLOTS && s.terms[s.cur].count > 0
  {
    if s.terms[s.cur].count == 1 then Fault(NoProcess)
    else
      var code := if s.exception then EXCEPTION_CODE else status;
      var back := s.pcbs[child].ebp;
      match Return(LeaveChild(s, child, parent), back)
      case None => Fault(StaleFrame)
      case Some(s2) => Ran(s2.(user := true), Exited(code, back))
  }

  function DoHalt(img: Image, s: State, status: byte): Outcome
    requires Bootable(img) && Shape(s)
  {
    var t := s.terms[s.cur];
    if t.count == 0 then Fault(NoProcess)
    else
      var child := Top(t);
      match s.pcbs[child].parent
      case None => HaltRoot(img, Bury(s, child))
      case Some(parent) => HaltChild(Bury(s, child), child, parent, status)
  }

  /** The first half of `switch_process` (student-distrib/scheduling.c:73-89) with the
      rotation of `pit_handler`: the interrupted process's frame is saved. */
  function Preempt(s: State, fromUser: bool): (r: State)
    requires Shape(s) && s.terms[s.cur].count > 0
    ensures Shape(r)
  {
    var p := Top(s.terms[s.cur]);
    var pcb := s.pcbs[p];
    var frame := TickFrame(pcb.born, pcb.preempted + 1, fromUser);
    Push(SetPcb(s, p, pcb.(termEbp := Some(Ebp(s.cpu, frame)), preempted := pcb.preempted + 1)), frame)
      .(prev := s.cur, cur := (s.cur + 1) % TERMINALS)
  }

  /** The second half (student-distrib/scheduling.c:104-125): the next terminal's top
      process goes on. */
  function Dispatch(s: State): Outcome
    requires Shape(s) && s.terms[s.cur].count > 0
  {
    var p := Top(s.terms[s.cur]);
    var pcb := s.pcbs[p];
    var m := s.mapping.(program := Some(p));
    var s1 := s.(
      mapping := if pcb.video then m.(video := true, videoFrame := ScreenFrame(s.cur, s.active)) else m,
      esp0 := EspOf(p), fileArray := p);
    match pcb.termEbp
    case None => Fault(NoFrame)
    case Some(back) =>
      match Return(s1, back)
      case None => Fault(StaleFrame)
      case Some(s2) => Ran(s2.(user := back.frame.TickFrame? && back.frame.fromUser), Resumed(p, back))
  }

  /** `pit_handler` (student-distrib/scheduling.c:188-201). A terminal without a process
      gets a shell, unless `_execute` refuses. */
  function DoTick(img: Image, s: State): Outcome
    requires Bootable(img) && Shape(s)
  {
    if s.progCounter == 0 then Ran(s, Quiet)
    else if s.terms[s.cur].count == 0 then Fault(NoProcess)
    else
      var s1 := Preempt(Enter(s), s.user);
      if s1.terms[s1.cur].count == 0 then
        match DoExecute(img, s1, Shell(img))
        case Refused(_) => Fault(LaunchRefused)
        case Launched(s2, slot) => Ran(s2, Started(slot))
      else Dispatch(s1)
  }

  /** A system call that leaves the processes alone and returns to user code. */
  function Back(s: State, reply: D.Reply): Outcome {
    Ran(s.(user := true), Replied(reply))
  }

  function SetFiles(s: State, files: seq<D.Fd>): (r: State)
    requires Shape(s) && D.Sized(files)
    ensures Shape(r)
  {
    SetPcb(s, s.fileArray, s.pcbs[s.fileArray].(files := files))
  }

  function DoRead(img: Image, s: State, fd: int, n: int): Outcome
    requires WellFormed(img) && Shape(s) && BlocksOk(img, s)
  {
    var (files, reply) := D.Read(img, s.pcbs[s.fileArray].files, fd, n);
    if reply.Blocks? then
      if s.terms[s.cur].count == 0 then Fault(NoProcess)
      else Ran(Push(s, WaitFrame(s.pcbs[Top(s.terms[s.cur])].born)), Replied(D.Blocks))
    else Back(SetFiles(s, files), reply)
  }

  /** `vidmap` (student-distrib/system_call.c:346-363). */
  function DoVidmap(s: State, addr: int): Outcome
    requires Shape(s)
  {
    if addr < MB_128 || addr >= MB_132 then Back(s, D.Code(-1))
    else if s.terms[s.cur].count == 0 then Fault(NoProcess)
    else
      var p := Top(s.terms[s.cur]);
      Back(SetPcb(s, p, s.pcbs[p].(video := true)).(mapping := s.mapping.(video := true)), D.Code(0))
  }

  /** `getargs` (student-distrib/system_call.c:322-335). */
  function DoGetArgs(s: State, n: int): Outcome
    requires Shape(s)
  {
    if s.terms[s.cur].count == 0 then Fault(NoProcess)
    else
      match Fetch(s.pcbs[Top(s.terms[s.cur])].params, n)
      case None => Back(s, D.Code(-1))
      case Some(text) => Back(s, D.Data(text))
  }

  /** The `execute` system call: a null command, or one that is refused, returns to its
      caller. */
  function ExecuteCall(img: Image, s: State, command: Option<seq<byte>>): Outcome
    requires WellFormed(img) && Shape(s) && (command.Some? ==> IsCommand(command.value))
  {
    match command
    case None => Back(s, D.Code(-1))
    case Some(cmd) =>
      match DoExecute(img, s, cmd)
      case Refused(ret) => Back(s, D.Code(ret))
      case Launched(s1, slot) => Ran(s1, Started(slot))
  }

  predicate Enabled(s: State, e: Event) {
    match e
    case Tick => true
    case Wake => !s.user
    case Display(t) => t < TERMINALS
    case Execute(Some(cmd)) => s.user && IsCommand(cmd) && |Tail(cmd)| < PARAMS_LEN
    case _ => s.user
  }

  /** The system calls and the exception: what the running process asks for or brings about. */
  predicate IsCall(e: Event) {
    !(e.Tick? || e.Wake? || e.Display?)
  }

  /** A system call or an exception, inside the kernel. */
  function Call(img: Image, s: State, e: Event): Outcome
    requires Bootable(img) && Shape(s) && BlocksOk(img, s) && IsCall(e)
    requires e.Execute? && e.cmd.Some? ==> IsCommand(e.cmd.value)
  {
    match e
    case Execute(command) => ExecuteCall(img, s, command)
    case Halt(status) => DoHalt(img, s, status)
    case Exception => DoHalt(img, s.(exception := true), 0)
    case Open(name) =>
      var (files, ret) := D.Open(img, s.pcbs[s.fileArray].files, name);
      Back(SetFiles(s, files), D.Code(ret))
    case Read(fd, n) => DoRead(img, s, fd, n)
    case Close(fd) =>
      var (files, ret) := D.Close(s.pcbs[s.fileArray].files, fd);
      Back(SetFiles(s, files), D.Code(ret))
    case Vidmap(addr) => DoVidmap(s, addr)
    case GetArgs(n) => DoGetArgs(s, n)
  }

  /** One step. An event that cannot happen in a state leaves it alone, so that every
      sequence of events is a run. */
  function Step(img: Image, s: State, e: Event): Outcome
    requires Ready(img, s)
  {
    if !Enabled(s, e) then Ran(s, Quiet)
    else
      match e
      case Tick => DoTick(img, s)
      case Wake => Ran(s.(stacks := s.stacks[s.cpu := []], user := true), Quiet)
      case Display(t) => Ran(Enter(s).(user := s.user, active := t), Quiet)
      case _ => Call(img, Enter(s), e)
  }
}
