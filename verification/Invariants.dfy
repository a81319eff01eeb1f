/** What every step of the process machine keeps: the terminals' pid stacks, the control
    blocks, the counters, the page directory, `tss.esp0`, the file array and the saved
    frames always describe the same processes. */
module Invariants {
  import opened Base
  import opened FileSystem
  import opened Command
  import opened Paging
  import opened Processes
  import opened Agreement
  import D = Descriptors

  /** What holds also in the middle of a step. */
  ghost predicate Core(s: State) {
    && Shape(s) && Links(s.pcbs, s.terms) && s.progCounter == Live(s.pcbs)
    && Births(s.pcbs, s.spawned)
    && AllCalled(s.pcbs, s.terms, s.stacks)
    && OthersParked(s.pcbs, s.terms, s.stacks, s.cur)
    && VIDEO_FRAME <= s.mapping.videoFrame < VIDEO_FRAME + 4
  }

  /** The page directory, `tss.esp0` and the file array denote process `p`. */
  predicate Denotes(s: State, p: nat) {
    s.mapping.program == Some(p) && s.esp0 == EspOf(p) && s.fileArray == p
  }

  /** Everything denotes the top process of the scheduled terminal, and inside the kernel
      that process can only be waiting on its own stack. */
  ghost predicate Scheduled(s: State) {
    && Core(s)
    && s.terms[s.cur].count > 0
    && var p := Top(s.terms[s.cur]);
       && Denotes(s, p)
       && (!s.user ==> s.cpu == p && s.stacks[p] == [WaitFrame(s.pcbs[p].born)])
  }

  /** The invariant between steps. */
  ghost predicate Inv(img: Image, s: State) {
    Ready(img, s) && Scheduled(s)
  }

  /** The state inside a system call of the running process: on its own kernel stack,
      which was empty on entry. */
  ghost predicate Inside(s: State) {
    && Core(s)
    && s.terms[s.cur].count > 0
    && var p := Top(s.terms[s.cur]);
       Denotes(s, p) && s.cpu == p && s.stacks[p] == [] && !s.user
  }

  /** The running process's arguments fit their field. */
  lemma TopArgsFit(img: Image, s: State)
    requires Inv(img, s)
    ensures |s.pcbs[Top(s.terms[s.cur])].params| < PARAMS_LEN
  {
    var n := s.terms[s.cur].count - 1;
    assert Position(s.terms, s.cur, n) && Linked(s.pcbs, s.terms, s.cur, n);
  }

  /** A step's outcome keeps the invariant, or is the one refusal that can happen. */
  ghost predicate Kept(img: Image, s: State, r: Outcome) {
    match r
    case Ran(s', _) => Inv(img, s') && (AllOwned(s) ==> AllOwned(s'))
    case Fault(why) => why == LaunchRefused && !AllOwned(s)
  }

  /** Every terminal has a process. */
  predicate AllOwned(s: State) {
    |s.terms| == TERMINALS && forall t :: 0 <= t < TERMINALS ==> s.terms[t].count > 0
  }

  // ---------------------------------------------------------------------------
  // Entering the kernel and returning to user code

  /** Rewriting the kernel stack of the scheduled terminal's top process disturbs nobody:
      every caller's frame is elsewhere, and the other terminals' processes are parked on
      their own stacks. */
  lemma TopStackCore(s: State, stack: seq<Frame>)
    requires Core(s) && s.terms[s.cur].count > 0
    ensures Core(s.(stacks := s.stacks[Top(s.terms[s.cur]) := stack]))
  {
    var p := Top(s.terms[s.cur]);
    TopStackCalled(s.pcbs, s.terms, s.stacks, s.cur, stack);
    TopChangesParked(s.pcbs, s.terms, s.stacks, s.cur, s.pcbs[p], stack);
    assert s.pcbs[p := s.pcbs[p]] == s.pcbs;
  }

  /** Nor does a change to a control block that leaves its place and its frames alone. */
  lemma UpdateCore(s: State, p: nat, pcb: Pcb)
    requires Core(s) && p < SLOTS && PcbShape(pcb) && SamePlace(s.pcbs[p], pcb) && SameFrames(s.pcbs[p], pcb)
    ensures Core(SetPcb(s, p, pcb))
  {
    UpdateLinks(s.pcbs, s.terms, p, pcb);
    LiveChanges(s.pcbs, p, pcb);
    GrowCalled(s.pcbs, s.terms, s.stacks, s.pcbs[p := pcb], s.stacks);
    UpdateParked(s.pcbs, s.terms, s.stacks, s.cur, p, pcb);
    UpdateBirths(s.pcbs, s.spawned, p, pcb);
  }

  /** Nor do the fields that say who runs. */
  lemma SameCore(s: State, r: State)
    requires Core(s) && Shape(r) && r.pcbs == s.pcbs && r.terms == s.terms && r.stacks == s.stacks
    requires r.progCounter == s.progCounter && r.spawned == s.spawned && r.cur == s.cur
    requires r.mapping.videoFrame == s.mapping.videoFrame
    ensures Core(r)
  {
  }

  /** Overwriting the stack the running process enters on disturbs no other process. */
  lemma EnterKeeps(s: State)
    requires Scheduled(s) && s.user
    ensures Inside(Enter(s))
  {
    var p := Top(s.terms[s.cur]);
    assert StackOf(EspOf(p)) == p;
    TopStackCore(s, []);
    SameCore(s.(stacks := s.stacks[p := []]), Enter(s));
  }

  /** Changing fields of the running process that place and frames do not depend on. */
  lemma UpdateKeeps(s: State, pcb: Pcb)
    requires Inside(s) && PcbShape(pcb)
    requires SamePlace(s.pcbs[s.cpu], pcb) && SameFrames(s.pcbs[s.cpu], pcb)
    ensures Inside(SetPcb(s, s.cpu, pcb))
  {
    UpdateCore(s, s.cpu, pcb);
  }

  lemma LeaveKeeps(s: State)
    requires Inside(s)
    ensures Scheduled(s.(user := true))
  {
  }

  /** A read that blocks leaves its process waiting above an empty kernel stack. */
  lemma WaitKeeps(s: State)
    requires Inside(s)
    ensures Scheduled(Push(s, WaitFrame(s.pcbs[Top(s.terms[s.cur])].born)))
  {
    var f := WaitFrame(s.pcbs[s.cpu].born);
    TopStackCore(s, [f]);
    assert s.stacks[s.cpu] + [f] == [f];
  }

  lemma WakeKeeps(s: State)
    requires Scheduled(s) && !s.user
    ensures Scheduled(s.(stacks := s.stacks[s.cpu := []], user := true))
  {
    TopStackCore(s, []);
    SameCore(s.(stacks := s.stacks[s.cpu := []]), s.(stacks := s.stacks[s.cpu := []], user := true));
  }

  // ---------------------------------------------------------------------------
  // Launching a process

  /** A context from which a process may be launched on the current terminal. */
  ghost predicate Launchable(s: State, slot: nat) {
    && Core(s) && slot < SLOTS && !s.pcbs[slot].status && s.terms[s.cur].count < PER_TERMINAL
    && (s.terms[s.cur].count > 0 ==> s.cpu == Top(s.terms[s.cur]) && s.stacks[s.cpu] == [])
  }

  function LaunchedPcb(s: State, slot: nat, params: seq<byte>): Pcb
    requires Shape(s) && slot < SLOTS
  {
    NewPcb(s, slot).(params := params, ebp := Ebp(s.cpu, ExecFrame(s.spawned)))
  }

  /** What `LaunchAt` changes, field by field. */
  lemma LaunchEffect(s: State, slot: nat, params: seq<byte>)
    requires Shape(s) && slot < SLOTS && s.terms[s.cur].count < PER_TERMINAL
    ensures var r := LaunchAt(s, slot, params);
            && r.pcbs == s.pcbs[slot := LaunchedPcb(s, slot, params)]
            && r.terms == Pushed(s.terms, s.cur, slot)
            && r.stacks == s.stacks[s.cpu := s.stacks[s.cpu] + [ExecFrame(s.spawned)]]
            && r.progCounter == s.progCounter + 1 && r.spawned == s.spawned + 1
            && r.cur == s.cur && r.cpu == s.cpu && r.user && r.active == s.active
            && r.mapping == s.mapping.(program := Some(slot)) && r.exception == s.exception
            && Denotes(r, slot) && r.terms[r.cur].count > 0 && Top(r.terms[r.cur]) == slot
  {
  }

  lemma LaunchBirths(s: State, slot: nat, params: seq<byte>)
    requires Launchable(s, slot)
    ensures Births(s.pcbs[slot := LaunchedPcb(s, slot, params)], s.spawned + 1)
  {
  }

  /** Starting a process from any context in which the current terminal is empty, or its
      top process runs on its own empty kernel stack, gives a proper state again. */
  lemma LaunchKeeps(s: State, slot: nat, params: seq<byte>)
    requires Launchable(s, slot)
    ensures Scheduled(LaunchAt(s, slot, params))
  {
    var r := LaunchAt(s, slot, params);
    var pcb := LaunchedPcb(s, slot, params);
    LaunchEffect(s, slot, params);
    PushLinks(s.pcbs, s.terms, s.cur, slot, pcb);
    LiveChanges(s.pcbs, slot, pcb);
    LaunchBirths(s, slot, params);
    PushCalled(s.pcbs, s.terms, s.stacks, s.cur, slot, pcb, r.stacks);
    PushParked(s.pcbs, s.terms, s.stacks, s.cur, slot, pcb, r.stacks);
  }

  lemma LaunchFiles(img: Image, s: State, slot: nat, params: seq<byte>)
    requires WellFormed(img) && BlocksOk(img, s) && |params| < PARAMS_LEN
    requires Shape(s) && slot < SLOTS && s.terms[s.cur].count < PER_TERMINAL
    ensures BlocksOk(img, LaunchAt(s, slot, params))
  {
    LaunchEffect(s, slot, params);
    D.FreshConsistent(img, s.pcbs[slot].files);
  }

  /** `_execute` in a launchable context: a proper state with one process more on top, or
      a refusal; which of the two depends on the limits and the image alone. */
  lemma ExecuteKeeps(img: Image, s: State, cmd: seq<byte>)
    requires WellFormed(img) && BlocksOk(img, s) && IsCommand(cmd) && |Tail(cmd)| < PARAMS_LEN && Core(s)
    requires s.terms[s.cur].count > 0 ==> s.cpu == Top(s.terms[s.cur]) && s.stacks[s.cpu] == []
    ensures var r := DoExecute(img, s, cmd);
            && (r.Launched? <==> s.terms[s.cur].count < PER_TERMINAL && s.progCounter < SLOTS
                                 && Resolve(img, cmd).Loadable?)
            && (r.Launched? ==>
                  && Resolve(img, cmd).Loadable? && r.slot < SLOTS && !s.pcbs[r.slot].status
                  && s.terms[s.cur].count < PER_TERMINAL
                  && r.s == LaunchAt(s, r.slot, Resolve(img, cmd).params)
                  && Scheduled(r.s) && BlocksOk(img, r.s))
  {
    var r := DoExecute(img, s, cmd);
    if s.terms[s.cur].count < PER_TERMINAL && s.progCounter < SLOTS {
      SlotAvailable(s.pcbs);
      match Resolve(img, cmd)
      case Unloadable =>
      case Loadable(_, params) =>
        LaunchKeeps(s, r.slot, params);
        LaunchFiles(img, s, r.slot, params);
    }
  }

  // ---------------------------------------------------------------------------
  // Halting

  function BuriedPcb(s: State): Pcb
    requires Shape(s) && s.terms[s.cur].count > 0
  {
    var pcb := s.pcbs[Top(s.terms[s.cur])];
    pcb.(status := false, parent := None, files := D.CloseBelow(pcb.files, D.FILE_LIMIT))
  }

  /** `s` with the top process of the current terminal dead and off its stack. */
  function WithoutTop(s: State): (r: State)
    requires Shape(s) && s.terms[s.cur].count > 0
    ensures Shape(r)
  {
    s.(pcbs := s.pcbs[Top(s.terms[s.cur]) := BuriedPcb(s)],
       terms := Popped(s.terms, s.cur), progCounter := s.progCounter - 1)
  }

  lemma PopKeeps(s: State)
    requires Core(s) && s.terms[s.cur].count > 0
    ensures Core(WithoutTop(s))
  {
    var pcb := BuriedPcb(s);
    PopLinks(s.pcbs, s.terms, s.cur, pcb);
    PopLive(s.pcbs, s.terms, s.cur, pcb);
    PopBirths(s.pcbs, s.spawned, Top(s.terms[s.cur]), pcb);
    PopCalled(s.pcbs, s.terms, s.stacks, s.cur, pcb);
    PopParked(s.pcbs, s.terms, s.stacks, s.cur, pcb);
  }

  lemma PopFiles(img: Image, s: State)
    requires WellFormed(img) && BlocksOk(img, s) && Shape(s) && s.terms[s.cur].count > 0
    ensures BlocksOk(img, WithoutTop(s))
  {
    D.CloseBelowConsistent(img, s.pcbs[Top(s.terms[s.cur])].files, D.FILE_LIMIT);
  }

  lemma BuryEffect(s: State)
    requires Inside(s)
    ensures Bury(s, s.cpu) == s.(pcbs := s.pcbs[s.cpu := BuriedPcb(s)])
  {
  }

  /** The slot in which a root's replacement starts. */
  function NextSlot(s: State): Option<nat>
    requires Shape(s) && s.terms[s.cur].count > 0
  {
    FirstFree(WithoutTop(s).pcbs)
  }

  /** The state after a root's halt has launched a new shell. */
  function NewRoot(s: State, params: seq<byte>): (r: State)
    requires Shape(s) && s.terms[s.cur].count > 0 && NextSlot(s).Some?
    ensures Shape(r)
  {
    LaunchAt(WithoutTop(s), NextSlot(s).value, params)
  }

  lemma RoomForRoot(s: State)
    requires Core(s) && s.terms[s.cur].count > 0
    ensures 0 <= WithoutTop(s).progCounter < SLOTS && NextSlot(s).Some?
  {
    PopKeeps(s);
    SlotAvailable(WithoutTop(s).pcbs);
  }

  lemma BuriedRoot(s: State)
    requires Inside(s) && s.terms[s.cur].count == 1
    ensures Vacate(Bury(s, s.cpu)) == WithoutTop(s)
  {
    BuryEffect(s);
  }

  /** Halting a root always passes the limit checks and starts a new shell. */
  lemma HaltRootEffect(img: Image, s: State)
    requires Bootable(img) && Inside(s) && s.terms[s.cur].count == 1
    ensures NextSlot(s).Some?
    ensures HaltRoot(img, Bury(s, s.cpu))
            == Ran(NewRoot(s, Resolve(img, Shell(img)).params), Relaunched(s.exception))
  {
    BuriedRoot(s);
    RoomForRoot(s);
    RefusalsOnly(img, WithoutTop(s), Shell(img));
  }

  /** With room for a process, `_execute` depends on the image alone. */
  lemma RefusalsOnly(img: Image, s: State, cmd: seq<byte>)
    requires WellFormed(img) && Shape(s) && IsCommand(cmd)
    requires s.terms[s.cur].count < PER_TERMINAL && s.progCounter < SLOTS && FirstFree(s.pcbs).Some?
    ensures var slot := FirstFree(s.pcbs).value;
            DoExecute(img, s, cmd) ==
            if Resolve(img, cmd).Loadable? then Launched(LaunchAt(s, slot, Resolve(img, cmd).params), slot)
            else Refused(-1)
  {
  }

  lemma NewRootKeeps(img: Image, s: State, params: seq<byte>)
    requires WellFormed(img) && BlocksOk(img, s) && Inside(s) && s.terms[s.cur].count == 1 && |params| < PARAMS_LEN
    ensures NextSlot(s).Some?
    ensures Scheduled(NewRoot(s, params)) && BlocksOk(img, NewRoot(s, params))
  {
    var s1 := WithoutTop(s);
    RoomForRoot(s);
    PopKeeps(s);
    PopFiles(img, s);
    LaunchKeeps(s1, NextSlot(s).value, params);
    LaunchFiles(img, s1, NextSlot(s).value, params);
  }

  /** The new root is one fresh process, alone on its terminal; the other terminals, the
      number of processes and the exception flag are as before. */
  lemma NewRootAlone(s: State, params: seq<byte>)
    requires Inside(s) && s.terms[s.cur].count == 1
    ensures NextSlot(s).Some?
    ensures var r := NewRoot(s, params);
            && r.cur == s.cur && r.terms[s.cur].count == 1
            && r.pcbs[Top(r.terms[s.cur])].born == s.spawned
            && r.pcbs[Top(r.terms[s.cur])].parent == None
            && r.progCounter == s.progCounter && r.exception == s.exception && r.user
            && r.terms == s.terms[s.cur := r.terms[s.cur]]
  {
    RoomForRoot(s);
    LaunchEffect(WithoutTop(s), NextSlot(s).value, params);
  }

  /** `s` with its top process gone and everything pointing at the process below, whose
      kernel stack is cut back. */
  function BackToParent(s: State): (r: State)
    requires Shape(s) && s.terms[s.cur].count > 1
    ensures Shape(r)
  {
    var child := Top(s.terms[s.cur]);
    var parent := s.terms[s.cur].pids[s.terms[s.cur].count - 2];
    var s1 := WithoutTop(s);
    s1.(pcbs := s1.pcbs[child := s1.pcbs[child].(video := false)],
        mapping := s.mapping.(video := false, program := Some(parent)),
        fileArray := parent, exception := false, esp0 := EspOf(parent),
        stacks := s.stacks[parent := []], cpu := parent, user := true)
  }

  /** The frame a child will return through: the one its own `_execute` saved, at the base
      of its parent's kernel stack. */
  lemma ChildFrame(s: State)
    requires Inside(s) && s.terms[s.cur].count > 1
    ensures var child := s.pcbs[s.cpu];
            var parent := s.terms[s.cur].pids[s.terms[s.cur].count - 2];
            && child.parent == Some(parent) && parent != s.cpu && s.pcbs[parent].pid == parent
            && child.ebp == Ebp(parent, ExecFrame(child.born))
            && Based(s.stacks[parent], ExecFrame(child.born))
  {
    var n := s.terms[s.cur].count;
    assert Position(s.terms, s.cur, n - 1) && Position(s.terms, s.cur, n - 2);
    assert Called(s.pcbs, s.terms, s.stacks, s.cur, n - 1);
    assert Linked(s.pcbs, s.terms, s.cur, n - 1) && Linked(s.pcbs, s.terms, s.cur, n - 2);
    assert Distinct(s.terms[s.cur]);
  }

  lemma BasedFound(stack: seq<Frame>, f: Frame)
    requires Based(stack, f)
    ensures FindFrame(stack, f) == Some(0) && stack[..0] == []
  {
  }

  /** With that frame there, the halt goes through it. */
  lemma ReturnsThrough(s: State, status: byte, parent: nat)
    requires Shape(s) && s.terms[s.cur].count > 1 && parent == s.terms[s.cur].pids[s.terms[s.cur].count - 2]
    requires Top(s.terms[s.cur]) == s.fileArray && s.fileArray == s.cpu
    requires parent != s.cpu && s.pcbs[parent].pid == parent
    requires s.pcbs[s.cpu].ebp.stack == parent && FindFrame(s.stacks[parent], s.pcbs[s.cpu].ebp.frame) == Some(0)
    ensures HaltChild(s.(pcbs := s.pcbs[s.cpu := BuriedPcb(s)]), s.cpu, parent, status)
            == Ran(BackToParent(s), Exited(if s.exception then EXCEPTION_CODE else status, s.pcbs[s.cpu].ebp))
  {
    assert s.stacks[parent][..0] == [];
  }

  /** Halting a child returns through the frame of the `_execute` that started it, and
      yields 256 exactly when the exception flag is up. */
  lemma HaltChildEffect(s: State, status: byte)
    requires Inside(s) && s.terms[s.cur].count > 1
    ensures var child := s.pcbs[s.cpu];
            var parent := s.terms[s.cur].pids[s.terms[s.cur].count - 2];
            && child.parent == Some(parent)
            && child.ebp == Ebp(parent, ExecFrame(child.born))
            && HaltChild(Bury(s, s.cpu), s.cpu, parent, status)
               == Ran(BackToParent(s), Exited(if s.exception then EXCEPTION_CODE else status, child.ebp))
  {
    var parent := s.terms[s.cur].pids[s.terms[s.cur].count - 2];
    BuryEffect(s);
    ChildFrame(s);
    BasedFound(s.stacks[parent], ExecFrame(s.pcbs[s.cpu].born));
    ReturnsThrough(s, status, parent);
  }

  /** A child's halt gives a proper state: without the child, with its video flag down, with
      the parent's kernel stack cut back, and with everything pointing at the parent. */
  lemma HaltChildKeeps(s: State)
    requires Inside(s) && s.terms[s.cur].count > 1
    ensures Scheduled(BackToParent(s))
  {
    var s1 := WithoutTop(s);
    var s2 := SetPcb(s1, s.cpu, s1.pcbs[s.cpu].(video := false));
    PopKeeps(s);
    UpdateCore(s1, s.cpu, s1.pcbs[s.cpu].(video := false));
    TopStackCore(s2, []);
    SameCore(s2.(stacks := s2.stacks[Top(s2.terms[s2.cur]) := []]), BackToParent(s));
  }

  /** What `halt` comes to in a reachable state: a new shell for a root, the return to
      the parent for a child. */
  lemma HaltEffect(img: Image, s: State, status: byte)
    requires Bootable(img) && Inside(s)
    ensures s.terms[s.cur].count == 1 ==>
              && NextSlot(s).Some?
              && DoHalt(img, s, status) == Ran(NewRoot(s, Resolve(img, Shell(img)).params), Relaunched(s.exception))
    ensures s.terms[s.cur].count > 1 ==>
              DoHalt(img, s, status)
              == Ran(BackToParent(s), Exited(if s.exception then EXCEPTION_CODE else status, s.pcbs[s.cpu].ebp))
  {
    var n := s.terms[s.cur].count;
    assert Position(s.terms, s.cur, n - 1) && Linked(s.pcbs, s.terms, s.cur, n - 1);
    if n == 1 {
      HaltRootEffect(img, s);
    } else {
      HaltChildEffect(s, status);
    }
  }

  lemma HaltKeeps(img: Image, s: State, status: byte)
    requires Bootable(img) && BlocksOk(img, s) && Inside(s)
    ensures var r := DoHalt(img, s, status);
            r.Ran? && Scheduled(r.s) && BlocksOk(img, r.s)
  {
    HaltEffect(img, s, status);
    if s.terms[s.cur].count == 1 {
      ShellFits(img);
      NewRootKeeps(img, s, Resolve(img, Shell(img)).params);
    } else {
      HaltChildKeeps(s);
      PopFiles(img, s);
      ChildFiles(img, s);
    }
  }

  lemma ChildFiles(img: Image, s: State)
    requires WellFormed(img) && Shape(s) && s.terms[s.cur].count > 1 && BlocksOk(img, WithoutTop(s))
    ensures BlocksOk(img, BackToParent(s))
  {
    assert forall p :: 0 <= p < SLOTS ==> BackToParent(s).pcbs[p].files == WithoutTop(s).pcbs[p].files;
  }

  lemma RootOwned(s: State, params: seq<byte>)
    requires Inside(s) && s.terms[s.cur].count == 1 && AllOwned(s)
    ensures NextSlot(s).Some? && AllOwned(NewRoot(s, params))
  {
    NewRootAlone(s, params);
  }

  lemma ChildOwned(s: State)
    requires Shape(s) && s.terms[s.cur].count > 1 && AllOwned(s)
    ensures AllOwned(BackToParent(s))
  {
    assert BackToParent(s).terms == Popped(s.terms, s.cur);
  }

  /** No terminal loses its last process. */
  lemma HaltOwned(img: Image, s: State, status: byte)
    requires Bootable(img) && Inside(s) && AllOwned(s)
    ensures DoHalt(img, s, status).Ran? && AllOwned(DoHalt(img, s, status).s)
  {
    HaltEffect(img, s, status);
    if s.terms[s.cur].count == 1 {
      RootOwned(s, Resolve(img, Shell(img)).params);
    } else {
      ChildOwned(s);
    }
  }

  // ---------------------------------------------------------------------------
  // Ticks

  /** The state in which a tick finds the running process: entered from user code on an
      empty stack, or inside its wait. */
  ghost predicate Interrupted(s: State, fromUser: bool) {
    && Core(s) && s.terms[s.cur].count > 0
    && var p := Top(s.terms[s.cur]);
       s.cpu == p && s.stacks[p] == if fromUser then [] else [WaitFrame(s.pcbs[p].born)]
  }

  lemma TickEnters(s: State)
    requires Scheduled(s)
    ensures Interrupted(Enter(s), s.user)
  {
    if s.user {
      EnterKeeps(s);
    }
  }

  function PreemptedPcb(s: State, fromUser: bool): Pcb
    requires Shape(s) && s.terms[s.cur].count > 0
  {
    var pcb := s.pcbs[Top(s.terms[s.cur])];
    var frame := TickFrame(pcb.born, pcb.preempted + 1, fromUser);
    pcb.(termEbp := Some(Ebp(s.cpu, frame)), preempted := pcb.preempted + 1)
  }

  lemma PreemptEffect(s: State, fromUser: bool)
    requires Shape(s) && s.terms[s.cur].count > 0 && s.cpu == Top(s.terms[s.cur])
    ensures var r := Preempt(s, fromUser);
            var pcb := PreemptedPcb(s, fromUser);
            && r.pcbs == s.pcbs[s.cpu := pcb] && r.terms == s.terms && r.cur == NextTerm(s)
            && r.stacks == s.stacks[s.cpu := s.stacks[s.cpu] + [pcb.termEbp.value.frame]]
            && r.progCounter == s.progCounter && r.spawned == s.spawned && r.mapping == s.mapping
            && SamePlace(s.pcbs[s.cpu], pcb) && pcb.ebp == s.pcbs[s.cpu].ebp && pcb.born == s.pcbs[s.cpu].born
  {
  }

  /** A preempted process is parked: every terminal but the next one is. */
  lemma PreemptKeeps(s: State, fromUser: bool)
    requires Interrupted(s, fromUser)
    ensures Core(Preempt(s, fromUser))
  {
    var p := s.cpu;
    var r := Preempt(s, fromUser);
    var pcb := PreemptedPcb(s, fromUser);
    PreemptEffect(s, fromUser);
    UpdateLinks(s.pcbs, s.terms, p, pcb);
    LiveChanges(s.pcbs, p, pcb);
    UpdateBirths(s.pcbs, s.spawned, p, pcb);
    GrowCalled(s.pcbs, s.terms, s.stacks, r.pcbs, r.stacks);
    assert Parked(pcb, p, r.stacks[p]);
    ParkTop(s.pcbs, s.terms, s.stacks, s.cur, pcb, r.stacks[p], r.cur);
  }

  lemma PreemptFiles(img: Image, s: State)
    requires WellFormed(img) && Shape(s) && s.terms[s.cur].count > 0 && BlocksOk(img, s)
    ensures BlocksOk(img, Preempt(Enter(s), s.user))
  {
    assert forall p :: 0 <= p < SLOTS ==> Preempt(Enter(s), s.user).pcbs[p].files == s.pcbs[p].files;
  }

  /** Where a dispatched process goes on. */
  function Woken(s: State): (r: State)
    requires Shape(s) && s.terms[s.cur].count > 0
    requires var pcb := s.pcbs[Top(s.terms[s.cur])];
             pcb.termEbp.Some? && pcb.termEbp.value.frame.TickFrame?
    ensures Shape(r)
  {
    var p := Top(s.terms[s.cur]);
    var pcb := s.pcbs[p];
    var fromUser := pcb.termEbp.value.frame.fromUser;
    var m := s.mapping.(program := Some(p));
    s.(mapping := if pcb.video then m.(video := true, videoFrame := ScreenFrame(s.cur, s.active)) else m,
       esp0 := EspOf(p), fileArray := p,
       stacks := s.stacks[p := if fromUser then [] else [WaitFrame(pcb.born)]],
       cpu := p, user := fromUser)
  }

  /** Where a parked process's frame lies, and what returning through it leaves. */
  lemma ParkedFound(pcb: Pcb, p: nat, stack: seq<Frame>)
    requires Parked(pcb, p, stack)
    ensures var frame := pcb.termEbp.value.frame;
            var r := FindFrame(stack, frame);
            r.Some? && stack[..r.value] == if frame.fromUser then [] else [WaitFrame(pcb.born)]
  {
    var frame := pcb.termEbp.value.frame;
    FrameFound(stack, frame, 0, if frame.fromUser then 0 else 1);
  }

  lemma DispatchEffect(s: State)
    requires Shape(s) && s.terms[s.cur].count > 0
    requires var p := Top(s.terms[s.cur]); Parked(s.pcbs[p], p, s.stacks[p])
    ensures var p := Top(s.terms[s.cur]);
            Dispatch(s) == Ran(Woken(s), Resumed(p, s.pcbs[p].termEbp.value))
  {
    var p := Top(s.terms[s.cur]);
    ParkedFound(s.pcbs[p], p, s.stacks[p]);
  }

  lemma DispatchKeeps(s: State)
    requires Core(s) && s.terms[s.cur].count > 0
    requires var p := Top(s.terms[s.cur]); Parked(s.pcbs[p], p, s.stacks[p])
    ensures Scheduled(Woken(s))
  {
    var p := Top(s.terms[s.cur]);
    var s1 := s.(stacks := s.stacks[p := Woken(s).stacks[p]]);
    TopStackCore(s, Woken(s).stacks[p]);
    SameCore(s1.(mapping := Woken(s).mapping), Woken(s));
  }

  function NextTerm(s: State): nat {
    (s.cur + 1) % TERMINALS
  }

  /** The state once a tick has parked the running process. */
  function Ticked(s: State): (r: State)
    requires Shape(s) && s.terms[s.cur].count > 0
    ensures Shape(r) && r.terms == s.terms && r.cur == NextTerm(s) && r.progCounter == s.progCounter
    ensures r.exception == s.exception && r.spawned == s.spawned
  {
    Preempt(Enter(s), s.user)
  }

  lemma TickedCore(s: State)
    requires Scheduled(s)
    ensures Core(Ticked(s)) && s.progCounter > 0
  {
    TickEnters(s);
    PreemptKeeps(Enter(s), s.user);
  }

  lemma TickDispatches(img: Image, s: State)
    requires Bootable(img) && Shape(s) && s.terms[s.cur].count > 0 && s.terms[NextTerm(s)].count > 0
    requires 0 < s.progCounter
    ensures DoTick(img, s) == Dispatch(Ticked(s))
  {
  }

  /** A tick lets the next terminal's top process go on, from the frame of its own last
      preemption. */
  lemma TickResumes(img: Image, s: State)
    requires Bootable(img) && Scheduled(s) && s.terms[NextTerm(s)].count > 0
    ensures var s1 := Ticked(s);
            var p := Top(s1.terms[s1.cur]);
            && Parked(s1.pcbs[p], p, s1.stacks[p])
            && DoTick(img, s) == Ran(Woken(s1), Resumed(p, s1.pcbs[p].termEbp.value))
            && Scheduled(Woken(s1))
  {
    var s1 := Ticked(s);
    TickedCore(s);
    NextParked(s);
    TickDispatches(img, s);
    DispatchEffect(s1);
    DispatchKeeps(s1);
  }

  lemma NextParked(s: State)
    requires Scheduled(s) && s.terms[NextTerm(s)].count > 0
    ensures var s1 := Ticked(s);
            var p := Top(s1.terms[s1.cur]);
            Parked(s1.pcbs[p], p, s1.stacks[p])
  {
    var s0 := Enter(s);
    TickEnters(s);
    var t := NextTerm(s);
    var p := Top(s.terms[t]);
    assert Parked(s0.pcbs[p], p, s0.stacks[p]);
    assert Position(s0.terms, t, s.terms[t].count - 1) && Linked(s0.pcbs, s0.terms, t, s.terms[t].count - 1);
    assert Linked(s0.pcbs, s0.terms, s.cur, s.terms[s.cur].count - 1);
  }

  lemma TickTries(img: Image, s: State)
    requires Bootable(img) && Shape(s) && s.terms[s.cur].count > 0 && s.terms[NextTerm(s)].count == 0
    requires 0 < s.progCounter
    ensures DoTick(img, s) ==
            match DoExecute(img, Ticked(s), Shell(img))
            case Refused(_) => Fault(LaunchRefused)
            case Launched(s1, slot) => Ran(s1, Started(slot))
  {
  }

  lemma LimitRefuses(img: Image, s: State, cmd: seq<byte>)
    requires WellFormed(img) && Shape(s) && IsCommand(cmd) && s.progCounter >= SLOTS
    ensures DoExecute(img, s, cmd) == Refused(LIMIT_REACHED)
  {
  }

  /** What such a tick comes to, from sizes and counters alone. */
  lemma TickLaunches(img: Image, s: State)
    requires Bootable(img) && Shape(s) && s.terms[s.cur].count > 0 && s.terms[NextTerm(s)].count == 0
    requires 0 < s.progCounter && (s.progCounter < SLOTS ==> FirstFree(Ticked(s).pcbs).Some?)
    ensures s.progCounter >= SLOTS ==> DoTick(img, s) == Fault(LaunchRefused)
    ensures s.progCounter < SLOTS ==>
              var slot := FirstFree(Ticked(s).pcbs).value;
              DoTick(img, s) == Ran(LaunchAt(Ticked(s), slot, Resolve(img, Shell(img)).params), Started(slot))
  {
    TickTries(img, s);
    if s.progCounter < SLOTS {
      RefusalsOnly(img, Ticked(s), Shell(img));
    } else {
      LimitRefuses(img, Ticked(s), Shell(img));
    }
  }

  lemma FirstShellKeeps(img: Image, s: State, params: seq<byte>)
    requires WellFormed(img) && BlocksOk(img, s) && Scheduled(s) && s.terms[NextTerm(s)].count == 0
    requires s.progCounter < SLOTS && |params| < PARAMS_LEN
    ensures FirstFree(Ticked(s).pcbs).Some?
    ensures var r := LaunchAt(Ticked(s), FirstFree(Ticked(s).pcbs).value, params);
            Scheduled(r) && BlocksOk(img, r)
  {
    var s1 := Ticked(s);
    TickedCore(s);
    SlotAvailable(s1.pcbs);
    LaunchKeeps(s1, FirstFree(s1.pcbs).value, params);
    PreemptFiles(img, s);
    LaunchFiles(img, s1, FirstFree(s1.pcbs).value, params);
  }

  /** A tick into a terminal without a process starts a shell there, and is refused
      exactly when six processes exist already. */
  lemma TickStarts(img: Image, s: State)
    requires Bootable(img) && BlocksOk(img, s) && Scheduled(s) && s.terms[NextTerm(s)].count == 0
    ensures s.progCounter >= SLOTS ==> DoTick(img, s) == Fault(LaunchRefused)
    ensures s.progCounter < SLOTS ==>
              && FirstFree(Ticked(s).pcbs).Some?
              && var slot := FirstFree(Ticked(s).pcbs).value;
                 var r := LaunchAt(Ticked(s), slot, Resolve(img, Shell(img)).params);
                 DoTick(img, s) == Ran(r, Started(slot)) && Scheduled(r) && BlocksOk(img, r)
  {
    TickedCore(s);
    if s.progCounter < SLOTS {
      ShellFits(img);
      FirstShellKeeps(img, s, Resolve(img, Shell(img)).params);
    }
    TickLaunches(img, s);
  }

  lemma WokenFiles(img: Image, s: State)
    requires WellFormed(img) && Scheduled(s) && BlocksOk(img, s) && s.terms[NextTerm(s)].count > 0
    ensures var s1 := Ticked(s);
            var pcb := s1.pcbs[Top(s1.terms[s1.cur])];
            && pcb.termEbp.Some? && pcb.termEbp.value.frame.TickFrame?
            && BlocksOk(img, Woken(s1))
  {
    NextParked(s);
    PreemptFiles(img, s);
  }

  lemma TickKeeps(img: Image, s: State)
    requires Inv(img, s)
    ensures var r := DoTick(img, s);
            && (r.Ran? ==> Inv(img, r.s) && r.s.cur == NextTerm(s) && r.s.exception == s.exception)
            && (r.Fault? <==> s.terms[NextTerm(s)].count == 0 && s.progCounter >= SLOTS)
            && (r.Fault? ==> r.why == LaunchRefused)
  {
    if s.terms[NextTerm(s)].count > 0 {
      TickResumes(img, s);
      WokenFiles(img, s);
    } else {
      TickStarts(img, s);
    }
  }

  lemma TickOwned(img: Image, s: State)
    requires Inv(img, s) && AllOwned(s)
    ensures DoTick(img, s).Ran? && DoTick(img, s).s.terms == s.terms
  {
    TickResumes(img, s);
  }
}
