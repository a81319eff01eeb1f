/** What the processes' descriptors go through over whole runs: standard input and output
    are always there, and a directory lists every name once, in order, however many other
    steps come between its reads. */
module Files {
  import opened Base
  import opened FileSystem
  import opened Command
  import opened Processes
  import opened Invariants
  import opened Steps
  import opened Effects
  import opened Runs
  import opened Boot
  import Machine
  import D = Descriptors

  // ---------------------------------------------------------------------------
  // One step

  predicate IsFileCall(e: Event) {
    e.Open? || e.Close? || e.Read?
  }

  /** What a file call does to its process's file array, and what it answers. */
  function FileCall(img: Image, files: seq<D.Fd>, e: Event): (seq<D.Fd>, D.Reply)
    requires WellFormed(img) && D.Sized(files) && D.Consistent(img, files) && IsFileCall(e)
  {
    match e
    case Open(name) => var (after, ret) := D.Open(img, files, name); (after, D.Code(ret))
    case Close(fd) => var (after, ret) := D.Close(files, fd); (after, D.Code(ret))
    case Read(fd, n) => D.Read(img, files, fd, n)
  }

  /** A slot's files after a step that is no file call: of a process that was there before,
      as they were; of a new one, standard input and output and no more; of one that has
      died, nothing else is open. */
  predicate Passed(a: Pcb, b: Pcb, spawned: nat) {
    if b.status then
      || (b.born >= spawned && D.Standard(b.files) && D.Shut(b.files))
      || (a.status && b.born == a.born && b.files == a.files)
    else (!a.status && b.files == a.files) || D.Shut(b.files)
  }

  predicate KeptOrNew(pcbs: seq<Pcb>, pcbs': seq<Pcb>, spawned: nat) {
    |pcbs| == |pcbs'| == SLOTS && forall q :: 0 <= q < SLOTS ==> Passed(pcbs[q], pcbs'[q], spawned)
  }

  lemma LaunchKept(s: State, slot: nat, params: seq<byte>)
    requires Shape(s) && slot < SLOTS && s.terms[s.cur].count < PER_TERMINAL
    ensures KeptOrNew(s.pcbs, LaunchAt(s, slot, params).pcbs, s.spawned)
  {
    LaunchEffect(s, slot, params);
    D.FreshStandard(s.pcbs[slot].files);
  }

  lemma SameKept(pcbs: seq<Pcb>, spawned: nat)
    requires |pcbs| == SLOTS
    ensures KeptOrNew(pcbs, pcbs, spawned)
  {
  }

  lemma KeptThenKept(a: seq<Pcb>, b: seq<Pcb>, c: seq<Pcb>, spawned: nat)
    requires KeptOrNew(a, b, spawned) && KeptOrNew(b, c, spawned)
    ensures KeptOrNew(a, c, spawned)
  {
  }

  lemma BuriedShut(s: State)
    requires Shape(s) && s.terms[s.cur].count > 0
    ensures !BuriedPcb(s).status && D.Shut(BuriedPcb(s).files)
  {
    D.CloseBelowClosed(s.pcbs[Top(s.terms[s.cur])].files, D.FILE_LIMIT);
  }

  lemma BuriedKept(s: State)
    requires Shape(s) && s.terms[s.cur].count > 0
    ensures KeptOrNew(s.pcbs, WithoutTop(s).pcbs, s.spawned)
  {
    BuriedShut(s);
  }

  lemma RootKept(s: State, params: seq<byte>)
    requires Inside(s) && s.terms[s.cur].count == 1
    ensures NextSlot(s).Some? && KeptOrNew(s.pcbs, NewRoot(s, params).pcbs, s.spawned)
  {
    RoomForRoot(s);
    BuriedKept(s);
    LaunchKept(WithoutTop(s), NextSlot(s).value, params);
    KeptThenKept(s.pcbs, WithoutTop(s).pcbs, NewRoot(s, params).pcbs, s.spawned);
  }

  lemma ChildKept(s: State)
    requires Shape(s) && s.terms[s.cur].count > 1
    ensures KeptOrNew(s.pcbs, BackToParent(s).pcbs, s.spawned)
  {
    BuriedShut(s);
    BackUntouched(s);
  }

  lemma HaltKept(img: Image, s: State, status: byte)
    requires Bootable(img) && Inside(s)
    ensures DoHalt(img, s, status).Ran? && KeptOrNew(s.pcbs, DoHalt(img, s, status).s.pcbs, s.spawned)
  {
    HaltEffect(img, s, status);
    if s.terms[s.cur].count == 1 {
      RootKept(s, Resolve(img, Shell(img)).params);
    } else {
      ChildKept(s);
    }
  }

  lemma ExecuteKept(img: Image, s: State, command: Option<seq<byte>>)
    requires WellFormed(img) && Shape(s) && (command.Some? ==> IsCommand(command.value))
    ensures ExecuteCall(img, s, command).Ran?
    ensures KeptOrNew(s.pcbs, ExecuteCall(img, s, command).s.pcbs, s.spawned)
  {
    if command.Some? && DoExecute(img, s, command.value).Launched? {
      LaunchKept(s, DoExecute(img, s, command.value).slot, Resolve(img, command.value).params);
    }
  }

  lemma PlainKept(s: State, addr: int, n: int)
    requires Shape(s)
    ensures DoVidmap(s, addr).Ran? ==> KeptOrNew(s.pcbs, DoVidmap(s, addr).s.pcbs, s.spawned)
    ensures DoGetArgs(s, n).Ran? ==> KeptOrNew(s.pcbs, DoGetArgs(s, n).s.pcbs, s.spawned)
  {
  }

  /** The calls that are not about files. */
  lemma OtherCallKept(img: Image, s: State, e: Event)
    requires Bootable(img) && Inside(s) && BlocksOk(img, s) && IsCall(e) && !IsFileCall(e)
    requires e.Execute? && e.cmd.Some? ==> IsCommand(e.cmd.value)
    requires Call(img, s, e).Ran?
    ensures KeptOrNew(s.pcbs, Call(img, s, e).s.pcbs, s.spawned)
  {
    CallIs(img, s, e);
    if e.Execute? {
      ExecuteKept(img, s, e.cmd);
    } else if e.Halt? {
      HaltKept(img, s, e.status);
    } else if e.Exception? {
      RaiseInside(s);
      HaltKept(img, s.(exception := true), 0);
    } else {
      PlainKept(s, if e.Vidmap? then e.addr else 0, if e.GetArgs? then e.n else 0);
    }
  }

  lemma TickedKept(s: State)
    requires Shape(s) && s.terms[s.cur].count > 0
    ensures KeptOrNew(s.pcbs, Ticked(s).pcbs, s.spawned)
  {
  }

  lemma TickKept(img: Image, s: State)
    requires Inv(img, s) && DoTick(img, s).Ran?
    ensures KeptOrNew(s.pcbs, DoTick(img, s).s.pcbs, s.spawned)
  {
    TickedKept(s);
    if s.terms[NextTerm(s)].count > 0 {
      TickResumes(img, s);
    } else {
      TickStarts(img, s);
      LaunchKept(Ticked(s), FirstFree(Ticked(s).pcbs).value, Resolve(img, Shell(img)).params);
      KeptThenKept(s.pcbs, Ticked(s).pcbs, DoTick(img, s).s.pcbs, s.spawned);
    }
  }

  /** A file call by the running process, inside the kernel. */
  lemma CallFiles(img: Image, s: State, e: Event)
    requires Bootable(img) && Shape(s) && BlocksOk(img, s) && IsFileCall(e)
    requires s.terms[s.cur].count > 0 && s.fileArray == Top(s.terms[s.cur])
    ensures Call(img, s, e).Ran?
    ensures var (files, reply) := FileCall(img, s.pcbs[s.fileArray].files, e);
            && Call(img, s, e).s.pcbs == s.pcbs[s.fileArray := s.pcbs[s.fileArray].(files := files)]
            && Call(img, s, e).answer == Replied(reply)
  {
    CallIs(img, s, e);
  }

  /** The files after a step: a file call of the running process changes that process's own
      and answers accordingly; any other step leaves everybody's alone, and gives a new
      process nothing but standard input and output. */
  ghost predicate FilesRule(img: Image, s: State, e: Event, s': State, a: Answer)
    requires Ready(img, s) && s.terms[s.cur].count > 0
  {
    var p := Top(s.terms[s.cur]);
    if s.user && IsFileCall(e) then
      var (files, reply) := FileCall(img, s.pcbs[p].files, e);
      s'.pcbs == s.pcbs[p := s.pcbs[p].(files := files)] && a == Replied(reply)
    else KeptOrNew(s.pcbs, s'.pcbs, s.spawned)
  }

  lemma CalledFiles(img: Image, s: State, e: Event)
    requires Inv(img, s) && Next(img, s, e).Some? && Enabled(s, e) && IsCall(e)
    ensures FilesRule(img, s, e, Next(img, s, e).value.0, Next(img, s, e).value.1)
  {
    NextCall(img, s, e);
    EnterOnBehalf(img, s);
    if IsFileCall(e) {
      CallFiles(img, Enter(s), e);
    } else {
      OtherCallKept(img, Enter(s), e);
    }
  }

  /** The rule holds of every step. */
  lemma StepFiles(img: Image, s: State, e: Event)
    requires Inv(img, s) && Next(img, s, e).Some?
    ensures FilesRule(img, s, e, Next(img, s, e).value.0, Next(img, s, e).value.1)
  {
    if e.Tick? {
      NextTick(img, s);
      TickKept(img, s);
    } else if Enabled(s, e) && IsCall(e) {
      CalledFiles(img, s, e);
    } else {
      NextStill(img, s, e);
      SameKept(s.pcbs, s.spawned);
    }
  }

  // ---------------------------------------------------------------------------
  // Standard input and output

  /** Every live process has standard input and output open on the terminal; a slot without a
      process has nothing else open. */
  predicate FilesInOrder(s: State) {
    && |s.pcbs| == SLOTS
    && forall q :: 0 <= q < SLOTS ==> if s.pcbs[q].status then D.Standard(s.pcbs[q].files) else D.Shut(s.pcbs[q].files)
  }

  lemma FileCallStandard(img: Image, files: seq<D.Fd>, e: Event)
    requires WellFormed(img) && D.Consistent(img, files) && IsFileCall(e) && D.Standard(files)
    ensures D.Standard(FileCall(img, files, e).0)
  {
    match e
    case Open(name) => D.StandardStays(img, files, name, 0, 0);
    case Close(fd) => D.StandardStays(img, files, [], fd, 0);
    case Read(fd, n) => D.StandardStays(img, files, [], fd, n);
  }

  lemma RuleStandard(img: Image, s: State, e: Event, s': State, a: Answer)
    requires Ready(img, s) && s.terms[s.cur].count > 0 && FilesRule(img, s, e, s', a) && FilesInOrder(s)
    requires s.pcbs[Top(s.terms[s.cur])].status
    ensures FilesInOrder(s')
  {
    var p := Top(s.terms[s.cur]);
    if s.user && IsFileCall(e) {
      FileCallStandard(img, s.pcbs[p].files, e);
    }
  }

  ghost function GoodInOrder(img: Image): State -> bool {
    (s: State) => Inv(img, s) && FilesInOrder(s)
  }

  /** Over every run every live process keeps standard input and output, and whatever a process
      left open is closed when it is gone. */
  lemma RunsStandard(img: Image, s: State, events: seq<Event>)
    requires Inv(img, s) && FilesInOrder(s) && Run(img, s, events).Some?
    ensures FilesInOrder(Run(img, s, events).value)
  {
    forall x, e | GoodInOrder(img)(x) && Kernel(img)(x, e).Some?
      ensures GoodInOrder(img)(Kernel(img)(x, e).value.0)
    {
      NextKeeps(img, x, e);
      StepFiles(img, x, e);
      TopAlive(x);
      RuleStandard(img, x, e, Next(img, x, e).value.0, Next(img, x, e).value.1);
    }
    Machine.Invariant(Kernel(img), GoodInOrder(img), s, events);
  }

  /** The first shell has them. */
  lemma BootedStandard(img: Image, s: State)
    requires Bootable(img) && PowerOn(s)
    ensures FilesInOrder(Booted(img, s))
  {
    LaunchKept(s, 0, Resolve(img, Shell(img)).params);
  }

  /** What a file call of the running process answers. */
  lemma FileCallAnswers(img: Image, s: State, e: Event)
    requires Inv(img, s) && s.user && IsFileCall(e)
    ensures Next(img, s, e).Some?
    ensures Next(img, s, e).value.1 == Replied(FileCall(img, s.pcbs[Top(s.terms[s.cur])].files, e).1)
  {
    NonTickSucceeds(img, s, e);
    StepFiles(img, s, e);
  }

  lemma StandardReads(img: Image, s: State, n: int)
    requires Inv(img, s) && FilesInOrder(s) && s.user
    ensures Next(img, s, Read(0, n)).Some? && Next(img, s, Read(1, n)).Some?
    ensures Next(img, s, Read(0, n)).value.1 == Replied(if n < 0 then D.Code(-1) else D.Blocks)
    ensures Next(img, s, Read(1, n)).value.1 == Replied(D.Code(-1))
  {
    TopAlive(s);
    D.StandardStays(img, s.pcbs[Top(s.terms[s.cur])].files, [], 0, n);
    FileCallAnswers(img, s, Read(0, n));
    FileCallAnswers(img, s, Read(1, n));
  }

  /** From power-on, in every state reached in which user code runs: reading standard input
      waits for a line, reading standard output fails. */
  lemma KeyboardReadBlocks(img: Image, s: State, events: seq<Event>, n: int)
    requires Bootable(img) && PowerOn(s) && Run(img, Booted(img, s), events).Some?
    requires Run(img, Booted(img, s), events).value.user && n >= 0
    ensures var r := Run(img, Booted(img, s), events).value;
            && Next(img, r, Read(0, n)).Some? && Next(img, r, Read(0, n)).value.1 == Replied(D.Blocks)
            && Next(img, r, Read(1, n)).Some? && Next(img, r, Read(1, n)).value.1 == Replied(D.Code(-1))
  {
    var s0 := Booted(img, s);
    BootedStandard(img, s);
    RunsKeep(img, s0, events);
    RunsStandard(img, s0, events);
    StandardReads(img, Run(img, s0, events).value, n);
  }

  // ---------------------------------------------------------------------------
  // Listing a directory

  /** The process born `b` in slot `p` runs, in user code. */
  predicate ItRuns(s: State, p: nat, b: nat) {
    Shape(s) && s.user && s.terms[s.cur].count > 0 && Top(s.terms[s.cur]) == p && s.pcbs[p].born == b
  }

  /** The event is its read, of any size but a negative one, through descriptor `fd`. */
  predicate ItsRead(s: State, e: Event, p: nat, b: nat, fd: int) {
    ItRuns(s, p, b) && e.Read? && e.fd == fd && e.n >= 0
  }

  function Reads(p: nat, b: nat, fd: int): (State, Event) -> bool {
    (s: State, e: Event) => ItsRead(s, e, p, b, fd)
  }

  function Closes(p: nat, b: nat, fd: int): (State, Event) -> bool {
    (s: State, e: Event) => ItRuns(s, p, b) && e == Close(fd)
  }

  /** If the process born `b` in slot `p` lives, its descriptor is open on the directory at
      `position`. */
  predicate ListsAt(s: State, p: nat, b: nat, fd: int, position: nat) {
    && |s.pcbs| == SLOTS && p < SLOTS && D.STD_RANGE <= fd < D.FILE_LIMIT && b < s.spawned
    && (s.pcbs[p].status && s.pcbs[p].born == b ==>
          && D.Sized(s.pcbs[p].files)
          && var f := s.pcbs[p].files[fd];
             f.flags && f.kind == D.Directory && f.position == position)
  }

  /** Its own file calls leave the descriptor alone, but for its reads of it. */
  lemma OwnCall(img: Image, files: seq<D.Fd>, e: Event, fd: int)
    requires WellFormed(img) && D.Sized(files) && D.Consistent(img, files) && IsFileCall(e)
    requires D.STD_RANGE <= fd < D.FILE_LIMIT && files[fd].flags && files[fd].kind == D.Directory && e != Close(fd)
    ensures var (after, reply) := FileCall(img, files, e);
            var at := files[fd].position;
            && 0 <= at <= |img.dentries|
            && if e.Read? && e.fd == fd && e.n >= 0 then
                 && after[fd].flags && after[fd].kind == D.Directory && reply == D.Data(D.NameAt(img, at))
                 && after[fd].position == if at < |img.dentries| then at + 1 else at
               else after[fd] == files[fd]
  {
    assert D.FdOk(img, files[fd]);
    match e
    case Open(name) => D.OpenMeans(img, files, name);
    case Close(other) => D.CloseMeans(files, other);
    case Read(other, n) =>
      if other == fd && n >= 0 {
        D.DirectoryReads(img, files, fd, n);
      } else if 0 <= other < D.FILE_LIMIT {
        D.ReadFd(img, files, other, n);
      }
  }

  /** One step of the run, seen from the listing. */
  lemma ListsStep(img: Image, s: State, e: Event, p: nat, b: nat, fd: int, position: nat)
    requires Inv(img, s) && Next(img, s, e).Some? && ListsAt(s, p, b, fd, position)
    requires position <= |img.dentries| && !(ItRuns(s, p, b) && e == Close(fd))
    ensures var (s', a) := Next(img, s, e).value;
            if ItsRead(s, e, p, b, fd) then
              && a == Replied(D.Data(D.NameAt(img, position)))
              && ListsAt(s', p, b, fd, if position < |img.dentries| then position + 1 else position)
            else ListsAt(s', p, b, fd, position)
  {
    StepFiles(img, s, e);
    NextEffect(img, s, e);
    TopAlive(s);
    if ItRuns(s, p, b) && IsFileCall(e) {
      OwnCall(img, s.pcbs[p].files, e, fd);
    }
  }

  /** After `i` reads, in a reachable state. */
  ghost predicate Listed(img: Image, s: State, p: nat, b: nat, fd: int, i: nat) {
    Inv(img, s) && ListsAt(s, p, b, fd, Min(i, |img.dentries|))
  }

  lemma ListedStep(img: Image, s: State, e: Event, p: nat, b: nat, fd: int, i: nat)
    requires Listed(img, s, p, b, fd, i) && Next(img, s, e).Some? && !(ItRuns(s, p, b) && e == Close(fd))
    ensures var (s', a) := Next(img, s, e).value;
            if ItsRead(s, e, p, b, fd) then
              a == Replied(D.Data(D.NameAt(img, i))) && Listed(img, s', p, b, fd, i + 1)
            else Listed(img, s', p, b, fd, i)
  {
    NextKeeps(img, s, e);
    ListsStep(img, s, e, p, b, fd, Min(i, |img.dentries|));
  }

  ghost function ListedAt(img: Image, p: nat, b: nat, fd: int): (State, nat) -> bool {
    (s: State, i: nat) => Listed(img, s, p, b, fd, i)
  }

  function NthName(img: Image): nat -> Answer {
    (i: nat) => Replied(D.Data(D.NameAt(img, i)))
  }

  lemma ListingCounts(img: Image, p: nat, b: nat, fd: int)
    ensures Machine.Counts(Kernel(img), Reads(p, b, fd), Closes(p, b, fd), ListedAt(img, p, b, fd), NthName(img))
  {
    forall s, e, i: nat | ListedAt(img, p, b, fd)(s, i) && !Closes(p, b, fd)(s, e)
      ensures Machine.CountsOn(Kernel(img), Reads(p, b, fd), ListedAt(img, p, b, fd), NthName(img), s, e, i)
    {
      if Next(img, s, e).Some? {
        ListedStep(img, s, e, p, b, fd, i);
      }
    }
  }

  lemma ListsFrom(img: Image, s: State, events: seq<Event>, p: nat, b: nat, fd: int)
    requires ListedAt(img, p, b, fd)(s, 0) && Machine.Never(Kernel(img), Closes(p, b, fd), s, events)
    ensures var heard := Machine.Heard(Kernel(img), Reads(p, b, fd), s, events);
            forall i :: 0 <= i < |heard| ==> heard[i] == Replied(D.Data(D.NameAt(img, i)))
  {
    ListingCounts(img, p, b, fd);
    Machine.HeardInOrder(
      Kernel(img), Reads(p, b, fd), Closes(p, b, fd), ListedAt(img, p, b, fd), NthName(img), s, events, 0);
  }

  lemma OpenedAt(img: Image, files: seq<D.Fd>, name: seq<byte>, k: nat)
    requires WellFormed(img) && D.Sized(files) && D.Open(img, files, name).1 != -1
    requires D.FirstNamed(img, name, k) && img.dentries[k].fileType == DIRECTORY_TYPE
    ensures var (after, fd) := D.Open(img, files, name);
            && D.STD_RANGE <= fd < D.FILE_LIMIT
            && after[fd].flags && after[fd].kind == D.Directory && after[fd].position == 0
  {
    D.OpenMeans(img, files, name);
  }

  lemma OpensAt(img: Image, s: State, name: seq<byte>, fd: int, k: nat, s1: State)
    requires Inv(img, s) && s.user && Next(img, s, Open(name)) == Some((s1, Replied(D.Code(fd)))) && fd != -1
    requires D.FirstNamed(img, name, k) && img.dentries[k].fileType == DIRECTORY_TYPE
    ensures var p := Top(s.terms[s.cur]); ListsAt(s1, p, s.pcbs[p].born, fd, 0)
  {
    StepFiles(img, s, Open(name));
    NextEffect(img, s, Open(name));
    TopAlive(s);
    OpenedAt(img, s.pcbs[Top(s.terms[s.cur])].files, name, k);
  }

  lemma OpensListed(img: Image, s: State, name: seq<byte>, fd: int, k: nat, s1: State)
    requires Inv(img, s) && s.user && Next(img, s, Open(name)) == Some((s1, Replied(D.Code(fd)))) && fd != -1
    requires D.FirstNamed(img, name, k) && img.dentries[k].fileType == DIRECTORY_TYPE
    ensures var p := Top(s.terms[s.cur]); Listed(img, s1, p, s.pcbs[p].born, fd, 0)
  {
    OpensAt(img, s, name, fd, k, s1);
    NextKeeps(img, s, Open(name));
  }

  /** A process opens a directory. Whatever runs from then on, until it closes it again, its
      reads of it answer every name of the directory, one each and in order, and then nothing. */
  lemma ListsEveryName(
      img: Image, s: State, name: seq<byte>, fd: int, k: nat, s1: State, events: seq<Event>, p: nat, b: nat)
    requires Inv(img, s) && s.user && p == Top(s.terms[s.cur]) && b == s.pcbs[p].born
    requires D.FirstNamed(img, name, k) && img.dentries[k].fileType == DIRECTORY_TYPE
    requires Next(img, s, Open(name)) == Some((s1, Replied(D.Code(fd)))) && fd != -1
    requires Machine.Never(Kernel(img), Closes(p, b, fd), s1, events)
    ensures var heard := Machine.Heard(Kernel(img), Reads(p, b, fd), s1, events);
            forall i :: 0 <= i < |heard| ==>
              heard[i] == Replied(D.Data(if i < |img.dentries| then CStr(img.dentries[i].name) else []))
  {
    OpensListed(img, s, name, fd, k, s1);
    ListsFrom(img, s1, events, p, b, fd);
  }
}
