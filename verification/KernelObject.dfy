/** The kernel as the source writes it: one object whose handlers search, parse, copy and
    update control blocks, counters, terminals, `tss.esp0` and the page tables in place.
    Each handler is proved to take exactly the step of the process machine, and to leave
    the page tables saying what the machine's mapping says. */
module KernelObject {
  import opened Base
  import opened FileSystem
  import opened Command
  import opened Paging
  import opened Processes
  import opened Invariants
  import opened Steps
  import opened Runs
  import opened Observations
  import D = Descriptors

  // ---------------------------------------------------------------------------
  // Commands and files

  /** The first half of `_execute` (student-distrib/system_call.c:149-158): the command is
      parsed into buffers, the name looked up, and the file's head checked. */
  method ResolveCommand(img: Image, cmd: seq<byte>) returns (load: Load)
    requires WellFormed(img) && IsCommand(cmd) && |Tail(cmd)| < PARAMS_LEN
    ensures load == Resolve(img, cmd)
  {
    var filename := new byte[NAME_MAX + 1](i => 0);
    var params := new byte[PARAMS_LEN](i => 0);
    ParseCommand(cmd, filename, params);
    assert filename[..][CLen(filename[..])] == 0;
    var found := ReadDentryByName(img, filename[..]);
    if found == None {
      return Unloadable;
    }
    var ok := CheckValidity(img, found.value);
    if !ok {
      return Unloadable;
    }
    return Loadable(found.value, CStr(params[..]));
  }

  /** `open` on a file array (student-distrib/system_call.c:251-289), the name given as a C
      string in memory. */
  method OpenFile(img: Image, files: seq<D.Fd>, filename: seq<byte>) returns (after: seq<D.Fd>, fd: int)
    requires WellFormed(img) && D.Sized(files) && 0 in filename
    ensures (after, fd) == D.Open(img, files, CStr(filename))
  {
    after, fd := files, 2;
    while fd < D.FILE_LIMIT && files[fd].flags
      invariant 2 <= fd <= D.FILE_LIMIT
      invariant D.FreeFrom(files, 2) == D.FreeFrom(files, fd)
    {
      fd := fd + 1;
    }
    if fd == D.FILE_LIMIT {
      return files, -1;
    }
    var found := ReadDentryByName(img, filename);
    if found == None {
      return files, -1;
    }
    var d := img.dentries[found.value];
    var kind := D.KindOf(d.fileType);
    var f := files[fd].(inode := d.inode, flags := true, kind := kind, log := []);
    if kind != D.Regular {
      f := f.(inode := 0);
    }
    after := files[fd := f.(position := D.StartPosition(kind))];
  }

  /** `strncpy` of a name field (student-distrib/lib.c:818-829): the name, and NULs up to
      the field's size. */
  method CopyField(dst: array<byte>, field: seq<byte>)
    requires |field| == NAME_MAX <= dst.Length
    modifies dst
    ensures dst[..CLen(field)] == CStr(field)
    ensures forall i :: CLen(field) <= i < NAME_MAX ==> dst[i] == 0
    ensures forall i :: NAME_MAX <= i < dst.Length ==> dst[i] == old(dst[i])
  {
    var i := 0;
    while i < NAME_MAX && field[i] != 0
      invariant 0 <= i <= CLen(field) && dst[..i] == field[..i]
      invariant forall k :: i <= k < dst.Length ==> dst[k] == old(dst[k])
    {
      dst[i] := field[i];
      i := i + 1;
    }
    ghost var n := i;
    while i < NAME_MAX
      invariant n <= i <= NAME_MAX && dst[..n] == field[..n]
      invariant forall k :: n <= k < i ==> dst[k] == 0
      invariant forall k :: NAME_MAX <= k < dst.Length ==> dst[k] == old(dst[k])
    {
      dst[i] := 0;
      i := i + 1;
    }
  }

  /** `read` on a file array (student-distrib/system_call.c:205-216,
      student-distrib/file_system.c:302-320, 378-393): the data is in the caller's buffer and
      the position moves by what was read. A directory read fills 32 bytes of the buffer
      whatever size was asked for. */
  method ReadFile(img: Image, files: seq<D.Fd>, fd: int, n: int, buf: array<byte>)
    returns (after: seq<D.Fd>, reply: D.Reply)
    requires WellFormed(img) && D.Sized(files) && D.Consistent(img, files)
    requires n < 0x8000_0000 && n <= buf.Length
    requires 0 <= fd < D.FILE_LIMIT && files[fd].kind == D.Directory ==> NAME_MAX <= buf.Length
    modifies buf
    ensures (after, reply) == D.Read(img, files, fd, n)
    ensures reply.Data? ==> |reply.bytes| <= buf.Length && buf[..|reply.bytes|] == reply.bytes
    ensures !reply.Data? ==> buf[..] == old(buf[..])
  {
    after, reply := files, D.Code(-1);
    if fd < 0 || fd >= D.FILE_LIMIT || n < 0 || !files[fd].flags {
      return;
    }
    var f := files[fd];
    assert D.FdOk(img, f);
    match f.kind
    case Terminal =>
      if fd == 0 { reply := D.Blocks; }
    case Rtc =>
      if fd >= D.STD_RANGE { reply := D.Blocks; }
    case Directory =>
      if f.position == |img.dentries| {
        reply := D.Data([]);
      } else {
        var field := img.dentries[f.position].name;
        assert DentryOk(img, img.dentries[f.position]);
        CopyField(buf, field);
        var name := buf[..CLen(field)];
        after, reply := files[fd := f.(position := f.position + 1, log := f.log + [name])], D.Data(name);
      }
    case Regular =>
      if fd >= D.STD_RANGE {
        assert InodeOk(img, img.inodes[f.inode]);
        var ret := ReadData(img, f.inode, f.position, buf, n);
        after := files[fd := f.(position := f.position + ret, log := f.log + [buf[..ret]])];
        reply := D.Data(buf[..ret]);
      }
  }

  // ---------------------------------------------------------------------------
  // The kernel

  class Kernel {
    const img: Image
    const tables: PageTables
    var pcbs: seq<Pcb>
    var terminals: seq<Term>
    var progCounter: int
    var curTerm: nat
    var prevTerm: nat
    var activeTerm: nat
    var fileArray: nat
    var esp0: int
    var exceptionFlag: bool
    var stacks: seq<seq<Frame>>
    var cpu: nat
    var user: bool
    var spawned: nat
    /** What the page tables say. */
    ghost var mapping: Mapping

    constructor (img: Image, s: State, l: Layout)
      requires s.mapping == Mapping(None, false, VIDEO_FRAME)
      ensures this.img == img && Snapshot() == s && Paged()
      ensures fresh(tables.directory) && fresh(tables.table0) && fresh(tables.tableVideo)
    {
      this.img := img;
      tables := new PageTables(l);
      pcbs, terminals, progCounter, curTerm, prevTerm, activeTerm :=
        s.pcbs, s.terms, s.progCounter, s.cur, s.prev, s.active;
      fileArray, esp0, exceptionFlag, stacks, cpu, user, spawned :=
        s.fileArray, s.esp0, s.exception, s.stacks, s.cpu, s.user, s.spawned;
      mapping := s.mapping;
    }

    ghost function Snapshot(): State
      reads this
    {
      State(pcbs, terminals, progCounter, curTerm, prevTerm, activeTerm, fileArray, esp0, mapping,
            exceptionFlag, stacks, cpu, user, spawned)
    }

    /** The tables, entry by entry, are those of the machine's mapping. */
    ghost predicate Paged()
      reads this`mapping, tables.directory, tables.table0, tables.tableVideo
    {
      tables.Maps(mapping)
    }

    /** What user code reaches through the tables as they stand: the frame of the top process
        of the scheduled terminal, and the video page while it is mapped. */
    lemma TablesReach(va: int)
      requires Inv(img, Snapshot()) && Paged() && tables.layout.table0 != tables.layout.tableVideo && 0 <= va < TWO_32
      ensures tables.Allocated()
      ensures var actual := Tables(tables.directory[..], tables.table0[..], tables.tableVideo[..]);
              match Walk(tables.layout, actual, va, true)
              case None => va / LARGE_PAGE != PROGRAM_ENTRY && (va / PAGE == VIDEO_ENTRY * ENTRIES ==> !mapping.video)
              case Some(pa) =>
                || (va / LARGE_PAGE == PROGRAM_ENTRY && pa == FrameOf(Top(terminals[curTerm])) + va % LARGE_PAGE)
                || (va / PAGE == VIDEO_ENTRY * ENTRIES && mapping.video && VIDEO_FRAME <= pa / PAGE < VIDEO_FRAME + 4)
    {
      tables.MapsTables(mapping);
      UserReach(img, Snapshot(), tables.layout, va);
    }

    /** Interrupt or system-call entry. */
    method Enter()
      requires Paged() && Shape(Snapshot())
      modifies this`cpu, this`stacks, this`user
      ensures Paged()
      ensures Snapshot() == Processes.Enter(old(Snapshot()))
    {
      if user {
        cpu := StackOf(esp0);
        stacks := stacks[cpu := []];
        user := false;
      }
    }

    method PushFrame(f: Frame)
      requires Paged() && cpu < |stacks|
      modifies this`stacks
      ensures Paged()
      ensures stacks == old(stacks)[cpu := old(stacks)[cpu] + [f]]
    {
      stacks := stacks[cpu := stacks[cpu] + [f]];
    }

    /** The pid on top of the scheduled terminal's stack, as every handler finds it. */
    method TopPid() returns (pid: nat)
      requires Shape(Snapshot()) && terminals[curTerm].count > 0
      ensures pid == Top(terminals[curTerm]) && pid < SLOTS
    {
      var t := terminals[curTerm];
      pid := t.pids[t.count - 1];
    }

    /** `get_active_pcb` (student-distrib/process.c:93-107). */
    method GetActivePcb() returns (pid: int)
      requires |pcbs| == SLOTS
      ensures pid == -1 ==> FirstFree(pcbs) == None
      ensures pid != -1 ==> 0 <= pid < SLOTS && FirstFree(pcbs) == Some(pid)
    {
      var count := 0;
      while count < SLOTS
        invariant 0 <= count <= SLOTS
        invariant forall k :: 0 <= k < count ==> pcbs[k].status
      {
        if !pcbs[count].status {
          FirstFreeIs(pcbs, count);
          return count;
        }
        count := count + 1;
      }
      FirstFreeMeans(pcbs);
      return -1;
    }

    /** The loop of `create_pcb` over the new file array (student-distrib/process.c:55-62). */
    method FreshFiles(before: seq<D.Fd>) returns (files: seq<D.Fd>)
      requires D.Sized(before)
      ensures files == D.Fresh(before)
    {
      files := before;
      var i := 0;
      while i < D.FILE_LIMIT
        invariant 0 <= i <= D.FILE_LIMIT && D.Sized(files)
        invariant forall k :: 0 <= k < i ==> files[k] == D.Fresh(before)[k]
        invariant forall k :: i <= k < D.FILE_LIMIT ==> files[k] == before[k]
      {
        if i < D.STD_RANGE {
          files := files[i := files[i].(flags := true, kind := D.Terminal)];
        } else {
          files := files[i := files[i].(flags := false)];
        }
        files := files[i := files[i].(position := 0, log := [])];
        i := i + 1;
      }
    }

    /** `create_pcb` (student-distrib/process.c:42-83). */
    method CreatePcb() returns (pid: int)
      requires Paged() && Shape(Snapshot()) && terminals[curTerm].count < PER_TERMINAL
      modifies this`pcbs, this`progCounter, this`fileArray, this`terminals, this`spawned
      ensures Paged()
      ensures pid == -1 ==> FirstFree(old(pcbs)) == None && Snapshot() == old(Snapshot())
      ensures pid != -1 ==> 0 <= pid < SLOTS && FirstFree(old(pcbs)) == Some(pid)
                            && Snapshot() == CreateAt(old(Snapshot()), pid)
    {
      pid := GetActivePcb();
      if pid == -1 {
        return;
      }
      FillPcb(pid);
      Register(pid);
    }

    /** The counters, the file array and the terminal's pid stack (student-distrib/process.c:73-80). */
    method Register(pid: nat)
      requires Paged() && curTerm < |terminals| && terminals[curTerm].count < |terminals[curTerm].pids|
      modifies this`progCounter, this`fileArray, this`terminals, this`spawned
      ensures Paged()
      ensures progCounter == old(progCounter) + 1 && fileArray == pid && spawned == old(spawned) + 1
      ensures var t := old(terminals)[curTerm];
              terminals == old(terminals)[curTerm := Term(t.pids[t.count := pid], t.count + 1)]
    {
      var t := terminals[curTerm];
      progCounter, fileArray, spawned := progCounter + 1, pid, spawned + 1;
      terminals := terminals[curTerm := Term(t.pids[t.count := pid], t.count + 1)];
    }

    /** The control block of the new process (student-distrib/process.c:52-72). */
    method FillPcb(pid: nat)
      requires Paged() && Shape(Snapshot()) && pid < SLOTS
      modifies this`pcbs
      ensures Paged()
      ensures pcbs == old(pcbs)[pid := NewPcb(old(Snapshot()), pid)]
    {
      var pcb := pcbs[pid].(pid := pid);
      var files := FreshFiles(pcb.files);
      pcb := pcb.(files := files);
      var t := terminals[curTerm];
      if t.count == 0 {
        pcb := pcb.(parent := None);
      } else {
        pcb := pcb.(parent := Some(t.pids[t.count - 1]));
      }
      pcb := pcb.(status := true, term := curTerm, born := spawned, preempted := 0);
      pcbs := pcbs[pid := pcb];
    }

    /** `_execute` (student-distrib/system_call.c:127-191). */
    method DoExecute(cmd: seq<byte>) returns (slot: int, ret: int)
      requires WellFormed(img) && Shape(Snapshot()) && Paged() && IsCommand(cmd) && |Tail(cmd)| < PARAMS_LEN
      modifies this, tables.directory
      ensures Paged()
      ensures slot == -1 ==> Processes.DoExecute(img, old(Snapshot()), cmd) == Refused(ret)
                             && Snapshot() == old(Snapshot())
      ensures slot != -1 ==> 0 <= slot && Processes.DoExecute(img, old(Snapshot()), cmd) == Launched(Snapshot(), slot)
    {
      if terminals[curTerm].count >= PER_TERMINAL {
        return -1, LIMIT_REACHED;
      }
      if progCounter >= SLOTS {
        return -1, LIMIT_REACHED;
      }
      var load := ResolveCommand(img, cmd);
      if load == Unloadable {
        return -1, -1;
      }
      slot := Launch(load.params);
      ret := -1;
    }

    /** `_execute` once the program is known to be loadable (student-distrib/system_call.c:161-188). */
    method Launch(params: seq<byte>) returns (slot: int)
      requires Shape(Snapshot()) && Paged() && terminals[curTerm].count < PER_TERMINAL
      modifies this, tables.directory
      ensures Paged()
      ensures slot == -1 ==> FirstFree(old(pcbs)) == None && Snapshot() == old(Snapshot())
      ensures slot != -1 ==> 0 <= slot < SLOTS && FirstFree(old(pcbs)) == Some(slot)
                             && Snapshot() == LaunchAt(old(Snapshot()), slot, params)
    {
      var frame := ExecFrame(spawned);
      slot := CreatePcb();
      if slot == -1 {
        return;
      }
      MapProgram(slot);
      StartUser(slot, params, frame);
    }

    /** The new process's arguments, the saved EBP and the switch to user code
        (student-distrib/system_call.c:173-188). */
    method StartUser(slot: nat, params: seq<byte>, frame: Frame)
      requires Paged() && slot < |pcbs| && cpu < |stacks|
      requires curTerm < |terminals| && TermShape(terminals[curTerm]) && terminals[curTerm].count > 0
      modifies this`pcbs, this`stacks, this`esp0, this`user
      ensures Paged()
      ensures pcbs == old(pcbs)[slot := old(pcbs)[slot].(params := params, ebp := Ebp(cpu, frame))]
      ensures stacks == old(stacks)[cpu := old(stacks)[cpu] + [frame]]
      ensures esp0 == EspOf(Top(terminals[curTerm])) && user
    {
      pcbs := pcbs[slot := pcbs[slot].(params := params, ebp := Ebp(cpu, frame))];
      PushFrame(frame);
      esp0, user := EspOf(Top(terminals[curTerm])), true;
    }

    /** `setup_paging`: the process's 4 MB page. */
    method MapProgram(pid: nat)
      requires Paged()
      modifies this`mapping, tables.directory
      ensures Paged() && mapping == old(mapping).(program := Some(pid))
    {
      tables.EnableProgramPage(pid, mapping);
      mapping := mapping.(program := Some(pid));
    }

    method MapVideo(on: bool)
      requires Paged()
      modifies this`mapping, tables.directory, tables.tableVideo
      ensures Paged() && mapping == old(mapping).(video := on)
    {
      tables.SetProgVidPage(on, mapping);
      mapping := mapping.(video := on);
    }

    method PointVideo()
      requires Paged()
      modifies this`mapping, tables.tableVideo
      ensures Paged() && mapping == old(mapping).(videoFrame := ScreenFrame(curTerm, activeTerm))
    {
      tables.ChangeProgVidMapping(curTerm, activeTerm, mapping);
      mapping := mapping.(videoFrame := ScreenFrame(curTerm, activeTerm));
    }

    /** `close` (student-distrib/system_call.c:300-310, student-distrib/file_system.c:279-287). */
    method CloseFd(fd: int) returns (ret: int)
      requires Paged() && fileArray < |pcbs| && D.Sized(pcbs[fileArray].files)
      modifies this`pcbs
      ensures Paged()
      ensures var (after, code) := D.Close(old(pcbs)[fileArray].files, fd);
              pcbs == old(pcbs)[fileArray := old(pcbs)[fileArray].(files := after)] && ret == code
    {
      var files := pcbs[fileArray].files;
      if fd < D.STD_RANGE || fd >= D.FILE_LIMIT || !files[fd].flags {
        return -1;
      }
      var f := files[fd].(flags := false);
      if f.kind == D.Regular {
        f := f.(position := 0, log := []);
      }
      pcbs := pcbs[fileArray := pcbs[fileArray].(files := files[fd := f])];
      ret := 0;
    }

    /** The loop of `halt` that closes the current file array (student-distrib/system_call.c:48-52). */
    method CloseAll()
      requires Paged() && fileArray < |pcbs| && D.Sized(pcbs[fileArray].files)
      modifies this`pcbs
      ensures Paged()
      ensures var closed := D.CloseBelow(old(pcbs)[fileArray].files, D.FILE_LIMIT);
              pcbs == old(pcbs)[fileArray := old(pcbs)[fileArray].(files := closed)]
    {
      ghost var before := pcbs;
      var fd := 0;
      while fd < D.FILE_LIMIT
        invariant Paged() && 0 <= fd <= D.FILE_LIMIT && fileArray < |pcbs| && D.Sized(pcbs[fileArray].files)
        invariant pcbs == before[fileArray := before[fileArray].(files := D.CloseBelow(before[fileArray].files, fd))]
      {
        if pcbs[fileArray].files[fd].flags {
          var _ := CloseFd(fd);
        }
        fd := fd + 1;
      }
    }

    /** `halt` (student-distrib/system_call.c:33-84), entered inside the kernel. */
    method DoHalt(status: byte) returns (answer: Answer)
      requires Bootable(img) && Shape(Snapshot()) && Paged() && Processes.DoHalt(img, Snapshot(), status).Ran?
      modifies this, tables.directory, tables.tableVideo
      ensures Paged() && Processes.DoHalt(img, old(Snapshot()), status) == Ran(Snapshot(), answer)
    {
      HaltIs(img, Snapshot(), status);
      var child := TopPid();
      var parent := pcbs[child].parent;
      answer := HaltTop(child, parent, status);
    }

    method HaltTop(child: nat, parent: Option<nat>, status: byte) returns (answer: Answer)
      requires Bootable(img) && Shape(Snapshot()) && Paged() && child < SLOTS && terminals[curTerm].count > 0
      requires Bury(Snapshot(), child).terms == terminals
      requires parent == None ==> HaltRoot(img, Bury(Snapshot(), child)).Ran?
      requires parent != None ==>
                 parent.value < SLOTS && HaltChild(Bury(Snapshot(), child), child, parent.value, status).Ran?
      modifies this, tables.directory, tables.tableVideo
      ensures Paged()
      ensures parent == None ==> HaltRoot(img, Bury(old(Snapshot()), child)) == Ran(Snapshot(), answer)
      ensures parent != None ==>
                HaltChild(Bury(old(Snapshot()), child), child, parent.value, status) == Ran(Snapshot(), answer)
    {
      BuryChild(child);
      answer := LeaveFor(child, parent, status);
    }

    method LeaveFor(child: nat, parent: Option<nat>, status: byte) returns (answer: Answer)
      requires Bootable(img) && Shape(Snapshot()) && Paged() && child < SLOTS && terminals[curTerm].count > 0
      requires parent == None ==> HaltRoot(img, Snapshot()).Ran?
      requires parent != None ==> parent.value < SLOTS && HaltChild(Snapshot(), child, parent.value, status).Ran?
      modifies this, tables.directory, tables.tableVideo
      ensures Paged()
      ensures parent == None ==> HaltRoot(img, old(Snapshot())) == Ran(Snapshot(), answer)
      ensures parent != None ==> HaltChild(old(Snapshot()), child, parent.value, status) == Ran(Snapshot(), answer)
    {
      if parent == None {
        answer := ReplaceRoot();
      } else {
        answer := ToParent(child, parent.value, status);
      }
    }

    method BuryChild(child: nat)
      requires Paged() && Shape(Snapshot()) && child < SLOTS
      modifies this`pcbs
      ensures Paged()
      ensures Snapshot() == Bury(old(Snapshot()), child)
    {
      pcbs := pcbs[child := pcbs[child].(status := false, parent := None)];
      CloseAll();
    }

    /** `halt` of a root (student-distrib/system_call.c:55-60). */
    method ReplaceRoot() returns (answer: Answer)
      requires Bootable(img) && Shape(Snapshot()) && Paged() && HaltRoot(img, Snapshot()).Ran?
      modifies this, tables.directory
      ensures Paged() && HaltRoot(img, old(Snapshot())) == Ran(Snapshot(), answer)
    {
      HaltRootIs(img, Snapshot());
      answer := Relaunched(exceptionFlag);
      ghost var s := Snapshot();
      Vacate();
      StartShell(s);
    }

    method StartShell(ghost s: State)
      requires Bootable(img) && Shape(s) && Snapshot() == Processes.Vacate(s) && Paged()
      requires Processes.DoExecute(img, Processes.Vacate(s), Shell(img)).Launched?
      modifies this, tables.directory
      ensures Paged() && Processes.DoExecute(img, Processes.Vacate(s), Shell(img)).s == Snapshot()
    {
      ShellFits(img);
      var _, _ := DoExecute(Shell(img));
    }

    method Vacate()
      requires Paged() && Shape(Snapshot())
      modifies this`progCounter, this`terminals
      ensures Paged()
      ensures Snapshot() == Processes.Vacate(old(Snapshot()))
    {
      progCounter, terminals := progCounter - 1, terminals[curTerm := terminals[curTerm].(count := 0)];
    }

    /** The exit code, and the jump back (student-distrib/system_call.c:61-80, 96-106). */
    method ToParent(child: nat, parent: nat, status: byte) returns (answer: Answer)
      requires Shape(Snapshot()) && Paged() && child < SLOTS && parent < SLOTS && terminals[curTerm].count > 0
      requires HaltChild(Snapshot(), child, parent, status).Ran?
      modifies this, tables.directory, tables.tableVideo
      ensures Paged() && HaltChild(old(Snapshot()), child, parent, status) == Ran(Snapshot(), answer)
    {
      var code: int := status;
      if exceptionFlag {
        code := EXCEPTION_CODE;
      }
      var back := pcbs[child].ebp;
      ghost var s := Snapshot();
      LeaveChildPages(child, parent);
      assert Snapshot() == LeaveChild(s, child, parent);
      ReturnThrough(back);
      user := true;
      answer := Exited(code, back);
    }

    /** Everything points at the parent again (student-distrib/system_call.c:61-71, 96-99). */
    method LeaveChildPages(child: nat, parent: nat)
      requires Shape(Snapshot()) && Paged() && child < SLOTS && parent < SLOTS && terminals[curTerm].count > 1
      modifies this, tables.directory, tables.tableVideo
      ensures Paged() && Snapshot() == LeaveChild(old(Snapshot()), child, parent)
    {
      MapVideo(false);
      MapProgram(pcbs[parent].pid);
      PointAtParent(child, parent);
    }

    method PointAtParent(child: nat, parent: nat)
      requires Paged() && child < |pcbs|
      requires curTerm < |terminals| && TermShape(terminals[curTerm]) && terminals[curTerm].count > 1
      modifies this`progCounter, this`terminals, this`esp0, this`pcbs, this`fileArray, this`exceptionFlag
      ensures Paged() && progCounter == old(progCounter) - 1 && fileArray == parent && !exceptionFlag
      ensures pcbs == old(pcbs)[child := old(pcbs)[child].(video := false)]
      ensures var popped := old(terminals[curTerm]).(count := old(terminals[curTerm].count) - 1);
              terminals == old(terminals)[curTerm := popped] && TermShape(popped) && esp0 == EspOf(Top(popped))
    {
      PopTop();
      pcbs, fileArray, exceptionFlag := pcbs[child := pcbs[child].(video := false)], parent, false;
    }

    method PopTop()
      requires Paged() && curTerm < |terminals| && TermShape(terminals[curTerm]) && terminals[curTerm].count > 1
      modifies this`progCounter, this`terminals, this`esp0
      ensures Paged()
      ensures progCounter == old(progCounter) - 1
      ensures var popped := old(terminals[curTerm]).(count := old(terminals[curTerm].count) - 1);
              terminals == old(terminals)[curTerm := popped] && TermShape(popped) && esp0 == EspOf(Top(popped))
    {
      progCounter := progCounter - 1;
      var popped := terminals[curTerm].(count := terminals[curTerm].count - 1);
      terminals := terminals[curTerm := popped];
      esp0 := EspOf(Top(popped));
    }

    /** `leave; ret` on a saved EBP (student-distrib/system_call.c:101-106,
        student-distrib/scheduling.c:35-41). */
    method ReturnThrough(e: Ebp)
      requires Paged() && Shape(Snapshot()) && EbpShape(e) && Return(Snapshot(), e).Some?
      modifies this`stacks, this`cpu
      ensures Paged()
      ensures Return(old(Snapshot()), e) == Some(Snapshot())
    {
      var k := FindFrame(stacks[e.stack], e.frame).value;
      stacks := stacks[e.stack := stacks[e.stack][..k]];
      cpu := e.stack;
    }

    /** The first half of `switch_process` (student-distrib/scheduling.c:73-89), after
        `pit_handler` has chosen the next terminal. */
    method SaveFrame(fromUser: bool)
      requires Paged() && Shape(Snapshot()) && terminals[curTerm].count > 0
      modifies this`prevTerm, this`curTerm, this`pcbs, this`stacks
      ensures Paged()
      ensures Snapshot() == Preempt(old(Snapshot()), fromUser)
    {
      var p := TopPid();
      prevTerm := curTerm;
      curTerm := (curTerm + 1) % TERMINALS;
      var frame := TickFrame(pcbs[p].born, pcbs[p].preempted + 1, fromUser);
      pcbs := pcbs[p := pcbs[p].(termEbp := Some(Ebp(cpu, frame)), preempted := pcbs[p].preempted + 1)];
      stacks := stacks[cpu := stacks[cpu] + [frame]];
    }

    /** The next process's pages (student-distrib/scheduling.c:110-119). */
    method MapNext(p: nat)
      requires Paged() && p < |pcbs|
      modifies this`mapping, tables.directory, tables.tableVideo
      ensures Paged()
      ensures var m := old(mapping).(program := Some(p));
              mapping == if pcbs[p].video then m.(video := true, videoFrame := ScreenFrame(curTerm, activeTerm)) else m
    {
      MapProgram(p);
      if pcbs[p].video {
        MapVideo(true);
        PointVideo();
      }
    }

    /** The second half (student-distrib/scheduling.c:104-125). */
    method Resume() returns (answer: Answer)
      requires Shape(Snapshot()) && Paged() && terminals[curTerm].count > 0 && Dispatch(Snapshot()).Ran?
      modifies this, tables.directory, tables.tableVideo
      ensures Paged() && Dispatch(old(Snapshot())) == Ran(Snapshot(), answer)
    {
      var p := TopPid();
      var back := pcbs[p].termEbp.value;
      MapNext(p);
      PointAt(p);
      ReturnThrough(back);
      user := back.frame.TickFrame? && back.frame.fromUser;
      answer := Resumed(p, back);
    }

    method PointAt(p: nat)
      requires Paged()
      modifies this`esp0, this`fileArray
      ensures Paged() && esp0 == EspOf(p) && fileArray == p
    {
      esp0, fileArray := EspOf(p), p;
    }

    /** `pit_handler` (student-distrib/scheduling.c:188-201). `ok` is false when the launch of
        a terminal's first shell was refused. */
    method PitHandler() returns (ok: bool, answer: Answer)
      requires Inv(img, Snapshot()) && Paged()
      modifies this, tables.directory, tables.tableVideo
      ensures Paged()
      ensures Processes.DoTick(img, old(Snapshot())) == if ok then Ran(Snapshot(), answer) else Fault(LaunchRefused)
    {
      ghost var s := Snapshot();
      answer := Quiet;
      TickedCore(s);
      var fromUser := user;
      Enter();
      SaveFrame(fromUser);
      assert Snapshot() == Ticked(s);
      if terminals[curTerm].count == 0 {
        ShellFits(img);
        var slot, _ := DoExecute(Shell(img));
        ok := slot != -1;
        if ok {
          answer := Started(slot);
        }
      } else {
        TickResumes(img, s);
        ok := true;
        answer := Resume();
      }
    }

    /** The `execute` system call; a null command is refused. */
    method SysExecute(command: Option<seq<byte>>) returns (answer: Answer)
      requires Ready(img, Snapshot()) && Paged() && Enabled(Snapshot(), Execute(command))
      modifies this, tables.directory
      ensures Paged() && Step(img, old(Snapshot()), Execute(command)) == Ran(Snapshot(), answer)
    {
      CallStep(img, Snapshot(), Execute(command));
      Enter();
      answer := ExecuteInside(command);
    }

    method ExecuteInside(command: Option<seq<byte>>) returns (answer: Answer)
      requires WellFormed(img) && Shape(Snapshot()) && Paged()
      requires command.Some? ==> IsCommand(command.value) && |Tail(command.value)| < PARAMS_LEN
      modifies this, tables.directory
      ensures Paged() && ExecuteCall(img, old(Snapshot()), command) == Ran(Snapshot(), answer)
    {
      var slot, ret := -1, -1;
      if command.Some? {
        slot, ret := DoExecute(command.value);
      }
      if slot == -1 {
        user := true;
        answer := Replied(D.Code(ret));
      } else {
        answer := Started(slot);
      }
    }

    /** The `halt` system call. */
    method SysHalt(status: byte) returns (answer: Answer)
      requires Inv(img, Snapshot()) && Paged() && user
      modifies this, tables.directory, tables.tableVideo
      ensures Paged() && Step(img, old(Snapshot()), Halt(status)) == Ran(Snapshot(), answer)
    {
      HaltStep(img, Snapshot(), status);
      Enter();
      answer := DoHalt(status);
    }

    /** `exception_handler` (student-distrib/exceptions.c:74-79). */
    method RaiseException() returns (answer: Answer)
      requires Inv(img, Snapshot()) && Paged() && user
      modifies this, tables.directory, tables.tableVideo
      ensures Paged() && Step(img, old(Snapshot()), Exception) == Ran(Snapshot(), answer)
    {
      CallStep(img, Snapshot(), Exception);
      RaisedHalts(img, Snapshot());
      Enter();
      RaiseFlag();
      answer := DoHalt(0);
    }

    method RaiseFlag()
      requires Paged()
      modifies this`exceptionFlag
      ensures Paged() && Snapshot() == old(Snapshot()).(exception := true)
    {
      exceptionFlag := true;
    }

    method SetFileArray(files: seq<D.Fd>)
      requires Paged() && Shape(Snapshot()) && D.Sized(files)
      modifies this`pcbs, this`user
      ensures Paged()
      ensures Snapshot() == SetFiles(old(Snapshot()), files).(user := true)
    {
      pcbs := pcbs[fileArray := pcbs[fileArray].(files := files)];
      user := true;
    }

    /** The `open` system call on a name held as a C string. */
    method SysOpen(filename: seq<byte>) returns (fd: int)
      requires Paged() && Ready(img, Snapshot()) && user && 0 in filename
      modifies this`cpu, this`stacks, this`user, this`pcbs
      ensures Paged()
      ensures Step(img, old(Snapshot()), Open(CStr(filename))) == Ran(Snapshot(), Replied(D.Code(fd)))
    {
      CallStep(img, Snapshot(), Open(CStr(filename)));
      Enter();
      var files;
      files, fd := OpenFile(img, pcbs[fileArray].files, filename);
      SetFileArray(files);
    }

    /** The `close` system call. */
    method SysClose(fd: int) returns (ret: int)
      requires Paged() && Ready(img, Snapshot()) && user
      modifies this`cpu, this`stacks, this`user, this`pcbs
      ensures Paged()
      ensures Step(img, old(Snapshot()), Close(fd)) == Ran(Snapshot(), Replied(D.Code(ret)))
    {
      CallStep(img, Snapshot(), Close(fd));
      Enter();
      ret := CloseInside(fd);
    }

    method CloseInside(fd: int) returns (ret: int)
      requires Paged() && Shape(Snapshot())
      modifies this`user, this`pcbs
      ensures Paged()
      ensures var (after, code) := D.Close(old(pcbs)[fileArray].files, fd);
              ret == code && Snapshot() == SetFiles(old(Snapshot()), after).(user := true)
    {
      ret := CloseFd(fd);
      user := true;
    }

    /** `vidmap` (student-distrib/system_call.c:346-363): an address outside the program's
        4 MB page is refused. */
    method SysVidmap(addr: int) returns (ret: int)
      requires Ready(img, Snapshot()) && Paged() && user && terminals[curTerm].count > 0
      modifies this, tables.directory, tables.tableVideo
      ensures Paged() && Step(img, old(Snapshot()), Vidmap(addr)) == Ran(Snapshot(), Replied(D.Code(ret)))
    {
      CallStep(img, Snapshot(), Vidmap(addr));
      Enter();
      ret := VidmapInside(addr);
    }

    method VidmapInside(addr: int) returns (ret: int)
      requires Shape(Snapshot()) && Paged() && terminals[curTerm].count > 0
      modifies this`mapping, this`pcbs, this`user, tables.directory, tables.tableVideo
      ensures Paged() && DoVidmap(old(Snapshot()), addr) == Ran(Snapshot(), Replied(D.Code(ret)))
    {
      if addr < MB_128 || addr >= MB_132 {
        user := true;
        return -1;
      }
      var p := TopPid();
      MapVideo(true);
      pcbs, user := pcbs[p := pcbs[p].(video := true)], true;
      ret := 0;
    }

    /** The `getargs` system call (student-distrib/system_call.c:322-335). The block's field
        of 128 bytes holds the arguments and a NUL. */
    method SysGetArgs(buf: array<byte>, n: int) returns (ret: int)
      requires Paged() && Inv(img, Snapshot()) && user
      requires -0x8000_0000 <= n < 0x8000_0000 && n <= buf.Length && (n < 0 ==> PARAMS_LEN <= buf.Length)
      modifies this`cpu, this`stacks, this`user, buf
      ensures Paged()
      ensures ret == 0 || ret == -1
      ensures Step(img, old(Snapshot()), GetArgs(n)) ==
              Ran(Snapshot(), Replied(if ret == 0 then D.Data(CStr(buf[..])) else D.Code(-1)))
    {
      TopArgsFit(img, Snapshot());
      CallStep(img, Snapshot(), GetArgs(n));
      Enter();
      ret := GetArgsInside(buf, n);
    }

    method GetArgsInside(buf: array<byte>, n: int) returns (ret: int)
      requires Shape(Snapshot()) && Paged() && terminals[curTerm].count > 0
      requires |pcbs[Top(terminals[curTerm])].params| < PARAMS_LEN
      requires -0x8000_0000 <= n < 0x8000_0000 && n <= buf.Length && (n < 0 ==> PARAMS_LEN <= buf.Length)
      modifies this`user, buf
      ensures Paged() && (ret == 0 || ret == -1)
      ensures DoGetArgs(old(Snapshot()), n) ==
              Ran(Snapshot(), Replied(if ret == 0 then D.Data(CStr(buf[..])) else D.Code(-1)))
    {
      var p := TopPid();
      FieldText(pcbs[p].params, n);
      ret := Command.GetArgs(pcbs[p].params + [0], buf, n);
      user := true;
    }

    /** The `read` system call, up to its return or to the wait it blocks in. */
    method SysRead(fd: int, buf: array<byte>, n: int) returns (reply: D.Reply)
      requires Paged() && Ready(img, Snapshot()) && user && terminals[curTerm].count > 0
      requires n < 0x8000_0000 && n <= buf.Length
      requires 0 <= fd < D.FILE_LIMIT && pcbs[fileArray].files[fd].kind == D.Directory ==> NAME_MAX <= buf.Length
      modifies this`cpu, this`stacks, this`user, this`pcbs, buf
      ensures Paged()
      ensures Step(img, old(Snapshot()), Read(fd, n)) == Ran(Snapshot(), Replied(reply))
      ensures reply.Data? ==> |reply.bytes| <= buf.Length && buf[..|reply.bytes|] == reply.bytes
    {
      EnterFiles(img, Snapshot());
      CallStep(img, Snapshot(), Read(fd, n));
      Enter();
      reply := ReadInside(fd, buf, n);
    }

    method ReadInside(fd: int, buf: array<byte>, n: int) returns (reply: D.Reply)
      requires Paged() && WellFormed(img) && Shape(Snapshot()) && BlocksOk(img, Snapshot())
      requires terminals[curTerm].count > 0 && n < 0x8000_0000 && n <= buf.Length
      requires 0 <= fd < D.FILE_LIMIT && pcbs[fileArray].files[fd].kind == D.Directory ==> NAME_MAX <= buf.Length
      modifies this`stacks, this`user, this`pcbs, buf
      ensures Paged()
      ensures DoRead(img, old(Snapshot()), fd, n) == Ran(Snapshot(), Replied(reply))
      ensures reply.Data? ==> |reply.bytes| <= buf.Length && buf[..|reply.bytes|] == reply.bytes
    {
      var files;
      files, reply := ReadFile(img, pcbs[fileArray].files, fd, n, buf);
      if reply.Blocks? {
        var p := TopPid();
        PushFrame(WaitFrame(pcbs[p].born));
      } else {
        SetFileArray(files);
      }
    }
  }

  // ---------------------------------------------------------------------------
  // The machine's steps, one level down

  lemma FieldText(params: seq<byte>, n: int)
    ensures IsCommand(params + [0]) && CStr(params + [0]) == CStr(params) && Fetch(params + [0], n) == Fetch(params, n)
  {
    var field := params + [0];
    assert field[|params|] == 0;
    assert forall i :: 0 <= i < CLen(params) ==> field[i] == params[i];
    CLenUnique(field, CLen(params));
  }

  lemma HaltRootIs(img: Image, s: State)
    requires Bootable(img) && Shape(s)
    ensures HaltRoot(img, s) ==
            match DoExecute(img, Vacate(s), Shell(img))
            case Refused(_) => Fault(NullParent)
            case Launched(s2, _) => Ran(s2, Relaunched(s.exception))
  {
  }

  lemma HaltIs(img: Image, s: State, status: byte)
    requires Bootable(img) && Shape(s) && DoHalt(img, s, status).Ran?
    ensures s.terms[s.cur].count > 0
    ensures var child := Top(s.terms[s.cur]);
            var parent := s.pcbs[child].parent;
            && child < SLOTS && Shape(Bury(s, child)) && Bury(s, child).terms == s.terms && Bury(s, child).cur == s.cur
            && (parent == None ==> DoHalt(img, s, status) == HaltRoot(img, Bury(s, child)))
            && (parent != None ==>
                  && parent.value < SLOTS
                  && DoHalt(img, s, status) == HaltChild(Bury(s, child), child, parent.value, status))
  {
  }

  lemma HaltStep(img: Image, s: State, status: byte)
    requires Inv(img, s) && s.user
    ensures Step(img, s, Halt(status)) == DoHalt(img, Enter(s), status)
    ensures DoHalt(img, Enter(s), status).Ran?
  {
    EnterOnBehalf(img, s);
    HaltKeeps(img, Enter(s), status);
  }

  lemma RaisedHalts(img: Image, s: State)
    requires Inv(img, s) && s.user
    ensures DoHalt(img, Enter(s).(exception := true), 0).Ran?
  {
    EnterOnBehalf(img, s);
    RaiseOnBehalf(img, s, Enter(s));
    HaltKeeps(img, Enter(s).(exception := true), 0);
  }

  lemma FirstFreeIs(pcbs: seq<Pcb>, k: nat)
    requires k < |pcbs| && !pcbs[k].status && forall i :: 0 <= i < k ==> pcbs[i].status
    ensures FirstFree(pcbs) == Some(k)
  {
    FirstFreeMeans(pcbs);
  }
}
