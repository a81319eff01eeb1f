/** Page tables: one directory, a table for the first 4 MB and a table for the user's
    view of video memory (student-distrib/paging.c), and the two-level walk that the
    processor performs over them. */
module Paging {
  import opened Base

  const ENTRIES: int := 1024
  const PAGE: int := 0x1000
  const LARGE_PAGE: int := 0x40_0000
  const PROGRAM_ENTRY: int := 32
  const VIDEO_ENTRY: int := 33
  const VIDEO_FRAME: int := 0xB8
  const KERNEL_ADDR: int := 0x400

  /** The fields of a directory entry that the kernel ever sets to something other
      than zero; `addr` is the 20-bit page-table-address field. */
  datatype Pde = Pde(present: bool, writable: bool, user: bool, large: bool, ignored: bool, addr: int)

  datatype Pte = Pte(present: bool, writable: bool, user: bool, addr: int)

  /** Physical page numbers of the two page tables themselves. */
  datatype Layout = Layout(table0: int, tableVideo: int)

  /** What the tables currently say: which process's 4 MB frame is mapped, whether the
      user video page is on, and which physical page it shows. */
  datatype Mapping = Mapping(program: Option<nat>, video: bool, videoFrame: int)

  datatype Tables = Tables(directory: seq<Pde>, table0: seq<Pte>, tableVideo: seq<Pte>)

  const ABSENT := Pde(false, true, false, false, false, 0)

  function ProgramPde(pid: nat): Pde {
    Pde(true, true, true, true, true, (pid * LARGE_PAGE + 2 * LARGE_PAGE) / PAGE)
  }

  function DirectoryEntry(l: Layout, m: Mapping, i: int): Pde {
    if i == 0 then Pde(true, true, false, false, false, l.table0)
    else if i == 1 then Pde(true, true, false, true, true, KERNEL_ADDR)
    else if i == PROGRAM_ENTRY && m.program.Some? then ProgramPde(m.program.value)
    else if i == VIDEO_ENTRY then Pde(m.video, true, true, false, false, l.tableVideo)
    else ABSENT
  }

  function Table0Entry(i: int): Pte {
    Pte(VIDEO_FRAME <= i < VIDEO_FRAME + 4, true, false, i)
  }

  function VideoEntry(m: Mapping, i: int): Pte {
    if i == 0 then Pte(m.video, true, true, m.videoFrame) else Pte(false, true, true, i)
  }

  function TablesOf(l: Layout, m: Mapping): Tables {
    Tables(seq(ENTRIES, i => DirectoryEntry(l, m, i)),
           seq(ENTRIES, i => Table0Entry(i)),
           seq(ENTRIES, i => VideoEntry(m, i)))
  }

  predicate Complete(tb: Tables) {
    |tb.directory| == |tb.table0| == |tb.tableVideo| == ENTRIES
  }

  /** Translation of a 32-bit linear address (section 4.3 of the Intel 64 and IA-32
      SDM, Volume 3A) under the access rights of section 4.6: a user-mode access needs
      the user flag at every level. */
  function Walk(l: Layout, tb: Tables, va: int, userMode: bool): Option<int>
    requires Complete(tb) && 0 <= va < TWO_32
  {
    var pde := tb.directory[va / LARGE_PAGE];
    if !pde.present || (userMode && !pde.user) then None
    else if pde.large then Some(pde.addr / ENTRIES * LARGE_PAGE + va % LARGE_PAGE)
    else
      var index := va / PAGE % ENTRIES;
      var pte := if pde.addr == l.table0 then tb.table0[index]
                 else if pde.addr == l.tableVideo then tb.tableVideo[index]
                 else Pte(false, false, false, 0);
      if !pte.present || (userMode && !pte.user) then None
      else Some(pte.addr * PAGE + va % PAGE)
  }

  /** First byte of the 4 MB physical frame of a process. */
  function FrameOf(pid: nat): int {
    2 * LARGE_PAGE + pid * LARGE_PAGE
  }

  /** Every user-mode access, exactly: the mapped process's own frame through the
      program window, the one video page when it is on, and nothing else. */
  lemma UserWalk(l: Layout, m: Mapping, va: int)
    requires l.table0 != l.tableVideo && 0 <= va < TWO_32
    ensures Walk(l, TablesOf(l, m), va, true) ==
            if va / LARGE_PAGE == PROGRAM_ENTRY && m.program.Some? then
              Some(FrameOf(m.program.value) + va % LARGE_PAGE)
            else if va / PAGE == VIDEO_ENTRY * ENTRIES && m.video then
              Some(m.videoFrame * PAGE + va % PAGE)
            else None
  {
    var i := va / LARGE_PAGE;
    assert TablesOf(l, m).directory[i] == DirectoryEntry(l, m, i);
    if i == PROGRAM_ENTRY && m.program.Some? {
      var pid := m.program.value;
      assert ProgramPde(pid).addr == pid * 0x400 + 0x800;
      assert ProgramPde(pid).addr / ENTRIES == pid + 2;
    } else if i == VIDEO_ENTRY {
      assert va / PAGE % ENTRIES == va / PAGE - VIDEO_ENTRY * ENTRIES;
    }
  }

  /** The kernel reaches its own 4 MB and the four video pages at their physical addresses. */
  lemma KernelWalk(l: Layout, m: Mapping, va: int)
    requires l.table0 != l.tableVideo
    requires LARGE_PAGE <= va < 2 * LARGE_PAGE || VIDEO_FRAME * PAGE <= va < (VIDEO_FRAME + 4) * PAGE
    ensures Walk(l, TablesOf(l, m), va, false) == Some(va)
  {
    var i := va / LARGE_PAGE;
    assert TablesOf(l, m).directory[i] == DirectoryEntry(l, m, i);
    if i == 0 {
      assert TablesOf(l, m).table0[va / PAGE] == Table0Entry(va / PAGE);
    }
  }

  /** Frames of distinct processes share no byte, and none overlaps the kernel's. */
  lemma FramesDisjoint(p: nat, q: nat, a: nat, b: nat)
    requires p != q && a < LARGE_PAGE && b < LARGE_PAGE
    ensures FrameOf(p) + a != FrameOf(q) + b
    ensures FrameOf(p) + a >= 2 * LARGE_PAGE
  {
    if p < q {
      assert (p + 1) * LARGE_PAGE <= q * LARGE_PAGE;
    } else {
      assert (q + 1) * LARGE_PAGE <= p * LARGE_PAGE;
    }
  }

  /** The three tables as the kernel keeps them, written entry by entry. */
  class PageTables {
    const layout: Layout
    const directory: array<Pde>
    const table0: array<Pte>
    const tableVideo: array<Pte>

    ghost predicate Allocated() {
      && directory.Length == ENTRIES && table0.Length == ENTRIES && tableVideo.Length == ENTRIES
      && table0 != tableVideo
    }

    /** Every entry is the one that mapping `m` calls for. */
    ghost predicate Maps(m: Mapping)
      reads directory, table0, tableVideo
    {
      && Allocated()
      && (forall i :: 0 <= i < ENTRIES ==> directory[i] == DirectoryEntry(layout, m, i))
      && (forall i :: 0 <= i < ENTRIES ==> table0[i] == Table0Entry(i))
      && (forall i :: 0 <= i < ENTRIES ==> tableVideo[i] == VideoEntry(m, i))
    }

    /** The tables are then the ones whose walks are known. */
    lemma MapsTables(m: Mapping)
      requires Maps(m)
      ensures Tables(directory[..], table0[..], tableVideo[..]) == TablesOf(layout, m)
    {
      var tb := TablesOf(layout, m);
      assert directory[..] == tb.directory;
      assert table0[..] == tb.table0;
      assert tableVideo[..] == tb.tableVideo;
    }

    /** `init_paging` (student-distrib/paging.c:17-23). */
    constructor (l: Layout)
      ensures layout == l && Maps(Mapping(None, false, VIDEO_FRAME))
      ensures fresh(directory) && fresh(table0) && fresh(tableVideo)
    {
      layout := l;
      directory := new Pde[ENTRIES](_ => ABSENT);
      table0 := new Pte[ENTRIES](_ => Pte(false, false, false, 0));
      tableVideo := new Pte[ENTRIES](_ => Pte(false, false, false, 0));
      new;
      InitDirectory();
      InitTable0();
      InitProgVid();
    }

    method InitDirectory()
      requires Allocated()
      modifies directory
      ensures forall i :: 0 <= i < ENTRIES ==>
                directory[i] == if i == 1 then Pde(true, true, false, true, true, KERNEL_ADDR) else ABSENT
    {
      var i := 0;
      while i < ENTRIES
        invariant 0 <= i <= ENTRIES
        invariant forall k :: 0 <= k < i ==> directory[k] == ABSENT
      {
        directory[i] := ABSENT;
        i := i + 1;
      }
      directory[1] := directory[1].(present := true, large := true, ignored := true, addr := KERNEL_ADDR);
    }

    method InitTable0()
      requires Allocated() && directory[0] == ABSENT
      modifies table0, directory
      ensures forall i :: 0 <= i < ENTRIES ==> table0[i] == Table0Entry(i)
      ensures directory[..] == old(directory[..])[0 := Pde(true, true, false, false, false, layout.table0)]
    {
      var i := 0;
      while i < ENTRIES
        invariant 0 <= i <= ENTRIES
        invariant forall k :: 0 <= k < i ==> table0[k] == Pte(false, true, false, k)
        invariant directory[..] == old(directory[..])
      {
        table0[i] := Pte(false, true, false, i);
        i := i + 1;
      }
      table0[VIDEO_FRAME] := table0[VIDEO_FRAME].(present := true);
      table0[VIDEO_FRAME + 1] := table0[VIDEO_FRAME + 1].(present := true);
      table0[VIDEO_FRAME + 2] := table0[VIDEO_FRAME + 2].(present := true);
      table0[VIDEO_FRAME + 3] := table0[VIDEO_FRAME + 3].(present := true);
      directory[0] := directory[0].(present := true, writable := true, addr := layout.table0);
    }

    method InitProgVid()
      requires Allocated() && directory[VIDEO_ENTRY] == ABSENT
      modifies tableVideo, directory
      ensures forall i :: 0 <= i < ENTRIES ==> tableVideo[i] == VideoEntry(Mapping(None, false, VIDEO_FRAME), i)
      ensures directory[..] ==
              old(directory[..])[VIDEO_ENTRY := Pde(false, true, true, false, false, layout.tableVideo)]
    {
      var i := 0;
      while i < ENTRIES
        invariant 0 <= i <= ENTRIES
        invariant forall k :: 0 <= k < i ==> tableVideo[k] == Pte(false, true, true, k)
        invariant directory[..] == old(directory[..])
      {
        tableVideo[i] := Pte(false, true, true, i);
        i := i + 1;
      }
      directory[VIDEO_ENTRY] := directory[VIDEO_ENTRY].(present := false, writable := true, user := true,
                                                        addr := layout.tableVideo);
      tableVideo[0] := tableVideo[0].(addr := VIDEO_FRAME);
    }

    /** `enable_program_page` (student-distrib/paging.c:87-102). */
    method EnableProgramPage(pid: nat, ghost m: Mapping)
      requires Maps(m)
      modifies directory
      ensures Maps(m.(program := Some(pid)))
    {
      var physical := pid * LARGE_PAGE + 2 * LARGE_PAGE;
      directory[PROGRAM_ENTRY] := Pde(true, true, true, true, true, physical / PAGE);
    }

    /** `enable_prog_vid_page` and `disable_prog_vid_page` (student-distrib/paging.c:211-229). */
    method SetProgVidPage(on: bool, ghost m: Mapping)
      requires Maps(m)
      modifies directory, tableVideo
      ensures Maps(m.(video := on))
    {
      directory[VIDEO_ENTRY] := directory[VIDEO_ENTRY].(present := on);
      tableVideo[0] := tableVideo[0].(present := on);
    }

    /** `change_prog_vid_mapping` (student-distrib/paging.c:294-302). */
    method ChangeProgVidMapping(term: nat, active: nat, ghost m: Mapping)
      requires Maps(m)
      modifies tableVideo
      ensures Maps(m.(videoFrame := ScreenFrame(term, active)))
      ensures tableVideo[0].addr == if term == active then 0xB8 else 0xB9 + term
    {
      if term == active {
        tableVideo[0] := tableVideo[0].(addr := VIDEO_FRAME);
      } else {
        tableVideo[0] := tableVideo[0].(addr := VIDEO_FRAME + term + 1);
      }
    }
  }

  /** The physical page that holds the screen of terminal `term` while `active` is displayed. */
  function ScreenFrame(term: nat, active: nat): int {
    if term == active then VIDEO_FRAME else VIDEO_FRAME + term + 1
  }
}
