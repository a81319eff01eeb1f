/** What can be observed in every reachable state: the pid stacks against the pool, what a
    user program can reach in memory, and what its descriptors have delivered. */
module Observations {
  import opened Base
  import opened FileSystem
  import opened Paging
  import opened Processes
  import opened Agreement
  import opened Invariants
  import opened Steps
  import opened Runs
  import D = Descriptors

  // ---------------------------------------------------------------------------
  // Pid stacks

  function Stack(terms: seq<Term>, t: nat): seq<nat>
    requires |terms| == TERMINALS && t < TERMINALS && TermShape(terms[t])
  {
    terms[t].pids[..terms[t].count]
  }

  /** The three pid stacks, one after the other. */
  function AllPids(terms: seq<Term>): seq<nat>
    requires |terms| == TERMINALS && forall t :: 0 <= t < TERMINALS ==> TermShape(terms[t])
  {
    Stack(terms, 0) + Stack(terms, 1) + Stack(terms, 2)
  }

  /** The place an index into `AllPids` stands for. */
  function Place(terms: seq<Term>, i: nat): (nat, nat)
    requires |terms| == TERMINALS
  {
    if i < terms[0].count then (0, i)
    else if i < terms[0].count + terms[1].count then (1, i - terms[0].count)
    else (2, i - terms[0].count - terms[1].count)
  }

  lemma PlaceHolds(pcbs: seq<Pcb>, terms: seq<Term>, i: nat)
    requires Fitting(pcbs, terms) && i < |AllPids(terms)|
    ensures var (t, k) := Place(terms, i);
            Position(terms, t, k) && AllPids(terms)[i] == terms[t].pids[k]
  {
  }

  lemma PidInAll(pcbs: seq<Pcb>, terms: seq<Term>, t: nat, k: nat)
    requires Fitting(pcbs, terms) && Position(terms, t, k)
    ensures terms[t].pids[k] in AllPids(terms)
  {
    assert terms[t].pids[k] == Stack(terms, t)[k];
    assert terms[t].pids[k] in Stack(terms, t);
  }

  lemma PidsDistinct(pcbs: seq<Pcb>, terms: seq<Term>, i: nat, j: nat)
    requires Fitting(pcbs, terms) && Links(pcbs, terms) && i < j < |AllPids(terms)|
    ensures AllPids(terms)[i] != AllPids(terms)[j]
  {
    PlaceHolds(pcbs, terms, i);
    PlaceHolds(pcbs, terms, j);
    var (t, k) := Place(terms, i);
    var (u, m) := Place(terms, j);
    if terms[t].pids[k] == terms[u].pids[m] {
      PositionsUnique(pcbs, terms, t, k, u, m);
    }
  }

  lemma ListedIsLive(pcbs: seq<Pcb>, terms: seq<Term>, p: nat)
    requires Fitting(pcbs, terms) && Links(pcbs, terms) && p in AllPids(terms)
    ensures p < SLOTS && pcbs[p].status
  {
    var i :| 0 <= i < |AllPids(terms)| && AllPids(terms)[i] == p;
    PlaceHolds(pcbs, terms, i);
    var (t, k) := Place(terms, i);
    assert Linked(pcbs, terms, t, k);
  }

  lemma LiveIsListed(pcbs: seq<Pcb>, terms: seq<Term>, p: nat)
    requires Fitting(pcbs, terms) && Links(pcbs, terms) && p < SLOTS && pcbs[p].status
    ensures p in AllPids(terms)
  {
    assert Held(pcbs, terms, p);
    var t := pcbs[p].term;
    var k :| 0 <= k < terms[t].count && terms[t].pids[k] == p;
    PidInAll(pcbs, terms, t, k);
  }

  /** The pid stacks hold no process twice and hold exactly the live ones, at most six in
      all; a process's parent is the one just below it on its terminal. */
  ghost predicate StacksAgree(pcbs: seq<Pcb>, terms: seq<Term>)
    requires Fitting(pcbs, terms)
  {
    var all := AllPids(terms);
    && (forall i, j :: 0 <= i < j < |all| ==> all[i] != all[j])
    && (forall p :: 0 <= p < SLOTS ==> (p in all <==> pcbs[p].status))
    && |all| == Live(pcbs) <= SLOTS
    && (forall t, i :: Position(terms, t, i) ==> Linked(pcbs, terms, t, i))
  }

  lemma PidStacks(pcbs: seq<Pcb>, terms: seq<Term>)
    requires Fitting(pcbs, terms) && Links(pcbs, terms)
    ensures StacksAgree(pcbs, terms)
  {
    var all := AllPids(terms);
    forall i, j | 0 <= i < j < |all|
      ensures all[i] != all[j]
    {
      PidsDistinct(pcbs, terms, i, j);
    }
    forall p | 0 <= p < SLOTS
      ensures p in all <==> pcbs[p].status
    {
      if p in all {
        ListedIsLive(pcbs, terms, p);
      }
      if pcbs[p].status {
        LiveIsListed(pcbs, terms, p);
      }
    }
  }

  /** Over every run: the pid stacks, the pool and the counters agree in the state reached. */
  lemma RunsKeepStacks(img: Image, s: State, events: seq<Event>)
    requires Inv(img, s) && Run(img, s, events).Some?
    ensures var r := Run(img, s, events).value;
            && Shape(r) && StacksAgree(r.pcbs, r.terms)
            && r.progCounter == |AllPids(r.terms)|
  {
    RunsKeep(img, s, events);
    var r := Run(img, s, events).value;
    PidStacks(r.pcbs, r.terms);
  }

  /** Over every run: the page directory, `tss.esp0`, the file array and the running
      block's terminal denote the top process of the scheduled terminal. */
  lemma RunsAgree(img: Image, s: State, events: seq<Event>)
    requires Inv(img, s) && Run(img, s, events).Some?
    ensures var r := Run(img, s, events).value;
            && Shape(r) && r.terms[r.cur].count > 0
            && var p := Top(r.terms[r.cur]);
               Denotes(r, p) && r.pcbs[p].status && r.pcbs[p].term == r.cur && r.pcbs[p].pid == p
  {
    RunsKeep(img, s, events);
    TopPlace(Run(img, s, events).value);
  }

  lemma TopPlace(s: State)
    requires Scheduled(s)
    ensures var p := Top(s.terms[s.cur]);
            s.pcbs[p].status && s.pcbs[p].term == s.cur && s.pcbs[p].pid == p
  {
    var n := s.terms[s.cur].count - 1;
    assert Position(s.terms, s.cur, n) && Linked(s.pcbs, s.terms, s.cur, n);
  }

  // ---------------------------------------------------------------------------
  // Memory

  /** In every reachable state, exactly what a user-mode access reaches: the running
      process's own 4 MB frame through the program window, and, while the user video page
      is mapped, one of the four video pages; everything else faults. */
  lemma UserReach(img: Image, s: State, l: Layout, va: int)
    requires Inv(img, s) && l.table0 != l.tableVideo && 0 <= va < TWO_32
    ensures var p := Top(s.terms[s.cur]);
            match Walk(l, TablesOf(l, s.mapping), va, true)
            case None => va / LARGE_PAGE != PROGRAM_ENTRY && (va / PAGE == VIDEO_ENTRY * ENTRIES ==> !s.mapping.video)
            case Some(pa) =>
              || (va / LARGE_PAGE == PROGRAM_ENTRY && pa == FrameOf(p) + va % LARGE_PAGE)
              || (va / PAGE == VIDEO_ENTRY * ENTRIES && s.mapping.video && VIDEO_FRAME <= pa / PAGE < VIDEO_FRAME + 4)
  {
    UserWalk(l, s.mapping, va);
  }

  /** What it reaches is in no other process's frame and not in the kernel's 4 MB. */
  lemma UserIsolated(img: Image, s: State, l: Layout, va: int, q: nat, b: nat)
    requires Inv(img, s) && l.table0 != l.tableVideo && 0 <= va < TWO_32
    requires q < SLOTS && q != Top(s.terms[s.cur]) && b < LARGE_PAGE
    requires Walk(l, TablesOf(l, s.mapping), va, true).Some?
    ensures var pa := Walk(l, TablesOf(l, s.mapping), va, true).value;
            pa != FrameOf(q) + b && !(LARGE_PAGE <= pa < 2 * LARGE_PAGE)
  {
    UserReach(img, s, l, va);
    FramesDisjoint(Top(s.terms[s.cur]), q, va % LARGE_PAGE, b);
  }

  // ---------------------------------------------------------------------------
  // Descriptors

  /** What process `p` has read through descriptor `fd` since opening it. */
  function Delivered(s: State, p: nat, fd: nat): seq<byte>
    requires Shape(s) && p < SLOTS && fd < D.FILE_LIMIT
  {
    Flatten(s.pcbs[p].files[fd].log)
  }

  /** Over every run, for every process and every open regular file: what was read since
      the open is exactly the contents up to the position, which is never past the end. */
  lemma RunsDeliver(img: Image, s: State, events: seq<Event>, p: nat, fd: nat)
    requires Inv(img, s) && Run(img, s, events).Some? && p < SLOTS && fd < D.FILE_LIMIT
    ensures Shape(Run(img, s, events).value)
    ensures var r := Run(img, s, events).value;
            var f := r.pcbs[p].files[fd];
            f.flags && f.kind == D.Regular ==>
              && 0 <= f.inode < |img.inodes|
              && 0 <= f.position <= img.inodes[f.inode].length
              && Delivered(r, p, fd) == Contents(img, img.inodes[f.inode])[..f.position]
  {
    RunsKeep(img, s, events);
    FileDelivered(img, Run(img, s, events).value, p, fd);
  }

  lemma FileDelivered(img: Image, s: State, p: nat, fd: nat)
    requires WellFormed(img) && Shape(s) && BlocksOk(img, s) && p < SLOTS && fd < D.FILE_LIMIT
    ensures var f := s.pcbs[p].files[fd];
            f.flags && f.kind == D.Regular ==>
              && 0 <= f.inode < |img.inodes|
              && 0 <= f.position <= img.inodes[f.inode].length
              && Delivered(s, p, fd) == Contents(img, img.inodes[f.inode])[..f.position]
  {
    assert D.Consistent(img, s.pcbs[p].files);
    assert D.FdOk(img, s.pcbs[p].files[fd]);
  }

  /** The bytes a read answers are the bytes it adds to the history of that descriptor of
      the running process, and to no other. */
  lemma ReadAnswers(img: Image, s: State, fd: nat, n: int, r: State, bytes: seq<byte>)
    requires Inv(img, s) && s.user && fd < D.FILE_LIMIT
    requires Next(img, s, Read(fd, n)) == Some((r, Replied(D.Data(bytes))))
    ensures Shape(r)
    ensures var p := Top(s.terms[s.cur]);
            && Delivered(r, p, fd) == Delivered(s, p, fd) + bytes
            && (forall i :: 0 <= i < D.FILE_LIMIT && i != fd ==> r.pcbs[p].files[i] == s.pcbs[p].files[i])
  {
    ReadDone(img, s, fd, n, r, bytes);
    EnterFiles(img, s);
    ReadDelivers(img, Enter(s), fd, n);
  }

  lemma ReadDone(img: Image, s: State, fd: nat, n: int, r: State, bytes: seq<byte>)
    requires Ready(img, s) && s.user && Next(img, s, Read(fd, n)) == Some((r, Replied(D.Data(bytes))))
    ensures BlocksOk(img, Enter(s)) && DoRead(img, Enter(s), fd, n) == Ran(r, Replied(D.Data(bytes)))
    ensures D.Read(img, Enter(s).pcbs[Enter(s).fileArray].files, fd, n).1.Data?
  {
    NextCall(img, s, Read(fd, n));
  }

  lemma ReadDelivers(img: Image, s: State, fd: nat, n: int)
    requires WellFormed(img) && Shape(s) && BlocksOk(img, s) && fd < D.FILE_LIMIT
    requires D.Read(img, s.pcbs[s.fileArray].files, fd, n).1.Data?
    ensures var r := DoRead(img, s, fd, n);
            && r.Ran? && r.answer.Replied? && r.answer.reply.Data?
            && Shape(r.s)
            && Delivered(r.s, s.fileArray, fd) == Delivered(s, s.fileArray, fd) + r.answer.reply.bytes
            && (forall i :: 0 <= i < D.FILE_LIMIT && i != fd ==>
                  r.s.pcbs[s.fileArray].files[i] == s.pcbs[s.fileArray].files[i])
  {
    var (after, reply) := D.Read(img, s.pcbs[s.fileArray].files, fd, n);
    var log := s.pcbs[s.fileArray].files[fd].log;
    if after[fd].log == log + [reply.bytes] {
      FlattenSnoc(log, reply.bytes);
    }
  }
}
