/** What `execute` and `vidmap` answer in every reachable state, exactly, and that a refusal
    changes nothing (student-distrib/system_call.c:127-191, 346-363). */
module Answers {
  import opened Base
  import opened FileSystem
  import opened Command
  import opened Paging
  import opened Processes
  import opened Agreement
  import opened Invariants
  import opened Steps
  import opened Runs
  import D = Descriptors

  /** The call changed no process, no terminal and no page. */
  predicate Unchanged(s: State, s': State) {
    && s'.pcbs == s.pcbs && s'.terms == s.terms && s'.cur == s.cur && s'.mapping == s.mapping
    && s'.progCounter == s.progCounter && s'.exception == s.exception && s'.user
  }

  /** The first directory entry with the command's name is an executable. */
  ghost predicate Loads(img: Image, cmd: seq<byte>)
    requires WellFormed(img) && IsCommand(cmd)
  {
    exists k: nat :: D.FirstNamed(img, Name(cmd), k) && Executable(img, img.dentries[k])
  }

  lemma LoadsIs(img: Image, cmd: seq<byte>)
    requires WellFormed(img) && IsCommand(cmd)
    ensures Loads(img, cmd) <==> Resolve(img, cmd).Loadable?
  {
    ResolveMeans(img, cmd);
    var r := Resolve(img, cmd);
    if r.Loadable? {
      assert D.FirstNamed(img, Name(cmd), r.dentry);
    }
  }

  /** What `execute` may answer: 1 at either limit, whatever the command; else the new
      process, in the lowest free slot, if the command loads; else -1. */
  ghost predicate RightAnswer(img: Image, s: State, cmd: seq<byte>, a: Answer)
    requires WellFormed(img) && IsCommand(cmd) && Shape(s)
  {
    if s.terms[s.cur].count == PER_TERMINAL || s.progCounter == SLOTS then a == Replied(D.Code(1))
    else if Loads(img, cmd) then
      && a.Started? && a.pid < SLOTS && !s.pcbs[a.pid].status
      && forall q :: 0 <= q < a.pid ==> s.pcbs[q].status
    else a == Replied(D.Code(-1))
  }

  lemma ExecuteDecides(img: Image, s: State, cmd: seq<byte>)
    requires WellFormed(img) && Shape(s) && IsCommand(cmd) && s.progCounter <= SLOTS
    requires s.progCounter < SLOTS ==> FirstFree(s.pcbs).Some?
    ensures var r := ExecuteCall(img, s, Some(cmd));
            && r.Ran? && RightAnswer(img, s, cmd, r.answer)
            && (r.answer.Replied? ==> r.s == s.(user := true))
  {
    LoadsIs(img, cmd);
    FirstFreeMeans(s.pcbs);
  }

  lemma NullDecides(img: Image, s: State)
    requires WellFormed(img) && Shape(s)
    ensures ExecuteCall(img, s, None) == Ran(s.(user := true), Replied(D.Code(-1)))
  {
  }

  lemma EnterSame(img: Image, s: State, cmd: seq<byte>, a: Answer)
    requires WellFormed(img) && IsCommand(cmd) && Shape(s) && RightAnswer(img, Enter(s), cmd, a)
    ensures RightAnswer(img, s, cmd, a) && Unchanged(s, Enter(s).(user := true))
  {
  }

  lemma RoomOrFull(s: State)
    requires Scheduled(s)
    ensures s.progCounter <= SLOTS && (s.progCounter < SLOTS ==> FirstFree(s.pcbs).Some?)
  {
    if s.progCounter < SLOTS {
      SlotAvailable(s.pcbs);
    }
  }

  /** In every reachable state `execute` answers exactly that, and a refusal changes nothing. */
  lemma ExecuteAnswers(img: Image, s: State, cmd: seq<byte>)
    requires Inv(img, s) && s.user && IsCommand(cmd) && |Tail(cmd)| < PARAMS_LEN
    ensures Next(img, s, Execute(Some(cmd))).Some?
    ensures var (s', a) := Next(img, s, Execute(Some(cmd))).value;
            RightAnswer(img, s, cmd, a) && (a.Replied? ==> Unchanged(s, s'))
  {
    NextCall(img, s, Execute(Some(cmd)));
    RoomOrFull(s);
    ExecuteDecides(img, Enter(s), cmd);
    EnterSame(img, s, cmd, ExecuteCall(img, Enter(s), Some(cmd)).answer);
  }

  lemma NullExecute(img: Image, s: State)
    requires Inv(img, s) && s.user
    ensures Next(img, s, Execute(None)).Some? && Next(img, s, Execute(None)).value.1 == Replied(D.Code(-1))
    ensures Unchanged(s, Next(img, s, Execute(None)).value.0)
  {
    NextCall(img, s, Execute(None));
    NullDecides(img, Enter(s));
  }

  lemma VidmapDecides(s: State, addr: int)
    requires Shape(s) && s.terms[s.cur].count > 0
    ensures var r := DoVidmap(Enter(s), addr);
            var p := Top(s.terms[s.cur]);
            && r.Ran?
            && if MB_128 <= addr < MB_132 then
                 && r.answer == Replied(D.Code(0)) && r.s.mapping == s.mapping.(video := true)
                 && r.s.pcbs == s.pcbs[p := s.pcbs[p].(video := true)] && r.s.terms == s.terms
               else r.answer == Replied(D.Code(-1)) && Unchanged(s, r.s)
  {
  }

  lemma VidmapNext(img: Image, s: State, addr: int)
    requires Ready(img, s) && s.user && s.terms[s.cur].count > 0
    ensures var r := DoVidmap(Enter(s), addr);
            r.Ran? && Next(img, s, Vidmap(addr)) == Some((r.s, r.answer))
  {
    NextCall(img, s, Vidmap(addr));
    CallIs(img, Enter(s), Vidmap(addr));
  }

  /** Where user code finds byte `i` of the page at 132 MB. */
  function VideoByte(l: Layout, m: Mapping, i: nat): Option<int>
    requires i < PAGE
  {
    Walk(l, TablesOf(l, m), MB_132 + i, true)
  }

  lemma VideoWalk(l: Layout, m: Mapping, i: nat)
    requires l.table0 != l.tableVideo && m.video && i < PAGE
    ensures VideoByte(l, m, i) == Some(m.videoFrame * PAGE + i)
  {
    UserWalk(l, m, MB_132 + i);
  }

  /** `vidmap` succeeds exactly for an address inside the program page; then every byte of the
      page at 132 MB is that byte of the video page, and the process will have it again when
      it is next scheduled. Otherwise nothing changes. */
  ghost predicate RightMapping(s: State, addr: int, s': State, a: Answer, l: Layout)
    requires Shape(s) && s.terms[s.cur].count > 0
  {
    var p := Top(s.terms[s.cur]);
    if PROGRAM_ENTRY * LARGE_PAGE <= addr < (PROGRAM_ENTRY + 1) * LARGE_PAGE then
      && a == Replied(D.Code(0)) && s'.pcbs == s.pcbs[p := s.pcbs[p].(video := true)]
      && forall i :: 0 <= i < PAGE ==> VideoByte(l, s'.mapping, i) == Some(s.mapping.videoFrame * PAGE + i)
    else a == Replied(D.Code(-1)) && Unchanged(s, s')
  }

  lemma VidmapMaps(s: State, addr: int, l: Layout)
    requires Shape(s) && s.terms[s.cur].count > 0 && l.table0 != l.tableVideo
    ensures var r := DoVidmap(Enter(s), addr); r.Ran? && RightMapping(s, addr, r.s, r.answer, l)
  {
    VidmapDecides(s, addr);
    forall i | 0 <= i < PAGE
      ensures VideoByte(l, s.mapping.(video := true), i) == Some(s.mapping.videoFrame * PAGE + i)
    {
      VideoWalk(l, s.mapping.(video := true), i);
    }
  }

  /** In every reachable state `vidmap` does exactly that. */
  lemma VidmapAnswers(img: Image, s: State, addr: int, l: Layout)
    requires Inv(img, s) && s.user && l.table0 != l.tableVideo
    ensures Next(img, s, Vidmap(addr)).Some?
    ensures var (s', a) := Next(img, s, Vidmap(addr)).value; RightMapping(s, addr, s', a, l)
  {
    VidmapNext(img, s, addr);
    VidmapMaps(s, addr, l);
  }
}
