/** Execute and halt nest like calls, and saved frames are never stale, over every run of the
    process machine. */
module Calls {
  import opened Base
  import opened FileSystem
  import opened Command
  import opened Paging
  import opened Processes
  import opened Agreement
  import opened Invariants
  import opened Steps
  import opened Effects
  import opened Runs
  import Machine

  // ---------------------------------------------------------------------------
  // No stale resume

  /** Process `p`, parked in `s`, goes on in `s'` through the frame of its own last
      preemption, which its own kernel stack still held. */
  ghost predicate GoesOn(s: State, p: nat, s': State, back: Ebp)
    requires Shape(s)
  {
    && p < SLOTS && s.pcbs[p].status && Denotes(s', p) && s'.cpu == p
    && back.stack == p && back.frame.TickFrame? && back.frame in s.stacks[p]
    && back.frame.owner == s.pcbs[p].born && back.frame.nth == s.pcbs[p].preempted
    && s'.user == back.frame.fromUser
  }

  /** Every tick into a terminal that has processes resumes its top one, from a frame saved
      by that same process's own last preemption. */
  lemma ResumesAreFresh(img: Image, s: State)
    requires Inv(img, s) && s.terms[NextTerm(s)].count > 0
    ensures DoTick(img, s).Ran? && DoTick(img, s).answer.Resumed?
    ensures DoTick(img, s).answer.pid == Top(s.terms[NextTerm(s)])
    ensures GoesOn(s, DoTick(img, s).answer.pid, DoTick(img, s).s, DoTick(img, s).answer.back)
  {
    TickResumes(img, s);
    WokenGoesOn(s);
  }

  lemma WokenGoesOn(s: State)
    requires Scheduled(s) && s.terms[NextTerm(s)].count > 0
    ensures var p := Top(s.terms[NextTerm(s)]);
            var pcb := Ticked(s).pcbs[p];
            && pcb.termEbp.Some? && pcb.termEbp.value.frame.TickFrame?
            && GoesOn(s, p, Woken(Ticked(s)), pcb.termEbp.value)
  {
    NextNotRunning(s);
    var t := NextTerm(s);
    assert Position(s.terms, t, s.terms[t].count - 1) && Linked(s.pcbs, s.terms, t, s.terms[t].count - 1);
  }

  lemma NextNotRunning(s: State)
    requires Scheduled(s) && s.terms[NextTerm(s)].count > 0
    ensures var p := Top(s.terms[NextTerm(s)]);
            && p != Top(s.terms[s.cur])
            && Ticked(s).pcbs[p] == s.pcbs[p] && Parked(s.pcbs[p], p, s.stacks[p])
  {
    var t := NextTerm(s);
    var p := Top(s.terms[t]);
    if p == Top(s.terms[s.cur]) {
      PositionsUnique(s.pcbs, s.terms, t, s.terms[t].count - 1, s.cur, s.terms[s.cur].count - 1);
    }
    TickedUntouched(s);
  }

  /** A child's halt returns through the frame of the `_execute` call that created that
      very process, on the kernel stack of the process below it. */
  lemma ExitsReturnToTheirCall(img: Image, s: State, e: Event)
    requires Inv(img, s) && Next(img, s, e).Some? && Next(img, s, e).value.1.Exited?
    ensures var (s', a) := Next(img, s, e).value;
            var n := s.terms[s.cur].count;
            && n > 1
            && var parent := s.terms[s.cur].pids[n - 2];
               && a.back == Ebp(parent, ExecFrame(s.pcbs[Top(s.terms[s.cur])].born))
               && a.back == s.pcbs[Top(s.terms[s.cur])].ebp
               && s'.user && Denotes(s', parent) && s'.cur == s.cur && !s'.mapping.video
               && s'.terms == Popped(s.terms, s.cur)
  {
    NextEffect(img, s, e);
    assert s.user;
    EnterOnBehalf(img, s);
    EnterFiles(img, s);
    if e.Halt? {
      DyingChild(img, s, Enter(s), e.status);
    } else {
      RaiseOnBehalf(img, s, Enter(s));
      DyingChild(img, s, Enter(s).(exception := true), 0);
    }
  }

  lemma DyingChild(img: Image, s: State, s1: State, status: byte)
    requires Shape(s) && OnBehalf(img, s, s1) && s1.pcbs == s.pcbs && s1.cur == s.cur
    requires DoHalt(img, s1, status).Ran? && DoHalt(img, s1, status).answer.Exited?
    ensures var r := DoHalt(img, s1, status);
            var n := s.terms[s.cur].count;
            && n > 1
            && var parent := s.terms[s.cur].pids[n - 2];
               && r.answer.back == Ebp(parent, ExecFrame(s.pcbs[Top(s.terms[s.cur])].born))
               && r.answer.back == s.pcbs[Top(s.terms[s.cur])].ebp
               && r.s.user && Denotes(r.s, parent) && r.s.cur == s.cur && !r.s.mapping.video
               && r.s.terms == Popped(s.terms, s.cur)
  {
    HaltEffect(img, s1, status);
    var n := s1.terms[s1.cur].count;
    if n > 1 {
      HaltChildEffect(s1, status);
    }
  }

  // ---------------------------------------------------------------------------
  // Nested calls

  /** Terminal `t` has more than `d` processes: the call its `d`-th one made has not returned. */
  ghost function Pending(t: nat, d: nat): State -> bool {
    (s: State) => |s.terms| == TERMINALS && t < TERMINALS && s.terms[t].count > d
  }

  /** The first `d` processes of terminal `t` are `pids`, and the last of them still has
      control block `pcb`. */
  ghost predicate Frozen(img: Image, t: nat, d: nat, pids: seq<nat>, pcb: Pcb, s: State) {
    && Inv(img, s) && t < TERMINALS && 0 < d < s.terms[t].count
    && |pids| == d && s.terms[t].pids[..d] == pids
    && s.pcbs[pids[d - 1]] == pcb
  }

  ghost function FrozenOf(img: Image, t: nat, d: nat, pids: seq<nat>, pcb: Pcb): State -> bool {
    (s: State) => Frozen(img, t, d, pids, pcb, s)
  }

  lemma BelowNotTop(pcbs: seq<Pcb>, terms: seq<Term>, c: nat, t: nat, d: nat)
    requires Fitting(pcbs, terms) && Links(pcbs, terms) && c < TERMINALS && terms[c].count > 0
    requires t < TERMINALS && 0 < d < terms[t].count
    ensures pcbs[terms[t].pids[d - 1]].status && terms[t].pids[d - 1] != Top(terms[c])
  {
    assert Position(terms, t, d - 1) && Linked(pcbs, terms, t, d - 1);
    if terms[t].pids[d - 1] == Top(terms[c]) {
      PositionsUnique(pcbs, terms, t, d - 1, c, terms[c].count - 1);
    }
  }

  lemma CallerNotRunning(s: State, t: nat, d: nat)
    requires Scheduled(s) && t < TERMINALS && 0 < d < s.terms[t].count
    ensures var p := s.terms[t].pids[d - 1];
            s.pcbs[p].status && p != Top(s.terms[s.cur])
  {
    BelowNotTop(s.pcbs, s.terms, s.cur, t, d);
  }

  /** While a call is pending, no step touches its caller. */
  lemma FrozenStep(img: Image, t: nat, d: nat, pids: seq<nat>, pcb: Pcb, s: State, e: Event)
    requires Frozen(img, t, d, pids, pcb, s) && Next(img, s, e).Some?
    requires Pending(t, d)(Next(img, s, e).value.0)
    ensures Frozen(img, t, d, pids, pcb, Next(img, s, e).value.0)
  {
    var s' := Next(img, s, e).value.0;
    NextKeeps(img, s, e);
    NextEffect(img, s, e);
    CallerNotRunning(s, t, d);
    FrozenTransfers(s, e, s', Next(img, s, e).value.1, t, d);
  }

  lemma FrozenTransfers(s: State, e: Event, s': State, a: Answer, t: nat, d: nat)
    requires Shape(s) && Shape(s') && s.terms[s.cur].count > 0 && Effect(s, e, s', a)
    requires t < TERMINALS && 0 < d < s.terms[t].count && d < s'.terms[t].count
    requires s.pcbs[s.terms[t].pids[d - 1]].status && s.terms[t].pids[d - 1] != Top(s.terms[s.cur])
    ensures s'.terms[t].pids[..d] == s.terms[t].pids[..d]
    ensures s'.pcbs[s.terms[t].pids[d - 1]] == s.pcbs[s.terms[t].pids[d - 1]]
  {
    assert SameBelow(s.terms[t], s'.terms[t]);
  }

  lemma FrozenMeanwhile(img: Image, t: nat, d: nat, pids: seq<nat>, pcb: Pcb, s: State, events: seq<Event>)
    requires Frozen(img, t, d, pids, pcb, s) && Machine.Always(Kernel(img), Pending(t, d), s, events)
    ensures Run(img, s, events).Some? && Frozen(img, t, d, pids, pcb, Run(img, s, events).value)
  {
    forall x, e | FrozenOf(img, t, d, pids, pcb)(x) && Pending(t, d)(x)
                  && Kernel(img)(x, e).Some? && Pending(t, d)(Kernel(img)(x, e).value.0)
      ensures FrozenOf(img, t, d, pids, pcb)(Kernel(img)(x, e).value.0)
    {
      FrozenStep(img, t, d, pids, pcb, x, e);
    }
    Machine.Meanwhile(Kernel(img), FrozenOf(img, t, d, pids, pcb), Pending(t, d), s, events);
  }

  lemma LaunchFreezes(s: State, s0: State, slot: nat, params: seq<byte>)
    requires Shape(s) && Shape(s0) && s.terms[s.cur].count > 0 && s.pcbs[Top(s.terms[s.cur])].status
    requires s0.pcbs == s.pcbs && s0.terms == s.terms && s0.cur == s.cur
    requires slot < SLOTS && !s.pcbs[slot].status && s.terms[s.cur].count < PER_TERMINAL
    ensures var r := LaunchAt(s0, slot, params);
            var d := s.terms[s.cur].count;
            && OneAbove(s, r)
            && r.terms[s.cur].pids[..d] == s.terms[s.cur].pids[..d]
            && r.pcbs[Top(s.terms[s.cur])] == s.pcbs[Top(s.terms[s.cur])]
  {
    LaunchEffect(s0, slot, params);
  }

  lemma CallFreezes(img: Image, s: State, e: Event)
    requires Inv(img, s) && Executes(img, s, e)
    ensures OneAbove(s, Next(img, s, e).value.0)
    ensures Frozen(img, s.cur, s.terms[s.cur].count, s.terms[s.cur].pids[..s.terms[s.cur].count],
                   s.pcbs[Top(s.terms[s.cur])], Next(img, s, e).value.0)
  {
    NextKeeps(img, s, e);
    TopAlive(s);
    EnterFiles(img, s);
    var slot := ExecutesLaunches(img, s, e);
    LaunchFreezes(s, Enter(s), slot, Resolve(img, e.cmd.value).params);
  }

  lemma ExecutesLaunches(img: Image, s: State, e: Event) returns (slot: nat)
    requires Ready(img, s) && Executes(img, s, e)
    ensures e.cmd.Some? && IsCommand(e.cmd.value) && Resolve(img, e.cmd.value).Loadable?
    ensures slot < SLOTS && !s.pcbs[slot].status && s.terms[s.cur].count < PER_TERMINAL
    ensures Enter(s).cur == s.cur && Enter(s).terms == s.terms
    ensures Next(img, s, e) == Some((LaunchAt(Enter(s), slot, Resolve(img, e.cmd.value).params), Started(slot)))
  {
    slot := DoExecute(img, Enter(s), e.cmd.value).slot;
  }

  /** The scheduled terminal of `s` is scheduled in `s2` too, with one process more. */
  ghost predicate OneAbove(s: State, s2: State)
    requires Shape(s)
  {
    Shape(s2) && s2.cur == s.cur && s2.terms[s.cur].count == s.terms[s.cur].count + 1
  }

  /** In `s3` the running process of `s` runs again, with the control block, the pid stack
      below it, the page, the kernel stack and the file array it had in `s`. */
  ghost predicate GivenBack(s: State, s3: State)
    requires Shape(s) && s.terms[s.cur].count > 0
  {
    var d := s.terms[s.cur].count;
    && Shape(s3) && s3.cur == s.cur && s3.user
    && s3.terms[s.cur].count == d && s3.terms[s.cur].pids[..d] == s.terms[s.cur].pids[..d]
    && s3.pcbs[Top(s.terms[s.cur])] == s.pcbs[Top(s.terms[s.cur])]
    && s3.mapping.program == s.mapping.program && s3.esp0 == s.esp0 && s3.fileArray == s.fileArray
  }

  /** A step that answers a child's exit. */
  ghost predicate Exits(img: Image, s: State, e: Event) {
    Next(img, s, e).Some? && Next(img, s, e).value.1.Exited?
  }

  /** A step in which the running process executes a program. */
  ghost predicate Executes(img: Image, s: State, e: Event) {
    e.Execute? && Next(img, s, e).Some? && Next(img, s, e).value.1.Started?
  }

  /** User code reaches the same memory under both mappings. */
  ghost predicate SameReach(l: Layout, m: Mapping, m': Mapping) {
    forall va :: 0 <= va < TWO_32 ==> Walk(l, TablesOf(l, m), va, true) == Walk(l, TablesOf(l, m'), va, true)
  }

  /** Losing the video page is the only difference two mappings of one process can make. */
  lemma ReachExactly(l: Layout, m: Mapping, m': Mapping)
    requires l.table0 != l.tableVideo && m.program == m'.program && !m'.video
    ensures SameReach(l, m, m') <==> !m.video
  {
    UserWalk(l, m, MB_132);
    UserWalk(l, m', MB_132);
    if !m.video {
      forall va | 0 <= va < TWO_32
        ensures Walk(l, TablesOf(l, m), va, true) == Walk(l, TablesOf(l, m'), va, true)
      {
        UserWalk(l, m, va);
        UserWalk(l, m', va);
      }
    }
  }

  /** Execute and halt nest like a call and its return: whatever runs in between, on this
      terminal above the caller and on the others, the halt that ends the call gives the
      caller back its control block, its place, its page, its kernel stack and its files.
      It gives back the memory the caller could reach exactly when the caller's video page
      was not mapped: every child's halt switches that page off. */
  lemma NestedCall(img: Image, s: State, call: Event, events: seq<Event>, ret: Event, l: Layout)
    requires Inv(img, s) && Executes(img, s, call) && l.table0 != l.tableVideo
    requires Machine.Always(Kernel(img), Pending(s.cur, s.terms[s.cur].count), Next(img, s, call).value.0, events)
    requires var end := Run(img, Next(img, s, call).value.0, events);
             end.Some? && OneAbove(s, end.value) && Exits(img, end.value, ret)
    ensures var end := Run(img, Next(img, s, call).value.0, events);
            var back := Next(img, end.value, ret).value.0;
            && GivenBack(s, back) && !back.mapping.video
            && (SameReach(l, s.mapping, back.mapping) <==> !s.mapping.video)
  {
    var t, d := s.cur, s.terms[s.cur].count;
    var s1 := Next(img, s, call).value.0;
    CallFreezes(img, s, call);
    FrozenMeanwhile(img, t, d, s.terms[t].pids[..d], s.pcbs[Top(s.terms[t])], s1, events);
    var s2 := Run(img, s1, events).value;
    Returned(img, s, s2, ret);
    ReachExactly(l, s.mapping, Next(img, s2, ret).value.0.mapping);
  }

  /** The last step of a nested call. */
  lemma Returned(img: Image, s: State, s2: State, e: Event)
    requires Inv(img, s)
    requires Frozen(img, s.cur, s.terms[s.cur].count, s.terms[s.cur].pids[..s.terms[s.cur].count],
                    s.pcbs[Top(s.terms[s.cur])], s2)
    requires OneAbove(s, s2) && Exits(img, s2, e)
    ensures GivenBack(s, Next(img, s2, e).value.0) && !Next(img, s2, e).value.0.mapping.video
  {
    var t, d := s.cur, s.terms[s.cur].count;
    var p := Top(s.terms[t]);
    ExitsReturnToTheirCall(img, s2, e);
    NextKeeps(img, s2, e);
    NextEffect(img, s2, e);
    CallerNotRunning(s2, t, d);
    assert s2.terms[t].pids[d - 1] == s2.terms[t].pids[..d][d - 1] == p;
  }
}
