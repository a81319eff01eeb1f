/** The terminals' pid stacks against the pool of process control blocks and the kernel
    stacks: how these redundant views stay in step when a process is pushed, popped,
    preempted or merely updated. */
module Agreement {
  import opened Base
  import opened Processes

  function Count(b: bool): nat {
    if b then 1 else 0
  }

  /** Number of live control blocks. */
  function Live(pcbs: seq<Pcb>): nat
    requires |pcbs| == SLOTS
  {
    Count(pcbs[0].status) + Count(pcbs[1].status) + Count(pcbs[2].status)
    + Count(pcbs[3].status) + Count(pcbs[4].status) + Count(pcbs[5].status)
  }

  function Total(terms: seq<Term>): nat
    requires |terms| == TERMINALS
  {
    terms[0].count + terms[1].count + terms[2].count
  }

  ghost predicate Fitting(pcbs: seq<Pcb>, terms: seq<Term>) {
    && |pcbs| == SLOTS
    && |terms| == TERMINALS && forall t :: 0 <= t < TERMINALS ==> TermShape(terms[t])
  }

  ghost predicate Position(terms: seq<Term>, t: int, i: int) {
    0 <= t < |terms| && 0 <= i < terms[t].count
  }

  /** Position `i` of terminal `t`'s pid stack is held by a live process of that terminal
      whose parent is the process just below, if any. */
  ghost predicate Linked(pcbs: seq<Pcb>, terms: seq<Term>, t: int, i: int)
    requires Fitting(pcbs, terms) && Position(terms, t, i)
  {
    var pids := terms[t].pids;
    var pcb := pcbs[pids[i]];
    && pcb.status && pcb.term == t && pcb.pid == pids[i]
    && pcb.parent == if i == 0 then None else Some(pids[i - 1])
  }

  ghost predicate AllLinked(pcbs: seq<Pcb>, terms: seq<Term>)
    requires Fitting(pcbs, terms)
  {
    forall t, i :: Position(terms, t, i) ==> Linked(pcbs, terms, t, i)
  }

  ghost predicate Distinct(t: Term)
    requires TermShape(t)
  {
    forall i, j :: 0 <= i < j < t.count ==> t.pids[i] != t.pids[j]
  }

  ghost predicate AllDistinct(terms: seq<Term>)
    requires |terms| == TERMINALS && forall t :: 0 <= t < TERMINALS ==> TermShape(terms[t])
  {
    forall t :: 0 <= t < TERMINALS ==> Distinct(terms[t])
  }

  ghost predicate Holds(t: Term, p: nat)
    requires TermShape(t)
  {
    exists i :: 0 <= i < t.count && t.pids[i] == p
  }

  ghost predicate Held(pcbs: seq<Pcb>, terms: seq<Term>, p: nat)
    requires Fitting(pcbs, terms) && p < SLOTS
  {
    pcbs[p].status ==> pcbs[p].term < TERMINALS && Holds(terms[pcbs[p].term], p)
  }

  ghost predicate AllHeld(pcbs: seq<Pcb>, terms: seq<Term>)
    requires Fitting(pcbs, terms)
  {
    forall p :: 0 <= p < SLOTS ==> Held(pcbs, terms, p)
  }

  /** The pid stacks and the control blocks tell the same story. */
  ghost predicate Links(pcbs: seq<Pcb>, terms: seq<Term>)
    requires Fitting(pcbs, terms)
  {
    && AllLinked(pcbs, terms) && AllDistinct(terms) && AllHeld(pcbs, terms)
    && Live(pcbs) == Total(terms)
  }

  /** Positions name processes uniquely, across terminals as well. */
  lemma PositionsUnique(pcbs: seq<Pcb>, terms: seq<Term>, t: int, i: int, u: int, j: int)
    requires Fitting(pcbs, terms) && AllLinked(pcbs, terms) && AllDistinct(terms)
    requires Position(terms, t, i) && Position(terms, u, j)
    requires terms[t].pids[i] == terms[u].pids[j]
    ensures t == u && i == j
  {
    assert Linked(pcbs, terms, t, i) && Linked(pcbs, terms, u, j);
    assert Distinct(terms[t]);
  }

  /** Changing one block changes the number of live ones accordingly. */
  lemma LiveChanges(pcbs: seq<Pcb>, p: nat, pcb: Pcb)
    requires |pcbs| == SLOTS && p < SLOTS
    ensures Live(pcbs[p := pcb]) == Live(pcbs) - Count(pcbs[p].status) + Count(pcb.status)
  {
  }

  /** When every slot is taken, the counter says so: allocation cannot fail once the
      limit checks have passed. */
  lemma SlotAvailable(pcbs: seq<Pcb>)
    requires |pcbs| == SLOTS && Live(pcbs) < SLOTS
    ensures FirstFree(pcbs).Some?
  {
    FirstFreeMeans(pcbs);
  }

  // ---------------------------------------------------------------------------
  // Pushing a process

  function Pushed(terms: seq<Term>, c: nat, slot: nat): seq<Term>
    requires |terms| == TERMINALS && c < TERMINALS && TermShape(terms[c]) && terms[c].count < PER_TERMINAL
  {
    terms[c := Term(terms[c].pids[terms[c].count := slot], terms[c].count + 1)]
  }

  ghost predicate CanPush(pcbs: seq<Pcb>, terms: seq<Term>, c: nat, slot: nat, pcb: Pcb) {
    && Fitting(pcbs, terms) && Links(pcbs, terms)
    && c < TERMINALS && slot < SLOTS && !pcbs[slot].status && terms[c].count < PER_TERMINAL
    && pcb.status && pcb.term == c && pcb.pid == slot
    && pcb.parent == if terms[c].count == 0 then None else Some(Top(terms[c]))
  }

  lemma PushSized(pcbs: seq<Pcb>, terms: seq<Term>, c: nat, slot: nat, pcb: Pcb)
    requires CanPush(pcbs, terms, c, slot, pcb)
    ensures Fitting(pcbs[slot := pcb], Pushed(terms, c, slot))
  {
  }

  lemma PushLinked(pcbs: seq<Pcb>, terms: seq<Term>, c: nat, slot: nat, pcb: Pcb)
    requires CanPush(pcbs, terms, c, slot, pcb)
    ensures Fitting(pcbs[slot := pcb], Pushed(terms, c, slot))
    ensures AllLinked(pcbs[slot := pcb], Pushed(terms, c, slot))
  {
    PushSized(pcbs, terms, c, slot, pcb);
    var after := Pushed(terms, c, slot);
    forall t, i | Position(after, t, i)
      ensures Linked(pcbs[slot := pcb], after, t, i)
    {
      if t != c || i != terms[c].count {
        assert Position(terms, t, i) && Linked(pcbs, terms, t, i);
      }
    }
  }

  lemma PushDistinct(pcbs: seq<Pcb>, terms: seq<Term>, c: nat, slot: nat, pcb: Pcb)
    requires CanPush(pcbs, terms, c, slot, pcb)
    ensures Fitting(pcbs[slot := pcb], Pushed(terms, c, slot))
    ensures AllDistinct(Pushed(terms, c, slot))
  {
    PushSized(pcbs, terms, c, slot, pcb);
    forall i | 0 <= i < terms[c].count
      ensures terms[c].pids[i] != slot
    {
      assert Position(terms, c, i) && Linked(pcbs, terms, c, i);
    }
    assert Distinct(terms[c]);
  }

  lemma PushHeld(pcbs: seq<Pcb>, terms: seq<Term>, c: nat, slot: nat, pcb: Pcb, p: nat)
    requires CanPush(pcbs, terms, c, slot, pcb) && p < SLOTS
    ensures Fitting(pcbs[slot := pcb], Pushed(terms, c, slot))
    ensures Held(pcbs[slot := pcb], Pushed(terms, c, slot), p)
  {
    PushSized(pcbs, terms, c, slot, pcb);
    var after := Pushed(terms, c, slot);
    if p == slot {
      assert after[c].pids[terms[c].count] == p;
    } else if pcbs[p].status {
      assert Held(pcbs, terms, p);
      var t := pcbs[p].term;
      var i :| 0 <= i < terms[t].count && terms[t].pids[i] == p;
      assert after[t].pids[i] == p;
    }
  }

  lemma PushLinks(pcbs: seq<Pcb>, terms: seq<Term>, c: nat, slot: nat, pcb: Pcb)
    requires CanPush(pcbs, terms, c, slot, pcb)
    ensures Fitting(pcbs[slot := pcb], Pushed(terms, c, slot))
    ensures Links(pcbs[slot := pcb], Pushed(terms, c, slot))
  {
    PushLinked(pcbs, terms, c, slot, pcb);
    PushDistinct(pcbs, terms, c, slot, pcb);
    var pcbs', terms' := pcbs[slot := pcb], Pushed(terms, c, slot);
    forall p | 0 <= p < SLOTS
      ensures Held(pcbs', terms', p)
    {
      PushHeld(pcbs, terms, c, slot, pcb, p);
    }
    LiveChanges(pcbs, slot, pcb);
  }

  // ---------------------------------------------------------------------------
  // Popping a process

  function Popped(terms: seq<Term>, c: nat): seq<Term>
    requires |terms| == TERMINALS && c < TERMINALS && terms[c].count > 0
  {
    terms[c := terms[c].(count := terms[c].count - 1)]
  }

  ghost predicate CanPop(pcbs: seq<Pcb>, terms: seq<Term>, c: nat, pcb: Pcb) {
    && Fitting(pcbs, terms) && Links(pcbs, terms)
    && c < TERMINALS && terms[c].count > 0 && !pcb.status
  }

  lemma PopLinked(pcbs: seq<Pcb>, terms: seq<Term>, c: nat, pcb: Pcb)
    requires CanPop(pcbs, terms, c, pcb)
    ensures Fitting(pcbs[Top(terms[c]) := pcb], Popped(terms, c))
    ensures AllLinked(pcbs[Top(terms[c]) := pcb], Popped(terms, c))
  {
    var child := Top(terms[c]);
    var after := Popped(terms, c);
    forall t, i | Position(after, t, i)
      ensures Linked(pcbs[child := pcb], after, t, i)
    {
      assert Position(terms, t, i) && Linked(pcbs, terms, t, i);
      if terms[t].pids[i] == child {
        PositionsUnique(pcbs, terms, t, i, c, terms[c].count - 1);
      }
    }
  }

  lemma PopHeld(pcbs: seq<Pcb>, terms: seq<Term>, c: nat, pcb: Pcb, p: nat)
    requires CanPop(pcbs, terms, c, pcb) && p < SLOTS
    ensures Fitting(pcbs[Top(terms[c]) := pcb], Popped(terms, c))
    ensures Held(pcbs[Top(terms[c]) := pcb], Popped(terms, c), p)
  {
    if p != Top(terms[c]) && pcbs[p].status {
      assert Held(pcbs, terms, p);
      var t := pcbs[p].term;
      var i :| 0 <= i < terms[t].count && terms[t].pids[i] == p;
      assert i < Popped(terms, c)[t].count;
      assert Popped(terms, c)[t].pids[i] == p;
    }
  }

  lemma PopLive(pcbs: seq<Pcb>, terms: seq<Term>, c: nat, pcb: Pcb)
    requires CanPop(pcbs, terms, c, pcb)
    ensures Live(pcbs[Top(terms[c]) := pcb]) == Live(pcbs) - 1
  {
    assert Position(terms, c, terms[c].count - 1) && Linked(pcbs, terms, c, terms[c].count - 1);
    LiveChanges(pcbs, Top(terms[c]), pcb);
  }

  lemma PopLinks(pcbs: seq<Pcb>, terms: seq<Term>, c: nat, pcb: Pcb)
    requires CanPop(pcbs, terms, c, pcb)
    ensures Fitting(pcbs[Top(terms[c]) := pcb], Popped(terms, c))
    ensures Links(pcbs[Top(terms[c]) := pcb], Popped(terms, c))
  {
    PopLinked(pcbs, terms, c, pcb);
    var pcbs', terms' := pcbs[Top(terms[c]) := pcb], Popped(terms, c);
    forall p | 0 <= p < SLOTS
      ensures Held(pcbs', terms', p)
    {
      PopHeld(pcbs, terms, c, pcb, p);
    }
    assert AllDistinct(Popped(terms, c)) by {
      assert Distinct(terms[c]);
    }
    assert Position(terms, c, terms[c].count - 1) && Linked(pcbs, terms, c, terms[c].count - 1);
    LiveChanges(pcbs, Top(terms[c]), pcb);
  }

  // ---------------------------------------------------------------------------
  // Updating a process in place

  /** The fields the pid stacks depend on. */
  ghost predicate SamePlace(a: Pcb, b: Pcb) {
    a.status == b.status && a.term == b.term && a.pid == b.pid && a.parent == b.parent
  }

  lemma UpdateLinks(pcbs: seq<Pcb>, terms: seq<Term>, p: nat, pcb: Pcb)
    requires Fitting(pcbs, terms) && Links(pcbs, terms) && p < SLOTS && SamePlace(pcbs[p], pcb)
    ensures Fitting(pcbs[p := pcb], terms) && Links(pcbs[p := pcb], terms)
  {
    var after := pcbs[p := pcb];
    forall t, i | Position(terms, t, i)
      ensures Linked(after, terms, t, i)
    {
      assert Linked(pcbs, terms, t, i);
    }
    forall q | 0 <= q < SLOTS
      ensures Held(after, terms, q)
    {
      assert Held(pcbs, terms, q);
    }
    LiveChanges(pcbs, p, pcb);
  }

  // ---------------------------------------------------------------------------
  // Birth numbers

  /** No two live processes have the same birth number, and none has the next one. */
  ghost predicate Births(pcbs: seq<Pcb>, spawned: nat)
    requires |pcbs| == SLOTS
  {
    && (forall p :: 0 <= p < SLOTS && pcbs[p].status ==> pcbs[p].born < spawned)
    && (forall p, q :: 0 <= p < q < SLOTS && pcbs[p].status && pcbs[q].status ==> pcbs[p].born != pcbs[q].born)
  }

  lemma PopBirths(pcbs: seq<Pcb>, spawned: nat, p: nat, pcb: Pcb)
    requires |pcbs| == SLOTS && Births(pcbs, spawned) && p < SLOTS && !pcb.status
    ensures Births(pcbs[p := pcb], spawned)
  {
  }

  lemma UpdateBirths(pcbs: seq<Pcb>, spawned: nat, p: nat, pcb: Pcb)
    requires |pcbs| == SLOTS && Births(pcbs, spawned) && p < SLOTS
    requires pcb.status == pcbs[p].status && pcb.born == pcbs[p].born
    ensures Births(pcbs[p := pcb], spawned)
  {
  }

  // ---------------------------------------------------------------------------
  // Saved frames

  ghost predicate Based(stack: seq<Frame>, f: Frame) {
    stack != [] && stack[0] == f
  }

  /** The process at position `i > 0` holds the frame of the `_execute` call that started
      it, still at the base of its parent's kernel stack. */
  ghost predicate Called(pcbs: seq<Pcb>, terms: seq<Term>, stacks: seq<seq<Frame>>, t: int, i: int)
    requires Fitting(pcbs, terms) && |stacks| == SLOTS && Position(terms, t, i) && i > 0
  {
    var parent, child := terms[t].pids[i - 1], terms[t].pids[i];
    var frame := ExecFrame(pcbs[child].born);
    pcbs[child].ebp == Ebp(parent, frame) && Based(stacks[parent], frame)
  }

  ghost predicate AllCalled(pcbs: seq<Pcb>, terms: seq<Term>, stacks: seq<seq<Frame>>)
    requires Fitting(pcbs, terms) && |stacks| == SLOTS
  {
    forall t, i :: Position(terms, t, i) && i > 0 ==> Called(pcbs, terms, stacks, t, i)
  }

  /** A preempted process holds the frame of its own last preemption, still on its own
      kernel stack: at the base, or above the frame of the read it was waiting in. */
  ghost predicate Parked(pcb: Pcb, p: nat, stack: seq<Frame>) {
    && pcb.termEbp.Some?
    && pcb.termEbp.value.stack == p
    && var frame := pcb.termEbp.value.frame;
       && frame.TickFrame? && frame.owner == pcb.born && frame.nth == pcb.preempted
       && if frame.fromUser then Based(stack, frame)
          else |stack| > 1 && stack[0] == WaitFrame(pcb.born) && stack[1] == frame
  }

  ghost predicate OthersParked(pcbs: seq<Pcb>, terms: seq<Term>, stacks: seq<seq<Frame>>, cur: nat)
    requires Fitting(pcbs, terms) && |stacks| == SLOTS
  {
    forall t :: 0 <= t < TERMINALS && t != cur && terms[t].count > 0 ==>
      Parked(pcbs[Top(terms[t])], Top(terms[t]), stacks[Top(terms[t])])
  }

  /** The fields saved frames are checked against. */
  ghost predicate SameFrames(a: Pcb, b: Pcb) {
    a.ebp == b.ebp && a.termEbp == b.termEbp && a.born == b.born && a.preempted == b.preempted
  }

  /** Growing stacks and updating blocks without touching their frames is harmless. */
  lemma GrowCalled(pcbs: seq<Pcb>, terms: seq<Term>, stacks: seq<seq<Frame>>, pcbs': seq<Pcb>, stacks': seq<seq<Frame>>)
    requires Fitting(pcbs, terms) && |stacks| == SLOTS && AllCalled(pcbs, terms, stacks)
    requires |pcbs'| == SLOTS && |stacks'| == SLOTS
    requires forall p :: 0 <= p < SLOTS ==> pcbs'[p].ebp == pcbs[p].ebp && pcbs'[p].born == pcbs[p].born
    requires forall p :: 0 <= p < SLOTS ==> stacks[p] <= stacks'[p]
    ensures AllCalled(pcbs', terms, stacks')
  {
    forall t, i | Position(terms, t, i) && i > 0
      ensures Called(pcbs', terms, stacks', t, i)
    {
      assert Called(pcbs, terms, stacks, t, i);
    }
  }

  /** Rewriting the stack of a terminal's top process leaves every caller's frame alone. */
  lemma TopStackCalled(pcbs: seq<Pcb>, terms: seq<Term>, stacks: seq<seq<Frame>>, c: nat, stack: seq<Frame>)
    requires Fitting(pcbs, terms) && Links(pcbs, terms) && |stacks| == SLOTS && AllCalled(pcbs, terms, stacks)
    requires c < TERMINALS && terms[c].count > 0
    ensures AllCalled(pcbs, terms, stacks[Top(terms[c]) := stack])
  {
    var after := stacks[Top(terms[c]) := stack];
    forall t, i | Position(terms, t, i) && i > 0
      ensures Called(pcbs, terms, after, t, i)
    {
      assert Called(pcbs, terms, stacks, t, i);
      if terms[t].pids[i - 1] == Top(terms[c]) {
        PositionsUnique(pcbs, terms, t, i - 1, c, terms[c].count - 1);
      }
    }
  }

  /** The current top process may change its own stack and block: the others stay parked. */
  lemma TopChangesParked(pcbs: seq<Pcb>, terms: seq<Term>, stacks: seq<seq<Frame>>, c: nat,
                         pcb: Pcb, stack: seq<Frame>)
    requires Fitting(pcbs, terms) && Links(pcbs, terms) && |stacks| == SLOTS
    requires OthersParked(pcbs, terms, stacks, c)
    requires c < TERMINALS && terms[c].count > 0
    ensures var p := Top(terms[c]);
            Fitting(pcbs[p := pcb], terms) && OthersParked(pcbs[p := pcb], terms, stacks[p := stack], c)
  {
    var p := Top(terms[c]);
    forall t | 0 <= t < TERMINALS && t != c && terms[t].count > 0
      ensures Top(terms[t]) != p
    {
      if Top(terms[t]) == p {
        PositionsUnique(pcbs, terms, t, terms[t].count - 1, c, terms[c].count - 1);
      }
    }
  }

  /** Parking the current top process leaves every terminal but any one parked. */
  lemma ParkTop(pcbs: seq<Pcb>, terms: seq<Term>, stacks: seq<seq<Frame>>, c: nat, pcb: Pcb, stack: seq<Frame>, d: nat)
    requires Fitting(pcbs, terms) && Links(pcbs, terms) && |stacks| == SLOTS
    requires OthersParked(pcbs, terms, stacks, c) && c < TERMINALS && terms[c].count > 0
    requires Parked(pcb, Top(terms[c]), stack)
    ensures var p := Top(terms[c]);
            Fitting(pcbs[p := pcb], terms) && OthersParked(pcbs[p := pcb], terms, stacks[p := stack], d)
  {
    TopChangesParked(pcbs, terms, stacks, c, pcb, stack);
  }

  lemma UpdateParked(pcbs: seq<Pcb>, terms: seq<Term>, stacks: seq<seq<Frame>>, c: nat, p: nat, pcb: Pcb)
    requires Fitting(pcbs, terms) && |stacks| == SLOTS && OthersParked(pcbs, terms, stacks, c)
    requires p < SLOTS && PcbShape(pcb) && SameFrames(pcbs[p], pcb)
    ensures Fitting(pcbs[p := pcb], terms) && OthersParked(pcbs[p := pcb], terms, stacks, c)
  {
  }

  lemma PushCalled(pcbs: seq<Pcb>, terms: seq<Term>, stacks: seq<seq<Frame>>, c: nat, slot: nat, pcb: Pcb,
                   stacks': seq<seq<Frame>>)
    requires CanPush(pcbs, terms, c, slot, pcb) && |stacks| == SLOTS && AllCalled(pcbs, terms, stacks)
    requires |stacks'| == SLOTS && forall p :: 0 <= p < SLOTS ==> stacks[p] <= stacks'[p]
    requires terms[c].count > 0 ==>
               && pcb.ebp == Ebp(Top(terms[c]), ExecFrame(pcb.born))
               && Based(stacks'[Top(terms[c])], ExecFrame(pcb.born))
    ensures Fitting(pcbs[slot := pcb], Pushed(terms, c, slot))
    ensures AllCalled(pcbs[slot := pcb], Pushed(terms, c, slot), stacks')
  {
    PushSized(pcbs, terms, c, slot, pcb);
    var after := Pushed(terms, c, slot);
    forall t, i | Position(after, t, i) && i > 0
      ensures Called(pcbs[slot := pcb], after, stacks', t, i)
    {
      if t != c || i != terms[c].count {
        assert Position(terms, t, i);
        assert Called(pcbs, terms, stacks, t, i);
        assert Linked(pcbs, terms, t, i);
      }
    }
  }

  lemma PushParked(pcbs: seq<Pcb>, terms: seq<Term>, stacks: seq<seq<Frame>>, c: nat, slot: nat, pcb: Pcb,
                   stacks': seq<seq<Frame>>)
    requires CanPush(pcbs, terms, c, slot, pcb) && |stacks| == SLOTS && OthersParked(pcbs, terms, stacks, c)
    requires |stacks'| == SLOTS && forall p :: 0 <= p < SLOTS ==> stacks[p] <= stacks'[p]
    ensures Fitting(pcbs[slot := pcb], Pushed(terms, c, slot))
    ensures OthersParked(pcbs[slot := pcb], Pushed(terms, c, slot), stacks', c)
  {
    PushSized(pcbs, terms, c, slot, pcb);
    var after := Pushed(terms, c, slot);
    forall t | 0 <= t < TERMINALS && t != c && after[t].count > 0
      ensures var p := Top(after[t]); Parked(pcbs[slot := pcb][p], p, stacks'[p])
    {
      var p := Top(terms[t]);
      assert Parked(pcbs[p], p, stacks[p]);
      assert Position(terms, t, terms[t].count - 1) && Linked(pcbs, terms, t, terms[t].count - 1);
    }
  }

  lemma PopCalled(pcbs: seq<Pcb>, terms: seq<Term>, stacks: seq<seq<Frame>>, c: nat, pcb: Pcb)
    requires CanPop(pcbs, terms, c, pcb) && |stacks| == SLOTS && AllCalled(pcbs, terms, stacks)
    ensures Fitting(pcbs[Top(terms[c]) := pcb], Popped(terms, c))
    ensures AllCalled(pcbs[Top(terms[c]) := pcb], Popped(terms, c), stacks)
  {
    var child := Top(terms[c]);
    var after := Popped(terms, c);
    forall t, i | Position(after, t, i) && i > 0
      ensures Called(pcbs[child := pcb], after, stacks, t, i)
    {
      assert Position(terms, t, i);
      assert Called(pcbs, terms, stacks, t, i);
      if terms[t].pids[i] == child {
        PositionsUnique(pcbs, terms, t, i, c, terms[c].count - 1);
      }
    }
  }

  lemma PopParked(pcbs: seq<Pcb>, terms: seq<Term>, stacks: seq<seq<Frame>>, c: nat, pcb: Pcb)
    requires CanPop(pcbs, terms, c, pcb) && |stacks| == SLOTS && OthersParked(pcbs, terms, stacks, c)
    ensures Fitting(pcbs[Top(terms[c]) := pcb], Popped(terms, c))
    ensures OthersParked(pcbs[Top(terms[c]) := pcb], Popped(terms, c), stacks, c)
  {
    var child := Top(terms[c]);
    forall t | 0 <= t < TERMINALS && t != c && terms[t].count > 0
      ensures Top(terms[t]) != child
    {
      if Top(terms[t]) == child {
        PositionsUnique(pcbs, terms, t, terms[t].count - 1, c, terms[c].count - 1);
      }
    }
  }
}
