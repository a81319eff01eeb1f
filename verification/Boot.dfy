/** Boot: the state once the first shell runs is a proper start for every theorem about runs,
    and the launch of another terminal's first shell is the one thing that can go wrong. */
module Boot {
  import opened Base
  import opened FileSystem
  import opened Command
  import opened Paging
  import opened Processes
  import opened Agreement
  import opened Invariants
  import opened Effects
  import opened Runs
  import Machine
  import D = Descriptors

  /** The state in which `start_terminal0` runs (student-distrib/scheduling.c:19-24): no
      process, no open file; the control blocks hold whatever frames they happen to hold. */
  predicate PowerOn(s: State) {
    && Shape(s)
    && (forall p :: 0 <= p < SLOTS ==> !s.pcbs[p].status)
    && (forall p, i :: 0 <= p < SLOTS && 0 <= i < D.FILE_LIMIT ==> !s.pcbs[p].files[i].flags)
    && (forall t :: 0 <= t < TERMINALS ==> s.terms[t].count == 0)
    && s.progCounter == 0 && s.cur == 0 && s.active == 0 && !s.exception && !s.user
    && s.mapping == Mapping(None, false, VIDEO_FRAME)
  }

  lemma PowerOnCore(s: State)
    requires PowerOn(s)
    ensures Core(s)
  {
  }

  /** `start_terminal0` starts the first shell in slot 0. */
  lemma BootLaunches(img: Image, s: State)
    requires Bootable(img) && PowerOn(s)
    ensures DoExecute(img, s, Shell(img)) == Launched(LaunchAt(s, 0, Resolve(img, Shell(img)).params), 0)
  {
    assert FirstFree(s.pcbs) == Some(0);
    RefusalsOnly(img, s, Shell(img));
  }

  lemma PowerOnFiles(img: Image, s: State)
    requires WellFormed(img) && PowerOn(s)
    ensures BlocksOk(img, s)
  {
  }

  lemma BootKeeps(img: Image, s: State, params: seq<byte>)
    requires Bootable(img) && PowerOn(s) && |params| < PARAMS_LEN
    ensures Inv(img, LaunchAt(s, 0, params))
  {
    PowerOnCore(s);
    PowerOnFiles(img, s);
    LaunchKeeps(s, 0, params);
    LaunchFiles(img, s, 0, params);
  }

  lemma BootCounts(s: State, params: seq<byte>)
    requires PowerOn(s)
    ensures Counts(LaunchAt(s, 0, params), 0, 1, 0, 0) && !LaunchAt(s, 0, params).exception
  {
    LaunchEffect(s, 0, params);
  }

  /** The state once terminal 0's shell runs. */
  ghost function Booted(img: Image, s: State): (r: State)
    requires Bootable(img) && PowerOn(s)
    ensures Inv(img, r)
    ensures Counts(r, 0, 1, 0, 0) && !r.exception
  {
    ShellFits(img);
    BootKeeps(img, s, Resolve(img, Shell(img)).params);
    BootCounts(s, Resolve(img, Shell(img)).params);
    LaunchAt(s, 0, Resolve(img, Shell(img)).params)
  }

  /** Nothing but a tick can fail. */
  lemma NonTickSucceeds(img: Image, s: State, e: Event)
    requires Inv(img, s) && !e.Tick?
    ensures Step(img, s, e).Ran?
  {
    if Enabled(s, e) && (e.Halt? || e.Exception?) {
      HaltStepEffect(img, s, e);
    } else if Enabled(s, e) && e.Execute? {
      ExecuteEffect(img, s, e);
    } else {
      QuietMild(img, s, e);
    }
  }

  // ---------------------------------------------------------------------------
  // A boot that goes wrong

  predicate Runnable(img: Image, cmd: seq<byte>) {
    && WellFormed(img) && IsCommand(cmd) && |Tail(cmd)| < PARAMS_LEN && Resolve(img, cmd).Loadable?
  }

  lemma LaunchCounts(s: State, slot: nat, params: seq<byte>)
    requires Shape(s) && slot < SLOTS && s.terms[s.cur].count < PER_TERMINAL
    ensures var r := LaunchAt(s, slot, params);
            && r.progCounter == s.progCounter + 1 && r.user && r.cur == s.cur
            && r.terms[s.cur].count == s.terms[s.cur].count + 1
            && (forall t :: 0 <= t < TERMINALS && t != s.cur ==> r.terms[t] == s.terms[t])
  {
    LaunchEffect(s, slot, params);
  }

  /** Numbers of processes: scheduled terminal, per terminal, in all. */
  ghost predicate Counts(s: State, cur: nat, a: nat, b: nat, c: nat) {
    && Shape(s) && s.user && s.cur == cur && s.progCounter == a + b + c
    && s.terms[0].count == a && s.terms[1].count == b && s.terms[2].count == c
  }

  lemma ExecuteLaunches(img: Image, s: State, cmd: seq<byte>)
    requires Ready(img, s) && s.user && Runnable(img, cmd) && FirstFree(s.pcbs).Some?
    requires s.terms[s.cur].count < PER_TERMINAL && s.progCounter < SLOTS
    ensures Next(img, s, Execute(Some(cmd)))
            == Some((LaunchAt(Enter(s), FirstFree(s.pcbs).value, Resolve(img, cmd).params),
                     Started(FirstFree(s.pcbs).value)))
  {
    NextCall(img, s, Execute(Some(cmd)));
    RefusalsOnly(img, Enter(s), cmd);
  }

  lemma OneMoreCounts(s: State, slot: nat, params: seq<byte>, cur: nat, a: nat, b: nat, c: nat)
    requires Counts(s, cur, a, b, c) && cur < 2 && slot < SLOTS
    requires (if cur == 0 then a else b) < PER_TERMINAL
    ensures Counts(LaunchAt(Enter(s), slot, params), cur,
                   if cur == 0 then a + 1 else a, if cur == 1 then b + 1 else b, c)
  {
    LaunchCounts(Enter(s), slot, params);
  }

  /** One more program on the scheduled terminal. */
  lemma OneMore(img: Image, s: State, cmd: seq<byte>, cur: nat, a: nat, b: nat, c: nat)
    requires Inv(img, s) && Runnable(img, cmd) && Counts(s, cur, a, b, c) && cur < 2
    requires (if cur == 0 then a else b) < PER_TERMINAL && a + b + c < SLOTS
    ensures Next(img, s, Execute(Some(cmd))).Some?
    ensures Inv(img, Next(img, s, Execute(Some(cmd))).value.0)
    ensures Counts(Next(img, s, Execute(Some(cmd))).value.0, cur,
                   if cur == 0 then a + 1 else a, if cur == 1 then b + 1 else b, c)
  {
    NextKeeps(img, s, Execute(Some(cmd)));
    SlotAvailable(s.pcbs);
    ExecuteLaunches(img, s, cmd);
    OneMoreCounts(s, FirstFree(s.pcbs).value, Resolve(img, cmd).params, cur, a, b, c);
  }

  lemma FirstShellCounts(s: State, slot: nat, params: seq<byte>, a: nat)
    requires Counts(s, 0, a, 0, 0) && a > 0 && slot < SLOTS
    ensures Counts(LaunchAt(Ticked(s), slot, params), 1, a, 1, 0)
  {
    LaunchCounts(Ticked(s), slot, params);
  }

  lemma SecondShellLaunch(img: Image, s: State)
    requires Inv(img, s) && s.progCounter < SLOTS && s.terms[NextTerm(s)].count == 0
    ensures FirstFree(Ticked(s).pcbs).Some? && DoTick(img, s).Ran? && Inv(img, DoTick(img, s).s)
    ensures DoTick(img, s).s == LaunchAt(Ticked(s), FirstFree(Ticked(s).pcbs).value, Resolve(img, Shell(img)).params)
  {
    TickStarts(img, s);
  }

  /** The first tick starts terminal 1's shell. */
  lemma SecondShell(img: Image, s: State, a: nat)
    requires Inv(img, s) && Counts(s, 0, a, 0, 0) && 0 < a < SLOTS
    ensures DoTick(img, s).Ran? && Inv(img, DoTick(img, s).s) && Counts(DoTick(img, s).s, 1, a, 1, 0)
  {
    SecondShellLaunch(img, s);
    FirstShellCounts(s, FirstFree(Ticked(s).pcbs).value, Resolve(img, Shell(img)).params, a);
  }

  /** The boot-time launch can be refused: three programs started from the first shell and
      one from the second, before the third terminal is first scheduled, leave no slot for
      its shell. */
  lemma BootCanFail(img: Image, s: State, cmd: seq<byte>)
    requires Bootable(img) && PowerOn(s) && Runnable(img, cmd)
    ensures var e := Execute(Some(cmd));
            Run(img, Booted(img, s), [e, e, e, Tick, e, Tick]) == None
  {
    var e := Execute(Some(cmd));
    var s0 := Booted(img, s);
    OneMore(img, s0, cmd, 0, 1, 0, 0);
    var s1 := Next(img, s0, e).value.0;
    OneMore(img, s1, cmd, 0, 2, 0, 0);
    var s2 := Next(img, s1, e).value.0;
    OneMore(img, s2, cmd, 0, 3, 0, 0);
    var s3 := Next(img, s2, e).value.0;
    FourAndTicks(img, s3, cmd);
    Unrolled(Kernel(img), s0, s1, s2, s3, e);
  }

  /** The last three events of such a boot. */
  lemma FourAndTicks(img: Image, s: State, cmd: seq<byte>)
    requires Inv(img, s) && Runnable(img, cmd) && Counts(s, 0, 4, 0, 0)
    ensures Run(img, s, [Tick, Execute(Some(cmd)), Tick]) == None
  {
    SecondShell(img, s, 4);
    var s4 := DoTick(img, s).s;
    OneMore(img, s4, cmd, 1, 4, 1, 0);
    var s5 := Next(img, s4, Execute(Some(cmd))).value.0;
    TickKeeps(img, s5);
    NextTick(img, s);
    NextTick(img, s5);
    UnrolledEnd(Kernel(img), s, s4, s5, Execute(Some(cmd)));
  }

  lemma UnrolledEnd<S, A>(step: (S, Event) -> Option<(S, A)>, s3: S, s4: S, s5: S, e: Event)
    requires step(s3, Tick).Some? && step(s3, Tick).value.0 == s4
    requires step(s4, e).Some? && step(s4, e).value.0 == s5
    requires step(s5, Tick).None?
    ensures Machine.Run(step, s3, [Tick, e, Tick]) == None
  {
    assert [Tick, e, Tick][1..] == [e, Tick];
    assert [e, Tick][1..] == [Tick];
    assert Machine.Run(step, s5, [Tick]) == None;
    assert Machine.Run(step, s4, [e, Tick]) == None;
  }

  lemma Unrolled<S, A>(step: (S, Event) -> Option<(S, A)>, s0: S, s1: S, s2: S, s3: S, e: Event)
    requires step(s0, e).Some? && step(s0, e).value.0 == s1
    requires step(s1, e).Some? && step(s1, e).value.0 == s2
    requires step(s2, e).Some? && step(s2, e).value.0 == s3
    requires Machine.Run(step, s3, [Tick, e, Tick]) == None
    ensures Machine.Run(step, s0, [e, e, e, Tick, e, Tick]) == None
  {
    assert [e, e, e, Tick, e, Tick][1..] == [e, e, Tick, e, Tick];
    assert [e, e, Tick, e, Tick][1..] == [e, Tick, e, Tick];
    assert [e, Tick, e, Tick][1..] == [Tick, e, Tick];
    assert Machine.Run(step, s2, [e, Tick, e, Tick]) == None;
    assert Machine.Run(step, s1, [e, e, Tick, e, Tick]) == None;
  }
}
