/** Safety over whole runs of the process machine, whatever the interleaving of system
    calls, exceptions and ticks: nothing goes wrong but the launch of a terminal's first
    shell, scheduling is round robin, exit codes are told by the history. */
module Runs {
  import opened Base
  import opened FileSystem
  import opened Processes
  import opened Invariants
  import opened Steps
  import opened Effects
  import Machine

  /** One step that did not fail. */
  ghost function Next(img: Image, s: State, e: Event): Option<(State, Answer)> {
    if Ready(img, s) then
      match Step(img, s, e)
      case Ran(s1, a) => Some((s1, a))
      case Fault(_) => None
    else None
  }

  lemma NextCall(img: Image, s: State, e: Event)
    requires Ready(img, s) && Enabled(s, e) && IsCall(e)
    ensures BlocksOk(img, Enter(s))
    ensures Next(img, s, e) ==
            match Call(img, Enter(s), e)
            case Ran(s1, a) => Some((s1, a))
            case Fault(_) => None
  {
    CallStep(img, s, e);
  }

  lemma NextTick(img: Image, s: State)
    requires Ready(img, s)
    ensures Next(img, s, Tick) ==
            match DoTick(img, s)
            case Ran(s1, a) => Some((s1, a))
            case Fault(_) => None
  {
  }

  /** A wake-up, a change of the display, or an event that cannot happen now. */
  lemma NextStill(img: Image, s: State, e: Event)
    requires Ready(img, s) && !e.Tick? && (!Enabled(s, e) || !IsCall(e))
    ensures Next(img, s, e).Some? && Next(img, s, e).value.1 == Quiet
    ensures var s' := Next(img, s, e).value.0;
            && s'.pcbs == s.pcbs && s'.mapping == s.mapping && (s'.user <==> e.Wake? || s.user)
            && s'.active == if e.Display? && e.term < TERMINALS then e.term else s.active
  {
  }

  ghost function Kernel(img: Image): (State, Event) -> Option<(State, Answer)> {
    (s: State, e: Event) => Next(img, s, e)
  }

  ghost function Good(img: Image): State -> bool {
    (s: State) => Inv(img, s)
  }

  ghost function GoodAndOwned(img: Image): State -> bool {
    (s: State) => Inv(img, s) && AllOwned(s)
  }

  /** The state after a sequence of events. */
  ghost function Run(img: Image, s: State, events: seq<Event>): Option<State> {
    Machine.Run(Kernel(img), s, events)
  }

  lemma NextKeeps(img: Image, s: State, e: Event)
    requires Inv(img, s)
    ensures Next(img, s, e).Some? ==> Inv(img, Next(img, s, e).value.0)
    ensures AllOwned(s) ==> Next(img, s, e).Some? && AllOwned(Next(img, s, e).value.0)
    ensures Next(img, s, e).None? ==> Step(img, s, e) == Fault(LaunchRefused)
  {
    StepKeeps(img, s, e);
  }

  lemma KernelPreserves(img: Image)
    ensures Machine.Preserves(Kernel(img), Good(img))
  {
    forall s, e | Good(img)(s) && Kernel(img)(s, e).Some?
      ensures Good(img)(Kernel(img)(s, e).value.0)
    {
      NextKeeps(img, s, e);
    }
  }

  lemma KernelSucceeds(img: Image)
    ensures Machine.Preserves(Kernel(img), GoodAndOwned(img))
    ensures Machine.Succeeds(Kernel(img), GoodAndOwned(img))
  {
    forall s, e | GoodAndOwned(img)(s)
      ensures Kernel(img)(s, e).Some? && GoodAndOwned(img)(Kernel(img)(s, e).value.0)
    {
      NextKeeps(img, s, e);
    }
  }

  /** Every reachable state satisfies the invariant. */
  lemma RunsKeep(img: Image, s: State, events: seq<Event>)
    requires Inv(img, s) && Run(img, s, events).Some?
    ensures Inv(img, Run(img, s, events).value)
  {
    KernelPreserves(img);
    Machine.Invariant(Kernel(img), Good(img), s, events);
  }

  /** Once all three terminals own a process, every run succeeds and they always do. */
  lemma RunsNeverFail(img: Image, s: State, events: seq<Event>)
    requires Inv(img, s) && AllOwned(s)
    ensures Run(img, s, events).Some?
    ensures AllOwned(Run(img, s, events).value)
  {
    KernelSucceeds(img);
    Machine.NeverFails(Kernel(img), GoodAndOwned(img), s, events);
  }

  // ---------------------------------------------------------------------------
  // Round robin

  function Ticks(events: seq<Event>): nat {
    if events == [] then 0 else (if events[0].Tick? then 1 else 0) + Ticks(events[1..])
  }

  lemma NextEffect(img: Image, s: State, e: Event)
    requires Inv(img, s) && Next(img, s, e).Some?
    ensures Effect(s, e, Next(img, s, e).value.0, Next(img, s, e).value.1)
  {
    StepEffect(img, s, e);
  }

  function CurOf(): State -> nat { (s: State) => s.cur }
  function CurNext(): (nat, Event, Answer) -> nat { (c: nat, e: Event, a: Answer) => NextCur(c, e) }

  lemma CurTracks(img: Image)
    ensures Machine.Tracks(Kernel(img), Good(img), CurOf(), CurNext())
  {
    forall s, e | Good(img)(s) && Kernel(img)(s, e).Some?
      ensures var r := Kernel(img)(s, e).value; CurOf()(r.0) == CurNext()(CurOf()(s), e, r.1)
    {
      NextEffect(img, s, e);
    }
  }

  lemma {:induction false} CurFold(c: nat, events: seq<Event>, answers: seq<Answer>)
    requires |events| == |answers| && c < TERMINALS
    ensures Machine.Fold(CurNext(), c, events, answers) == (c + Ticks(events)) % TERMINALS
    decreases |events|
  {
    if events != [] {
      CurFold(NextCur(c, events[0]), events[1..], answers[1..]);
    }
  }

  /** The scheduled terminal after a run is the starting one plus the number of ticks,
      modulo three, whatever executes and halts happened in between. */
  lemma RoundRobin(img: Image, s: State, events: seq<Event>)
    requires Inv(img, s) && Run(img, s, events).Some?
    ensures Run(img, s, events).value.cur == (s.cur + Ticks(events)) % TERMINALS
  {
    KernelPreserves(img);
    CurTracks(img);
    Machine.History(Kernel(img), Good(img), CurOf(), CurNext(), s, events);
    CurFold(s.cur, events, Machine.Answers(Kernel(img), s, events));
  }

  /** Of any three stretches of a run with one tick each, the terminals scheduled at their
      ends are all three terminals. */
  lemma EveryThreeTicks(img: Image, s: State, a: seq<Event>, b: seq<Event>, c: seq<Event>)
    requires Inv(img, s) && AllOwned(s)
    requires Ticks(a) == Ticks(b) == Ticks(c) == 1
    ensures Run(img, s, a).Some? && Run(img, s, a + b).Some? && Run(img, s, a + b + c).Some?
    ensures {Run(img, s, a).value.cur, Run(img, s, a + b).value.cur, Run(img, s, a + b + c).value.cur} == {0, 1, 2}
  {
    RunsNeverFail(img, s, a);
    RunsNeverFail(img, s, a + b);
    RunsNeverFail(img, s, a + b + c);
    TicksConcat(a, b);
    TicksConcat(a + b, c);
    RoundRobin(img, s, a);
    RoundRobin(img, s, a + b);
    RoundRobin(img, s, a + b + c);
    ThreeInARow(s.cur);
  }

  lemma ThreeInARow(c: nat)
    requires c < TERMINALS
    ensures {(c + 1) % TERMINALS, (c + 2) % TERMINALS, (c + 3) % TERMINALS} == {0, 1, 2}
  {
  }

  lemma {:induction false} TicksConcat(a: seq<Event>, b: seq<Event>)
    ensures Ticks(a + b) == Ticks(a) + Ticks(b)
    decreases |a|
  {
    if a == [] {
      assert a + b == b;
    } else {
      TicksConcat(a[1..], b);
      assert (a + b)[1..] == a[1..] + b;
    }
  }

  // ---------------------------------------------------------------------------
  // Exit codes

  function FlagOf(): State -> bool { (s: State) => s.exception }
  function FlagNext(): (bool, Event, Answer) -> bool { (f: bool, e: Event, a: Answer) => NextFlag(f, e, a) }

  lemma FlagTracks(img: Image)
    ensures Machine.Tracks(Kernel(img), Good(img), FlagOf(), FlagNext())
  {
    forall s, e | Good(img)(s) && Kernel(img)(s, e).Some?
      ensures var r := Kernel(img)(s, e).value; FlagOf()(r.0) == FlagNext()(FlagOf()(s), e, r.1)
    {
      NextEffect(img, s, e);
    }
  }

  /** Since the last child exit, some root has died by an exception. */
  predicate RootDiedSince(events: seq<Event>, answers: seq<Answer>)
    requires |events| == |answers|
  {
    events != [] &&
    var n := |events| - 1;
    if answers[n].Exited? then false
    else (answers[n].Relaunched? && events[n].Exception?) || RootDiedSince(events[..n], answers[..n])
  }

  lemma {:induction false} FlagFold(flag: bool, events: seq<Event>, answers: seq<Answer>)
    requires |events| == |answers|
    ensures Machine.Fold(FlagNext(), flag, events, answers) ==
            (RootDiedSince(events, answers) || (flag && forall i :: 0 <= i < |answers| ==> !answers[i].Exited?))
    decreases |events|
  {
    if events != [] {
      var n := |events| - 1;
      FlagFold(flag, events[..n], answers[..n]);
      FoldSnoc(FlagNext(), flag, events, answers);
    }
  }

  lemma {:induction false} FoldSnoc<V, E, A>(next: (V, E, A) -> V, v: V, events: seq<E>, answers: seq<A>)
    requires |events| == |answers| > 0
    ensures var n := |events| - 1;
            Machine.Fold(next, v, events, answers)
            == next(Machine.Fold(next, v, events[..n], answers[..n]), events[n], answers[n])
    decreases |events|
  {
    var n := |events| - 1;
    if n > 0 {
      FoldSnoc(next, next(v, events[0], answers[0]), events[1..], answers[1..]);
      assert events[..n][1..] == events[1..][..n - 1] && answers[..n][1..] == answers[1..][..n - 1];
    } else {
      assert events[1..] == [] && answers[1..] == [] && events[..n] == [] && answers[..n] == [];
    }
  }

  /** After any run, a child that terminates yields 256 exactly when it died by an
      exception or some root died by one since the last child exit; otherwise it yields
      the status byte it halted with. */
  lemma ExitCode(img: Image, s: State, events: seq<Event>, e: Event)
    requires Inv(img, s) && !s.exception && Run(img, s, events).Some?
    requires var m := Run(img, s, events).value;
             Next(img, m, e).Some? && Next(img, m, e).value.1.Exited?
    ensures var m := Run(img, s, events).value;
            var code := Next(img, m, e).value.1.code;
            var answers := Machine.Answers(Kernel(img), s, events);
            && (e.Halt? || e.Exception?)
            && (code == EXCEPTION_CODE <==> e.Exception? || RootDiedSince(events, answers))
            && (code != EXCEPTION_CODE ==> code == e.status)
  {
    var m := Run(img, s, events).value;
    RunsKeep(img, s, events);
    NextEffect(img, m, e);
    KernelPreserves(img);
    FlagTracks(img);
    Machine.History(Kernel(img), Good(img), FlagOf(), FlagNext(), s, events);
    FlagFold(false, events, Machine.Answers(Kernel(img), s, events));
  }
}
