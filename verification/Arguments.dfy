/** Program arguments: parsed from the command, stored in the control block, and fetched by
    the program itself, however many other steps come between. */
module Arguments {
  import opened Base
  import opened FileSystem
  import opened Command
  import opened Processes
  import opened Invariants
  import opened Steps
  import opened Effects
  import opened Runs
  import opened Calls
  import Machine
  import D = Descriptors

  /** If slot `p` still holds the process born `b`, that process has arguments `params`. */
  ghost predicate HasArgs(img: Image, p: nat, b: nat, params: seq<byte>, s: State) {
    && Inv(img, s) && p < SLOTS && b < s.spawned
    && (s.pcbs[p].status && s.pcbs[p].born == b ==> s.pcbs[p].params == params)
  }

  ghost function HasArgsOf(img: Image, p: nat, b: nat, params: seq<byte>): State -> bool {
    (s: State) => HasArgs(img, p, b, params, s)
  }

  lemma ArgsStep(img: Image, p: nat, b: nat, params: seq<byte>, s: State, e: Event)
    requires HasArgs(img, p, b, params, s) && Next(img, s, e).Some?
    ensures HasArgs(img, p, b, params, Next(img, s, e).value.0)
  {
    NextKeeps(img, s, e);
    NextEffect(img, s, e);
    var s' := Next(img, s, e).value.0;
    assert Succeeds(s.pcbs[p], s'.pcbs[p], s.spawned);
  }

  /** A process keeps the arguments it was started with for as long as it lives, whatever
      else runs; its slot's later owners get their own. */
  lemma ArgumentsLast(img: Image, s: State, events: seq<Event>, p: nat)
    requires Inv(img, s) && Run(img, s, events).Some? && p < SLOTS && s.pcbs[p].status
    ensures Shape(Run(img, s, events).value)
    ensures var r := Run(img, s, events).value;
            r.pcbs[p].status && r.pcbs[p].born == s.pcbs[p].born ==> r.pcbs[p].params == s.pcbs[p].params
  {
    var inv := HasArgsOf(img, p, s.pcbs[p].born, s.pcbs[p].params);
    forall x, e | inv(x) && Kernel(img)(x, e).Some?
      ensures inv(Kernel(img)(x, e).value.0)
    {
      ArgsStep(img, p, s.pcbs[p].born, s.pcbs[p].params, x, e);
    }
    Machine.Invariant(Kernel(img), inv, s, events);
  }

  lemma LaunchedHas(s: State, slot: nat, params: seq<byte>)
    requires Shape(s) && slot < SLOTS && s.terms[s.cur].count < PER_TERMINAL
    ensures var b := LaunchAt(s, slot, params).pcbs[slot];
            b.status && b.born == s.spawned && b.params == params
  {
    LaunchEffect(s, slot, params);
  }

  /** A process starts with the tail of the command that started it. */
  lemma StartsWithTail(img: Image, s: State, cmd: seq<byte>)
    requires Inv(img, s) && Executes(img, s, Execute(Some(cmd)))
    ensures IsCommand(cmd)
    ensures var (s1, a) := Next(img, s, Execute(Some(cmd))).value;
            && Inv(img, s1) && a.Started? && a.pid < SLOTS
            && s1.pcbs[a.pid].status && s1.pcbs[a.pid].born == s.spawned && s1.pcbs[a.pid].params == Tail(cmd)
  {
    NextKeeps(img, s, Execute(Some(cmd)));
    EnterFiles(img, s);
    var slot := ExecutesLaunches(img, s, Execute(Some(cmd)));
    LaunchedHas(Enter(s), slot, Resolve(img, cmd).params);
  }

  lemma GetArgsNext(img: Image, s: State, n: int)
    requires Ready(img, s) && s.user && s.terms[s.cur].count > 0
    ensures Next(img, s, GetArgs(n)).Some?
    ensures Next(img, s, GetArgs(n)).value.1 ==
            match Fetch(s.pcbs[Top(s.terms[s.cur])].params, n)
            case None => Replied(D.Code(-1))
            case Some(text) => Replied(D.Data(text))
  {
    NextCall(img, s, GetArgs(n));
    EnterFiles(img, s);
  }

  /** Parse, store and fetch: a program started by a command that spells out a name and a
      tail gets exactly that tail from `getargs` whenever it asks, in every later state in
      which it still runs, if the tail is not empty and fits with its NUL, and is refused
      otherwise. */
  lemma ArgumentsRoundTrip(
      img: Image, s: State, lead: seq<byte>, word: seq<byte>, gap: seq<byte>, tail: seq<byte>, rest: seq<byte>,
      cmd: seq<byte>, s1: State, p: nat, events: seq<Event>, n: int)
    requires IsSpaces(lead) && IsWord(word) && IsSpaces(gap) && IsTail(tail) && (tail != [] ==> gap != [])
    requires rest != [] && EndsLine(rest[0]) && 0 in rest && cmd == Spell(lead, word, gap, tail, rest)
    requires Inv(img, s) && Next(img, s, Execute(Some(cmd))) == Some((s1, Started(p)))
    requires Run(img, s1, events).Some? && n >= 0
    requires var r := Run(img, s1, events).value;
             && r.user && |r.terms| == TERMINALS && r.cur < TERMINALS && TermShape(r.terms[r.cur])
             && r.terms[r.cur].count > 0 && Top(r.terms[r.cur]) == p
             && p < |r.pcbs| && r.pcbs[p].born == s.spawned
    ensures var r := Run(img, s1, events).value;
            && Next(img, r, GetArgs(n)).Some?
            && Next(img, r, GetArgs(n)).value.1 ==
               if tail != [] && |tail| + 1 <= n then Replied(D.Data(tail)) else Replied(D.Code(-1))
  {
    ParseSpelled(lead, word, gap, tail, rest);
    StartsWithTail(img, s, cmd);
    var r := Run(img, s1, events).value;
    RunsKeep(img, s1, events);
    TopAlive(r);
    ArgumentsLast(img, s1, events, p);
    FetchTail(cmd, n);
    GetArgsNext(img, r, n);
  }
}
