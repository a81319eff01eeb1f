/** Runs of a deterministic machine, for any machine: a step takes a state and an event to
    a new state and an answer, or fails. */
module Machine {
  import opened Base

  /** The state after a sequence of events, or nothing if a step failed. */
  ghost function Run<S, E, A>(step: (S, E) -> Option<(S, A)>, s: S, events: seq<E>): Option<S> {
    if events == [] then Some(s)
    else match step(s, events[0])
      case None => None
      case Some(r) => Run(step, r.0, events[1..])
  }

  /** The answers given along the way. */
  ghost function Answers<S, E, A>(step: (S, E) -> Option<(S, A)>, s: S, events: seq<E>): (r: seq<A>)
    ensures Run(step, s, events).Some? ==> |r| == |events|
  {
    if events == [] then []
    else match step(s, events[0])
      case None => []
      case Some(r) => [r.1] + Answers(step, r.0, events[1..])
  }

  /** Every state of the run, the first and the last included, satisfies `guard`. */
  ghost predicate Always<S, E, A>(step: (S, E) -> Option<(S, A)>, guard: S -> bool, s: S, events: seq<E>) {
    && guard(s)
    && (events == [] ||
        match step(s, events[0])
        case None => false
        case Some(r) => Always(step, guard, r.0, events[1..]))
  }

  function Fold<V, E, A>(next: (V, E, A) -> V, v: V, events: seq<E>, answers: seq<A>): V
    requires |events| == |answers|
  {
    if events == [] then v else Fold(next, next(v, events[0], answers[0]), events[1..], answers[1..])
  }

  ghost predicate Preserves<S(!new), E(!new), A>(step: (S, E) -> Option<(S, A)>, inv: S -> bool) {
    forall s, e :: inv(s) && step(s, e).Some? ==> inv(step(s, e).value.0)
  }

  ghost predicate Succeeds<S(!new), E(!new), A>(step: (S, E) -> Option<(S, A)>, inv: S -> bool) {
    forall s, e :: inv(s) ==> step(s, e).Some?
  }

  lemma {:induction false} Invariant<S(!new), E(!new), A>(
      step: (S, E) -> Option<(S, A)>, inv: S -> bool, s: S, events: seq<E>)
    requires Preserves(step, inv) && inv(s)
    ensures Run(step, s, events).Some? ==> inv(Run(step, s, events).value)
    decreases |events|
  {
    if events != [] && step(s, events[0]).Some? {
      Invariant(step, inv, step(s, events[0]).value.0, events[1..]);
    }
  }

  lemma {:induction false} NeverFails<S(!new), E(!new), A>(
      step: (S, E) -> Option<(S, A)>, inv: S -> bool, s: S, events: seq<E>)
    requires Preserves(step, inv) && Succeeds(step, inv) && inv(s)
    ensures Run(step, s, events).Some? && inv(Run(step, s, events).value)
    decreases |events|
  {
    if events != [] {
      NeverFails(step, inv, step(s, events[0]).value.0, events[1..]);
    }
  }

  ghost predicate Tracks<S(!new), E(!new), A, V>(
      step: (S, E) -> Option<(S, A)>, inv: S -> bool, view: S -> V, next: (V, E, A) -> V)
  {
    forall s, e :: inv(s) && step(s, e).Some? ==>
      var r := step(s, e).value;
      view(r.0) == next(view(s), e, r.1)
  }

  /** A part of the state whose every change is told by the event and the answer can be
      computed from the history alone. */
  lemma {:induction false} History<S(!new), E(!new), A, V>(
      step: (S, E) -> Option<(S, A)>, inv: S -> bool, view: S -> V, next: (V, E, A) -> V, s: S, events: seq<E>)
    requires Preserves(step, inv) && Tracks(step, inv, view, next) && inv(s)
    requires Run(step, s, events).Some?
    ensures view(Run(step, s, events).value) == Fold(next, view(s), events, Answers(step, s, events))
    decreases |events|
  {
    if events != [] {
      var r := step(s, events[0]).value;
      History(step, inv, view, next, r.0, events[1..]);
      assert Answers(step, s, events)[1..] == Answers(step, r.0, events[1..]);
    }
  }

  /** What steps keep as long as `guard` holds survives any run on which it does. */
  lemma {:induction false} Meanwhile<S(!new), E(!new), A>(
      step: (S, E) -> Option<(S, A)>, inv: S -> bool, guard: S -> bool, s: S, events: seq<E>)
    requires forall x, e :: inv(x) && guard(x) && step(x, e).Some? && guard(step(x, e).value.0) ==>
               inv(step(x, e).value.0)
    requires inv(s) && Always(step, guard, s, events)
    ensures Run(step, s, events).Some? && inv(Run(step, s, events).value) && guard(Run(step, s, events).value)
    decreases |events|
  {
    if events != [] {
      Meanwhile(step, inv, guard, step(s, events[0]).value.0, events[1..]);
    }
  }

  /** The answers to the events that are `mine` in the state they come in. */
  ghost function Heard<S, E, A>(
      step: (S, E) -> Option<(S, A)>, mine: (S, E) -> bool, s: S, events: seq<E>): seq<A>
  {
    if events == [] then []
    else match step(s, events[0])
      case None => []
      case Some(r) => (if mine(s, events[0]) then [r.1] else []) + Heard(step, mine, r.0, events[1..])
  }

  /** No event of the run is `bad` in the state it comes in. */
  ghost predicate Never<S, E, A>(step: (S, E) -> Option<(S, A)>, bad: (S, E) -> bool, s: S, events: seq<E>) {
    events == [] ||
    (!bad(s, events[0]) &&
     match step(s, events[0])
     case None => true
     case Some(r) => Never(step, bad, r.0, events[1..]))
  }

  /** Event `e` moves the count on if it is mine, and is then answered by it. */
  ghost predicate CountsOn<S, E, A>(
      step: (S, E) -> Option<(S, A)>, mine: (S, E) -> bool, at: (S, nat) -> bool, answer: nat -> A,
      s: S, e: E, i: nat)
  {
    match step(s, e)
    case None => true
    case Some((s', a)) => if mine(s, e) then a == answer(i) && at(s', i + 1) else at(s', i)
  }

  ghost predicate Counts<S(!new), E(!new), A>(
      step: (S, E) -> Option<(S, A)>, mine: (S, E) -> bool, bad: (S, E) -> bool,
      at: (S, nat) -> bool, answer: nat -> A)
  {
    forall s, e, i: nat :: at(s, i) && !bad(s, e) ==> CountsOn(step, mine, at, answer, s, e, i)
  }

  ghost predicate InOrder<A>(heard: seq<A>, answer: nat -> A, k: nat) {
    forall i: nat :: i < |heard| ==> heard[i] == answer(k + i)
  }

  lemma InOrderCons<A>(a: A, rest: seq<A>, answer: nat -> A, k: nat)
    requires a == answer(k) && InOrder(rest, answer, k + 1)
    ensures InOrder([a] + rest, answer, k)
  {
    forall i: nat | 0 < i <= |rest|
      ensures ([a] + rest)[i] == answer(k + i)
    {
      assert rest[i - 1] == answer(k + 1 + (i - 1));
      assert k + 1 + (i - 1) == k + i;
    }
  }

  /** If every event of mine moves a count on by one and is answered by it, then over every run
      the answers come in the order of the count. */
  lemma {:induction false} HeardInOrder<S(!new), E(!new), A>(
      step: (S, E) -> Option<(S, A)>, mine: (S, E) -> bool, bad: (S, E) -> bool,
      at: (S, nat) -> bool, answer: nat -> A, s: S, events: seq<E>, k: nat)
    requires Counts(step, mine, bad, at, answer) && at(s, k) && Never(step, bad, s, events)
    ensures InOrder(Heard(step, mine, s, events), answer, k)
    decreases |events|
  {
    if events != [] && step(s, events[0]).Some? {
      var (s1, a) := step(s, events[0]).value;
      assert CountsOn(step, mine, at, answer, s, events[0], k);
      if mine(s, events[0]) {
        HeardInOrder(step, mine, bad, at, answer, s1, events[1..], k + 1);
        InOrderCons(a, Heard(step, mine, s1, events[1..]), answer, k);
      } else {
        HeardInOrder(step, mine, bad, at, answer, s1, events[1..], k);
        assert Heard(step, mine, s, events) == Heard(step, mine, s1, events[1..]);
      }
    }
  }
}
