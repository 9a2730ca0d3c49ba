/**
 The asynchronous barrier: coroutines that await it, threads that set it, and the mutex around the
 list of suspended ones. Locking, checking, pushing, swapping and unlocking are separate steps.
 */
module Barrier {
  import opened Common

  /** An awaiting coroutine. From `Locked` to `Admitted` or `Pushed` it holds the mutex. */
  datatype Phase =
    | Outside
    | Entering
    | Locked
    | Admitted
    | Denied
    | Pushed
    | Suspended
    | Resuming
    | Proceeded

  /** The one call of `set` that reaches the expected count. `Holding` and `Swapped` hold the mutex. */
  datatype Finisher = NotYet | Reached | Holding | Swapped(handles: seq<nat>) | Handing(handles: seq<nat>)

  datatype Mutex = Free | ByAwaiter(co: nat) | BySetter

  /** `proceeded` lists who went past the barrier, in order. */
  datatype State = State(expected: nat, count: nat, awaiters: seq<nat>, mutex: Mutex,
                         phases: map<nat, Phase>, finisher: Finisher, proceeded: seq<nat>)

  datatype Action = Await(co: nat) | Go(co: nat) | Set | Finish

  function Init(expected: nat): State {
    State(expected, 0, [], Free, map[], NotYet, [])
  }

  function PhaseOf(s: State, c: nat): Phase {
    if c in s.phases then s.phases[c] else Outside
  }

  function Enter(s: State, c: nat, p: Phase): State {
    s.(phases := s.phases[c := p])
  }

  function Proceed(s: State, c: nat): State {
    Enter(s, c, Proceeded).(proceeded := s.proceeded + [c])
  }

  function GoStep(s: State, c: nat): State {
    match PhaseOf(s, c)
    case Entering => if s.mutex.Free? then Enter(s, c, Locked).(mutex := ByAwaiter(c)) else s
    case Locked => Enter(s, c, if s.count >= s.expected then Admitted else Denied)
    case Admitted => Enter(s, c, Resuming).(mutex := Free)
    case Denied => Enter(s, c, Pushed).(awaiters := s.awaiters + [c])
    case Pushed => Enter(s, c, Suspended).(mutex := Free)
    case Resuming => Proceed(s, c)
    case _ => s
  }

  function FinishStep(s: State): State {
    match s.finisher
    case NotYet => s
    case Reached => if s.mutex.Free? then s.(finisher := Holding, mutex := BySetter) else s
    case Holding => s.(finisher := Swapped(s.awaiters), awaiters := [])
    case Swapped(handles) => s.(finisher := Handing(handles), mutex := Free)
    case Handing(handles) => if handles == [] then s else Proceed(s, handles[0]).(finisher := Handing(handles[1..]))
  }

  function Step(s: State, a: Action): State {
    match a
    case Await(c) =>
      if !PhaseOf(s, c).Outside? then s
      else if s.count >= s.expected then Proceed(s, c)
      else Enter(s, c, Entering)
    case Go(c) => GoStep(s, c)
    case Set => s.(count := s.count + 1, finisher := if s.count + 1 == s.expected then Reached else s.finisher)
    case Finish => FinishStep(s)
  }

  function Exec(s: State, acts: seq<Action>): State {
    if acts == [] then s else Step(Exec(s, acts[..|acts| - 1]), acts[|acts| - 1])
  }

  // ----- The invariant -----

  predicate Holds(p: Phase) {
    p.Locked? || p.Admitted? || p.Denied? || p.Pushed?
  }

  /** Handles the final setter has taken out and not yet resumed. */
  function InHand(f: Finisher): seq<nat> {
    if f.Swapped? || f.Handing? then f.handles else []
  }

  predicate Early(f: Finisher) {
    f.NotYet? || f.Reached? || f.Holding?
  }

  predicate FinisherFits(s: State) {
    && (s.finisher.NotYet? <==> s.count < s.expected || s.expected == 0)
    && (s.mutex.BySetter? <==> s.finisher.Holding? || s.finisher.Swapped?)
    && (s.awaiters != [] ==> Early(s.finisher) && s.expected > 0)
    && (InHand(s.finisher) != [] ==> s.awaiters == [])
  }

  ghost predicate PhaseFits(s: State, c: nat) {
    var p := PhaseOf(s, c);
    && (Holds(p) <==> s.mutex == ByAwaiter(c))
    && (p.Denied? || p.Pushed? ==> (s.finisher.NotYet? || s.finisher.Reached?) && s.expected > 0)
    && (p.Pushed? || p.Suspended? <==> c in s.awaiters || c in InHand(s.finisher))
    && (p.Proceeded? || p.Resuming? || p.Admitted? ==> s.count >= s.expected)
  }

  ghost predicate Inv(s: State) {
    && FinisherFits(s)
    && (forall c: nat :: PhaseFits(s, c))
    && Distinct(s.awaiters) && Distinct(InHand(s.finisher))
  }

  lemma GoKeepsInv(s: State, c: nat)
    requires Inv(s)
    ensures Inv(GoStep(s, c))
  {
    var s' := GoStep(s, c);
    assert PhaseFits(s, c);
    forall d: nat ensures PhaseFits(s', d) {
      assert PhaseFits(s, d);
    }
  }

  lemma FinishKeepsInv(s: State)
    requires Inv(s)
    ensures Inv(FinishStep(s))
  {
    var s' := FinishStep(s);
    if s.finisher.Handing? && s.finisher.handles != [] {
      assert PhaseFits(s, s.finisher.handles[0]);
    }
    forall d: nat ensures PhaseFits(s', d) {
      assert PhaseFits(s, d);
    }
  }

  lemma StepKeepsInv(s: State, a: Action)
    requires Inv(s)
    ensures Inv(Step(s, a))
  {
    match a {
      case Go(c) => GoKeepsInv(s, c);
      case Finish => FinishKeepsInv(s);
      case _ =>
        forall d: nat ensures PhaseFits(Step(s, a), d) {
          assert PhaseFits(s, d);
        }
    }
  }

  lemma {:induction false} RunKeepsInv(expected: nat, acts: seq<Action>)
    ensures Inv(Exec(Init(expected), acts))
  {
    if acts != [] {
      RunKeepsInv(expected, acts[..|acts| - 1]);
      StepKeepsInv(Exec(Init(expected), acts[..|acts| - 1]), acts[|acts| - 1]);
    }
  }

  // ----- What the barrier promises -----

  function SetCount(acts: seq<Action>): nat {
    if acts == [] then 0 else SetCount(acts[..|acts| - 1]) + if acts[|acts| - 1].Set? then 1 else 0
  }

  /** The coroutine that a step takes past the barrier, if any. */
  function Passer(s: State, a: Action): Option<nat> {
    match a
    case Await(c) => if PhaseOf(s, c).Outside? && s.count >= s.expected then Some(c) else None
    case Go(c) => if PhaseOf(s, c).Resuming? then Some(c) else None
    case Finish => if s.finisher.Handing? && s.finisher.handles != [] then Some(s.finisher.handles[0]) else None
    case Set => None
  }

  lemma StepPasses(s: State, a: Action, c: nat)
    requires Inv(s)
    ensures Step(s, a).proceeded == if Passer(s, a).Some? then s.proceeded + [Passer(s, a).value] else s.proceeded
    ensures PhaseOf(Step(s, a), c).Proceeded? <==> PhaseOf(s, c).Proceeded? || Passer(s, a) == Some(c)
    ensures Passer(s, a) == Some(c) ==> !PhaseOf(s, c).Proceeded?
  {
    assert PhaseFits(s, c);
    assert a.Finish? && Passer(s, a).Some? ==> Passer(s, a).value in InHand(s.finisher);
  }

  lemma StepCounts(s: State, a: Action, c: nat)
    requires Inv(s) && Times(s.proceeded, c) == (if PhaseOf(s, c).Proceeded? then 1 else 0)
    ensures Times(Step(s, a).proceeded, c) == (if PhaseOf(Step(s, a), c).Proceeded? then 1 else 0)
  {
    StepPasses(s, a, c);
    assert Passer(s, a).Some? ==> Step(s, a).proceeded[..|s.proceeded|] == s.proceeded;
  }

  lemma {:induction false} RunCounts(expected: nat, acts: seq<Action>, c: nat)
    ensures var s := Exec(Init(expected), acts);
            s.count == SetCount(acts) && s.expected == expected &&
            Times(s.proceeded, c) == (if PhaseOf(s, c).Proceeded? then 1 else 0)
  {
    if acts != [] {
      var prefix := acts[..|acts| - 1];
      RunCounts(expected, prefix, c);
      RunKeepsInv(expected, prefix);
      StepCounts(Exec(Init(expected), prefix), acts[|acts| - 1], c);
    }
  }

  /** Each coroutine goes past the barrier at most once, and only after `expected` calls of `set`. */
  lemma ProceedsOnceAfterSets(expected: nat, acts: seq<Action>, c: nat)
    ensures Times(Exec(Init(expected), acts).proceeded, c) <= 1
    ensures Times(Exec(Init(expected), acts).proceeded, c) == 1 ==> SetCount(acts) >= expected
  {
    RunCounts(expected, acts, c);
    RunKeepsInv(expected, acts);
    assert PhaseFits(Exec(Init(expected), acts), c);
  }

  /** From the final setter's swap on the list is empty for ever, and nobody is about to push. */
  lemma SwapIsFinal(expected: nat, acts: seq<Action>, more: seq<Action>, c: nat)
    requires !Early(Exec(Init(expected), acts).finisher)
    ensures var s := Exec(Init(expected), acts + more);
            !Early(s.finisher) && s.awaiters == [] && !PhaseOf(s, c).Denied? && !PhaseOf(s, c).Pushed?
  {
    StaysLate(expected, acts, more);
    RunKeepsInv(expected, acts + more);
    assert PhaseFits(Exec(Init(expected), acts + more), c);
  }

  lemma {:induction false} StaysLate(expected: nat, acts: seq<Action>, more: seq<Action>)
    requires !Early(Exec(Init(expected), acts).finisher)
    ensures !Early(Exec(Init(expected), acts + more).finisher)
  {
    if more == [] {
      assert acts + more == acts;
    } else {
      var prefix := acts + more[..|more| - 1];
      StaysLate(expected, acts, more[..|more| - 1]);
      assert (acts + more)[..|acts + more| - 1] == prefix;
      RunKeepsInv(expected, prefix);
    }
  }

  /**
   Nobody is left behind: once enough sets have happened and the final setter can do no more, a
   coroutine that can do no more either never awaited the barrier or has gone past it exactly once.
   */
  lemma NobodyIsLeft(expected: nat, acts: seq<Action>, c: nat)
    requires SetCount(acts) >= expected
    requires var s := Exec(Init(expected), acts); Step(s, Finish) == s && forall d: nat :: Step(s, Go(d)) == s
    ensures var s := Exec(Init(expected), acts);
            PhaseOf(s, c).Outside? || (PhaseOf(s, c).Proceeded? && Times(s.proceeded, c) == 1)
  {
    RunCounts(expected, acts, c);
    RunKeepsInv(expected, acts);
    var s := Exec(Init(expected), acts);
    assert PhaseFits(s, c);
    MutexIsFree(s);
    assert Step(s, Go(c)) == s;
    assert PhaseOf(Step(s, Go(c)), c) == PhaseOf(s, c);
  }

  lemma MutexIsFree(s: State)
    requires Inv(s) && s.count >= s.expected && Step(s, Finish) == s && forall d: nat :: Step(s, Go(d)) == s
    ensures s.mutex.Free? && (s.expected == 0 || s.finisher == Handing([]))
  {
    var d := if s.mutex.ByAwaiter? then s.mutex.co else 0;
    assert PhaseFits(s, d) && Step(s, Go(d)) == s;
    assert PhaseOf(Step(s, Go(d)), d) == PhaseOf(s, d);
    assert Step(s, Finish).finisher == s.finisher;
  }

  // ----- It comes to that -----

  /** How many steps an awaiter is from suspending or going past. */
  function Rank(p: Phase): nat {
    match p
    case Entering => 4
    case Locked => 3
    case Admitted => 2
    case Denied => 2
    case Pushed => 1
    case Resuming => 1
    case _ => 0
  }

  ghost function RankIn(phases: map<nat, Phase>): nat -> nat {
    (c: nat) => if c in phases then Rank(phases[c]) else 0
  }

  /** How many steps the final setter is from having resumed everybody on the list. */
  function FinisherLeft(s: State): nat {
    match s.finisher
    case NotYet => 0
    case Reached => 4 + |s.awaiters|
    case Holding => 3 + |s.awaiters|
    case Swapped(handles) => 2 + |handles|
    case Handing(handles) => |handles|
  }

  /** Bounds the actions left: awaiters count twice, since one that is denied makes the list longer. */
  ghost function StepsLeft(s: State): nat {
    2 * Sum(s.phases.Keys, RankIn(s.phases)) + FinisherLeft(s)
  }

  lemma RankMoves(phases: map<nat, Phase>, c: nat, p: Phase)
    requires c in phases
    ensures var m := phases[c := p];
            Sum(m.Keys, RankIn(m)) + Rank(phases[c]) == Sum(phases.Keys, RankIn(phases)) + Rank(p)
  {
    var m := phases[c := p];
    assert m.Keys == phases.Keys;
    SumWithout(phases.Keys, RankIn(phases), c);
    SumWithout(m.Keys, RankIn(m), c);
    SumSame(phases.Keys - {c}, RankIn(phases), RankIn(m));
  }

  lemma GoMoves(s: State, c: nat)
    requires GoStep(s, c) != s
    ensures var s' := GoStep(s, c);
            c in s.phases && s'.phases == s.phases[c := PhaseOf(s', c)] &&
            Rank(PhaseOf(s', c)) < Rank(s.phases[c]) && FinisherLeft(s') <= FinisherLeft(s) + 1
  {
  }

  /** Every action of an awaiter brings it nearer to its end: it never goes round in circles. */
  lemma GoAdvances(s: State, c: nat)
    requires GoStep(s, c) != s
    ensures Rank(PhaseOf(GoStep(s, c), c)) < Rank(PhaseOf(s, c)) && StepsLeft(GoStep(s, c)) < StepsLeft(s)
  {
    GoMoves(s, c);
    var p := PhaseOf(GoStep(s, c), c);
    RankMoves(s.phases, c, p);
    var moved := s.phases[c := p];
    assert StepsLeft(GoStep(s, c)) == 2 * Sum(moved.Keys, RankIn(moved)) + FinisherLeft(GoStep(s, c));
  }

  lemma FinishAdvances(s: State)
    requires Inv(s) && FinishStep(s) != s
    ensures StepsLeft(FinishStep(s)) < StepsLeft(s)
  {
    if s.finisher.Handing? {
      var c := s.finisher.handles[0];
      assert PhaseFits(s, c) && c in InHand(s.finisher);
      RankMoves(s.phases, c, Proceeded);
    }
  }

  predicate Inside(a: Action) {
    a.Go? || a.Finish?
  }

  ghost predicate Quiet(s: State) {
    forall a :: Inside(a) ==> Step(s, a) == s
  }

  lemma {:induction false} ComesToRest(s: State, more: seq<Action>) returns (all: seq<Action>)
    requires Inv(Exec(s, more)) && forall i :: 0 <= i < |more| ==> Inside(more[i])
    ensures more <= all && Quiet(Exec(s, all)) && forall i :: 0 <= i < |all| ==> Inside(all[i])
    decreases StepsLeft(Exec(s, more))
  {
    all := more;
    var now := Exec(s, more);
    if !Quiet(now) {
      var a :| Inside(a) && Step(now, a) != now;
      if a.Go? {
        GoAdvances(now, a.co);
      } else {
        FinishAdvances(now);
      }
      StepKeepsInv(now, a);
      assert (more + [a])[..|more|] == more;
      all := ComesToRest(s, more + [a]);
    }
  }

  lemma {:induction false} ExecConcat(s: State, acts: seq<Action>, more: seq<Action>)
    ensures Exec(s, acts + more) == Exec(Exec(s, acts), more)
  {
    if more == [] {
      assert acts + more == acts;
    } else {
      ExecConcat(s, acts, more[..|more| - 1]);
      assert (acts + more)[..|acts + more| - 1] == acts + more[..|more| - 1];
    }
  }

  lemma {:induction false} InsideSetsNothing(acts: seq<Action>, more: seq<Action>)
    requires forall i :: 0 <= i < |more| ==> Inside(more[i])
    ensures SetCount(acts + more) == SetCount(acts)
  {
    if more == [] {
      assert acts + more == acts;
    } else {
      assert (acts + more)[..|acts + more| - 1] == acts + more[..|more| - 1];
      InsideSetsNothing(acts, more[..|more| - 1]);
    }
  }

  lemma {:induction false} NobodyGoesOut(s: State, acts: seq<Action>, c: nat)
    requires !PhaseOf(s, c).Outside?
    ensures !PhaseOf(Exec(s, acts), c).Outside?
  {
    if acts != [] {
      NobodyGoesOut(s, acts[..|acts| - 1], c);
    }
  }

  /**
   From every run with enough sets the awaiters and the final setter can go on, without new arrivals,
   until everybody who has awaited the barrier has gone past it exactly once; and whatever order they
   go on in, every action that changes anything brings them nearer to that.
   */
  lemma EverybodyGoesPast(expected: nat, acts: seq<Action>, c: nat) returns (more: seq<Action>)
    requires SetCount(acts) >= expected && !PhaseOf(Exec(Init(expected), acts), c).Outside?
    ensures forall i :: 0 <= i < |more| ==> Inside(more[i])
    ensures Times(Exec(Init(expected), acts + more).proceeded, c) == 1
  {
    var s := Exec(Init(expected), acts);
    RunKeepsInv(expected, acts);
    more := ComesToRest(s, []);
    ExecConcat(Init(expected), acts, more);
    InsideSetsNothing(acts, more);
    NobodyGoesOut(s, more, c);
    var end := Exec(Init(expected), acts + more);
    assert Inside(Finish) && forall d: nat :: Inside(Go(d));
    NobodyIsLeft(expected, acts + more, c);
  }
}
