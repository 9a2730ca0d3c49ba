/**
 The completion handshake of a task: the coroutine that ends, and the coroutines and threads that
 wait for its result. Every exchange, CAS, load and store is one step; the store of `m_ready` and
 the notification after it are one, since whoever sees the flag may destroy the frame.
 */
module Handshake {
  import opened Common

  datatype Awaiting = Null | Sentinel | Handle(awaiter: nat)

  /** What the body of the coroutine ended with. */
  datatype Outcome<T> = Value(value: T) | Exception(code: nat)

  /** `Suspended` is at the final suspension point: `done()` holds, nothing is signalled yet. */
  datatype Producer<T> =
    | Running
    | Stored
    | Suspended
    | Exchanged(next: Option<nat>)
    | Signalled(next: Option<nat>)
    | Gone

  /** How a waiter got past its wait. */
  datatype Path = WasReady | LostRace | WasResumed | Direct

  /** `Touched` is a waiter that used the frame after it was destroyed. */
  datatype Waiter<T> =
    | Outside
    | AskingHandle
    | AskingDone
    | AskingReady
    | Suspending
    | Registering
    | Parked
    | Resuming
    | Reading
    | Closing(result: Outcome<T>)
    | Destroying(result: Outcome<T>)
    | Nulling(result: Outcome<T>)
    | Finished(result: Outcome<T>)
    | Rejected
    | Invalid
    | Touched(passed: bool)

  /** `passed` lists who got past its wait, in order; `destroyed` counts destructions of the frame. */
  datatype Task<T> = Task(ready: bool, awaiting: Awaiting, data: Option<Outcome<T>>, producer: Producer<T>,
                          hasHandle: bool, destroyed: nat, waiters: map<nat, Waiter<T>>,
                          passed: seq<(nat, Path)>)

  datatype Action<T> =
    | End(outcome: Outcome<T>)
    | Produce
    | Await(id: nat)
    | Get(id: nat)
    | Go(id: nat)

  function Init<T>(): Task<T> {
    Task(false, Null, None, Running, true, 0, map[], [])
  }

  function WaiterOf<T>(s: Task<T>, c: nat): Waiter<T> {
    if c in s.waiters then s.waiters[c] else Outside
  }

  function SetWaiter<T>(s: Task<T>, c: nat, x: Waiter<T>): Task<T> {
    s.(waiters := s.waiters[c := x])
  }

  function Pass<T>(s: Task<T>, c: nat, path: Path): Task<T> {
    SetWaiter(s, c, Resuming).(passed := s.passed + [(c, path)])
  }

  predicate Done<T>(s: Task<T>) {
    !s.producer.Running? && !s.producer.Stored?
  }

  function ProduceStep<T>(s: Task<T>): Task<T> {
    match s.producer
    case Running => s
    case Stored => s.(producer := Suspended)
    case Suspended =>
      s.(awaiting := Sentinel, producer := Exchanged(if s.awaiting.Handle? then Some(s.awaiting.awaiter) else None))
    case Exchanged(next) => s.(ready := true, producer := Signalled(next))
    case Signalled(next) =>
      if next.Some? then Pass(s, next.value, WasResumed).(producer := Gone) else s.(producer := Gone)
    case Gone => s
  }

  /** The next step of a waiter. A frame that is destroyed must not be used any more. */
  function WaitStep<T>(s: Task<T>, c: nat): (s': Task<T>)
    ensures s' == s.(waiters := s'.waiters, awaiting := s'.awaiting, hasHandle := s'.hasHandle,
                     destroyed := s'.destroyed, passed := s'.passed)
    ensures s' == s || s'.waiters == s.waiters[c := WaiterOf(s', c)]
  {
    match WaiterOf(s, c)
    case AskingHandle => if s.hasHandle then SetWaiter(s, c, AskingDone) else Pass(s, c, WasReady)
    case AskingDone =>
      if s.destroyed > 0 then SetWaiter(s, c, Touched(false))
      else if Done(s) then Pass(s, c, WasReady)
      else SetWaiter(s, c, AskingReady)
    case AskingReady =>
      if s.destroyed > 0 then SetWaiter(s, c, Touched(false))
      else if s.ready then Pass(s, c, WasReady)
      else SetWaiter(s, c, Suspending)
    case Suspending => SetWaiter(s, c, if s.hasHandle then Registering else Invalid)
    case Registering =>
      if s.destroyed > 0 then SetWaiter(s, c, Touched(false))
      else if s.awaiting.Null? then SetWaiter(s, c, Parked).(awaiting := Handle(c))
      else if s.awaiting.Sentinel? then Pass(s, c, LostRace)
      else SetWaiter(s, c, Rejected)
    case Resuming =>
      if s.destroyed > 0 then SetWaiter(s, c, Touched(true))
      else if s.ready then SetWaiter(s, c, Reading)
      else s
    case Reading =>
      if s.destroyed > 0 || s.data.None? then SetWaiter(s, c, Touched(true)) else SetWaiter(s, c, Closing(s.data.value))
    case Closing(result) => SetWaiter(s, c, if s.hasHandle then Destroying(result) else Finished(result))
    case Destroying(result) =>
      if s.hasHandle then SetWaiter(s, c, Nulling(result)).(destroyed := s.destroyed + 1)
      else SetWaiter(s, c, Touched(true))
    case Nulling(result) => SetWaiter(s, c, Finished(result)).(hasHandle := false)
    case _ => s
  }

  function Step<T>(s: Task<T>, a: Action<T>): Task<T> {
    match a
    case End(outcome) => if s.producer.Running? then s.(data := Some(outcome), producer := Stored) else s
    case Produce => ProduceStep(s)
    case Await(c) => if WaiterOf(s, c).Outside? then SetWaiter(s, c, AskingHandle) else s
    case Get(c) =>
      if !WaiterOf(s, c).Outside? then s
      else if !s.hasHandle then SetWaiter(s, c, Invalid)
      else Pass(s, c, Direct)
    case Go(c) => WaitStep(s, c)
  }

  function Exec<T>(s: Task<T>, acts: seq<Action<T>>): Task<T> {
    if acts == [] then s else Step(Exec(s, acts[..|acts| - 1]), acts[|acts| - 1])
  }

  // ----- The invariant -----

  predicate Past<T>(x: Waiter<T>) {
    || x.Resuming? || x.Reading? || x.Closing? || x.Destroying? || x.Nulling? || x.Finished?
    || (x.Touched? && x.passed)
  }

  predicate Signalling<T>(p: Producer<T>) {
    p.Exchanged? || p.Signalled? || p.Gone?
  }

  function NextOf<T>(p: Producer<T>): Option<nat> {
    if p.Exchanged? || p.Signalled? then p.next else None
  }

  predicate ProducerFits<T>(s: Task<T>) {
    && (s.ready <==> s.producer.Signalled? || s.producer.Gone?)
    && (s.data.None? <==> s.producer.Running?)
    && (s.awaiting.Sentinel? <==> Signalling(s.producer))
    && (s.destroyed > 0 ==> s.ready)
    && (!s.hasHandle ==> s.destroyed > 0)
  }

  /** Whoever is parked is the one registered, or the one the producer took out to resume. */
  ghost predicate ParkedFits<T>(s: Task<T>) {
    forall c: nat :: WaiterOf(s, c).Parked? <==> s.awaiting == Handle(c) || NextOf(s.producer) == Some(c)
  }

  ghost predicate WaiterFits<T>(s: Task<T>, x: Waiter<T>) {
    match x
    case Reading => s.ready
    case Closing(result) => s.ready && s.data == Some(result)
    case Destroying(result) => s.ready && s.data == Some(result)
    case Nulling(result) => s.ready && s.data == Some(result) && s.destroyed > 0
    case Finished(result) => s.ready && s.data == Some(result) && s.destroyed > 0
    case _ => true
  }

  ghost predicate Inv<T>(s: Task<T>) {
    && ProducerFits(s)
    && ParkedFits(s)
    && (forall c: nat :: WaiterFits(s, WaiterOf(s, c)))
  }

  lemma InitInv<T>()
    ensures Inv(Init<T>())
  {
  }

  lemma WaitKeepsInv<T>(s: Task<T>, c: nat)
    requires Inv(s)
    ensures Inv(WaitStep(s, c))
  {
    var s' := WaitStep(s, c);
    assert WaiterFits(s, WaiterOf(s, c)) && WaiterFits(s', WaiterOf(s', c));
    forall d: nat ensures WaiterFits(s', WaiterOf(s', d)) {
      assert WaiterFits(s, WaiterOf(s, d));
    }
    forall d: nat ensures WaiterOf(s', d).Parked? <==> s'.awaiting == Handle(d) || NextOf(s'.producer) == Some(d) {
      assert WaiterOf(s, d).Parked? <==> s.awaiting == Handle(d) || NextOf(s.producer) == Some(d);
    }
  }

  lemma StepKeepsInv<T>(s: Task<T>, a: Action<T>)
    requires Inv(s)
    ensures Inv(Step(s, a))
  {
    if a.Go? {
      WaitKeepsInv(s, a.id);
    } else {
      var s' := Step(s, a);
      forall d: nat ensures WaiterFits(s', WaiterOf(s', d)) {
        assert WaiterFits(s, WaiterOf(s, d));
      }
      forall d: nat ensures WaiterOf(s', d).Parked? <==> s'.awaiting == Handle(d) || NextOf(s'.producer) == Some(d) {
        assert WaiterOf(s, d).Parked? <==> s.awaiting == Handle(d) || NextOf(s.producer) == Some(d);
      }
    }
  }

  lemma {:induction false} RunKeepsInv<T>(acts: seq<Action<T>>)
    ensures Inv(Exec(Init<T>(), acts))
  {
    InitInv<T>();
    if acts != [] {
      RunKeepsInv(acts[..|acts| - 1]);
      StepKeepsInv(Exec(Init<T>(), acts[..|acts| - 1]), acts[|acts| - 1]);
    }
  }

  // ----- Everybody gets past its wait exactly once, with the stored result -----

  function TimesPassed(passed: seq<(nat, Path)>, c: nat): nat {
    if passed == [] then 0 else TimesPassed(passed[..|passed| - 1], c) + if passed[|passed| - 1].0 == c then 1 else 0
  }

  ghost predicate PassedOnce<T>(s: Task<T>, c: nat) {
    TimesPassed(s.passed, c) == if Past(WaiterOf(s, c)) then 1 else 0
  }

  /** The waiter that a step lets past its wait, if any. */
  function Passer<T>(s: Task<T>, a: Action<T>): Option<nat> {
    match a
    case Produce => if s.producer.Signalled? then s.producer.next else None
    case Get(c) => if WaiterOf(s, c).Outside? && s.hasHandle then Some(c) else None
    case Go(c) => if !Past(WaiterOf(s, c)) && Past(WaiterOf(WaitStep(s, c), c)) then Some(c) else None
    case _ => None
  }

  function PathOf<T>(s: Task<T>, a: Action<T>): Path {
    match a
    case Get(_) => Direct
    case Go(c) => if WaiterOf(s, c).Registering? then LostRace else WasReady
    case _ => WasResumed
  }

  ghost predicate PassesBy<T>(s: Task<T>, s': Task<T>, who: Option<nat>, path: Path) {
    s'.passed == if who.Some? then s.passed + [(who.value, path)] else s.passed
  }

  lemma WaitPasses<T>(s: Task<T>, d: nat, c: nat)
    ensures PassesBy(s, WaitStep(s, d), Passer(s, Go(d)), PathOf(s, Go(d)))
    ensures Past(WaiterOf(WaitStep(s, d), c)) <==> Past(WaiterOf(s, c)) || Passer(s, Go(d)) == Some(c)
  {
  }

  lemma StepPasses<T>(s: Task<T>, a: Action<T>, c: nat)
    requires ParkedFits(s)
    ensures PassesBy(s, Step(s, a), Passer(s, a), PathOf(s, a))
    ensures Past(WaiterOf(Step(s, a), c)) <==> Past(WaiterOf(s, c)) || Passer(s, a) == Some(c)
    ensures Passer(s, a) == Some(c) ==> !Past(WaiterOf(s, c))
  {
    assert WaiterOf(s, c).Parked? <==> s.awaiting == Handle(c) || NextOf(s.producer) == Some(c);
    if a.Go? {
      WaitPasses(s, a.id, c);
    }
  }

  lemma StepPassesOnce<T>(s: Task<T>, a: Action<T>, c: nat)
    requires ParkedFits(s) && PassedOnce(s, c)
    ensures PassedOnce(Step(s, a), c)
  {
    StepPasses(s, a, c);
    assert Passer(s, a).Some? ==> Step(s, a).passed[..|s.passed|] == s.passed;
  }

  /** What the body ended with: the first end counts, there is no second. */
  function EndOf<T>(acts: seq<Action<T>>): Option<Outcome<T>> {
    if acts == [] then None
    else if EndOf(acts[..|acts| - 1]).Some? then EndOf(acts[..|acts| - 1])
    else if acts[|acts| - 1].End? then Some(acts[|acts| - 1].outcome)
    else None
  }

  lemma {:induction false} RunHandsOver<T>(acts: seq<Action<T>>, c: nat)
    ensures Exec(Init<T>(), acts).data == EndOf(acts) && PassedOnce(Exec(Init<T>(), acts), c)
  {
    if acts != [] {
      var prefix := acts[..|acts| - 1];
      RunHandsOver(prefix, c);
      RunKeepsInv(prefix);
      StepPassesOnce(Exec(Init<T>(), prefix), acts[|acts| - 1], c);
    }
  }

  /**
   The handshake, for any number of waiters in any interleaving. Each gets past its wait at most
   once, by one of the four paths; what it returns is what the body ended with; the frame is
   destroyed only after the producer's last access to it; and when the producer is through,
   nobody is left suspended.
   */
  lemma HandsOverOnce<T>(acts: seq<Action<T>>, c: nat)
    ensures var s := Exec(Init<T>(), acts); var x := WaiterOf(s, c);
            && TimesPassed(s.passed, c) == (if Past(x) then 1 else 0)
            && (x.Closing? || x.Destroying? || x.Nulling? || x.Finished? ==> EndOf(acts) == Some(x.result))
            && (s.destroyed > 0 ==> s.ready && (s.producer.Signalled? || s.producer.Gone?))
            && (s.producer.Gone? ==> !x.Parked?)
  {
    RunHandsOver(acts, c);
    RunKeepsInv(acts);
    var s := Exec(Init<T>(), acts);
    assert WaiterFits(s, WaiterOf(s, c));
    assert WaiterOf(s, c).Parked? <==> s.awaiting == Handle(c) || NextOf(s.producer) == Some(c);
  }

  /** A suspended waiter is displaced by nobody: it stays until the producer resumes it. */
  lemma ParkedUntilResumed<T>(acts: seq<Action<T>>, a: Action<T>, c: nat)
    requires WaiterOf(Exec(Init<T>(), acts), c).Parked?
    ensures var s := Exec(Init<T>(), acts); var s' := Step(s, a);
            WaiterOf(s', c).Parked? ||
            (a == Produce && WaiterOf(s', c).Resuming? && s'.passed == s.passed + [(c, WasResumed)])
  {
    RunKeepsInv(acts);
    var s := Exec(Init<T>(), acts);
    assert WaiterOf(s, c).Parked? <==> s.awaiting == Handle(c) || NextOf(s.producer) == Some(c);
  }

  /** A second waiter that tries to register while `c` is registered is rejected and changes nothing else. */
  lemma SecondIsRejected<T>(acts: seq<Action<T>>, c: nat, d: nat)
    requires Exec(Init<T>(), acts).awaiting == Handle(c) && WaiterOf(Exec(Init<T>(), acts), d).Registering?
    ensures var s := Exec(Init<T>(), acts);
            Step(s, Go(d)) == SetWaiter(s, d, Rejected) && c != d && WaiterOf(Step(s, Go(d)), c).Parked?
  {
    RunKeepsInv(acts);
    var s := Exec(Init<T>(), acts);
    assert WaiterOf(s, c).Parked? <==> s.awaiting == Handle(c) || NextOf(s.producer) == Some(c);
  }

  // ----- Waiters that come late -----

  /** A waiter that will see that the coroutine has ended, by the load it is about to do. */
  predicate WillSee<T>(s: Task<T>, x: Waiter<T>) {
    || ((x.Outside? || x.AskingHandle? || x.AskingDone?) && Done(s))
    || (x.AskingReady? && s.ready)
  }

  predicate Unsuspended<T>(x: Waiter<T>) {
    Past(x) || x.Touched? || x.Invalid?
  }

  lemma StepLateComer<T>(s: Task<T>, a: Action<T>, c: nat)
    requires Inv(s) && (WillSee(s, WaiterOf(s, c)) || Unsuspended(WaiterOf(s, c)))
    ensures WillSee(Step(s, a), WaiterOf(Step(s, a), c)) || Unsuspended(WaiterOf(Step(s, a), c))
    ensures a == Go(c) && WaiterOf(s, c).AskingReady? ==> Unsuspended(WaiterOf(Step(s, a), c))
  {
    assert WaiterOf(s, c).Parked? <==> s.awaiting == Handle(c) || NextOf(s.producer) == Some(c);
    if a.Go? && a.id == c {
      assert s.destroyed > 0 ==> s.ready;
    }
  }

  /**
   Who looks late does not suspend: a waiter that has its look at the final suspension point, or at
   the flag, still before it when the one is reached or the other set, neither registers nor is rejected.
   */
  lemma {:induction false} LateComersGoOn<T>(s: Task<T>, more: seq<Action<T>>, c: nat)
    requires Inv(s) && WillSee(s, WaiterOf(s, c))
    ensures Inv(Exec(s, more))
    ensures WillSee(Exec(s, more), WaiterOf(Exec(s, more), c)) || Unsuspended(WaiterOf(Exec(s, more), c))
  {
    if more != [] {
      LateComersGoOn(s, more[..|more| - 1], c);
      StepKeepsInv(Exec(s, more[..|more| - 1]), more[|more| - 1]);
      StepLateComer(Exec(s, more[..|more| - 1]), more[|more| - 1], c);
    }
  }

  /** Where a waiter is after `k` of its own steps, once the handle has been cleared. */
  function Lane<T>(x: Waiter<T>, k: nat): Waiter<T> {
    if k == 0 then x else
    match x
    case AskingHandle => if k == 1 then Resuming else Touched(true)
    case Resuming => Touched(true)
    case Suspending => Invalid
    case Closing(result) => Finished(result)
    case Destroying(_) => Touched(true)
    case _ => x
  }

  function OwnSteps<T>(acts: seq<Action<T>>, c: nat): nat {
    if acts == [] then 0 else
      OwnSteps(acts[..|acts| - 1], c) + if acts[|acts| - 1] == Go(c) then 1 else 0
  }

  predicate MeetsNoHandle<T>(x: Waiter<T>) {
    x.AskingHandle? || x.Suspending? || x.Closing? || x.Destroying?
  }

  lemma StepInLane<T>(s: Task<T>, a: Action<T>, c: nat, x: Waiter<T>, k: nat)
    requires Inv(s) && !s.hasHandle && MeetsNoHandle(x) && WaiterOf(s, c) == Lane(x, k)
    ensures WaiterOf(Step(s, a), c) == Lane(x, k + if a == Go(c) then 1 else 0) && !Step(s, a).hasHandle
  {
    assert WaiterOf(s, c).Parked? <==> s.awaiting == Handle(c) || NextOf(s.producer) == Some(c);
  }

  /**
   What becomes of the waiters that meet a cleared handle, however the others go on. A second
   `co_await` goes on without one and uses the destroyed frame, which `get` refuses; a waiter about to
   register fails its check; a guard that finds the handle cleared leaves the frame alone, and one that
   has found it set before does not.
   */
  lemma {:induction false} WithoutHandle<T>(s: Task<T>, more: seq<Action<T>>, c: nat)
    requires Inv(s) && !s.hasHandle && MeetsNoHandle(WaiterOf(s, c))
    ensures Inv(Exec(s, more)) && !Exec(s, more).hasHandle
    ensures WaiterOf(Exec(s, more), c) == Lane(WaiterOf(s, c), OwnSteps(more, c))
  {
    if more != [] {
      var before, a := more[..|more| - 1], more[|more| - 1];
      WithoutHandle(s, before, c);
      StepKeepsInv(Exec(s, before), a);
      StepInLane(Exec(s, before), a, c, WaiterOf(s, c), OwnSteps(before, c));
    }
  }

  // ----- One waiter -----

  predicate ActsFor<T>(a: Action<T>, ids: set<nat>) {
    match a
    case Await(d) => d in ids
    case Get(d) => d in ids
    case Go(d) => d in ids
    case _ => true
  }

  ghost predicate AllActFor<T>(acts: seq<Action<T>>, ids: set<nat>) {
    forall i :: 0 <= i < |acts| ==> ActsFor(acts[i], ids)
  }

  ghost predicate Alone<T>(s: Task<T>, c: nat) {
    var x := WaiterOf(s, c);
    && (forall d: nat :: d != c ==> WaiterOf(s, d).Outside?)
    && s.destroyed == (if x.Nulling? || x.Finished? then 1 else 0)
    && (s.hasHandle <==> !x.Finished?)
    && !x.Touched? && !x.Rejected? && !x.Invalid?
  }

  lemma StepStaysAlone<T>(s: Task<T>, a: Action<T>, c: nat)
    requires Inv(s) && Alone(s, c) && ActsFor(a, {c})
    ensures Alone(Step(s, a), c)
  {
    assert WaiterFits(s, WaiterOf(s, c));
    assert s.awaiting.Handle? ==> WaiterOf(s, s.awaiting.awaiter).Parked?;
    assert NextOf(s.producer).Some? ==> WaiterOf(s, NextOf(s.producer).value).Parked?;
    forall d: nat | d != c ensures WaiterOf(Step(s, a), d).Outside? {
      assert WaiterOf(s, d).Outside?;
    }
  }

  lemma {:induction false} RunStaysAlone<T>(acts: seq<Action<T>>, c: nat)
    requires AllActFor(acts, {c})
    ensures Alone(Exec(Init<T>(), acts), c)
  {
    if acts != [] {
      var prefix := acts[..|acts| - 1];
      RunStaysAlone(prefix, c);
      RunKeepsInv(prefix);
      StepStaysAlone(Exec(Init<T>(), prefix), acts[|acts| - 1], c);
    }
  }

  /**
   With a single waiter nothing goes wrong: it is never rejected, never uses a destroyed frame, and
   destroys the frame at most once. And it is never left behind: when the producer is through and
   the waiter cannot move, it either never started or has returned the outcome, having got past its
   wait exactly once and destroyed the frame.
   */
  lemma OneWaiterIsServed<T>(acts: seq<Action<T>>, c: nat)
    requires AllActFor(acts, {c})
    ensures var s := Exec(Init<T>(), acts); var x := WaiterOf(s, c);
            && !x.Touched? && !x.Rejected? && !x.Invalid? && s.destroyed <= 1
            && (s.producer.Gone? && Step(s, Go(c)) == s ==>
                  || x.Outside?
                  || (x.Finished? && EndOf(acts) == Some(x.result) &&
                      TimesPassed(s.passed, c) == 1 && s.destroyed == 1))
  {
    RunStaysAlone(acts, c);
    HandsOverOnce(acts, c);
    RunKeepsInv(acts);
    var s := Exec(Init<T>(), acts);
    assert WaiterFits(s, WaiterOf(s, c));
    if s.producer.Gone? && Step(s, Go(c)) == s {
      assert WaiterOf(Step(s, Go(c)), c) == WaiterOf(s, c);
    }
  }

  // ----- Two waiters -----

  lemma ExecNext<T>(acts: seq<Action<T>>, a: Action<T>)
    ensures Exec(Init<T>(), acts + [a]) == Step(Exec(Init<T>(), acts), a)
  {
    assert (acts + [a])[..|acts|] == acts;
  }

  /** Waiters `c` and `d`, and nobody else; the coroutine has ended and signalled unless `p` says otherwise. */
  function Both<T>(c: nat, x: Waiter<T>, d: nat, y: Waiter<T>, p: Producer<T>, passed: seq<(nat, Path)>): Task<T> {
    Task(p.Signalled?, if p.Exchanged? || p.Signalled? then Sentinel else Null,
         if p.Running? then None else Some(Exception(0)),
         p, true, 0, map[c := x, d := y], passed)
  }

  /** Running through `todo`, whose effect on the states `via` is checked step by step. */
  lemma {:induction false} Passes<T>(acts: seq<Action<T>>, todo: seq<Action<T>>, via: seq<Task<T>>)
    requires |via| == |todo| + 1 && Exec(Init<T>(), acts) == via[0]
    requires forall i :: 0 <= i < |todo| ==> Step(via[i], todo[i]) == via[i + 1]
    ensures Exec(Init<T>(), acts + todo) == via[|todo|]
    decreases |todo|
  {
    if todo == [] {
      assert acts + todo == acts;
    } else {
      ExecNext(acts, todo[0]);
      Passes(acts + [todo[0]], todo[1..], via[1..]);
      assert acts + todo == acts + [todo[0]] + todo[1..];
    }
  }

  /** Both call `get`, and then the coroutine ends. */
  lemma BothGet<T>(c: nat, d: nat) returns (acts: seq<Action<T>>)
    requires c != d
    ensures AllActFor(acts, {c, d})
    ensures Exec(Init<T>(), acts) == Both(c, Resuming, d, Resuming, Signalled(None), [(c, Direct), (d, Direct)])
  {
    var got := [(c, Direct), (d, Direct)];
    acts := [Get(c), Get(d), End(Exception(0)), Produce, Produce, Produce];
    var one := Init<T>().(waiters := map[c := Resuming], passed := [(c, Direct)]);
    var via := [Init<T>(), one, Both(c, Resuming, d, Resuming, Running, got),
                Both(c, Resuming, d, Resuming, Stored, got),
                Both(c, Resuming, d, Resuming, Suspended, got), Both(c, Resuming, d, Resuming, Exchanged(None), got),
                Both(c, Resuming, d, Resuming, Signalled(None), got)];
    assert via[1] == Step(via[0], acts[0]);
    assert via[2] == Step(via[1], acts[1]);
    Passes([], acts, via);
    assert [] + acts == acts;
  }

  lemma MoveFirst<T>(c: nat, x: Waiter<T>, d: nat, y: Waiter<T>, passed: seq<(nat, Path)>)
    requires c != d && (x.Resuming? || x.Reading? || x.Closing?)
    ensures var x' := if x.Resuming? then Reading else if x.Reading? then Closing(Exception(0))
            else Destroying(x.result);
            Step(Both(c, x, d, y, Signalled(None), passed), Go(c)) == Both(c, x', d, y, Signalled(None), passed)
  {
    forall x' ensures map[c := x, d := y][c := x'] == map[c := x', d := y] {
    }
  }

  lemma SwapBoth<T>(c: nat, x: Waiter<T>, d: nat, y: Waiter<T>, passed: seq<(nat, Path)>)
    requires c != d
    ensures Both(c, x, d, y, Signalled(None), passed) == Both(d, y, c, x, Signalled(None), passed)
  {
    assert map[c := x, d := y] == map[d := y, c := x];
  }

  /** Waiter `c` reads the outcome and finds the handle set, so it is about to destroy the frame. */
  lemma ReadsAndFindsHandle<T>(acts: seq<Action<T>>, c: nat, d: nat, y: Waiter<T>, passed: seq<(nat, Path)>)
    requires c != d && Exec(Init<T>(), acts) == Both(c, Resuming, d, y, Signalled(None), passed)
    ensures Exec(Init<T>(), acts + [Go(c), Go(c), Go(c)]) ==
            Both(c, Destroying(Exception(0)), d, y, Signalled(None), passed)
  {
    var via := [Both(c, Resuming, d, y, Signalled(None), passed), Both(c, Reading, d, y, Signalled(None), passed),
                Both(c, Closing(Exception(0)), d, y, Signalled(None), passed),
                Both(c, Destroying(Exception(0)), d, y, Signalled(None), passed)];
    MoveFirst<T>(c, Resuming, d, y, passed);
    MoveFirst<T>(c, Reading, d, y, passed);
    MoveFirst<T>(c, Closing(Exception(0)), d, y, passed);
    Passes(acts, [Go(c), Go(c), Go(c)], via);
  }

  /** Two waiters can destroy the frame twice: both find the handle set before either clears it. */
  lemma TwoWaitersDestroyTwice<T>(c: nat, d: nat) returns (acts: seq<Action<T>>)
    requires c != d
    ensures AllActFor(acts, {c, d}) && Exec(Init<T>(), acts).destroyed == 2
  {
    acts := BothGet(c, d);
    var got := [(c, Direct), (d, Direct)];
    ReadsAndFindsHandle(acts, c, d, Resuming, got);
    acts := acts + [Go(c), Go(c), Go(c)];
    SwapBoth<T>(c, Destroying(Exception(0)), d, Resuming, got);
    ReadsAndFindsHandle(acts, d, c, Destroying(Exception(0)), got);
    acts := acts + [Go(d), Go(d), Go(d)];
    ExecNext(acts, Go(c));
    ExecNext(acts + [Go(c)], Go(d));
    acts := acts + [Go(c)] + [Go(d)];
  }

  /** A second waiter can use the frame after the first destroyed it. */
  lemma TwoWaitersTouch<T>(c: nat, d: nat) returns (acts: seq<Action<T>>)
    requires c != d
    ensures AllActFor(acts, {c, d}) && WaiterOf(Exec(Init<T>(), acts), d).Touched?
  {
    acts := BothGet(c, d);
    ReadsAndFindsHandle(acts, c, d, Resuming, [(c, Direct), (d, Direct)]);
    acts := acts + [Go(c), Go(c), Go(c)];
    ExecNext(acts, Go(c));
    ExecNext(acts + [Go(c)], Go(d));
    acts := acts + [Go(c)] + [Go(d)];
  }

  /** In every run in which only the waiters `ids` use the coroutine, its frame is destroyed at most once. */
  ghost predicate AlwaysDestroyedOnce<T(!new)>(ids: set<nat>) {
    forall acts: seq<Action<T>> :: AllActFor(acts, ids) ==> Exec(Init<T>(), acts).destroyed <= 1
  }

  /** And nobody uses it afterwards. */
  ghost predicate NeverTouched<T(!new)>(ids: set<nat>) {
    forall acts: seq<Action<T>>, c: nat :: AllActFor(acts, ids) ==> !WaiterOf(Exec(Init<T>(), acts), c).Touched?
  }

  lemma OneIsSafe<T(!new)>(ids: set<nat>, c: nat)
    requires ids <= {c}
    ensures AlwaysDestroyedOnce<T>(ids) && NeverTouched<T>(ids)
  {
    forall acts: seq<Action<T>> | AllActFor(acts, ids)
      ensures Exec(Init<T>(), acts).destroyed <= 1 && forall d: nat :: !WaiterOf(Exec(Init<T>(), acts), d).Touched?
    {
      assert AllActFor(acts, {c});
      RunStaysAlone(acts, c);
    }
  }

  lemma TwoAreNot<T(!new)>(ids: set<nat>, c: nat, d: nat)
    requires c in ids && d in ids && c != d
    ensures !AlwaysDestroyedOnce<T>(ids) && !NeverTouched<T>(ids)
  {
    var twice: seq<Action<T>> := TwoWaitersDestroyTwice(c, d);
    var touch: seq<Action<T>> := TwoWaitersTouch(c, d);
    assert AllActFor(twice, ids) && AllActFor(touch, ids);
  }

  /** Both hold exactly when there is at most one waiter. */
  lemma SafeForOneWaiter<T(!new)>(ids: set<nat>)
    ensures AlwaysDestroyedOnce<T>(ids) <==> |ids| <= 1
    ensures NeverTouched<T>(ids) <==> |ids| <= 1
  {
    if ids == {} {
      OneIsSafe<T>(ids, 0);
    } else {
      var c :| c in ids;
      assert ids == (ids - {c}) + {c};
      if ids - {c} == {} {
        OneIsSafe<T>(ids, c);
      } else {
        var d :| d in ids - {c};
        assert {c, d} <= ids;
        TwoAreNot<T>(ids, c, d);
      }
    }
  }
}
