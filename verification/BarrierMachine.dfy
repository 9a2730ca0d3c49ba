/**
 The barrier object, updated in place. `Act` performs one action of anybody; `AwaitNow` and
 `SetNow` are the two operations run through while everybody else stands still.
 */
module BarrierMachine {
  import opened Common
  import opened Barrier

  class AsyncBarrier {
    const expected: nat
    var count: nat
    var awaiters: seq<nat>
    var mutex: Mutex
    var phases: map<nat, Phase>
    var finisher: Finisher
    ghost var proceeded: seq<nat>

    ghost function State(): State
      reads this
    {
      Barrier.State.State(expected, count, awaiters, mutex, phases, finisher, proceeded)
    }

    constructor (expected: nat)
      ensures State() == Init(expected) && Inv(State())
    {
      this.expected := expected;
      count, awaiters, mutex, phases, finisher, proceeded := 0, [], Free, map[], NotYet, [];
    }

    method Proceed(c: nat)
      modifies this`phases, this`proceeded
      ensures State() == Barrier.Proceed(old(State()), c)
    {
      phases := phases[c := Proceeded];
      proceeded := proceeded + [c];
    }

    /** `await_ready`. */
    method AwaitReady(c: nat) returns (ready: bool)
      requires Inv(State()) && PhaseOf(State(), c).Outside?
      modifies this
      ensures Inv(State()) && State() == Step(old(State()), Await(c))
      ensures ready <==> count >= expected
    {
      StepKeepsInv(State(), Await(c));
      ready := count >= expected;
      if ready {
        Proceed(c);
      } else {
        phases := phases[c := Entering];
      }
    }

    /** One action of `await_suspend`. */
    method SuspendStep(c: nat)
      requires Inv(State())
      modifies this
      ensures Inv(State()) && State() == GoStep(old(State()), c)
    {
      GoKeepsInv(State(), c);
      match if c in phases then phases[c] else Outside {
        case Entering => if mutex.Free? { phases, mutex := phases[c := Locked], ByAwaiter(c); }
        case Locked => phases := phases[c := if count >= expected then Admitted else Denied];
        case Admitted => phases, mutex := phases[c := Resuming], Free;
        case Denied => phases, awaiters := phases[c := Pushed], awaiters + [c];
        case Pushed => phases, mutex := phases[c := Suspended], Free;
        case Resuming => Proceed(c);
        case _ =>
      }
    }

    /** The increment in `set`. */
    method Increment() returns (last: bool)
      requires Inv(State())
      modifies this
      ensures Inv(State()) && State() == Step(old(State()), Set)
      ensures last <==> count == expected
    {
      StepKeepsInv(State(), Set);
      count := count + 1;
      last := count == expected;
      if last {
        finisher := Reached;
      }
    }

    /** One action of the rest of `set`, for the call that reached the expected count. */
    method FinishStep()
      requires Inv(State())
      modifies this
      ensures Inv(State()) && State() == Barrier.FinishStep(old(State()))
    {
      FinishKeepsInv(State());
      match finisher {
        case NotYet =>
        case Reached => if mutex.Free? { finisher, mutex := Holding, BySetter; }
        case Holding => finisher, awaiters := Swapped(awaiters), [];
        case Swapped(handles) => finisher, mutex := Handing(handles), Free;
        case Handing(handles) =>
          if handles != [] {
            Proceed(handles[0]);
            finisher := Handing(handles[1..]);
          }
      }
    }

    method Act(a: Action)
      requires Inv(State())
      modifies this
      ensures Inv(State()) && State() == Step(old(State()), a)
    {
      match a {
        case Await(c) => if c !in phases || phases[c].Outside? { var ready := AwaitReady(c); }
        case Go(c) => SuspendStep(c);
        case Set => var last := Increment();
        case Finish => FinishStep();
      }
    }

    /** Any interleaving of any number of awaiters and setters. */
    method RunAll(acts: seq<Action>)
      requires State() == Init(expected)
      modifies this
      ensures Inv(State()) && State() == Exec(Init(expected), acts)
    {
      for i := 0 to |acts|
        invariant Inv(State()) && State() == Exec(Init(expected), acts[..i])
      {
        assert acts[..i + 1][..i] == acts[..i];
        Act(acts[i]);
      }
      assert acts[..|acts|] == acts;
    }

    /** The last `set` resumes everybody on the list, in the order they came; any other only counts. */
    method SetNow()
      requires Inv(State()) && mutex.Free?
      modifies this
      ensures Inv(State()) && count == old(count) + 1 && mutex.Free?
      ensures if count == expected then awaiters == [] && proceeded == old(proceeded) + old(awaiters)
              else awaiters == old(awaiters) && proceeded == old(proceeded)
    {
      var last := Increment();
      if last {
        TakeList();
        ResumeAll();
      }
    }

    /** Locks, swaps the list out, and unlocks. */
    method TakeList()
      requires Inv(State()) && mutex.Free? && finisher.Reached?
      modifies this
      ensures Inv(State()) && finisher == Handing(old(awaiters)) && awaiters == [] && mutex.Free?
      ensures count == old(count) && proceeded == old(proceeded)
    {
      FinishStep();
      FinishStep();
      FinishStep();
    }

    /** The loop over the handles taken out. */
    method ResumeAll()
      requires Inv(State()) && finisher.Handing?
      modifies this
      ensures Inv(State()) && proceeded == old(proceeded) + old(finisher.handles)
      ensures count == old(count) && awaiters == old(awaiters) && mutex == old(mutex)
    {
      while finisher.handles != []
        invariant Inv(State()) && finisher.Handing?
        invariant count == old(count) && awaiters == old(awaiters) && mutex == old(mutex)
        invariant proceeded + finisher.handles == old(proceeded) + old(finisher.handles)
        decreases |finisher.handles|
      {
        FinishStep();
      }
    }

    /** An awaiter goes on at once if enough sets have happened, and is put on the list otherwise. */
    method AwaitNow(c: nat)
      requires Inv(State()) && PhaseOf(State(), c).Outside? && mutex.Free?
      modifies this
      ensures Inv(State()) && mutex.Free? && count == old(count)
      ensures if count >= expected then awaiters == old(awaiters) && proceeded == old(proceeded) + [c]
              else awaiters == old(awaiters) + [c] && proceeded == old(proceeded)
    {
      var ready := AwaitReady(c);
      if !ready {
        SuspendNow(c);
      }
    }

    /**
     `await_suspend`, possibly long after `await_ready`: if enough sets have happened meanwhile the
     awaiter goes on after all, otherwise it is put on the list.
     */
    method SuspendNow(c: nat)
      requires Inv(State()) && PhaseOf(State(), c).Entering? && mutex.Free?
      modifies this
      ensures Inv(State()) && mutex.Free? && count == old(count)
      ensures if count >= expected then awaiters == old(awaiters) && proceeded == old(proceeded) + [c]
              else awaiters == old(awaiters) + [c] && proceeded == old(proceeded)
    {
      for i := 0 to 4
        invariant Inv(State()) && count == old(count)
        invariant i == 0 ==> PhaseOf(State(), c).Entering? && mutex.Free?
        invariant i == 1 ==> PhaseOf(State(), c).Locked?
        invariant i == 2 ==> PhaseOf(State(), c) == if count >= expected then Admitted else Denied
        invariant i == 3 ==> PhaseOf(State(), c) == if count >= expected then Resuming else Pushed
        invariant (i == 3 && count >= expected) || i == 4 ==> mutex.Free?
        invariant awaiters == old(awaiters) + if i >= 3 && count < expected then [c] else []
        invariant proceeded == old(proceeded) + if i == 4 && count >= expected then [c] else []
      {
        SuspendStep(c);
      }
    }
  }
}
