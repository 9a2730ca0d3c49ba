/** The coroutine frame with its promise, and the handle that owns it, updated in place. */
module HandshakeMachine {
  import opened Common
  import opened Handshake

  class TaskFrame<T> {
    var ready: bool
    var awaiting: Awaiting
    var data: Option<Outcome<T>>
    var producer: Producer<T>
    var hasHandle: bool
    var destroyed: nat
    var waiters: map<nat, Waiter<T>>
    ghost var passed: seq<(nat, Path)>

    ghost function State(): Task<T>
      reads this
    {
      Task(ready, awaiting, data, producer, hasHandle, destroyed, waiters, passed)
    }

    constructor ()
      ensures State() == Init() && Inv(State())
    {
      ready, awaiting, data, producer := false, Null, None, Running;
      hasHandle, destroyed, waiters, passed := true, 0, map[], [];
    }

    /** `set_value` or `set_exception`, when the body ends. */
    method Store(outcome: Outcome<T>)
      requires producer.Running?
      modifies this
      ensures State() == Step(old(State()), End(outcome))
    {
      data := Some(outcome);
      producer := Stored;
    }

    /** The final awaiter: the exchange, then the flag with its notification, then the transfer. */
    method FinalAwait()
      modifies this
      ensures State() == ProduceStep(old(State()))
    {
      match producer {
        case Stored => producer := Suspended;
        case Suspended =>
          var prev := awaiting;
          awaiting := Sentinel;
          producer := Exchanged(if prev.Handle? then Some(prev.awaiter) else None);
        case Exchanged(next) =>
          ready := true;
          producer := Signalled(next);
        case Signalled(next) =>
          if next.Some? {
            Continue(next.value, WasResumed);
          }
          producer := Gone;
        case _ =>
      }
    }

    method Continue(c: nat, ghost path: Path)
      modifies this`waiters, this`passed
      ensures State() == Pass(old(State()), c, path)
    {
      waiters := waiters[c := Resuming];
      passed := passed + [(c, path)];
    }

    method Move(c: nat, x: Waiter<T>)
      modifies this`waiters
      ensures State() == SetWaiter(old(State()), c, x)
    {
      waiters := waiters[c := x];
    }

    /** `await_ready`, one of its loads at a time. */
    method AwaitReady(c: nat)
      requires c in waiters && (waiters[c].AskingHandle? || waiters[c].AskingDone? || waiters[c].AskingReady?)
      modifies this`waiters, this`passed
      ensures State() == WaitStep(old(State()), c)
    {
      if waiters[c].AskingHandle? {
        if hasHandle {
          Move(c, AskingDone);
        } else {
          Continue(c, WasReady);
        }
      } else if destroyed > 0 {
        Move(c, Touched(false));
      } else if waiters[c].AskingDone? {
        if producer.Running? || producer.Stored? {
          Move(c, AskingReady);
        } else {
          Continue(c, WasReady);
        }
      } else if ready {
        Continue(c, WasReady);
      } else {
        Move(c, Suspending);
      }
    }

    /** `await_suspend`: the check of the handle, then the CAS. */
    method AwaitSuspend(c: nat)
      requires c in waiters && (waiters[c].Suspending? || waiters[c].Registering?)
      modifies this`waiters, this`passed, this`awaiting
      ensures State() == WaitStep(old(State()), c)
    {
      if waiters[c].Suspending? {
        Move(c, if hasHandle then Registering else Invalid);
      } else if destroyed > 0 {
        Move(c, Touched(false));
      } else {
        var expected := awaiting;
        if expected.Null? {
          awaiting := Handle(c);
          Move(c, Parked);
        } else if expected.Sentinel? {
          Continue(c, LostRace);
        } else {
          Move(c, Rejected);
        }
      }
    }

    /** `await_resume` and `get`: wait for the flag, read the outcome, destroy the frame, clear the handle. */
    method AwaitResume(c: nat)
      requires c in waiters
      requires var x := waiters[c]; x.Resuming? || x.Reading? || x.Closing? || x.Destroying? || x.Nulling?
      modifies this`waiters, this`hasHandle, this`destroyed
      ensures State() == WaitStep(old(State()), c)
    {
      match waiters[c] {
        case Resuming =>
          if destroyed > 0 {
            Move(c, Touched(true));
          } else if ready {
            Move(c, Reading);
          }
        case Reading => Move(c, if destroyed > 0 || data.None? then Touched(true) else Closing(data.value));
        case Closing(result) => Move(c, if hasHandle then Destroying(result) else Finished(result));
        case Destroying(result) =>
          if hasHandle {
            destroyed := destroyed + 1;
            Move(c, Nulling(result));
          } else {
            Move(c, Touched(true));
          }
        case Nulling(result) =>
          hasHandle := false;
          Move(c, Finished(result));
      }
    }

    method Act(a: Action<T>)
      requires Inv(State())
      modifies this
      ensures Inv(State()) && State() == Step(old(State()), a)
    {
      StepKeepsInv(State(), a);
      match a {
        case End(outcome) => if producer.Running? { Store(outcome); }
        case Produce => FinalAwait();
        case Await(c) => if c !in waiters || waiters[c].Outside? { Move(c, AskingHandle); }
        case Get(c) =>
          if c !in waiters || waiters[c].Outside? {
            if hasHandle {
              Continue(c, Direct);
            } else {
              Move(c, Invalid);
            }
          }
        case Go(c) =>
          if c in waiters {
            var x := waiters[c];
            if x.AskingHandle? || x.AskingDone? || x.AskingReady? {
              AwaitReady(c);
            } else if x.Suspending? || x.Registering? {
              AwaitSuspend(c);
            } else if x.Resuming? || x.Reading? || x.Closing? || x.Destroying? || x.Nulling? {
              AwaitResume(c);
            }
          }
      }
    }

    // ----- Whole operations, while everybody else stands still -----

    /** The body ends: whoever is registered is resumed, nobody else moves. */
    method EndNow(outcome: Outcome<T>)
      requires Inv(State()) && producer.Running?
      modifies this
      ensures Inv(State()) && ready && producer.Gone? && data == Some(outcome)
      ensures hasHandle == old(hasHandle) && destroyed == old(destroyed)
      ensures waiters == if old(awaiting).Handle? then old(waiters)[old(awaiting).awaiter := Resuming] else old(waiters)
      ensures passed == old(passed) + if old(awaiting).Handle? then [(old(awaiting).awaiter, WasResumed)] else []
    {
      StepKeepsInv(State(), End(outcome));
      Store(outcome);
      FinishEnd();
    }

    /** The final awaiter, after the outcome has been stored. */
    method FinishEnd()
      requires Inv(State()) && producer.Stored?
      modifies this
      ensures Inv(State()) && ready && producer.Gone? && data == old(data)
      ensures hasHandle == old(hasHandle) && destroyed == old(destroyed)
      ensures waiters == if old(awaiting).Handle? then old(waiters)[old(awaiting).awaiter := Resuming] else old(waiters)
      ensures passed == old(passed) + if old(awaiting).Handle? then [(old(awaiting).awaiter, WasResumed)] else []
    {
      for i := 0 to 4
        invariant Inv(State()) && data == old(data) && hasHandle == old(hasHandle) && destroyed == old(destroyed)
        invariant i == 0 ==> producer.Stored? && awaiting == old(awaiting)
        invariant i == 1 ==> producer.Suspended? && awaiting == old(awaiting)
        invariant i == 2 ==> producer.Exchanged?
        invariant i == 3 ==> producer.Signalled? && ready
        invariant i == 4 ==> producer.Gone? && ready
        invariant i == 2 || i == 3 ==>
                    producer.next == if old(awaiting).Handle? then Some(old(awaiting).awaiter) else None
        invariant i < 4 ==> waiters == old(waiters) && passed == old(passed)
        invariant i == 4 ==>
                    waiters == if old(awaiting).Handle? then old(waiters)[old(awaiting).awaiter := Resuming]
                               else old(waiters)
        invariant i == 4 ==>
                    passed == old(passed) + if old(awaiting).Handle? then [(old(awaiting).awaiter, WasResumed)] else []
      {
        StepKeepsInv(State(), Produce);
        FinalAwait();
      }
    }

    /** `await_ready`. */
    method AwaitReadyNow(c: nat) returns (goesOn: bool)
      requires Inv(State()) && WaiterOf(State(), c).Outside? && hasHandle && destroyed == 0
      modifies this`waiters, this`passed, this`awaiting
      ensures Inv(State()) && (goesOn <==> old(Done(State()))) && awaiting == old(awaiting)
      ensures waiters == old(waiters)[c := if goesOn then Resuming else Suspending]
      ensures passed == old(passed) + if goesOn then [(c, WasReady)] else []
    {
      StepKeepsInv(State(), Await(c));
      Move(c, AskingHandle);
      Ask(c);
      Ask(c);
      goesOn := waiters[c].Resuming?;
      if !goesOn {
        Ask(c);
      }
    }

    /** `await_suspend`. */
    method AwaitSuspendNow(c: nat)
      requires Inv(State()) && c in waiters && waiters[c].Suspending? && hasHandle && destroyed == 0
      requires !awaiting.Sentinel?
      modifies this`waiters, this`passed, this`awaiting
      ensures Inv(State()) && passed == old(passed)
      ensures waiters == old(waiters)[c := if old(awaiting).Null? then Parked else Rejected]
      ensures awaiting == if old(awaiting).Null? then Handle(c) else old(awaiting)
    {
      Ask(c);
      Ask(c);
    }

    /** Both in turn: suspends exactly when nothing is to be had yet and nobody is registered. */
    method CoAwaitNow(c: nat)
      requires Inv(State()) && WaiterOf(State(), c).Outside? && hasHandle && destroyed == 0
      modifies this`waiters, this`passed, this`awaiting
      ensures Inv(State()) && waiters == old(waiters)[c := WaiterOf(State(), c)]
      ensures WaiterOf(State(), c).Resuming? <==> old(Done(State()))
      ensures WaiterOf(State(), c).Parked? <==> old(!Done(State()) && awaiting.Null?)
      ensures WaiterOf(State(), c).Rejected? <==> old(!Done(State()) && !awaiting.Null?)
      ensures awaiting == if WaiterOf(State(), c).Parked? then Handle(c) else old(awaiting)
      ensures passed == old(passed) + if old(Done(State())) then [(c, WasReady)] else []
    {
      assert !Done(State()) ==> !awaiting.Sentinel?;
      var goesOn := AwaitReadyNow(c);
      if !goesOn {
        AwaitSuspendNow(c);
      }
    }

    /** One action of `await_ready` or `await_suspend`. */
    method Ask(c: nat)
      requires Inv(State()) && c in waiters
      requires var x := waiters[c];
               x.AskingHandle? || x.AskingDone? || x.AskingReady? || x.Suspending? || x.Registering?
      modifies this`waiters, this`passed, this`awaiting
      ensures Inv(State()) && State() == WaitStep(old(State()), c)
    {
      StepKeepsInv(State(), Go(c));
      if waiters[c].Suspending? || waiters[c].Registering? {
        AwaitSuspend(c);
      } else {
        AwaitReady(c);
      }
    }

    /** `await_resume`, and `get` after its check: returns the outcome and destroys the frame. */
    method ResumeNow(c: nat) returns (result: Outcome<T>)
      requires Inv(State()) && c in waiters && waiters[c].Resuming? && ready && hasHandle && destroyed == 0
      modifies this`waiters, this`hasHandle, this`destroyed
      ensures Inv(State()) && data == Some(result) && waiters == old(waiters)[c := Finished(result)]
      ensures destroyed == 1 && !hasHandle
    {
      result := data.value;
      Resume(c);
      Resume(c);
      Resume(c);
      DestroyNow(c, result);
    }

    /** The guard's destructor after it has found the handle set. */
    method DestroyNow(c: nat, result: Outcome<T>)
      requires Inv(State()) && c in waiters && waiters[c] == Destroying(result) && hasHandle
      modifies this`waiters, this`hasHandle, this`destroyed
      ensures Inv(State()) && waiters == old(waiters)[c := Finished(result)]
      ensures destroyed == old(destroyed) + 1 && !hasHandle
    {
      Resume(c);
      Resume(c);
    }

    /** One action of `await_resume` or `get`. */
    method Resume(c: nat)
      requires Inv(State()) && c in waiters
      requires var x := waiters[c]; x.Resuming? || x.Reading? || x.Closing? || x.Destroying? || x.Nulling?
      modifies this`waiters, this`hasHandle, this`destroyed
      ensures Inv(State()) && State() == WaitStep(old(State()), c)
    {
      StepKeepsInv(State(), Go(c));
      AwaitResume(c);
    }

    /** The coroutine's end goes on until the flag is set. */
    method WaitForFlag()
      requires Inv(State()) && !producer.Running?
      modifies this
      ensures Inv(State()) && ready && data == old(data) && hasHandle == old(hasHandle) && destroyed == old(destroyed)
      ensures waiters == old(waiters) && passed == old(passed)
    {
      while !ready
        invariant Inv(State()) && !producer.Running? && data == old(data) && hasHandle == old(hasHandle)
        invariant destroyed == old(destroyed)
        invariant waiters == old(waiters) && passed == old(passed)
        decreases if producer.Stored? then 3 else if producer.Suspended? then 2 else if producer.Exchanged? then 1
                  else 0
      {
        StepKeepsInv(State(), Produce);
        FinalAwait();
      }
    }

    /** `get` by thread `c` once the body has ended: the outcome, or nothing when there is no frame any more. */
    method GetNow(c: nat) returns (result: Option<Outcome<T>>)
      requires Inv(State()) && WaiterOf(State(), c).Outside? && !producer.Running? && (hasHandle ==> destroyed == 0)
      modifies this
      ensures Inv(State()) && !hasHandle && data == old(data)
      ensures old(hasHandle) ==> result == data && destroyed == 1 && passed == old(passed) + [(c, Direct)]
      ensures !old(hasHandle) ==> result.None? && destroyed == old(destroyed) && passed == old(passed)
    {
      StepKeepsInv(State(), Get(c));
      if hasHandle {
        Continue(c, Direct);
        WaitForFlag();
        var outcome := ResumeNow(c);
        result := Some(outcome);
      } else {
        Move(c, Invalid);
        result := None;
      }
    }

    /**
     A whole `co_await` by the only waiter, wherever the coroutine is: if the body has not ended it
     ends with `outcome` while the waiter is suspended. The waiter gets what the body ended with.
     */
    method CoAwait(c: nat, outcome: Outcome<T>) returns (result: Outcome<T>)
      requires Inv(State()) && Alone(State(), c) && WaiterOf(State(), c).Outside?
      modifies this
      ensures Inv(State()) && data == Some(result) && (result == if old(data).Some? then old(data).value else outcome)
      ensures !hasHandle && destroyed == 1 && WaiterOf(State(), c).Finished?
      ensures passed == old(passed) + [(c, if old(Done(State())) then WasReady else WasResumed)]
    {
      assert awaiting.Handle? ==> WaiterOf(State(), awaiting.awaiter).Parked?;
      CoAwaitNow(c);
      if waiters[c].Parked? {
        if producer.Running? {
          EndNow(outcome);
        } else {
          FinishEnd();
        }
      } else {
        WaitForFlag();
      }
      result := ResumeNow(c);
    }

    /** Any interleaving of the producer and any number of waiters. */
    method RunAll(acts: seq<Action<T>>)
      requires State() == Init()
      modifies this
      ensures State() == Exec(Init(), acts)
    {
      for i := 0 to |acts|
        invariant Inv(State()) && State() == Exec(Init(), acts[..i])
      {
        assert acts[..i + 1][..i] == acts[..i];
        Act(acts[i]);
      }
      assert acts[..|acts|] == acts;
    }
  }
}
