/**
 The lock-free pool object over its arrays of rings, notifiers and worker positions, updated in
 place. A ring is a value here; `RingMachine.LfQueue` is its in-place form.
 */
module LockFreeMachine {
  import opened Common
  import Ring
  import RingFifo
  import opened ClosingDown
  import opened LockFreeAlone
  import opened LockFreePool
  import opened LockFreeRuns
  import LockFreeTurns

  class StealingPool<T> {
    const rings: array<Ring.Ring<T>>
    const notifiers: array<nat>
    const workers: array<Worker<T>>
    var clients: map<nat, Client<T>>
    var next: nat
    var closing: Closing
    ghost var executed: seq<T>

    ghost predicate Valid()
      reads this, rings, notifiers, workers
    {
      Shape(State()) && Inv(State())
    }

    ghost function State(): Pool<T>
      reads this, rings, notifiers, workers
    {
      Pool(rings[..], notifiers[..], workers[..], clients, next, closing, executed)
    }

    constructor (count: nat, capacity: nat)
      requires count > 0 && capacity >= 2
      ensures State() == Init(count, capacity) && Valid()
      ensures fresh(rings) && fresh(notifiers) && fresh(workers)
    {
      var r := Ring.Init<T>(capacity, false);
      rings := new Ring.Ring<T>[count](_ => r);
      notifiers := new nat[count](_ => 0);
      workers := new Worker<T>[count](_ => Top);
      clients, next, closing, executed := map[], 0, Open, [];
      new;
      InitInv<T>(count, capacity);
      assert State() == Init(count, capacity);
    }

    /** One action of worker `w`; inside a pop it acts on the ring it is popping from. */
    method WorkAct(w: nat, spurious: bool)
      requires Shape(State()) && w < workers.Length
      modifies this`executed, rings, workers
      ensures Shape(State()) && State() == WorkStep(old(State()), w, spurious)
    {
      var x := workers[w];
      if x.Looking? {
        PopAct(w, w, x.seen, 0, spurious);
      } else if x.Sweeping? && x.i < workers.Length - 1 {
        PopAct(w, Target(w, x.i, workers.Length), x.seen, x.i + 1, spurious);
      } else if x.Admitted? {
        workers[w] := Looking(notifiers[w]);
        rings[w] := Ring.Move(rings[w], w, Ring.PopStart);
      } else {
        WaitAct(w);
      }
    }

    /** The actions of worker `w` outside the rings. */
    method WaitAct(w: nat)
      requires Shape(State()) && w < workers.Length && PopRing(State(), w).None? && !workers[w].Admitted?
      modifies this`executed, workers
      ensures Shape(State()) && State() == WorkStep(old(State()), w, false)
    {
      match workers[w] {
        case Top => workers[w] := if StopAsked(closing, w) then Exited else Admitted;
        case Sweeping(seen, _) => workers[w] := if StopAsked(closing, w) then Exited else Waiting(seen);
        case Running(task) =>
          executed := executed + [task];
          workers[w] := Top;
        case Waiting(seen) => workers[w] := if notifiers[w] != seen then Top else Blocked(seen);
        case _ =>
      }
    }

    method PopAct(w: nat, c: nat, seen: nat, i: nat, spurious: bool)
      requires Shape(State()) && w < workers.Length && c < rings.Length
      modifies rings, workers
      ensures Shape(State()) && State() == PopStep(old(State()), w, c, seen, i, spurious)
    {
      var (r, round) := PopRound(rings[c], w, spurious);
      rings[c] := r;
      match round {
        case Still =>
        case Over(Some(task)) => workers[w] := Running(task);
        case Over(None) =>
          workers[w] := Sweeping(seen, i);
          if i < workers.Length - 1 {
            var target := Target(w, i, workers.Length);
            rings[target] := Ring.Move(rings[target], w, Ring.PopStart);
          }
      }
    }

    /** Unblocks the one worker that waits on notifier `c`, if its value is out of date. */
    method NotifyAct(c: nat)
      requires Shape(State()) && c < workers.Length
      modifies workers
      ensures Shape(State()) && State() == Notify(old(State()), c)
    {
      if workers[c].Blocked? && workers[c].seen != notifiers[c] {
        workers[c] := Waiting(workers[c].seen);
      }
    }

    /** One action of `derived_execute` or `try_steal` by client `t`. */
    method ClientAct(t: nat, spurious: bool)
      requires Shape(State()) && t in clients
      modifies this`clients, this`next, this`executed, rings, notifiers, workers
      ensures Shape(State()) && State() == AdvanceStep(old(State()), t, spurious)
    {
      var id := workers.Length + t;
      match clients[t] {
        case Called(task) => clients := clients[t := if closing.Open? then Checked(task) else Refused];
        case Checked(task) => StartPush(t, id, task);
        case Pushing(_, c) => if c < rings.Length { PushAct(t, id, c, spurious); }
        case Pushed(c) =>
          if c < rings.Length {
            notifiers[c] := notifiers[c] + 1;
            clients := clients[t := Counted(c)];
          }
        case Counted(c) =>
          if c < rings.Length {
            NotifyAct(c);
            clients := clients[t := Away];
          }
        case Refused => clients := clients[t := Away];
        case Stealing(c) => if c < rings.Length { StealAct(t, id, c, spurious); }
        case Executing(task) => clients, executed := clients[t := Away], executed + [task];
        case Away =>
      }
    }

    /** Picks the next ring in turn and enters its push. */
    method StartPush(t: nat, id: nat, task: T)
      requires Shape(State())
      modifies this`clients, this`next, rings
      ensures Shape(State())
      ensures var s := old(State()); var c := Slot(s.next, |s.rings|);
              State() == SetClient(SetRing(s, c, Ring.Move(s.rings[c], id, Ring.PushStart(task))), t,
                                   Pushing(task, c)).(next := s.next + 1)
    {
      SlotIsModulo(next, rings.Length);
      var c := next % rings.Length;
      rings[c] := Ring.Move(rings[c], id, Ring.PushStart(task));
      clients, next := clients[t := Pushing(task, c)], next + 1;
    }

    method PushAct(t: nat, id: nat, c: nat, spurious: bool)
      requires Shape(State()) && c < rings.Length
      modifies this`clients, rings
      ensures Shape(State()) && State() == PushStep(old(State()), t, id, c, spurious)
    {
      var (r, round) := PushRound(rings[c], id, spurious);
      rings[c] := r;
      clients := if round.Over? then clients[t := Pushed(c)] else clients;
    }

    method StealAct(t: nat, id: nat, c: nat, spurious: bool)
      requires Shape(State()) && c < rings.Length
      modifies this`clients, rings
      ensures Shape(State()) && State() == StealStep(old(State()), t, id, c, spurious)
    {
      var (r, round) := PopRound(rings[c], id, spurious);
      rings[c] := r;
      match round {
        case Still =>
        case Over(Some(task)) => clients := clients[t := Executing(task)];
        case Over(None) =>
          if c + 1 < rings.Length {
            rings[c + 1] := Ring.Move(rings[c + 1], id, Ring.PopStart);
            clients := clients[t := Stealing(c + 1)];
          } else {
            clients := clients[t := Away];
          }
      }
    }

    /** One action of the thread that shuts the pool down. */
    method Close()
      requires Shape(State())
      modifies this`closing, notifiers, workers
      ensures Shape(State()) && State() == ShutdownStep(old(State()))
    {
      match closing {
        case Open => closing := Asking(0);
        case Asking(n) => closing := if n < workers.Length then Asking(n + 1) else Adding(0);
        case Adding(c) =>
          if c < workers.Length {
            notifiers[c] := notifiers[c] + 1;
            closing := Notifying(c);
          } else {
            closing := Joining;
          }
        case Notifying(c) =>
          if c < workers.Length {
            NotifyAct(c);
            closing := Adding(c + 1);
          }
        case Joining =>
      }
    }

    /** The stop flag and the stop requests. */
    method AskAll()
      requires Valid() && closing.Open?
      modifies this`closing, notifiers, workers
      ensures Valid() && State() == old(State()).(closing := Adding(0))
    {
      CloseStep();
      for i := 0 to workers.Length
        invariant Valid() && State() == old(State()).(closing := Asking(i))
      {
        CloseStep();
      }
      CloseStep();
    }

    method CloseStep()
      requires Valid()
      modifies this`closing, notifiers, workers
      ensures Valid() && State() == ShutdownStep(old(State()))
    {
      StepKeepsInv(State(), Action.Shutdown);
      Close();
    }

    /**
     `shutdown` run to its end by the first caller, everybody else standing wherever they are: each
     notifier is raised by one and each blocked worker is unblocked.
     */
    method Shutdown()
      requires Valid()
      modifies this`closing, notifiers, workers
      ensures Valid()
      ensures !old(closing.Open?) ==> State() == old(State())
      ensures old(closing.Open?) ==> closing.Joining?
      ensures old(closing.Open?) ==> forall w :: 0 <= w < workers.Length ==>
                notifiers[w] == old(notifiers[w]) + 1 &&
                workers[w] == if old(workers[w]).Blocked? then Waiting(old(workers[w]).seen) else old(workers[w])
    {
      if !closing.Open? {
        return;
      }
      ghost var s := State();
      AskAll();
      for c := 0 to workers.Length
        invariant Valid() && closing == Adding(c) && LockFreeTurns.ClosedUpTo(State(), s, c)
      {
        assert WorkerFits(s, c);
        LockFreeTurns.ClosesNext(State(), s, c);
        CloseStep();
        CloseStep();
      }
      CloseStep();
      assert forall w :: 0 <= w < workers.Length ==> workers[w] == LockFreeTurns.Rouse(s.workers[w]);
    }

    /** Entering `derived_execute` or `try_steal`, or a spurious wakeup. */
    method Call(a: Action<T>)
      requires Shape(State()) && (a.Submit? || a.Help? || a.Stir?)
      modifies this`clients, rings, workers
      ensures Shape(State()) && State() == Step(old(State()), a)
    {
      match a {
        case Submit(t, task) => if t !in clients || clients[t].Away? { clients := clients[t := Called(task)]; }
        case Help(t) =>
          if t !in clients || clients[t].Away? {
            rings[0] := Ring.Move(rings[0], workers.Length + t, Ring.PopStart);
            clients := clients[t := Stealing(0)];
          }
        case Stir(w) => if w < workers.Length && workers[w].Blocked? { workers[w] := Waiting(workers[w].seen); }
      }
    }

    method Act(a: Action<T>)
      requires Valid()
      modifies this, rings, notifiers, workers
      ensures Valid() && State() == Step(old(State()), a)
    {
      StepKeepsInv(State(), a);
      match a {
        case Work(w, spurious) => if w < workers.Length { WorkAct(w, spurious); }
        case Advance(t, spurious) => if t in clients { ClientAct(t, spurious); }
        case Shutdown => Close();
        case _ => Call(a);
      }
    }

    /** Any interleaving of any number of clients, the workers, and a shutdown. */
    method RunAll(acts: seq<Action<T>>)
      requires Valid()
      modifies this, rings, notifiers, workers
      ensures Valid() && State() == Exec(old(State()), acts)
    {
      for i := 0 to |acts|
        invariant Valid() && State() == Exec(old(State()), acts[..i])
      {
        assert acts[..i + 1][..i] == acts[..i];
        Act(acts[i]);
      }
      assert acts[..|acts|] == acts;
    }

    /** The next action of client `t` on its way to the end of its operation; does it run a task? */
    method Continue(t: nat, ghost path: seq<Pool<T>>, ghost i: nat) returns (runs: bool)
      requires Leads(path, t) && i < |path| - 1 && State() == path[i] && t in clients
      modifies this`clients, this`next, this`executed, rings, notifiers, workers
      ensures State() == path[i + 1] && t in clients
      ensures |executed| == |old(executed)| + if runs then 1 else 0
    {
      AdvanceExecutes(State(), t);
      runs := clients[t].Executing?;
      ClientAct(t, false);
    }

    /** Client `t` goes on to the end of its operation while all others stand still; has it run a task? */
    method Finish(t: nat, ghost path: seq<Pool<T>>) returns (ran: bool)
      requires Leads(path, t) && State() == path[0] && t in clients
      modifies this`clients, this`next, this`executed, rings, notifiers, workers
      ensures State() == path[|path| - 1]
      ensures |executed| >= |old(executed)| && (ran <==> |executed| > |old(executed)|)
    {
      ran := false;
      ghost var i := 0;
      while !clients[t].Away?
        invariant i < |path| && State() == path[i] && t in clients
        invariant |executed| >= |old(executed)| && (ran <==> |executed| > |old(executed)|)
        decreases |path| - i
      {
        var runs := Continue(t, path, i);
        ran := ran || runs;
        i := i + 1;
      }
    }

    /**
     `derived_execute` by client `t` while all others stand still wherever they are. It spins while
     its ring is full, so there it needs room. If the pool is open, the task becomes the last of the
     ring whose turn it is, and the worker of that ring is not left blocked.
     */
    method Execute(t: nat, task: T) returns (accepted: bool)
      requires Valid() && ClientOf(State(), t).Away?
      requires closing.Open? ==> HasRoom(rings[Slot(next, rings.Length)])
      modifies this`clients, this`next, this`executed, rings, notifiers, workers
      ensures Valid() && (accepted <==> closing.Open?)
      ensures if accepted then Arrived(old(State()), State(), t, task, Slot(old(next), rings.Length))
              else State() == SetClient(old(State()), t, Away)
    {
      accepted := closing.Open?;
      ghost var n, s' := ExecuteEnds(State(), t, workers.Length + t, task);
      clients := clients[t := Called(task)];
      ghost var path := EndsLeads(State(), t, n, s');
      var _ := Finish(t, path);
    }

    /**
     `try_steal` by client `t` while all others stand still wherever they are: it takes and runs
     the head of the first ring whose head is published, and fails exactly when there is none.
     */
    method TrySteal(t: nat) returns (found: bool)
      requires Valid() && ClientOf(State(), t).Away?
      modifies this`clients, this`next, this`executed, rings, notifiers, workers
      ensures Valid() && StoleFirst(old(State()), State(), t, 0)
      ensures found <==> exists c :: 0 <= c < rings.Length && Ready(old(rings[..])[c])
    {
      var id := workers.Length + t;
      ghost var n, s' := TryStealEnds(State(), t, id);
      rings[0] := Ring.Move(rings[0], id, Ring.PopStart);
      clients := clients[t := Stealing(0)];
      ghost var path := EndsLeads(State(), t, n, s');
      found := Finish(t, path);
    }

    /**
     One turn of the loop of worker `w`, not asked to stop, while everybody else stands still: it comes
     back with the head of the first ring in its order that has a published one, and has blocked if
     there is none.
     */
    method Turn(w: nat) returns (found: bool)
      requires Valid() && w < workers.Length && workers[w].Top? && !StopAsked(closing, w)
      modifies this, rings, notifiers, workers
      ensures Valid() && LockFreeTurns.Turned(State(), old(State()), w) && (found <==> workers[w].Running?)
    {
      ghost var s := State();
      while !workers[w].Running? && !workers[w].Blocked?
        invariant Valid() && LockFreeTurns.Turns(State(), s, w) && 0 <= LockFreeTurns.TurnLeft(State(), w)
        decreases LockFreeTurns.TurnLeft(State(), w)
      {
        TurnOn(w, s);
      }
      found := workers[w].Running?;
    }

    method TurnOn(w: nat, ghost s: Pool<T>)
      requires Valid() && w < workers.Length && Shape(s) && Sound(s.rings) && w < |s.workers|
      requires LockFreeTurns.Turns(State(), s, w) && !StopAsked(s.closing, w)
      requires !workers[w].Running? && !workers[w].Blocked?
      modifies this, rings, notifiers, workers
      ensures Valid() && LockFreeTurns.Turns(State(), s, w)
      ensures 0 <= LockFreeTurns.TurnLeft(State(), w) < old(LockFreeTurns.TurnLeft(State(), w))
    {
      LockFreeTurns.StillLeft(State(), w);
      LockFreeTurns.TurnGoesOn(State(), s, w);
      Act(Work(w, false));
    }
  }
}
