/** What runs of the pools guarantee: sweeps, conservation of tasks, order, and shutdown. */
module PoolRuns {
  import opened Common
  import opened ClosingDown
  import opened Pool

  // ----- Sweeps -----

  lemma {:induction false} TurnsAt(w: nat, from: nat, n: nat, i: nat)
    requires n > 0 && from + i < n
    ensures |TurnsFrom(w, from, n)| == n - from && TurnsFrom(w, from, n)[i] == Slot(w + from + i, n)
    decreases n - from
  {
    if i > 0 {
      TurnsAt(w, from + 1, n, i - 1);
    } else if from + 1 < n {
      TurnsAt(w, from + 1, n, 0);
    }
  }

  /** A sweep in turn tries every other queue exactly once. */
  lemma SweepInTurn(w: nat, n: nat)
    requires w < n
    ensures |Sweep(StealInTurn, w, n)| == n - 1 && Distinct(Sweep(StealInTurn, w, n))
    ensures forall c: nat :: c in Sweep(StealInTurn, w, n) <==> c < n && c != w
    ensures forall i :: 0 <= i < n - 1 ==> Sweep(StealInTurn, w, n)[i] == (w + 1 + i) % n
  {
    var q := Sweep(StealInTurn, w, n);
    if n > 1 {
      TurnsAt(w, 1, n, 0);
      forall i | 0 <= i < |q| ensures q[i] == Slot(w + 1 + i, n) && q[i] != w {
        TurnsAt(w, 1, n, i);
        SlotsDiffer(w, w + 1 + i, n);
      }
      forall i | 0 <= i < n - 1 ensures q[i] == (w + 1 + i) % n {
        assert q[i] == Slot(w + 1 + i, n);
        SlotIsModulo(w + 1 + i, n);
      }
      forall i, j | 0 <= i < j < |q| ensures q[i] != q[j] {
        SlotsDiffer(w + 1 + i, w + 1 + j, n);
      }
      forall c: nat | c < n && c != w ensures c in q {
        var p := SlotInWindow(c, w, n);
        assert q[p - w - 1] == c;
      }
    }
  }

  /** In the pools that do not steal a worker touches no queue but its own. */
  lemma OnlyOwnQueue<T>(s: Pool<T>, w: nat, contended: bool, c: nat)
    requires Shape(s) && w < |s.workers| && (s.kind.GlobalQueue? || s.kind.LocalQueues?)
    requires c < |s.contexts| && c != (if s.kind.GlobalQueue? then 0 else w)
    ensures WorkStep(s, w, contended).contexts[c] == s.contexts[c]
  {
  }

  /** The neighbours differ from the worker itself, and from each other unless there is only one. */
  lemma SweepNeighbors(w: nat, n: nat)
    requires w < n
    ensures var q := Sweep(StealFromNeighbors, w, n);
            (forall c :: c in q ==> c < n && c != w) && (Distinct(q) <==> n != 2) &&
            (n > 1 ==> q == [(w + 1) % n, (w + n - 1) % n])
  {
    if n > 1 {
      SlotIsModulo(w + 1, n);
      SlotIsModulo(w + n - 1, n);
      SlotsDiffer(w, w + 1, n);
      SlotsDiffer(w, w + n - 1, n);
      if n > 2 {
        SlotsDiffer(w + 1, w + n - 1, n);
      }
      var q := Sweep(StealFromNeighbors, w, n);
      assert n == 2 ==> q[0] == q[1];
    }
  }

  lemma SweepInRange(kind: Kind, w: nat, n: nat)
    ensures forall i :: 0 <= i < |Sweep(kind, w, n)| ==> Sweep(kind, w, n)[i] < n
  {
    if n > 1 && kind.StealInTurn? {
      forall i | 0 <= i < |Sweep(kind, w, n)| ensures Sweep(kind, w, n)[i] < n {
        TurnsAt(w, 1, n, 0);
        TurnsAt(w, 1, n, i);
      }
    }
  }

  // ----- Conservation -----

  /** How often `task` is in the queue, was ever pushed to it, and is in a worker's hands. */
  ghost function InQueue<T>(task: T): Context<T> -> nat {
    (c: Context<T>) => multiset(c.queue)[task]
  }

  ghost function EverPushed<T>(task: T): Context<T> -> nat {
    (c: Context<T>) => multiset(c.pushed)[task]
  }

  ghost function InHand<T>(task: T): Worker<T> -> nat {
    (x: Worker<T>) => if x.Running? && x.task == task then 1 else 0
  }

  /** Every occurrence of `task` that was pushed is queued, in hand, or executed. */
  ghost predicate Conserved<T>(s: Pool<T>, task: T) {
    Total(s.contexts, EverPushed(task)) ==
    Total(s.contexts, InQueue(task)) + Total(s.workers, InHand(task)) + multiset(s.executed)[task]
  }

  ghost predicate InOrder<T>(s: Pool<T>) {
    forall c :: 0 <= c < |s.contexts| ==> s.contexts[c].pushed == s.contexts[c].taken + s.contexts[c].queue
  }

  lemma ContextChange<T>(s: Pool<T>, c: nat, x: Context<T>, task: T)
    requires c < |s.contexts|
    ensures var s' := s.(contexts := s.contexts[c := x]);
            && Total(s'.contexts, EverPushed(task)) ==
               Total(s.contexts, EverPushed(task)) + multiset(x.pushed)[task] - multiset(s.contexts[c].pushed)[task]
            && Total(s'.contexts, InQueue(task)) ==
               Total(s.contexts, InQueue(task)) + multiset(x.queue)[task] - multiset(s.contexts[c].queue)[task]
  {
    TotalUpdate(s.contexts, c, x, InQueue(task));
    TotalUpdate(s.contexts, c, x, EverPushed(task));
  }

  lemma TakeConserves<T>(s: Pool<T>, c: nat, w: nat, task: T)
    requires c < |s.contexts| && w < |s.workers| && s.contexts[c].queue != [] && !s.workers[w].Running?
    requires Conserved(s, task)
    ensures Conserved(Take(s, c, w), task)
  {
    var q := s.contexts[c].queue;
    ContextChange(s, c, PopTask(s.contexts[c]), task);
    TotalUpdate(s.workers, w, Running(q[0]), InHand(task));
    assert q == [q[0]] + q[1..];
  }

  /** Worker `w` moves without touching a task. */
  lemma MoveConserves<T>(s: Pool<T>, w: nat, x: Worker<T>, task: T)
    requires w < |s.workers| && !s.workers[w].Running? && !x.Running? && Conserved(s, task)
    ensures Conserved(SetWorker(s, w, x), task)
  {
    TotalUpdate(s.workers, w, x, InHand(task));
  }

  lemma RunConserves<T>(s: Pool<T>, w: nat, task: T)
    requires w < |s.workers| && s.workers[w].Running? && Conserved(s, task)
    ensures Conserved(SetWorker(s, w, Top).(executed := s.executed + [s.workers[w].task]), task)
  {
    TotalUpdate(s.workers, w, Top, InHand(task));
  }

  lemma SweepConserves<T>(s: Pool<T>, w: nat, contended: bool, task: T)
    requires Shape(s) && w < |s.workers| && s.workers[w].Sweeping? && Conserved(s, task)
    ensures Conserved(WorkStep(s, w, contended), task)
  {
    var x := WorkStep(s, w, contended).workers[w];
    if x.Running? {
      TakeConserves(s, SweepOf(s, w)[|s.workers[w].tried|], w, task);
    } else {
      MoveConserves(s, w, x, task);
    }
  }

  lemma WorkConserves<T>(s: Pool<T>, w: nat, contended: bool, task: T)
    requires Shape(s) && w < |s.workers| && Conserved(s, task)
    ensures Conserved(WorkStep(s, w, contended), task)
  {
    var home := Home(s.kind, w);
    match s.workers[w] {
      case Running(_) => RunConserves(s, w, task);
      case Loaded(seen) =>
        if s.contexts[home].queue != [] {
          TakeConserves(s, home, w, task);
        } else {
          MoveConserves(s, w, Sweeping(seen, []), task);
        }
      case Sweeping(seen, tried) => SweepConserves(s, w, contended, task);
      case _ => MoveConserves(s, w, WorkStep(s, w, contended).workers[w], task);
    }
  }

  /** Nobody's hands change; at most one context does, and what it gains in its queue it gains in its record. */
  lemma HandsOffConserves<T>(s: Pool<T>, s': Pool<T>, c: nat, task: T)
    requires Conserved(s, task) && s'.executed == s.executed && |s'.workers| == |s.workers|
    requires forall w :: 0 <= w < |s.workers| ==> Stirred(s.workers[w], s'.workers[w])
    requires c < |s.contexts| && |s'.contexts| == |s.contexts| && s'.contexts == s.contexts[c := s'.contexts[c]]
    requires s'.contexts[c].(notifier := 0) == s.contexts[c].(notifier := 0) ||
             exists x :: s'.contexts[c] == PushTask(s.contexts[c], x)
    ensures Conserved(s', task)
  {
    TotalSame(s.workers, s'.workers, InHand(task));
    ContextChange(s, c, s'.contexts[c], task);
  }

  lemma DeliverConserves<T>(s: Pool<T>, t: nat, pick: nat, task: T)
    requires Shape(s) && Conserved(s, task)
    ensures Conserved(DeliverStep(s, t, pick), task)
  {
    var x := SubmitterOf(s, t);
    var c := if (x.Chosen? || x.Queued?) && x.ctx < |s.contexts| then x.ctx else 0;
    HandsOffConserves(s, DeliverStep(s, t, pick), c, task);
  }

  lemma ShutdownConserves<T>(s: Pool<T>, task: T)
    requires Shape(s) && Conserved(s, task)
    ensures Conserved(ShutdownStep(s), task)
  {
    var c := if s.closing.Adding? && s.closing.ctx < |s.contexts| then s.closing.ctx else 0;
    HandsOffConserves(s, ShutdownStep(s), c, task);
  }

  lemma StepConserves<T>(s: Pool<T>, a: Action<T>, task: T)
    requires Shape(s) && Conserved(s, task)
    ensures Conserved(Step(s, a), task)
  {
    match a {
      case Work(w, contended) => if w < |s.workers| { WorkConserves(s, w, contended, task); }
      case Deliver(t, pick) => DeliverConserves(s, t, pick, task);
      case Shutdown => ShutdownConserves(s, task);
      case _ => TotalSame(s.workers, Step(s, a).workers, InHand(task));
    }
  }

  lemma StepKeepsOrder<T>(s: Pool<T>, a: Action<T>)
    requires Shape(s) && InOrder(s)
    ensures InOrder(Step(s, a))
  {
    var s' := Step(s, a);
    forall c | 0 <= c < |s'.contexts| ensures s'.contexts[c].pushed == s'.contexts[c].taken + s'.contexts[c].queue {
      if a.Work? && a.worker < |s.workers| {
        assert OnlyTaken(s.contexts[c], s'.contexts[c]);
      } else {
        assert s.contexts[c].pushed == s.contexts[c].taken + s.contexts[c].queue;
      }
    }
  }

  /**
   No task is lost, invented or run twice: in every reachable state of every pool each task was
   pushed as often as it is now queued, in a worker's hands, or executed. And each queue hands
   out its tasks in the order they were pushed, whoever takes them.
   */
  lemma {:induction false} TasksAreConserved<T>(kind: Kind, workers: nat, acts: seq<Action<T>>, task: T)
    requires kind.GlobalQueue? || workers > 0
    ensures Conserved(Exec(Init(kind, workers), acts), task) && InOrder(Exec(Init(kind, workers), acts))
  {
    var s := Init<T>(kind, workers);
    if acts == [] {
      TotalZero(s.contexts, EverPushed(task));
      TotalZero(s.contexts, InQueue(task));
      TotalZero(s.workers, InHand(task));
    } else {
      var prefix := acts[..|acts| - 1];
      TasksAreConserved(kind, workers, prefix, task);
      StepConserves(Exec(s, prefix), acts[|acts| - 1], task);
      StepKeepsOrder(Exec(s, prefix), acts[|acts| - 1]);
    }
  }

  // ----- A queued task is fetched -----

  /** Worker `w` takes `k` steps with nobody else moving. */
  function Alone<T>(s: Pool<T>, w: nat, k: nat): (s': Pool<T>)
    requires Shape(s) && w < |s.workers|
    ensures |s'.contexts| == |s.contexts|
    decreases k
  {
    if k == 0 then s else Alone(WorkStep(s, w, false), w, k - 1)
  }

  /** How many steps at most separate a worker that will look from taking a task of its own queue. */
  function Distance<T>(s: Pool<T>, w: nat): nat
    requires w < |s.workers|
  {
    var n := |SweepOf(s, w)|;
    match s.workers[w]
    case Loaded(_) => 1
    case Admitted => 2
    case Top => 3
    case Running(_) => 4
    case Waiting(_) => 4
    case Sweeping(_, tried) => if |tried| <= n then n - |tried| + 5 else 5
    case _ => 0
  }

  ghost predicate HeadTaken<T>(c: Context<T>, c': Context<T>) {
    c.queue != [] && c'.taken == c.taken + [c.queue[0]] && c'.queue == c.queue[1..]
  }

  lemma {:induction false} Fetches<T>(s: Pool<T>, w: nat, c: nat) returns (k: nat)
    requires Shape(s) && Fits(s) && s.closing.Open? && w < |s.workers| && c == Home(s.kind, w)
    requires s.contexts[c].queue != [] && WillLook(s.workers[w], s.contexts[c].notifier)
    ensures k <= Distance(s, w) && HeadTaken(s.contexts[c], Alone(s, w, k).contexts[c])
    decreases Distance(s, w)
  {
    SweepInRange(s.kind, w, |s.contexts|);
    assert WorkerFits(s, w);
    var s' := WorkStep(s, w, false);
    WorkKeepsFits(s, w, false);
    assert OnlyTaken(s.contexts[c], s'.contexts[c]);
    if s'.contexts[c] != s.contexts[c] {
      k := 1;
      assert Alone(s, w, 1) == Alone(s', w, 0);
    } else {
      k := Fetches(s', w, c);
      k := k + 1;
    }
  }

  /**
   In every reachable state before shutdown, a nonempty queue that no submitter is still notifying
   for has a worker that will take the head of that queue without being notified: alone, within
   |sweep| + 5 steps of its own.
   */
  lemma QueuedTaskIsFetched<T>(kind: Kind, workers: nat, acts: seq<Action<T>>, c: nat) returns (w: nat, k: nat)
    requires workers > 0 && c < ContextCount(kind, workers)
    requires var s := Exec(Init(kind, workers), acts); s.closing.Open? && s.contexts[c].queue != [] && !InDelivery(s, c)
    ensures w < workers && Home(kind, w) == c && k <= |Sweep(kind, w, ContextCount(kind, workers))| + 5
    ensures var s := Exec(Init(kind, workers), acts); HeadTaken(s.contexts[c], Alone(s, w, k).contexts[c])
  {
    InitInv<T>(kind, workers);
    RunKeepsInv(Init(kind, workers), acts);
    var s := Exec(Init(kind, workers), acts);
    assert ServedAt(s, c);
    w :| 0 <= w < |s.workers| && Home(s.kind, w) == c && WillLook(s.workers[w], s.contexts[c].notifier);
    k := Fetches(s, w, c);
  }

  // ----- Shutdown -----

  /** Once its notifier was raised a waiter cannot block again, and after the notification none is blocked. */
  predicate LeavesWait<T>(s: Pool<T>, w: nat)
    requires Shape(s) && w < |s.workers|
  {
    var x := s.workers[w];
    var c := Home(s.kind, w);
    && (Raised(s.closing, c) && (x.Waiting? || x.Blocked?) ==> x.seen < s.contexts[c].notifier)
    && (Roused(s.closing, c) ==> !x.Blocked?)
  }

  lemma StepKeepsLeaving<T>(s: Pool<T>, a: Action<T>, w: nat)
    requires Shape(s) && Fits(s) && w < |s.workers| && LeavesWait(s, w)
    ensures LeavesWait(Step(s, a), w)
  {
    assert WorkerFits(s, w);
    var s' := Step(s, a);
    match a {
      case Deliver(t, pick) => assert Stirred(s.workers[w], s'.workers[w]);
      case Work(v, contended) =>
        if v < |s.workers| {
          assert OnlyTaken(HomeOf(s, w), HomeOf(s', w));
        }
      case _ =>
    }
  }

  lemma {:induction false} RunKeepsLeaving<T>(kind: Kind, workers: nat, acts: seq<Action<T>>, w: nat)
    requires w < workers
    ensures Inv(Exec(Init(kind, workers), acts)) && LeavesWait(Exec(Init(kind, workers), acts), w)
  {
    var s := Init<T>(kind, workers);
    InitInv<T>(kind, workers);
    if acts != [] {
      var prefix := acts[..|acts| - 1];
      RunKeepsLeaving(kind, workers, prefix, w);
      StepKeepsInv(Exec(s, prefix), acts[|acts| - 1]);
      StepKeepsLeaving(Exec(s, prefix), acts[|acts| - 1], w);
    }
  }

  /** How many more steps a worker needs to leave, once shutdown only waits for the workers. */
  function StepsLeft<T>(s: Pool<T>, w: nat): nat
    requires w < |s.workers|
  {
    var n := |SweepOf(s, w)|;
    match s.workers[w]
    case Exited => 0
    case Top => 1
    case Running(_) => 2
    case Waiting(_) => 2
    case Sweeping(_, tried) => if |tried| <= n then n - |tried| + 2 else 2
    case Loaded(_) => n + 3
    case Admitted => n + 4
    case Blocked(_) => 0
  }

  function WorkCount<T>(acts: seq<Action<T>>, w: nat): nat {
    if acts == [] then 0
    else WorkCount(acts[..|acts| - 1], w) + if acts[|acts| - 1].Work? && acts[|acts| - 1].worker == w then 1 else 0
  }

  lemma LeavingStep<T>(s: Pool<T>, a: Action<T>, w: nat)
    requires Shape(s) && Fits(s) && w < |s.workers| && LeavesWait(s, w) && s.closing.Joining?
    ensures Step(s, a).closing.Joining?
    ensures if a.Work? && a.worker == w then s.workers[w].Exited? || StepsLeft(Step(s, a), w) < StepsLeft(s, w)
            else Step(s, a).workers[w] == s.workers[w]
    ensures s.workers[w].Exited? ==> Step(s, a).workers[w].Exited?
  {
    SweepInRange(s.kind, w, |s.contexts|);
    assert WorkerFits(s, w);
    if a.Deliver? {
      assert Stirred(s.workers[w], Step(s, a).workers[w]);
    }
  }

  lemma {:induction false} LeavingRun<T>(s: Pool<T>, acts: seq<Action<T>>, w: nat)
    requires Shape(s) && Inv(s) && w < |s.workers| && LeavesWait(s, w) && s.closing.Joining?
    ensures var s' := Exec(s, acts);
            && Inv(s') && LeavesWait(s', w) && s'.closing.Joining?
            && (s'.workers[w].Exited? || StepsLeft(s', w) + WorkCount(acts, w) <= StepsLeft(s, w))
  {
    if acts != [] {
      var prefix := acts[..|acts| - 1];
      LeavingRun(s, prefix, w);
      StepKeepsInv(Exec(s, prefix), acts[|acts| - 1]);
      StepKeepsLeaving(Exec(s, prefix), acts[|acts| - 1], w);
      LeavingStep(Exec(s, prefix), acts[|acts| - 1], w);
    }
  }

  /**
   Shutdown ends: after it has raised and notified every context, no worker is blocked, none can
   block again, and whatever submitters and other workers do, a worker is gone after its next
   |sweep| + 4 steps at the latest.
   */
  lemma ShutdownEnds<T>(kind: Kind, workers: nat, acts: seq<Action<T>>, more: seq<Action<T>>, w: nat)
    requires w < workers && Exec(Init(kind, workers), acts).closing.Joining?
    ensures !Exec(Exec(Init(kind, workers), acts), more).workers[w].Blocked?
    ensures WorkCount(more, w) >= |Sweep(kind, w, ContextCount(kind, workers))| + 4 ==>
              Exec(Exec(Init(kind, workers), acts), more).workers[w].Exited?
  {
    RunKeepsLeaving(kind, workers, acts, w);
    LeavingRun(Exec(Init(kind, workers), acts), more, w);
  }

  // ----- Who has been asked to stop -----

  function Shutdowns<T>(acts: seq<Action<T>>): nat {
    if acts == [] then 0 else Shutdowns(acts[..|acts| - 1]) + if acts[|acts| - 1].Shutdown? then 1 else 0
  }

  /** How far `k` actions bring the shutdown. */
  predicate ClosedBy(closing: Closing, k: nat, workers: nat) {
    if k == 0 then closing.Open? else if k <= workers + 1 then closing == Asking(k - 1)
    else closing.Adding? || closing.Notifying? || closing.Joining?
  }

  lemma ClosingMoves<T>(s: Pool<T>, a: Action<T>, k: nat)
    requires Shape(s) && ClosedBy(s.closing, k, |s.workers|)
    ensures ClosedBy(Step(s, a).closing, k + if a.Shutdown? then 1 else 0, |s.workers|)
  {
  }

  /** The first action of the shutdown sets the stop flag, each of the next ones asks one worker, in order. */
  lemma {:induction false} AskedInOrder<T>(kind: Kind, workers: nat, acts: seq<Action<T>>, w: nat)
    requires w < workers
    ensures var closing := Exec(Init(kind, workers), acts).closing;
            ClosedBy(closing, Shutdowns(acts), workers) && (StopAsked(closing, w) <==> Shutdowns(acts) >= w + 2)
  {
    if acts != [] {
      var before := acts[..|acts| - 1];
      AskedInOrder(kind, workers, before, w);
      ClosingMoves(Exec(Init(kind, workers), before), acts[|acts| - 1], Shutdowns(before));
    }
  }

  /** A worker that has been asked begins no further turn: at the top of its loop it leaves. */
  lemma {:induction false} AskedBeginsNothing<T>(s: Pool<T>, more: seq<Action<T>>, w: nat)
    requires Shape(s) && w < |s.workers| && StopAsked(s.closing, w) && (s.workers[w].Top? || s.workers[w].Exited?)
    ensures var s' := Exec(s, more);
            StopAsked(s'.closing, w) &&
            (s'.workers[w].Exited? || (s'.workers[w].Top? && forall b :: Action.Work(w, b) !in more))
  {
    if more != [] {
      var before, a := more[..|more| - 1], more[|more| - 1];
      AskedBeginsNothing(s, before, w);
      AskedStep(Exec(s, before), a, w);
      assert more == before + [a];
    }
  }

  lemma AskedStep<T>(s: Pool<T>, a: Action<T>, w: nat)
    requires Shape(s) && w < |s.workers| && StopAsked(s.closing, w) && (s.workers[w].Top? || s.workers[w].Exited?)
    ensures var s' := Step(s, a);
            StopAsked(s'.closing, w) && (s'.workers[w].Exited? || (s'.workers[w].Top? && !(a.Work? && a.worker == w)))
    ensures s.workers[w].Exited? ==> Step(s, a).workers[w].Exited?
  {
  }
}
