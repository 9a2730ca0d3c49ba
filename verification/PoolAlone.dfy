/**
 What one thread of a mutex pool achieves while the others stand still wherever they are: a
 submitter with `derived_execute`, a worker with one turn of its loop.
 */
module PoolAlone {
  import opened Common
  import opened ClosingDown
  import opened Pool
  import opened PoolRuns

  // ----- A turn of a worker's loop -----

  /** The queues a worker looks into in one turn: its own one, then those of its sweep. */
  function Order<T>(s: Pool<T>, w: nat): seq<nat> {
    [Home(s.kind, w)] + SweepOf(s, w)
  }

  predicate InRange<T>(s: Pool<T>, order: seq<nat>) {
    forall i :: 0 <= i < |order| ==> order[i] < |s.contexts|
  }

  /** The place in `order`, from `i` on, of the first queue that holds a task. */
  function FirstFull<T>(s: Pool<T>, order: seq<nat>, i: nat): (k: nat)
    requires InRange(s, order) && i <= |order|
    ensures i <= k <= |order| && (k < |order| ==> s.contexts[order[k]].queue != [])
    ensures forall j :: i <= j < k ==> s.contexts[order[j]].queue == []
    decreases |order| - i
  {
    if i == |order| || s.contexts[order[i]].queue != [] then i else FirstFull(s, order, i + 1)
  }

  lemma OrderInRange<T>(s: Pool<T>, w: nat)
    requires Shape(s) && w < |s.workers|
    ensures InRange(s, Order(s, w))
  {
    SweepInRange(s.kind, w, |s.contexts|);
  }

  /**
   What a turn comes to: the worker runs the head of the first queue in its order that holds a task,
   or blocks on its notifier if there is none, or leaves if it finds none and was asked to stop.
   */
  function TurnEnd<T>(s: Pool<T>, w: nat): (s': Pool<T>)
    requires Shape(s) && w < |s.workers| && InRange(s, Order(s, w))
    ensures Shape(s')
  {
    var order := Order(s, w);
    var k := FirstFull(s, order, 0);
    if k < |order| then Take(s, order[k], w)
    else SetWorker(s, w, Blocked(HomeOf(s, w).notifier))
  }

  /** The first `k` queues of the worker's order are empty. */
  predicate AllEmpty<T>(s: Pool<T>, w: nat, k: nat)
    requires InRange(s, Order(s, w)) && k <= |Order(s, w)|
  {
    forall j :: 0 <= j < k ==> s.contexts[Order(s, w)[j]].queue == []
  }

  /** The progress of a turn that worker `w` began at the top of its loop in `s0`, nobody else moving. */
  ghost predicate Turns<T>(s: Pool<T>, s0: Pool<T>, w: nat)
    requires Shape(s0) && w < |s0.workers| && InRange(s0, Order(s0, w))
  {
    var seen := HomeOf(s0, w).notifier;
    && w < |s.workers|
    && match s.workers[w]
       case Top => s == s0
       case Admitted => s == SetWorker(s0, w, Admitted)
       case Loaded(_) => s == SetWorker(s0, w, Loaded(seen))
       case Sweeping(_, tried) =>
         && s == SetWorker(s0, w, Sweeping(seen, tried)) && tried <= SweepOf(s0, w)
         && AllEmpty(s0, w, |tried| + 1)
       case Waiting(_) => s == SetWorker(s0, w, Waiting(seen)) && AllEmpty(s0, w, |Order(s0, w)|)
       case Running(_) => s == TurnEnd(s0, w)
       case Blocked(_) => s == TurnEnd(s0, w)
       case Exited => false
  }

  /** How many steps a turn is from its end at most. */
  function TurnLeft<T>(s: Pool<T>, w: nat): int
    requires w < |s.workers|
  {
    match s.workers[w]
    case Top => |SweepOf(s, w)| + 5
    case Admitted => |SweepOf(s, w)| + 4
    case Loaded(_) => |SweepOf(s, w)| + 3
    case Sweeping(_, tried) => |SweepOf(s, w)| - |tried| + 2
    case Waiting(_) => 1
    case _ => 0
  }

  lemma TakenFirst<T>(s: Pool<T>, w: nat, k: nat)
    requires Shape(s) && w < |s.workers| && InRange(s, Order(s, w)) && k <= |Order(s, w)| && AllEmpty(s, w, k)
    ensures k == |Order(s, w)| ==> TurnEnd(s, w) == SetWorker(s, w, Blocked(HomeOf(s, w).notifier))
    ensures k < |Order(s, w)| && s.contexts[Order(s, w)[k]].queue != [] ==> TurnEnd(s, w) == Take(s, Order(s, w)[k], w)
  {
  }

  lemma UpdateTwice<A>(xs: seq<A>, i: nat, x: A, y: A)
    requires i < |xs|
    ensures xs[i := x][i := y] == xs[i := y]
  {
  }

  lemma LookGoesOn<T>(s: Pool<T>, s0: Pool<T>, w: nat)
    requires Shape(s0) && Shape(s) && w < |s0.workers| && InRange(s0, Order(s0, w)) && Turns(s, s0, w)
    requires s.workers[w].Loaded?
    ensures Turns(WorkStep(s, w, false), s0, w) && 0 <= TurnLeft(WorkStep(s, w, false), w) < TurnLeft(s, w)
  {
    var home := Home(s0.kind, w);
    assert Order(s0, w)[0] == home && s.contexts == s0.contexts;
    TakenFirst(s0, w, 0);
    UpdateTwice(s0.workers, w, s.workers[w], WorkStep(s, w, false).workers[w]);
  }

  lemma SweepGoesOn<T>(s: Pool<T>, s0: Pool<T>, w: nat)
    requires Shape(s0) && Shape(s) && w < |s0.workers| && InRange(s0, Order(s0, w)) && Turns(s, s0, w)
    requires s.workers[w].Sweeping? && !StopAsked(s0.closing, w)
    ensures Turns(WorkStep(s, w, false), s0, w) && 0 <= TurnLeft(WorkStep(s, w, false), w) < TurnLeft(s, w)
  {
    var tried, sweep := s.workers[w].tried, SweepOf(s0, w);
    assert s.contexts == s0.contexts && SweepOf(s, w) == sweep;
    if |tried| < |sweep| {
      assert Order(s0, w)[|tried| + 1] == sweep[|tried|];
      assert tried + [sweep[|tried|]] <= sweep;
      TakenFirst(s0, w, |tried| + 1);
    }
    UpdateTwice(s0.workers, w, s.workers[w], WorkStep(s, w, false).workers[w]);
  }

  lemma TurnGoesOn<T>(s: Pool<T>, s0: Pool<T>, w: nat)
    requires Shape(s0) && Shape(s) && w < |s0.workers| && InRange(s0, Order(s0, w)) && Turns(s, s0, w)
    requires !StopAsked(s0.closing, w) && TurnLeft(s, w) > 0
    ensures Turns(WorkStep(s, w, false), s0, w) && 0 <= TurnLeft(WorkStep(s, w, false), w) < TurnLeft(s, w)
  {
    if s.workers[w].Loaded? {
      LookGoesOn(s, s0, w);
    } else if s.workers[w].Sweeping? {
      SweepGoesOn(s, s0, w);
    } else {
      UpdateTwice(s0.workers, w, s.workers[w], WorkStep(s, w, false).workers[w]);
      if s.workers[w].Waiting? {
        TakenFirst(s0, w, |Order(s0, w)|);
      }
    }
  }

  /** From the top of its loop a worker alone comes to the end of its turn. */
  lemma {:induction false} TurnFrom<T>(s: Pool<T>, s0: Pool<T>, w: nat) returns (n: nat)
    requires Shape(s0) && Shape(s) && w < |s0.workers| && InRange(s0, Order(s0, w)) && Turns(s, s0, w)
    requires !StopAsked(s0.closing, w) && TurnLeft(s, w) >= 0
    ensures n <= TurnLeft(s, w) && Alone(s, w, n) == TurnEnd(s0, w)
    decreases TurnLeft(s, w)
  {
    if TurnLeft(s, w) == 0 {
      n := 0;
    } else {
      TurnGoesOn(s, s0, w);
      n := TurnFrom(WorkStep(s, w, false), s0, w);
      n := n + 1;
    }
  }

  /**
   A worker that is at the top of its loop, not asked to stop, and alone, runs within |sweep| + 5
   steps the head of the first queue that holds a task, in the order of its own queue and its sweep;
   if none does it blocks.
   */
  lemma TurnAlone<T>(s: Pool<T>, w: nat) returns (n: nat)
    requires Shape(s) && w < |s.workers| && s.workers[w].Top? && !StopAsked(s.closing, w)
    ensures InRange(s, Order(s, w)) && n <= |SweepOf(s, w)| + 5 && Alone(s, w, n) == TurnEnd(s, w)
  {
    OrderInRange(s, w);
    n := TurnFrom(s, s, w);
  }

  // ----- Stealing -----

  /** What a sweep comes to that has found the queues `tried` so far to be of no use. */
  function SweepEnd<T>(s: Pool<T>, w: nat, seen: nat, tried: nat): (s': Pool<T>)
    requires Shape(s) && w < |s.workers| && InRange(s, SweepOf(s, w)) && tried <= |SweepOf(s, w)|
  {
    var k := FirstFull(s, SweepOf(s, w), tried);
    if k < |SweepOf(s, w)| then Take(s, SweepOf(s, w)[k], w)
    else SetWorker(s, w, if StopAsked(s.closing, w) then Exited else Waiting(seen))
  }

  lemma {:induction false} SweepFrom<T>(s: Pool<T>, w: nat, seen: nat, tried: seq<nat>) returns (n: nat)
    requires Shape(s) && w < |s.workers| && InRange(s, SweepOf(s, w))
    requires s.workers[w] == Sweeping(seen, tried) && tried <= SweepOf(s, w)
    ensures n <= |SweepOf(s, w)| - |tried| + 1 && Alone(s, w, n) == SweepEnd(s, w, seen, |tried|)
    decreases |SweepOf(s, w)| - |tried|
  {
    var sweep := SweepOf(s, w);
    var s' := WorkStep(s, w, false);
    if |tried| < |sweep| && s.contexts[sweep[|tried|]].queue == [] {
      var tried' := tried + [sweep[|tried|]];
      assert SweepOf(s', w) == sweep && tried' <= sweep;
      n := SweepFrom(s', w, seen, tried');
      SameFirst(s, s', sweep, |tried'|);
      SweepEndMoves(s, s', w, seen, tried, tried');
      n := n + 1;
    } else {
      n := 1;
      assert Alone(s, w, 1) == Alone(s', w, 0);
    }
  }

  lemma {:induction false} SameFirst<T>(s: Pool<T>, s': Pool<T>, order: seq<nat>, i: nat)
    requires InRange(s, order) && i <= |order| && s'.contexts == s.contexts
    ensures FirstFull(s', order, i) == FirstFull(s, order, i)
    decreases |order| - i
  {
    if i < |order| {
      SameFirst(s, s', order, i + 1);
    }
  }

  lemma SweepEndMoves<T>(s: Pool<T>, s': Pool<T>, w: nat, seen: nat, tried: seq<nat>, tried': seq<nat>)
    requires Shape(s) && w < |s.workers| && InRange(s, SweepOf(s, w)) && |tried| < |SweepOf(s, w)|
    requires s' == SetWorker(s, w, Sweeping(seen, tried')) && |tried'| == |tried| + 1
    requires FirstFull(s', SweepOf(s, w), |tried'|) == FirstFull(s, SweepOf(s, w), |tried|)
    ensures SweepEnd(s', w, seen, |tried'|) == SweepEnd(s, w, seen, |tried|)
  {
    assert forall x: Worker<T> {:trigger s.workers[w := x]} :: s'.workers[w := x] == s.workers[w := x];
  }

  /**
   In every reachable state, a worker that begins its sweep runs, alone and meeting no contended
   lock, within |sweep| + 1 steps the head of the first queue in its sweep that holds a task. It goes
   on to wait or leave if and only if none does.
   */
  lemma SweepSteals<T>(kind: Kind, workers: nat, acts: seq<Action<T>>, w: nat, seen: nat) returns (n: nat)
    requires w < workers && Exec(Init(kind, workers), acts).workers[w] == Sweeping(seen, [])
    ensures var s := Exec(Init(kind, workers), acts);
            && InRange(s, SweepOf(s, w)) && n <= |SweepOf(s, w)| + 1
            && Alone(s, w, n) == SweepEnd(s, w, seen, 0)
  {
    var s := Exec(Init(kind, workers), acts);
    SweepInRange(kind, w, |s.contexts|);
    n := SweepFrom(s, w, seen, []);
  }

  /** With the sweep in turn a worker gets a task whenever any other queue holds one. */
  lemma TurnStealsFromAny<T>(s: Pool<T>, w: nat, seen: nat, c: nat)
    requires Shape(s) && s.kind.StealInTurn? && w < |s.workers| && c < |s.contexts| && c != w
    requires s.contexts[c].queue != [] && InRange(s, SweepOf(s, w))
    ensures SweepEnd(s, w, seen, 0).workers[w].Running?
  {
    SweepInTurn(w, |s.contexts|);
    assert c in SweepOf(s, w);
    var i :| 0 <= i < |SweepOf(s, w)| && SweepOf(s, w)[i] == c;
    assert FirstFull(s, SweepOf(s, w), 0) <= i;
  }

  // ----- Submitting -----

  /** The pool after `k` parts of a submission to the open pool `s`: check, choose, push, increment. */
  function Under<T>(s: Pool<T>, t: nat, task: T, k: nat): (s': Pool<T>)
    requires Shape(s)
    ensures Shape(s')
  {
    var c := Slot(s.next, |s.contexts|);
    var x := s.contexts[c];
    if k == 0 then SetSubmitter(s, t, Called(task))
    else if k == 1 then SetSubmitter(s, t, Checked(task))
    else if k == 2 then SetSubmitter(s, t, Chosen(task, c)).(next := s.next + 1)
    else if k == 3 then
      SetSubmitter(s, t, Queued(c)).(contexts := s.contexts[c := PushTask(x, task)], next := s.next + 1)
    else
      SetSubmitter(s, t, Counted(c))
      .(contexts := s.contexts[c := PushTask(x, task).(notifier := x.notifier + 1)], next := s.next + 1)
  }

  lemma PartLeads<T>(s: Pool<T>, t: nat, task: T, k: nat, pick: nat)
    requires Shape(s) && s.closing.Open? && k < 4
    ensures DeliverStep(Under(s, t, task, k), t, pick) == Under(s, t, task, k + 1)
  {
    var c := Slot(s.next, |s.contexts|);
    var x := s.contexts[c];
    assert Under(s, t, task, k).submitters[t := SubmitterOf(Under(s, t, task, k + 1), t)] ==
           s.submitters[t := SubmitterOf(Under(s, t, task, k + 1), t)];
    if k == 3 {
      UpdateTwice(s.contexts, c, PushTask(x, task), PushTask(x, task).(notifier := x.notifier + 1));
    }
  }

  predicate BlockedOn<T>(s: Pool<T>, c: nat, w: nat) {
    w < |s.workers| && Home(s.kind, w) == c && s.workers[w].Blocked?
  }

  /**
   What a whole submission comes to: the task is the last in the queue whose turn it is, its notifier
   is one higher, one of the workers blocked on that is unblocked if there is any, and nothing else
   changes.
   */
  ghost predicate Delivered<T>(s: Pool<T>, s': Pool<T>, t: nat, task: T)
    requires Shape(s)
  {
    var c := Slot(s.next, |s.contexts|);
    var x := s.contexts[c];
    && s' == s.(contexts := s.contexts[c := Context(x.queue + [task], x.notifier + 1, x.pushed + [task], x.taken)],
                workers := s'.workers, submitters := s.submitters[t := Away], next := s.next + 1)
    && if exists w: nat :: BlockedOn(s, c, w) then
         exists w: nat :: BlockedOn(s, c, w) && s'.workers == s.workers[w := Waiting(s.workers[w].seen)]
       else s'.workers == s.workers
  }

  /** After the notifier has been raised exactly the blocked workers of its queue may be unblocked. */
  lemma BlockedIsEligible<T>(s: Pool<T>, t: nat, task: T, w: nat)
    requires Shape(s) && Fits(s) && w < |s.workers|
    ensures var c := Slot(s.next, |s.contexts|); Eligible(Under(s, t, task, 4), c, w) <==> BlockedOn(s, c, w)
  {
    assert WorkerFits(s, w);
  }

  lemma LastPart<T>(s: Pool<T>, t: nat, task: T, pick: nat)
    requires Shape(s) && Fits(s)
    requires var c := Slot(s.next, |s.contexts|); BlockedOn(s, c, pick) || forall w: nat :: !BlockedOn(s, c, w)
    ensures Delivered(s, DeliverStep(Under(s, t, task, 4), t, pick), t, task)
  {
    var c := Slot(s.next, |s.contexts|);
    var s4 := Under(s, t, task, 4);
    assert s4.submitters[t := Away] == s.submitters[t := Away];
    forall w: nat | w < |s.workers| ensures Eligible(s4, c, w) <==> BlockedOn(s, c, w) {
      BlockedIsEligible(s, t, task, w);
    }
    if BlockedOn(s, c, pick) {
      assert DeliverStep(s4, t, pick).workers == s.workers[pick := Waiting(s.workers[pick].seen)];
    }
  }

  // ----- A whole shutdown -----

  /** What the shutdown does to the queue of context `c`, and to a worker of that context. */
  function Raise<T>(s: Pool<T>, c: nat): Context<T>
    requires c < |s.contexts|
  {
    s.contexts[c].(notifier := s.contexts[c].notifier + if s.kind.GlobalQueue? then |s.workers| else 1)
  }

  function Rouse<T>(x: Worker<T>): Worker<T> {
    if x.Blocked? then Waiting(x.seen) else x
  }

  /** The shutdown that began at `s0`, nobody else moving, has dealt with the first `c` contexts. */
  ghost predicate ClosedUpTo<T>(s: Pool<T>, s0: Pool<T>, c: nat) {
    && s == s0.(contexts := s.contexts, workers := s.workers, closing := s.closing)
    && |s.contexts| == |s0.contexts| && |s.workers| == |s0.workers|
    && (forall k :: 0 <= k < |s0.contexts| ==> s.contexts[k] == if k < c then Raise(s0, k) else s0.contexts[k])
    && (forall w :: 0 <= w < |s0.workers| ==>
          s.workers[w] == if Home(s0.kind, w) < c then Rouse(s0.workers[w]) else s0.workers[w])
  }

  lemma ClosesNext<T>(s: Pool<T>, s0: Pool<T>, c: nat)
    requires Shape(s) && Shape(s0) && Fits(s0) && ClosedUpTo(s, s0, c) && s.closing == Adding(c) && c < |s.contexts|
    ensures var s' := ShutdownStep(ShutdownStep(s)); ClosedUpTo(s', s0, c + 1) && s'.closing == Adding(c + 1)
  {
    var s1 := ShutdownStep(s);
    var s' := ShutdownStep(s1);
    forall w | 0 <= w < |s0.workers|
      ensures s'.workers[w] == if Home(s0.kind, w) < c + 1 then Rouse(s0.workers[w]) else s0.workers[w]
    {
      assert WorkerFits(s0, w);
    }
  }
}
