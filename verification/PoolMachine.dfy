/**
 The pool object over its arrays of queues, notifiers and worker positions. Each method is one
 atomic action of the step system, done in place.
 */
module PoolMachine {
  import opened Common
  import opened ClosingDown
  import opened Pool
  import opened PoolRuns
  import opened PoolAlone

  class ThreadPool<T> {
    const kind: Kind
    const queues: array<seq<T>>
    const notifiers: array<nat>
    const workers: array<Worker<T>>
    var submitters: map<nat, Submitter<T>>
    var next: nat
    var closing: Closing
    ghost var pushed: seq<seq<T>>
    ghost var taken: seq<seq<T>>
    ghost var executed: seq<T>

    ghost predicate Valid()
      reads this, queues, notifiers, workers
    {
      queues.Length == notifiers.Length == |pushed| == |taken| == ContextCount(kind, workers.Length) &&
      queues.Length > 0
    }

    ghost function ContextsFrom(c: nat): seq<Context<T>>
      reads this, queues, notifiers, workers
      requires Valid() && c <= queues.Length
    {
      seq(c, i requires 0 <= i < c && Valid() && c <= queues.Length reads this, queues, notifiers, workers =>
        Context(queues[i], notifiers[i], pushed[i], taken[i]))
    }

    ghost function State(): (s: Pool<T>)
      reads this, queues, notifiers, workers
      requires Valid()
      ensures Shape(s)
    {
      Pool(kind, ContextsFrom(queues.Length), workers[..], submitters, next, closing, executed)
    }

    constructor (kind: Kind, count: nat)
      requires kind.GlobalQueue? || count > 0
      ensures Valid() && State() == Init(kind, count)
      ensures fresh(queues) && fresh(notifiers) && fresh(workers)
    {
      this.kind := kind;
      var n := ContextCount(kind, count);
      queues := new seq<T>[n](_ => []);
      notifiers := new nat[n](_ => 0);
      workers := new Worker<T>[count](_ => Top);
      submitters, next, closing, executed := map[], 0, Open, [];
      pushed, taken := seq(n, _ => []), seq(n, _ => []);
      new;
      assert State().contexts == Init<T>(kind, count).contexts;
      assert State().workers == Init<T>(kind, count).workers;
    }

    /** A worker takes the first task of queue `c`, under its mutex. */
    method TakeFrom(c: nat, w: nat)
      requires Valid() && c < queues.Length && w < workers.Length && queues[c] != []
      modifies this`taken, queues, workers
      ensures Valid() && State() == Take(old(State()), c, w)
    {
      var task := queues[c][0];
      workers[w] := Running(task);
      queues[c] := queues[c][1..];
      taken := taken[c := taken[c] + [task]];
      assert State().contexts == Take(old(State()), c, w).contexts;
      assert State().workers == Take(old(State()), c, w).workers;
    }
  
    method Increment(c: nat, amount: nat)
      requires Valid() && c < queues.Length
      modifies notifiers
      ensures Valid() && State() == Bump(old(State()), c, amount)
    {
      notifiers[c] := notifiers[c] + amount;
      assert State().contexts == Bump(old(State()), c, amount).contexts;
    }

    /** The parts of `derived_execute`, for the submitter `t`. */
    method Deliver(t: nat, pick: nat)
      requires Valid() && t in submitters && Fits(State())
      modifies this, queues, notifiers, workers
      ensures Valid() && State() == DeliverStep(old(State()), t, pick)
    {
      assert SubmitterFits(State(), State().submitters[t]);
      match submitters[t] {
        case Called(task) => submitters := submitters[t := if closing.Open? then Checked(task) else Refused];
        case Checked(task) =>
          submitters := submitters[t := Chosen(task, next % queues.Length)];
          SlotIsModulo(next, queues.Length);
          next := next + 1;
        case Chosen(task, c) =>
          queues[c] := queues[c] + [task];
          pushed := pushed[c := pushed[c] + [task]];
          submitters := submitters[t := Queued(c)];
          assert State().contexts == DeliverStep(old(State()), t, pick).contexts;
        case Queued(c) =>
          Increment(c, 1);
          submitters := submitters[t := Counted(c)];
        case Counted(c) => NotifyOne(t, c, pick);
        case Refused => submitters := submitters[t := Away];
        case Away =>
      }
    }

    /** Unblocks `pick` if it may be unblocked, and has no effect only if nobody may. */
    method NotifyOne(t: nat, c: nat, pick: nat)
      requires Valid() && t in submitters && submitters[t] == Counted(c) && c < queues.Length
      modifies this`submitters, workers
      ensures Valid() && State() == DeliverStep(old(State()), t, pick)
    {
      if pick < workers.Length && Home(kind, pick) == c && workers[pick].Blocked? &&
         workers[pick].seen != notifiers[c] {
        workers[pick] := Waiting(workers[pick].seen);
        submitters := submitters[t := Away];
      } else {
        var w := 0;
        while w < workers.Length
          invariant w <= workers.Length && forall v :: 0 <= v < w ==> !Eligible(State(), c, v)
        {
          if Home(kind, w) == c && workers[w].Blocked? && workers[w].seen != notifiers[c] {
            assert Eligible(State(), c, w);
            return;
          }
          w := w + 1;
        }
        submitters := submitters[t := Away];
      }
    }

    /** One action of a worker's loop. */
    method Work(w: nat, contended: bool)
      requires Valid() && w < workers.Length && Fits(State())
      modifies this, queues, workers
      ensures Valid() && State() == WorkStep(old(State()), w, contended)
    {
      var home := Home(kind, w);
      match workers[w] {
        case Top => workers[w] := if StopAsked(closing, w) then Exited else Admitted;
        case Admitted => workers[w] := Loaded(notifiers[home]);
        case Loaded(seen) =>
          if queues[home] == [] {
            workers[w] := Sweeping(seen, []);
          } else {
            TakeFrom(home, w);
          }
        case Sweeping(seen, tried) =>
          var order := Sweep(kind, w, queues.Length);
          if |tried| >= |order| {
            workers[w] := if StopAsked(closing, w) then Exited else Waiting(seen);
          } else {
            SweepInRange(kind, w, queues.Length);
            var target := order[|tried|];
            if contended || queues[target] == [] {
              workers[w] := Sweeping(seen, tried + [target]);
            } else {
              TakeFrom(target, w);
            }
          }
        case Running(task) =>
          executed := executed + [task];
          workers[w] := Top;
        case Waiting(seen) => workers[w] := if notifiers[home] != seen then Top else Blocked(seen);
        case Blocked(_) =>
        case Exited =>
      }
      assert State().contexts == WorkStep(old(State()), w, contended).contexts;
    }

    method NotifyAll(c: nat)
      requires Valid() && c < queues.Length
      modifies workers
      ensures Valid() && State() == WakeAll(old(State()), c)
    {
      ghost var s := State();
      for w := 0 to workers.Length
        invariant Valid() && State() == s.(workers := workers[..])
        invariant forall v :: 0 <= v < workers.Length ==>
          workers[v] == if v < w && Eligible(s, c, v) then Waiting(s.workers[v].seen) else s.workers[v]
      {
        if Home(kind, w) == c && workers[w].Blocked? && workers[w].seen != notifiers[c] {
          workers[w] := Waiting(workers[w].seen);
        }
      }
      assert State().workers == WakeAll(s, c).workers;
    }

    method Call(t: nat, task: T)
      requires Valid()
      modifies this`submitters
      ensures Valid() && State() == Step(old(State()), Submit(t, task))
    {
      if t !in submitters || submitters[t].Away? {
        submitters := submitters[t := Called(task)];
      }
      assert State().contexts == old(State()).contexts;
    }

    /** A blocked worker is unblocked for no reason. */
    method Stir(w: nat)
      requires Valid()
      modifies workers
      ensures Valid() && State() == Step(old(State()), Action.Stir(w))
    {
      if w < workers.Length && workers[w].Blocked? {
        workers[w] := Waiting(workers[w].seen);
      }
      assert State().contexts == old(State()).contexts;
    }

    method Act(a: Action<T>)
      requires Valid() && Inv(State())
      modifies this, queues, notifiers, workers
      ensures Valid() && Inv(State()) && State() == Step(old(State()), a)
    {
      StepKeepsInv(State(), a);
      match a {
        case Submit(t, task) => Call(t, task);
        case Deliver(t, pick) => if t in submitters { Deliver(t, pick); }
        case Work(w, contended) => if w < workers.Length { Work(w, contended); }
        case Stir(w) => Stir(w);
        case Shutdown => Close();
      }
    }

    /** One action of the thread that shuts the pool down. */
    method Close()
      requires Valid() && Fits(State())
      modifies this`closing, notifiers, workers
      ensures Valid() && State() == ShutdownStep(old(State()))
    {
      match closing {
        case Open => closing := Asking(0);
        case Asking(n) => closing := if n < workers.Length then Asking(n + 1) else Adding(0);
        case Adding(c) =>
          if c < queues.Length {
            Increment(c, if kind.GlobalQueue? then workers.Length else 1);
            closing := Notifying(c);
          } else {
            closing := Joining;
          }
        case Notifying(c) =>
          NotifyAll(c);
          closing := Adding(c + 1);
        case Joining =>
      }
    }
  
    /** The stop flag and the stop requests. */
    method AskAll()
      requires Valid() && Inv(State()) && closing.Open?
      modifies this`closing, notifiers, workers
      ensures Valid() && Inv(State()) && closing == Adding(0) && NobodyStays()
      ensures State() == old(State()).(closing := Adding(0))
    {
      CloseStep();
      for i := 0 to workers.Length
        invariant Valid() && Inv(State()) && closing == Asking(i) && State() == old(State()).(closing := Asking(i))
      {
        CloseStep();
      }
      CloseStep();
    }

    /**
     `shutdown` run to its end by the first caller, everybody else standing wherever they are: each
     notifier is raised, by the number of workers if there is only the global one, and each blocked
     worker is unblocked.
     */
    method Shutdown()
      requires Valid() && Inv(State())
      modifies this`closing, notifiers, workers
      ensures Valid() && Inv(State())
      ensures !old(closing.Open?) ==> State() == old(State())
      ensures old(closing.Open?) ==> closing.Joining? && NobodyStays()
      ensures old(closing.Open?) ==> forall c :: 0 <= c < queues.Length ==>
                notifiers[c] == old(notifiers[c]) + if kind.GlobalQueue? then workers.Length else 1
      ensures old(closing.Open?) ==> forall w :: 0 <= w < workers.Length ==>
                workers[w] == if old(workers[w]).Blocked? then Waiting(old(workers[w]).seen) else old(workers[w])
    {
      if !closing.Open? {
        return;
      }
      ghost var s := State();
      AskAll();
      for c := 0 to queues.Length
        invariant Valid() && Inv(State()) && closing == Adding(c) && NobodyStays() && ClosedUpTo(State(), s, c)
      {
        ClosesNext(State(), s, c);
        CloseStep();
        CloseStep();
      }
      CloseStep();
      ClosedAll(s);
    }

    /** Everything said about the state in terms of the object's fields. */
    lemma ClosedAll(s: Pool<T>)
      requires Valid() && ClosedUpTo(State(), s, queues.Length)
      ensures forall c :: 0 <= c < queues.Length ==>
                notifiers[c] == s.contexts[c].notifier + if kind.GlobalQueue? then workers.Length else 1
      ensures forall w :: 0 <= w < workers.Length ==> workers[w] == Rouse(s.workers[w])
    {
      forall c | 0 <= c < queues.Length
        ensures notifiers[c] == s.contexts[c].notifier + if kind.GlobalQueue? then workers.Length else 1
      {
        assert State().contexts[c].notifier == notifiers[c];
      }
    }

    ghost predicate NobodyStays()
      reads this, queues, notifiers, workers
      requires Valid()
    {
      forall w :: 0 <= w < |State().workers| ==> LeavesWait(State(), w)
    }

    method CloseStep()
      requires Valid() && Inv(State())
      modifies this`closing, notifiers, workers
      ensures Valid() && Inv(State()) && State() == ShutdownStep(old(State()))
      ensures old(NobodyStays()) ==> NobodyStays()
    {
      ghost var s := State();
      StepKeepsInv(s, Action.Shutdown);
      forall w | 0 <= w < |s.workers| && LeavesWait(s, w) ensures LeavesWait(ShutdownStep(s), w) {
        StepKeepsLeaving(s, Action.Shutdown, w);
      }
      Close();
    }

    /** A worker blocked on the notifier of queue `c`, or `workers.Length` if there is none. */
    method FindBlocked(c: nat) returns (pick: nat)
      requires Valid()
      ensures BlockedOn(State(), c, pick) || forall w: nat :: !BlockedOn(State(), c, w)
    {
      pick := 0;
      while pick < workers.Length
        invariant pick <= workers.Length && forall w: nat :: w < pick ==> !BlockedOn(State(), c, w)
      {
        if Home(kind, pick) == c && workers[pick].Blocked? {
          return;
        }
        pick := pick + 1;
      }
    }

    /**
     `derived_execute` by submitter `t` while everybody else stands still wherever they are. After a
     stop it is rejected and changes nothing.
     */
    method Execute(t: nat, task: T) returns (accepted: bool)
      requires Valid() && Inv(State()) && SubmitterOf(State(), t).Away?
      modifies this, queues, notifiers, workers
      ensures Valid() && Inv(State()) && (accepted <==> old(closing.Open?))
      ensures if accepted then Delivered(old(State()), State(), t, task)
              else State() == SetSubmitter(old(State()), t, Away)
    {
      ghost var s := State();
      accepted := closing.Open?;
      var pick := FindBlocked(Slot(next, queues.Length));
      Act(Submit(t, task));
      if accepted {
        Carry(t, task, pick, s);
      } else {
        Act(Action.Deliver(t, 0));
        Act(Action.Deliver(t, 0));
        assert s.submitters[t := Called(task)][t := Refused][t := Away] == s.submitters[t := Away];
      }
    }

    /** The parts of a submission that began at `s`, from the stop check on. */
    method Carry(t: nat, task: T, pick: nat, ghost s: Pool<T>)
      requires Shape(s) && Fits(s) && s.closing.Open?
      requires Valid() && Inv(State()) && State() == Under(s, t, task, 0)
      requires BlockedOn(s, Slot(s.next, |s.contexts|), pick) ||
               forall w: nat :: !BlockedOn(s, Slot(s.next, |s.contexts|), w)
      modifies this, queues, notifiers, workers
      ensures Valid() && Inv(State()) && Delivered(s, State(), t, task)
    {
      for k := 0 to 4
        invariant Valid() && Inv(State()) && State() == Under(s, t, task, k)
      {
        PartLeads(s, t, task, k, 0);
        Act(Action.Deliver(t, 0));
      }
      LastPart(s, t, task, pick);
      Act(Action.Deliver(t, pick));
    }

    /**
     One turn of the loop of worker `w`, not asked to stop, while everybody else stands still and no
     lock is contended: it comes back with a task of its own queue, or with one it stole, and has
     blocked otherwise.
     */
    method Turn(w: nat) returns (found: bool)
      requires Valid() && Inv(State()) && w < workers.Length && workers[w].Top? && !StopAsked(closing, w)
      modifies this, queues, notifiers, workers
      ensures Valid() && Inv(State()) && InRange(old(State()), Order(old(State()), w))
      ensures State() == TurnEnd(old(State()), w) && (found <==> workers[w].Running?)
    {
      ghost var s := State();
      OrderInRange(s, w);
      while !workers[w].Running? && !workers[w].Blocked?
        invariant Valid() && Inv(State()) && Turns(State(), s, w) && 0 <= TurnLeft(State(), w)
        decreases TurnLeft(State(), w)
      {
        TurnGoesOn(State(), s, w);
        Act(Action.Work(w, false));
      }
      found := workers[w].Running?;
    }

    /** Any interleaving of any number of submitters, the workers, and a shutdown. */
    method RunAll(acts: seq<Action<T>>)
      requires Valid() && Inv(State())
      modifies this, queues, notifiers, workers
      ensures Valid() && Inv(State()) && State() == Exec(old(State()), acts)
    {
      for i := 0 to |acts|
        invariant Valid() && Inv(State()) && State() == Exec(old(State()), acts[..i])
      {
        assert acts[..i + 1][..i] == acts[..i];
        Act(acts[i]);
      }
      assert acts[..|acts|] == acts;
    }
  }
}
