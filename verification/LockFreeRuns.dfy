/** No wakeup is lost in the lock-free pool, whatever its rings are in the middle of. */
module LockFreeRuns {
  import opened Common
  import Ring
  import RingFifo
  import opened ClosingDown
  import opened LockFreePool

  /** The worker's own pop has found nothing, and it remembers the notifier value from before. */
  predicate Looked<T>(x: Worker<T>) {
    x.Sweeping? || x.Waiting? || x.Blocked?
  }

  /** Client `t` has claimed a ticket of ring `c` and not yet raised its notifier. */
  predicate Owes<T>(s: Pool<T>, t: nat, c: nat)
    requires Shape(s) && c < |s.rings|
  {
    || ClientOf(s, t) == Pushed(c)
    || (ClientOf(s, t).Pushing? && ClientOf(s, t).ctx == c && Claims(Ring.LocalOf(s.rings[c], |s.workers| + t)))
  }

  ghost predicate SomeoneOwes<T>(s: Pool<T>, c: nat)
    requires Shape(s) && c < |s.rings|
  {
    exists t: nat :: Owes(s, t, c)
  }

  ghost predicate SomeoneNotifies<T>(s: Pool<T>, c: nat) {
    exists t: nat :: ClientOf(s, t) == Counted(c)
  }

  /** Tickets of ring `c` have been handed out to pushers and not yet to poppers. */
  predicate HasTickets<T>(s: Pool<T>, c: nat)
    requires Shape(s) && c < |s.rings|
  {
    s.rings[c].dequeuePos < s.rings[c].enqueuePos
  }

  /** A worker that looked in vain learns of tickets from the notifier. */
  ghost predicate Alert<T>(s: Pool<T>, w: nat)
    requires Shape(s) && w < |s.workers|
  {
    Looked(s.workers[w]) && s.workers[w].seen == s.notifiers[w] && HasTickets(s, w) ==> SomeoneOwes(s, w)
  }

  /** A blocked worker whose notifier has changed is about to be notified. */
  ghost predicate Reminded<T>(s: Pool<T>, w: nat)
    requires Shape(s) && w < |s.workers|
  {
    s.workers[w].Blocked? && s.workers[w].seen != s.notifiers[w] ==> SomeoneNotifies(s, w) || s.closing == Notifying(w)
  }

  predicate SeenFits<T>(s: Pool<T>, w: nat)
    requires Shape(s) && w < |s.workers|
  {
    var x := s.workers[w];
    && (x.Looking? || Looked(x) ==> x.seen <= s.notifiers[w])
    && (x.Exited? ==> StopAsked(s.closing, w))
    && (Raised(s.closing, w) && (x.Waiting? || x.Blocked?) ==> x.seen < s.notifiers[w])
    && (Roused(s.closing, w) ==> !x.Blocked?)
  }

  ghost predicate WorkerFits<T>(s: Pool<T>, w: nat)
    requires Shape(s) && w < |s.workers|
  {
    SeenFits(s, w) && Alert(s, w) && Reminded(s, w)
  }

  ghost predicate Inv<T>(s: Pool<T>)
    requires Shape(s)
  {
    Sound(s.rings) && LocalsFit(s) && forall w :: 0 <= w < |s.workers| ==> WorkerFits(s, w)
  }

  lemma InitInv<T>(workers: nat, capacity: nat)
    requires workers > 0 && capacity >= 2
    ensures Shape(Init<T>(workers, capacity)) && Inv(Init<T>(workers, capacity))
  {
    Ring.InitInv<T>(capacity, false);
  }

  /** A pop that finds its next ticket handed out but unpublished finds the pusher of that ticket still busy. */
  lemma UnpublishedIsOwed<T>(s: Pool<T>, c: nat)
    requires Shape(s) && LocalsFit(s) && c < |s.rings| && RingFifo.Unpublished(s.rings[c], s.rings[c].dequeuePos)
    ensures SomeoneOwes(s, c)
  {
    var id :| id in s.rings[c].threads && Ring.PushOwns(s.rings[c].threads[id], s.rings[c].dequeuePos);
    assert LocalAgrees(s, c, id);
    assert Owes(s, id - |s.workers|, c);
  }

  /** Everyone but thread `id` keeps what it owes. */
  lemma OthersOwe<T>(s: Pool<T>, s': Pool<T>, id: nat, c: nat)
    requires Shape(s) && Shape(s') && c < |s.rings| && |s'.workers| == |s.workers|
    requires s'.rings[c] == s.rings[c] || Acted(s.rings[c], s'.rings[c], id)
    requires forall t: nat :: |s.workers| + t != id ==> ClientOf(s', t) == ClientOf(s, t)
    ensures SomeoneOwes(s, c) ==> SomeoneOwes(s', c) || (id >= |s.workers| && Owes(s, id - |s.workers|, c))
    ensures SomeoneNotifies(s, c) ==>
              SomeoneNotifies(s', c) || (id >= |s.workers| && ClientOf(s, id - |s.workers|) == Counted(c))
  {
    if SomeoneOwes(s, c) {
      var t: nat :| Owes(s, t, c);
      assert |s.workers| + t != id ==> Owes(s', t, c);
    }
    if SomeoneNotifies(s, c) {
      var t: nat :| ClientOf(s, t) == Counted(c);
      assert |s.workers| + t != id ==> ClientOf(s', t) == Counted(c);
    }
  }

  lemma WorkKeepsSeen<T>(s: Pool<T>, w: nat, spurious: bool)
    requires Shape(s) && w < |s.workers| && SeenFits(s, w)
    ensures SeenFits(WorkStep(s, w, spurious), w)
  {
  }

  lemma PopStepActs<T>(s: Pool<T>, w: nat, c: nat, seen: nat, i: nat, spurious: bool)
    requires Shape(s) && w < |s.workers| && c < |s.rings| && PopOutcome(s.rings[c], w, spurious)
    requires i < |s.workers| - 1 ==> Target(w, i, |s.workers|) != c
    ensures var s' := PopStep(s, w, c, seen, i, spurious);
            && (forall k :: 0 <= k < |s.rings| ==>
                  s'.rings[k] == s.rings[k] ||
                  (Acted(s.rings[k], s'.rings[k], w) && s'.rings[k].enqueuePos == s.rings[k].enqueuePos))
            && (s'.workers[w].Sweeping? && !s.workers[w].Sweeping? ==>
                  s.rings[c].dequeuePos == s.rings[c].enqueuePos ||
                  RingFifo.Unpublished(s.rings[c], s.rings[c].dequeuePos))
  {
  }

  /** What a step of worker `v` does to the rings. */
  lemma WorkActs<T>(s: Pool<T>, v: nat, spurious: bool)
    requires Shape(s) && v < |s.workers|
    requires PopRing(s, v).Some? ==> PopOutcome(s.rings[PopRing(s, v).value], v, spurious)
    ensures var s' := WorkStep(s, v, spurious);
            && (forall c :: 0 <= c < |s.rings| ==>
                  s'.rings[c] == s.rings[c] ||
                  (Acted(s.rings[c], s'.rings[c], v) && s'.rings[c].enqueuePos == s.rings[c].enqueuePos))
            && (s.workers[v].Looking? && Looked(s'.workers[v]) ==>
                  s.rings[v].dequeuePos == s.rings[v].enqueuePos ||
                  RingFifo.Unpublished(s.rings[v], s.rings[v].dequeuePos))
  {
    if PopRing(s, v).Some? {
      NextTarget(s, v);
      var i := if s.workers[v].Looking? then 0 else s.workers[v].i + 1;
      PopStepActs(s, v, PopRing(s, v).value, s.workers[v].seen, i, spurious);
    }
  }

  lemma WorkKeepsWorker<T>(s: Pool<T>, v: nat, spurious: bool, w: nat)
    requires Shape(s) && v < |s.workers| && w < |s.workers| && LocalsFit(s) && WorkerFits(s, w)
    requires PopRing(s, v).Some? ==> PopOutcome(s.rings[PopRing(s, v).value], v, spurious)
    ensures WorkerFits(WorkStep(s, v, spurious), w)
  {
    var s' := WorkStep(s, v, spurious);
    WorkActs(s, v, spurious);
    OthersOwe(s, s', v, w);
    if v == w {
      WorkKeepsSeen(s, w, spurious);
      if s.workers[w].Looking? && Looked(s'.workers[w]) && HasTickets(s, w) {
        UnpublishedIsOwed(s, w);
      }
    }
  }

  lemma PushKeepsWorker<T>(s: Pool<T>, t: nat, id: nat, task: T, c: nat, spurious: bool, w: nat)
    requires Shape(s) && w < |s.workers| && c < |s.rings| && WorkerFits(s, w) && id == |s.workers| + t
    requires ClientOf(s, t) == Pushing(task, c) && PushOutcome(s.rings[c], id, spurious)
    ensures WorkerFits(PushStep(s, t, id, c, spurious), w)
  {
    var s' := PushStep(s, t, id, c, spurious);
    OthersOwe(s, s', id, w);
    if w == c && HasTickets(s', w) && (!HasTickets(s, w) || Owes(s, t, w)) {
      assert Owes(s', t, w);
    }
  }

  lemma StealActs<T>(s: Pool<T>, t: nat, id: nat, c: nat, spurious: bool)
    requires Shape(s) && c < |s.rings| && PopOutcome(s.rings[c], id, spurious)
    ensures var s' := StealStep(s, t, id, c, spurious);
            forall k :: 0 <= k < |s.rings| ==>
              || s'.rings[k] == s.rings[k]
              || (Acted(s.rings[k], s'.rings[k], id) && s'.rings[k].enqueuePos == s.rings[k].enqueuePos)
  {
  }

  lemma StealKeepsWorker<T>(s: Pool<T>, t: nat, id: nat, c: nat, spurious: bool, w: nat)
    requires Shape(s) && w < |s.workers| && c < |s.rings| && WorkerFits(s, w) && id == |s.workers| + t
    requires ClientOf(s, t) == Stealing(c) && PopOutcome(s.rings[c], id, spurious)
    ensures WorkerFits(StealStep(s, t, id, c, spurious), w)
  {
    StealActs(s, t, id, c, spurious);
    OthersOwe(s, StealStep(s, t, id, c, spurious), id, w);
  }

  /** Client `t` takes a step outside the rings that neither raises nor notifies `w`. */
  lemma OutsideKeepsWorker<T>(s: Pool<T>, s': Pool<T>, t: nat, id: nat, w: nat)
    requires Shape(s) && Shape(s') && w < |s.workers| && WorkerFits(s, w) && id == |s.workers| + t
    requires s'.clients == s.clients[t := ClientOf(s', t)] && s'.workers == s.workers && s'.closing == s.closing
    requires s'.notifiers[w] == s.notifiers[w]
    requires s'.rings[w] == s.rings[w] ||
             (Acted(s.rings[w], s'.rings[w], id) && s'.rings[w].enqueuePos == s.rings[w].enqueuePos)
    requires ClientRing(ClientOf(s, t)).None? && ClientOf(s, t) != Pushed(w) && ClientOf(s, t) != Counted(w)
    ensures WorkerFits(s', w)
  {
    OthersOwe(s, s', id, w);
  }

  lemma CountKeepsWorker<T>(s: Pool<T>, t: nat, id: nat, c: nat, w: nat)
    requires Shape(s) && w < |s.workers| && c < |s.rings| && WorkerFits(s, w) && ClientOf(s, t) == Pushed(c)
    requires id == |s.workers| + t
    ensures WorkerFits(SetClient(Bump(s, c), t, Counted(c)), w)
  {
    var s' := SetClient(Bump(s, c), t, Counted(c));
    OthersOwe(s, s', id, w);
    assert ClientOf(s', t) == Counted(c);
  }

  lemma NotifyKeepsWorker<T>(s: Pool<T>, t: nat, id: nat, c: nat, w: nat)
    requires Shape(s) && w < |s.workers| && c < |s.rings| && WorkerFits(s, w) && ClientOf(s, t) == Counted(c)
    requires id == |s.workers| + t
    ensures WorkerFits(SetClient(Notify(s, c), t, Away), w)
  {
    var s' := SetClient(Notify(s, c), t, Away);
    OthersOwe(s, s', id, w);
  }

  lemma AdvanceKeepsWorker<T>(s: Pool<T>, t: nat, id: nat, spurious: bool, w: nat)
    requires Shape(s) && w < |s.workers| && WorkerFits(s, w) && ClientOutcome(s, t, spurious) && id == |s.workers| + t
    ensures WorkerFits(AdvanceStep(s, t, spurious), w)
  {
    match ClientOf(s, t) {
      case Away =>
      case Pushing(task, c) => if c < |s.rings| { PushKeepsWorker(s, t, id, task, c, spurious, w); }
      case Stealing(c) => if c < |s.rings| { StealKeepsWorker(s, t, id, c, spurious, w); }
      case Pushed(c) => if c < |s.rings| { CountKeepsWorker(s, t, id, c, w); }
      case Counted(c) => if c < |s.rings| { NotifyKeepsWorker(s, t, id, c, w); }
      case _ => OutsideKeepsWorker(s, AdvanceStep(s, t, spurious), t, id, w);
    }
  }

  lemma ShutdownKeepsWorker<T>(s: Pool<T>, w: nat)
    requires Shape(s) && w < |s.workers| && WorkerFits(s, w)
    ensures WorkerFits(ShutdownStep(s), w)
  {
    OthersOwe(s, ShutdownStep(s), 0, w);
  }

  lemma StepKeepsInv<T>(s: Pool<T>, a: Action<T>)
    requires Shape(s) && Inv(s)
    ensures Inv(Step(s, a))
  {
    StepKeepsSound(s, a);
    StepKeepsLocals(s, a);
    forall w | 0 <= w < |s.workers| ensures WorkerFits(Step(s, a), w) {
      StepKeepsWorker(s, a, w);
    }
  }

  lemma StepKeepsWorker<T>(s: Pool<T>, a: Action<T>, w: nat)
    requires Shape(s) && Sound(s.rings) && LocalsFit(s) && w < |s.workers| && WorkerFits(s, w)
    ensures WorkerFits(Step(s, a), w)
  {
    match a {
      case Work(v, spurious) =>
        if v < |s.workers| {
          WorkOutcome(s, v, spurious);
          WorkKeepsWorker(s, v, spurious, w);
        }
      case Advance(t, spurious) =>
        AdvanceOutcome(s, t, spurious);
        AdvanceKeepsWorker(s, t, |s.workers| + t, spurious, w);
      case Submit(t, _) => if ClientOf(s, t).Away? { OutsideKeepsWorker(s, Step(s, a), t, |s.workers| + t, w); }
      case Help(t) => if ClientOf(s, t).Away? { OutsideKeepsWorker(s, Step(s, a), t, |s.workers| + t, w); }
      case Stir(_) => OthersOwe(s, Step(s, a), 0, w);
      case Shutdown => ShutdownKeepsWorker(s, w);
    }
  }

  lemma {:induction false} RunKeepsInv<T>(s: Pool<T>, acts: seq<Action<T>>)
    requires Shape(s) && Inv(s)
    ensures Inv(Exec(s, acts))
  {
    if acts != [] {
      RunKeepsInv(s, acts[..|acts| - 1]);
      StepKeepsInv(Exec(s, acts[..|acts| - 1]), acts[|acts| - 1]);
    }
  }

  /**
   No wakeup is lost. In every reachable state, if a worker is blocked although tickets of its own
   ring have been handed out to pushers and not taken by poppers, then some submitter to that ring
   is between claiming its ticket and finishing its notification, or shutdown is about to notify.
   This holds even while an unpublished ticket hides a published one, and while others steal.
   */
  lemma NoLostWakeup<T>(workers: nat, capacity: nat, acts: seq<Action<T>>, w: nat)
    requires w < workers && capacity >= 2
    ensures var s := Exec(Init(workers, capacity), acts);
            s.workers[w].Blocked? && HasTickets(s, w) ==>
              SomeoneOwes(s, w) || SomeoneNotifies(s, w) || s.closing == Notifying(w)
  {
    InitInv<T>(workers, capacity);
    RunKeepsInv(Init(workers, capacity), acts);
    assert WorkerFits(Exec(Init(workers, capacity), acts), w);
  }

  /** Once shutdown only waits for the workers, none is blocked and none that waits can block again. */
  lemma ShutdownRouses<T>(workers: nat, capacity: nat, acts: seq<Action<T>>, more: seq<Action<T>>, w: nat)
    requires w < workers && capacity >= 2 && Exec(Init(workers, capacity), acts).closing.Joining?
    ensures Exec(Exec(Init(workers, capacity), acts), more).closing.Joining?
    ensures !Exec(Exec(Init(workers, capacity), acts), more).workers[w].Blocked?
  {
    InitInv<T>(workers, capacity);
    RunKeepsInv(Init(workers, capacity), acts);
    RunKeepsInv(Exec(Init(workers, capacity), acts), more);
    StaysJoining(Exec(Init(workers, capacity), acts), more);
    assert WorkerFits(Exec(Exec(Init(workers, capacity), acts), more), w);
  }

  lemma {:induction false} StaysJoining<T>(s: Pool<T>, acts: seq<Action<T>>)
    requires Shape(s) && s.closing.Joining?
    ensures Exec(s, acts).closing.Joining?
  {
    if acts != [] {
      StaysJoining(s, acts[..|acts| - 1]);
    }
  }

  // ----- Who has been asked to stop -----

  function Shutdowns<T>(acts: seq<Action<T>>): nat {
    if acts == [] then 0 else Shutdowns(acts[..|acts| - 1]) + if acts[|acts| - 1].Shutdown? then 1 else 0
  }

  /** How far `k` actions bring the shutdown. */
  predicate ClosedBy(closing: Closing, k: nat, workers: nat) {
    if k == 0 then closing.Open? else if k <= workers + 1 then closing == Asking(k - 1)
    else closing.Adding? || closing.Notifying? || closing.Joining?
  }

  lemma ClosingMoves<T>(s: Pool<T>, a: Action<T>, k: nat)
    requires Shape(s) && ClosedBy(s.closing, k, |s.workers|)
    ensures ClosedBy(Step(s, a).closing, k + if a.Shutdown? then 1 else 0, |s.workers|)
  {
  }

  /** The first action of the shutdown sets the stop flag, each of the next ones asks one worker, in order. */
  lemma {:induction false} AskedInOrder<T>(workers: nat, capacity: nat, acts: seq<Action<T>>, w: nat)
    requires w < workers && capacity > 0
    ensures var closing := Exec(Init(workers, capacity), acts).closing;
            ClosedBy(closing, Shutdowns(acts), workers) && (StopAsked(closing, w) <==> Shutdowns(acts) >= w + 2)
  {
    if acts != [] {
      var before := acts[..|acts| - 1];
      AskedInOrder(workers, capacity, before, w);
      ClosingMoves(Exec(Init(workers, capacity), before), acts[|acts| - 1], Shutdowns(before));
    }
  }

  /** A worker that has been asked begins no further turn: at the top of its loop it leaves. */
  lemma {:induction false} AskedBeginsNothing<T>(s: Pool<T>, more: seq<Action<T>>, w: nat)
    requires Shape(s) && w < |s.workers| && StopAsked(s.closing, w) && (s.workers[w].Top? || s.workers[w].Exited?)
    ensures var s' := Exec(s, more);
            StopAsked(s'.closing, w) &&
            (s'.workers[w].Exited? || (s'.workers[w].Top? && forall b :: Action.Work(w, b) !in more))
  {
    if more != [] {
      var before, a := more[..|more| - 1], more[|more| - 1];
      AskedBeginsNothing(s, before, w);
      AskedStep(Exec(s, before), a, w);
      assert more == before + [a];
    }
  }

  lemma AskedStep<T>(s: Pool<T>, a: Action<T>, w: nat)
    requires Shape(s) && w < |s.workers| && StopAsked(s.closing, w) && (s.workers[w].Top? || s.workers[w].Exited?)
    ensures var s' := Step(s, a);
            StopAsked(s'.closing, w) && (s'.workers[w].Exited? || (s'.workers[w].Top? && !(a.Work? && a.worker == w)))
    ensures s.workers[w].Exited? ==> Step(s, a).workers[w].Exited?
  {
  }
}
