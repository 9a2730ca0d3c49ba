/**
 The thread pools over mutex-protected queues, as a step system: one global queue, one queue per
 worker, and the two pools whose idle workers steal. Every load, increment, notification and
 mutex section of submitters, workers and the thread that shuts down is one step.
 */
module Pool {
  import opened Common
  import opened ClosingDown

  datatype Kind = GlobalQueue | LocalQueues | StealInTurn | StealFromNeighbors

  /**
   Where a worker is in its loop. `seen` is the notifier value it loaded before looking, `tried`
   the queues it swept after finding its own one empty. `Waiting` is inside `wait`, about to
   compare; a `Blocked` worker compares again once it is unblocked.
   */
  datatype Worker<T> =
    | Top
    | Admitted
    | Loaded(seen: nat)
    | Sweeping(seen: nat, tried: seq<nat>)
    | Running(task: T)
    | Waiting(seen: nat)
    | Blocked(seen: nat)
    | Exited

  datatype Submitter<T> =
    | Away
    | Called(task: T)
    | Checked(task: T)
    | Chosen(task: T, ctx: nat)
    | Queued(ctx: nat)
    | Counted(ctx: nat)
    | Refused

  /** `pushed` and `taken` record every task that ever went into and came out of the queue. */
  datatype Context<T> = Context(queue: seq<T>, notifier: nat, pushed: seq<T>, taken: seq<T>)

  datatype Pool<T> = Pool(kind: Kind, contexts: seq<Context<T>>, workers: seq<Worker<T>>,
                          submitters: map<nat, Submitter<T>>, next: nat, closing: Closing,
                          executed: seq<T>)

  /**
   `pick` is the worker a notification unblocks, `contended` says that a `try_to_lock` failed.
   */
  datatype Action<T> =
    | Submit(tid: nat, task: T)
    | Deliver(tid: nat, pick: nat)
    | Work(worker: nat, contended: bool)
    | Stir(worker: nat)
    | Shutdown

  // ----- Which queue belongs to whom -----

  function ContextCount(kind: Kind, workers: nat): nat {
    if kind.GlobalQueue? then 1 else workers
  }

  function Home(kind: Kind, w: nat): nat {
    if kind.GlobalQueue? then 0 else w
  }

  function TurnsFrom(w: nat, from: nat, n: nat): seq<nat>
    requires n > 0
    decreases n - from
  {
    if from >= n then [] else [Slot(w + from, n)] + TurnsFrom(w, from + 1, n)
  }

  /** The queues a worker tries after its own one, in order. */
  function Sweep(kind: Kind, w: nat, n: nat): seq<nat> {
    if n <= 1 then [] else
    match kind
    case StealInTurn => TurnsFrom(w, 1, n)
    case StealFromNeighbors => [Slot(w + 1, n), Slot(w + n - 1, n)]
    case _ => []
  }

  function Init<T>(kind: Kind, workers: nat): Pool<T> {
    Pool(kind, seq(ContextCount(kind, workers), i requires 0 <= i => Context([], 0, [], [])),
         seq(workers, i requires 0 <= i => Top),
         map[], 0, Open, [])
  }

  predicate Shape<T>(s: Pool<T>) {
    |s.contexts| == ContextCount(s.kind, |s.workers|) && |s.contexts| > 0
  }

  function SubmitterOf<T>(s: Pool<T>, t: nat): Submitter<T> {
    if t in s.submitters then s.submitters[t] else Away
  }

  function HomeOf<T>(s: Pool<T>, w: nat): Context<T>
    requires Shape(s) && w < |s.workers|
  {
    s.contexts[Home(s.kind, w)]
  }

  function SweepOf<T>(s: Pool<T>, w: nat): seq<nat> {
    Sweep(s.kind, w, |s.contexts|)
  }

  function SetWorker<T>(s: Pool<T>, w: nat, x: Worker<T>): Pool<T>
    requires w < |s.workers|
  {
    s.(workers := s.workers[w := x])
  }

  function SetSubmitter<T>(s: Pool<T>, t: nat, x: Submitter<T>): Pool<T> {
    s.(submitters := s.submitters[t := x])
  }

  // ----- Steps -----

  /** A notification on `c` may unblock worker `w`: it blocked on an older value. */
  predicate Eligible<T>(s: Pool<T>, c: nat, w: nat)
    requires Shape(s) && c < |s.contexts| && w < |s.workers|
  {
    Home(s.kind, w) == c && s.workers[w].Blocked? && s.workers[w].seen != s.contexts[c].notifier
  }

  function PushTask<T>(c: Context<T>, task: T): Context<T> {
    c.(queue := c.queue + [task], pushed := c.pushed + [task])
  }

  function PopTask<T>(c: Context<T>): Context<T>
    requires c.queue != []
  {
    c.(queue := c.queue[1..], taken := c.taken + [c.queue[0]])
  }

  function Take<T>(s: Pool<T>, c: nat, w: nat): Pool<T>
    requires c < |s.contexts| && w < |s.workers| && s.contexts[c].queue != []
  {
    SetWorker(s, w, Running(s.contexts[c].queue[0])).(contexts := s.contexts[c := PopTask(s.contexts[c])])
  }

  function Bump<T>(s: Pool<T>, c: nat, amount: nat): Pool<T>
    requires c < |s.contexts|
  {
    s.(contexts := s.contexts[c := s.contexts[c].(notifier := s.contexts[c].notifier + amount)])
  }

  function WakeAll<T>(s: Pool<T>, c: nat): Pool<T>
    requires Shape(s) && c < |s.contexts|
  {
    s.(workers := seq(|s.workers|, w requires 0 <= w < |s.workers| =>
      if Eligible(s, c, w) then Waiting(s.workers[w].seen) else s.workers[w]))
  }

  /** The worker stays where it is, or is unblocked. */
  ghost predicate Stirred<T>(x: Worker<T>, x': Worker<T>) {
    x' == x || (x.Blocked? && x' == Waiting(x.seen))
  }

  function DeliverStep<T>(s: Pool<T>, t: nat, pick: nat): (s': Pool<T>)
    requires Shape(s)
    ensures Shape(s') && s'.kind == s.kind && s'.closing == s.closing && |s'.workers| == |s.workers|
    ensures t in s'.submitters || s'.submitters == s.submitters
    ensures s'.submitters == s.submitters || s'.submitters == s.submitters[t := SubmitterOf(s', t)]
    ensures forall w :: 0 <= w < |s.workers| ==> Stirred(s.workers[w], s'.workers[w])
    ensures forall c :: 0 <= c < |s.contexts| ==> s.contexts[c].notifier <= s'.contexts[c].notifier
  {
    match SubmitterOf(s, t)
    case Called(task) => SetSubmitter(s, t, if s.closing.Open? then Checked(task) else Refused)
    case Checked(task) => SetSubmitter(s, t, Chosen(task, Slot(s.next, |s.contexts|))).(next := s.next + 1)
    case Chosen(task, c) =>
      if c >= |s.contexts| then s
      else SetSubmitter(s, t, Queued(c)).(contexts := s.contexts[c := PushTask(s.contexts[c], task)])
    case Queued(c) => if c >= |s.contexts| then s else SetSubmitter(Bump(s, c, 1), t, Counted(c))
    case Counted(c) =>
      if c >= |s.contexts| then s
      else if pick < |s.workers| && Eligible(s, c, pick) then
        SetWorker(SetSubmitter(s, t, Away), pick, Waiting(s.workers[pick].seen))
      else if exists w :: 0 <= w < |s.workers| && Eligible(s, c, w) then s
      else SetSubmitter(s, t, Away)
    case Refused => SetSubmitter(s, t, Away)
    case Away => s
  }

  /** At most one task left the queue, from its front. */
  ghost predicate OnlyTaken<T>(c: Context<T>, c': Context<T>) {
    c' == c || (c.queue != [] && c' == PopTask(c))
  }

  function WorkStep<T>(s: Pool<T>, w: nat, contended: bool): (s': Pool<T>)
    requires Shape(s) && w < |s.workers|
    ensures Shape(s') && s'.kind == s.kind && s'.closing == s.closing && s'.submitters == s.submitters
    ensures |s'.workers| == |s.workers|
    ensures forall v :: 0 <= v < |s.workers| && v != w ==> s'.workers[v] == s.workers[v]
    ensures forall c :: 0 <= c < |s.contexts| ==> OnlyTaken(s.contexts[c], s'.contexts[c])
  {
    var home := Home(s.kind, w);
    match s.workers[w]
    case Top => SetWorker(s, w, if StopAsked(s.closing, w) then Exited else Admitted)
    case Admitted => SetWorker(s, w, Loaded(s.contexts[home].notifier))
    case Loaded(seen) => if s.contexts[home].queue == [] then SetWorker(s, w, Sweeping(seen, [])) else Take(s, home, w)
    case Sweeping(seen, tried) =>
      var order := SweepOf(s, w);
      if |tried| >= |order| then SetWorker(s, w, if StopAsked(s.closing, w) then Exited else Waiting(seen))
      else if order[|tried|] >= |s.contexts| then s
      else if contended || s.contexts[order[|tried|]].queue == [] then
        SetWorker(s, w, Sweeping(seen, tried + [order[|tried|]]))
      else Take(s, order[|tried|], w)
    case Running(task) => SetWorker(s, w, Top).(executed := s.executed + [task])
    case Waiting(seen) => SetWorker(s, w, if s.contexts[home].notifier != seen then Top else Blocked(seen))
    case Blocked(_) => s
    case Exited => s
  }

  function ShutdownStep<T>(s: Pool<T>): (s': Pool<T>)
    requires Shape(s)
  {
    match s.closing
    case Open => s.(closing := Asking(0))
    case Asking(n) => s.(closing := if n < |s.workers| then Asking(n + 1) else Adding(0))
    case Adding(c) =>
      if c < |s.contexts| then Bump(s, c, if s.kind.GlobalQueue? then |s.workers| else 1).(closing := Notifying(c))
      else s.(closing := Joining)
    case Notifying(c) => if c < |s.contexts| then WakeAll(s, c).(closing := Adding(c + 1)) else s
    case Joining => s
  }

  function Step<T>(s: Pool<T>, a: Action<T>): (s': Pool<T>)
    requires Shape(s)
    ensures Shape(s') && s'.kind == s.kind && |s'.workers| == |s.workers|
  {
    match a
    case Submit(t, task) => if SubmitterOf(s, t).Away? then SetSubmitter(s, t, Called(task)) else s
    case Deliver(t, pick) => DeliverStep(s, t, pick)
    case Work(w, contended) => if w < |s.workers| then WorkStep(s, w, contended) else s
    case Stir(w) => if w < |s.workers| && s.workers[w].Blocked? then SetWorker(s, w, Waiting(s.workers[w].seen)) else s
    case Shutdown => ShutdownStep(s)
  }

  function Exec<T>(s: Pool<T>, acts: seq<Action<T>>): (s': Pool<T>)
    requires Shape(s)
    ensures Shape(s') && s'.kind == s.kind && |s'.workers| == |s.workers|
  {
    if acts == [] then s else Step(Exec(s, acts[..|acts| - 1]), acts[|acts| - 1])
  }

  // ----- No wakeup is lost -----

  /** The worker has looked into its own queue, found nothing, and remembers `seen`. */
  predicate Looked<T>(x: Worker<T>) {
    x.Sweeping? || x.Waiting? || x.Blocked?
  }

  ghost predicate HasQueued<T>(s: Pool<T>, c: nat) {
    exists t :: t in s.submitters && s.submitters[t] == Queued(c)
  }

  /** A submitter of queue `c` has pushed and not yet finished notifying. */
  ghost predicate InDelivery<T>(s: Pool<T>, c: nat) {
    exists t :: t in s.submitters && (s.submitters[t] == Queued(c) || s.submitters[t] == Counted(c))
  }

  /** A worker that will look into its queue again without being notified. */
  predicate WillLook<T>(x: Worker<T>, notifier: nat) {
    match x
    case Sweeping(seen, _) => seen != notifier
    case Waiting(seen) => seen != notifier
    case Blocked(_) => false
    case Exited => false
    case _ => true
  }

  ghost predicate SomeoneWillLook<T>(s: Pool<T>, c: nat)
    requires Shape(s) && c < |s.contexts|
  {
    exists w :: 0 <= w < |s.workers| && Home(s.kind, w) == c && WillLook(s.workers[w], s.contexts[c].notifier)
  }

  ghost predicate NoneMissed<T>(s: Pool<T>)
    requires Shape(s)
  {
    forall w :: 0 <= w < |s.workers| ==> Attentive(s, w)
  }

  /** A worker that found its queue empty learns of a later task from the notifier. */
  ghost predicate Attentive<T>(s: Pool<T>, w: nat)
    requires Shape(s) && w < |s.workers|
  {
    Looked(s.workers[w]) && s.workers[w].seen == HomeOf(s, w).notifier && HomeOf(s, w).queue != [] ==>
      HasQueued(s, Home(s.kind, w))
  }

  ghost predicate Served<T>(s: Pool<T>)
    requires Shape(s)
  {
    forall c :: 0 <= c < |s.contexts| ==> ServedAt(s, c)
  }

  ghost predicate ServedAt<T>(s: Pool<T>, c: nat)
    requires Shape(s) && c < |s.contexts|
  {
    s.closing.Open? && |s.workers| > 0 && s.contexts[c].queue != [] ==> InDelivery(s, c) || SomeoneWillLook(s, c)
  }

  /** Workers leave only when asked to, and sweep in the prescribed order. */
  predicate WorkerFits<T>(s: Pool<T>, w: nat)
    requires Shape(s) && w < |s.workers|
  {
    match s.workers[w]
    case Loaded(seen) => seen <= HomeOf(s, w).notifier
    case Sweeping(seen, tried) => seen <= HomeOf(s, w).notifier && tried <= SweepOf(s, w)
    case Waiting(seen) => seen <= HomeOf(s, w).notifier
    case Blocked(seen) => seen <= HomeOf(s, w).notifier
    case Exited => StopAsked(s.closing, w)
    case _ => true
  }

  predicate SubmitterFits<T>(s: Pool<T>, x: Submitter<T>) {
    match x
    case Chosen(_, c) => c < |s.contexts|
    case Queued(c) => c < |s.contexts|
    case Counted(c) => c < |s.contexts|
    case _ => true
  }

  ghost predicate Fits<T>(s: Pool<T>)
    requires Shape(s)
  {
    && (forall w :: 0 <= w < |s.workers| ==> WorkerFits(s, w))
    && (forall t :: t in s.submitters ==> SubmitterFits(s, s.submitters[t]))
    && (s.closing.Notifying? ==> s.closing.ctx < |s.contexts|)
  }

  ghost predicate Inv<T>(s: Pool<T>)
    requires Shape(s)
  {
    Fits(s) && NoneMissed(s) && Served(s)
  }

  lemma InitInv<T>(kind: Kind, workers: nat)
    requires kind.GlobalQueue? || workers > 0
    ensures Shape(Init<T>(kind, workers)) && Inv(Init<T>(kind, workers))
  {
  }

  /** The fields a worker's place in the invariant depends on. */
  lemma FitsFrame<T>(s: Pool<T>, s': Pool<T>, w: nat)
    requires Shape(s) && Shape(s') && w < |s.workers| == |s'.workers| && s'.kind == s.kind
    requires WorkerFits(s, w) && Stirred(s.workers[w], s'.workers[w])
    requires HomeOf(s, w).notifier <= HomeOf(s', w).notifier && (StopAsked(s.closing, w) ==> StopAsked(s'.closing, w))
    ensures WorkerFits(s', w)
  {
  }

  lemma DeliverKeepsFits<T>(s: Pool<T>, t: nat, pick: nat)
    requires Shape(s) && Fits(s)
    ensures Fits(DeliverStep(s, t, pick))
  {
    var s' := DeliverStep(s, t, pick);
    assert t in s.submitters ==> SubmitterFits(s, s.submitters[t]);
    assert SubmitterFits(s', SubmitterOf(s', t));
    forall w | 0 <= w < |s'.workers| ensures WorkerFits(s', w) {
      FitsFrame(s, s', w);
    }
    forall u | u in s'.submitters ensures SubmitterFits(s', s'.submitters[u]) {
      assert u != t ==> SubmitterFits(s, s.submitters[u]);
    }
  }

  lemma WorkFits<T>(s: Pool<T>, w: nat, contended: bool)
    requires Shape(s) && w < |s.workers| && WorkerFits(s, w)
    ensures WorkerFits(WorkStep(s, w, contended), w)
  {
  }

  lemma WorkKeepsFits<T>(s: Pool<T>, w: nat, contended: bool)
    requires Shape(s) && Fits(s) && w < |s.workers|
    ensures Fits(WorkStep(s, w, contended))
  {
    var s' := WorkStep(s, w, contended);
    WorkFits(s, w, contended);
    forall v | 0 <= v < |s'.workers| && v != w ensures WorkerFits(s', v) {
      FitsFrame(s, s', v);
    }
    forall u | u in s'.submitters ensures SubmitterFits(s', s'.submitters[u]) {
      assert SubmitterFits(s, s.submitters[u]);
    }
  }

  lemma StepKeepsFits<T>(s: Pool<T>, a: Action<T>)
    requires Shape(s) && Fits(s)
    ensures Fits(Step(s, a))
  {
    if a.Deliver? {
      DeliverKeepsFits(s, a.tid, a.pick);
    } else if a.Work? {
      if a.worker < |s.workers| {
        WorkKeepsFits(s, a.worker, a.contended);
      }
    } else {
      var s' := Step(s, a);
      forall w | 0 <= w < |s'.workers| ensures WorkerFits(s', w) {
        assert WorkerFits(s, w);
      }
      forall u | u in s'.submitters ensures SubmitterFits(s', s'.submitters[u]) {
        assert u in s.submitters ==> SubmitterFits(s, s.submitters[u]);
      }
    }
  }

  /** Submitters other than `t` stay where they are. */
  lemma OthersDeliver<T>(s: Pool<T>, s': Pool<T>, t: nat, c: nat)
    requires s'.submitters == s.submitters[t := SubmitterOf(s', t)]
    ensures HasQueued(s, c) && SubmitterOf(s, t) != Queued(c) ==> HasQueued(s', c)
    ensures InDelivery(s, c) && SubmitterOf(s, t) != Queued(c) && SubmitterOf(s, t) != Counted(c) ==> InDelivery(s', c)
    ensures SubmitterOf(s', t) == Queued(c) ==> HasQueued(s', c)
    ensures SubmitterOf(s', t) == Queued(c) || SubmitterOf(s', t) == Counted(c) ==> InDelivery(s', c)
  {
    assert t in s'.submitters;
    if HasQueued(s, c) && SubmitterOf(s, t) != Queued(c) {
      var u :| u in s.submitters && s.submitters[u] == Queued(c);
      assert u in s'.submitters && s'.submitters[u] == Queued(c);
    }
    if InDelivery(s, c) && SubmitterOf(s, t) != Queued(c) && SubmitterOf(s, t) != Counted(c) {
      var u :| u in s.submitters && (s.submitters[u] == Queued(c) || s.submitters[u] == Counted(c));
      assert u in s'.submitters && s'.submitters[u] == s.submitters[u];
    }
  }

  lemma SameDeliveries<T>(s: Pool<T>, s': Pool<T>, c: nat)
    requires s'.submitters == s.submitters
    ensures HasQueued(s', c) == HasQueued(s, c) && InDelivery(s', c) == InDelivery(s, c)
  {
  }

  lemma CallDeliversNothing<T>(s: Pool<T>, t: nat, task: T, c: nat)
    requires SubmitterOf(s, t).Away?
    ensures HasQueued(s, c) ==> HasQueued(SetSubmitter(s, t, Called(task)), c)
    ensures InDelivery(s, c) ==> InDelivery(SetSubmitter(s, t, Called(task)), c)
  {
    OthersDeliver(s, SetSubmitter(s, t, Called(task)), t, c);
  }

  lemma DeliverKeepsNoneMissed<T>(s: Pool<T>, t: nat, pick: nat, w: nat)
    requires Shape(s) && Fits(s) && w < |s.workers| && Attentive(s, w)
    ensures Attentive(DeliverStep(s, t, pick), w)
  {
    var s' := DeliverStep(s, t, pick);
    assert WorkerFits(s, w) && Stirred(s.workers[w], s'.workers[w]);
    if !SubmitterOf(s, t).Away? {
      OthersDeliver(s, s', t, Home(s.kind, w));
    }
  }

  lemma WorkKeepsNoneMissed<T>(s: Pool<T>, v: nat, contended: bool, w: nat)
    requires Shape(s) && v < |s.workers| && w < |s.workers| && Attentive(s, w)
    ensures Attentive(WorkStep(s, v, contended), w)
  {
    var s' := WorkStep(s, v, contended);
    SameDeliveries(s, s', Home(s.kind, w));
    assert OnlyTaken(HomeOf(s, w), HomeOf(s', w));
  }

  lemma StepKeepsNoneMissed<T>(s: Pool<T>, a: Action<T>)
    requires Shape(s) && Fits(s) && NoneMissed(s)
    ensures NoneMissed(Step(s, a))
  {
    var s' := Step(s, a);
    forall w | 0 <= w < |s'.workers| ensures Attentive(s', w) {
      assert Attentive(s, w) && WorkerFits(s, w);
      match a {
        case Deliver(t, pick) => DeliverKeepsNoneMissed(s, t, pick, w);
        case Work(v, contended) => if v < |s.workers| { WorkKeepsNoneMissed(s, v, contended, w); }
        case Submit(t, task) => if SubmitterOf(s, t).Away? { CallDeliversNothing(s, t, task, Home(s.kind, w)); }
        case _ => SameDeliveries(s, s', Home(s.kind, w));
      }
    }
  }

  // ----- Every queued task has somebody coming for it -----

  lemma WorkKeepsServed<T>(s: Pool<T>, w: nat, contended: bool, c: nat)
    requires Shape(s) && Inv(s) && w < |s.workers| && c < |s.contexts|
    ensures ServedAt(WorkStep(s, w, contended), c)
  {
    var s' := WorkStep(s, w, contended);
    assert WorkerFits(s, w) && ServedAt(s, c) && OnlyTaken(s.contexts[c], s'.contexts[c]);
    SameDeliveries(s, s', c);
    if s.closing.Open? && |s.workers| > 0 && s'.contexts[c].queue != [] && !InDelivery(s, c) {
      var v :| 0 <= v < |s.workers| && Home(s.kind, v) == c && WillLook(s.workers[v], s.contexts[c].notifier);
      if v == w {
        assert WillLook(s'.workers[v], s'.contexts[c].notifier);
      }
    }
  }

  lemma DeliverKeepsServed<T>(s: Pool<T>, t: nat, pick: nat, c: nat)
    requires Shape(s) && Inv(s) && c < |s.contexts|
    ensures ServedAt(DeliverStep(s, t, pick), c)
  {
    var s' := DeliverStep(s, t, pick);
    assert ServedAt(s, c);
    if SubmitterOf(s, t) == Counted(c) {
      NotifiedIsServed(s, t, pick, c);
    } else if !SubmitterOf(s, t).Away? {
      OthersDeliver(s, s', t, c);
      if SomeoneWillLook(s, c) {
        var v :| 0 <= v < |s.workers| && Home(s.kind, v) == c && WillLook(s.workers[v], s.contexts[c].notifier);
        assert Stirred(s.workers[v], s'.workers[v]) && WorkerFits(s, v);
        assert WillLook(s'.workers[v], s'.contexts[c].notifier);
      }
    }
  }

  /** A notification leaves somebody awake for the queue, or there was somebody already. */
  lemma NotifiedIsServed<T>(s: Pool<T>, t: nat, pick: nat, c: nat)
    requires Shape(s) && Inv(s) && c < |s.contexts| && SubmitterOf(s, t) == Counted(c)
    ensures ServedAt(DeliverStep(s, t, pick), c)
  {
    var s' := DeliverStep(s, t, pick);
    OthersDeliver(s, s', t, c);
    if s.closing.Open? && |s.workers| > 0 && s'.contexts[c].queue != [] {
      if pick < |s.workers| && Eligible(s, c, pick) {
        assert WillLook(s'.workers[pick], s'.contexts[c].notifier);
      } else if w :| 0 <= w < |s.workers| && Eligible(s, c, w) {
        assert s' == s;
      } else {
        var w := c;
        assert Home(s.kind, w) == c;
        assert WorkerFits(s, w) && Attentive(s, w) && !Eligible(s, c, w);
        assert s'.workers == s.workers;
        if !WillLook(s.workers[w], s.contexts[c].notifier) {
          assert HasQueued(s, c);
        }
      }
    }
  }

  lemma StepKeepsServed<T>(s: Pool<T>, a: Action<T>)
    requires Shape(s) && Inv(s)
    ensures Served(Step(s, a))
  {
    var s' := Step(s, a);
    forall c | 0 <= c < |s'.contexts| ensures ServedAt(s', c) {
      assert ServedAt(s, c);
      match a {
        case Deliver(t, pick) => DeliverKeepsServed(s, t, pick, c);
        case Work(w, contended) => if w < |s.workers| { WorkKeepsServed(s, w, contended, c); }
        case Submit(t, task) => if SubmitterOf(s, t).Away? { CallDeliversNothing(s, t, task, c); }
        case Stir(v) =>
          SameDeliveries(s, s', c);
          if SomeoneWillLook(s, c) {
            var w :| 0 <= w < |s.workers| && Home(s.kind, w) == c && WillLook(s.workers[w], s.contexts[c].notifier);
            assert s'.workers[w] == s.workers[w];
          }
        case Shutdown =>
      }
    }
  }

  lemma StepKeepsInv<T>(s: Pool<T>, a: Action<T>)
    requires Shape(s) && Inv(s)
    ensures Inv(Step(s, a))
  {
    StepKeepsFits(s, a);
    StepKeepsNoneMissed(s, a);
    StepKeepsServed(s, a);
  }

  lemma {:induction false} RunKeepsInv<T>(s: Pool<T>, acts: seq<Action<T>>)
    requires Shape(s) && Inv(s)
    ensures Inv(Exec(s, acts))
  {
    if acts != [] {
      RunKeepsInv(s, acts[..|acts| - 1]);
      StepKeepsInv(Exec(s, acts[..|acts| - 1]), acts[|acts| - 1]);
    }
  }

  /**
   No wakeup is lost. In every reachable state of every pool, as long as shutdown has not begun:
   a queue whose workers are all blocked, and that no submitter is between pushing to and
   notifying, is empty.
   */
  lemma NoLostWakeup<T>(kind: Kind, workers: nat, acts: seq<Action<T>>, c: nat)
    requires workers > 0 && c < ContextCount(kind, workers)
    ensures var s := Exec(Init(kind, workers), acts);
            s.closing.Open? && (forall w :: 0 <= w < workers && Home(kind, w) == c ==> s.workers[w].Blocked?) &&
            !InDelivery(s, c) ==>
            s.contexts[c].queue == []
  {
    InitInv<T>(kind, workers);
    RunKeepsInv(Init(kind, workers), acts);
    assert ServedAt(Exec(Init(kind, workers), acts), c);
  }
}
