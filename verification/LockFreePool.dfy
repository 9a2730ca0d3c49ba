/**
 The pool of workers that each own a lock-free ring queue and steal from the others. The steps of
 every push and pop inside the rings are interleaved with the waiting protocol around them.
 Thread `w` of a ring is worker `w`; thread `|workers| + t` is client `t`.
 */
module LockFreePool {
  import opened Common
  import Ring
  import RingFifo
  import opened ClosingDown

  /** `Looking` pops its own ring, `Sweeping(seen, i)` the ring of its `i`-th next neighbour. */
  datatype Worker<T> =
    | Top
    | Admitted
    | Looking(seen: nat)
    | Sweeping(seen: nat, i: nat)
    | Running(task: T)
    | Waiting(seen: nat)
    | Blocked(seen: nat)
    | Exited

  /** A thread that submits, or that helps through `try_steal`. */
  datatype Client<T> =
    | Away
    | Called(task: T)
    | Checked(task: T)
    | Pushing(task: T, ctx: nat)
    | Pushed(ctx: nat)
    | Counted(ctx: nat)
    | Refused
    | Stealing(ctx: nat)
    | Executing(task: T)

  datatype Pool<T> = Pool(rings: seq<Ring.Ring<T>>, notifiers: seq<nat>, workers: seq<Worker<T>>,
                              clients: map<nat, Client<T>>, next: nat, closing: Closing, executed: seq<T>)

  datatype Action<T> =
    | Submit(tid: nat, task: T)
    | Help(tid: nat)
    | Advance(tid: nat, spurious: bool)
    | Work(worker: nat, spurious: bool)
    | Stir(worker: nat)
    | Shutdown

  /** What one more action inside a ring operation brings. */
  datatype Round<T> = Still | Over(found: Option<T>)

  function Init<T>(workers: nat, capacity: nat): (s: Pool<T>)
    ensures workers > 0 && capacity > 0 ==> Shape(s)
  {
    var r := Ring.Init<T>(capacity, false);
    Pool(seq(workers, i requires 0 <= i => r), seq(workers, i requires 0 <= i => 0),
           seq(workers, i requires 0 <= i => Top), map[], 0, Open, [])
  }

  predicate Shape<T>(s: Pool<T>) {
    && |s.rings| == |s.notifiers| == |s.workers| && |s.workers| > 0
    && forall c :: 0 <= c < |s.rings| ==> |s.rings[c].cells| > 0
  }

  function ClientOf<T>(s: Pool<T>, t: nat): Client<T> {
    if t in s.clients then s.clients[t] else Away
  }

  function Target(w: nat, i: nat, n: nat): (c: nat)
    requires n > 0
    ensures c < n
  {
    Slot(w + i + 1, n)
  }

  function SetWorker<T>(s: Pool<T>, w: nat, x: Worker<T>): Pool<T>
    requires w < |s.workers|
  {
    s.(workers := s.workers[w := x])
  }

  function SetClient<T>(s: Pool<T>, t: nat, x: Client<T>): Pool<T> {
    s.(clients := s.clients[t := x])
  }

  function SetRing<T>(s: Pool<T>, c: nat, r: Ring.Ring<T>): Pool<T>
    requires c < |s.rings|
  {
    s.(rings := s.rings[c := r])
  }

  function StartPop<T>(s: Pool<T>, c: nat, id: nat): Pool<T>
    requires c < |s.rings|
  {
    SetRing(s, c, Ring.Move(s.rings[c], id, Ring.PopStart))
  }

  /** One action of thread `id` inside `pop`; when the pop is over the thread leaves the ring. */
  function PopRound<T>(r: Ring.Ring<T>, id: nat, spurious: bool): (over: (Ring.Ring<T>, Round<T>))
    requires |r.cells| > 0
    ensures |over.0.cells| == |r.cells|
  {
    var r' := Ring.Run(r, id, spurious);
    match Ring.LocalOf(r', id)
    case PopEnd(Got(_, Some(task))) => (Ring.Move(r', id, Ring.Idle), Over(Some(task)))
    case PopEnd(Nothing) => (Ring.Move(r', id, Ring.Idle), Over(None))
    case _ => (r', Still)
  }

  /** One action of thread `id` inside the loop around `push`. */
  function PushRound<T>(r: Ring.Ring<T>, id: nat, spurious: bool): (over: (Ring.Ring<T>, Round<T>))
    requires |r.cells| > 0
    ensures |over.0.cells| == |r.cells|
  {
    var r' := Ring.Run(r, id, spurious);
    match Ring.LocalOf(r', id)
    case PushEnd(msg, Accepted(_)) => (Ring.Move(r', id, Ring.Idle), Over(Some(msg)))
    case PushEnd(msg, Refused) => (Ring.Move(r', id, Ring.PushStart(msg)), Still)
    case _ => (r', Still)
  }

  function SweepFrom<T>(s: Pool<T>, w: nat, seen: nat, i: nat): (s': Pool<T>)
    requires Shape(s) && w < |s.workers|
    ensures Shape(s') && |s'.workers| == |s.workers|
  {
    var x := SetWorker(s, w, Sweeping(seen, i));
    if i < |s.workers| - 1 then StartPop(x, Target(w, i, |s.workers|), w) else x
  }

  /** A pop of worker `w` in ring `c`; `i` is the next neighbour to try. */
  function PopStep<T>(s: Pool<T>, w: nat, c: nat, seen: nat, i: nat, spurious: bool): (s': Pool<T>)
    requires Shape(s) && w < |s.workers| && c < |s.rings|
    ensures Shape(s') && |s'.workers| == |s.workers|
    ensures s' == s.(rings := s'.rings, workers := s.workers[w := s'.workers[w]])
    ensures s'.workers[w] == s.workers[w] || s'.workers[w].Running? || s'.workers[w] == Sweeping(seen, i)
  {
    var (r, round) := PopRound(s.rings[c], w, spurious);
    match round
    case Still => SetRing(s, c, r)
    case Over(Some(task)) => SetWorker(SetRing(s, c, r), w, Running(task))
    case Over(None) => SweepFrom(SetRing(s, c, r), w, seen, i)
  }

  function WorkStep<T>(s: Pool<T>, w: nat, spurious: bool): (s': Pool<T>)
    requires Shape(s) && w < |s.workers|
    ensures Shape(s') && |s'.workers| == |s.workers|
    ensures s' == s.(rings := s'.rings, workers := s.workers[w := s'.workers[w]], executed := s'.executed)
  {
    match s.workers[w]
    case Top => SetWorker(s, w, if StopAsked(s.closing, w) then Exited else Admitted)
    case Admitted => StartPop(SetWorker(s, w, Looking(s.notifiers[w])), w, w)
    case Looking(seen) => PopStep(s, w, w, seen, 0, spurious)
    case Sweeping(seen, i) =>
      if i < |s.workers| - 1 then PopStep(s, w, Target(w, i, |s.workers|), seen, i + 1, spurious)
      else SetWorker(s, w, if StopAsked(s.closing, w) then Exited else Waiting(seen))
    case Running(task) => SetWorker(s, w, Top).(executed := s.executed + [task])
    case Waiting(seen) => SetWorker(s, w, if s.notifiers[w] != seen then Top else Blocked(seen))
    case Blocked(_) => s
    case Exited => s
  }

  function Bump<T>(s: Pool<T>, c: nat): Pool<T>
    requires c < |s.notifiers|
  {
    s.(notifiers := s.notifiers[c := s.notifiers[c] + 1])
  }

  /** `notify_one` and `notify_all` alike: only worker `c` ever waits on notifier `c`. */
  function Notify<T>(s: Pool<T>, c: nat): Pool<T>
    requires Shape(s) && c < |s.workers|
  {
    if s.workers[c].Blocked? && s.workers[c].seen != s.notifiers[c] then SetWorker(s, c, Waiting(s.workers[c].seen))
    else s
  }

  /**
   An action of client `t`, thread `id` of the rings, inside its push, and inside its pop from the
   ring it tries to steal from.
   */
  function PushStep<T>(s: Pool<T>, t: nat, id: nat, c: nat, spurious: bool): (s': Pool<T>)
    requires Shape(s) && c < |s.rings|
    ensures Shape(s') && s' == s.(rings := s'.rings, clients := s'.clients)
    ensures s'.clients == s.clients || s'.clients == s.clients[t := Pushed(c)]
    ensures forall k :: 0 <= k < |s.rings| && k != c ==> s'.rings[k] == s.rings[k]
  {
    var (r, round) := PushRound(s.rings[c], id, spurious);
    if round.Over? then SetClient(SetRing(s, c, r), t, Pushed(c)) else SetRing(s, c, r)
  }

  function StealStep<T>(s: Pool<T>, t: nat, id: nat, c: nat, spurious: bool): (s': Pool<T>)
    requires Shape(s) && c < |s.rings|
    ensures Shape(s') && s' == s.(rings := s'.rings, clients := s'.clients)
    ensures s'.clients == s.clients || (s'.clients == s.clients[t := ClientOf(s', t)] && !ClientOf(s', t).Counted?)
  {
    var (r, round) := PopRound(s.rings[c], id, spurious);
    match round
    case Still => SetRing(s, c, r)
    case Over(Some(task)) => SetClient(SetRing(s, c, r), t, Executing(task))
    case Over(None) =>
      if c + 1 < |s.rings| then SetClient(StartPop(SetRing(s, c, r), c + 1, id), t, Stealing(c + 1))
      else SetClient(SetRing(s, c, r), t, Away)
  }

  function AdvanceStep<T>(s: Pool<T>, t: nat, spurious: bool): (s': Pool<T>)
    requires Shape(s)
    ensures Shape(s') && |s'.workers| == |s.workers|
  {
    var id := |s.workers| + t;
    match ClientOf(s, t)
    case Away => s
    case Called(task) => SetClient(s, t, if s.closing.Open? then Checked(task) else Refused)
    case Checked(task) =>
      var c := Slot(s.next, |s.rings|);
      var s' := SetRing(s, c, Ring.Move(s.rings[c], id, Ring.PushStart(task)));
      SetClient(s', t, Pushing(task, c)).(next := s.next + 1)
    case Pushing(_, c) => if c >= |s.rings| then s else PushStep(s, t, id, c, spurious)
    case Pushed(c) => if c >= |s.rings| then s else SetClient(Bump(s, c), t, Counted(c))
    case Counted(c) => if c >= |s.rings| then s else SetClient(Notify(s, c), t, Away)
    case Refused => SetClient(s, t, Away)
    case Stealing(c) => if c >= |s.rings| then s else StealStep(s, t, id, c, spurious)
    case Executing(task) => SetClient(s, t, Away).(executed := s.executed + [task])
  }

  function ShutdownStep<T>(s: Pool<T>): (s': Pool<T>)
    requires Shape(s)
    ensures Shape(s') && |s'.workers| == |s.workers|
  {
    match s.closing
    case Open => s.(closing := Asking(0))
    case Asking(n) => s.(closing := if n < |s.workers| then Asking(n + 1) else Adding(0))
    case Adding(c) => if c < |s.workers| then Bump(s, c).(closing := Notifying(c)) else s.(closing := Joining)
    case Notifying(c) => if c < |s.workers| then Notify(s, c).(closing := Adding(c + 1)) else s
    case Joining => s
  }

  function Step<T>(s: Pool<T>, a: Action<T>): (s': Pool<T>)
    requires Shape(s)
    ensures Shape(s') && |s'.workers| == |s.workers|
  {
    match a
    case Submit(t, task) => if ClientOf(s, t).Away? then SetClient(s, t, Called(task)) else s
    case Help(t) =>
      if ClientOf(s, t).Away? then SetClient(StartPop(s, 0, |s.workers| + t), t, Stealing(0)) else s
    case Advance(t, spurious) => AdvanceStep(s, t, spurious)
    case Work(w, spurious) => if w < |s.workers| then WorkStep(s, w, spurious) else s
    case Stir(w) => if w < |s.workers| && s.workers[w].Blocked? then SetWorker(s, w, Waiting(s.workers[w].seen)) else s
    case Shutdown => ShutdownStep(s)
  }

  function Exec<T>(s: Pool<T>, acts: seq<Action<T>>): (s': Pool<T>)
    requires Shape(s)
    ensures Shape(s') && |s'.workers| == |s.workers|
  {
    if acts == [] then s else Step(Exec(s, acts[..|acts| - 1]), acts[|acts| - 1])
  }

  // ----- The rings -----

  predicate PopLocal<T>(l: Ring.Local<T>) {
    l.PopStart? || l.PopLook? || l.PopCas? || l.PopTake? || l.PopRelease?
  }

  predicate PushLocal<T>(l: Ring.Local<T>) {
    l.PushStart? || l.PushLook? || l.PushCas? || l.PushWrite? || l.PushPublish?
  }

  /** The thread has claimed a ticket and not yet published under it. */
  predicate Claims<T>(l: Ring.Local<T>) {
    l.PushWrite? || l.PushPublish?
  }

  predicate WorkerPopsIn<T>(x: Worker<T>, w: nat, n: nat, c: nat)
    requires n > 0
  {
    (x.Looking? && c == w) || (x.Sweeping? && x.i < n - 1 && c == Target(w, x.i, n))
  }

  /** What thread `id` does in ring `c`, according to the pool. */
  predicate LocalAgrees<T>(s: Pool<T>, c: nat, id: nat)
    requires Shape(s) && c < |s.rings|
  {
    var n := |s.workers|;
    var l := Ring.LocalOf(s.rings[c], id);
    if id < n then if WorkerPopsIn(s.workers[id], id, n, c) then PopLocal(l) else l.Idle?
    else match ClientOf(s, id - n)
         case Pushing(_, k) => if k == c then PushLocal(l) else l.Idle?
         case Stealing(k) => if k == c then PopLocal(l) else l.Idle?
         case _ => l.Idle?
  }

  ghost predicate LocalsFit<T>(s: Pool<T>)
    requires Shape(s)
  {
    forall c, id: nat :: 0 <= c < |s.rings| ==> LocalAgrees(s, c, id)
  }

  ghost predicate Sound<T>(rings: seq<Ring.Ring<T>>) {
    forall c :: 0 <= c < |rings| ==> Ring.Inv(rings[c])
  }

  /** Thread `id` acted in the ring and nobody else did. */
  ghost predicate Acted<T>(r: Ring.Ring<T>, r': Ring.Ring<T>, id: nat) {
    r'.threads == r.threads[id := Ring.LocalOf(r', id)] && r.dequeuePos <= r'.dequeuePos &&
    r.enqueuePos <= r'.enqueuePos
  }

  /** A pop ends with a task, or when the next ticket is not published. */
  ghost predicate PopOutcome<T>(r: Ring.Ring<T>, id: nat, spurious: bool)
    requires |r.cells| > 0
  {
    var (r', round) := PopRound(r, id, spurious);
    && Acted(r, r', id) && r'.enqueuePos == r.enqueuePos
    && (if round.Still? then PopLocal(Ring.LocalOf(r', id)) else Ring.LocalOf(r', id).Idle?)
    && (round == Over(None) ==>
          r'.dequeuePos == r.dequeuePos && (r.dequeuePos == r.enqueuePos || RingFifo.Unpublished(r, r.dequeuePos)))
  }

  /** A push that has claimed its ticket goes on to publish it. */
  ghost predicate PushOutcome<T>(r: Ring.Ring<T>, id: nat, spurious: bool)
    requires |r.cells| > 0
  {
    var (r', round) := PushRound(r, id, spurious);
    && Acted(r, r', id) && r'.dequeuePos == r.dequeuePos
    && (if round.Still? then PushLocal(Ring.LocalOf(r', id)) else Ring.LocalOf(r', id).Idle?)
    && (r'.enqueuePos > r.enqueuePos || Claims(Ring.LocalOf(r, id)) ==> round.Over? || Claims(Ring.LocalOf(r', id)))
  }

  lemma PopMiss<T>(r: Ring.Ring<T>, id: nat, spurious: bool)
    requires Ring.Inv(r) && PopLocal(Ring.LocalOf(r, id))
    requires Ring.LocalOf(Ring.Run(r, id, spurious), id) == Ring.PopEnd(Ring.Nothing)
    ensures Ring.Run(r, id, spurious).dequeuePos == r.dequeuePos
    ensures r.dequeuePos == r.enqueuePos || RingFifo.Unpublished(r, r.dequeuePos)
  {
    assert Ring.LocalOf(r, id).PopLook?;
    RingFifo.PopFindsNothingWhen(r, id, spurious);
  }

  lemma PopRounds<T>(r: Ring.Ring<T>, id: nat, spurious: bool)
    requires Ring.Inv(r) && PopLocal(Ring.LocalOf(r, id))
    ensures PopOutcome(r, id, spurious)
  {
    assert Ring.LocalFits(r, r.threads[id]);
    if Ring.LocalOf(Ring.Run(r, id, spurious), id) == Ring.PopEnd(Ring.Nothing) {
      PopMiss(r, id, spurious);
    }
  }

  lemma PushRounds<T>(r: Ring.Ring<T>, id: nat, spurious: bool)
    requires Ring.Counters(r) && PushLocal(Ring.LocalOf(r, id))
    ensures PushOutcome(r, id, spurious)
  {
  }

  lemma PopRoundSound<T>(r: Ring.Ring<T>, id: nat, spurious: bool)
    requires Ring.Inv(r)
    ensures Ring.Inv(PopRound(r, id, spurious).0)
  {
    Ring.RunKeepsInv(r, id, spurious);
    var r' := Ring.Run(r, id, spurious);
    if Ring.LocalOf(r', id).PopEnd? {
      Ring.MoveKeepsInv(r', id, Ring.Idle);
    }
  }

  lemma PushRoundSound<T>(r: Ring.Ring<T>, id: nat, spurious: bool)
    requires Ring.Inv(r)
    ensures Ring.Inv(PushRound(r, id, spurious).0)
  {
    Ring.RunKeepsInv(r, id, spurious);
    var r' := Ring.Run(r, id, spurious);
    var l := Ring.LocalOf(r', id);
    if l.PushEnd? {
      Ring.MoveKeepsInv(r', id, if l.pushed.Refused? then Ring.PushStart(l.msg) else Ring.Idle);
    }
  }

  lemma StartSound<T>(r: Ring.Ring<T>, id: nat, l: Ring.Local<T>)
    requires Ring.Inv(r) && Ring.LocalOf(r, id).Idle? && (l.PopStart? || l.PushStart?)
    ensures Ring.Inv(Ring.Move(r, id, l))
  {
    Ring.MoveKeepsInv(r, id, l);
  }

  /** Only thread `id` moves, and it ends up where the pool says it is. */
  lemma OneActs<T>(s: Pool<T>, s': Pool<T>, id: nat)
    requires Shape(s) && Shape(s') && LocalsFit(s) && |s'.workers| == |s.workers|
    requires forall c :: 0 <= c < |s.rings| ==> s'.rings[c] == s.rings[c] || Acted(s.rings[c], s'.rings[c], id)
    requires forall w :: 0 <= w < |s.workers| && w != id ==> s'.workers[w] == s.workers[w]
    requires forall t: nat :: |s.workers| + t != id ==> ClientOf(s', t) == ClientOf(s, t)
    requires forall c :: 0 <= c < |s.rings| ==> LocalAgrees(s', c, id)
    ensures LocalsFit(s')
  {
    forall c, i: nat | 0 <= c < |s'.rings| ensures LocalAgrees(s', c, i) {
      assert LocalAgrees(s, c, i);
    }
  }

  lemma PopStepLocals<T>(s: Pool<T>, w: nat, c: nat, seen: nat, i: nat, spurious: bool)
    requires Shape(s) && LocalsFit(s) && w < |s.workers| && c < |s.rings|
    requires WorkerPopsIn(s.workers[w], w, |s.workers|, c) && PopOutcome(s.rings[c], w, spurious)
    requires i < |s.workers| - 1 ==> Target(w, i, |s.workers|) != c
    ensures LocalsFit(PopStep(s, w, c, seen, i, spurious))
  {
    var s' := PopStep(s, w, c, seen, i, spurious);
    forall k | 0 <= k < |s.rings| ensures LocalAgrees(s', k, w) {
      assert LocalAgrees(s, k, w);
    }
    OneActs(s, s', w);
  }

  /** A worker's next target is neither its own queue nor the one before. */
  lemma TargetsDiffer(w: nat, i: nat, n: nat)
    requires w < n && i < n - 1
    ensures Target(w, i, n) != w
    ensures i > 0 ==> Target(w, i, n) != Target(w, i - 1, n)
  {
    SlotsDiffer(w, w + i + 1, n);
    if i > 0 {
      SlotsDiffer(w + i, w + i + 1, n);
    }
  }

  /** The ring a worker is popping from, if any. */
  function PopRing<T>(s: Pool<T>, w: nat): (c: Option<nat>)
    requires Shape(s) && w < |s.workers|
    ensures c.Some? ==> c.value < |s.rings| && WorkerPopsIn(s.workers[w], w, |s.workers|, c.value)
  {
    var x := s.workers[w];
    if x.Looking? then Some(w)
    else if x.Sweeping? && x.i < |s.workers| - 1 then Some(Target(w, x.i, |s.workers|))
    else None
  }

  lemma NextTarget<T>(s: Pool<T>, w: nat)
    requires Shape(s) && w < |s.workers| && PopRing(s, w).Some?
    ensures var i := if s.workers[w].Looking? then 0 else s.workers[w].i + 1;
            i < |s.workers| - 1 ==> Target(w, i, |s.workers|) != PopRing(s, w).value
  {
    var i := if s.workers[w].Looking? then 0 else s.workers[w].i + 1;
    if i < |s.workers| - 1 {
      TargetsDiffer(w, i, |s.workers|);
    }
  }

  lemma WorkLocals<T>(s: Pool<T>, w: nat, spurious: bool)
    requires Shape(s) && LocalsFit(s) && w < |s.workers|
    requires PopRing(s, w).Some? ==> PopOutcome(s.rings[PopRing(s, w).value], w, spurious)
    ensures LocalsFit(WorkStep(s, w, spurious))
  {
    var s' := WorkStep(s, w, spurious);
    if PopRing(s, w).Some? {
      NextTarget(s, w);
      var i := if s.workers[w].Looking? then 0 else s.workers[w].i + 1;
      PopStepLocals(s, w, PopRing(s, w).value, s.workers[w].seen, i, spurious);
    } else {
      forall k | 0 <= k < |s.rings| ensures LocalAgrees(s', k, w) {
        assert LocalAgrees(s, k, w);
      }
      OneActs(s, s', w);
    }
  }

  lemma PopStepSound<T>(s: Pool<T>, w: nat, c: nat, seen: nat, i: nat, spurious: bool)
    requires Shape(s) && Sound(s.rings) && w < |s.workers| && c < |s.rings|
    requires i < |s.workers| - 1 ==>
               Target(w, i, |s.workers|) != c && Ring.LocalOf(s.rings[Target(w, i, |s.workers|)], w).Idle?
    ensures Sound(PopStep(s, w, c, seen, i, spurious).rings)
  {
    PopRoundSound(s.rings[c], w, spurious);
    if i < |s.workers| - 1 {
      StartSound(s.rings[Target(w, i, |s.workers|)], w, Ring.PopStart);
    }
  }

  lemma WorkSound<T>(s: Pool<T>, w: nat, spurious: bool)
    requires Shape(s) && Sound(s.rings) && LocalsFit(s) && w < |s.workers|
    ensures Sound(WorkStep(s, w, spurious).rings)
  {
    var n := |s.workers|;
    if PopRing(s, w).Some? {
      NextTarget(s, w);
      var i := if s.workers[w].Looking? then 0 else s.workers[w].i + 1;
      if i < n - 1 {
        TargetsDiffer(w, i, n);
        assert LocalAgrees(s, Target(w, i, n), w);
      }
      PopStepSound(s, w, PopRing(s, w).value, s.workers[w].seen, i, spurious);
    } else if s.workers[w].Admitted? {
      assert LocalAgrees(s, w, w);
      StartSound(s.rings[w], w, Ring.PopStart);
    }
  }

  /** The ring a client is pushing to or popping from, if any. */
  function ClientRing<T>(x: Client<T>): Option<nat> {
    match x
    case Pushing(_, c) => Some(c)
    case Stealing(c) => Some(c)
    case _ => None
  }

  ghost predicate ClientOutcome<T>(s: Pool<T>, t: nat, spurious: bool)
    requires Shape(s)
  {
    match ClientOf(s, t)
    case Pushing(_, c) => c < |s.rings| ==> PushOutcome(s.rings[c], |s.workers| + t, spurious)
    case Stealing(c) => c < |s.rings| ==> PopOutcome(s.rings[c], |s.workers| + t, spurious)
    case _ => true
  }

  lemma PushLocals<T>(s: Pool<T>, t: nat, id: nat, task: T, c: nat, spurious: bool)
    requires Shape(s) && LocalsFit(s) && id == |s.workers| + t
    requires c < |s.rings| && PushOutcome(s.rings[c], id, spurious) && ClientOf(s, t) == Pushing(task, c)
    ensures LocalsFit(PushStep(s, t, id, c, spurious))
  {
    var s' := PushStep(s, t, id, c, spurious);
    forall k | 0 <= k < |s.rings| ensures LocalAgrees(s', k, id) {
      assert LocalAgrees(s, k, id);
    }
    OneActs(s, s', id);
  }

  /** A client enters or stays outside the rings. */
  lemma OutsideLocals<T>(s: Pool<T>, s': Pool<T>, t: nat, id: nat, x: Client<T>)
    requires Shape(s) && Shape(s') && LocalsFit(s) && ClientRing(ClientOf(s, t)).None? && id == |s.workers| + t
    requires s'.workers == s.workers && s'.clients == s.clients[t := x]
    requires if ClientRing(x).None? then s'.rings == s.rings else
             ClientRing(x).value < |s.rings| && s'.rings == s.rings[ClientRing(x).value :=
               Ring.Move(s.rings[ClientRing(x).value], id,
                         if x.Pushing? then Ring.PushStart(x.task) else Ring.PopStart)]
    ensures LocalsFit(s')
  {
    forall k | 0 <= k < |s.rings| ensures LocalAgrees(s', k, id) {
      assert LocalAgrees(s, k, id);
    }
    OneActs(s, s', id);
  }

  lemma StealLocals<T>(s: Pool<T>, t: nat, id: nat, c: nat, spurious: bool)
    requires Shape(s) && LocalsFit(s) && id == |s.workers| + t
    requires c < |s.rings| && PopOutcome(s.rings[c], id, spurious) && ClientOf(s, t) == Stealing(c)
    ensures LocalsFit(StealStep(s, t, id, c, spurious))
  {
    var s' := StealStep(s, t, id, c, spurious);
    forall k | 0 <= k < |s.rings| ensures LocalAgrees(s', k, id) {
      assert LocalAgrees(s, k, id);
    }
    OneActs(s, s', id);
  }

  /** Waiting and waking have nothing to do with the rings. */
  lemma StirLocals<T>(s: Pool<T>, s': Pool<T>)
    requires Shape(s) && Shape(s') && LocalsFit(s) && s'.rings == s.rings && s'.clients == s.clients
    requires |s'.workers| == |s.workers|
    requires forall w :: 0 <= w < |s.workers| ==>
               s'.workers[w] == s.workers[w] || (s.workers[w].Blocked? && s'.workers[w].Waiting?)
    ensures LocalsFit(s')
  {
    forall c, i: nat | 0 <= c < |s'.rings| ensures LocalAgrees(s', c, i) {
      assert LocalAgrees(s, c, i);
    }
  }

  lemma AdvanceLocals<T>(s: Pool<T>, t: nat, id: nat, spurious: bool)
    requires Shape(s) && LocalsFit(s) && ClientOutcome(s, t, spurious) && id == |s.workers| + t
    ensures LocalsFit(AdvanceStep(s, t, spurious))
  {
    match ClientOf(s, t) {
      case Pushing(task, c) => if c < |s.rings| { PushLocals(s, t, id, task, c, spurious); }
      case Stealing(c) => if c < |s.rings| { StealLocals(s, t, id, c, spurious); }
      case Away =>
      case Counted(c) =>
        if c < |s.rings| {
          StirLocals(s, Notify(s, c));
          OutsideLocals(Notify(s, c), AdvanceStep(s, t, spurious), t, id, Away);
        }
      case Called(task) =>
        OutsideLocals(s, AdvanceStep(s, t, spurious), t, id, if s.closing.Open? then Checked(task) else Refused);
      case Checked(task) =>
        OutsideLocals(s, AdvanceStep(s, t, spurious), t, id, Pushing(task, Slot(s.next, |s.rings|)));
      case Pushed(c) => if c < |s.rings| { OutsideLocals(s, AdvanceStep(s, t, spurious), t, id, Counted(c)); }
      case Refused => OutsideLocals(s, AdvanceStep(s, t, spurious), t, id, Away);
      case Executing(_) => OutsideLocals(s, AdvanceStep(s, t, spurious), t, id, Away);
    }
  }

  lemma StealSound<T>(s: Pool<T>, t: nat, id: nat, c: nat, spurious: bool)
    requires Shape(s) && Sound(s.rings) && c < |s.rings|
    requires c + 1 < |s.rings| ==> Ring.LocalOf(s.rings[c + 1], id).Idle?
    ensures Sound(StealStep(s, t, id, c, spurious).rings)
  {
    PopRoundSound(s.rings[c], id, spurious);
    if c + 1 < |s.rings| {
      StartSound(s.rings[c + 1], id, Ring.PopStart);
    }
  }

  lemma PushSound<T>(s: Pool<T>, t: nat, id: nat, c: nat, spurious: bool)
    requires Shape(s) && Sound(s.rings) && c < |s.rings|
    ensures Sound(PushStep(s, t, id, c, spurious).rings)
  {
    PushRoundSound(s.rings[c], id, spurious);
  }

  lemma AdvanceSound<T>(s: Pool<T>, t: nat, spurious: bool)
    requires Shape(s) && Sound(s.rings) && LocalsFit(s)
    ensures Sound(AdvanceStep(s, t, spurious).rings)
  {
    var id := |s.workers| + t;
    match ClientOf(s, t) {
      case Checked(task) =>
        var c := Slot(s.next, |s.rings|);
        assert LocalAgrees(s, c, id);
        StartSound(s.rings[c], id, Ring.PushStart(task));
      case Pushing(_, c) => if c < |s.rings| { PushSound(s, t, id, c, spurious); }
      case Stealing(c) =>
        if c < |s.rings| {
          assert c + 1 < |s.rings| ==> LocalAgrees(s, c + 1, id);
          StealSound(s, t, id, c, spurious);
        }
      case _ =>
    }
  }

  // ----- Ring operations only end the way the protocol above them relies on -----

  lemma WorkOutcome<T>(s: Pool<T>, w: nat, spurious: bool)
    requires Shape(s) && Sound(s.rings) && LocalsFit(s) && w < |s.workers|
    ensures PopRing(s, w).Some? ==> PopOutcome(s.rings[PopRing(s, w).value], w, spurious)
  {
    if PopRing(s, w).Some? {
      assert LocalAgrees(s, PopRing(s, w).value, w);
      PopRounds(s.rings[PopRing(s, w).value], w, spurious);
    }
  }

  lemma AdvanceOutcome<T>(s: Pool<T>, t: nat, spurious: bool)
    requires Shape(s) && Sound(s.rings) && LocalsFit(s)
    ensures ClientOutcome(s, t, spurious)
  {
    match ClientOf(s, t) {
      case Pushing(_, c) =>
        if c < |s.rings| {
          assert LocalAgrees(s, c, |s.workers| + t);
          PushRounds(s.rings[c], |s.workers| + t, spurious);
        }
      case Stealing(c) =>
        if c < |s.rings| {
          assert LocalAgrees(s, c, |s.workers| + t);
          PopRounds(s.rings[c], |s.workers| + t, spurious);
        }
      case _ =>
    }
  }

  lemma StepKeepsLocals<T>(s: Pool<T>, a: Action<T>)
    requires Shape(s) && Sound(s.rings) && LocalsFit(s)
    ensures LocalsFit(Step(s, a))
  {
    match a {
      case Work(w, spurious) =>
        if w < |s.workers| {
          WorkOutcome(s, w, spurious);
          WorkLocals(s, w, spurious);
        }
      case Advance(t, spurious) =>
        AdvanceOutcome(s, t, spurious);
        AdvanceLocals(s, t, |s.workers| + t, spurious);
      case Submit(t, task) =>
        if ClientOf(s, t).Away? {
          OutsideLocals(s, Step(s, a), t, |s.workers| + t, Called(task));
        }
      case Help(t) => if ClientOf(s, t).Away? { OutsideLocals(s, Step(s, a), t, |s.workers| + t, Stealing(0)); }
      case Stir(_) => StirLocals(s, Step(s, a));
      case Shutdown => StirLocals(s, Step(s, a));
    }
  }

  lemma HelpSound<T>(s: Pool<T>, t: nat, id: nat)
    requires Shape(s) && Sound(s.rings) && LocalsFit(s) && ClientOf(s, t).Away? && id == |s.workers| + t
    ensures Sound(StartPop(s, 0, id).rings)
  {
    assert LocalAgrees(s, 0, id);
    StartSound(s.rings[0], id, Ring.PopStart);
  }

  lemma StepKeepsSound<T>(s: Pool<T>, a: Action<T>)
    requires Shape(s) && Sound(s.rings) && LocalsFit(s)
    ensures Sound(Step(s, a).rings)
  {
    match a {
      case Work(w, spurious) => if w < |s.workers| { WorkSound(s, w, spurious); }
      case Advance(t, spurious) => AdvanceSound(s, t, spurious);
      case Help(t) =>
        if ClientOf(s, t).Away? {
          HelpSound(s, t, |s.workers| + t);
        }
      case _ =>
    }
  }
}
