/** What becomes of the tasks of the lock-free pool: none is lost or run twice, and a queued one is fetched. */
module LockFreeTasks {
  import opened Common
  import Ring
  import RingFifo
  import opened ClosingDown
  import opened LockFreeAlone
  import opened LockFreePool
  import opened LockFreeRuns

  // ----- Conservation -----

  /** The message of the ticket that thread `id` has won in a pop of ring `r` and not come back with yet. */
  function Carried<T>(r: Ring.Ring<T>, id: nat): Option<T> {
    match Ring.LocalOf(r, id)
    case PopTake(pos) => if pos < |r.log| then Some(r.log[pos]) else None
    case PopRelease(_, taken) => taken
    case _ => None
  }

  /** The task that thread `id` has taken from a ring and not finished running. */
  function InHand<T>(s: Pool<T>, id: nat): Option<T>
    requires Shape(s)
  {
    var n := |s.workers|;
    if id < n then
      if s.workers[id].Running? then Some(s.workers[id].task)
      else if PopRing(s, id).Some? then Carried(s.rings[PopRing(s, id).value], id)
      else None
    else
      match ClientOf(s, id - n)
      case Executing(task) => Some(task)
      case Stealing(c) => if c < |s.rings| then Carried(s.rings[c], id) else None
      case _ => None
  }

  function Below(n: nat): (b: set<nat>)
    ensures forall i: nat :: i in b <==> i < n
  {
    if n == 0 then {} else Below(n - 1) + {n - 1}
  }

  function Threads<T>(s: Pool<T>): set<nat> {
    Below(|s.workers|) + set t | t in s.clients :: |s.workers| + t
  }

  ghost function Holders<T>(s: Pool<T>, task: T): set<nat>
    requires Shape(s)
  {
    set id | id in Threads(s) && InHand(s, id) == Some(task)
  }

  /** How often `task` was ever queued in a ring, is still queued there, and has been handed out. */
  ghost function EverQueued<T>(task: T): Ring.Ring<T> -> nat {
    (r: Ring.Ring<T>) => multiset(r.log)[task]
  }

  ghost function StillQueued<T>(task: T): Ring.Ring<T> -> nat {
    (r: Ring.Ring<T>) => if r.dequeuePos <= |r.log| then multiset(r.log[r.dequeuePos..])[task] else 0
  }

  ghost function HandedOut<T>(task: T): Ring.Ring<T> -> nat {
    (r: Ring.Ring<T>) => multiset(if r.dequeuePos <= |r.log| then r.log[..r.dequeuePos] else r.log)[task]
  }

  /** How often `task` has been handed out, and is neither in hand nor executed. */
  ghost function Missing<T>(s: Pool<T>, task: T): int
    requires Shape(s)
  {
    Total(s.rings, HandedOut(task)) - |Holders(s, task)| - multiset(s.executed)[task]
  }

  lemma IsHolder<T>(s: Pool<T>, id: nat, task: T)
    requires Shape(s)
    ensures id in Holders(s, task) <==> InHand(s, id) == Some(task)
  {
    if id >= |s.workers| && InHand(s, id).Some? {
      assert id - |s.workers| in s.clients;
      assert id in Threads(s);
    }
  }

  /** Nobody but thread `id` takes or finishes a task. */
  ghost predicate OthersKeep<T>(s: Pool<T>, s': Pool<T>, id: nat)
    requires Shape(s) && Shape(s')
  {
    forall i: nat :: i != id ==> InHand(s', i) == InHand(s, i)
  }

  function Count<T(==)>(x: Option<T>, task: T): nat {
    if x == Some(task) then 1 else 0
  }

  lemma HoldersChange<T>(s: Pool<T>, s': Pool<T>, id: nat, task: T)
    requires Shape(s) && Shape(s') && OthersKeep(s, s', id)
    ensures |Holders(s', task)| + Count(InHand(s, id), task) == |Holders(s, task)| + Count(InHand(s', id), task)
  {
    var h, h' := Holders(s, task), Holders(s', task);
    forall i: nat ensures i != id ==> (i in h <==> i in h') {
      IsHolder(s, i, task);
      IsHolder(s', i, task);
    }
    IsHolder(s, id, task);
    IsHolder(s', id, task);
    SameButOne(h, h', id);
  }

  /** No ticket of the ring is handed out. */
  ghost predicate NoneOut<T>(r: Ring.Ring<T>, r': Ring.Ring<T>) {
    r.dequeuePos == r'.dequeuePos <= |r.log| && r.log <= r'.log
  }

  ghost predicate NoneOutAll<T>(s: Pool<T>, s': Pool<T>) {
    |s'.rings| == |s.rings| && forall c :: 0 <= c < |s.rings| ==> NoneOut(s.rings[c], s'.rings[c])
  }

  /** Nothing is taken or run, though thread `id` may move. */
  lemma QuietConserves<T>(s: Pool<T>, s': Pool<T>, id: nat, task: T)
    requires Shape(s) && Shape(s') && OthersKeep(s, s', id) && InHand(s', id) == InHand(s, id)
    requires NoneOutAll(s, s') && s'.executed == s.executed
    ensures Missing(s', task) == Missing(s, task)
  {
    forall c | 0 <= c < |s.rings| ensures HandedOut(task)(s'.rings[c]) == HandedOut(task)(s.rings[c]) {
      assert NoneOut(s.rings[c], s'.rings[c]);
      assert s'.rings[c].log[..s.rings[c].dequeuePos] == s.rings[c].log[..s.rings[c].dequeuePos];
    }
    TotalSame(s.rings, s'.rings, HandedOut(task));
    HoldersChange(s, s', id, task);
  }

  /** Thread `id` runs the task it has in hand. */
  lemma RunConserves<T>(s: Pool<T>, s': Pool<T>, id: nat, task: T)
    requires Shape(s) && Shape(s') && OthersKeep(s, s', id) && InHand(s, id).Some? && InHand(s', id).None?
    requires s'.rings == s.rings && s'.executed == s.executed + [InHand(s, id).value]
    ensures Missing(s', task) == Missing(s, task)
  {
    HoldersChange(s, s', id, task);
  }

  /** The next ticket of the ring is handed out. */
  ghost predicate NextOut<T>(r: Ring.Ring<T>, r': Ring.Ring<T>) {
    r.dequeuePos < |r.log| && r'.log == r.log && r'.dequeuePos == r.dequeuePos + 1
  }

  lemma OneMoreOut<T>(r: Ring.Ring<T>, r': Ring.Ring<T>, task: T)
    requires NextOut(r, r')
    ensures HandedOut(task)(r') == HandedOut(task)(r) + Count(Some(r.log[r.dequeuePos]), task)
  {
    assert r.log[..r.dequeuePos + 1] == r.log[..r.dequeuePos] + [r.log[r.dequeuePos]];
  }

  /** Thread `id` wins the next ticket of ring `c`. */
  lemma TakeConserves<T>(s: Pool<T>, s': Pool<T>, id: nat, c: nat, task: T)
    requires Shape(s) && Shape(s') && OthersKeep(s, s', id) && c < |s.rings|
    requires |s'.rings| == |s.rings| && s'.rings == s.rings[c := s'.rings[c]] && s'.executed == s.executed
    requires NextOut(s.rings[c], s'.rings[c]) && InHand(s, id).None?
    requires InHand(s', id) == Some(s.rings[c].log[s.rings[c].dequeuePos])
    ensures Missing(s', task) == Missing(s, task)
  {
    TotalUpdate(s.rings, c, s'.rings[c], HandedOut(task));
    OneMoreOut(s.rings[c], s'.rings[c], task);
    HoldersChange(s, s', id, task);
  }

  /** What an action inside a pop does to the ticket the thread carries. */
  ghost predicate PopCarries<T>(r: Ring.Ring<T>, id: nat, spurious: bool)
    requires |r.cells| > 0
  {
    var (r', round) := PopRound(r, id, spurious);
    && r'.log == r.log && r.dequeuePos <= |r.log| && r'.threads == r.threads[id := Ring.LocalOf(r', id)]
    && match round
       case Over(Some(task)) => r'.dequeuePos == r.dequeuePos && Carried(r, id) == Some(task) && Carried(r', id).None?
       case Over(None) => r'.dequeuePos == r.dequeuePos && Carried(r, id).None? && Carried(r', id).None?
       case Still =>
         || (r'.dequeuePos == r.dequeuePos && Carried(r', id) == Carried(r, id))
         || (NextOut(r, r') && Carried(r, id).None? && Carried(r', id) == Some(r.log[r.dequeuePos]))
  }

  lemma PopsCarry<T>(r: Ring.Ring<T>, id: nat, spurious: bool)
    requires Ring.Inv(r) && PopLocal(Ring.LocalOf(r, id))
    ensures PopCarries(r, id, spurious)
  {
    assert Ring.LocalFits(r, r.threads[id]);
    match Ring.LocalOf(r, id) {
      case PopCas(pos) => CasCarries(r, id, spurious);
      case PopTake(_) => TakeCarries(r, id, spurious);
      case PopRelease(_, _) => ReleaseCarries(r, id, spurious);
      case _ => LoadCarries(r, id, spurious);
    }
  }

  lemma LoadCarries<T>(r: Ring.Ring<T>, id: nat, spurious: bool)
    requires Ring.Counters(r) && (Ring.LocalOf(r, id).PopStart? || Ring.LocalOf(r, id).PopLook?)
    ensures PopCarries(r, id, spurious)
  {
  }

  lemma TakeCarries<T>(r: Ring.Ring<T>, id: nat, spurious: bool)
    requires Ring.Counters(r) && Ring.LocalFits(r, Ring.LocalOf(r, id)) && Ring.LocalOf(r, id).PopTake?
    ensures PopCarries(r, id, spurious)
  {
  }

  lemma CasCarries<T>(r: Ring.Ring<T>, id: nat, spurious: bool)
    requires Ring.Inv(r) && Ring.LocalOf(r, id).PopCas?
    ensures PopCarries(r, id, spurious)
  {
    assert Ring.LocalFits(r, r.threads[id]);
    Ring.ReadyToClaim(r, Ring.LocalOf(r, id).pos);
  }

  lemma ReleaseCarries<T>(r: Ring.Ring<T>, id: nat, spurious: bool)
    requires Ring.Counters(r) && Ring.LocalFits(r, Ring.LocalOf(r, id)) && Ring.LocalOf(r, id).PopRelease?
    ensures PopCarries(r, id, spurious)
  {
    var l := Ring.LocalOf(Ring.Run(r, id, spurious), id);
    RingFifo.MoveTwice(Ring.Run(r, id, spurious), id, l, Ring.Idle);
  }

  /** At most thread `id` has moved in the ring, and messages have only been added. */
  ghost predicate OnlyThread<T>(r: Ring.Ring<T>, r': Ring.Ring<T>, id: nat) {
    r'.threads == r.threads[id := Ring.LocalOf(r', id)] && r.log <= r'.log
  }

  /** Every ticket handed out has a message. */
  ghost predicate LoggedRing<T>(r: Ring.Ring<T>) {
    r.dequeuePos <= |r.log| && forall id :: id in r.threads && r.threads[id].PopTake? ==> r.threads[id].pos < |r.log|
  }

  ghost predicate Logged<T>(rings: seq<Ring.Ring<T>>) {
    forall c :: 0 <= c < |rings| ==> LoggedRing(rings[c])
  }

  lemma SoundIsLogged<T>(rings: seq<Ring.Ring<T>>)
    requires Sound(rings)
    ensures Logged(rings)
  {
    forall c | 0 <= c < |rings| ensures LoggedRing(rings[c]) {
      assert forall id :: id in rings[c].threads ==> Ring.LocalFits(rings[c], rings[c].threads[id]);
    }
  }

  lemma CarriedStays<T>(r: Ring.Ring<T>, r': Ring.Ring<T>, id: nat, i: nat)
    requires LoggedRing(r) && i != id && (r' == r || OnlyThread(r, r', id))
    ensures Carried(r', i) == Carried(r, i)
  {
  }

  lemma OneKeepsOthers<T>(s: Pool<T>, s': Pool<T>, id: nat)
    requires Shape(s) && Shape(s') && Logged(s.rings) && |s'.workers| == |s.workers|
    requires forall c :: 0 <= c < |s.rings| ==> s'.rings[c] == s.rings[c] || OnlyThread(s.rings[c], s'.rings[c], id)
    requires forall w :: 0 <= w < |s.workers| && w != id ==> s'.workers[w] == s.workers[w]
    requires forall t: nat :: |s.workers| + t != id ==> ClientOf(s', t) == ClientOf(s, t)
    ensures OthersKeep(s, s', id)
  {
    forall i: nat | i != id ensures InHand(s', i) == InHand(s, i) {
      forall c | 0 <= c < |s.rings| ensures Carried(s'.rings[c], i) == Carried(s.rings[c], i) {
        CarriedStays(s.rings[c], s'.rings[c], id, i);
      }
    }
  }

  /** Thread `id` at most wins the next ticket of ring `c`, and no task is run. */
  ghost predicate AtMostTakes<T>(s: Pool<T>, s': Pool<T>, id: nat, c: nat)
    requires Shape(s) && Shape(s') && c < |s.rings|
  {
    && s'.executed == s.executed && |s'.rings| == |s.rings|
    && if s'.rings[c].dequeuePos == s.rings[c].dequeuePos then NoneOutAll(s, s') && InHand(s', id) == InHand(s, id)
       else
         && s'.rings == s.rings[c := s'.rings[c]] && NextOut(s.rings[c], s'.rings[c])
         && InHand(s, id).None? && InHand(s', id) == Some(s.rings[c].log[s.rings[c].dequeuePos])
  }

  lemma AtMostTakesConserves<T>(s: Pool<T>, s': Pool<T>, id: nat, c: nat, task: T)
    requires Shape(s) && Shape(s') && c < |s.rings| && OthersKeep(s, s', id) && AtMostTakes(s, s', id, c)
    ensures Missing(s', task) == Missing(s, task)
  {
    if s'.rings[c].dequeuePos == s.rings[c].dequeuePos {
      QuietConserves(s, s', id, task);
    } else {
      TakeConserves(s, s', id, c, task);
    }
  }

  lemma PopStepKeepsOthers<T>(s: Pool<T>, w: nat, c: nat, seen: nat, i: nat, spurious: bool)
    requires Shape(s) && Logged(s.rings) && w < |s.workers| && c < |s.rings| && PopCarries(s.rings[c], w, spurious)
    requires i < |s.workers| - 1 ==> Target(w, i, |s.workers|) != c
    ensures OthersKeep(s, PopStep(s, w, c, seen, i, spurious), w)
  {
    OneKeepsOthers(s, PopStep(s, w, c, seen, i, spurious), w);
  }

  lemma PopStepTakes<T>(s: Pool<T>, w: nat, c: nat, seen: nat, i: nat, spurious: bool)
    requires Shape(s) && Logged(s.rings) && w < |s.workers| && PopRing(s, w) == Some(c)
    requires PopCarries(s.rings[c], w, spurious)
    requires i < |s.workers| - 1 ==> Target(w, i, |s.workers|) != c
    ensures AtMostTakes(s, PopStep(s, w, c, seen, i, spurious), w, c)
  {
  }

  lemma PopConserves<T>(s: Pool<T>, w: nat, c: nat, seen: nat, i: nat, spurious: bool, task: T)
    requires Shape(s) && Logged(s.rings) && w < |s.workers| && PopRing(s, w) == Some(c)
    requires PopCarries(s.rings[c], w, spurious) && (i < |s.workers| - 1 ==> Target(w, i, |s.workers|) != c)
    ensures Missing(PopStep(s, w, c, seen, i, spurious), task) == Missing(s, task)
  {
    PopStepKeepsOthers(s, w, c, seen, i, spurious);
    PopStepTakes(s, w, c, seen, i, spurious);
    AtMostTakesConserves(s, PopStep(s, w, c, seen, i, spurious), w, c, task);
  }

  /** A worker moves outside the rings. */
  lemma MoveConserves<T>(s: Pool<T>, w: nat, spurious: bool, task: T)
    requires Shape(s) && Logged(s.rings) && w < |s.workers| && PopRing(s, w).None?
    ensures Missing(WorkStep(s, w, spurious), task) == Missing(s, task)
  {
    var s' := WorkStep(s, w, spurious);
    OneKeepsOthers(s, s', w);
    if s.workers[w].Running? {
      RunConserves(s, s', w, task);
    } else {
      QuietConserves(s, s', w, task);
    }
  }

  /** A worker acts inside a ring. */
  lemma LookConserves<T>(s: Pool<T>, w: nat, c: nat, spurious: bool, task: T)
    requires Shape(s) && Logged(s.rings) && w < |s.workers| && PopRing(s, w) == Some(c)
    requires PopCarries(s.rings[c], w, spurious)
    ensures Missing(WorkStep(s, w, spurious), task) == Missing(s, task)
  {
    var i := if s.workers[w].Looking? then 0 else s.workers[w].i + 1;
    NextTarget(s, w);
    PopIsWork(s, w, c, i, spurious);
    PopConserves(s, w, c, s.workers[w].seen, i, spurious, task);
  }

  lemma PopIsWork<T>(s: Pool<T>, w: nat, c: nat, i: nat, spurious: bool)
    requires Shape(s) && w < |s.workers| && PopRing(s, w) == Some(c)
    requires i == if s.workers[w].Looking? then 0 else s.workers[w].i + 1
    ensures WorkStep(s, w, spurious) == PopStep(s, w, c, s.workers[w].seen, i, spurious)
  {
  }

  lemma WorkConserves<T>(s: Pool<T>, w: nat, spurious: bool, task: T)
    requires Shape(s) && Logged(s.rings) && w < |s.workers|
    requires PopRing(s, w).Some? ==> PopCarries(s.rings[PopRing(s, w).value], w, spurious)
    ensures Missing(WorkStep(s, w, spurious), task) == Missing(s, task)
  {
    if PopRing(s, w).Some? {
      LookConserves(s, w, PopRing(s, w).value, spurious, task);
    } else {
      MoveConserves(s, w, spurious, task);
    }
  }

  /** An action inside a push at most adds a message. */
  ghost predicate PushAdds<T>(r: Ring.Ring<T>, id: nat, spurious: bool)
    requires |r.cells| > 0
  {
    var r' := PushRound(r, id, spurious).0;
    OnlyThread(r, r', id) && NoneOut(r, r')
  }

  lemma PushesAdd<T>(r: Ring.Ring<T>, id: nat, spurious: bool)
    requires Ring.Counters(r) && PushLocal(Ring.LocalOf(r, id))
    ensures PushAdds(r, id, spurious)
  {
  }

  lemma AdvanceIsInside<T>(s: Pool<T>, t: nat, id: nat, c: nat, spurious: bool)
    requires Shape(s) && c < |s.rings| && id == |s.workers| + t
    ensures ClientOf(s, t).Pushing? && ClientOf(s, t).ctx == c ==>
              AdvanceStep(s, t, spurious) == PushStep(s, t, id, c, spurious)
    ensures ClientOf(s, t) == Stealing(c) ==> AdvanceStep(s, t, spurious) == StealStep(s, t, id, c, spurious)
  {
  }

  lemma PushConserves<T>(s: Pool<T>, t: nat, id: nat, c: nat, spurious: bool, task: T)
    requires Shape(s) && Logged(s.rings) && c < |s.rings| && id == |s.workers| + t
    requires ClientOf(s, t).Pushing? && ClientOf(s, t).ctx == c && PushAdds(s.rings[c], id, spurious)
    ensures Missing(AdvanceStep(s, t, spurious), task) == Missing(s, task)
  {
    var s' := PushStep(s, t, id, c, spurious);
    AdvanceIsInside(s, t, id, c, spurious);
    OneKeepsOthers(s, s', id);
    QuietConserves(s, s', id, task);
  }

  lemma StealKeepsOthers<T>(s: Pool<T>, t: nat, id: nat, c: nat, spurious: bool)
    requires Shape(s) && Logged(s.rings) && c < |s.rings| && id == |s.workers| + t
    requires PopCarries(s.rings[c], id, spurious)
    ensures OthersKeep(s, StealStep(s, t, id, c, spurious), id)
  {
    OneKeepsOthers(s, StealStep(s, t, id, c, spurious), id);
  }

  lemma StealStepTakes<T>(s: Pool<T>, t: nat, id: nat, c: nat, spurious: bool)
    requires Shape(s) && Logged(s.rings) && c < |s.rings| && id == |s.workers| + t
    requires ClientOf(s, t) == Stealing(c) && PopCarries(s.rings[c], id, spurious)
    ensures AtMostTakes(s, StealStep(s, t, id, c, spurious), id, c)
  {
  }

  lemma StealConserves<T>(s: Pool<T>, t: nat, id: nat, c: nat, spurious: bool, task: T)
    requires Shape(s) && Logged(s.rings) && c < |s.rings| && id == |s.workers| + t
    requires ClientOf(s, t) == Stealing(c) && PopCarries(s.rings[c], id, spurious)
    ensures Missing(AdvanceStep(s, t, spurious), task) == Missing(s, task)
  {
    AdvanceIsInside(s, t, id, c, spurious);
    StealKeepsOthers(s, t, id, c, spurious);
    StealStepTakes(s, t, id, c, spurious);
    AtMostTakesConserves(s, StealStep(s, t, id, c, spurious), id, c, task);
  }

  /** Client `t` takes a step outside the rings that runs no task. */
  lemma OutsideConserves<T>(s: Pool<T>, s': Pool<T>, t: nat, id: nat, task: T)
    requires Shape(s) && Shape(s') && Logged(s.rings) && id == |s.workers| + t
    requires s'.workers == s.workers && s'.clients == s.clients[t := ClientOf(s', t)] && s'.executed == s.executed
    requires |s'.rings| == |s.rings| && forall c :: 0 <= c < |s.rings| ==> OnlyPlaced(s.rings[c], s'.rings[c], id)
    requires InHand(s, id).None? && InHand(s', id).None?
    ensures Missing(s', task) == Missing(s, task)
  {
    OneKeepsOthers(s, s', id);
    QuietConserves(s, s', id, task);
  }

  /** Nothing in the ring has changed but perhaps the position of thread `id`. */
  ghost predicate OnlyPlaced<T>(r: Ring.Ring<T>, r': Ring.Ring<T>, id: nat) {
    r' == r || r' == Ring.Move(r, id, Ring.LocalOf(r', id))
  }

  /** Waiting and waking have nothing to do with tasks. */
  lemma StirConserves<T>(s: Pool<T>, s': Pool<T>, task: T)
    requires Shape(s) && Shape(s') && |s'.workers| == |s.workers|
    requires s'.rings == s.rings && s'.clients == s.clients && s'.executed == s.executed
    requires forall w :: 0 <= w < |s.workers| ==>
               s'.workers[w] == s.workers[w] || (s.workers[w].Blocked? && s'.workers[w].Waiting?)
    ensures Missing(s', task) == Missing(s, task)
  {
    forall i: nat ensures InHand(s', i) == InHand(s, i) {
    }
    HoldersChange(s, s', 0, task);
  }

  lemma NotifyConserves<T>(s: Pool<T>, t: nat, id: nat, c: nat, task: T)
    requires Shape(s) && Logged(s.rings) && c < |s.rings| && id == |s.workers| + t && ClientOf(s, t) == Counted(c)
    ensures Missing(SetClient(Notify(s, c), t, Away), task) == Missing(s, task)
  {
    StirConserves(s, Notify(s, c), task);
    OutsideConserves(Notify(s, c), SetClient(Notify(s, c), t, Away), t, id, task);
  }

  lemma FinishConserves<T>(s: Pool<T>, t: nat, id: nat, x: T, task: T)
    requires Shape(s) && Logged(s.rings) && id == |s.workers| + t && ClientOf(s, t) == Executing(x)
    ensures Missing(SetClient(s, t, Away).(executed := s.executed + [x]), task) == Missing(s, task)
  {
    var s' := SetClient(s, t, Away).(executed := s.executed + [x]);
    OneKeepsOthers(s, s', id);
    RunConserves(s, s', id, task);
  }

  /** What the ring operation of client `t` does next, if it is in one. */
  ghost predicate ClientCarries<T>(s: Pool<T>, t: nat, id: nat, spurious: bool)
    requires Shape(s)
  {
    match ClientOf(s, t)
    case Pushing(_, c) => c < |s.rings| ==> PushAdds(s.rings[c], id, spurious)
    case Stealing(c) => c < |s.rings| ==> PopCarries(s.rings[c], id, spurious)
    case _ => true
  }

  lemma ClientsCarry<T>(s: Pool<T>, t: nat, id: nat, spurious: bool)
    requires Shape(s) && Sound(s.rings) && LocalsFit(s) && id == |s.workers| + t
    ensures ClientCarries(s, t, id, spurious)
  {
    match ClientOf(s, t) {
      case Pushing(_, c) =>
        if c < |s.rings| {
          assert LocalAgrees(s, c, id);
          PushesAdd(s.rings[c], id, spurious);
        }
      case Stealing(c) =>
        if c < |s.rings| {
          assert LocalAgrees(s, c, id);
          PopsCarry(s.rings[c], id, spurious);
        }
      case _ =>
    }
  }

  lemma WorkersCarry<T>(s: Pool<T>, w: nat, spurious: bool)
    requires Shape(s) && Sound(s.rings) && LocalsFit(s) && w < |s.workers|
    ensures PopRing(s, w).Some? ==> PopCarries(s.rings[PopRing(s, w).value], w, spurious)
  {
    if PopRing(s, w).Some? {
      assert LocalAgrees(s, PopRing(s, w).value, w);
      PopsCarry(s.rings[PopRing(s, w).value], w, spurious);
    }
  }

  /** The actions of a submitter before its push. */
  lemma BeforeConserves<T>(s: Pool<T>, t: nat, id: nat, spurious: bool, task: T)
    requires Shape(s) && Logged(s.rings) && id == |s.workers| + t && (ClientOf(s, t).Called? || ClientOf(s, t).Checked?)
    ensures Missing(AdvanceStep(s, t, spurious), task) == Missing(s, task)
  {
    OutsideConserves(s, AdvanceStep(s, t, spurious), t, id, task);
  }

  /** The last actions of a submitter but for its notification. */
  lemma AfterConserves<T>(s: Pool<T>, t: nat, id: nat, spurious: bool, task: T)
    requires Shape(s) && Logged(s.rings) && id == |s.workers| + t
    requires ClientOf(s, t).Pushed? || ClientOf(s, t).Refused?
    ensures Missing(AdvanceStep(s, t, spurious), task) == Missing(s, task)
  {
    var s' := AdvanceStep(s, t, spurious);
    if s' != s {
      OutsideConserves(s, s', t, id, task);
    }
  }

  lemma AdvanceConserves<T>(s: Pool<T>, t: nat, id: nat, spurious: bool, task: T)
    requires Shape(s) && Logged(s.rings) && id == |s.workers| + t && ClientCarries(s, t, id, spurious)
    ensures Missing(AdvanceStep(s, t, spurious), task) == Missing(s, task)
  {
    match ClientOf(s, t) {
      case Away =>
      case Counted(c) => if c < |s.rings| { NotifyConserves(s, t, id, c, task); }
      case Called(_) => BeforeConserves(s, t, id, spurious, task);
      case Checked(_) => BeforeConserves(s, t, id, spurious, task);
      case Pushing(_, c) => if c < |s.rings| { PushConserves(s, t, id, c, spurious, task); }
      case Stealing(c) => if c < |s.rings| { StealConserves(s, t, id, c, spurious, task); }
      case Executing(x) => FinishConserves(s, t, id, x, task);
      case _ => AfterConserves(s, t, id, spurious, task);
    }
  }

  /** A client calls `derived_execute` or `try_steal`. */
  lemma CallConserves<T>(s: Pool<T>, a: Action<T>, task: T)
    requires Shape(s) && Logged(s.rings) && (a.Submit? || a.Help?)
    ensures Missing(Step(s, a), task) == Missing(s, task)
  {
    if ClientOf(s, a.tid).Away? {
      OutsideConserves(s, Step(s, a), a.tid, |s.workers| + a.tid, task);
    }
  }

  lemma StepConserves<T>(s: Pool<T>, a: Action<T>, task: T)
    requires Shape(s) && Sound(s.rings) && LocalsFit(s)
    ensures Missing(Step(s, a), task) == Missing(s, task)
  {
    SoundIsLogged(s.rings);
    match a {
      case Work(w, spurious) =>
        if w < |s.workers| {
          WorkersCarry(s, w, spurious);
          WorkConserves(s, w, spurious, task);
        }
      case Advance(t, spurious) =>
        ClientsCarry(s, t, |s.workers| + t, spurious);
        AdvanceConserves(s, t, |s.workers| + t, spurious, task);
      case Submit(_, _) => CallConserves(s, a, task);
      case Help(_) => CallConserves(s, a, task);
      case Stir(_) => StirConserves(s, Step(s, a), task);
      case Shutdown => StirConserves(s, Step(s, a), task);
    }
  }

  lemma {:induction false} TotalSum<A>(xs: seq<A>, f: A -> nat, g: A -> nat, h: A -> nat)
    requires forall i :: 0 <= i < |xs| ==> f(xs[i]) == g(xs[i]) + h(xs[i])
    ensures Total(xs, f) == Total(xs, g) + Total(xs, h)
  {
    if xs != [] {
      TotalSum(xs[..|xs| - 1], f, g, h);
    }
  }

  lemma QueuedOrOut<T>(rings: seq<Ring.Ring<T>>, task: T)
    requires Logged(rings)
    ensures Total(rings, EverQueued(task)) == Total(rings, StillQueued(task)) + Total(rings, HandedOut(task))
  {
    forall c | 0 <= c < |rings|
      ensures EverQueued(task)(rings[c]) ==
              StillQueued(task)(rings[c]) + HandedOut(task)(rings[c])
    {
      var r := rings[c];
      assert LoggedRing(r);
      assert r.log == r.log[..r.dequeuePos] + r.log[r.dequeuePos..];
    }
    TotalSum(rings, EverQueued(task), StillQueued(task), HandedOut(task));
  }

  lemma NoneMissing<T>(workers: nat, capacity: nat, task: T)
    requires workers > 0 && capacity >= 2
    ensures Missing(Init(workers, capacity), task) == 0
  {
    var s := Init<T>(workers, capacity);
    TotalZero(s.rings, HandedOut(task));
    forall i: nat ensures i !in Holders(s, task) {
      IsHolder(s, i, task);
    }
    assert Holders(s, task) == {};
  }

  lemma {:induction false} RunConservesAll<T>(workers: nat, capacity: nat, acts: seq<Action<T>>, task: T)
    requires workers > 0 && capacity >= 2
    ensures Missing(Exec(Init(workers, capacity), acts), task) == 0
  {
    if acts == [] {
      NoneMissing(workers, capacity, task);
    } else {
      var s := Init<T>(workers, capacity);
      var prefix := acts[..|acts| - 1];
      InitInv<T>(workers, capacity);
      LockFreeRuns.RunKeepsInv(s, prefix);
      RunConservesAll(workers, capacity, prefix, task);
      StepConserves(Exec(s, prefix), acts[|acts| - 1], task);
    }
  }

  /**
   No task of the lock-free pool is lost, invented or run twice: in every reachable state each task
   has been queued in some ring as often as it is now queued, in the hands of a worker or of a thief,
   or executed.
   */
  lemma TasksAreConserved<T>(workers: nat, capacity: nat, acts: seq<Action<T>>, task: T)
    requires workers > 0 && capacity >= 2
    ensures var s := Exec(Init(workers, capacity), acts);
            Total(s.rings, EverQueued(task)) ==
            Total(s.rings, StillQueued(task)) + |Holders(s, task)| + multiset(s.executed)[task]
  {
    var s := Exec(Init(workers, capacity), acts);
    RunConservesAll(workers, capacity, acts, task);
    InitInv<T>(workers, capacity);
    LockFreeRuns.RunKeepsInv(Init(workers, capacity), acts);
    SoundIsLogged(s.rings);
    QueuedOrOut(s.rings, task);
  }
}
