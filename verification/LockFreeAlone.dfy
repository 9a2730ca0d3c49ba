/**
 A push or a pop of one thread in a ring of the lock-free pool while all others stand still,
 wherever they are: the ring after each of its five rounds.
 */
module LockFreeAlone {
  import opened Common
  import Ring
  import RingFifo
  import opened LockFreePool
  import opened LockFreeRuns

  /** A pop would find the next ticket handed out and published. */
  ghost predicate Ready<T>(r: Ring.Ring<T>)
    requires |r.cells| > 0
  {
    r.dequeuePos < r.enqueuePos && !RingFifo.Unpublished(r, r.dequeuePos)
  }

  /** A push would find its cell free. */
  predicate HasRoom<T>(r: Ring.Ring<T>)
    requires |r.cells| > 0
  {
    Ring.CellAt(r, r.enqueuePos).sequence == r.enqueuePos
  }

  /** Ring `r` after `k` rounds of a push that starts there. */
  function PushAt<T>(r: Ring.Ring<T>, id: nat, msg: T, k: nat): (r': Ring.Ring<T>)
    requires |r.cells| > 0
    ensures |r'.cells| == |r.cells|
  {
    var p := r.enqueuePos;
    if k == 0 then Ring.Move(r, id, Ring.PushStart(msg))
    else if k == 1 then Ring.Move(r, id, Ring.PushLook(msg, p))
    else if k == 2 then Ring.Move(r, id, Ring.PushCas(msg, p))
    else
      var r' := r.(enqueuePos := p + 1, log := r.log + [msg]);
      if k == 3 then Ring.Move(r', id, Ring.PushWrite(msg, p))
      else if k == 4 then Ring.Move(Ring.SetCell(r', p, Ring.Cell(p, Some(msg))), id, Ring.PushPublish(msg, p))
      else Ring.Move(Ring.SetCell(r', p, Ring.Cell(p + 1, Some(msg))), id, Ring.Idle)
  }

  /** Ring `r` after `k` rounds of a pop that starts there. */
  function PopAt<T>(r: Ring.Ring<T>, id: nat, k: nat): (r': Ring.Ring<T>)
    requires |r.cells| > 0
    ensures |r'.cells| == |r.cells|
  {
    var p := r.dequeuePos;
    var c := Ring.CellAt(r, p);
    if k == 0 then Ring.Move(r, id, Ring.PopStart)
    else if k == 1 then Ring.Move(r, id, Ring.PopLook(p))
    else if k == 2 then Ring.Move(r, id, Ring.PopCas(p))
    else
      var r' := r.(dequeuePos := p + 1);
      if k == 3 then Ring.Move(r', id, Ring.PopTake(p))
      else if k == 4 then Ring.Move(Ring.SetCell(r', p, c.(data := None)), id, Ring.PopRelease(p, c.data))
      else Ring.Move(Ring.SetCell(r', p, Ring.Cell(p + |r.cells|, None)), id, Ring.Idle)
  }

  lemma PushLoads<T>(r: Ring.Ring<T>, id: nat, msg: T, k: nat)
    requires |r.cells| > 0 && HasRoom(r) && k < 3
    ensures PushRound(PushAt(r, id, msg, k), id, false) == (PushAt(r, id, msg, k + 1), Still)
  {
    var l, l' := PushAt(r, id, msg, k).threads[id], PushAt(r, id, msg, k + 1).threads[id];
    RingFifo.MoveTwice(r, id, l, l');
  }

  lemma PushStores<T>(r: Ring.Ring<T>, id: nat, msg: T, k: nat)
    requires |r.cells| > 0 && HasRoom(r) && 3 <= k < 5
    ensures PushRound(PushAt(r, id, msg, k), id, false) ==
            (PushAt(r, id, msg, k + 1), if k < 4 then Still else Over(Some(msg)))
  {
    var p := r.enqueuePos;
    var s := r.(enqueuePos := p + 1, log := r.log + [msg]);
    var full := Ring.Cell(p, Some(msg));
    if k == 3 {
      RingFifo.MoveTwice(Ring.SetCell(s, p, full), id, Ring.PushWrite(msg, p), Ring.PushPublish(msg, p));
    } else {
      RingFifo.LastWriteWins(s, p, id, full, Ring.PushPublish(msg, p), Ring.Cell(p + 1, Some(msg)),
                             Ring.PushEnd(msg, Ring.Accepted(p)));
    }
  }

  lemma PopLoads<T>(r: Ring.Ring<T>, id: nat, k: nat)
    requires |r.cells| > 0 && Ring.CellAt(r, r.dequeuePos).sequence == r.dequeuePos + 1 && k < 3
    ensures PopRound(PopAt(r, id, k), id, false) == (PopAt(r, id, k + 1), Still)
  {
    var l, l' := PopAt(r, id, k).threads[id], PopAt(r, id, k + 1).threads[id];
    RingFifo.MoveTwice(r, id, l, l');
  }

  lemma PopTakes<T>(r: Ring.Ring<T>, id: nat)
    requires |r.cells| > 0
    ensures PopRound(PopAt(r, id, 3), id, false) == (PopAt(r, id, 4), Still)
  {
    var p := r.dequeuePos;
    var c := Ring.CellAt(r, p);
    RingFifo.MoveTwice(Ring.SetCell(r.(dequeuePos := p + 1), p, c.(data := None)), id, Ring.PopTake(p),
                       Ring.PopRelease(p, c.data));
  }

  lemma PopReleases<T>(r: Ring.Ring<T>, id: nat)
    requires |r.cells| > 0 && Ring.CellAt(r, r.dequeuePos).data.Some?
    ensures PopRound(PopAt(r, id, 4), id, false) == (PopAt(r, id, 5), Over(Ring.CellAt(r, r.dequeuePos).data))
  {
    var p := r.dequeuePos;
    var c := Ring.CellAt(r, p);
    RingFifo.LastWriteWins(r.(dequeuePos := p + 1), p, id, c.(data := None), Ring.PopRelease(p, c.data),
                           Ring.Cell(p + |r.cells|, None), Ring.PopEnd(Ring.Got(p, c.data)));
  }

  /** The cell of the next ticket to dequeue tells a pop whether it is published. */
  lemma HeadCell<T>(r: Ring.Ring<T>)
    requires Ring.Inv(r)
    ensures var c := Ring.CellAt(r, r.dequeuePos);
            if Ready(r) then c == Ring.Cell(r.dequeuePos + 1, Some(r.log[r.dequeuePos]))
            else c.sequence < r.dequeuePos + 1
  {
    assert Ring.CellFits(r, r.dequeuePos);
  }

  lemma PopAdvances<T>(r: Ring.Ring<T>, id: nat, k: nat)
    requires Ring.Inv(r) && Ready(r) && k < 5
    ensures PopRound(PopAt(r, id, k), id, false) ==
            (PopAt(r, id, k + 1), if k < 4 then Still else Over(Some(r.log[r.dequeuePos])))
  {
    HeadCell(r);
    if k < 3 {
      PopLoads(r, id, k);
    } else if k == 3 {
      PopTakes(r, id);
    } else {
      PopReleases(r, id);
    }
  }

  /** A pop that finds nothing is over after two rounds. */
  lemma PopGivesUp<T>(r: Ring.Ring<T>, id: nat)
    requires |r.cells| > 0 && Ring.CellAt(r, r.dequeuePos).sequence < r.dequeuePos + 1
    ensures PopRound(PopAt(r, id, 0), id, false) == (PopAt(r, id, 1), Still)
    ensures PopRound(PopAt(r, id, 1), id, false) == (Ring.Move(r, id, Ring.Idle), Over(None))
  {
    RingFifo.MoveTwice(r, id, Ring.PopStart, Ring.PopLook(r.dequeuePos));
    RingFifo.MoveTwice(r, id, Ring.PopLook(r.dequeuePos), Ring.PopEnd(Ring.Nothing));
    RingFifo.MoveTwice(r, id, Ring.PopEnd(Ring.Nothing), Ring.Idle);
  }

  lemma UpdateTwice<A>(xs: seq<A>, i: nat, x: A, y: A)
    requires i < |xs|
    ensures xs[i := x][i := y] == xs[i := y]
  {
  }

  /** One action of client `t` in its push to ring `c`, which started when that ring was `r`. */
  lemma PushActs<T>(s: Pool<T>, t: nat, id: nat, task: T, c: nat, r: Ring.Ring<T>, k: nat)
    requires Shape(s) && c < |s.rings| && id == |s.workers| + t && ClientOf(s, t) == Pushing(task, c)
    requires |r.cells| > 0 && HasRoom(r) && k < 5 && s.rings[c] == PushAt(r, id, task, k)
    ensures var s' := SetRing(s, c, PushAt(r, id, task, k + 1));
            AdvanceStep(s, t, false) == if k < 4 then s' else SetClient(s', t, Pushed(c))
  {
    if k < 3 {
      PushLoads(r, id, task, k);
    } else {
      PushStores(r, id, task, k);
    }
  }

  /** One action of client `t` in its pop from ring `c`, which started when that ring was `r` with a published head. */
  lemma PopActs<T>(s: Pool<T>, t: nat, id: nat, c: nat, r: Ring.Ring<T>, k: nat)
    requires Shape(s) && c < |s.rings| && id == |s.workers| + t && ClientOf(s, t) == Stealing(c)
    requires Ring.Inv(r) && Ready(r) && k < 5 && s.rings[c] == PopAt(r, id, k)
    ensures var s' := SetRing(s, c, PopAt(r, id, k + 1));
            AdvanceStep(s, t, false) == if k < 4 then s' else SetClient(s', t, Executing(r.log[r.dequeuePos]))
  {
    PopAdvances(r, id, k);
  }

  /** The same with no published head: after the second action the client goes on to the next ring. */
  lemma MissActs<T>(s: Pool<T>, t: nat, id: nat, c: nat, r: Ring.Ring<T>, k: nat)
    requires Shape(s) && c < |s.rings| && id == |s.workers| + t && ClientOf(s, t) == Stealing(c)
    requires Ring.Inv(r) && !Ready(r) && k < 2 && s.rings[c] == PopAt(r, id, k)
    ensures AdvanceStep(s, t, false) ==
            if k < 1 then SetRing(s, c, PopAt(r, id, 1))
            else
              var s' := SetRing(s, c, Ring.Move(r, id, Ring.Idle));
              if c + 1 < |s.rings| then SetClient(StartPop(s', c + 1, id), t, Stealing(c + 1))
              else SetClient(s', t, Away)
  {
    HeadCell(r);
    PopGivesUp(r, id);
  }

  /** What a whole push appends, and what a whole pop removes. */
  lemma PushAppends<T>(r: Ring.Ring<T>, id: nat, msg: T)
    requires Ring.Counters(r)
    ensures RingFifo.Contents(PushAt(r, id, msg, 5)) == RingFifo.Contents(r) + [msg]
  {
  }

  lemma PopRemoves<T>(r: Ring.Ring<T>, id: nat)
    requires Ring.Counters(r) && r.dequeuePos < r.enqueuePos
    ensures RingFifo.Contents(r) == [r.log[r.dequeuePos]] + RingFifo.Contents(PopAt(r, id, 5))
  {
  }

  /** The first ring from `c` on whose head a pop would find published; `|rings|` if there is none. */
  ghost function FirstReady<T>(rings: seq<Ring.Ring<T>>, c: nat): (first: nat)
    requires c <= |rings| && forall k :: 0 <= k < |rings| ==> |rings[k].cells| > 0
    ensures c <= first <= |rings| && (first < |rings| ==> Ready(rings[first]))
    ensures forall k :: c <= k < first ==> !Ready(rings[k])
    decreases |rings| - c
  {
    if c == |rings| || Ready(rings[c]) then c else FirstReady(rings, c + 1)
  }

  // ----- Whole operations of a client -----

  /** Client `t` alone is done after exactly `n` actions, which lead from `s` to `s'`. */
  ghost predicate Ends<T>(s: Pool<T>, t: nat, n: nat, s': Pool<T>)
    requires Shape(s)
    decreases n
  {
    if n == 0 then s == s' && ClientOf(s, t).Away?
    else !ClientOf(s, t).Away? && Ends(AdvanceStep(s, t, false), t, n - 1, s')
  }

  lemma {:induction false} RunFrom<T>(s: Pool<T>, a: Action<T>, acts: seq<Action<T>>)
    requires Shape(s)
    ensures Exec(s, [a] + acts) == Exec(Step(s, a), acts)
  {
    var all := [a] + acts;
    if acts == [] {
      assert all[..0] == [];
    } else {
      RunFrom(s, a, acts[..|acts| - 1]);
      assert all[..|all| - 1] == [a] + acts[..|acts| - 1];
    }
  }

  lemma {:induction false} EndsIsRun<T>(s: Pool<T>, t: nat, n: nat, s': Pool<T>) returns (acts: seq<Action<T>>)
    requires Shape(s) && Ends(s, t, n, s')
    ensures s' == Exec(s, acts)
    decreases n
  {
    acts := [];
    if n > 0 {
      var a: Action<T> := Advance(t, false);
      acts := EndsIsRun(Step(s, a), t, n - 1, s');
      RunFrom(s, a, acts);
      acts := [a] + acts;
    }
  }

  lemma EndsKeepsInv<T>(s: Pool<T>, t: nat, n: nat, s': Pool<T>)
    requires Shape(s) && Inv(s) && Ends(s, t, n, s')
    ensures Shape(s') && Inv(s')
  {
    var acts := EndsIsRun(s, t, n, s');
    LockFreeRuns.RunKeepsInv(s, acts);
  }

  /** The pool after client `t` has pushed its task to ring `c`, raised the notifier and notified. */
  function Delivered<T>(s: Pool<T>, t: nat, id: nat, task: T, c: nat): Pool<T>
    requires Shape(s) && c < |s.rings|
  {
    SetClient(Notify(Bump(SetRing(s, c, PushAt(s.rings[c], id, task, 5)), c), c), t, Away)
  }

  lemma NotifyEnds<T>(s: Pool<T>, t: nat, c: nat)
    requires Shape(s) && c < |s.rings| && ClientOf(s, t) == Pushed(c)
    ensures Ends(s, t, 2, SetClient(Notify(Bump(s, c), c), t, Away))
  {
    var s1 := AdvanceStep(s, t, false);
    var s2 := AdvanceStep(s1, t, false);
    assert s2.clients == s.clients[t := Away];
    assert Ends(s2, t, 0, s2) && Ends(s1, t, 1, s2);
  }

  lemma {:induction false} PushEnds<T>(s: Pool<T>, t: nat, id: nat, task: T, c: nat, r: Ring.Ring<T>, k: nat)
    requires Shape(s) && c < |s.rings| && id == |s.workers| + t && ClientOf(s, t) == Pushing(task, c)
    requires |r.cells| > 0 && HasRoom(r) && k < 5 && s.rings[c] == PushAt(r, id, task, k)
    ensures Ends(s, t, 7 - k, SetClient(Notify(Bump(SetRing(s, c, PushAt(r, id, task, 5)), c), c), t, Away))
    decreases 5 - k
  {
    var s' := AdvanceStep(s, t, false);
    PushActs(s, t, id, task, c, r, k);
    UpdateTwice(s.rings, c, PushAt(r, id, task, k + 1), PushAt(r, id, task, 5));
    if k < 4 {
      PushEnds(s', t, id, task, c, r, k + 1);
    } else {
      NotifyEnds(s', t, c);
      assert s'.clients[t := Away] == s.clients[t := Away];
    }
  }

  /** Two actions of a client before it is done in `n` more. */
  lemma EndsAfter<T>(s: Pool<T>, t: nat, s1: Pool<T>, s2: Pool<T>, n: nat, s': Pool<T>)
    requires Shape(s) && !ClientOf(s, t).Away? && s1 == AdvanceStep(s, t, false)
    requires !ClientOf(s1, t).Away? && s2 == AdvanceStep(s1, t, false) && Ends(s2, t, n, s')
    ensures Ends(s, t, n + 2, s')
  {
    assert Ends(s1, t, n + 1, s');
  }

  /** A submission to an open pool whose ring has room. */
  lemma AcceptedEnds<T>(s: Pool<T>, t: nat, id: nat, task: T, c: nat)
    requires Shape(s) && id == |s.workers| + t && ClientOf(s, t).Away? && s.closing.Open?
    requires c == Slot(s.next, |s.rings|) && HasRoom(s.rings[c])
    ensures Ends(SetClient(s, t, Called(task)), t, 9, Delivered(s.(next := s.next + 1), t, id, task, c))
  {
    var s' := Delivered(s.(next := s.next + 1), t, id, task, c);
    EnterLeads(s, t, id, task, c);
    EnteredEnds(s, t, id, task, c);
    EndsAfter(SetClient(s, t, Called(task)), t, SetClient(s, t, Checked(task)), Entered(s, t, id, task, c), 7, s');
  }

  lemma EnteredEnds<T>(s: Pool<T>, t: nat, id: nat, task: T, c: nat)
    requires Shape(s) && id == |s.workers| + t && c < |s.rings| && HasRoom(s.rings[c])
    ensures Ends(Entered(s, t, id, task, c), t, 7, Delivered(s.(next := s.next + 1), t, id, task, c))
  {
    var s', pushed := Entered(s, t, id, task, c), PushAt(s.rings[c], id, task, 5);
    PushEnds(s', t, id, task, c, s.rings[c], 0);
    assert SetClient(Notify(Bump(SetRing(s', c, pushed), c), c), t, Away) ==
           Delivered(s.(next := s.next + 1), t, id, task, c) by {
      EnteredDelivers(s, t, id, task, c);
    }
  }

  /** The pool when client `t` enters the push to ring `c`. */
  function Entered<T>(s: Pool<T>, t: nat, id: nat, task: T, c: nat): (s': Pool<T>)
    requires Shape(s) && c < |s.rings|
    ensures Shape(s') && |s'.rings| == |s.rings| && |s'.workers| == |s.workers|
    ensures s'.rings[c] == PushAt(s.rings[c], id, task, 0) && ClientOf(s', t) == Pushing(task, c)
  {
    SetClient(SetRing(s, c, PushAt(s.rings[c], id, task, 0)), t, Pushing(task, c)).(next := s.next + 1)
  }

  lemma EnterLeads<T>(s: Pool<T>, t: nat, id: nat, task: T, c: nat)
    requires Shape(s) && id == |s.workers| + t && s.closing.Open? && c == Slot(s.next, |s.rings|)
    ensures AdvanceStep(SetClient(s, t, Called(task)), t, false) == SetClient(s, t, Checked(task))
    ensures AdvanceStep(SetClient(s, t, Checked(task)), t, false) == Entered(s, t, id, task, c)
  {
    assert s.clients[t := Called(task)][t := Checked(task)] == s.clients[t := Checked(task)];
    assert s.clients[t := Checked(task)][t := Pushing(task, c)] == s.clients[t := Pushing(task, c)];
  }

  lemma EnteredDelivers<T>(s: Pool<T>, t: nat, id: nat, task: T, c: nat)
    requires Shape(s) && c < |s.rings|
    ensures var s3 := Entered(s, t, id, task, c);
            SetClient(Notify(Bump(SetRing(s3, c, PushAt(s.rings[c], id, task, 5)), c), c), t, Away) ==
            Delivered(s.(next := s.next + 1), t, id, task, c)
  {
    UpdateTwice(s.rings, c, PushAt(s.rings[c], id, task, 0), PushAt(s.rings[c], id, task, 5));
    assert s.clients[t := Pushing(task, c)][t := Away] == s.clients[t := Away];
  }

  lemma RefusedEnds<T>(s: Pool<T>, t: nat, task: T)
    requires Shape(s) && ClientOf(s, t).Away? && !s.closing.Open?
    ensures Ends(SetClient(s, t, Called(task)), t, 2, SetClient(s, t, Away))
  {
    var s1 := SetClient(s, t, Called(task));
    var s2 := AdvanceStep(s1, t, false);
    var s3 := AdvanceStep(s2, t, false);
    assert s3.clients == s.clients[t := Away];
    assert Ends(s3, t, 0, s3) && Ends(s2, t, 1, s3);
  }

  /**
   What a whole delivery to ring `c` changes: the task is the last of that ring, its notifier is
   raised, its worker is not left blocked, and nothing else moves.
   */
  ghost predicate Arrived<T>(s: Pool<T>, s': Pool<T>, t: nat, task: T, c: nat)
    requires Shape(s) && Shape(s') && c < |s.rings| == |s'.rings| && |s'.workers| == |s.workers|
  {
    && s' == s.(rings := s.rings[c := s'.rings[c]], notifiers := s.notifiers[c := s.notifiers[c] + 1],
                workers := s.workers[c := s'.workers[c]], clients := s.clients[t := Away], next := s.next + 1)
    && Ring.Counters(s.rings[c]) && Ring.Counters(s'.rings[c])
    && RingFifo.Contents(s'.rings[c]) == RingFifo.Contents(s.rings[c]) + [task]
    && !s'.workers[c].Blocked? && (!s.workers[c].Blocked? ==> s'.workers[c] == s.workers[c])
  }

  lemma DeliveryArrives<T>(s: Pool<T>, t: nat, id: nat, task: T, c: nat)
    requires Shape(s) && c < |s.rings| && Ring.Counters(s.rings[c]) && SeenFits(s, c)
    requires s.rings[c].enqueuePos < s.rings[c].dequeuePos + |s.rings[c].cells|
    ensures Arrived(s, Delivered(s.(next := s.next + 1), t, id, task, c), t, task, c)
  {
    PushAppends(s.rings[c], id, task);
  }

  /** `derived_execute` by client `t` alone. */
  lemma ExecuteEnds<T>(s: Pool<T>, t: nat, id: nat, task: T) returns (n: nat, s': Pool<T>)
    requires Shape(s) && Inv(s) && id == |s.workers| + t && ClientOf(s, t).Away?
    requires s.closing.Open? ==> HasRoom(s.rings[Slot(s.next, |s.rings|)])
    ensures Shape(s') && |s'.workers| == |s.workers| && Inv(s') && Ends(SetClient(s, t, Called(task)), t, n, s')
    ensures if s.closing.Open? then Arrived(s, s', t, task, Slot(s.next, |s.rings|)) else s' == SetClient(s, t, Away)
  {
    if s.closing.Open? {
      var c := Slot(s.next, |s.rings|);
      assert Ring.Inv(s.rings[c]) && WorkerFits(s, c);
      Ring.ReadyToClaim(s.rings[c], s.rings[c].enqueuePos);
      AcceptedEnds(s, t, id, task, c);
      DeliveryArrives(s, t, id, task, c);
      n, s' := 9, Delivered(s.(next := s.next + 1), t, id, task, c);
    } else {
      RefusedEnds(s, t, task);
      n, s' := 2, SetClient(s, t, Away);
    }
    CallKeepsInv(s, Submit(t, task), SetClient(s, t, Called(task)), t, n, s');
  }

  lemma CallKeepsInv<T>(s: Pool<T>, a: Action<T>, s1: Pool<T>, t: nat, n: nat, s': Pool<T>)
    requires Shape(s) && Inv(s) && Step(s, a) == s1 && Ends(s1, t, n, s')
    ensures Shape(s') && Inv(s')
  {
    StepKeepsInv(s, a);
    EndsKeepsInv(s1, t, n, s');
  }

  /** The pool after client `t` has tried to steal from ring `c` and those after it. */
  ghost function Stolen<T>(s: Pool<T>, t: nat, id: nat, c: nat): (s': Pool<T>)
    requires Shape(s) && c <= |s.rings|
    requires forall k :: c <= k < |s.rings| ==> Ring.Inv(s.rings[k])
    decreases |s.rings| - c
  {
    if c == |s.rings| then SetClient(s, t, Away)
    else if Ready(s.rings[c]) then
      var r := s.rings[c];
      assert Ring.Inv(r);
      SetClient(SetRing(s, c, PopAt(r, id, 5)), t, Away).(executed := s.executed + [r.log[r.dequeuePos]])
    else Stolen(SetRing(s, c, Ring.Move(s.rings[c], id, Ring.Idle)), t, id, c + 1)
  }

  lemma {:induction false} TakeEnds<T>(s: Pool<T>, t: nat, id: nat, c: nat, r: Ring.Ring<T>, k: nat)
    requires Shape(s) && c < |s.rings| && id == |s.workers| + t && ClientOf(s, t) == Stealing(c)
    requires Ring.Inv(r) && Ready(r) && k < 5 && s.rings[c] == PopAt(r, id, k)
    ensures Ends(s, t, 6 - k,
                 SetClient(SetRing(s, c, PopAt(r, id, 5)), t, Away).(executed := s.executed + [r.log[r.dequeuePos]]))
    decreases 5 - k
  {
    var s' := AdvanceStep(s, t, false);
    PopActs(s, t, id, c, r, k);
    UpdateTwice(s.rings, c, PopAt(r, id, k + 1), PopAt(r, id, 5));
    if k < 4 {
      TakeEnds(s', t, id, c, r, k + 1);
    } else {
      var s'' := AdvanceStep(s', t, false);
      assert s''.clients == s.clients[t := Away];
      assert Ends(s'', t, 0, s'') && Ends(s', t, 1, s'');
    }
  }

  lemma TakesEnd<T>(s: Pool<T>, t: nat, id: nat, c: nat)
    requires Shape(s) && c < |s.rings| && id == |s.workers| + t && Ring.Inv(s.rings[c]) && Ready(s.rings[c])
    ensures var r := s.rings[c];
            Ends(SetClient(StartPop(s, c, id), t, Stealing(c)), t, 6,
                 SetClient(SetRing(s, c, PopAt(r, id, 5)), t, Away).(executed := s.executed + [r.log[r.dequeuePos]]))
  {
    var r := s.rings[c];
    TakeEnds(SetClient(StartPop(s, c, id), t, Stealing(c)), t, id, c, r, 0);
    UpdateTwice(s.rings, c, PopAt(r, id, 0), PopAt(r, id, 5));
    assert s.clients[t := Stealing(c)][t := Away] == s.clients[t := Away];
  }

  lemma {:induction false} StealEnds<T>(s: Pool<T>, t: nat, id: nat, c: nat) returns (n: nat)
    requires Shape(s) && c < |s.rings| && id == |s.workers| + t
    requires forall k :: c <= k < |s.rings| ==> Ring.Inv(s.rings[k])
    ensures Ends(SetClient(StartPop(s, c, id), t, Stealing(c)), t, n, Stolen(s, t, id, c))
    decreases |s.rings| - c
  {
    assert Ring.Inv(s.rings[c]);
    if Ready(s.rings[c]) {
      TakesEnd(s, t, id, c);
      n := 6;
    } else {
      n := 0;
      if c + 1 < |s.rings| {
        n := StealEnds(SetRing(s, c, Ring.Move(s.rings[c], id, Ring.Idle)), t, id, c + 1);
      }
      MissEnds(s, t, id, c, n);
      n := n + 2;
    }
  }

  /** If the rest of a sweep ends after `n` actions, two more make it end from a ring without a published head. */
  lemma MissEnds<T>(s: Pool<T>, t: nat, id: nat, c: nat, n: nat)
    requires Shape(s) && c < |s.rings| && id == |s.workers| + t && !Ready(s.rings[c])
    requires forall k :: c <= k < |s.rings| ==> Ring.Inv(s.rings[k])
    requires var x := SetRing(s, c, Ring.Move(s.rings[c], id, Ring.Idle));
             if c + 1 < |s.rings| then Ends(Missed(s, t, id, c), t, n, Stolen(x, t, id, c + 1)) else n == 0
    ensures Ends(SetClient(StartPop(s, c, id), t, Stealing(c)), t, n + 2, Stolen(s, t, id, c))
  {
    var r := s.rings[c];
    var x := SetRing(s, c, Ring.Move(r, id, Ring.Idle));
    var s0, s1 := SetClient(StartPop(s, c, id), t, Stealing(c)),
                  SetClient(SetRing(s, c, PopAt(r, id, 1)), t, Stealing(c));
    var s' := Stolen(x, t, id, c + 1);
    assert Ring.Inv(r);
    MissLeads(s, t, id, c);
    assert Stolen(s, t, id, c) == s';
    assert Ends(Missed(s, t, id, c), t, n, s');
    EndsAfter(s0, t, s1, Missed(s, t, id, c), n, s');
  }

  /** The pool after client `t` has found no published head in ring `c`. */
  function Missed<T>(s: Pool<T>, t: nat, id: nat, c: nat): (s': Pool<T>)
    requires Shape(s) && c < |s.rings|
    ensures Shape(s')
  {
    var x := SetRing(s, c, Ring.Move(s.rings[c], id, Ring.Idle));
    if c + 1 < |s.rings| then SetClient(StartPop(x, c + 1, id), t, Stealing(c + 1)) else SetClient(x, t, Away)
  }

  lemma MissLeads<T>(s: Pool<T>, t: nat, id: nat, c: nat)
    requires Shape(s) && c < |s.rings| && id == |s.workers| + t && Ring.Inv(s.rings[c]) && !Ready(s.rings[c])
    ensures var s1 := SetClient(SetRing(s, c, PopAt(s.rings[c], id, 1)), t, Stealing(c));
            AdvanceStep(SetClient(StartPop(s, c, id), t, Stealing(c)), t, false) == s1 &&
            AdvanceStep(s1, t, false) == Missed(s, t, id, c)
  {
    var r := s.rings[c];
    var s0, s1 := SetClient(StartPop(s, c, id), t, Stealing(c)),
                  SetClient(SetRing(s, c, PopAt(r, id, 1)), t, Stealing(c));
    MissActs(s0, t, id, c, r, 0);
    MissActs(s1, t, id, c, r, 1);
    UpdateTwice(s.rings, c, PopAt(r, id, 0), PopAt(r, id, 1));
    UpdateTwice(s.rings, c, PopAt(r, id, 1), Ring.Move(r, id, Ring.Idle));
    assert s.clients[t := Stealing(c)][t := Away] == s.clients[t := Away];
    assert s.clients[t := Stealing(c)][t := Stealing(c + 1)] == s.clients[t := Stealing(c + 1)];
  }

  /**
   What a whole `try_steal` changes: it takes the head of the first ring that has a published one
   out and runs it, in the other rings at most a thread position changes.
   */
  ghost predicate StoleFirst<T>(s: Pool<T>, s': Pool<T>, t: nat, c: nat)
    requires Shape(s) && c <= |s.rings|
  {
    var first := FirstReady(s.rings, c);
    && s' == s.(rings := s'.rings, clients := s.clients[t := Away], executed := s'.executed)
    && |s'.rings| == |s.rings|
    && (forall k :: 0 <= k < |s.rings| && k != first ==> s'.rings[k] == s.rings[k].(threads := s'.rings[k].threads))
    && if first < |s.rings| then Taken(s.rings[first], s'.rings[first], s.executed, s'.executed)
       else s'.executed == s.executed
  }

  /** The head of the ring has been taken out and run. */
  ghost predicate Taken<T>(r: Ring.Ring<T>, r': Ring.Ring<T>, ran: seq<T>, ran': seq<T>) {
    && Ring.Counters(r) && Ring.Counters(r') && r'.cells != []
    && RingFifo.Contents(r) != [] && RingFifo.Contents(r') == RingFifo.Contents(r)[1..]
    && ran' == ran + [RingFifo.Contents(r)[0]]
  }

  lemma {:induction false} StolenSays<T>(s: Pool<T>, t: nat, id: nat, c: nat)
    requires Shape(s) && c <= |s.rings|
    requires forall k :: c <= k < |s.rings| ==> Ring.Inv(s.rings[k])
    ensures StoleFirst(s, Stolen(s, t, id, c), t, c)
    decreases |s.rings| - c
  {
    if c < |s.rings| {
      assert Ring.Inv(s.rings[c]);
      if Ready(s.rings[c]) {
        PopRemoves(s.rings[c], id);
      } else {
        var x := SetRing(s, c, Ring.Move(s.rings[c], id, Ring.Idle));
        StolenSays(x, t, id, c + 1);
        SameFirst(s.rings, x.rings, c + 1);
      }
    }
  }

  lemma {:induction false} SameFirst<T>(rings: seq<Ring.Ring<T>>, rings': seq<Ring.Ring<T>>, c: nat)
    requires c <= |rings| == |rings'|
    requires forall k :: 0 <= k < |rings| ==> |rings[k].cells| > 0 && |rings'[k].cells| > 0
    requires forall k :: c <= k < |rings| ==> rings'[k] == rings[k]
    ensures FirstReady(rings', c) == FirstReady(rings, c)
    decreases |rings| - c
  {
    if c < |rings| {
      SameFirst(rings, rings', c + 1);
    }
  }

  /** `try_steal` by client `t` alone. */
  lemma TryStealEnds<T>(s: Pool<T>, t: nat, id: nat) returns (n: nat, s': Pool<T>)
    requires Shape(s) && Inv(s) && id == |s.workers| + t && ClientOf(s, t).Away?
    ensures Shape(s') && Inv(s') && Ends(SetClient(StartPop(s, 0, id), t, Stealing(0)), t, n, s')
    ensures StoleFirst(s, s', t, 0)
  {
    assert forall k :: 0 <= k < |s.rings| ==> Ring.Inv(s.rings[k]);
    n := StealEnds(s, t, id, 0);
    s' := Stolen(s, t, id, 0);
    StolenSays(s, t, id, 0);
    CallKeepsInv(s, Help(t), SetClient(StartPop(s, 0, id), t, Stealing(0)), t, n, s');
  }

  /** The states that client `t` alone goes through to the end of its operation. */
  ghost predicate Leads<T>(path: seq<Pool<T>>, t: nat) {
    && path != [] && (forall i :: 0 <= i < |path| ==> Shape(path[i]))
    && (forall i :: 0 <= i < |path| ==> (ClientOf(path[i], t).Away? <==> i == |path| - 1))
    && (forall i :: 0 <= i < |path| - 1 ==> path[i + 1] == AdvanceStep(path[i], t, false))
  }

  lemma LeadsFrom<T>(s: Pool<T>, t: nat, rest: seq<Pool<T>>)
    requires Shape(s) && !ClientOf(s, t).Away? && Leads(rest, t) && rest[0] == AdvanceStep(s, t, false)
    ensures Leads([s] + rest, t) && ([s] + rest)[|rest|] == rest[|rest| - 1]
  {
    var path := [s] + rest;
    assert forall i :: 0 < i < |path| ==> path[i] == rest[i - 1];
  }

  lemma {:induction false} EndsLeads<T>(s: Pool<T>, t: nat, n: nat, s': Pool<T>) returns (path: seq<Pool<T>>)
    requires Shape(s) && Ends(s, t, n, s')
    ensures Leads(path, t) && path[0] == s && path[|path| - 1] == s'
    decreases n
  {
    if n == 0 {
      path := [s];
    } else {
      var rest := EndsLeads(AdvanceStep(s, t, false), t, n - 1, s');
      LeadsFrom(s, t, rest);
      path := [s] + rest;
    }
  }

  lemma AdvanceExecutes<T>(s: Pool<T>, t: nat)
    requires Shape(s)
    ensures AdvanceStep(s, t, false).executed ==
            s.executed + if ClientOf(s, t).Executing? then [ClientOf(s, t).task] else []
  {
  }
}
