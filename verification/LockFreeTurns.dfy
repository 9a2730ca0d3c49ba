/**
 One turn of a worker of the lock-free pool while everybody else stands still wherever they are:
 which rings it looks into, in which order, and what it comes back with.
 */
module LockFreeTurns {
  import opened Common
  import Ring
  import RingFifo
  import opened ClosingDown
  import opened LockFreeAlone
  import opened LockFreePool
  import opened LockFreeRuns
  import opened LockFreeFetch
  import opened LockFreeTasks

  // ----- The order of the rings -----

  /** The `j`-th ring that worker `w` of `n` looks into: its own, and then those of its neighbours in turn. */
  function RingAt(w: nat, j: nat, n: nat): (c: nat)
    requires n > 0
    ensures c < n
  {
    Slot(w + j, n)
  }

  lemma OrderDiffers(w: nat, p: nat, n: nat)
    requires p < n
    ensures forall j: nat :: j < n && j != p ==> RingAt(w, j, n) != RingAt(w, p, n)
  {
    forall j: nat | j < n && j != p ensures RingAt(w, j, n) != RingAt(w, p, n) {
      SlotsDiffer(w + j, w + p, n);
    }
  }

  ghost predicate IsTarget(w: nat, c: nat, n: nat)
    requires n > 0
  {
    exists i: nat :: i < n - 1 && Target(w, i, n) == c
  }

  /** A sweep tries every other ring exactly once, in turn. */
  lemma SweepInTurn(w: nat, n: nat)
    requires w < n
    ensures forall i: nat :: i < n - 1 ==> Target(w, i, n) == (w + i + 1) % n && Target(w, i, n) != w
    ensures forall i: nat, j: nat :: i < j < n - 1 ==> Target(w, i, n) != Target(w, j, n)
    ensures forall c: nat :: c < n && c != w ==> IsTarget(w, c, n)
  {
    forall i: nat | i < n - 1 ensures Target(w, i, n) == (w + i + 1) % n && Target(w, i, n) != w {
      SlotIsModulo(w + i + 1, n);
      SlotsDiffer(w, w + i + 1, n);
    }
    forall i: nat, j: nat | i < j < n - 1 ensures Target(w, i, n) != Target(w, j, n) {
      SlotsDiffer(w + i + 1, w + j + 1, n);
    }
    forall c: nat | c < n && c != w ensures IsTarget(w, c, n) {
      var p := SlotInWindow(c, w, n);
      assert Target(w, p - w - 1, n) == c;
    }
  }

  /** The place in the order, from `j` on, of the first ring with a published head. */
  ghost function FirstInOrder<T>(s: Pool<T>, w: nat, j: nat): (p: nat)
    requires Shape(s) && j <= |s.rings|
    ensures j <= p <= |s.rings| && (p < |s.rings| ==> Ready(s.rings[RingAt(w, p, |s.rings|)]))
    ensures forall i: nat :: j <= i < p ==> !Ready(s.rings[RingAt(w, i, |s.rings|)])
    decreases |s.rings| - j
  {
    if j == |s.rings| || Ready(s.rings[RingAt(w, j, |s.rings|)]) then j else FirstInOrder(s, w, j + 1)
  }

  // ----- A turn -----

  /** The first `p` rings have been looked into in vain, those from `q` on not at all. */
  ghost predicate Passed<T>(s: Pool<T>, s0: Pool<T>, w: nat, p: nat, q: nat)
    requires Shape(s0) && p <= q
  {
    var n := |s0.rings|;
    && |s.rings| == n
    && (forall j: nat :: j < p && j < n ==>
          !Ready(s0.rings[RingAt(w, j, n)]) &&
          s.rings[RingAt(w, j, n)] == Ring.Move(s0.rings[RingAt(w, j, n)], w, Ring.Idle))
    && (forall j: nat :: q <= j < n ==> s.rings[RingAt(w, j, n)] == s0.rings[RingAt(w, j, n)])
  }

  /** How many rounds of an undisturbed pop are behind. */
  function StageOf<T>(l: Ring.Local<T>): (k: nat)
    ensures k <= 4
  {
    match l
    case PopLook(_) => 1
    case PopCas(_) => 2
    case PopTake(_) => 3
    case PopRelease(_, _) => 4
    case _ => 0
  }

  /** The worker is in its pop from the ring at place `p`. */
  ghost predicate Visits<T>(s: Pool<T>, s0: Pool<T>, w: nat, p: nat)
    requires Shape(s0)
  {
    var n := |s0.rings|;
    && p < n && Passed(s, s0, w, p, p + 1)
    && var r, r0 := s.rings[RingAt(w, p, n)], s0.rings[RingAt(w, p, n)];
       var k := StageOf(Ring.LocalOf(r, w));
       r == PopAt(r0, w, k) && (!Ready(r0) ==> k < 2)
  }

  /** The progress of a turn that began at the top of the loop in `s0`. */
  ghost predicate Turns<T>(s: Pool<T>, s0: Pool<T>, w: nat)
    requires Shape(s0) && w < |s0.workers|
  {
    var n, seen := |s0.rings|, s0.notifiers[w];
    && w < |s.workers| && s == s0.(workers := s0.workers[w := s.workers[w]], rings := s.rings)
    && match s.workers[w]
       case Top => s == s0
       case Admitted => s.rings == s0.rings
       case Looking(x) => x == seen && Visits(s, s0, w, 0)
       case Sweeping(x, i) =>
         x == seen && i < n && if i < n - 1 then Visits(s, s0, w, i + 1) else Passed(s, s0, w, n, n)
       case Waiting(x) => x == seen && Passed(s, s0, w, n, n)
       case Running(_) => Turned(s, s0, w)
       case Blocked(_) => Turned(s, s0, w)
       case Exited => false
  }

  /**
   What a turn comes to: the worker has taken the head of the first ring in its order that has a
   published one, or blocked on its notifier if there is none. In the rings it looked into in vain
   at most its own position has changed, and nothing else has.
   */
  ghost predicate Turned<T>(s: Pool<T>, s0: Pool<T>, w: nat)
    requires Shape(s0) && w < |s0.workers|
  {
    var n := |s0.rings|;
    var p := FirstInOrder(s0, w, 0);
    && w < |s.workers| && s == s0.(workers := s0.workers[w := s.workers[w]], rings := s.rings)
    && Passed(s, s0, w, p, p + 1)
    && if p < n then
         var r0 := s0.rings[RingAt(w, p, n)];
         r0.dequeuePos < |r0.log| && s.workers[w] == Running(r0.log[r0.dequeuePos]) &&
         s.rings[RingAt(w, p, n)] == PopAt(r0, w, 5)
       else s.workers[w] == Blocked(s0.notifiers[w])
  }

  lemma FirstIs<T>(s: Pool<T>, w: nat, p: nat)
    requires Shape(s) && p <= |s.rings|
    requires forall j: nat :: j < p ==> !Ready(s.rings[RingAt(w, j, |s.rings|)])
    ensures p < |s.rings| && Ready(s.rings[RingAt(w, p, |s.rings|)]) ==> FirstInOrder(s, w, 0) == p
    ensures p == |s.rings| ==> FirstInOrder(s, w, 0) == p
  {
  }

  /** One round of the pop from the ring at place `p`. */
  lemma RoundGoesOn<T>(s: Pool<T>, s0: Pool<T>, w: nat, p: nat, seen: nat)
    requires Shape(s0) && Shape(s) && w < |s0.workers| == |s.workers| && Visits(s, s0, w, p)
    requires s == s0.(workers := s0.workers[w := s.workers[w]], rings := s.rings)
    requires Ring.Inv(s0.rings[RingAt(w, p, |s0.rings|)])
    ensures var n := |s0.rings|; var c := RingAt(w, p, n); var r0 := s0.rings[c];
            var (r, round) := PopRound(s.rings[c], w, false);
            var k := StageOf(Ring.LocalOf(s.rings[c], w));
            if Ready(r0) then
              r == PopAt(r0, w, k + 1) && round == if k < 4 then Still else Over(Some(r0.log[r0.dequeuePos]))
            else if k == 0 then r == PopAt(r0, w, 1) && round == Still
            else r == Ring.Move(r0, w, Ring.Idle) && round == Over(None)
  {
    var r0 := s0.rings[RingAt(w, p, |s0.rings|)];
    HeadCell(r0);
    if Ready(r0) {
      PopAdvances(r0, w, StageOf(Ring.LocalOf(s.rings[RingAt(w, p, |s0.rings|)], w)));
    } else {
      PopGivesUp(r0, w);
    }
  }

  // ----- Its steps -----

  /** How many steps a turn is from its end at most. */
  function TurnLeft<T>(s: Pool<T>, w: nat): int
    requires Shape(s) && w < |s.workers|
  {
    var n := |s.rings|;
    match s.workers[w]
    case Top => 5 * n + 4
    case Admitted => 5 * n + 3
    case Looking(_) => 5 * n + 2 - StageOf(Ring.LocalOf(s.rings[w], w))
    case Sweeping(_, i) =>
      if i < n - 1 then 5 * (n - 1 - i) + 2 - StageOf(Ring.LocalOf(s.rings[Target(w, i, n)], w)) else 2
    case Waiting(_) => 1
    case _ => 0
  }

  /** The worker leaves the ring at place `p` with nothing and enters the next. */
  lemma Passes<T>(s: Pool<T>, s': Pool<T>, s0: Pool<T>, w: nat, p: nat)
    requires Shape(s0) && p < |s0.rings| && Passed(s, s0, w, p, p + 1) && !Ready(s0.rings[RingAt(w, p, |s0.rings|)])
    requires var n := |s0.rings|; var r := Ring.Move(s0.rings[RingAt(w, p, n)], w, Ring.Idle);
             s'.rings == s.rings[RingAt(w, p, n) := r]
    ensures Passed(s', s0, w, p + 1, p + 1)
  {
    OrderDiffers(w, p, |s0.rings|);
  }

  lemma Stays<T>(s: Pool<T>, s': Pool<T>, s0: Pool<T>, w: nat, p: nat, r: Ring.Ring<T>)
    requires Shape(s0) && p < |s0.rings| && Passed(s, s0, w, p, p + 1)
    requires s'.rings == s.rings[RingAt(w, p, |s0.rings|) := r]
    ensures Passed(s', s0, w, p, p + 1) && s'.rings[RingAt(w, p, |s0.rings|)] == r
  {
    OrderDiffers(w, p, |s0.rings|);
  }

  /** The worker, in its pop from the ring at place `p`, has turned to the next place or is done with the sweep. */
  ghost predicate MovedOn<T>(s': Pool<T>, s0: Pool<T>, w: nat, p: nat, seen: nat)
    requires Shape(s0) && w < |s0.workers|
  {
    var n := |s0.rings|;
    && w < |s'.workers| && s' == s0.(workers := s0.workers[w := s'.workers[w]], rings := s'.rings)
    && s'.workers[w] == Sweeping(seen, p)
    && if p < n - 1 then
         Visits(s', s0, w, p + 1) && StageOf(Ring.LocalOf(s'.rings[RingAt(w, p + 1, n)], w)) == 0
       else Passed(s', s0, w, n, n)
  }

  lemma WorkersTwice<T>(s0: Pool<T>, w: nat, x: Worker<T>, y: Worker<T>)
    requires w < |s0.workers|
    ensures s0.workers[w := x][w := y] == s0.workers[w := y]
  {
  }

  /** Finding nothing in the ring at place `p`. */
  lemma MissMovesOn<T>(s: Pool<T>, s0: Pool<T>, w: nat, p: nat, seen: nat)
    requires Shape(s0) && Shape(s) && w < |s0.workers| == |s.workers| && p < |s0.rings|
    requires Passed(s, s0, w, p, p + 1) && !Ready(s0.rings[RingAt(w, p, |s0.rings|)])
    requires s == s0.(workers := s0.workers[w := s.workers[w]], rings := s.rings)
    ensures var c := RingAt(w, p, |s0.rings|);
            MovedOn(SweepFrom(SetRing(s, c, Ring.Move(s0.rings[c], w, Ring.Idle)), w, seen, p), s0, w, p, seen)
  {
    var n := |s0.rings|;
    var c := RingAt(w, p, n);
    var x := SetRing(s, c, Ring.Move(s0.rings[c], w, Ring.Idle));
    var s' := SweepFrom(x, w, seen, p);
    Passes(s, x, s0, w, p);
    WorkersTwice(s0, w, s.workers[w], Sweeping(seen, p));
    if p < n - 1 {
      OrderDiffers(w, p + 1, n);
      assert Target(w, p, n) == RingAt(w, p + 1, n);
      assert s'.rings[RingAt(w, p + 1, n)] == PopAt(s0.rings[RingAt(w, p + 1, n)], w, 0);
    }
  }

  /** A round that finds a published head, or has not looked yet. */
  lemma RoundStays<T>(s: Pool<T>, s0: Pool<T>, w: nat, p: nat, r: Ring.Ring<T>, k: nat)
    requires Shape(s0) && Shape(s) && w < |s0.workers| == |s.workers| && p < |s0.rings| && Passed(s, s0, w, p, p + 1)
    requires var r0 := s0.rings[RingAt(w, p, |s0.rings|)]; r == PopAt(r0, w, k) && (!Ready(r0) ==> k < 2) && k < 5
    ensures var c := RingAt(w, p, |s0.rings|);
            Visits(SetRing(s, c, r), s0, w, p) && StageOf(Ring.LocalOf(r, w)) == k
  {
    Stays(s, SetRing(s, RingAt(w, p, |s0.rings|), r), s0, w, p, r);
    assert StageOf(Ring.LocalOf(r, w)) == k;
  }

  /** The last round of a pop that found a published head. */
  lemma TakeTurns<T>(s: Pool<T>, s0: Pool<T>, w: nat, p: nat)
    requires Shape(s0) && Shape(s) && w < |s0.workers| == |s.workers| && p < |s0.rings| && Passed(s, s0, w, p, p + 1)
    requires s == s0.(workers := s0.workers[w := s.workers[w]], rings := s.rings)
    requires var r0 := s0.rings[RingAt(w, p, |s0.rings|)]; Ready(r0) && Ring.Counters(r0)
    ensures var c := RingAt(w, p, |s0.rings|); var r0 := s0.rings[c];
            Turned(SetWorker(SetRing(s, c, PopAt(r0, w, 5)), w, Running(r0.log[r0.dequeuePos])), s0, w)
  {
    var c := RingAt(w, p, |s0.rings|);
    var r0 := s0.rings[c];
    var task := r0.log[r0.dequeuePos];
    Stays(s, SetRing(s, c, PopAt(r0, w, 5)), s0, w, p, PopAt(r0, w, 5));
    WorkersTwice(s0, w, s.workers[w], Running(task));
    FirstIs(s0, w, p);
    var s' := SetWorker(SetRing(s, c, PopAt(r0, w, 5)), w, Running(task));
    assert Passed(s', s0, w, p, p + 1);
  }

  /** What one action in the pop from the ring at place `p` leads to. */
  ghost predicate Advances<T>(s': Pool<T>, s0: Pool<T>, w: nat, p: nat, seen: nat, x: Worker<T>, k: nat)
    requires Shape(s0) && w < |s0.workers|
  {
    && w < |s'.workers| && s' == s0.(workers := s0.workers[w := s'.workers[w]], rings := s'.rings)
    && ((s'.workers[w].Running? && Turned(s', s0, w)) || MovedOn(s', s0, w, p, seen) ||
        (s'.workers[w] == x && Visits(s', s0, w, p) &&
         StageOf(Ring.LocalOf(s'.rings[RingAt(w, p, |s0.rings|)], w)) == k + 1))
  }

  lemma VisitGoesOn<T>(s: Pool<T>, s0: Pool<T>, w: nat, p: nat, seen: nat)
    requires Shape(s0) && Shape(s) && w < |s0.workers| == |s.workers| && Visits(s, s0, w, p)
    requires s == s0.(workers := s0.workers[w := s.workers[w]], rings := s.rings)
    requires Ring.Inv(s0.rings[RingAt(w, p, |s0.rings|)])
    ensures var c := RingAt(w, p, |s0.rings|);
            Advances(PopStep(s, w, c, seen, p, false), s0, w, p, seen, s.workers[w],
                     StageOf(Ring.LocalOf(s.rings[c], w)))
  {
    var c := RingAt(w, p, |s0.rings|);
    var r0 := s0.rings[c];
    var k := StageOf(Ring.LocalOf(s.rings[c], w));
    RoundGoesOn(s, s0, w, p, seen);
    if Ready(r0) && k == 4 {
      TakeTurns(s, s0, w, p);
    } else if Ready(r0) || k == 0 {
      RoundStays(s, s0, w, p, PopAt(r0, w, k + 1), k + 1);
    } else {
      MissMovesOn(s, s0, w, p, seen);
    }
  }

  lemma PopRingGoesOn<T>(s: Pool<T>, s0: Pool<T>, w: nat)
    requires Shape(s0) && Shape(s) && Sound(s0.rings) && w < |s0.workers| && Turns(s, s0, w) && PopRing(s, w).Some?
    ensures var s' := WorkStep(s, w, false); Turns(s', s0, w) && 0 <= TurnLeft(s', w) < TurnLeft(s, w)
  {
    var p := if s.workers[w].Looking? then 0 else s.workers[w].i + 1;
    var c := RingAt(w, p, |s0.rings|);
    assert c == PopRing(s, w).value && Ring.Inv(s0.rings[c]);
    VisitGoesOn(s, s0, w, p, s.workers[w].seen);
    PopIsWork(s, w, c, p, false);
    AdvanceTurns(s, PopStep(s, w, c, s.workers[w].seen, p, false), s0, w, p);
  }

  lemma AdvanceTurns<T>(s: Pool<T>, s': Pool<T>, s0: Pool<T>, w: nat, p: nat)
    requires Shape(s0) && Shape(s) && Shape(s') && w < |s0.workers| && Turns(s, s0, w) && PopRing(s, w).Some?
    requires p == if s.workers[w].Looking? then 0 else s.workers[w].i + 1
    requires Advances(s', s0, w, p, s.workers[w].seen, s.workers[w],
                      StageOf(Ring.LocalOf(s.rings[RingAt(w, p, |s0.rings|)], w)))
    ensures Turns(s', s0, w) && 0 <= TurnLeft(s', w) < TurnLeft(s, w)
  {
    var n := |s0.rings|;
    assert RingAt(w, p, n) == PopRing(s, w).value;
    assert TurnLeft(s, w) == 5 * (n - p) + 2 - StageOf(Ring.LocalOf(s.rings[RingAt(w, p, n)], w));
    if MovedOn(s', s0, w, p, s.workers[w].seen) {
      MoveTurns(s', s0, w, p, s.workers[w].seen);
    } else if !s'.workers[w].Running? {
      StayTurns(s', s0, w, p, StageOf(Ring.LocalOf(s.rings[RingAt(w, p, |s0.rings|)], w)) + 1);
    }
  }

  lemma MoveTurns<T>(s': Pool<T>, s0: Pool<T>, w: nat, p: nat, seen: nat)
    requires Shape(s0) && Shape(s') && w < |s0.workers| && p < |s0.rings|
    requires MovedOn(s', s0, w, p, seen) && seen == s0.notifiers[w]
    ensures Turns(s', s0, w) && TurnLeft(s', w) == if p < |s0.rings| - 1 then 5 * (|s0.rings| - 1 - p) + 2 else 2
  {
    if p < |s0.rings| - 1 {
      assert Target(w, p, |s0.rings|) == RingAt(w, p + 1, |s0.rings|);
    }
  }

  lemma StayTurns<T>(s': Pool<T>, s0: Pool<T>, w: nat, p: nat, k: nat)
    requires Shape(s0) && Shape(s') && w < |s0.workers| == |s'.workers| && Visits(s', s0, w, p)
    requires s' == s0.(workers := s0.workers[w := s'.workers[w]], rings := s'.rings)
    requires if s'.workers[w].Looking? then p == 0 else s'.workers[w].Sweeping? && p == s'.workers[w].i + 1
    requires s'.workers[w].seen == s0.notifiers[w] && StageOf(Ring.LocalOf(s'.rings[RingAt(w, p, |s0.rings|)], w)) == k
    ensures Turns(s', s0, w) && TurnLeft(s', w) == 5 * (|s0.rings| - p) + 2 - k
  {
    if p > 0 {
      assert Target(w, p - 1, |s0.rings|) == RingAt(w, p, |s0.rings|);
    } else {
      assert RingAt(w, 0, |s0.rings|) == w;
    }
  }

  lemma TurnGoesOn<T>(s: Pool<T>, s0: Pool<T>, w: nat)
    requires Shape(s0) && Shape(s) && Sound(s0.rings) && w < |s0.workers| && Turns(s, s0, w)
    requires !StopAsked(s0.closing, w) && TurnLeft(s, w) > 0
    ensures var s' := WorkStep(s, w, false); Turns(s', s0, w) && 0 <= TurnLeft(s', w) < TurnLeft(s, w)
  {
    if PopRing(s, w).Some? {
      PopRingGoesOn(s, s0, w);
    } else {
      OutsideGoesOn(s, s0, w);
    }
  }

  lemma OutsideGoesOn<T>(s: Pool<T>, s0: Pool<T>, w: nat)
    requires Shape(s0) && Shape(s) && w < |s0.workers| && Turns(s, s0, w) && PopRing(s, w).None?
    requires !StopAsked(s0.closing, w) && TurnLeft(s, w) > 0
    ensures var s' := WorkStep(s, w, false); Turns(s', s0, w) && 0 <= TurnLeft(s', w) < TurnLeft(s, w)
  {
    var s' := WorkStep(s, w, false);
    var n := |s0.rings|;
    WorkersTwice(s0, w, s.workers[w], s'.workers[w]);
    if s.workers[w].Admitted? {
      OrderDiffers(w, 0, n);
      assert RingAt(w, 0, n) == w;
      assert s'.rings[w] == PopAt(s0.rings[w], w, 0);
    } else if s.workers[w].Waiting? {
      FirstIs(s0, w, n);
    }
  }

  lemma {:induction false} TurnFrom<T>(s: Pool<T>, s0: Pool<T>, w: nat) returns (k: nat)
    requires Shape(s0) && Shape(s) && Sound(s0.rings) && w < |s0.workers| == |s.workers| && Turns(s, s0, w)
    requires !StopAsked(s0.closing, w) && 0 <= TurnLeft(s, w)
    ensures k <= TurnLeft(s, w) && Turned(Alone(s, w, k), s0, w)
    decreases TurnLeft(s, w)
  {
    k := 0;
    if TurnLeft(s, w) == 0 {
      TurnIsOver(s, s0, w);
    } else {
      TurnGoesOn(s, s0, w);
      k := TurnFrom(WorkStep(s, w, false), s0, w);
      k := k + 1;
    }
  }

  lemma TurnIsOver<T>(s: Pool<T>, s0: Pool<T>, w: nat)
    requires Shape(s0) && Shape(s) && w < |s0.workers| == |s.workers| && Turns(s, s0, w) && TurnLeft(s, w) == 0
    ensures Turned(Alone(s, w, 0), s0, w)
  {
    StillLeft(s, w);
  }

  lemma StillLeft<T>(s: Pool<T>, w: nat)
    requires Shape(s) && w < |s.workers|
    ensures s.workers[w].Running? || s.workers[w].Blocked? || s.workers[w].Exited? || TurnLeft(s, w) > 0
  {
  }

  /**
   In every reachable state a worker at the top of its loop, not asked to stop, takes alone within
   5 n + 4 steps the head of the first ring that has a published one, in the order of its own ring and
   the others in turn, and is about to run that task; if no ring has one it blocks.
   */
  lemma TurnAlone<T>(workers: nat, capacity: nat, acts: seq<Action<T>>, w: nat) returns (k: nat)
    requires w < workers && capacity >= 2
    requires var s := Exec(Init(workers, capacity), acts); s.workers[w].Top? && !StopAsked(s.closing, w)
    ensures k <= 5 * workers + 4
    ensures var s := Exec(Init(workers, capacity), acts); Turned(Alone(s, w, k), s, w)
  {
    var s := Exec(Init(workers, capacity), acts);
    InitInv<T>(workers, capacity);
    RunKeepsInv(Init(workers, capacity), acts);
    k := TurnFrom(s, s, w);
  }

  /** If any ring has a published head, the worker comes back with a task. */
  lemma TurnFindsAny<T>(s: Pool<T>, s0: Pool<T>, w: nat, c: nat)
    requires Shape(s0) && w < |s0.workers| && c < |s0.rings| && Turned(s, s0, w) && Ready(s0.rings[c])
    ensures s.workers[w].Running?
  {
    var n := |s0.rings|;
    var q := SlotInWindow(c, w, n);
    assert RingAt(w, q - w, n) == c;
    assert FirstInOrder(s0, w, 0) <= q - w;
  }

  // ----- Leaving -----

  /** How many steps of its own a worker is at most from leaving, once shutdown only waits for the workers. */
  function LeaveLeft<T>(s: Pool<T>, w: nat): int
    requires Shape(s) && w < |s.workers|
  {
    var n := |s.rings|;
    match s.workers[w]
    case Exited => 0
    case Top => 1
    case Running(_) => 2
    case Waiting(_) => 2
    case Blocked(_) => 0
    case Sweeping(_, i) => if i < n - 1 then 5 * (n - 2 - i) + 2 + PopRank(s.rings[Target(w, i, n)], w) else 1
    case Looking(_) => 5 * (n - 1) + 2 + PopRank(s.rings[w], w)
    case Admitted => 5 * n + 3
  }

  ghost predicate Leaving<T>(s: Pool<T>, w: nat)
    requires Shape(s) && w < |s.workers|
  {
    s.closing.Joining? && SeenFits(s, w)
  }

  lemma PopLeaves<T>(s: Pool<T>, w: nat, c: nat)
    requires Shape(s) && w < |s.workers| && PopRing(s, w) == Some(c)
    requires var (r, round) := PopRound(s.rings[c], w, false);
             round.Still? ==> PopRank(r, w) < PopRank(s.rings[c], w)
    requires PopRank(s.rings[c], w) > 0
    ensures 0 <= LeaveLeft(WorkStep(s, w, false), w) < LeaveLeft(s, w)
  {
    NextTarget(s, w);
  }

  lemma LeaveGoesOn<T>(s: Pool<T>, w: nat)
    requires Shape(s) && Sound(s.rings) && LocalsFit(s) && w < |s.workers| && Leaving(s, w) && !s.workers[w].Exited?
    ensures var s' := WorkStep(s, w, false); Leaving(s', w) && 0 <= LeaveLeft(s', w) < LeaveLeft(s, w)
  {
    WorkKeepsSeen(s, w, false);
    if PopRing(s, w).Some? {
      var c := PopRing(s, w).value;
      assert LocalAgrees(s, c, w);
      PopRankFalls(s.rings[c], w);
      PopLeaves(s, w, c);
    }
  }

  lemma {:induction false} LeaveFrom<T>(s: Pool<T>, w: nat) returns (k: nat)
    requires Shape(s) && Sound(s.rings) && LocalsFit(s) && w < |s.workers| && Leaving(s, w) && 0 <= LeaveLeft(s, w)
    ensures k <= LeaveLeft(s, w) && Alone(s, w, k).workers[w].Exited?
    decreases LeaveLeft(s, w)
  {
    if s.workers[w].Exited? {
      k := 0;
    } else {
      var s' := WorkStep(s, w, false);
      LeaveGoesOn(s, w);
      WorkKeepsBoth(s, w);
      k := LeaveFrom(s', w);
      assert Alone(s, w, k + 1) == Alone(s', w, k);
      k := k + 1;
    }
  }

  lemma LeaveBound<T>(s: Pool<T>, w: nat)
    requires Shape(s) && w < |s.workers|
    ensures 0 <= LeaveLeft(s, w) <= 5 * |s.workers| + 4
  {
  }

  /** Once shutdown only waits for the workers, each of them leaves alone within 5 n + 4 steps of its own. */
  lemma LeavesAlone<T>(workers: nat, capacity: nat, acts: seq<Action<T>>, w: nat) returns (k: nat)
    requires w < workers && capacity >= 2 && Exec(Init(workers, capacity), acts).closing.Joining?
    ensures k <= 5 * workers + 4 && Alone(Exec(Init(workers, capacity), acts), w, k).workers[w].Exited?
  {
    var s := Exec(Init(workers, capacity), acts);
    InitInv<T>(workers, capacity);
    RunKeepsInv(Init(workers, capacity), acts);
    assert WorkerFits(s, w);
    LeaveBound(s, w);
    k := LeaveFrom(s, w);
  }

  // ----- A whole shutdown -----

  function Rouse<T>(x: Worker<T>): Worker<T> {
    if x.Blocked? then Waiting(x.seen) else x
  }

  /** The shutdown that began at `s0`, nobody else moving, has dealt with the first `c` workers. */
  ghost predicate ClosedUpTo<T>(s: Pool<T>, s0: Pool<T>, c: nat) {
    && s == s0.(notifiers := s.notifiers, workers := s.workers, closing := s.closing)
    && |s.notifiers| == |s0.notifiers| && |s.workers| == |s0.workers|
    && (forall k :: 0 <= k < |s0.notifiers| ==> s.notifiers[k] == s0.notifiers[k] + if k < c then 1 else 0)
    && (forall w :: 0 <= w < |s0.workers| ==> s.workers[w] == if w < c then Rouse(s0.workers[w]) else s0.workers[w])
  }

  lemma ClosesNext<T>(s: Pool<T>, s0: Pool<T>, c: nat)
    requires Shape(s) && Shape(s0) && c < |s0.workers| && SeenFits(s0, c)
    requires ClosedUpTo(s, s0, c) && s.closing == Adding(c)
    ensures var s' := ShutdownStep(ShutdownStep(s)); ClosedUpTo(s', s0, c + 1) && s'.closing == Adding(c + 1)
  {
  }
}
