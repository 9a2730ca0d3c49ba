/**
 The lock object over a real ring queue, and the guards that own it.
 */
module AsyncLockMachine {
  import opened Common
  import Ring
  import opened RingMachine
  import opened AsyncLock
  import AsyncLockAlone
  import AsyncLockProgress

  class CoLock {
    var state: int
    const queue: LfQueue<nat>
    var phases: map<nat, Phase>
    ghost var token: Option<nat>
    ghost var resumed: seq<nat>

    ghost function State(): Lock
      reads this, queue, queue.buffer
    {
      Lock(state, queue.State(), phases, token, resumed)
    }

    ghost predicate Valid()
      reads this, queue, queue.buffer
    {
      Inv(State())
    }

    constructor (capacity: nat)
      requires capacity >= 2
      ensures State() == Init(capacity) && Valid()
    {
      state, phases, token, resumed := 0, map[], None, [];
      queue := new LfQueue(capacity, false);
      new;
      InitInv(capacity);
    }

    /** `await_suspend` up to its queueing loop; a coroutine that comes first holds the lock at once. */
    method Arrive(c: nat) returns (suspends: bool)
      requires Valid() && PhaseOf(State(), c).Outside?
      modifies this, queue
      ensures Valid() && State() == Step(old(State()), CoLock(c))
      ensures suspends <==> old(exists d: nat :: InHand(PhaseOf(State(), d)))
      ensures if suspends then PhaseOf(State(), c).Pushing? else PhaseOf(State(), c).Holding?
    {
      LockStep(State(), c);
      assert forall d: nat :: InHand(PhaseOf(State(), d)) <==> token == Some(d);
      var prev := state;
      state := state + 1;
      suspends := prev != 0;
      if suspends {
        queue.SetLocal(c, Ring.PushStart(c));
        phases := phases[c := Pushing];
      } else {
        phases, token := phases[c := Holding], Some(c);
      }
      assert suspends ==> InHand(PhaseOf(old(State()), old(token).value));
    }

    /** `unlock` up to its loop; the last one out leaves without handing over. */
    method Leave(c: nat)
      requires Valid() && PhaseOf(State(), c).Holding?
      modifies this, queue
      ensures Valid() && State() == Step(old(State()), CoUnlock(c))
    {
      UnlockStep(State(), c);
      var prev := state;
      state := state - 1;
      if prev == 1 {
        phases, token := phases[c := Outside], None;
      } else {
        queue.SetLocal(c, Ring.PopStart);
        phases := phases[c := Unlocking];
      }
    }

    /** One atomic action inside the loop around `push`. */
    method PushRound(c: nat, spurious: bool)
      requires Valid() && PhaseOf(State(), c).Pushing?
      modifies this, queue, queue.buffer
      ensures Valid() && State() == Step(old(State()), Go(c, spurious))
    {
      PushingStep(State(), c, spurious);
      assert LocalAgrees(State(), c);
      PushAct(c, spurious);
    }

    method PushAct(c: nat, spurious: bool)
      requires queue.buffer.Length > 0 && PhaseOf(State(), c).Pushing? && LocalAgrees(State(), c)
      modifies this`phases, queue, queue.buffer
      ensures State() == Step(old(State()), Go(c, spurious))
    {
      queue.PushStep(c, spurious);
      match queue.threads[c] {
        case PushEnd(_, Accepted(p)) =>
          queue.SetLocal(c, Ring.Idle);
          phases := phases[c := Waiting(p)];
        case PushEnd(_, Refused) => queue.SetLocal(c, Ring.PushStart(c));
        case _ =>
      }
    }

    /** One atomic action inside the loop around `pop`. */
    method PopRound(c: nat, spurious: bool)
      requires Valid() && PhaseOf(State(), c).Unlocking?
      modifies this, queue, queue.buffer
      ensures Valid() && State() == Step(old(State()), Go(c, spurious))
    {
      UnlockingStep(State(), c, spurious);
      assert LocalAgrees(State(), c);
      PopAct(c, spurious);
    }

    method PopAct(c: nat, spurious: bool)
      requires queue.buffer.Length > 0 && PhaseOf(State(), c).Unlocking? && LocalAgrees(State(), c)
      modifies this`phases, queue, queue.buffer
      ensures State() == Step(old(State()), Go(c, spurious))
    {
      queue.PopStep(c, spurious);
      match queue.threads[c] {
        case PopEnd(Got(_, Some(next))) =>
          queue.SetLocal(c, Ring.Idle);
          phases := phases[c := HandOff(next)];
        case PopEnd(Nothing) => queue.SetLocal(c, Ring.PopStart);
        case _ =>
      }
    }

    /** Passing the popped coroutine to its executor, and its resumption. */
    method Resume(c: nat)
      requires Valid() && (PhaseOf(State(), c).HandOff? || PhaseOf(State(), c).Scheduled?)
      modifies this
      ensures Valid() && State() == Step(old(State()), Go(c, false))
    {
      StepKeepsInv(State(), Go(c, false));
      match phases[c] {
        case HandOff(next) =>
          phases, token, resumed := phases[c := Outside][next := Scheduled], Some(next), resumed + [next];
        case Scheduled => phases := phases[c := Holding];
      }
    }

    // ----- Whole operations, while everybody else stands still -----

    /**
     `lock`: the first to come holds the lock at once; anybody else is suspended under the next ticket.
     It spins while the queue is full, so there it needs room.
     */
    method LockNow(c: nat) returns (suspends: bool)
      requires Valid() && PhaseOf(State(), c).Outside? && (state > 0 ==> AsyncLockAlone.HasRoom(State()))
      modifies this, queue, queue.buffer
      ensures Valid() && state == old(state) + 1 && resumed == old(resumed) && (suspends <==> old(state) > 0)
      ensures phases == old(phases)[c := if suspends then Waiting(old(queue.enqueuePos)) else Holding]
      ensures token == if suspends then old(token) else Some(c)
      ensures queue.log == old(queue.log) + (if suspends then [c] else []) && queue.dequeuePos == old(queue.dequeuePos)
    {
      ghost var s := State();
      assert token.Some? ==> InHand(PhaseOf(s, token.value));
      suspends := Arrive(c);
      if suspends {
        AsyncLockAlone.LockBegins(s, c);
        while phases[c].Pushing?
          invariant Valid() && AsyncLockAlone.Locks(State(), s, c)
          decreases AsyncLockAlone.LockLeft(State(), c)
        {
          AsyncLockAlone.LockGoesOn(State(), s, c);
          PushRound(c, false);
        }
      }
    }

    /**
     `unlock`: the last one out leaves the lock free; otherwise the coroutine queued first is scheduled
     with the lock. It spins while the first ticket is not published, so there it needs that.
     */
    method UnlockNow(c: nat)
      requires Valid() && PhaseOf(State(), c).Holding? && (state > 1 ==> AsyncLockProgress.HeadPublished(State()))
      modifies this, queue, queue.buffer
      ensures Valid() && state == old(state) - 1 && queue.log == old(queue.log)
      ensures old(state) == 1 ==>
                phases == old(phases)[c := Outside] && token == None && resumed == old(resumed) &&
                queue.dequeuePos == old(queue.dequeuePos)
      ensures old(state) > 1 ==>
                old(queue.dequeuePos < |queue.log|) &&
                var next := old(queue.log[queue.dequeuePos]);
                phases == old(phases)[c := Outside][next := Scheduled] && token == Some(next) &&
                resumed == old(resumed) + [next] && queue.dequeuePos == old(queue.dequeuePos) + 1
    {
      ghost var s := State();
      assert InHand(PhaseOf(s, c)) <==> token == Some(c);
      if state > 1 {
        AsyncLockAlone.UnlockBegins(s, c);
        Leave(c);
        HandOn(c, s);
      } else {
        Leave(c);
      }
    }

    /** The loop around `pop`, and the handoff. */
    method HandOn(c: nat, ghost s: AsyncLock.Lock)
      requires Valid() && AsyncLock.Inv(s) && PhaseOf(s, c).Holding? && AsyncLockAlone.Unlocks(State(), s, c)
      requires PhaseOf(State(), c).Unlocking?
      modifies this, queue, queue.buffer
      ensures Valid() && state == s.state - 1 && queue.log == s.ring.log
      ensures s.ring.dequeuePos < |s.ring.log| && queue.dequeuePos == s.ring.dequeuePos + 1
      ensures var next := s.ring.log[s.ring.dequeuePos];
              phases == s.phases[c := Outside][next := Scheduled] && token == Some(next) &&
              resumed == s.resumed + [next]
    {
      while phases[c].Unlocking?
        invariant Valid() && AsyncLockAlone.Unlocks(State(), s, c)
        decreases AsyncLockProgress.ToHolder(State())
      {
        AsyncLockAlone.UnlockGoesOn(State(), s, c);
        PopRound(c, false);
      }
      AsyncLockAlone.UnlockEnds(State(), s, c);
      Resume(c);
      assert s.phases[c := phases[c]][c := Outside] == s.phases[c := Outside];
    }

    method Act(a: Action)
      requires Valid()
      modifies this, queue, queue.buffer
      ensures Valid() && State() == Step(old(State()), a)
    {
      var phase := if a.co in phases then phases[a.co] else Outside;
      match a {
        case CoLock(c) => if phase.Outside? { var suspends := Arrive(c); }
        case CoUnlock(c) => if phase.Holding? { Leave(c); }
        case Go(c, spurious) =>
          if phase.Pushing? {
            PushRound(c, spurious);
          } else if phase.Unlocking? {
            PopRound(c, spurious);
          } else if phase.HandOff? || phase.Scheduled? {
            Resume(c);
          }
      }
    }
  }

  // ----- Guards -----

  /** What the guards do to a lock: each unlock is counted. */
  class Unlockable {
    var unlocks: nat

    constructor ()
      ensures unlocks == 0
    {
      unlocks := 0;
    }

    method Unlock()
      modifies this
      ensures unlocks == old(unlocks) + 1
    {
      unlocks := unlocks + 1;
    }
  }

  class ScopedLockGuard {
    var lock: Unlockable?

    constructor (l: Unlockable)
      ensures lock == l
    {
      lock := l;
    }

    /** Move construction. */
    constructor FromMoved(other: ScopedLockGuard, ghost guards: set<ScopedLockGuard>, ghost l: Unlockable)
      requires other in guards
      modifies other
      ensures lock == old(other.lock) && other.lock == null
      ensures Owed(guards + {this}, l) == old(Owed(guards, l))
    {
      ghost var before := Owners(guards, l);
      lock := other.lock;
      new;
      other.lock := null;
      SwapOwner(before, Owners(guards + {this}, l), other, this);
    }

    /** Move assignment: what this guard owned is unlocked first; self-assignment does nothing. */
    method Assign(other: ScopedLockGuard, ghost guards: set<ScopedLockGuard>, ghost l: Unlockable)
      requires this in guards && other in guards
      modifies this, other, if lock == null then {} else {lock}
      ensures this != other ==> lock == old(other.lock) && other.lock == null
      ensures this == other ==> lock == old(lock)
      ensures l.unlocks + Owed(guards, l) == old(l.unlocks + Owed(guards, l))
    {
      if this != other {
        ghost var before := Owners(guards, l);
        if lock != null {
          lock.Unlock();
        }
        lock := other.lock;
        other.lock := null;
        ghost var after := Owners(guards, l);
        assert before - {this, other} == after - {this, other};
        SetSplit(before, this, other);
        SetSplit(after, this, other);
      }
    }

    /** The destructor. */
    method Destroy(ghost guards: set<ScopedLockGuard>, ghost l: Unlockable)
      requires this in guards
      modifies if lock == null then {} else {lock}
      ensures l.unlocks + Owed(guards - {this}, l) == old(l.unlocks + Owed(guards, l))
    {
      if lock != null {
        lock.Unlock();
      }
      assert Owners(guards, l) - {this} == Owners(guards - {this}, l);
      assert Owners(guards, l) == old(Owners(guards, l));
    }
  }

  ghost function Owners(guards: set<ScopedLockGuard>, l: Unlockable): set<ScopedLockGuard>
    reads guards
  {
    set g | g in guards && g.lock == l
  }

  /** How many unlocks the guards still owe to `l`. */
  ghost function Owed(guards: set<ScopedLockGuard>, l: Unlockable): nat
    reads guards
  {
    |Owners(guards, l)|
  }

  lemma SwapOwner(before: set<ScopedLockGuard>, after: set<ScopedLockGuard>, from: ScopedLockGuard, to: ScopedLockGuard)
    requires before - {from} == after - {to} && to !in before && from !in after && (from in before <==> to in after)
    ensures |before| == |after|
  {
    assert from in before ==> before == (before - {from}) + {from} && after == (after - {to}) + {to};
    assert from !in before ==> before == before - {from} && after == after - {to};
  }

  lemma SetSplit(s: set<ScopedLockGuard>, a: ScopedLockGuard, b: ScopedLockGuard)
    requires a != b
    ensures |s| == |s - {a, b}| + (if a in s then 1 else 0) + (if b in s then 1 else 0)
  {
    var r := s - {a};
    assert |r| == |s| - if a in s then 1 else 0;
    assert r - {b} == s - {a, b};
    assert |r - {b}| == |r| - if b in r then 1 else 0;
  }
}
