/** A whole lock and a whole unlock of one coroutine while all the others stand still. */
module AsyncLockAlone {
  import opened Common
  import Ring
  import opened AsyncLock
  import opened AsyncLockProgress

  /** The next ticket's cell has been released. */
  predicate HasRoom(s: Lock)
    requires |s.ring.cells| > 0
  {
    Ring.CellAt(s.ring, s.ring.enqueuePos).sequence == s.ring.enqueuePos
  }

  // ----- Locking -----

  predicate Unqueued(s: Lock, s0: Lock)
    requires |s.ring.cells| > 0
  {
    s.ring.enqueuePos == s0.ring.enqueuePos && s.ring.log == s0.ring.log && HasRoom(s)
  }

  predicate QueuedLast(s: Lock, s0: Lock, c: nat) {
    s.ring.enqueuePos == s0.ring.enqueuePos + 1 && s.ring.log == s0.ring.log + [c]
  }

  /** The progress of coroutine `c` that arrived at `s0` and found the lock taken. */
  predicate Locks(s: Lock, s0: Lock, c: nat) {
    && |s.ring.cells| > 0
    && s.state == s0.state + 1 && s.token == s0.token && s.resumed == s0.resumed
    && s.ring.dequeuePos == s0.ring.dequeuePos && s.phases == s0.phases[c := PhaseOf(s, c)]
    && match PhaseOf(s, c)
       case Waiting(p) => p == s0.ring.enqueuePos && QueuedLast(s, s0, c)
       case Pushing => (
         match Ring.LocalOf(s.ring, c)
         case PushStart(msg) => msg == c && Unqueued(s, s0)
         case PushLook(msg, pos) => msg == c && pos == s0.ring.enqueuePos && Unqueued(s, s0)
         case PushCas(msg, pos) => msg == c && pos == s0.ring.enqueuePos && Unqueued(s, s0)
         case PushWrite(msg, pos) => msg == c && pos == s0.ring.enqueuePos && QueuedLast(s, s0, c)
         case PushPublish(msg, pos) => msg == c && pos == s0.ring.enqueuePos && QueuedLast(s, s0, c)
         case _ => false)
       case _ => false
  }

  function LockLeft(s: Lock, c: nat): nat {
    match Ring.LocalOf(s.ring, c)
    case PushStart(_) => 5
    case PushLook(_, _) => 4
    case PushCas(_, _) => 3
    case PushWrite(_, _) => 2
    case PushPublish(_, _) => 1
    case _ => 0
  }

  lemma LockBegins(s: Lock, c: nat)
    requires |s.ring.cells| > 0 && PhaseOf(s, c).Outside? && s.state > 0 && HasRoom(s)
    ensures Locks(Step(s, CoLock(c)), s, c)
  {
  }

  lemma LockGoesOn(s: Lock, s0: Lock, c: nat)
    requires Locks(s, s0, c) && PhaseOf(s, c).Pushing?
    ensures var s' := Step(s, Go(c, false)); Locks(s', s0, c) && LockLeft(s', c) < LockLeft(s, c)
  {
    var s' := Step(s, Go(c, false));
    assert s.phases[c := PhaseOf(s', c)] == s0.phases[c := PhaseOf(s', c)];
  }

  // ----- Unlocking -----

  /** The progress of coroutine `c` that began at `s0` to hand the lock on. */
  ghost predicate Unlocks(s: Lock, s0: Lock, c: nat) {
    && Inv(s) && s.token == Some(c) && s.state == s0.state - 1 && s.resumed == s0.resumed
    && s.ring.log == s0.ring.log && s.phases == s0.phases[c := PhaseOf(s, c)]
    && HandingOn(PhaseOf(s, c)) && (PhaseOf(s, c).Unlocking? && !InFlight(s) ==> HeadPublished(s))
  }

  lemma UnlockBegins(s: Lock, c: nat)
    requires Inv(s) && PhaseOf(s, c).Holding? && s.state > 1 && HeadPublished(s)
    ensures Unlocks(Step(s, CoUnlock(c)), s, c)
  {
    UnlockStep(s, c);
    assert InHand(PhaseOf(s, c)) <==> s.token == Some(c);
  }

  lemma OnlyTheUnlocker(s: Lock, c: nat)
    requires |s.ring.cells| > 0 && PhaseOf(s, c).Unlocking?
    ensures var s' := Step(s, Go(c, false));
            s'.state == s.state &&
            s'.phases == if PhaseOf(s', c).Unlocking? then s.phases else s.phases[c := PhaseOf(s', c)]
  {
  }

  lemma UnlockGoesOn(s: Lock, s0: Lock, c: nat)
    requires Unlocks(s, s0, c) && PhaseOf(s, c).Unlocking?
    ensures var s' := Step(s, Go(c, false)); Unlocks(s', s0, c) && ToHolder(s') < ToHolder(s)
  {
    TokenStep(s, c);
    TokenTurns(s, c);
    OnlyTheUnlocker(s, c);
    StepKeepsInv(s, Go(c, false));
    var s' := Step(s, Go(c, false));
    assert s.phases[c := PhaseOf(s', c)] == s0.phases[c := PhaseOf(s', c)];
  }

  /** The coroutine handed the lock is the one queued first. */
  lemma UnlockEnds(s: Lock, s0: Lock, c: nat)
    requires Inv(s0) && PhaseOf(s0, c).Holding? && Unlocks(s, s0, c) && PhaseOf(s, c).HandOff?
    ensures s0.ring.dequeuePos < |s0.ring.log| && PhaseOf(s, c) == HandOff(s0.ring.log[s0.ring.dequeuePos])
    ensures s.ring.dequeuePos == s0.ring.dequeuePos + 1
  {
    assert InHand(PhaseOf(s0, c)) <==> s0.token == Some(c);
    assert PhaseAgrees(s, c);
    assert |s.resumed| == FirstWaiting(s) && |s0.resumed| == FirstWaiting(s0);
  }
}
