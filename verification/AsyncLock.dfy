/**
 The asynchronous lock: a counter of arrivals, and the ring of suspended coroutines through which
 an unlocker hands the lock on. The steps of the ring's own push and pop are interleaved.
 */
module AsyncLock {
  import opened Common
  import Ring

  /**
   Where a coroutine is. `Pushing` and `Unlocking` are inside the ring's push and pop; a waiter
   is suspended with the ticket under which it was queued.
   */
  datatype Phase =
    | Outside
    | Pushing
    | Waiting(ticket: nat)
    | Scheduled
    | Holding
    | Unlocking
    | HandOff(next: nat)

  /** `token` names the coroutine that has the lock in hand; `resumed` lists the handoffs in order. */
  datatype Lock = Lock(state: int, ring: Ring.Ring<nat>, phases: map<nat, Phase>, token: Option<nat>, resumed: seq<nat>)

  datatype Action =
    | CoLock(co: nat)
    | CoUnlock(co: nat)
    | Go(co: nat, spurious: bool)

  function Init(capacity: nat): Lock {
    Lock(0, Ring.Init(capacity, false), map[], None, [])
  }

  function PhaseOf(s: Lock, c: nat): Phase {
    if c in s.phases then s.phases[c] else Outside
  }

  function Enter(s: Lock, c: nat, p: Phase): Lock {
    s.(phases := s.phases[c := p])
  }

  /** The end of one round of the loop around `push`: suspended, or once more. */
  function AfterPush(s: Lock, r: Ring.Ring<nat>, c: nat): (s': Lock)
    requires |r.cells| > 0
    ensures |s'.ring.cells| == |r.cells|
  {
    match Ring.LocalOf(r, c)
    case PushEnd(_, Accepted(p)) => Enter(s.(ring := Ring.Move(r, c, Ring.Idle)), c, Waiting(p))
    case PushEnd(_, Refused) => s.(ring := Ring.Move(r, c, Ring.PushStart(c)))
    case _ => s.(ring := r)
  }

  /** The end of one round of the loop around `pop`. */
  function AfterPop(s: Lock, r: Ring.Ring<nat>, c: nat): (s': Lock)
    requires |r.cells| > 0
    ensures |s'.ring.cells| == |r.cells|
  {
    match Ring.LocalOf(r, c)
    case PopEnd(Got(_, Some(next))) => Enter(s.(ring := Ring.Move(r, c, Ring.Idle)), c, HandOff(next))
    case PopEnd(Nothing) => s.(ring := Ring.Move(r, c, Ring.PopStart))
    case _ => s.(ring := r)
  }

  function Step(s: Lock, a: Action): (s': Lock)
    requires |s.ring.cells| > 0
    ensures |s'.ring.cells| == |s.ring.cells|
  {
    var c := a.co;
    match a
    case CoLock(_) =>
      if !PhaseOf(s, c).Outside? then s
      else if s.state == 0 then Enter(s.(state := 1, token := Some(c)), c, Holding)
      else Enter(s.(state := s.state + 1, ring := Ring.Move(s.ring, c, Ring.PushStart(c))), c, Pushing)
    case CoUnlock(_) =>
      if !PhaseOf(s, c).Holding? then s
      else if s.state == 1 then Enter(s.(state := 0, token := None), c, Outside)
      else Enter(s.(state := s.state - 1, ring := Ring.Move(s.ring, c, Ring.PopStart)), c, Unlocking)
    case Go(_, spurious) => (
      match PhaseOf(s, c)
      case Pushing => AfterPush(s, Ring.Run(s.ring, c, spurious), c)
      case Unlocking => AfterPop(s, Ring.Run(s.ring, c, spurious), c)
      case HandOff(next) =>
        Enter(Enter(s.(token := Some(next), resumed := s.resumed + [next]), c, Outside), next, Scheduled)
      case Scheduled => Enter(s, c, Holding)
      case _ => s)
  }

  function Exec(s: Lock, acts: seq<Action>): (s': Lock)
    requires |s.ring.cells| > 0
    ensures |s'.ring.cells| == |s.ring.cells|
  {
    if acts == [] then s else Step(Exec(s, acts[..|acts| - 1]), acts[|acts| - 1])
  }

  // ----- The invariant -----

  /** The lock is in the hands of a coroutine in one of these phases. */
  predicate InHand(p: Phase) {
    p.Scheduled? || p.Holding? || p.Unlocking? || p.HandOff?
  }

  /** A coroutine counted by `m_state`: it has arrived and has not yet begun to unlock. */
  predicate Counted(p: Phase) {
    p.Pushing? || p.Waiting? || p.Scheduled? || p.Holding?
  }

  ghost function CountedSet(s: Lock): set<nat> {
    set c | c in s.phases && Counted(s.phases[c])
  }

  predicate PushingLocal(l: Ring.Local<nat>, c: nat) {
    (l.PushStart? || l.PushLook? || l.PushCas? || l.PushWrite? || l.PushPublish?) && l.msg == c
  }

  predicate PoppingLocal(l: Ring.Local<nat>, deq: nat) {
    || l.PopStart?
    || ((l.PopLook? || l.PopCas?) && l.pos == deq)
    || ((l.PopTake? || l.PopRelease?) && l.pos + 1 == deq)
  }

  /** What the ring is doing for coroutine `c`. */
  predicate LocalAgrees(s: Lock, c: nat) {
    var l := Ring.LocalOf(s.ring, c);
    match PhaseOf(s, c)
    case Pushing => PushingLocal(l, c)
    case Unlocking => PoppingLocal(l, s.ring.dequeuePos)
    case _ => l.Idle?
  }

  /** A ticket has been taken out of the queue and its waiter not yet been scheduled. */
  predicate InFlight(s: Lock) {
    s.token.Some? &&
    match PhaseOf(s, s.token.value)
    case Unlocking => var l := Ring.LocalOf(s.ring, s.token.value); l.PopTake? || l.PopRelease?
    case HandOff(_) => true
    case _ => false
  }

  /** The first ticket whose waiter has not been scheduled. */
  function FirstWaiting(s: Lock): int {
    s.ring.dequeuePos - if InFlight(s) then 1 else 0
  }

  /** The coroutine queued under ticket `p` is suspended under it, or still writing its cell. */
  ghost predicate TicketAgrees(s: Lock, p: nat)
    requires p < |s.ring.log|
  {
    var c := s.ring.log[p];
    PhaseOf(s, c) == Waiting(p) ||
    (PhaseOf(s, c).Pushing? && Ring.PushOwns(Ring.LocalOf(s.ring, c), p) && p >= s.ring.dequeuePos)
  }

  ghost predicate PhaseAgrees(s: Lock, c: nat) {
    match PhaseOf(s, c)
    case Waiting(p) => FirstWaiting(s) <= p < |s.ring.log| && s.ring.log[p] == c
    case HandOff(next) =>
      s.ring.dequeuePos > 0 && s.ring.dequeuePos <= |s.ring.log| && s.ring.log[s.ring.dequeuePos - 1] == next
    case _ => true
  }

  ghost predicate TokenAgrees(s: Lock) {
    && (forall c: nat :: InHand(PhaseOf(s, c)) <==> s.token == Some(c))
    && (s.token.Some? <==> s.state > 0)
  }

  /** How the counter, the coroutines and the queue fit together. */
  ghost predicate Agrees(s: Lock) {
    && TokenAgrees(s)
    && s.state == |CountedSet(s)|
    && (forall c: nat :: LocalAgrees(s, c))
    && 0 <= FirstWaiting(s) <= |s.ring.log|
    && (forall p: nat :: FirstWaiting(s) <= p < |s.ring.log| ==> TicketAgrees(s, p))
    && (forall c: nat :: PhaseAgrees(s, c))
    && s.resumed == s.ring.log[..FirstWaiting(s)]
  }

  ghost predicate Inv(s: Lock) {
    Ring.Inv(s.ring) && Agrees(s)
  }

  lemma InitInv(capacity: nat)
    requires capacity >= 2
    ensures Inv(Init(capacity))
  {
    Ring.InitInv<nat>(capacity, false);
  }

  // ----- Counting -----

  lemma CountEnter(s: Lock, s': Lock, c: nat)
    requires s'.phases == s.phases[c := PhaseOf(s', c)]
    ensures |CountedSet(s')| ==
            |CountedSet(s)| + (if Counted(PhaseOf(s', c)) then 1 else 0) - (if Counted(PhaseOf(s, c)) then 1 else 0)
  {
    CountChange(CountedSet(s), CountedSet(s'), c);
  }

  lemma CountChange(a: set<nat>, b: set<nat>, c: nat)
    requires forall d: nat :: d != c ==> (d in a <==> d in b)
    ensures |b| == |a| + (if c in b then 1 else 0) - (if c in a then 1 else 0)
  {
    assert a - {c} == b - {c};
    assert c in a ==> a == (a - {c}) + {c};
    assert c in b ==> b == (b - {c}) + {c};
    assert c !in a ==> a == a - {c};
    assert c !in b ==> b == b - {c};
  }

  // ----- Steps inside the ring -----

  /** A ring step of `c` that changes neither the queue nor who owns which ticket. */
  lemma LocalMove(s: Lock, r': Ring.Ring<nat>, c: nat)
    requires Agrees(s)
    requires r'.log == s.ring.log && r'.dequeuePos == s.ring.dequeuePos
    requires c in r'.threads && r'.threads == s.ring.threads[c := r'.threads[c]]
    requires LocalAgrees(s.(ring := r'), c) && InFlight(s.(ring := r')) == InFlight(s)
    requires forall p: nat :: Ring.PushOwns(Ring.LocalOf(s.ring, c), p) ==> Ring.PushOwns(r'.threads[c], p)
    ensures Agrees(s.(ring := r'))
  {
    var s' := s.(ring := r');
    assert CountedSet(s') == CountedSet(s);
    forall d: nat
      ensures LocalAgrees(s', d) && PhaseAgrees(s', d) &&
              (InHand(PhaseOf(s', d)) <==> s'.token == Some(d))
    {
      assert LocalAgrees(s, d) && PhaseAgrees(s, d) && (InHand(PhaseOf(s, d)) <==> s.token == Some(d));
    }
    forall p: nat | FirstWaiting(s') <= p < |s'.ring.log| ensures TicketAgrees(s', p) {
      assert TicketAgrees(s, p);
    }
  }

  /** Winning a ticket appends `c` to the queue. */
  lemma ClaimTicket(s: Lock, c: nat)
    requires Inv(s) && PhaseOf(s, c).Pushing?
    requires Ring.LocalOf(s.ring, c) == Ring.PushCas(c, s.ring.enqueuePos)
    ensures Inv(Step(s, Go(c, false)))
  {
    var s' := Step(s, Go(c, false));
    assert s' == s.(ring := Ring.Run(s.ring, c, false));
    Ring.ClaimPushKeepsInv(s.ring, c);
    assert CountedSet(s') == CountedSet(s);
    assert s.token != Some(c) by { assert InHand(PhaseOf(s, c)) <==> s.token == Some(c); }
    assert InFlight(s') == InFlight(s);
    forall d: nat
      ensures LocalAgrees(s', d) && PhaseAgrees(s', d) &&
              (InHand(PhaseOf(s', d)) <==> s'.token == Some(d))
    {
      assert LocalAgrees(s, d) && PhaseAgrees(s, d) && (InHand(PhaseOf(s, d)) <==> s.token == Some(d));
    }
    forall p: nat | FirstWaiting(s') <= p < |s'.ring.log| ensures TicketAgrees(s', p) {
      if p < |s.ring.log| {
        assert TicketAgrees(s, p);
      }
    }
  }

  lemma PublishRing(r: Ring.Ring<nat>, c: nat, spurious: bool) returns (r': Ring.Ring<nat>)
    requires Ring.Inv(r) && Ring.LocalOf(r, c).PushPublish?
    ensures r' == Ring.Move(Ring.Run(r, c, spurious), c, Ring.Idle) && Ring.Inv(r')
    ensures r'.log == r.log && r'.dequeuePos == r.dequeuePos && r'.threads == r.threads[c := Ring.Idle]
    ensures var p := Ring.LocalOf(r, c).pos;
            Ring.LocalOf(Ring.Run(r, c, spurious), c) == Ring.PushEnd(Ring.LocalOf(r, c).msg, Ring.Accepted(p))
    ensures var p := Ring.LocalOf(r, c).pos; r.dequeuePos <= p < |r.log| && r.log[p] == Ring.LocalOf(r, c).msg
  {
    r' := Ring.Move(Ring.Run(r, c, spurious), c, Ring.Idle);
    assert Ring.LocalFits(r, r.threads[c]);
    Ring.RunKeepsInv(r, c, spurious);
    Ring.MoveKeepsInv(Ring.Run(r, c, spurious), c, Ring.Idle);
    Ring.OwnedTickets(r, c);
  }

  /** Publishing suspends the pusher: from here on it may be resumed. */
  lemma Publish(s: Lock, c: nat, spurious: bool)
    requires Inv(s) && PhaseOf(s, c).Pushing? && Ring.LocalOf(s.ring, c).PushPublish?
    ensures Inv(Step(s, Go(c, spurious)))
    ensures PhaseOf(Step(s, Go(c, spurious)), c) == Waiting(Ring.LocalOf(s.ring, c).pos)
  {
    var p := Ring.LocalOf(s.ring, c).pos;
    assert LocalAgrees(s, c);
    var r' := PublishRing(s.ring, c, spurious);
    var s' := Enter(s.(ring := r'), c, Waiting(p));
    assert Step(s, Go(c, spurious)) == s';
    Suspend(s, s', c, p);
  }

  lemma Suspend(s: Lock, s': Lock, c: nat, p: nat)
    requires Agrees(s) && PhaseOf(s, c).Pushing? && Ring.PushOwns(Ring.LocalOf(s.ring, c), p)
    requires s' == Enter(s.(ring := s'.ring), c, Waiting(p))
    requires s'.ring.log == s.ring.log && s'.ring.dequeuePos == s.ring.dequeuePos
    requires s'.ring.threads == s.ring.threads[c := Ring.Idle]
    requires s.ring.dequeuePos <= p < |s.ring.log| && s.ring.log[p] == c
    ensures Agrees(s')
  {
    CountEnter(s, s', c);
    assert InHand(PhaseOf(s, c)) <==> s.token == Some(c);
    assert InFlight(s') == InFlight(s);
    forall d: nat
      ensures LocalAgrees(s', d) && PhaseAgrees(s', d) &&
              (InHand(PhaseOf(s', d)) <==> s'.token == Some(d))
    {
      assert LocalAgrees(s, d) && PhaseAgrees(s, d) && (InHand(PhaseOf(s, d)) <==> s.token == Some(d));
    }
    forall q: nat | FirstWaiting(s') <= q < |s'.ring.log| ensures TicketAgrees(s', q) {
      assert TicketAgrees(s, q);
    }
  }

  lemma PushRetryRing(r: Ring.Ring<nat>, c: nat, spurious: bool) returns (l: Ring.Local<nat>)
    requires Ring.Inv(r) && PushingLocal(Ring.LocalOf(r, c), c)
    requires var l := Ring.LocalOf(r, c);
             l.PushStart? || l.PushLook? || (l.PushCas? && (l.pos != r.enqueuePos || spurious))
    ensures Ring.Inv(Ring.Move(r, c, l)) && PushingLocal(l, c)
    ensures var r1 := Ring.Run(r, c, spurious); var l1 := Ring.LocalOf(r1, c);
            if l1.PushEnd? then
              l1 == Ring.PushEnd(c, Ring.Refused) && l == Ring.PushStart(c) && Ring.Move(r1, c, l) == Ring.Move(r, c, l)
            else r1 == Ring.Move(r, c, l)
  {
    var l1 := Ring.QuietStep(r, c, spurious);
    assert l1 == Ring.LocalOf(Ring.Run(r, c, spurious), c);
    l := if l1.PushEnd? then Ring.PushStart(c) else l1;
    assert r.threads[c := l1][c := l] == r.threads[c := l];
    Ring.MoveKeepsInv(r, c, l);
  }

  lemma PushRetryStep(s: Lock, c: nat, spurious: bool, l: Ring.Local<nat>)
    requires |s.ring.cells| > 0 && PhaseOf(s, c).Pushing? && PushingLocal(l, c)
    requires var r1 := Ring.Run(s.ring, c, spurious); var l1 := Ring.LocalOf(r1, c);
             if l1.PushEnd? then
               l1 == Ring.PushEnd(c, Ring.Refused) && l == Ring.PushStart(c) &&
               Ring.Move(r1, c, l) == Ring.Move(s.ring, c, l)
             else r1 == Ring.Move(s.ring, c, l)
    ensures Step(s, Go(c, spurious)) == s.(ring := Ring.Move(s.ring, c, l))
  {
  }

  lemma PushRetry(s: Lock, c: nat, spurious: bool)
    requires Inv(s) && PhaseOf(s, c).Pushing?
    requires var l := Ring.LocalOf(s.ring, c);
             l.PushStart? || l.PushLook? || (l.PushCas? && (l.pos != s.ring.enqueuePos || spurious))
    ensures Inv(Step(s, Go(c, spurious)))
  {
    assert LocalAgrees(s, c);
    assert s.token != Some(c) by { assert InHand(PhaseOf(s, c)) <==> s.token == Some(c); }
    var l := PushRetryRing(s.ring, c, spurious);
    PushRetryStep(s, c, spurious, l);
    LocalMove(s, Ring.Move(s.ring, c, l), c);
  }

  lemma PushWriteStep(s: Lock, c: nat, spurious: bool)
    requires Inv(s) && PhaseOf(s, c).Pushing? && Ring.LocalOf(s.ring, c).PushWrite?
    ensures Inv(Step(s, Go(c, spurious)))
  {
    assert LocalAgrees(s, c);
    assert s.token != Some(c) by { assert InHand(PhaseOf(s, c)) <==> s.token == Some(c); }
    Ring.RunKeepsInv(s.ring, c, spurious);
    LocalMove(s, Ring.Run(s.ring, c, spurious), c);
  }

  lemma PushingStep(s: Lock, c: nat, spurious: bool)
    requires Inv(s) && PhaseOf(s, c).Pushing?
    ensures Inv(Step(s, Go(c, spurious)))
  {
    assert LocalAgrees(s, c);
    var l := Ring.LocalOf(s.ring, c);
    if l.PushPublish? {
      Publish(s, c, spurious);
    } else if l.PushWrite? {
      PushWriteStep(s, c, spurious);
    } else if l.PushCas? && l.pos == s.ring.enqueuePos && !spurious {
      ClaimTicket(s, c);
    } else {
      PushRetry(s, c, spurious);
    }
  }

  // ----- Unlocking -----

  lemma PopRetryRing(r: Ring.Ring<nat>, c: nat, spurious: bool) returns (l: Ring.Local<nat>)
    requires Ring.Inv(r) && c in r.threads && PoppingLocal(r.threads[c], r.dequeuePos)
    requires var l := r.threads[c]; l.PopStart? || l.PopLook? || (l.PopCas? && spurious)
    ensures Ring.Inv(Ring.Move(r, c, l)) && PoppingLocal(l, r.dequeuePos) && !l.PopTake? && !l.PopRelease?
    ensures var r1 := Ring.Run(r, c, spurious); var l1 := Ring.LocalOf(r1, c);
            if l1.PopEnd? then
              l1 == Ring.PopEnd(Ring.Nothing) && l == Ring.PopStart && Ring.Move(r1, c, l) == Ring.Move(r, c, l)
            else r1 == Ring.Move(r, c, l)
  {
    var l1 := Ring.QuietStep(r, c, spurious);
    PopLookSees(r, c, spurious);
    assert l1 == Ring.LocalOf(Ring.Run(r, c, spurious), c);
    assert r.threads[c].PopLook? ==> r.threads[c] == Ring.PopLook(r.dequeuePos);
    l := if l1.PopEnd? then Ring.PopStart else l1;
    assert r.threads[c := l1][c := l] == r.threads[c := l];
    Ring.MoveKeepsInv(r, c, l);
  }

  lemma PopRetry(s: Lock, c: nat, spurious: bool)
    requires Inv(s) && PhaseOf(s, c).Unlocking?
    requires var l := Ring.LocalOf(s.ring, c); l.PopStart? || l.PopLook? || (l.PopCas? && spurious)
    ensures Inv(Step(s, Go(c, spurious)))
  {
    assert LocalAgrees(s, c);
    assert s.token == Some(c) by { assert InHand(PhaseOf(s, c)) <==> s.token == Some(c); }
    var l := PopRetryRing(s.ring, c, spurious);
    assert Step(s, Go(c, spurious)) == s.(ring := Ring.Move(s.ring, c, l));
    LocalMove(s, Ring.Move(s.ring, c, l), c);
  }

  /** With the counter unmoved, a look at the head cell finds it ready or not yet published. */
  lemma PopLookSees(r: Ring.Ring<nat>, c: nat, spurious: bool)
    requires Ring.Inv(r) && c in r.threads
    ensures r.threads[c] == Ring.PopLook(r.dequeuePos) ==>
            Ring.LocalOf(Ring.Run(r, c, spurious), c) in
              {Ring.PopCas(r.dequeuePos), Ring.PopEnd(Ring.Nothing), Ring.PopStart}
  {
    Ring.ReadyToClaim(r, r.dequeuePos);
  }

  /** Taking the head ticket puts it in flight. */
  lemma ClaimHead(s: Lock, c: nat)
    requires Inv(s) && PhaseOf(s, c).Unlocking? && Ring.LocalOf(s.ring, c).PopCas?
    ensures Inv(Step(s, Go(c, false)))
  {
    assert LocalAgrees(s, c);
    assert s.token == Some(c) by { assert InHand(PhaseOf(s, c)) <==> s.token == Some(c); }
    Ring.ClaimPopKeepsInv(s.ring, c);
    assert Ring.LocalFits(s.ring, s.ring.threads[c]);
    Ring.ReadyToClaim(s.ring, s.ring.dequeuePos);
    HeadIsWaiting(s, c);
    HeadLeaves(s, Ring.Run(s.ring, c, false), c);
  }

  /** The unlocker takes the ticket of the first waiter out of the queue. */
  lemma HeadLeaves(s: Lock, r': Ring.Ring<nat>, c: nat)
    requires Agrees(s) && PhaseOf(s, c).Unlocking? && s.token == Some(c) && !InFlight(s)
    requires s.ring.dequeuePos < |s.ring.log| && PhaseOf(s, s.ring.log[s.ring.dequeuePos]) == Waiting(s.ring.dequeuePos)
    requires r'.log == s.ring.log && r'.dequeuePos == s.ring.dequeuePos + 1
    requires r'.threads == s.ring.threads[c := Ring.PopTake(s.ring.dequeuePos)]
    ensures Agrees(s.(ring := r'))
  {
    var s' := s.(ring := r');
    assert CountedSet(s') == CountedSet(s);
    forall d: nat
      ensures LocalAgrees(s', d) && PhaseAgrees(s', d) &&
              (InHand(PhaseOf(s', d)) <==> s'.token == Some(d))
    {
      assert LocalAgrees(s, d) && PhaseAgrees(s, d) && (InHand(PhaseOf(s, d)) <==> s.token == Some(d));
    }
    forall q: nat | FirstWaiting(s') <= q < |s'.ring.log| ensures TicketAgrees(s', q) {
      assert TicketAgrees(s, q);
    }
  }

  /** A published head ticket belongs to a suspended waiter. */
  lemma HeadIsWaiting(s: Lock, c: nat)
    requires Inv(s) && !InFlight(s) && s.ring.dequeuePos < s.ring.enqueuePos
    requires Ring.CellAt(s.ring, s.ring.dequeuePos).sequence == s.ring.dequeuePos + 1
    ensures PhaseOf(s, s.ring.log[s.ring.dequeuePos]) == Waiting(s.ring.dequeuePos)
  {
    var p := s.ring.dequeuePos;
    assert TicketAgrees(s, p);
    var d := s.ring.log[p];
    assert d in s.ring.threads ==> Ring.LocalFits(s.ring, s.ring.threads[d]);
  }

  lemma PopTakeStep(s: Lock, c: nat, spurious: bool)
    requires Inv(s) && PhaseOf(s, c).Unlocking? && Ring.LocalOf(s.ring, c).PopTake?
    ensures Inv(Step(s, Go(c, spurious)))
  {
    assert LocalAgrees(s, c);
    assert s.token == Some(c) by { assert InHand(PhaseOf(s, c)) <==> s.token == Some(c); }
    Ring.RunKeepsInv(s.ring, c, spurious);
    LocalMove(s, Ring.Run(s.ring, c, spurious), c);
  }

  lemma ReleaseRing(r: Ring.Ring<nat>, c: nat, spurious: bool) returns (r': Ring.Ring<nat>)
    requires Ring.Inv(r) && Ring.LocalOf(r, c).PopRelease?
    ensures r' == Ring.Move(Ring.Run(r, c, spurious), c, Ring.Idle) && Ring.Inv(r')
    ensures r'.log == r.log && r'.dequeuePos == r.dequeuePos && r'.threads == r.threads[c := Ring.Idle]
    ensures var p := Ring.LocalOf(r, c).pos;
            p < |r.log| && Ring.LocalOf(Ring.Run(r, c, spurious), c) == Ring.PopEnd(Ring.Got(p, Some(r.log[p])))
  {
    r' := Ring.Move(Ring.Run(r, c, spurious), c, Ring.Idle);
    assert Ring.LocalFits(r, r.threads[c]);
    Ring.RunKeepsInv(r, c, spurious);
    Ring.MoveKeepsInv(Ring.Run(r, c, spurious), c, Ring.Idle);
  }

  lemma Release(s: Lock, c: nat, spurious: bool)
    requires Inv(s) && PhaseOf(s, c).Unlocking? && Ring.LocalOf(s.ring, c).PopRelease?
    ensures Inv(Step(s, Go(c, spurious)))
  {
    assert LocalAgrees(s, c);
    assert s.token == Some(c) by { assert InHand(PhaseOf(s, c)) <==> s.token == Some(c); }
    var r' := ReleaseRing(s.ring, c, spurious);
    var s' := Enter(s.(ring := r'), c, HandOff(s.ring.log[s.ring.dequeuePos - 1]));
    assert Step(s, Go(c, spurious)) == s';
    TakenOver(s, s', c);
  }

  /** The unlocker has the coroutine it is going to resume. */
  lemma TakenOver(s: Lock, s': Lock, c: nat)
    requires Agrees(s) && PhaseOf(s, c).Unlocking? && Ring.LocalOf(s.ring, c).PopRelease? && s.token == Some(c)
    requires 0 < s.ring.dequeuePos <= |s.ring.log|
    requires s' == Enter(s.(ring := s'.ring), c, HandOff(s.ring.log[s.ring.dequeuePos - 1]))
    requires s'.ring.log == s.ring.log && s'.ring.dequeuePos == s.ring.dequeuePos
    requires s'.ring.threads == s.ring.threads[c := Ring.Idle]
    ensures Agrees(s')
  {
    CountEnter(s, s', c);
    forall d: nat
      ensures LocalAgrees(s', d) && PhaseAgrees(s', d) &&
              (InHand(PhaseOf(s', d)) <==> s'.token == Some(d))
    {
      assert LocalAgrees(s, d) && PhaseAgrees(s, d) && (InHand(PhaseOf(s, d)) <==> s.token == Some(d));
    }
    forall q: nat | FirstWaiting(s') <= q < |s'.ring.log| ensures TicketAgrees(s', q) {
      assert TicketAgrees(s, q);
    }
  }

  lemma UnlockingStep(s: Lock, c: nat, spurious: bool)
    requires Inv(s) && PhaseOf(s, c).Unlocking?
    ensures Inv(Step(s, Go(c, spurious)))
  {
    assert LocalAgrees(s, c);
    var l := Ring.LocalOf(s.ring, c);
    if l.PopRelease? {
      Release(s, c, spurious);
    } else if l.PopTake? {
      PopTakeStep(s, c, spurious);
    } else if l.PopCas? && !spurious {
      ClaimHead(s, c);
    } else {
      PopRetry(s, c, spurious);
    }
  }

  // ----- Steps outside the ring -----

  lemma HandOffStep(s: Lock, c: nat, spurious: bool)
    requires Inv(s) && PhaseOf(s, c).HandOff?
    ensures Inv(Step(s, Go(c, spurious)))
  {
    var next := PhaseOf(s, c).next;
    var s1 := Enter(s, c, Outside);
    var s' := Step(s, Go(c, spurious));
    assert PhaseAgrees(s, c) && LocalAgrees(s, c) && (InHand(PhaseOf(s, c)) <==> s.token == Some(c));
    assert TicketAgrees(s, s.ring.dequeuePos - 1);
    assert LocalAgrees(s, next) && (InHand(PhaseOf(s, next)) <==> s.token == Some(next));
    CountEnter(s, s1, c);
    CountEnter(s1, s', next);
    forall d: nat
      ensures LocalAgrees(s', d) && PhaseAgrees(s', d) &&
              (InHand(PhaseOf(s', d)) <==> s'.token == Some(d))
    {
      assert LocalAgrees(s, d) && PhaseAgrees(s, d) && (InHand(PhaseOf(s, d)) <==> s.token == Some(d));
    }
    forall q: nat | FirstWaiting(s') <= q < |s'.ring.log| ensures TicketAgrees(s', q) {
      assert TicketAgrees(s, q);
    }
  }

  /** A change of phase of `c` that the queue does not notice. */
  lemma PhaseMove(s: Lock, s': Lock, c: nat)
    requires Agrees(s) && s'.phases == s.phases[c := PhaseOf(s', c)] && s'.resumed == s.resumed
    requires s'.ring.log == s.ring.log && s'.ring.dequeuePos == s.ring.dequeuePos
    requires s'.ring.threads == s.ring.threads ||
             (c in s'.ring.threads && s'.ring.threads == s.ring.threads[c := s'.ring.threads[c]])
    requires LocalAgrees(s', c) && InFlight(s') == InFlight(s) && TokenAgrees(s')
    requires !PhaseOf(s, c).Waiting? && !PhaseOf(s, c).Pushing? && !PhaseOf(s', c).Waiting? && !PhaseOf(s', c).HandOff?
    requires s'.state - s.state ==
             (if Counted(PhaseOf(s', c)) then 1 else 0) - (if Counted(PhaseOf(s, c)) then 1 else 0)
    ensures Agrees(s')
  {
    CountEnter(s, s', c);
    forall d: nat ensures LocalAgrees(s', d) && PhaseAgrees(s', d) {
      assert LocalAgrees(s, d) && PhaseAgrees(s, d);
    }
    forall q: nat | FirstWaiting(s') <= q < |s'.ring.log| ensures TicketAgrees(s', q) {
      assert TicketAgrees(s, q);
    }
  }

  lemma ScheduledStep(s: Lock, c: nat, spurious: bool)
    requires Inv(s) && PhaseOf(s, c).Scheduled?
    ensures Inv(Step(s, Go(c, spurious)))
  {
    var s' := Step(s, Go(c, spurious));
    assert LocalAgrees(s, c) && (InHand(PhaseOf(s, c)) <==> s.token == Some(c));
    forall d: nat ensures InHand(PhaseOf(s', d)) <==> s'.token == Some(d) {
      assert InHand(PhaseOf(s, d)) <==> s.token == Some(d);
    }
    PhaseMove(s, s', c);
  }

  lemma LockStep(s: Lock, c: nat)
    requires Inv(s) && PhaseOf(s, c).Outside?
    ensures Inv(Step(s, CoLock(c)))
  {
    var s' := Step(s, CoLock(c));
    assert LocalAgrees(s, c) && (InHand(PhaseOf(s, c)) <==> s.token == Some(c));
    if s.state != 0 {
      Ring.MoveKeepsInv(s.ring, c, Ring.PushStart(c));
    }
    forall d: nat ensures InHand(PhaseOf(s', d)) <==> s'.token == Some(d) {
      assert InHand(PhaseOf(s, d)) <==> s.token == Some(d);
    }
    PhaseMove(s, s', c);
  }

  lemma UnlockStep(s: Lock, c: nat)
    requires Inv(s) && PhaseOf(s, c).Holding?
    ensures Inv(Step(s, CoUnlock(c)))
  {
    var s' := Step(s, CoUnlock(c));
    assert LocalAgrees(s, c) && (InHand(PhaseOf(s, c)) <==> s.token == Some(c));
    if s.state != 1 {
      Ring.MoveKeepsInv(s.ring, c, Ring.PopStart);
    }
    forall d: nat ensures InHand(PhaseOf(s', d)) <==> s'.token == Some(d) {
      assert InHand(PhaseOf(s, d)) <==> s.token == Some(d);
    }
    PhaseMove(s, s', c);
  }

  lemma StepKeepsInv(s: Lock, a: Action)
    requires Inv(s)
    ensures Inv(Step(s, a))
  {
    match a
    case CoLock(c) => if PhaseOf(s, c).Outside? { LockStep(s, c); }
    case CoUnlock(c) => if PhaseOf(s, c).Holding? { UnlockStep(s, c); }
    case Go(c, spurious) =>
      match PhaseOf(s, c)
      case Pushing => PushingStep(s, c, spurious);
      case Unlocking => UnlockingStep(s, c, spurious);
      case HandOff(_) => HandOffStep(s, c, spurious);
      case Scheduled => ScheduledStep(s, c, spurious);
      case _ =>
  }

  lemma {:induction false} RunKeepsInv(capacity: nat, acts: seq<Action>)
    requires capacity >= 2
    ensures Inv(Exec(Init(capacity), acts))
  {
    if acts == [] {
      InitInv(capacity);
    } else {
      RunKeepsInv(capacity, acts[..|acts| - 1]);
      StepKeepsInv(Exec(Init(capacity), acts[..|acts| - 1]), acts[|acts| - 1]);
    }
  }
}
