/** What the lock promises: exclusion, exact counting, handoff in ticket order, and no way to get stuck. */
module AsyncLockProgress {
  import opened Common
  import Ring
  import RingFifo
  import opened AsyncLock

  /** At most one coroutine holds the lock, is about to resume with it, or is handing it on. */
  lemma MutualExclusion(capacity: nat, acts: seq<Action>, c: nat, d: nat)
    requires capacity >= 2
    ensures var s := Exec(Init(capacity), acts);
            && (InHand(PhaseOf(s, c)) && InHand(PhaseOf(s, d)) ==> c == d)
            && (s.state > 0 <==> exists e: nat :: InHand(PhaseOf(s, e)))
  {
    RunKeepsInv(capacity, acts);
    var s := Exec(Init(capacity), acts);
    assert InHand(PhaseOf(s, c)) <==> s.token == Some(c);
    assert InHand(PhaseOf(s, d)) <==> s.token == Some(d);
    if s.state > 0 {
      assert InHand(PhaseOf(s, s.token.value)) <==> s.token == Some(s.token.value);
    }
    forall e: nat | InHand(PhaseOf(s, e)) ensures s.state > 0 {
      assert InHand(PhaseOf(s, e)) <==> s.token == Some(e);
    }
  }

  /**
   `m_state` is the number of coroutines that hold the lock, are scheduled to resume with it,
   are queueing or are queued; handoffs happen in ticket order, each ticket's at most once.
   */
  lemma CountsAndHandoffs(capacity: nat, acts: seq<Action>)
    requires capacity >= 2
    ensures var s := Exec(Init(capacity), acts);
            s.state == |CountedSet(s)| && s.resumed <= s.ring.log && |s.resumed| <= s.ring.dequeuePos <= |s.resumed| + 1
  {
    RunKeepsInv(capacity, acts);
  }

  /** An unlocker that finds the ring empty can count on a coroutine that is still pushing. */
  lemma EmptyMeansPusher(s: Lock, c: nat, spurious: bool)
    requires Inv(s) && PhaseOf(s, c).Unlocking? && Ring.LocalOf(s.ring, c).PopLook?
    requires Ring.LocalOf(Ring.Run(s.ring, c, spurious), c) == Ring.PopEnd(Ring.Nothing)
    ensures exists d: nat :: PhaseOf(s, d).Pushing? &&
              (s.ring.dequeuePos == s.ring.enqueuePos || Ring.PushOwns(Ring.LocalOf(s.ring, d), s.ring.dequeuePos))
  {
    assert LocalAgrees(s, c);
    var d := NextPusher(s, c);
  }

  /** A pusher that finds the ring full can count on somebody having the lock in hand. */
  lemma FullMeansInHand(s: Lock, c: nat)
    requires Inv(s) && PhaseOf(s, c).Pushing?
    ensures s.token.Some? && InHand(PhaseOf(s, s.token.value)) && s.token.value != c
  {
    assert c in CountedSet(s);
    assert InHand(PhaseOf(s, s.token.value)) <==> s.token == Some(s.token.value);
    assert InHand(PhaseOf(s, c)) <==> s.token == Some(c);
  }

  /** While the token is unlocking and the head is not published, somebody is pushing. */
  lemma NextPusher(s: Lock, c: nat) returns (d: nat)
    requires Inv(s) && PhaseOf(s, c).Unlocking? && !InFlight(s)
    requires s.ring.dequeuePos == s.ring.enqueuePos ||
             Ring.CellAt(s.ring, s.ring.dequeuePos).sequence <= s.ring.dequeuePos
    ensures PhaseOf(s, d).Pushing?
    ensures s.ring.dequeuePos < s.ring.enqueuePos ==> Ring.PushOwns(Ring.LocalOf(s.ring, d), s.ring.dequeuePos)
  {
    var p := s.ring.dequeuePos;
    assert InHand(PhaseOf(s, c)) <==> s.token == Some(c);
    if p < s.ring.enqueuePos {
      assert TicketAgrees(s, p);
      d := s.ring.log[p];
      assert Ring.CellFits(s.ring, p);
      if PhaseOf(s, d) == Waiting(p) {
        var t :| t in s.ring.threads && Ring.PushOwns(s.ring.threads[t], p);
        assert LocalAgrees(s, t) && Ring.LocalFits(s.ring, s.ring.threads[t]);
        d := t;
      }
    } else {
      assert |CountedSet(s)| > 0;
      d :| d in CountedSet(s);
      assert PhaseAgrees(s, d);
      assert InHand(PhaseOf(s, d)) <==> s.token == Some(d);
    }
  }

  // ----- Getting there -----

  predicate NoArrivals(acts: seq<Action>) {
    forall a :: a in acts ==> !a.CoLock?
  }

  /** `s'` can be reached from `s` by the coroutines already there. */
  ghost predicate Leads(s: Lock, s': Lock) {
    |s.ring.cells| > 0 && exists acts: seq<Action> :: NoArrivals(acts) && Exec(s, acts) == s'
  }

  lemma LeadsSelf(s: Lock)
    requires |s.ring.cells| > 0
    ensures Leads(s, s)
  {
    assert NoArrivals([]) && Exec(s, []) == s;
  }

  lemma LeadsOn(s: Lock, s1: Lock, a: Action)
    requires Leads(s, s1) && Inv(s1) && !a.CoLock?
    ensures Leads(s, Step(s1, a)) && Inv(Step(s1, a))
  {
    var acts: seq<Action> :| NoArrivals(acts) && Exec(s, acts) == s1;
    assert (acts + [a])[..|acts|] == acts;
    assert NoArrivals(acts + [a]) && Exec(s, acts + [a]) == Step(s1, a);
    StepKeepsInv(s1, a);
  }

  /** The queue's head and the token's place are as before; the log may have grown. */
  predicate SameHead(s: Lock, s': Lock) {
    && s'.token == s.token && s'.resumed == s.resumed && s'.ring.dequeuePos == s.ring.dequeuePos
    && s.ring.log <= s'.ring.log
    && (s.token.Some? ==> PhaseOf(s', s.token.value) == PhaseOf(s, s.token.value))
    && (s.token.Some? ==> Ring.LocalOf(s'.ring, s.token.value) == Ring.LocalOf(s.ring, s.token.value))
  }

  predicate HeadPublished(s: Lock)
    requires |s.ring.cells| > 0
  {
    s.ring.dequeuePos < s.ring.enqueuePos && Ring.CellAt(s.ring, s.ring.dequeuePos).sequence == s.ring.dequeuePos + 1
  }

  lemma WriteHead(s: Lock, d: nat)
    requires Inv(s) && PhaseOf(s, d).Pushing? && s.token != Some(d) && Ring.LocalOf(s.ring, d).PushWrite?
    ensures var s' := Step(s, Go(d, false));
            SameHead(s, s') && PhaseOf(s', d).Pushing? &&
            Ring.LocalOf(s'.ring, d) == Ring.PushPublish(Ring.LocalOf(s.ring, d).msg, Ring.LocalOf(s.ring, d).pos)
  {
  }

  lemma FinishHead(s: Lock, d: nat)
    requires Inv(s) && PhaseOf(s, d).Pushing? && s.token != Some(d) && Ring.LocalOf(s.ring, d).PushPublish?
    requires Ring.LocalOf(s.ring, d).pos == s.ring.dequeuePos
    ensures var s' := Step(s, Go(d, false)); SameHead(s, s') && HeadPublished(s')
  {
    var r' := PublishRing(s.ring, d, false);
    var p := s.ring.dequeuePos;
    assert Step(s, Go(d, false)) == Enter(s.(ring := r'), d, Waiting(p));
    assert Ring.CellAt(r', p).sequence == p + 1;
  }

  /** The owner of the head ticket writes and publishes it. */
  lemma PublishHead(s0: Lock, s: Lock, d: nat) returns (s': Lock)
    requires Leads(s0, s) && Inv(s) && PhaseOf(s, d).Pushing? && s.token != Some(d)
    requires Ring.PushOwns(Ring.LocalOf(s.ring, d), s.ring.dequeuePos)
    ensures Leads(s0, s') && Inv(s') && SameHead(s, s') && HeadPublished(s')
  {
    var s1 := s;
    if Ring.LocalOf(s.ring, d).PushWrite? {
      s1 := Step(s, Go(d, false));
      LeadsOn(s0, s, Go(d, false));
      WriteHead(s, d);
    }
    LeadsOn(s0, s1, Go(d, false));
    FinishHead(s1, d);
    s' := Step(s1, Go(d, false));
  }

  /** How far a pusher is from winning a ticket when nothing else moves. */
  function ToTicket(l: Ring.Local<nat>, enq: nat): nat {
    match l
    case PushCas(_, pos) => if pos == enq then 1 else 4
    case PushLook(_, pos) => if pos == enq then 2 else 5
    case _ => 3
  }

  predicate Unclaimed(l: Ring.Local<nat>) {
    l.PushStart? || l.PushLook? || l.PushCas?
  }

  /** With the queue empty and nothing in flight the next cell is free. */
  lemma NextCellIsFree(s: Lock)
    requires Inv(s) && s.ring.dequeuePos == s.ring.enqueuePos && !InFlight(s)
    ensures Ring.CellAt(s.ring, s.ring.enqueuePos).sequence == s.ring.enqueuePos
  {
    var p := s.ring.enqueuePos;
    assert Ring.CellFits(s.ring, p);
    forall t | t in s.ring.threads ensures !s.ring.threads[t].PopTake? && !s.ring.threads[t].PopRelease? {
      assert LocalAgrees(s, t) && (InHand(PhaseOf(s, t)) <==> s.token == Some(t));
    }
  }

  /** One round of an undisturbed pusher brings it nearer to a ticket, or wins it. */
  lemma PusherStep(s: Lock, d: nat)
    requires Inv(s) && PhaseOf(s, d).Pushing? && Unclaimed(Ring.LocalOf(s.ring, d)) && s.token != Some(d)
    requires s.ring.dequeuePos == s.ring.enqueuePos && !InFlight(s)
    ensures var s' := Step(s, Go(d, false)); var l' := Ring.LocalOf(s'.ring, d);
            SameHead(s, s') && PhaseOf(s', d).Pushing? &&
            if Ring.PushOwns(l', s.ring.dequeuePos) then s'.ring.enqueuePos == s.ring.enqueuePos + 1
            else
              Unclaimed(l') && s'.ring.enqueuePos == s.ring.enqueuePos &&
              ToTicket(l', s.ring.enqueuePos) < ToTicket(Ring.LocalOf(s.ring, d), s.ring.enqueuePos)
  {
    NextCellIsFree(s);
    assert Ring.LocalFits(s.ring, s.ring.threads[d]);
    if Ring.LocalOf(s.ring, d).PushLook? {
      RingFifo.PushRefusedWhen(s.ring, d, false);
    }
  }

  lemma WinHead(s0: Lock, s: Lock, d: nat) returns (s': Lock)
    requires Leads(s0, s) && Inv(s) && PhaseOf(s, d).Pushing? && s.token != Some(d)
    requires s.ring.dequeuePos == s.ring.enqueuePos && !InFlight(s)
    ensures Leads(s0, s') && Inv(s') && SameHead(s, s') && PhaseOf(s', d).Pushing?
    ensures Ring.PushOwns(Ring.LocalOf(s'.ring, d), s'.ring.dequeuePos)
    decreases ToTicket(Ring.LocalOf(s.ring, d), s.ring.enqueuePos)
  {
    assert LocalAgrees(s, d);
    assert d in s.ring.threads ==> Ring.LocalFits(s.ring, s.ring.threads[d]);
    if Ring.Owner(Ring.LocalOf(s.ring, d)) {
      Ring.OwnedTickets(s.ring, d);
    }
    PusherStep(s, d);
    LeadsOn(s0, s, Go(d, false));
    var s1 := Step(s, Go(d, false));
    if Ring.PushOwns(Ring.LocalOf(s1.ring, d), s.ring.dequeuePos) {
      s' := s1;
    } else {
      assert InFlight(s1) == InFlight(s);
      s' := WinHead(s0, s1, d);
    }
  }

  /** Whatever the unlocker waits for, the others can bring about: the head gets published. */
  lemma GetPublished(s0: Lock, s: Lock, c: nat) returns (s': Lock)
    requires Leads(s0, s) && Inv(s) && PhaseOf(s, c).Unlocking? && !InFlight(s)
    ensures Leads(s0, s') && Inv(s') && SameHead(s, s') && HeadPublished(s')
  {
    assert InHand(PhaseOf(s, c)) <==> s.token == Some(c);
    if HeadPublished(s) {
      s' := s;
    } else {
      if s.ring.dequeuePos < s.ring.enqueuePos {
        assert Ring.CellFits(s.ring, s.ring.dequeuePos);
      }
      var d := NextPusher(s, c);
      var s1 := s;
      if s.ring.dequeuePos == s.ring.enqueuePos {
        s1 := WinHead(s0, s, d);
      }
      s' := PublishHead(s0, s1, d);
    }
  }

  // ----- The token's way to the next holder -----

  /** How far the token is from the next holder when the head is published. */
  function ToHolder(s: Lock): nat {
    if s.token.None? then 0 else
    match PhaseOf(s, s.token.value)
    case Scheduled => 1
    case HandOff(_) => 2
    case Unlocking => (
      match Ring.LocalOf(s.ring, s.token.value)
      case PopRelease(_, _) => 3
      case PopTake(_) => 4
      case PopCas(_) => 5
      case PopLook(_) => 6
      case _ => 7)
    case _ => 0
  }

  /** One step of the token, when its way is free. */
  lemma TokenStep(s: Lock, c: nat)
    requires Inv(s) && s.token == Some(c) && !PhaseOf(s, c).Holding?
    requires PhaseOf(s, c).Unlocking? && !InFlight(s) ==> HeadPublished(s)
    ensures var s' := Step(s, Go(c, false));
            s'.token.Some? && ToHolder(s') < ToHolder(s) && s'.ring.log == s.ring.log &&
            s'.resumed == s.resumed + (if PhaseOf(s, c).HandOff? then [PhaseOf(s, c).next] else []) &&
            s'.token == (if PhaseOf(s, c).HandOff? then Some(PhaseOf(s, c).next) else s.token) &&
            (PhaseOf(s', s'.token.value).Unlocking? && !InFlight(s') ==> HeadPublished(s'))
    ensures PhaseOf(s, c).Scheduled? <==> PhaseOf(Step(s, Go(c, false)), c).Holding?
  {
    assert InHand(PhaseOf(s, c)) <==> s.token == Some(c);
    assert LocalAgrees(s, c) && PhaseAgrees(s, c);
    if PhaseOf(s, c).Unlocking? {
      TokenUnlocks(s, c);
    }
  }

  lemma TokenUnlocks(s: Lock, c: nat)
    requires Ring.Inv(s.ring) && s.token == Some(c) && PhaseOf(s, c).Unlocking? && LocalAgrees(s, c)
    requires !InFlight(s) ==> HeadPublished(s)
    ensures var s' := Step(s, Go(c, false));
            && s'.token == s.token && ToHolder(s') < ToHolder(s) && s'.ring.log == s.ring.log && s'.resumed == s.resumed
            && (PhaseOf(s', c).Unlocking? && !InFlight(s') ==> HeadPublished(s'))
            && !PhaseOf(s', c).Holding?
  {
    assert c in s.ring.threads ==> Ring.LocalFits(s.ring, s.ring.threads[c]);
    if Ring.LocalOf(s.ring, c).PopRelease? {
      var r' := ReleaseRing(s.ring, c, false);
    }
  }

  predicate HandingOn(p: Phase) {
    p.Unlocking? || p.HandOff?
  }

  predicate Held(s: Lock) {
    s.token.Some? && PhaseOf(s, s.token.value).Holding?
  }

  lemma DriveToken(s0: Lock, s: Lock, c: nat) returns (s': Lock)
    requires Leads(s0, s) && Inv(s) && s.token == Some(c)
    requires PhaseOf(s, c).Unlocking? && !InFlight(s) ==> HeadPublished(s)
    ensures Leads(s0, s') && Inv(s') && Held(s') && s'.ring.log == s.ring.log
    ensures HandingOn(PhaseOf(s, c)) ==> s'.resumed == s.resumed + [s'.token.value]
    ensures !HandingOn(PhaseOf(s, c)) ==> s'.resumed == s.resumed && s'.token == s.token
    decreases ToHolder(s)
  {
    assert InHand(PhaseOf(s, c)) <==> s.token == Some(c);
    if PhaseOf(s, c).Holding? {
      s' := s;
    } else {
      var s1 := Step(s, Go(c, false));
      TokenStep(s, c);
      LeadsOn(s0, s, Go(c, false));
      TokenTurns(s, c);
      s' := DriveToken(s0, s1, s1.token.value);
    }
  }

  /** Unlocking ends in a handoff, a handoff in a scheduled coroutine. */
  lemma TokenTurns(s: Lock, c: nat)
    requires Inv(s) && s.token == Some(c) && !PhaseOf(s, c).Holding?
    ensures var s' := Step(s, Go(c, false));
            (PhaseOf(s, c).Unlocking? ==>
               s'.token == Some(c) && HandingOn(PhaseOf(s', c)) && s'.resumed == s.resumed) &&
            (PhaseOf(s, c).HandOff? ==>
               s'.token == Some(PhaseOf(s, c).next) && PhaseOf(s', PhaseOf(s, c).next).Scheduled?) &&
            (PhaseOf(s, c).Scheduled? ==> s'.token == Some(c) && PhaseOf(s', c).Holding?)
  {
    assert InHand(PhaseOf(s, c)) <==> s.token == Some(c);
  }

  /** Never stuck: while anybody has arrived, the coroutines present can bring one of them to hold the lock. */
  lemma SomebodyCanHold(s0: Lock, s: Lock) returns (s': Lock)
    requires Leads(s0, s) && Inv(s) && s.state > 0
    ensures Leads(s0, s') && Inv(s') && Held(s') && s.ring.log <= s'.ring.log
    ensures HandingOn(PhaseOf(s, s.token.value)) ==> s'.resumed == s.resumed + [s'.token.value]
    ensures !HandingOn(PhaseOf(s, s.token.value)) ==> s'.resumed == s.resumed && s'.token == s.token
  {
    var c := s.token.value;
    assert InHand(PhaseOf(s, c)) <==> s.token == Some(c);
    var s1 := s;
    if PhaseOf(s, c).Unlocking? && !InFlight(s) {
      s1 := GetPublished(s0, s, c);
    }
    s' := DriveToken(s0, s1, c);
  }

  lemma TwoCounted(s: Lock, c: nat, d: nat)
    requires c != d && c in CountedSet(s) && d in CountedSet(s)
    ensures |CountedSet(s)| >= 2
  {
    assert {c, d} <= CountedSet(s);
    Subset({c, d}, CountedSet(s));
    assert |{c, d}| == 2;
  }

  lemma {:induction false} Subset(a: set<nat>, b: set<nat>)
    requires a <= b
    ensures |a| <= |b|
  {
    if a != {} {
      var x :| x in a;
      Subset(a - {x}, b - {x});
    }
  }

  /** A holder that unlocks while ticket `p` is queued goes on to hand over. */
  lemma PassOn(s: Lock, p: nat)
    requires Inv(s) && Held(s) && FirstWaiting(s) <= p < |s.ring.log|
    ensures var s' := Step(s, CoUnlock(s.token.value));
            s'.token == s.token && PhaseOf(s', s.token.value).Unlocking? && s'.ring.log == s.ring.log &&
            s'.resumed == s.resumed &&
            FirstWaiting(s') == FirstWaiting(s)
  {
    var h, d := s.token.value, s.ring.log[p];
    assert TicketAgrees(s, p);
    assert InHand(PhaseOf(s, h)) <==> s.token == Some(h);
    TwoCounted(s, h, d);
  }

  lemma QueueGrows(s: Lock, s': Lock, p: nat)
    requires Agrees(s) && Agrees(s') && s.ring.log <= s'.ring.log && |s.resumed| <= p < |s.ring.log|
    ensures p < |s'.ring.log| && s'.ring.log[p] == s.ring.log[p] && s'.ring.log[..p + 1] == s.ring.log[..p + 1]
    ensures |s.resumed| == FirstWaiting(s) && |s'.resumed| == FirstWaiting(s')
    ensures s'.resumed == s'.ring.log[..|s'.resumed|]
    ensures |s.resumed| == p && |s'.resumed| == p + 1 ==>
              s'.resumed == s.ring.log[..p + 1] && s'.resumed[p] == s.ring.log[p]
  {
  }

  /**
   No waiter is forgotten: whoever has a ticket in the queue can be brought to hold the lock by
   the coroutines already there, after exactly those with earlier tickets.
   */
  lemma {:induction false} TicketCanHold(s0: Lock, s: Lock, p: nat) returns (s': Lock)
    requires Leads(s0, s) && Inv(s) && |s.resumed| <= p < |s.ring.log|
    ensures Leads(s0, s') && Inv(s') && Held(s') && s'.token == Some(s.ring.log[p])
    ensures s'.resumed == s.ring.log[..p + 1]
    decreases p - |s.resumed|, if s.token.Some? && HandingOn(PhaseOf(s, s.token.value)) then 0 else 1
  {
    SomebodyIsThere(s, p);
    if HandingOn(PhaseOf(s, s.token.value)) {
      s' := NextHolds(s0, s, p);
      if |s.resumed| < p {
        s' := TicketCanHold(s0, s', p);
      }
    } else {
      s' := HolderPassesOn(s0, s, p);
      s' := TicketCanHold(s0, s', p);
    }
  }

  /** What is being handed on arrives at the first waiter. */
  lemma NextHolds(s0: Lock, s: Lock, p: nat) returns (s': Lock)
    requires Leads(s0, s) && Inv(s) && |s.resumed| <= p < |s.ring.log| && s.state > 0 && s.token.Some?
    requires HandingOn(PhaseOf(s, s.token.value))
    ensures Leads(s0, s') && Inv(s') && Held(s') && |s'.resumed| == |s.resumed| + 1
    ensures p < |s'.ring.log| && s'.ring.log[p] == s.ring.log[p] && s'.ring.log[..p + 1] == s.ring.log[..p + 1]
    ensures |s.resumed| == p ==> s'.token == Some(s.ring.log[p]) && s'.resumed == s.ring.log[..p + 1]
  {
    s' := SomebodyCanHold(s0, s);
    QueueGrows(s, s', p);
  }

  /** Whoever has the lock without passing it on can get to hold it, and then unlocks. */
  lemma HolderPassesOn(s0: Lock, s: Lock, p: nat) returns (s': Lock)
    requires Leads(s0, s) && Inv(s) && |s.resumed| <= p < |s.ring.log| && s.state > 0 && s.token.Some?
    requires !HandingOn(PhaseOf(s, s.token.value))
    ensures Leads(s0, s') && Inv(s') && s'.token.Some? && HandingOn(PhaseOf(s', s'.token.value))
    ensures s'.resumed == s.resumed
    ensures p < |s'.ring.log| && s'.ring.log[p] == s.ring.log[p] && s'.ring.log[..p + 1] == s.ring.log[..p + 1]
  {
    var s1 := SomebodyCanHold(s0, s);
    QueueGrows(s, s1, p);
    PassOn(s1, p);
    LeadsOn(s0, s1, CoUnlock(s1.token.value));
    s' := Step(s1, CoUnlock(s1.token.value));
  }

  lemma SomebodyIsThere(s: Lock, p: nat)
    requires Inv(s) && |s.resumed| <= p < |s.ring.log|
    ensures s.state > 0 && s.token.Some?
  {
    assert TicketAgrees(s, p);
    assert s.ring.log[p] in CountedSet(s);
  }

  /** The same from the initial state: every run can be continued so that a given waiter holds the lock. */
  lemma EveryWaiterCanHold(capacity: nat, acts: seq<Action>, c: nat) returns (more: seq<Action>)
    requires capacity >= 2 && PhaseOf(Exec(Init(capacity), acts), c).Waiting?
    ensures NoArrivals(more) && PhaseOf(Exec(Exec(Init(capacity), acts), more), c).Holding?
  {
    var s := Exec(Init(capacity), acts);
    RunKeepsInv(capacity, acts);
    assert PhaseAgrees(s, c);
    LeadsSelf(s);
    var s' := TicketCanHold(s, s, PhaseOf(s, c).ticket);
    more :| NoArrivals(more) && Exec(s, more) == s';
  }
}
