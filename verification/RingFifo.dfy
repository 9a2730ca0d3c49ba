/** What the ring promises over whole runs: it is a FIFO queue that loses and doubles nothing. */
module RingFifo {
  import opened Common
  import opened Ring

  /** Winning a ticket, and returning from the operation that has won it: from a pop with its message. */
  datatype Event<T> =
    | Quiet
    | Enqueue(value: T)
    | Dequeue(found: Option<T>)
    | Answer(pops: bool, ticket: nat, message: Option<T>)

  function Exec<T>(s: Ring<T>, acts: seq<Action<T>>): (s': Ring<T>)
    requires |s.cells| > 0
    ensures |s'.cells| == |s.cells|
  {
    if acts == [] then s else Step(Exec(s, acts[..|acts| - 1]), acts[|acts| - 1])
  }

  function EventOf<T>(s: Ring<T>, a: Action<T>): Event<T>
    requires |s.cells| > 0
  {
    if a.Return? then
      match LocalOf(s, a.tid)
      case PushEnd(msg, Accepted(p)) => Answer(false, p, Some(msg))
      case PopEnd(Got(p, message)) => Answer(true, p, message)
      case _ => Quiet
    else if a.Go? then
      match LocalOf(s, a.tid)
      case PushCas(msg, pos) => if s.enqueuePos == pos && !a.spurious then Enqueue(msg) else Quiet
      case PopCas(pos) => if s.dequeuePos == pos && !a.spurious then Dequeue(CellAt(s, pos).data) else Quiet
      case _ => Quiet
    else
      Quiet
  }

  function Trace<T>(s: Ring<T>, acts: seq<Action<T>>): seq<Event<T>>
    requires |s.cells| > 0
  {
    if acts == [] then [] else
      var before := acts[..|acts| - 1];
      Trace(s, before) + [EventOf(Exec(s, before), acts[|acts| - 1])]
  }

  /** The sequential queue: what remains after the events, or None when they are not FIFO. */
  ghost function Fifo<T>(events: seq<Event<T>>): Option<seq<T>> {
    if events == [] then Some([]) else
      var q := Fifo(events[..|events| - 1]);
      if q.None? then None else
      match events[|events| - 1]
      case Enqueue(v) => Some(q.value + [v])
      case Dequeue(v) => if q.value != [] && v == Some(q.value[0]) then Some(q.value[1..]) else None
      case _ => q
  }

  function Enqueued<T>(events: seq<Event<T>>): seq<T> {
    if events == [] then [] else
      var e := events[|events| - 1];
      Enqueued(events[..|events| - 1]) + if e.Enqueue? then [e.value] else []
  }

  predicate Answers<T>(e: Event<T>, pops: bool) {
    e.Answer? && e.pops == pops
  }

  /** The tickets that pops, or pushes, have returned with, and the messages. */
  function Answered<T>(events: seq<Event<T>>, pops: bool): seq<(nat, Option<T>)> {
    if events == [] then [] else
      var e := events[|events| - 1];
      Answered(events[..|events| - 1], pops) + if Answers(e, pops) then [(e.ticket, e.message)] else []
  }

  function Contents<T>(s: Ring<T>): seq<T>
    requires s.dequeuePos <= |s.log|
  {
    s.log[s.dequeuePos..]
  }

  lemma {:induction false} RunKeepsInv<T>(s: Ring<T>, acts: seq<Action<T>>)
    requires Inv(s)
    ensures Inv(Exec(s, acts))
  {
    if acts != [] {
      RunKeepsInv(s, acts[..|acts| - 1]);
      StepKeepsInv(Exec(s, acts[..|acts| - 1]), acts[|acts| - 1]);
    }
  }

  lemma StepIsFifo<T>(s: Ring<T>, a: Action<T>)
    requires Inv(s)
    ensures Inv(Step(s, a))
    ensures match EventOf(s, a)
            case Enqueue(v) => Contents(Step(s, a)) == Contents(s) + [v] && Step(s, a).log == s.log + [v]
            case Dequeue(v) =>
              Contents(s) != [] && v == Some(Contents(s)[0]) && Contents(Step(s, a)) == Contents(s)[1..] &&
              Step(s, a).log == s.log
            case _ => Contents(Step(s, a)) == Contents(s) && Step(s, a).log == s.log
  {
    StepKeepsInv(s, a);
    if LocalOf(s, a.tid).PushCas? || LocalOf(s, a.tid).PopCas? {
      assert LocalFits(s, s.threads[a.tid]);
      ReadyToClaim(s, LocalOf(s, a.tid).pos);
    }
  }

  /**
   Refinement: in every interleaving of any number of threads the won tickets are a run of a
   sequential FIFO queue, whose contents are the messages of the tickets not yet dequeued.
   */
  lemma {:induction false} RunIsFifo<T>(capacity: nat, rereads: bool, acts: seq<Action<T>>)
    requires capacity >= 2
    ensures var s := Exec(Init(capacity, rereads), acts);
            var events := Trace(Init(capacity, rereads), acts);
            Inv(s) && Fifo(events) == Some(Contents(s)) && Enqueued(events) == s.log && |Contents(s)| <= capacity
  {
    InitInv<T>(capacity, rereads);
    var s0 := Init<T>(capacity, rereads);
    RunKeepsInv(s0, acts);
    if acts != [] {
      var before, a := acts[..|acts| - 1], acts[|acts| - 1];
      RunIsFifo(capacity, rereads, before);
      StepIsFifo(Exec(s0, before), a);
      assert Trace(s0, acts)[..|acts| - 1] == Trace(s0, before) by { TraceLength(s0, before); }
      TraceLength(s0, acts);
    }
  }

  lemma {:induction false} TraceLength<T>(s: Ring<T>, acts: seq<Action<T>>)
    requires |s.cells| > 0
    ensures |Trace(s, acts)| == |acts|
  {
    if acts != [] {
      TraceLength(s, acts[..|acts| - 1]);
    }
  }

  // ----- Every ticket is returned once -----

  function TicketOf<T>(l: Local<T>, pops: bool): Option<nat> {
    if pops then PopTicket(l) else PushTicket(l)
  }

  /** The number of tickets handed out to pops, or to pushes. */
  function Issued<T>(s: Ring<T>, pops: bool): nat {
    if pops then s.dequeuePos else s.enqueuePos
  }

  /** Somebody is inside the operation that has won ticket `p`. */
  ghost predicate Held<T>(s: Ring<T>, pops: bool, p: nat) {
    exists t :: t in s.threads && TicketOf(s.threads[t], pops) == Some(p)
  }

  ghost predicate AnsweredOnce<T>(s: Ring<T>, pops: bool, got: seq<(nat, Option<T>)>) {
    && |s.log| >= Issued(s, pops)
    && (forall i :: 0 <= i < |got| ==>
          got[i].0 < Issued(s, pops) && got[i].1 == Some(s.log[got[i].0]) && !Held(s, pops, got[i].0))
    && (forall i, j :: 0 <= i < j < |got| ==> got[i].0 != got[j].0)
    && (forall p: nat :: p < Issued(s, pops) ==> Held(s, pops, p) || exists i :: 0 <= i < |got| && got[i].0 == p)
  }

  lemma OtherStays<T>(s: Ring<T>, a: Action<T>, u: nat)
    requires |s.cells| > 0 && u != a.tid
    ensures u in Step(s, a).threads <==> u in s.threads
    ensures u in s.threads ==> Step(s, a).threads[u] == s.threads[u]
  {
  }

  lemma OthersStay<T>(s: Ring<T>, a: Action<T>)
    requires |s.cells| > 0
    ensures forall t :: t != a.tid ==> (t in Step(s, a).threads <==> t in s.threads)
    ensures forall t :: t != a.tid && t in s.threads ==> Step(s, a).threads[t] == s.threads[t]
  {
    forall t: nat | t != a.tid
      ensures (t in Step(s, a).threads <==> t in s.threads) &&
              (t in s.threads ==> Step(s, a).threads[t] == s.threads[t])
    {
      OtherStays(s, a, t);
    }
  }

  /** The event hands out a ticket. */
  predicate Wins<T>(e: Event<T>, pops: bool) {
    if pops then e.Dequeue? else e.Enqueue?
  }

  lemma CasTicket<T>(s: Ring<T>, t: nat, spurious: bool, pops: bool, p: nat)
    requires |s.cells| > 0 && (LocalOf(s, t).PushCas? || LocalOf(s, t).PopCas?)
    ensures TicketOf(LocalOf(Run(s, t, spurious), t), pops) == Some(p) <==>
            Wins(EventOf(s, Go(t, spurious)), pops) && p == Issued(s, pops)
  {
  }

  lemma PlainTicket<T>(s: Ring<T>, t: nat, spurious: bool, pops: bool)
    requires |s.cells| > 0 && !LocalOf(s, t).PushCas? && !LocalOf(s, t).PopCas?
    ensures TicketOf(LocalOf(Run(s, t, spurious), t), pops) == TicketOf(LocalOf(s, t), pops)
  {
  }

  lemma OwnTicket<T>(s: Ring<T>, a: Action<T>, pops: bool, p: nat)
    requires |s.cells| > 0
    ensures var e := EventOf(s, a);
            TicketOf(LocalOf(Step(s, a), a.tid), pops) == Some(p) <==>
            (TicketOf(LocalOf(s, a.tid), pops) == Some(p) && !Answers(e, pops)) ||
            (Wins(e, pops) && p == Issued(s, pops))
  {
    if a.Go? {
      if LocalOf(s, a.tid).PushCas? || LocalOf(s, a.tid).PopCas? {
        CasTicket(s, a.tid, a.spurious, pops, p);
      } else {
        PlainTicket(s, a.tid, a.spurious, pops);
      }
    }
  }

  lemma AnswerIsTicket<T>(s: Ring<T>, a: Action<T>, pops: bool)
    requires Inv(s) && Answers(EventOf(s, a), pops)
    ensures var e := EventOf(s, a);
            TicketOf(LocalOf(s, a.tid), pops) == Some(e.ticket) && a.tid in s.threads &&
            e.ticket < Issued(s, pops) && e.message == Some(s.log[e.ticket])
  {
    assert LocalFits(s, s.threads[a.tid]);
  }

  lemma HeldStep<T>(s: Ring<T>, a: Action<T>, pops: bool, p: nat)
    requires Inv(s)
    ensures var e := EventOf(s, a);
            Held(Step(s, a), pops, p) <==>
            (Held(s, pops, p) && !(Answers(e, pops) && e.ticket == p)) || (Wins(e, pops) && p == Issued(s, pops))
  {
    var e := EventOf(s, a);
    OthersStay(s, a);
    OwnTicket(s, a, pops, p);
    if Answers(e, pops) {
      AnswerIsTicket(s, a, pops);
    }
    HeldChange(s, Step(s, a), a.tid, pops, p, Answers(e, pops), Wins(e, pops) && p == Issued(s, pops));
  }

  lemma HeldChange<T>(s: Ring<T>, s': Ring<T>, t: nat, pops: bool, p: nat, answers: bool, wins: bool)
    requires Exclusive(s)
    requires forall u :: u != t ==> (u in s.threads <==> u in s'.threads)
    requires forall u :: u != t && u in s.threads ==> s'.threads[u] == s.threads[u]
    requires TicketOf(LocalOf(s', t), pops) == Some(p) <==>
             (TicketOf(LocalOf(s, t), pops) == Some(p) && !answers) || wins
    ensures Held(s', pops, p) <==> (Held(s, pops, p) && !(answers && TicketOf(LocalOf(s, t), pops) == Some(p))) || wins
  {
    if TicketOf(LocalOf(s', t), pops) == Some(p) {
      assert t in s'.threads;
    }
    if Held(s, pops, p) && !(answers && TicketOf(LocalOf(s, t), pops) == Some(p)) {
      var u :| u in s.threads && TicketOf(s.threads[u], pops) == Some(p);
      assert u in s'.threads && TicketOf(s'.threads[u], pops) == Some(p);
    }
    if Held(s', pops, p) && !wins {
      var u :| u in s'.threads && TicketOf(s'.threads[u], pops) == Some(p);
      assert u in s.threads && TicketOf(s.threads[u], pops) == Some(p);
      assert TicketOf(LocalOf(s, t), pops) == Some(p) ==> u == t by {
        assert t in s.threads && u != t ==> Apart(s.threads[u], s.threads[t]);
      }
    }
  }

  lemma StepAnswersOnce<T>(s: Ring<T>, a: Action<T>, pops: bool, got: seq<(nat, Option<T>)>)
    requires Inv(s) && AnsweredOnce(s, pops, got)
    ensures var e := EventOf(s, a);
            AnsweredOnce(Step(s, a), pops, got + if Answers(e, pops) then [(e.ticket, e.message)] else [])
  {
    var e := EventOf(s, a);
    var s' := Step(s, a);
    var got' := got + if Answers(e, pops) then [(e.ticket, e.message)] else [];
    StepIsFifo(s, a);
    IssuedStep(s, a, pops);
    if Answers(e, pops) {
      AnswerIsTicket(s, a, pops);
      assert Held(s, pops, e.ticket);
    }
    forall i | 0 <= i < |got'|
      ensures got'[i].0 < Issued(s', pops) && got'[i].1 == Some(s'.log[got'[i].0]) && !Held(s', pops, got'[i].0)
    {
      HeldStep(s, a, pops, got'[i].0);
      assert i < |got| ==> got'[i] == got[i];
    }
    forall p: nat | p < Issued(s', pops)
      ensures Held(s', pops, p) || exists i :: 0 <= i < |got'| && got'[i].0 == p
    {
      HeldStep(s, a, pops, p);
      if Answers(e, pops) && e.ticket == p {
        assert got'[|got|].0 == p;
      } else if p < Issued(s, pops) && !Held(s, pops, p) {
        var i :| 0 <= i < |got| && got[i].0 == p;
        assert got'[i].0 == p;
      }
    }
  }

  lemma IssuedStep<T>(s: Ring<T>, a: Action<T>, pops: bool)
    requires |s.cells| > 0
    ensures Issued(Step(s, a), pops) == Issued(s, pops) + if Wins(EventOf(s, a), pops) then 1 else 0
  {
  }

  /**
   Over a whole run every ticket won by a pop is returned at most once, with the message that was
   pushed under that ticket, and every ticket won by a push is reported as accepted at most once,
   with the message given to that push. A ticket not returned belongs to an operation under way.
   */
  lemma {:induction false} RunAnswersOnce<T>(capacity: nat, rereads: bool, acts: seq<Action<T>>, pops: bool)
    requires capacity >= 2
    ensures var s0 := Init<T>(capacity, rereads);
            AnsweredOnce(Exec(s0, acts), pops, Answered(Trace(s0, acts), pops))
  {
    var s0 := Init<T>(capacity, rereads);
    InitInv<T>(capacity, rereads);
    if acts != [] {
      var before, a := acts[..|acts| - 1], acts[|acts| - 1];
      RunAnswersOnce(capacity, rereads, before, pops);
      RunKeepsInv(s0, before);
      StepAnswersOnce(Exec(s0, before), a, pops, Answered(Trace(s0, before), pops));
      TraceLength(s0, before);
      assert Trace(s0, acts)[..|acts| - 1] == Trace(s0, before);
    }
  }

  // ----- Exclusive access, failures and retries -----

  predicate TouchesData<T>(l: Local<T>) {
    l.PushWrite? || l.PopTake?
  }

  /** No two threads are ever about to touch the message object of the same cell. */
  lemma NoDataRace<T>(s: Ring<T>, t: nat, u: nat)
    requires Inv(s) && t in s.threads && u in s.threads && t != u
    requires TouchesData(s.threads[t]) && TouchesData(s.threads[u])
    ensures Slot(s.threads[t].pos, |s.cells|) != Slot(s.threads[u].pos, |s.cells|)
  {
    OwnersDiffer(s, t, u);
  }

  /** Ticket `p` has been handed out and its cell is not yet released for the next lap. */
  predicate Unreleased<T>(s: Ring<T>, p: nat)
    requires |s.cells| > 0
  {
    p < s.enqueuePos && CellAt(s, p).sequence <= p + 1
  }

  /** Ticket `p` has been handed out and its pusher has not published the message yet. */
  ghost predicate Unpublished<T>(s: Ring<T>, p: nat)
    requires |s.cells| > 0
  {
    p < s.enqueuePos && CellAt(s, p).sequence == p && HasPusher(s, p)
  }

  predicate Fails<T>(l: Local<T>) {
    (l.PushEnd? && l.pushed.Refused?) || (l.PopEnd? && l.popped.Nothing?)
  }

  /** The next step of `t` ends its operation without a ticket. */
  predicate GivesUp<T>(s: Ring<T>, t: nat, spurious: bool)
    requires |s.cells| > 0
  {
    !Fails(LocalOf(s, t)) && Fails(LocalOf(Run(s, t, spurious), t))
  }

  predicate AtRest<T>(s: Ring<T>) {
    forall t :: t in s.threads ==> !Owner(s.threads[t])
  }

  /** A push gives up exactly when it looks, its ticket is next and the ticket a lap earlier is unreleased. */
  lemma PushRefusedWhen<T>(s: Ring<T>, t: nat, spurious: bool)
    requires Inv(s) && (Pushing(LocalOf(s, t)) || LocalOf(s, t).PushWrite? || LocalOf(s, t).PushPublish?)
    ensures var l := LocalOf(s, t); var n := |s.cells|;
            GivesUp(s, t, spurious) <==>
            l.PushLook? && l.pos == s.enqueuePos && l.pos >= n && Unreleased(s, l.pos - n)
    ensures GivesUp(s, t, spurious) && AtRest(s) ==> |Contents(s)| == |s.cells|
  {
    if LocalOf(s, t).PushLook? {
      var pos := LocalOf(s, t).pos;
      var n := |s.cells|;
      assert LocalFits(s, s.threads[t]);
      var q := SlotInWindow(pos, s.dequeuePos, n);
      assert CellFits(s, q);
      if pos >= n {
        SlotRepeats(pos - n, n);
      }
    }
  }

  /** A pop gives up exactly when it looks, its ticket is next and the message is not published. */
  lemma PopFindsNothingWhen<T>(s: Ring<T>, t: nat, spurious: bool)
    requires Inv(s) && (Popping(LocalOf(s, t)) || LocalOf(s, t).PopTake? || LocalOf(s, t).PopRelease?)
    ensures var l := LocalOf(s, t);
            GivesUp(s, t, spurious) <==>
            l.PopLook? && l.pos == s.dequeuePos && (l.pos == s.enqueuePos || Unpublished(s, l.pos))
    ensures GivesUp(s, t, spurious) && AtRest(s) ==> Contents(s) == []
  {
    if LocalOf(s, t).PopLook? {
      var pos := LocalOf(s, t).pos;
      assert LocalFits(s, s.threads[t]);
      var q := SlotInWindow(pos, s.dequeuePos, |s.cells|);
      assert CellFits(s, q);
    }
  }

  predicate Pushing<T>(l: Local<T>) {
    l.PushStart? || l.PushLook? || l.PushCas?
  }

  predicate Popping<T>(l: Local<T>) {
    l.PopStart? || l.PopLook? || l.PopCas?
  }

  /** Thread `t` goes round its loop again, not because of a spurious CAS failure. */
  predicate Retries<T>(s: Ring<T>, a: Action<T>, t: nat)
    requires |s.cells| > 0
  {
    && a == Go(t, false)
    && match LocalOf(s, t)
       case PushLook(_, pos) => CellAt(s, pos).sequence > pos
       case PushCas(_, pos) => s.enqueuePos != pos
       case PopLook(pos) => CellAt(s, pos).sequence > pos + 1
       case PopCas(pos) => s.dequeuePos != pos
       case _ => false
  }

  ghost function RetryCount<T>(s: Ring<T>, acts: seq<Action<T>>, t: nat): nat
    requires |s.cells| > 0
  {
    if acts == [] then 0 else
      RetryCount(s, acts[..|acts| - 1], t) + if Retries(Exec(s, acts[..|acts| - 1]), acts[|acts| - 1], t) then 1 else 0
  }

  /** `t` stays inside one push, or one pop, that has not won its ticket. */
  ghost predicate Throughout<T(!new)>(s: Ring<T>, acts: seq<Action<T>>, t: nat, inside: Local<T> -> bool)
    requires |s.cells| > 0
  {
    inside(LocalOf(Exec(s, acts), t)) && (acts == [] || Throughout(s, acts[..|acts| - 1], t, inside))
  }

  /** How far thread `t` has seen the counter it is after. */
  function Seen<T>(s: Ring<T>, t: nat): nat {
    match LocalOf(s, t)
    case PushLook(_, pos) => pos
    case PushCas(_, pos) => pos
    case PopStart => s.dequeuePos
    case PopLook(pos) => pos
    case PopCas(pos) => pos
    case _ => s.enqueuePos
  }

  /** A thread that has to go round again holds a position that others have moved past. */
  lemma RetrySeesProgress<T>(s: Ring<T>, t: nat)
    requires Inv(s) && Retries(s, Go(t, false), t)
    ensures LocalOf(s, t).PushLook? || LocalOf(s, t).PushCas? ==> LocalOf(s, t).pos < s.enqueuePos
    ensures LocalOf(s, t).PopLook? || LocalOf(s, t).PopCas? ==> LocalOf(s, t).pos < s.dequeuePos
  {
    var l := LocalOf(s, t);
    assert LocalFits(s, l);
    if (l.PushLook? && l.pos == s.enqueuePos) || (l.PopLook? && l.pos == s.dequeuePos) {
      ReadyToClaim(s, l.pos);
    }
  }

  lemma SeenGrows<T>(s: Ring<T>, a: Action<T>, t: nat)
    requires Inv(s)
    requires var l, l' := LocalOf(s, t), LocalOf(Step(s, a), t);
             (Pushing(l) && Pushing(l')) || (Popping(l) && Popping(l'))
    ensures Seen(Step(s, a), t) >= Seen(s, t) + if Retries(s, a, t) then 1 else 0
  {
    if a.tid == t {
      if Retries(s, a, t) {
        RetrySeesProgress(s, t);
      }
      assert LocalFits(s, LocalOf(s, t));
    } else {
      OthersStay(s, a);
      CountersGrow(s, a);
    }
  }

  lemma CountersGrow<T>(s: Ring<T>, a: Action<T>)
    requires |s.cells| > 0
    ensures Step(s, a).enqueuePos >= s.enqueuePos && Step(s, a).dequeuePos >= s.dequeuePos
  {
  }

  /** Lock-freedom: each retry of a push is paid for by a ticket that another push has won. */
  lemma {:induction false} PushRetriesArePaidFor<T(!new)>(s: Ring<T>, acts: seq<Action<T>>, t: nat)
    requires Inv(s) && LocalOf(s, t).PushStart? && Throughout(s, acts, t, Pushing)
    ensures RetryCount(s, acts, t) <= Seen(Exec(s, acts), t) - s.enqueuePos <= Exec(s, acts).enqueuePos - s.enqueuePos
  {
    RunKeepsInv(s, acts);
    assert LocalFits(Exec(s, acts), LocalOf(Exec(s, acts), t));
    if acts != [] {
      var before := acts[..|acts| - 1];
      PushRetriesArePaidFor(s, before, t);
      RunKeepsInv(s, before);
      SeenGrows(Exec(s, before), acts[|acts| - 1], t);
    }
  }

  /** The same for pops. */
  lemma {:induction false} PopRetriesArePaidFor<T(!new)>(s: Ring<T>, acts: seq<Action<T>>, t: nat)
    requires Inv(s) && LocalOf(s, t).PopStart? && Throughout(s, acts, t, Popping)
    ensures RetryCount(s, acts, t) <= Seen(Exec(s, acts), t) - s.dequeuePos <= Exec(s, acts).dequeuePos - s.dequeuePos
  {
    RunKeepsInv(s, acts);
    assert LocalFits(Exec(s, acts), LocalOf(Exec(s, acts), t));
    if acts != [] {
      var before := acts[..|acts| - 1];
      PopRetriesArePaidFor(s, before, t);
      RunKeepsInv(s, before);
      SeenGrows(Exec(s, before), acts[|acts| - 1], t);
    }
  }

  /**
   Undisturbed after a failed CAS, a push is back at its CAS with the current position after one more
   look; the version that rereads loads the counter again before that.
   */
  lemma LostPushCas<T>(s: Ring<T>, t: nat, spurious: bool)
    requires |s.cells| > 0 && LocalOf(s, t).PushCas? && CellAt(s, s.enqueuePos).sequence == s.enqueuePos
    requires LocalOf(s, t).pos != s.enqueuePos || spurious
    ensures var s2 := Run(Run(s, t, spurious), t, false);
            LocalOf(if s.rereads then Run(s2, t, false) else s2, t) == PushCas(LocalOf(s, t).msg, s.enqueuePos)
  {
  }

  /** The same for pops. */
  lemma LostPopCas<T>(s: Ring<T>, t: nat, spurious: bool)
    requires |s.cells| > 0 && LocalOf(s, t).PopCas? && CellAt(s, s.dequeuePos).sequence == s.dequeuePos + 1
    requires LocalOf(s, t).pos != s.dequeuePos || spurious
    ensures var s2 := Run(Run(s, t, spurious), t, false);
            LocalOf(if s.rereads then Run(s2, t, false) else s2, t) == PopCas(s.dequeuePos)
  {
  }

  // ----- One cell is not enough -----

  /** The static check admits one cell, but the protocol bounds the queue only from two cells on. */
  lemma CapacityMatters(capacity: nat, rereads: bool)
    requires capacity >= 1
    ensures capacity >= 2 <==>
            forall acts: seq<Action<int>> ::
              var s := Exec(Init(capacity, rereads), acts); s.enqueuePos <= s.dequeuePos + capacity
  {
    if capacity >= 2 {
      forall acts: seq<Action<int>>
        ensures var s := Exec(Init(capacity, rereads), acts); s.enqueuePos <= s.dequeuePos + capacity
      {
        RunIsFifo(capacity, rereads, acts);
      }
    } else {
      var acts := OverwritingRun(rereads);
      assert Exec(Init(capacity, rereads), acts).enqueuePos > 1;
    }
  }

  /** With one cell a second push finds the cell of the first "free" and overwrites its message. */
  lemma OverwritingRun(rereads: bool) returns (acts: seq<Action<int>>)
    ensures var s := Exec(Init(1, rereads), acts);
            s.enqueuePos == 2 && s.dequeuePos == 0 && s.cells[0].data == Some(8)
  {
    var s0 := Init<int>(1, rereads);
    PushAlone(s0, 0, 7);
    var s1 := Exec(s0, PushActs(0, 7));
    PushAlone(s1, 1, 8);
    ExecConcat(s0, PushActs(0, 7), PushActs(1, 8));
    acts := PushActs(0, 7) + PushActs(1, 8);
  }

  // ----- Operations without interference -----

  lemma ExecNext<T>(s: Ring<T>, acts: seq<Action<T>>, a: Action<T>)
    requires |s.cells| > 0
    ensures Exec(s, acts + [a]) == Step(Exec(s, acts), a)
  {
    assert (acts + [a])[..|acts|] == acts;
  }

  lemma {:induction false} ExecConcat<T>(s: Ring<T>, acts: seq<Action<T>>, more: seq<Action<T>>)
    requires |s.cells| > 0
    ensures Exec(s, acts + more) == Exec(Exec(s, acts), more)
  {
    if more == [] {
      assert acts + more == acts;
    } else {
      ExecConcat(s, acts, more[..|more| - 1]);
      assert (acts + more)[..|acts + more| - 1] == acts + more[..|more| - 1];
    }
  }

  function PushActs<T>(t: nat, msg: T): seq<Action<T>> {
    [CallPush(t, msg), Go(t, false), Go(t, false), Go(t, false), Go(t, false), Go(t, false), Return(t)]
  }

  function PopActs<T>(t: nat): seq<Action<T>> {
    [CallPop(t), Go(t, false), Go(t, false), Go(t, false), Go(t, false), Go(t, false), Return(t)]
  }

  lemma ExecTo<T>(s: Ring<T>, acts: seq<Action<T>>, s1: Ring<T>, a: Action<T>, s2: Ring<T>)
    requires |s.cells| == |s1.cells| > 0 && Exec(s, acts) == s1 && Step(s1, a) == s2
    ensures Exec(s, acts + [a]) == s2
  {
    ExecNext(s, acts, a);
  }

  lemma Listed<A>(a: A, b: A, c: A)
    ensures [] + [a] == [a] && [a] + [b] == [a, b] && [a, b] + [c] == [a, b, c]
  {
  }

  lemma PushLoads<T>(s: Ring<T>, t: nat, msg: T)
    requires |s.cells| > 0 && LocalOf(s, t).Idle? && CellAt(s, s.enqueuePos).sequence == s.enqueuePos
    ensures Exec(s, [CallPush(t, msg), Go(t, false), Go(t, false)]) == Move(s, t, PushCas(msg, s.enqueuePos))
  {
    var s1, s2, s3 := Move(s, t, PushStart(msg)), Move(s, t, PushLook(msg, s.enqueuePos)),
                      Move(s, t, PushCas(msg, s.enqueuePos));
    assert Run(s1, t, false) == s2;
    assert Run(s2, t, false) == s3;
    Listed<Action<T>>(CallPush(t, msg), Go(t, false), Go(t, false));
    ExecTo(s, [], s, CallPush(t, msg), s1);
    ExecTo(s, [CallPush(t, msg)], s1, Go(t, false), s2);
    ExecTo(s, [CallPush(t, msg), Go(t, false)], s2, Go(t, false), s3);
  }

  lemma LastWriteWins<T>(s: Ring<T>, p: nat, t: nat, c: Cell<T>, l: Local<T>, d: Cell<T>, m: Local<T>)
    requires |s.cells| > 0
    ensures Move(SetCell(Move(SetCell(s, p, c), t, l), p, d), t, m) == Move(SetCell(s, p, d), t, m)
    ensures Move(Move(SetCell(s, p, d), t, m), t, Idle) == Move(SetCell(s, p, d), t, Idle)
    ensures CellAt(Move(SetCell(s, p, c), t, l), p) == c
  {
  }

  lemma PushStores<T>(s: Ring<T>, t: nat, msg: T, p: nat)
    requires |s.cells| > 0 && LocalOf(s, t) == PushWrite(msg, p) && CellAt(s, p).sequence == p
    ensures Exec(s, [Go(t, false), Go(t, false), Return(t)]) ==
            Move(SetCell(s, p, Cell(p + 1, Some(msg))), t, Idle)
  {
    var s1 := Move(SetCell(s, p, Cell(p, Some(msg))), t, PushPublish(msg, p));
    var s2 := Move(SetCell(s1, p, Cell(p + 1, Some(msg))), t, PushEnd(msg, Accepted(p)));
    LastWriteWins(s, p, t, Cell(p, Some(msg)), PushPublish(msg, p), Cell(p + 1, Some(msg)), PushEnd(msg, Accepted(p)));
    assert Run(s, t, false) == s1;
    assert Run(s1, t, false) == s2;
    Listed<Action<T>>(Go(t, false), Go(t, false), Return(t));
    ExecTo(s, [], s, Go(t, false), s1);
    ExecTo(s, [Go(t, false)], s1, Go(t, false), s2);
    ExecTo(s, [Go(t, false), Go(t, false)], s2, Return(t), Move(s2, t, Idle));
  }

  lemma PopLoads<T>(s: Ring<T>, t: nat)
    requires |s.cells| > 0 && LocalOf(s, t).Idle? && CellAt(s, s.dequeuePos).sequence == s.dequeuePos + 1
    ensures Exec(s, [CallPop(t), Go(t, false), Go(t, false)]) == Move(s, t, PopCas(s.dequeuePos))
  {
    var s1, s2, s3 := Move(s, t, PopStart), Move(s, t, PopLook(s.dequeuePos)), Move(s, t, PopCas(s.dequeuePos));
    assert Run(s1, t, false) == s2;
    assert Run(s2, t, false) == s3;
    Listed<Action<T>>(CallPop(t), Go(t, false), Go(t, false));
    ExecTo(s, [], s, CallPop(t), s1);
    ExecTo(s, [CallPop(t)], s1, Go(t, false), s2);
    ExecTo(s, [CallPop(t), Go(t, false)], s2, Go(t, false), s3);
  }

  lemma MoveTwice<T>(s: Ring<T>, t: nat, l: Local<T>, m: Local<T>)
    ensures Move(Move(s, t, l), t, m) == Move(s, t, m)
  {
    assert s.threads[t := l][t := m] == s.threads[t := m];
  }

  lemma PopTakes<T>(s: Ring<T>, t: nat, p: nat)
    requires |s.cells| > 0 && LocalOf(s, t) == PopTake(p)
    ensures Run(s, t, false) ==
            Move(SetCell(s, p, Cell(CellAt(s, p).sequence, None)), t, PopRelease(p, CellAt(s, p).data))
  {
  }

  lemma PopReleases<T>(s: Ring<T>, t: nat, p: nat, c: Cell<T>, data: Option<T>)
    requires |s.cells| > 0 && c.data.None?
    ensures Run(Move(SetCell(s, p, c), t, PopRelease(p, data)), t, false) ==
            Move(SetCell(s, p, Cell(p + |s.cells|, None)), t, PopEnd(Got(p, data)))
  {
    LastWriteWins(s, p, t, c, PopRelease(p, data), Cell(p + |s.cells|, None), PopEnd(Got(p, data)));
  }

  lemma PopStores<T>(s: Ring<T>, t: nat, p: nat)
    requires |s.cells| > 0 && LocalOf(s, t) == PopTake(p)
    ensures Exec(s, [Go(t, false), Go(t, false), Return(t)]) ==
            Move(SetCell(s, p, Cell(p + |s.cells|, None)), t, Idle)
  {
    var data := CellAt(s, p).data;
    var emptied := Cell(CellAt(s, p).sequence, None);
    var s1 := Move(SetCell(s, p, emptied), t, PopRelease(p, data));
    var s2 := Move(SetCell(s, p, Cell(p + |s.cells|, None)), t, PopEnd(Got(p, data)));
    PopTakes(s, t, p);
    PopReleases(s, t, p, emptied, data);
    MoveTwice(SetCell(s, p, Cell(p + |s.cells|, None)), t, PopEnd(Got(p, data)), Idle);
    Listed<Action<T>>(Go(t, false), Go(t, false), Return(t));
    ExecTo(s, [], s, Go(t, false), s1);
    ExecTo(s, [Go(t, false)], s1, Go(t, false), s2);
    ExecTo(s, [Go(t, false), Go(t, false)], s2, Return(t), Move(s2, t, Idle));
  }

  lemma PushAlone<T>(s: Ring<T>, t: nat, msg: T)
    requires |s.cells| > 0 && LocalOf(s, t).Idle? && CellAt(s, s.enqueuePos).sequence == s.enqueuePos
    ensures Exec(s, PushActs(t, msg)) ==
            Move(SetCell(s, s.enqueuePos, Cell(s.enqueuePos + 1, Some(msg))), t, Idle)
            .(enqueuePos := s.enqueuePos + 1, log := s.log + [msg])
  {
    var go: Action<T> := Go(t, false);
    var loads, stores := [CallPush(t, msg), go, go], [go, go, Return(t)];
    PushLoads(s, t, msg);
    var s3 := Exec(s, loads);
    ExecNext(s, loads, go);
    var s4 := Run(s3, t, false);
    assert s4 == Move(s, t, PushWrite(msg, s.enqueuePos)).(enqueuePos := s.enqueuePos + 1, log := s.log + [msg]);
    PushStores(s4, t, msg, s.enqueuePos);
    ExecConcat(s, loads + [go], stores);
    assert PushActs(t, msg) == loads + [go] + stores;
  }

  lemma PopAlone<T>(s: Ring<T>, t: nat)
    requires |s.cells| > 0 && LocalOf(s, t).Idle? && CellAt(s, s.dequeuePos).sequence == s.dequeuePos + 1
    ensures Exec(s, PopActs(t)) ==
            Move(SetCell(s, s.dequeuePos, Cell(s.dequeuePos + |s.cells|, None)), t, Idle)
            .(dequeuePos := s.dequeuePos + 1)
  {
    var go: Action<T> := Go(t, false);
    var loads, stores := [CallPop(t), go, go], [go, go, Return(t)];
    PopLoads(s, t);
    var s3 := Exec(s, loads);
    ExecNext(s, loads, go);
    var s4 := Run(s3, t, false);
    PopStores(s4, t, s.dequeuePos);
    ExecConcat(s, loads + [go], stores);
    assert PopActs<T>(t) == loads + [go] + stores;
  }
}
