/**
 The bounded ring queue as a step system: every atomic load, CAS, data access and
 store of `push` and `pop` is one step of one of any number of threads.
 Counters are unbounded here; RingWidth relates them to machine words.
 */
module Ring {
  import opened Common

  /** `data` is None when the cell holds a default-constructed or moved-from object. */
  datatype Cell<T> = Cell(sequence: nat, data: Option<T>)

  datatype Pushed = Refused | Accepted(ticket: nat)

  datatype Popped<T> = Nothing | Got(ticket: nat, value: Option<T>)

  /** Where a thread is inside push or pop, with the locals that are live there. */
  datatype Local<T> =
    | Idle
    | PushStart(msg: T)
    | PushLook(msg: T, pos: nat)
    | PushCas(msg: T, pos: nat)
    | PushWrite(msg: T, pos: nat)
    | PushPublish(msg: T, pos: nat)
    | PushEnd(msg: T, pushed: Pushed)
    | PopStart
    | PopLook(pos: nat)
    | PopCas(pos: nat)
    | PopTake(pos: nat)
    | PopRelease(pos: nat, taken: Option<T>)
    | PopEnd(popped: Popped<T>)

  /**
   `rereads` tells the two versions of the queue apart: after a failed CAS the sized one
   loads the counter again, the other one keeps the value the CAS stored in `pos`.
   `log` records the message of every ticket handed out to a pusher.
   */
  datatype Ring<T> = Ring(rereads: bool, cells: seq<Cell<T>>, enqueuePos: nat, dequeuePos: nat,
                          threads: map<nat, Local<T>>, log: seq<T>)

  /** `Go` lets a thread take its next step; a weak CAS may fail spuriously. */
  datatype Action<T> =
    | CallPush(tid: nat, msg: T)
    | CallPop(tid: nat)
    | Go(tid: nat, spurious: bool)
    | Return(tid: nat)

  function Init<T>(capacity: nat, rereads: bool): Ring<T> {
    Ring(rereads, seq(capacity, i requires 0 <= i => Cell(i, None)), 0, 0, map[], [])
  }

  function LocalOf<T>(s: Ring<T>, t: nat): Local<T> {
    if t in s.threads then s.threads[t] else Idle
  }

  function CellAt<T>(s: Ring<T>, p: nat): Cell<T>
    requires |s.cells| > 0
  {
    s.cells[Slot(p, |s.cells|)]
  }

  function SetCell<T>(s: Ring<T>, p: nat, c: Cell<T>): Ring<T>
    requires |s.cells| > 0
  {
    s.(cells := s.cells[Slot(p, |s.cells|) := c])
  }

  function Move<T>(s: Ring<T>, t: nat, l: Local<T>): Ring<T> {
    s.(threads := s.threads[t := l])
  }

  function Run<T>(s: Ring<T>, t: nat, spurious: bool): (s': Ring<T>)
    requires |s.cells| > 0
    ensures |s'.cells| == |s.cells|
  {
    match LocalOf(s, t)
    case Idle => s
    case PushStart(msg) => Move(s, t, PushLook(msg, s.enqueuePos))
    case PushLook(msg, pos) =>
      var dif := CellAt(s, pos).sequence - pos;
      if dif == 0 then Move(s, t, PushCas(msg, pos))
      else if dif < 0 then Move(s, t, PushEnd(msg, Refused))
      else Move(s, t, PushStart(msg))
    case PushCas(msg, pos) =>
      if s.enqueuePos == pos && !spurious then
        Move(s, t, PushWrite(msg, pos)).(enqueuePos := pos + 1, log := s.log + [msg])
      else if s.rereads then Move(s, t, PushStart(msg))
      else Move(s, t, PushLook(msg, s.enqueuePos))
    case PushWrite(msg, pos) =>
      Move(SetCell(s, pos, CellAt(s, pos).(data := Some(msg))), t, PushPublish(msg, pos))
    case PushPublish(msg, pos) =>
      Move(SetCell(s, pos, CellAt(s, pos).(sequence := pos + 1)), t, PushEnd(msg, Accepted(pos)))
    case PushEnd(_, _) => s
    case PopStart => Move(s, t, PopLook(s.dequeuePos))
    case PopLook(pos) =>
      var dif := CellAt(s, pos).sequence - (pos + 1);
      if dif == 0 then Move(s, t, PopCas(pos))
      else if dif < 0 then Move(s, t, PopEnd(Nothing))
      else Move(s, t, PopStart)
    case PopCas(pos) =>
      if s.dequeuePos == pos && !spurious then
        Move(s, t, PopTake(pos)).(dequeuePos := pos + 1)
      else if s.rereads then Move(s, t, PopStart)
      else Move(s, t, PopLook(s.dequeuePos))
    case PopTake(pos) =>
      var c := CellAt(s, pos);
      Move(SetCell(s, pos, c.(data := None)), t, PopRelease(pos, c.data))
    case PopRelease(pos, taken) =>
      Move(SetCell(s, pos, CellAt(s, pos).(sequence := pos + |s.cells|)), t, PopEnd(Got(pos, taken)))
    case PopEnd(_) => s
  }

  /** One step of the system; an action that is not possible leaves the state as it is. */
  function Step<T>(s: Ring<T>, a: Action<T>): (s': Ring<T>)
    requires |s.cells| > 0
    ensures |s'.cells| == |s.cells|
  {
    match a
    case CallPush(t, msg) => if LocalOf(s, t).Idle? then Move(s, t, PushStart(msg)) else s
    case CallPop(t) => if LocalOf(s, t).Idle? then Move(s, t, PopStart) else s
    case Go(t, spurious) => Run(s, t, spurious)
    case Return(t) => if LocalOf(s, t).PushEnd? || LocalOf(s, t).PopEnd? then Move(s, t, Idle) else s
  }

  // ----- The invariant -----

  predicate Owner<T>(l: Local<T>) {
    l.PushWrite? || l.PushPublish? || l.PopTake? || l.PopRelease?
  }

  predicate PushOwns<T>(l: Local<T>, p: nat) {
    (l.PushWrite? || l.PushPublish?) && l.pos == p
  }

  predicate PopOwns<T>(l: Local<T>, p: nat) {
    (l.PopTake? || l.PopRelease?) && l.pos == p
  }

  ghost predicate HasPusher<T>(s: Ring<T>, p: nat) {
    exists t :: t in s.threads && PushOwns(s.threads[t], p)
  }

  ghost predicate HasPopper<T>(s: Ring<T>, p: nat) {
    exists t :: t in s.threads && PopOwns(s.threads[t], p)
  }

  predicate Counters<T>(s: Ring<T>) {
    |s.cells| >= 2 && |s.log| == s.enqueuePos && s.dequeuePos <= s.enqueuePos <= s.dequeuePos + |s.cells|
  }

  /**
   The cell of ticket `p`, for a ticket less than a lap past the next one to dequeue, is
   free or being filled for `p`, or holds the message of `p`, or still belongs to the popper
   of the ticket one lap earlier.
   */
  ghost predicate CellFits<T>(s: Ring<T>, p: nat)
    requires Counters(s)
  {
    var c := CellAt(s, p);
    var n := |s.cells|;
    || (c.sequence == p && (p < s.enqueuePos ==> HasPusher(s, p)))
    || (c.sequence == p + 1 && p < s.enqueuePos && c.data == Some(s.log[p]))
    || (c.sequence == p - n + 1 && p >= s.enqueuePos && p >= n && HasPopper(s, p - n))
  }

  ghost predicate LocalFits<T>(s: Ring<T>, l: Local<T>)
    requires Counters(s)
  {
    match l
    case PushLook(_, pos) => pos <= s.enqueuePos
    case PushCas(_, pos) => pos <= s.enqueuePos && CellAt(s, pos).sequence >= pos
    case PushWrite(msg, pos) =>
      pos < s.enqueuePos && s.log[pos] == msg && CellAt(s, pos).sequence == pos
    case PushPublish(msg, pos) =>
      pos < s.enqueuePos && s.log[pos] == msg && CellAt(s, pos) == Cell(pos, Some(msg))
    case PushEnd(msg, Accepted(pos)) => pos < s.enqueuePos && s.log[pos] == msg
    case PopLook(pos) => pos <= s.dequeuePos
    case PopCas(pos) => pos <= s.dequeuePos && CellAt(s, pos).sequence >= pos + 1
    case PopTake(pos) =>
      pos < s.dequeuePos && CellAt(s, pos) == Cell(pos + 1, Some(s.log[pos]))
    case PopRelease(pos, taken) =>
      pos < s.dequeuePos && CellAt(s, pos).sequence == pos + 1 && taken == Some(s.log[pos])
    case PopEnd(Got(pos, value)) => pos < s.dequeuePos && value == Some(s.log[pos])
    case _ => true
  }

  ghost predicate Exclusive<T>(s: Ring<T>) {
    && (forall t, u :: t in s.threads && u in s.threads && t != u ==> Apart(s.threads[t], s.threads[u]))
  }

  /** The ticket a thread won in its current operation. */
  function PushTicket<T>(l: Local<T>): Option<nat> {
    if l.PushWrite? || l.PushPublish? then Some(l.pos)
    else if l.PushEnd? && l.pushed.Accepted? then Some(l.pushed.ticket)
    else None
  }

  function PopTicket<T>(l: Local<T>): Option<nat> {
    if l.PopTake? || l.PopRelease? then Some(l.pos)
    else if l.PopEnd? && l.popped.Got? then Some(l.popped.ticket)
    else None
  }

  predicate Apart<T>(l: Local<T>, m: Local<T>) {
    && (PushTicket(l).Some? ==> PushTicket(l) != PushTicket(m))
    && (PopTicket(l).Some? ==> PopTicket(l) != PopTicket(m))
  }

  ghost predicate Inv<T>(s: Ring<T>) {
    && Counters(s)
    && (forall p: nat :: s.dequeuePos <= p < s.dequeuePos + |s.cells| ==> CellFits(s, p))
    && (forall t :: t in s.threads ==> LocalFits(s, s.threads[t]))
    && Exclusive(s)
  }

  lemma InitInv<T>(capacity: nat, rereads: bool)
    requires capacity >= 2
    ensures Inv(Init<T>(capacity, rereads))
  {
    var s := Init<T>(capacity, rereads);
    forall p: nat | 0 <= p < capacity ensures CellFits(s, p) {
      assert Slot(p, capacity) == p;
    }
  }

  /** A move of one thread that owns no cell, before or after, and touches nothing else. */
  lemma MoveKeepsInv<T>(s: Ring<T>, t: nat, l: Local<T>)
    requires Inv(s) && LocalFits(s, l)
    requires !Owner(LocalOf(s, t)) && PushTicket(l).None? && PopTicket(l).None?
    ensures Inv(Move(s, t, l))
  {
    var s' := Move(s, t, l);
    OwnersStay(s, s', t);
    forall p: nat | s.dequeuePos <= p < s.dequeuePos + |s.cells| ensures CellFits(s', p) {
      assert CellFits(s, p);
    }
    forall u | u in s'.threads ensures LocalFits(s', s'.threads[u]) {
      assert u != t ==> LocalFits(s, s.threads[u]);
    }
    forall u, v | u in s'.threads && v in s'.threads && u != v ensures Apart(s'.threads[u], s'.threads[v]) {
      assert u != t && v != t ==> Apart(s.threads[u], s.threads[v]);
    }
  }

  lemma OwnersStay<T>(s: Ring<T>, s': Ring<T>, t: nat)
    requires s'.threads == s.threads[t := LocalOf(s', t)]
    ensures forall p: nat :: HasPusher(s, p) && !PushOwns(LocalOf(s, t), p) ==> HasPusher(s', p)
    ensures forall p: nat :: HasPopper(s, p) && !PopOwns(LocalOf(s, t), p) ==> HasPopper(s', p)
    ensures forall p: nat :: PushOwns(LocalOf(s', t), p) ==> HasPusher(s', p)
    ensures forall p: nat :: PopOwns(LocalOf(s', t), p) ==> HasPopper(s', p)
  {
    forall p: nat | HasPusher(s, p) && !PushOwns(LocalOf(s, t), p) ensures HasPusher(s', p) {
      var u :| u in s.threads && PushOwns(s.threads[u], p);
      assert u in s'.threads && PushOwns(s'.threads[u], p);
    }
    forall p: nat | HasPopper(s, p) && !PopOwns(LocalOf(s, t), p) ensures HasPopper(s', p) {
      var u :| u in s.threads && PopOwns(s.threads[u], p);
      assert u in s'.threads && PopOwns(s'.threads[u], p);
    }
  }

  /** If ticket `pos` is next and its cell was seen ready, it is still ready. */
  lemma ReadyToClaim<T>(s: Ring<T>, pos: nat)
    requires Inv(s)
    ensures pos == s.enqueuePos && CellAt(s, pos).sequence >= pos ==>
              CellAt(s, pos).sequence == pos && pos < s.dequeuePos + |s.cells|
    ensures pos == s.dequeuePos && CellAt(s, pos).sequence >= pos + 1 ==>
              CellAt(s, pos) == Cell(pos + 1, Some(s.log[pos])) && pos < s.enqueuePos
  {
    var n := |s.cells|;
    if pos == s.enqueuePos {
      if pos == s.dequeuePos + n {
        assert CellFits(s, s.dequeuePos);
        SlotRepeats(s.dequeuePos, n);
      } else {
        assert CellFits(s, pos);
      }
    }
    if pos == s.dequeuePos {
      assert CellFits(s, pos);
    }
  }

  lemma ClaimPushKeepsInv<T>(s: Ring<T>, t: nat)
    requires Inv(s) && LocalOf(s, t).PushCas? && LocalOf(s, t).pos == s.enqueuePos
    ensures Inv(Run(s, t, false))
  {
    var s' := Run(s, t, false);
    ReadyToClaim(s, s.enqueuePos);
    OwnersStay(s, s', t);
    forall p: nat | s'.dequeuePos <= p < s'.dequeuePos + |s.cells| ensures CellFits(s', p) {
      assert CellFits(s, p);
    }
    forall u | u in s'.threads ensures LocalFits(s', s'.threads[u]) {
      assert u != t ==> LocalFits(s, s.threads[u]);
    }
    NewTicketKeepsExclusive(s, s', t);
  }

  lemma ClaimPopKeepsInv<T>(s: Ring<T>, t: nat)
    requires Inv(s) && LocalOf(s, t).PopCas? && LocalOf(s, t).pos == s.dequeuePos
    ensures Inv(Run(s, t, false))
  {
    var s' := Run(s, t, false);
    var pos := s.dequeuePos;
    var n := |s.cells|;
    assert LocalFits(s, s.threads[t]);
    ReadyToClaim(s, pos);
    OwnersStay(s, s', t);
    SlotRepeats(pos, n);
    forall p: nat | s'.dequeuePos <= p < s'.dequeuePos + n ensures CellFits(s', p) {
      assert p != pos + n ==> CellFits(s, p);
    }
    forall u | u in s'.threads ensures LocalFits(s', s'.threads[u]) {
      assert u != t ==> LocalFits(s, s.threads[u]);
    }
    NewTicketKeepsExclusive(s, s', t);
  }

  /** The ticket just won lies past those of all other threads. */
  lemma NewTicketKeepsExclusive<T>(s: Ring<T>, s': Ring<T>, t: nat)
    requires Counters(s) && Exclusive(s) && (forall u :: u in s.threads ==> LocalFits(s, s.threads[u]))
    requires t in s'.threads && s'.threads == s.threads[t := s'.threads[t]]
    requires PushTicket(s'.threads[t]) in {None, Some(s.enqueuePos)}
    requires PopTicket(s'.threads[t]) in {None, Some(s.dequeuePos)}
    ensures Exclusive(s')
  {
    forall u, v | u in s'.threads && v in s'.threads && u != v ensures Apart(s'.threads[u], s'.threads[v]) {
      assert u != t ==> LocalFits(s, s.threads[u]);
      assert v != t ==> LocalFits(s, s.threads[v]);
      assert u != t && v != t ==> Apart(s.threads[u], s.threads[v]);
    }
  }

  /** A pusher owns a ticket of the current window; the popper of `pos` keeps the next lap out. */
  lemma OwnedTickets<T>(s: Ring<T>, t: nat)
    requires Inv(s)
    ensures var l := LocalOf(s, t); l.PushWrite? || l.PushPublish? ==> s.dequeuePos <= l.pos < s.dequeuePos + |s.cells|
    ensures var l := LocalOf(s, t);
            l.PopTake? || l.PopRelease? ==> s.dequeuePos <= l.pos + |s.cells| && s.enqueuePos <= l.pos + |s.cells|
  {
    var l := LocalOf(s, t);
    var n := |s.cells|;
    if l.PushWrite? || l.PushPublish? || l.PopTake? || l.PopRelease? {
      assert LocalFits(s, l);
      var q := SlotInWindow(l.pos, s.dequeuePos, n);
      assert CellFits(s, q);
    }
  }

  /** The ticket whose window cell the owner `l` works on. */
  function Current<T>(l: Local<T>, n: nat): nat
    requires Owner(l)
  {
    if l.PushWrite? || l.PushPublish? then l.pos else l.pos + n
  }

  lemma OwnCell<T>(s: Ring<T>, t: nat)
    requires Inv(s) && t in s.threads && Owner(s.threads[t])
    ensures var q := Current(s.threads[t], |s.cells|);
            s.dequeuePos <= q < s.dequeuePos + |s.cells| && CellAt(s, q) == CellAt(s, s.threads[t].pos)
    ensures s.threads[t].PopTake? || s.threads[t].PopRelease? ==> s.enqueuePos <= s.threads[t].pos + |s.cells|
  {
    var l := s.threads[t];
    OwnedTickets(s, t);
    assert LocalFits(s, l);
    SlotRepeats(l.pos, |s.cells|);
  }

  /** Owners at work own different cells. */
  lemma OwnersDiffer<T>(s: Ring<T>, t: nat, u: nat)
    requires Inv(s) && t in s.threads && u in s.threads && t != u && Owner(s.threads[t]) && Owner(s.threads[u])
    ensures Slot(s.threads[t].pos, |s.cells|) != Slot(s.threads[u].pos, |s.cells|)
  {
    var n := |s.cells|;
    OwnCell(s, t);
    OwnCell(s, u);
    assert LocalFits(s, s.threads[t]) && LocalFits(s, s.threads[u]) && Apart(s.threads[t], s.threads[u]);
    var p, q := Current(s.threads[t], n), Current(s.threads[u], n);
    SlotRepeats(s.threads[t].pos, n);
    SlotRepeats(s.threads[u].pos, n);
    if p != q {
      SlotsDiffer(p, q, n);
    }
  }

  /** What a thread relies on survives a write to a cell it does not own, if sequences only grow. */
  lemma WriteKeepsLocal<T>(s: Ring<T>, s': Ring<T>, j: nat, m: Local<T>)
    requires Counters(s) && LocalFits(s, m)
    requires j < |s.cells| == |s'.cells| && s' == s.(cells := s'.cells, threads := s'.threads)
    requires s'.cells == s.cells[j := s'.cells[j]]
    requires s.cells[j].sequence <= s'.cells[j].sequence
    requires Owner(m) ==> Slot(m.pos, |s.cells|) != j
    ensures LocalFits(s', m)
  {
  }

  /** An owner's write to its own cell leaves every cell of the window in order. */
  lemma WriteKeepsCell<T>(s: Ring<T>, t: nat, p: nat)
    requires Inv(s) && t in s.threads && Owner(s.threads[t])
    requires s.dequeuePos <= p < s.dequeuePos + |s.cells| && p != Current(s.threads[t], |s.cells|)
    requires Counters(Run(s, t, false))
    ensures CellFits(Run(s, t, false), p)
  {
    OwnCell(s, t);
    SlotRepeats(s.threads[t].pos, |s.cells|);
    assert CellFits(s, p);
    SlotsDiffer(p, Current(s.threads[t], |s.cells|), |s.cells|);
    WriteSparesCell(s, t, p);
    OwnersStay(s, Run(s, t, false), t);
    SparedCellFits(s, Run(s, t, false), p);
  }

  lemma WriteSparesCell<T>(s: Ring<T>, t: nat, p: nat)
    requires |s.cells| > 0 && t in s.threads && Owner(s.threads[t])
    requires Slot(p, |s.cells|) != Slot(s.threads[t].pos, |s.cells|)
    ensures var s' := Run(s, t, false);
            && CellAt(s', p) == CellAt(s, p) && s' == s.(cells := s'.cells, threads := s'.threads)
            && s'.threads == s.threads[t := LocalOf(s', t)]
  {
  }

  lemma SparedCellFits<T>(s: Ring<T>, s': Ring<T>, p: nat)
    requires Counters(s) && Counters(s') && CellFits(s, p) && |s'.cells| == |s.cells| && CellAt(s', p) == CellAt(s, p)
    requires s' == s.(cells := s'.cells, threads := s'.threads)
    requires HasPusher(s, p) ==> HasPusher(s', p)
    requires p >= |s.cells| && HasPopper(s, p - |s.cells|) ==> HasPopper(s', p - |s.cells|)
    ensures CellFits(s', p)
  {
  }

  lemma WriteKeepsOwnCell<T>(s: Ring<T>, t: nat)
    requires Inv(s) && t in s.threads && Owner(s.threads[t])
    requires Counters(Run(s, t, false))
    ensures CellFits(Run(s, t, false), Current(s.threads[t], |s.cells|))
  {
    var l := s.threads[t];
    assert LocalFits(s, l);
    OwnCell(s, t);
    OwnersStay(s, Run(s, t, false), t);
    SlotRepeats(l.pos, |s.cells|);
  }

  lemma WriteKeepsOwn<T>(s: Ring<T>, t: nat)
    requires Inv(s) && t in s.threads && Owner(s.threads[t])
    ensures var s' := Run(s, t, false); Counters(s') && LocalFits(s', s'.threads[t])
    ensures var l' := Run(s, t, false).threads[t];
            PushTicket(l') == PushTicket(s.threads[t]) && PopTicket(l') == PopTicket(s.threads[t])
  {
    assert LocalFits(s, s.threads[t]);
  }

  lemma WriteKeepsInv<T>(s: Ring<T>, t: nat)
    requires Inv(s) && t in s.threads && Owner(s.threads[t])
    ensures Inv(Run(s, t, false))
  {
    var s' := Run(s, t, false);
    WriteKeepsOwn(s, t);
    OwnCell(s, t);
    forall p: nat | s'.dequeuePos <= p < s'.dequeuePos + |s'.cells| ensures CellFits(s', p) {
      if p == Current(s.threads[t], |s.cells|) {
        WriteKeepsOwnCell(s, t);
      } else {
        WriteKeepsCell(s, t, p);
      }
    }
    assert s'.threads == s.threads[t := s'.threads[t]];
    forall u | u in s'.threads && u != t ensures LocalFits(s', s'.threads[u]) {
      assert LocalFits(s, s.threads[u]);
      if Owner(s.threads[u]) {
        OwnersDiffer(s, t, u);
      }
      WriteKeepsLocal(s, s', Slot(s.threads[t].pos, |s.cells|), s.threads[u]);
    }
    ReplaceKeepsExclusive(s, s', t);
  }

  lemma ReplaceKeepsExclusive<T>(s: Ring<T>, s': Ring<T>, t: nat)
    requires Exclusive(s) && t in s.threads && t in s'.threads && s'.threads == s.threads[t := s'.threads[t]]
    requires PushTicket(s'.threads[t]) == PushTicket(s.threads[t])
    requires PopTicket(s'.threads[t]) == PopTicket(s.threads[t])
    ensures Exclusive(s')
  {
    forall u, v | u in s'.threads && v in s'.threads && u != v ensures Apart(s'.threads[u], s'.threads[v]) {
      assert Apart(s.threads[u], s.threads[v]);
    }
  }

  /** Loads and failed CASes only move the thread. */
  lemma QuietStep<T>(s: Ring<T>, t: nat, spurious: bool) returns (l': Local<T>)
    requires Inv(s) && t in s.threads && !Owner(s.threads[t])
    requires s.threads[t].PushCas? ==> s.threads[t].pos != s.enqueuePos || spurious
    requires s.threads[t].PopCas? ==> s.threads[t].pos != s.dequeuePos || spurious
    requires !s.threads[t].Idle? && !s.threads[t].PushEnd? && !s.threads[t].PopEnd?
    ensures Run(s, t, spurious) == Move(s, t, l') && PushTicket(l').None? && PopTicket(l').None? && LocalFits(s, l')
  {
    assert LocalFits(s, s.threads[t]);
    l' := Run(s, t, spurious).threads[t];
  }

  lemma RunKeepsInv<T>(s: Ring<T>, t: nat, spurious: bool)
    requires Inv(s)
    ensures Inv(Run(s, t, spurious))
  {
    var l := LocalOf(s, t);
    if l.PushCas? && l.pos == s.enqueuePos && !spurious {
      ClaimPushKeepsInv(s, t);
    } else if l.PopCas? && l.pos == s.dequeuePos && !spurious {
      ClaimPopKeepsInv(s, t);
    } else if Owner(l) {
      WriteKeepsInv(s, t);
    } else if !l.Idle? && !l.PushEnd? && !l.PopEnd? {
      var l' := QuietStep(s, t, spurious);
      MoveKeepsInv(s, t, l');
    }
  }

  lemma StepKeepsInv<T>(s: Ring<T>, a: Action<T>)
    requires Inv(s)
    ensures Inv(Step(s, a))
  {
    var l := LocalOf(s, a.tid);
    match a
    case CallPush(t, msg) => if l.Idle? { MoveKeepsInv(s, t, PushStart(msg)); }
    case CallPop(t) => if l.Idle? { MoveKeepsInv(s, t, PopStart); }
    case Return(t) => if l.PushEnd? || l.PopEnd? { MoveKeepsInv(s, t, Idle); }
    case Go(t, spurious) => RunKeepsInv(s, t, spurious);
  }
}
