/**
 The queue object itself: its cell buffer and counters are updated in place. `Act` performs one
 atomic action of any thread, `RunAll` any interleaving; `Push` and `Pop` are the two operations
 run without interference, from any state other threads may have left.
 */
module RingMachine {
  import opened Common
  import opened Ring
  import opened RingFifo

  class LfQueue<T> {
    const rereads: bool
    const buffer: array<Cell<T>>
    var enqueuePos: nat
    var dequeuePos: nat
    var threads: map<nat, Local<T>>
    ghost var log: seq<T>

    ghost function State(): Ring<T>
      reads this, buffer
    {
      Ring(rereads, buffer[..], enqueuePos, dequeuePos, threads, log)
    }

    ghost predicate Valid()
      reads this, buffer
    {
      Inv(State())
    }

    constructor (capacity: nat, rereads: bool)
      requires capacity >= 2
      ensures State() == Init(capacity, rereads) && Valid() && fresh(buffer)
    {
      this.rereads := rereads;
      buffer := new Cell<T>[capacity](_ => Cell(0, None));
      enqueuePos, dequeuePos, threads, log := 0, 0, map[], [];
      new;
      for i := 0 to capacity
        invariant forall j :: 0 <= j < i ==> buffer[j] == Cell(j, None)
        invariant enqueuePos == dequeuePos == 0 && threads == map[] && log == []
      {
        buffer[i] := Cell(i, None);
      }
      assert buffer[..] == Init<T>(capacity, rereads).cells;
      InitInv<T>(capacity, rereads);
    }

    /** A thread enters or leaves an operation. */
    method SetLocal(t: nat, l: Local<T>)
      modifies this`threads
      ensures State() == Move(old(State()), t, l)
    {
      threads := threads[t := l];
    }

    /** The atomic actions of `push`. */
    method PushStep(t: nat, spurious: bool)
      requires buffer.Length > 0 && t in threads
      requires var l := threads[t]; l.PushStart? || l.PushLook? || l.PushCas? || l.PushWrite? || l.PushPublish?
      modifies this, buffer
      ensures State() == Run(old(State()), t, spurious)
    {
      var n := buffer.Length;
      match threads[t] {
        case PushStart(msg) => threads := threads[t := PushLook(msg, enqueuePos)];
        case PushLook(msg, pos) =>
          var dif := buffer[Slot(pos, n)].sequence - pos;
          var l := if dif == 0 then PushCas(msg, pos) else if dif < 0 then PushEnd(msg, Refused) else PushStart(msg);
          threads := threads[t := l];
        case PushCas(msg, pos) =>
          if enqueuePos == pos && !spurious {
            enqueuePos, log, threads := pos + 1, log + [msg], threads[t := PushWrite(msg, pos)];
          } else {
            threads := threads[t := if rereads then PushStart(msg) else PushLook(msg, enqueuePos)];
          }
        case PushWrite(msg, pos) =>
          buffer[Slot(pos, n)] := buffer[Slot(pos, n)].(data := Some(msg));
          threads := threads[t := PushPublish(msg, pos)];
        case PushPublish(msg, pos) =>
          buffer[Slot(pos, n)] := buffer[Slot(pos, n)].(sequence := pos + 1);
          threads := threads[t := PushEnd(msg, Accepted(pos))];
      }
    }

    /** The atomic actions of `pop`. */
    method PopStep(t: nat, spurious: bool)
      requires buffer.Length > 0 && t in threads
      requires var l := threads[t]; l.PopStart? || l.PopLook? || l.PopCas? || l.PopTake? || l.PopRelease?
      modifies this, buffer
      ensures State() == Run(old(State()), t, spurious)
    {
      var n := buffer.Length;
      match threads[t] {
        case PopStart => threads := threads[t := PopLook(dequeuePos)];
        case PopLook(pos) =>
          var dif := buffer[Slot(pos, n)].sequence - (pos + 1);
          threads := threads[t := if dif == 0 then PopCas(pos) else if dif < 0 then PopEnd(Nothing) else PopStart];
        case PopCas(pos) =>
          if dequeuePos == pos && !spurious {
            dequeuePos, threads := pos + 1, threads[t := PopTake(pos)];
          } else {
            threads := threads[t := if rereads then PopStart else PopLook(dequeuePos)];
          }
        case PopTake(pos) =>
          threads := threads[t := PopRelease(pos, buffer[Slot(pos, n)].data)];
          buffer[Slot(pos, n)] := buffer[Slot(pos, n)].(data := None);
        case PopRelease(pos, taken) =>
          buffer[Slot(pos, n)] := buffer[Slot(pos, n)].(sequence := pos + n);
          threads := threads[t := PopEnd(Got(pos, taken))];
      }
    }

    method Act(a: Action<T>)
      requires Valid()
      modifies this, buffer
      ensures Valid() && State() == Step(old(State()), a)
    {
      var t := a.tid;
      var l := if t in threads then threads[t] else Idle;
      StepKeepsInv(State(), a);
      match a {
        case CallPush(_, msg) => if l.Idle? { threads := threads[t := PushStart(msg)]; }
        case CallPop(_) => if l.Idle? { threads := threads[t := PopStart]; }
        case Return(_) => if l.PushEnd? || l.PopEnd? { threads := threads[t := Idle]; }
        case Go(_, spurious) =>
          if l.PushStart? || l.PushLook? || l.PushCas? || l.PushWrite? || l.PushPublish? {
            PushStep(t, spurious);
          } else if l.PopStart? || l.PopLook? || l.PopCas? || l.PopTake? || l.PopRelease? {
            PopStep(t, spurious);
          }
      }
    }

    /** Any interleaving of any number of threads. */
    method RunAll(acts: seq<Action<T>>)
      requires Valid()
      modifies this, buffer
      ensures Valid() && State() == Exec(old(State()), acts)
    {
      for i := 0 to |acts|
        invariant Valid() && State() == Exec(old(State()), acts[..i])
      {
        assert acts[..i + 1][..i] == acts[..i];
        Act(acts[i]);
      }
      assert acts[..|acts|] == acts;
    }

    /** Writes the message of ticket `pos` and publishes it. */
    method Fill(j: nat, pos: nat, msg: T)
      requires buffer.Length > 0 && j == Slot(pos, buffer.Length)
      modifies buffer
      ensures State() == SetCell(old(State()), pos, Cell(pos + 1, Some(msg)))
    {
      buffer[j] := buffer[j].(data := Some(msg));
      buffer[j] := buffer[j].(sequence := pos + 1);
    }

    /**
     `push` by thread `t` while all others stand still wherever they are; the weak CAS fails
     spuriously `failures` times.
     */
    method Push(t: nat, msg: T, failures: nat) returns (ok: bool)
      requires Valid() && LocalOf(State(), t).Idle?
      modifies this, buffer
      ensures Valid() && threads == old(threads)[t := Idle]
      ensures !ok <==> old(enqueuePos >= buffer.Length && Unreleased(State(), enqueuePos - buffer.Length))
      ensures Contents(State()) == old(Contents(State())) + if ok then [msg] else []
      ensures old(AtRest(State())) ==> (!ok <==> old(|Contents(State())| == buffer.Length))
    {
      var left := failures;
      var pos := enqueuePos;
      ghost var s := State();
      PushSees(s, t, msg);
      threads := threads[t := Idle];
      while true
        invariant pos == enqueuePos && State() == Move(s, t, Idle)
        decreases left
      {
        var j := pos % buffer.Length;
        SlotIsModulo(pos, buffer.Length);
        var dif := buffer[j].sequence - pos;
        if dif == 0 {
          if enqueuePos == pos && left == 0 {
            ghost var s' := PushMeets(s, t, msg);
            enqueuePos, log := pos + 1, log + [msg];
            Fill(j, pos, msg);
            assert State() == s';
            return true;
          }
          left := left - 1;
          pos := enqueuePos;
        } else if dif < 0 {
          return false;
        } else {
          assert false;
        }
      }
    }

    /** `pop` by thread `t` while all others stand still wherever they are. */
    method Pop(t: nat, failures: nat) returns (result: Option<T>)
      requires Valid() && LocalOf(State(), t).Idle?
      modifies this, buffer
      ensures Valid() && threads == old(threads)[t := Idle]
      ensures result.None? <==> old(dequeuePos == enqueuePos || Unpublished(State(), dequeuePos))
      ensures result.Some? ==> old(Contents(State())) == [result.value] + Contents(State())
      ensures result.None? ==> Contents(State()) == old(Contents(State()))
      ensures old(AtRest(State())) ==> (result.None? <==> old(Contents(State())) == [])
    {
      var left := failures;
      var pos := dequeuePos;
      ghost var s := State();
      PopSees(s, t);
      threads := threads[t := Idle];
      while true
        invariant pos == dequeuePos && State() == Move(s, t, Idle)
        decreases left
      {
        var j := pos % buffer.Length;
        SlotIsModulo(pos, buffer.Length);
        var dif := buffer[j].sequence - (pos + 1);
        if dif == 0 {
          if dequeuePos == pos && left == 0 {
            ghost var s' := PopMeets(s, t);
            dequeuePos := pos + 1;
            var taken := buffer[j].data;
            buffer[j] := buffer[j].(data := None);
            buffer[j] := buffer[j].(sequence := pos + buffer.Length);
            assert State() == s';
            return taken;
          }
          left := left - 1;
          pos := dequeuePos;
        } else if dif < 0 {
          return None;
        } else {
          assert false;
        }
      }
    }
  }

  /** What a push finds when it starts at state `s` and nothing else moves. */
  lemma PushSees<T>(s: Ring<T>, t: nat, msg: T)
    requires Inv(s) && LocalOf(s, t).Idle?
    ensures Inv(Move(s, t, Idle))
    ensures var p := s.enqueuePos; var n := |s.cells|;
            CellAt(s, p).sequence <= p && (CellAt(s, p).sequence < p <==> p >= n && Unreleased(s, p - n))
    ensures AtRest(s) ==> (CellAt(s, s.enqueuePos).sequence < s.enqueuePos <==> |Contents(s)| == |s.cells|)
  {
    MoveKeepsInv(s, t, Idle);
    ReadyToClaim(s, s.enqueuePos);
    var s' := Move(s, t, PushLook(msg, s.enqueuePos));
    MoveKeepsInv(s, t, PushLook(msg, s.enqueuePos));
    PushRefusedWhen(s', t, false);
    assert AtRest(s) ==> AtRest(s');
    if |Contents(s)| == |s.cells| {
      assert CellFits(s, s.dequeuePos);
      SlotRepeats(s.dequeuePos, |s.cells|);
    }
  }

  lemma PushMeets<T>(s: Ring<T>, t: nat, msg: T) returns (s': Ring<T>)
    requires Inv(s) && LocalOf(s, t).Idle? && CellAt(s, s.enqueuePos).sequence == s.enqueuePos
    ensures Inv(s') && Contents(s') == Contents(s) + [msg]
    ensures s' == Move(SetCell(s, s.enqueuePos, Cell(s.enqueuePos + 1, Some(msg))), t, Idle)
                  .(enqueuePos := s.enqueuePos + 1, log := s.log + [msg])
  {
    s' := Exec(s, PushActs(t, msg));
    PushAlone(s, t, msg);
    RingFifo.RunKeepsInv(s, PushActs(t, msg));
  }

  lemma PopSees<T>(s: Ring<T>, t: nat)
    requires Inv(s) && LocalOf(s, t).Idle?
    ensures Inv(Move(s, t, Idle))
    ensures var p := s.dequeuePos;
            CellAt(s, p).sequence <= p + 1 &&
            (CellAt(s, p).sequence < p + 1 <==> p == s.enqueuePos || Unpublished(s, p))
    ensures AtRest(s) ==> (CellAt(s, s.dequeuePos).sequence < s.dequeuePos + 1 <==> Contents(s) == [])
  {
    MoveKeepsInv(s, t, Idle);
    assert CellFits(s, s.dequeuePos);
  }

  lemma PopMeets<T>(s: Ring<T>, t: nat) returns (s': Ring<T>)
    requires Inv(s) && LocalOf(s, t).Idle? && CellAt(s, s.dequeuePos).sequence == s.dequeuePos + 1
    ensures Inv(s') && CellAt(s, s.dequeuePos).data.Some?
    ensures Contents(s) == [CellAt(s, s.dequeuePos).data.value] + Contents(s')
    ensures s' == Move(SetCell(s, s.dequeuePos, Cell(s.dequeuePos + |s.cells|, None)), t, Idle)
                  .(dequeuePos := s.dequeuePos + 1)
  {
    s' := Exec(s, PopActs(t));
    ReadyToClaim(s, s.dequeuePos);
    PopAlone(s, t);
    RingFifo.RunKeepsInv(s, PopActs(t));
    HeadAndTail(s.log, s.dequeuePos);
  }

  lemma HeadAndTail<T>(log: seq<T>, p: nat)
    requires p < |log|
    ensures log[p..] == [log[p]] + log[p + 1..]
  {
  }
}
