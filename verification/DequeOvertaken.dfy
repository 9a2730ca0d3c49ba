/**
 Exactly when a steal goes wrong: the owner has pushed the index one lap on into the buffer the
 thief is going to read, between the thief's CAS and its read.
 */
module DequeOvertaken {
  import opened Common
  import opened Deque
  import opened DequeMemory
  import opened DequeContents
  import opened DequeRuns

  /** The action is the owner's write of index `t`, one lap on, into buffer `held`. */
  predicate PutsOver<T>(s: Deque<T>, a: Action<T>, held: nat, t: nat) {
    a.OwnerGo? && s.owner.PushPut? && s.active == held && s.owner.b == t + Size(BufferAt(s, held))
  }

  /** Since the CAS of thief `tid` the owner has written over the slot it is going to read. */
  ghost predicate Overwritten<T>(acts: seq<Action<T>>, tid: nat) {
    acts != [] && (
      var before, a := acts[..|acts| - 1], acts[|acts| - 1];
      var pc := ThiefOf(Exec(Init(), before), tid).pc;
      pc.StealGet? && (Overwritten(before, tid) || PutsOver(Exec(Init(), before), a, pc.held, pc.t)))
  }

  /** The slot still holds the claimed index. */
  predicate Intact<T>(s: Deque<T>, pc: Thief<T>)
    requires pc.StealGet?
  {
    var e := Get(BufferAt(s, pc.held), pc.t);
    e.Some? && e.value.index == pc.t
  }

  /** While the thief's buffer is the active one, the deque has not grown past the slot. */
  predicate NotYetOver<T>(s: Deque<T>, pc: Thief<T>)
    requires pc.StealGet?
  {
    s.active == pc.held ==>
      && LogicalBottom(s) <= pc.t + Size(BufferAt(s, pc.held))
      && (s.owner.PushBottom? ==> s.owner.b < pc.t + Size(BufferAt(s, pc.held)))
  }

  lemma BottomMoves<T>(s: Deque<T>)
    requires s.owner.PopDec? ==> s.bottom <= s.owner.b
    ensures LogicalBottom(OwnerStep(s)) <= if s.owner.PushBottom? then s.owner.b + 1 else LogicalBottom(s)
    ensures OwnerStep(s).owner.PushBottom? ==> s.owner.PushPut? && OwnerStep(s).owner.b == s.owner.b
  {
    match s.owner
    case PushSeen(_, _, _) =>
    case PopTake(_, _, _) =>
    case _ =>
  }

  lemma ActiveMoves<T>(s: Deque<T>)
    ensures OwnerStep(s).active == if s.owner.StoreActive? then s.owner.fresh_ else s.active
  {
    match s.owner
    case PushSeen(_, _, _) =>
    case PopTake(_, _, _) =>
    case _ =>
  }

  /** The owner's write into the active buffer. */
  lemma PutOver<T>(s: Deque<T>, pc: Thief<T>)
    requires s.owner.PushPut? && pc.StealGet? && pc.held in s.buffers && s.active in s.buffers
    requires WellSized(Active(s)) && Room(s, Active(s), s.owner.b) && pc.t < s.top <= s.bottom
    ensures var s' := OwnerStep(s);
            && (PutsOver(s, OwnerGo, pc.held, pc.t) ==> !Intact(s', pc))
            && (!Intact(s, pc) ==> !Intact(s', pc))
            && (Intact(s, pc) && NotYetOver(s, pc) && !PutsOver(s, OwnerGo, pc.held, pc.t) ==>
                  Intact(s', pc) && NotYetOver(s', pc))
  {
    var b, n := s.owner.b, Size(Active(s));
    if pc.held == s.active {
      PutGet(Active(s), b, Some(Entry(b, s.owner.item)), pc.t);
      SlotRepeats(pc.t, n);
      if b < pc.t + n {
        SlotsDiffer(b, pc.t, n);
      }
    }
  }

  /** Any other step of the owner leaves the thief's slot alone. */
  lemma QuietOver<T>(s: Deque<T>, pc: Thief<T>)
    requires !s.owner.PushPut? && pc.StealGet? && s.active in s.buffers && s.created !in s.buffers
    requires s.owner.PopDec? ==> s.bottom <= s.owner.b
    requires pc.held in s.buffers && pc.held in OwnerStep(s).buffers
    requires s.owner.StoreActive? ==> pc.held != s.owner.fresh_
    ensures var s' := OwnerStep(s); (Intact(s', pc) <==> Intact(s, pc)) && (NotYetOver(s, pc) ==> NotYetOver(s', pc))
  {
    OwnerSlots(s);
    BottomMoves(s);
    ActiveMoves(s);
  }

  lemma OwnerOver<T>(s: Deque<T>, tid: nat)
    requires Mem(s) && Con(s) && ThiefOf(s, tid).pc.StealGet?
    ensures var s' := OwnerStep(s); var pc := ThiefOf(s, tid).pc;
            && (PutsOver(s, OwnerGo, pc.held, pc.t) ==> !Intact(s', pc))
            && (!Intact(s, pc) ==> !Intact(s', pc))
            && (Intact(s, pc) && NotYetOver(s, pc) && !PutsOver(s, OwnerGo, pc.held, pc.t) ==>
                  Intact(s', pc) && NotYetOver(s', pc))
  {
    var pc := ThiefOf(s, tid).pc;
    assert ThiefFits(s, s.thieves[tid].pc) && TokenFits(s, s.thieves[tid]);
    if s.owner.PushPut? {
      PutOver(s, pc);
    } else {
      OwnerStepKeepsMem(s);
      OwnerKeepsThieves(s);
      assert TokenFits(OwnerStep(s), OwnerStep(s).thieves[tid]);
      QuietOver(s, pc);
    }
  }

  /** Steps that are not the owner's touch no buffer. */
  lemma OthersOver<T>(s: Deque<T>, a: Action<T>, pc: Thief<T>)
    requires !a.OwnerGo? && pc.StealGet?
    ensures var s' := Step(s, a); (Intact(s', pc) <==> Intact(s, pc)) && (NotYetOver(s, pc) ==> NotYetOver(s', pc))
  {
  }

  /** Right after its CAS a thief's slot is as it should be. */
  lemma CasOver<T>(s: Deque<T>, tid: nat, spurious: bool)
    requires Mem(s) && Con(s) && ThiefOf(s, tid).pc.StealCas? && ThiefOf(ThiefStep(s, tid, spurious), tid).pc.StealGet?
    ensures var s' := ThiefStep(s, tid, spurious);
            Intact(s', ThiefOf(s', tid).pc) && NotYetOver(s', ThiefOf(s', tid).pc)
  {
    assert ThiefFits(s, s.thieves[tid].pc);
  }

  lemma StepOver<T>(s: Deque<T>, a: Action<T>, tid: nat, over: bool)
    requires Mem(s) && Con(s) && ThiefOf(s, tid).pc.StealGet? && ThiefOf(Step(s, a), tid).pc.StealGet?
    requires var pc := ThiefOf(s, tid).pc; (Intact(s, pc) <==> !over) && (Intact(s, pc) ==> NotYetOver(s, pc))
    ensures var s' := Step(s, a); var pc := ThiefOf(s, tid).pc;
            && ThiefOf(s', tid).pc == pc && (Intact(s', pc) ==> NotYetOver(s', pc))
            && (Intact(s', pc) <==> !over && !PutsOver(s, a, pc.held, pc.t))
  {
    OthersStay(s, a);
    if a.OwnerGo? {
      OwnerOver(s, tid);
    } else {
      OthersOver(s, a, ThiefOf(s, tid).pc);
    }
  }

  lemma {:induction false} OverwrittenMeansLost<T>(acts: seq<Action<T>>, tid: nat)
    requires ThiefOf(Exec(Init(), acts), tid).pc.StealGet?
    ensures var s := Exec(Init(), acts); var pc := ThiefOf(s, tid).pc;
            (Intact(s, pc) <==> !Overwritten(acts, tid)) && (Intact(s, pc) ==> NotYetOver(s, pc))
  {
    if acts != [] {
      var before, a := acts[..|acts| - 1], acts[|acts| - 1];
      var s := Exec(Init(), before);
      RunKeepsInv(before);
      if ThiefOf(s, tid).pc.StealGet? {
        OverwrittenMeansLost(before, tid);
        StepOver(s, a, tid, Overwritten(before, tid));
      } else {
        OnlyCasStarts(s, a, tid);
        CasOver(s, tid, a.spurious);
      }
    }
  }

  lemma OnlyCasStarts<T>(s: Deque<T>, a: Action<T>, tid: nat)
    requires !ThiefOf(s, tid).pc.StealGet? && ThiefOf(Step(s, a), tid).pc.StealGet?
    ensures a.ThiefGo? && a.tid == tid && ThiefOf(s, tid).pc.StealCas?
  {
    OthersStay(s, a);
  }

  /**
   The exact condition: what a thief reads is the item it claimed if and only if, since its CAS,
   the owner has not pushed the index one lap past its own into the buffer it loaded.
   */
  lemma ReadsItsClaimIff<T>(acts: seq<Action<T>>, tid: nat, spurious: bool)
    requires ThiefOf(Exec(Init(), acts), tid).pc.StealGet?
    ensures var s := Exec(Init(), acts); var e := EventOf(s, ThiefGo(tid, spurious));
            && e.Deliver? && e.serial < |s.claims| && e.read.Some?
            && (e.read == Some(Entry(e.index, s.claims[e.serial])) <==> !Overwritten(acts, tid))
            && (e.read.value.index == e.index <==> !Overwritten(acts, tid))
  {
    RunKeepsInv(acts);
    OverwrittenMeansLost(acts, tid);
    var s := Exec(Init(), acts);
    assert ThiefFits(s, s.thieves[tid].pc);
  }
}
