/** Memory: no buffer is deleted under a thief, and every buffer is deleted exactly once. */
module DequeMemory {
  import opened Common
  import opened Deque

  /** The oldest buffer not yet deleted. */
  function Oldest<T>(s: Deque<T>): nat {
    if s.unlinked.Some? then s.unlinked.value else 0
  }

  predicate BufferFits<T>(s: Deque<T>, a: nat)
    requires a in s.buffers
  {
    var r := s.buffers[a];
    && r.id == a
    && r.logSize >= LOG_INITIAL_SIZE
    && |r.segment| == Size(r)
    && r.next == if a + 1 < s.created then Some(a + 1) else None
  }

  /** Ids along the chain from `unlinked` to the newest buffer are consecutive. */
  ghost predicate Chain<T>(s: Deque<T>) {
    && (s.unlinked.None? ==> s.active == 0 && s.created == 1)
    && Oldest(s) <= s.active < s.created <= s.active + 2
    && (s.created == s.active + 2 <==> s.owner.StoreActive?)
    && (s.owner.StoreActive? ==> s.owner.fresh_ == s.active + 1 && s.unlinked.Some?)
    && (forall a: nat :: a in s.buffers <==> Oldest(s) <= a < s.created)
    && (forall a: nat :: a in s.buffers ==> BufferFits(s, a))
    && |s.freed| == Oldest(s) && (forall i :: 0 <= i < |s.freed| ==> s.freed[i] == i)
  }

  /** The buffer that a thief loaded inside the window in which its token says "not idle". */
  function Held<T>(pc: Thief<T>): Option<nat> {
    if pc.StealCas? || pc.StealGet? then Some(pc.held)
    else if pc.StealRest? then pc.rested
    else None
  }

  predicate Stealing<T>(pc: Thief<T>) {
    pc.StealTop? || pc.StealBottom? || pc.StealLoad? || pc.StealCas? || pc.StealGet? || pc.StealRest?
  }

  predicate TokenFits<T>(s: Deque<T>, th: ThiefState<T>) {
    && th.idLastUsed <= s.active
    && (th.wasIdle <==> !Stealing(th.pc))
    && (Held(th.pc).Some? ==> th.idLastUsed <= Held(th.pc).value <= s.active && Oldest(s) <= Held(th.pc).value)
  }

  /** No thief whose token the owner has already looked at holds a buffer older than `minId`. */
  ghost predicate Spared<T>(s: Deque<T>, minId: nat, left: nat)
    requires left <= |s.registry|
  {
    && minId <= s.active && s.unlinked.Some?
    && (forall t :: t in s.thieves && t !in s.registry[..left] && Held(s.thieves[t].pc).Some? ==>
          Held(s.thieves[t].pc).value >= minId)
  }

  ghost predicate Reclaiming<T>(s: Deque<T>) {
    match s.owner
    case LoadTokens(_) => s.unlinked.Some?
    case ScanToken(_, minId, left) => left <= |s.registry| && Spared(s, minId, left)
    case ScanId(_, minId, left) => 0 < left <= |s.registry| && Spared(s, minId, left)
    case Free(_, minId) => Spared(s, minId, 0)
    case _ => true
  }

  predicate HasToken<T>(pc: Thief<T>) {
    !pc.Unregistered? && !pc.RegisterSeen?
  }

  /** The list holds the token of each registered thief exactly once. */
  ghost predicate Registered<T>(s: Deque<T>) {
    && (forall i :: 0 <= i < |s.registry| ==> s.registry[i] in s.thieves && HasToken(s.thieves[s.registry[i]].pc))
    && (forall t :: t in s.thieves && HasToken(s.thieves[t].pc) ==> t in s.registry)
    && (forall i, j :: 0 <= i < j < |s.registry| ==> s.registry[i] != s.registry[j])
  }

  ghost predicate Mem<T>(s: Deque<T>) {
    && Chain(s)
    && (forall t :: t in s.thieves ==> TokenFits(s, s.thieves[t]))
    && Registered(s)
    && Reclaiming(s)
  }

  lemma InitMem<T>()
    ensures Mem(Init<T>())
  {
  }

  lemma StartReclaimKeepsMem<T>(s: Deque<T>, after: After<T>)
    requires Mem(s.(owner := OwnerIdle))
    ensures Mem(StartReclaim(s, after))
  {
    SameMem(s.(owner := OwnerIdle), StartReclaim(s, after));
  }

  /** A thief that is not in the loaded list cannot hold a buffer older than the active one. */
  lemma LoadKeepsMem<T>(s: Deque<T>)
    requires Mem(s) && s.owner.LoadTokens?
    ensures Mem(OwnerStep(s))
  {
    assert BufferFits(s, s.active);
    assert s.registry[..|s.registry|] == s.registry;
    SameMem(s, OwnerStep(s));
  }

  /** The parts of Mem that do not look at the owner. */
  lemma SameMem<T>(s: Deque<T>, s': Deque<T>)
    requires Mem(s)
    requires s' == s.(owner := s'.owner, items := s'.items, claims := s'.claims, top := s'.top, bottom := s'.bottom)
    requires s'.owner.StoreActive? <==> s.owner.StoreActive?
    requires s'.owner.StoreActive? ==> s'.owner.fresh_ == s.owner.fresh_
    requires Reclaiming(s')
    ensures Mem(s')
  {
    forall a: nat | a in s'.buffers ensures BufferFits(s', a) {
      assert BufferFits(s, a);
    }
    forall t | t in s'.thieves ensures TokenFits(s', s'.thieves[t]) {
      assert TokenFits(s, s.thieves[t]);
    }
  }

  lemma CopyFits<T>(s: Deque<T>, b: nat, t: nat, logSize: nat)
    ensures var r := Resize(Active(s), b, t, logSize);
            r.id == Active(s).id + 1 && r.logSize == logSize && |r.segment| == Pow2(logSize) && r.next.None?
  {
  }

  lemma ReplaceKeepsMem<T>(s: Deque<T>, b: nat, t: nat, logSize: nat, after: After<T>)
    requires Mem(s) && logSize >= LOG_INITIAL_SIZE && !s.owner.StoreActive?
    ensures Mem(Replace(s, b, t, logSize, after))
  {
    var s' := Replace(s, b, t, logSize, after);
    CopyFits(s, b, t, logSize);
    assert s.created == s.active + 1 && s.active in s.buffers && BufferFits(s, s.active);
    forall a: nat | a in s'.buffers ensures BufferFits(s', a) {
      assert a in s.buffers ==> BufferFits(s, a);
    }
    forall u | u in s'.thieves ensures TokenFits(s', s'.thieves[u]) {
      assert TokenFits(s, s.thieves[u]);
    }
  }

  /** Publishing the new buffer ends the replacement. */
  lemma StoreKeepsMem<T>(s: Deque<T>)
    requires Mem(s) && s.owner.StoreActive?
    ensures Mem(OwnerStep(s))
  {
    var s1 := s.(active := s.owner.fresh_, owner := OwnerIdle);
    forall a: nat | a in s1.buffers ensures BufferFits(s1, a) {
      assert BufferFits(s, a);
    }
    forall u | u in s1.thieves ensures TokenFits(s1, s1.thieves[u]) {
      assert TokenFits(s, s.thieves[u]);
    }
    StartReclaimKeepsMem(s.(active := s.owner.fresh_), s.owner.after);
  }

  /** Looking at one more token keeps the promise to the thieves already looked at. */
  lemma ScanKeepsMem<T>(s: Deque<T>)
    requires Mem(s) && (s.owner.ScanToken? || s.owner.ScanId?)
    ensures Mem(OwnerStep(s))
  {
    var s' := OwnerStep(s);
    var left := s.owner.left;
    if left > 0 {
      var u := s.registry[left - 1];
      assert u in s.thieves && TokenFits(s, s.thieves[u]);
      assert s.registry[..left] == s.registry[..left - 1] + [u];
    } else {
      assert s.registry[..0] == [];
    }
    SameMem(s, s');
  }

  /** A buffer is deleted only when no thief holds it and when it is not the active one. */
  lemma FreeKeepsMem<T>(s: Deque<T>)
    requires Mem(s) && s.owner.Free?
    ensures Mem(OwnerStep(s))
  {
    var s' := OwnerStep(s);
    var u := s.unlinked.value;
    assert s.registry[..0] == [];
    assert BufferFits(s, u);
    if s'.owner.Free? {
      forall a: nat | a in s'.buffers ensures BufferFits(s', a) {
        assert BufferFits(s, a);
      }
      forall t | t in s'.thieves ensures TokenFits(s', s'.thieves[t]) {
        assert TokenFits(s, s.thieves[t]);
        assert Held(s.thieves[t].pc).Some? ==> t !in s.registry[..0];
      }
    } else {
      SameMem(s, s');
    }
  }

  lemma PutKeepsMem<T>(s: Deque<T>)
    requires Mem(s) && s.owner.PushPut?
    ensures Mem(OwnerStep(s))
  {
    var s' := OwnerStep(s);
    assert s.active in s.buffers;
    forall a: nat | a in s'.buffers ensures BufferFits(s', a) {
      assert BufferFits(s, a);
    }
    forall t | t in s'.thieves ensures TokenFits(s', s'.thieves[t]) {
      assert TokenFits(s, s.thieves[t]);
    }
  }

  /** A buffer that shrinks stays above the initial size and has room for what is copied. */
  lemma ShrinkRoom<T>(a: Buffer<T>, b: nat, t: nat)
    requires Shrinks(a, b, t) && a.logSize >= LOG_INITIAL_SIZE
    ensures a.logSize - 1 > LOG_INITIAL_SIZE && Size(a) == 2 * Pow2(a.logSize - 1)
    ensures b - t <= Pow2(a.logSize - 1)
  {
    assert Pow2(4) == 16 && Pow2(5) == 32;
  }

  lemma ReclaimKeepsMem<T>(s: Deque<T>, after: After<T>)
    requires Mem(s) && !s.owner.StoreActive?
    ensures Mem(StartReclaim(s, after))
  {
    SameMem(s, s.(owner := OwnerIdle));
    StartReclaimKeepsMem(s, after);
  }

  lemma PushSeenKeepsMem<T>(s: Deque<T>)
    requires Mem(s) && s.owner.PushSeen?
    ensures Mem(OwnerStep(s))
  {
    var after := ThenPut(s.owner.item, s.owner.b);
    assert BufferFits(s, s.active);
    if s.owner.b - s.owner.t >= Size(Active(s)) - 1 {
      ReplaceKeepsMem(s, s.owner.b, s.owner.t, Active(s).logSize + 1, after);
    } else {
      ReclaimKeepsMem(s, after);
    }
  }

  lemma PopShrinkKeepsMem<T>(s: Deque<T>, after: After<T>)
    requires Mem(s) && s.owner.PopTake? && Shrinks(Active(s), s.owner.b, s.owner.t)
    ensures Mem(Replace(s, s.owner.b, s.owner.t, Active(s).logSize - 1, after))
  {
    assert BufferFits(s, s.active);
    ShrinkRoom(Active(s), s.owner.b, s.owner.t);
    ReplaceKeepsMem(s, s.owner.b, s.owner.t, Active(s).logSize - 1, after);
  }

  lemma PopTakeKeepsMem<T>(s: Deque<T>)
    requires Mem(s) && s.owner.PopTake?
    ensures Mem(OwnerStep(s))
  {
    var after := ThenReturn(Took(if s.owner.b > 0 then Get(Active(s), s.owner.b - 1) else None));
    if Shrinks(Active(s), s.owner.b, s.owner.t) {
      PopShrinkKeepsMem(s, after);
    } else {
      ReclaimKeepsMem(s, after);
    }
  }

  lemma OwnerStepKeepsMem<T>(s: Deque<T>)
    requires Mem(s)
    ensures Mem(OwnerStep(s))
  {
    match s.owner
    case PushSeen(_, _, _) => PushSeenKeepsMem(s);
    case StoreActive(_, _) => StoreKeepsMem(s);
    case LoadTokens(_) => LoadKeepsMem(s);
    case ScanToken(_, _, _) => ScanKeepsMem(s);
    case ScanId(_, _, _) => ScanKeepsMem(s);
    case Free(_, _) => FreeKeepsMem(s);
    case PushPut(_, _) => PutKeepsMem(s);
    case PopTake(_, _, _) => PopTakeKeepsMem(s);
    case _ => QuietKeepsMem(s);
  }

  /** The steps that touch no buffer and no list. */
  lemma QuietKeepsMem<T>(s: Deque<T>)
    requires Mem(s)
    requires var w := s.owner; !w.PushSeen? && !w.StoreActive? && !w.LoadTokens? && !w.ScanToken? && !w.ScanId? &&
                               !w.Free? && !w.PushPut? && !w.PopTake?
    ensures Mem(OwnerStep(s))
  {
    SameMem(s, OwnerStep(s));
  }

  // ----- Thieves -----

  /** A thief's step, seen from the memory: its own record changes, and perhaps top and the claims. */
  lemma ThiefMoveKeepsMem<T>(s: Deque<T>, s': Deque<T>, tid: nat)
    requires Mem(s) && tid in s'.thieves && TokenFits(s', s'.thieves[tid])
    requires s' == s.(thieves := s.thieves[tid := s'.thieves[tid]], items := s'.items, claims := s'.claims,
                      top := s'.top)
    requires HasToken(s'.thieves[tid].pc) <==> HasToken(ThiefOf(s, tid).pc)
    requires Held(s'.thieves[tid].pc).Some? ==>
               Held(s'.thieves[tid].pc) == Held(ThiefOf(s, tid).pc) || Held(s'.thieves[tid].pc).value == s.active
    ensures Mem(s')
  {
    forall a: nat | a in s'.buffers ensures BufferFits(s', a) {
      assert BufferFits(s, a);
    }
    forall u | u in s'.thieves ensures TokenFits(s', s'.thieves[u]) {
      assert u != tid ==> TokenFits(s, s.thieves[u]);
    }
  }

  lemma RegisterKeepsMem<T>(s: Deque<T>, tid: nat)
    requires Mem(s) && tid in s.thieves && s.thieves[tid].pc == RegisterSeen(|s.registry|)
    ensures Mem(ThiefStep(s, tid, false))
  {
    var s' := ThiefStep(s, tid, false);
    assert TokenFits(s, s.thieves[tid]);
    forall a: nat | a in s'.buffers ensures BufferFits(s', a) {
      assert BufferFits(s, a);
    }
    forall u | u in s'.thieves ensures TokenFits(s', s'.thieves[u]) {
      assert u != tid ==> TokenFits(s, s.thieves[u]);
    }
    assert forall left: nat :: left <= |s.registry| ==> s'.registry[..left] == s.registry[..left];
    assert Registered(s') by {
      assert tid !in s.registry;
      assert s'.registry[|s.registry|] == tid;
    }
  }

  /** What a thief's step may do to its own record. */
  lemma ThiefMove<T>(s: Deque<T>, tid: nat, spurious: bool)
    requires tid in s.thieves && HasToken(s.thieves[tid].pc) && TokenFits(s, s.thieves[tid])
    requires s.active in s.buffers && BufferFits(s, s.active) && Oldest(s) <= s.active
    ensures var s' := ThiefStep(s, tid, spurious);
            tid in s'.thieves && TokenFits(s', s'.thieves[tid]) && HasToken(s'.thieves[tid].pc) &&
            s' == s.(thieves := s.thieves[tid := s'.thieves[tid]], items := s'.items, claims := s'.claims,
                     top := s'.top) &&
            (Held(s'.thieves[tid].pc).Some? ==>
               Held(s'.thieves[tid].pc) == Held(s.thieves[tid].pc) || Held(s'.thieves[tid].pc).value == s.active)
  {
    if ThiefStep(s, tid, spurious) == s {
      assert s.thieves == s.thieves[tid := s.thieves[tid]];
    }
  }

  lemma ThiefStepKeepsMem<T>(s: Deque<T>, tid: nat, spurious: bool)
    requires Mem(s)
    ensures Mem(ThiefStep(s, tid, spurious))
  {
    var th := ThiefOf(s, tid);
    if HasToken(th.pc) {
      assert BufferFits(s, s.active);
      ThiefMove(s, tid, spurious);
      ThiefMoveKeepsMem(s, ThiefStep(s, tid, spurious), tid);
    } else if th.pc == RegisterSeen(|s.registry|) && !spurious {
      RegisterKeepsMem(s, tid);
    } else if th.pc.RegisterSeen? {
      assert TokenFits(s, th);
      ThiefMoveKeepsMem(s, ThiefStep(s, tid, spurious), tid);
    }
  }

  lemma ThiefCallKeepsMem<T>(s: Deque<T>, a: Action<T>)
    requires Mem(s) && (a.ThiefRegister? || a.ThiefSteal? || a.ThiefReturn?)
    ensures Mem(Step(s, a))
  {
    if Step(s, a) != s {
      assert a.tid in s.thieves ==> TokenFits(s, s.thieves[a.tid]);
      ThiefMoveKeepsMem(s, Step(s, a), a.tid);
    }
  }

  lemma StepKeepsMem<T>(s: Deque<T>, a: Action<T>)
    requires Mem(s)
    ensures Mem(Step(s, a))
  {
    match a
    case OwnerGo => OwnerStepKeepsMem(s);
    case ThiefGo(t, spurious) => ThiefStepKeepsMem(s, t, spurious);
    case ThiefRegister(_) => ThiefCallKeepsMem(s, a);
    case ThiefSteal(_) => ThiefCallKeepsMem(s, a);
    case ThiefReturn(_) => ThiefCallKeepsMem(s, a);
    case _ => SameMem(s, Step(s, a));
  }

  lemma {:induction false} RunKeepsMem<T>(acts: seq<Action<T>>)
    ensures Mem(Exec(Init(), acts))
  {
    if acts == [] {
      InitMem<T>();
    } else {
      RunKeepsMem(acts[..|acts| - 1]);
      StepKeepsMem(Exec(Init(), acts[..|acts| - 1]), acts[|acts| - 1]);
    }
  }
}
