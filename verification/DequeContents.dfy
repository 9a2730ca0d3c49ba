/** Contents: the live indices hold the abstract items, and claims come off its two ends. */
module DequeContents {
  import opened Common
  import opened Deque
  import opened DequeMemory

  /**
   Where the deque ends: while the owner's pop is undecided `bottom` is already lowered, but
   the last item is still there for either side to claim.
   */
  function LogicalBottom<T>(s: Deque<T>): int {
    match s.owner
    case PopDec(b) => b
    case PopCas(b, _) => b
    case PopLast(b, _, _) => b
    case PopRestore(b, _) => b
    case _ => s.bottom
  }

  predicate WellSized<T>(a: Buffer<T>) {
    |a.segment| == Size(a) && a.logSize >= LOG_INITIAL_SIZE
  }

  ghost predicate Holds<T>(s: Deque<T>, a: Buffer<T>) {
    && LogicalBottom(s) - s.top <= Size(a) - 1
    && |s.items| == LogicalBottom(s) - s.top
    && (forall i: nat :: s.top <= i < LogicalBottom(s) ==> Get(a, i) == Some(Entry(i, s.items[i - s.top])))
  }

  /** Room for one more item at index `b`. */
  predicate Room<T>(s: Deque<T>, a: Buffer<T>, b: nat) {
    b == s.bottom && b - s.top <= Size(a) - 2
  }

  predicate AfterFits<T>(s: Deque<T>, a: Buffer<T>, after: After<T>) {
    match after
    case ThenPut(_, b) => Room(s, a, b)
    case ThenReturn(_) => s.bottom >= 0
  }

  ghost predicate OwnerFits<T>(s: Deque<T>) {
    var a := Active(s);
    match s.owner
    case OwnerIdle => s.bottom >= 0
    case PushSeen(_, b, t) => b == s.bottom && t <= s.top && b - t <= Size(a) - 1
    case StoreActive(after, n) => Holds(s, BufferAt(s, n)) && AfterFits(s, BufferAt(s, n), after)
    case LoadTokens(after) => AfterFits(s, a, after)
    case ScanToken(after, _, _) => AfterFits(s, a, after)
    case ScanId(after, _, _) => AfterFits(s, a, after)
    case Free(after, _) => AfterFits(s, a, after)
    case PushPut(_, b) => Room(s, a, b)
    case PushBottom(item, b) => Room(s, a, b) && Get(a, b) == Some(Entry(b, item))
    case PopDec(b) => s.bottom == b - 1
    case PopCas(b, t) => s.bottom == b - 1 == t && t <= s.top
    case PopLast(b, t, k) =>
      s.bottom == b - 1 == t && s.top == b && k < |s.claims| && Get(a, t) == Some(Entry(t, s.claims[k]))
    case PopTake(b, t, k) =>
      s.bottom == b - 1 && t <= s.top && t <= b - 2 && k < |s.claims| &&
      Get(a, b - 1) == Some(Entry(b - 1, s.claims[k]))
    case PopRestore(b, _) => s.bottom == b - 1 && s.top == b
    case PopEnd(_) => s.bottom >= 0
  }

  /** After its CAS a thief still finds its item, unless a later item has taken the slot. */
  ghost predicate ReadFits<T>(s: Deque<T>, a: Buffer<T>, t: nat, claimed: T) {
    && Get(a, t).Some?
    && var e := Get(a, t).value;
       if e.index == t then e == Entry(t, claimed) else e.index >= t + Size(a) && s.top >= t + 2
  }

  ghost predicate ThiefFits<T>(s: Deque<T>, pc: Thief<T>) {
    match pc
    case StealBottom(t) => t <= s.top
    case StealLoad(t) => t <= s.top && (t == s.top ==> s.items != [])
    case StealCas(t, a) =>
      t <= s.top && WellSized(BufferAt(s, a)) &&
      (t == s.top ==> s.items != [] && Get(BufferAt(s, a), t) == Some(Entry(t, s.items[0])))
    case StealGet(t, a, k) =>
      t < s.top && k < |s.claims| && WellSized(BufferAt(s, a)) && ReadFits(s, BufferAt(s, a), t, s.claims[k])
    case _ => true
  }

  ghost predicate Core<T>(s: Deque<T>) {
    && WellSized(Active(s))
    && s.top <= LogicalBottom(s)
    && Holds(s, Active(s))
    && OwnerFits(s)
  }

  ghost predicate Con<T>(s: Deque<T>) {
    && Core(s)
    && (forall t :: t in s.thieves ==> ThiefFits(s, s.thieves[t].pc))
  }

  // ----- Copying -----

  lemma PutGet<T>(a: Buffer<T>, i: nat, e: Option<Entry<T>>, j: nat)
    requires |a.segment| == Size(a)
    ensures Get(Put(a, i, e), j) == if Slot(i, Size(a)) == Slot(j, Size(a)) then e else Get(a, j)
  {
  }

  lemma {:induction false} CopyKeeps<T>(from: Buffer<T>, into: Buffer<T>, t: nat, b: nat, i: nat)
    requires |into.segment| == Size(into) && i < t && b - i <= Size(into)
    ensures Get(Copy(from, into, t, b), i) == Get(into, i)
    decreases b - t
  {
    if t < b {
      SlotsDiffer(i, t, Size(into));
      PutGet(into, t, Get(from, t), i);
      CopyKeeps(from, Put(into, t, Get(from, t)), t + 1, b, i);
    }
  }

  /** `resize` copies faithfully whatever fits the new size. */
  lemma {:induction false} CopyGets<T>(from: Buffer<T>, into: Buffer<T>, t: nat, b: nat, i: nat)
    requires |into.segment| == Size(into) && t <= i < b && b - t <= Size(into)
    ensures Get(Copy(from, into, t, b), i) == Get(from, i)
    decreases b - t
  {
    var into' := Put(into, t, Get(from, t));
    if i == t {
      PutGet(into, t, Get(from, t), t);
      CopyKeeps(from, into', t + 1, b, t);
    } else {
      CopyGets(from, into', t + 1, b, i);
    }
  }

  lemma ResizeHolds<T>(s: Deque<T>, b: nat, t: nat, logSize: nat)
    requires Holds(s, Active(s)) && t <= s.top && LogicalBottom(s) <= b
    requires b - t <= Pow2(logSize) && LogicalBottom(s) - s.top <= Pow2(logSize) - 1
    ensures Holds(s, Resize(Active(s), b, t, logSize))
  {
    var a := Active(s);
    forall i: nat | s.top <= i < LogicalBottom(s) ensures Get(Resize(a, b, t, logSize), i) == Get(a, i) {
      CopyGets(a, NewBuffer(logSize, a.id + 1), t, b, i);
    }
  }

  // ----- What a step must carry over for the thieves -----

  ghost predicate Carries<T>(s: Deque<T>, s': Deque<T>) {
    && s.top <= s'.top
    && |s.claims| <= |s'.claims| && s'.claims[..|s.claims|] == s.claims
    && (s'.top == s.top && s.items != [] ==> s'.items != [] && s'.items[0] == s.items[0])
  }

  lemma CarriesThief<T>(s: Deque<T>, s': Deque<T>, pc: Thief<T>)
    requires ThiefFits(s, pc) && Carries(s, s')
    requires (pc.StealCas? || pc.StealGet?) ==> SameSlots(BufferAt(s, pc.held), BufferAt(s', pc.held))
    ensures ThiefFits(s', pc)
  {
    if pc.StealGet? {
      assert s'.claims[pc.serial] == s'.claims[..|s.claims|][pc.serial];
    }
  }

  ghost predicate SameSlots<T>(a: Buffer<T>, a': Buffer<T>) {
    a'.segment == a.segment && a'.logSize == a.logSize
  }

  lemma CarriesThieves<T>(s: Deque<T>, s': Deque<T>)
    requires Mem(s) && Mem(s') && Con(s) && Carries(s, s') && s'.thieves == s.thieves
    requires forall a :: a in s.buffers && a in s'.buffers ==> SameSlots(s.buffers[a], s'.buffers[a])
    ensures forall t :: t in s'.thieves ==> ThiefFits(s', s'.thieves[t].pc)
  {
    forall t | t in s'.thieves ensures ThiefFits(s', s'.thieves[t].pc) {
      assert ThiefFits(s, s.thieves[t].pc) && TokenFits(s, s.thieves[t]) && TokenFits(s', s.thieves[t]);
      CarriesThief(s, s', s.thieves[t].pc);
    }
  }

  // ----- Owner steps -----

  lemma StartReclaimFits<T>(s: Deque<T>, after: After<T>)
    requires WellSized(Active(s)) && AfterFits(s, Active(s), after)
    requires s.top <= s.bottom && Holds(s.(owner := OwnerIdle), Active(s))
    ensures Core(StartReclaim(s, after))
  {
    var s' := StartReclaim(s, after);
    assert s' == s.(owner := s'.owner) && LogicalBottom(s') == s.bottom;
  }

  lemma ReplaceFits<T>(s: Deque<T>, b: nat, t: nat, logSize: nat, after: After<T>)
    requires Core(s) && LogicalBottom(s) == s.bottom && s.active in s.buffers && s.created !in s.buffers
    requires t <= s.top && s.bottom <= b
    requires b - t <= Pow2(logSize) && s.bottom - s.top <= Pow2(logSize) - 1
    requires match after
             case ThenPut(_, b') => b' == s.bottom && b' - s.top <= Pow2(logSize) - 2
             case ThenReturn(_) => s.bottom >= 0
    ensures Core(Replace(s, b, t, logSize, after))
  {
    var s' := Replace(s, b, t, logSize, after);
    ResizeHolds(s, b, t, logSize);
    CopyFits(s, b, t, logSize);
    assert BufferAt(s', s.created) == Resize(Active(s), b, t, logSize);
    assert SameSlots(Active(s), Active(s'));
    assert Holds(s', Active(s')) by {
      assert forall i: nat :: Get(Active(s'), i) == Get(Active(s), i);
    }
    assert Holds(s', BufferAt(s', s.created));
  }

  lemma PushSeenKeepsCore<T>(s: Deque<T>)
    requires Core(s) && s.owner.PushSeen? && s.active in s.buffers && s.created !in s.buffers
    ensures Core(OwnerStep(s))
  {
    var b, t := s.owner.b, s.owner.t;
    if b - t >= Size(Active(s)) - 1 {
      assert Pow2(Active(s).logSize + 1) == 2 * Size(Active(s));
      SizeAtLeast(Active(s).logSize);
      ReplaceFits(s, b, t, Active(s).logSize + 1, ThenPut(s.owner.item, b));
    } else {
      StartReclaimFits(s, ThenPut(s.owner.item, b));
    }
  }

  lemma SizeAtLeast(k: nat)
    requires k >= LOG_INITIAL_SIZE
    ensures Pow2(k) >= 16
  {
    if k > LOG_INITIAL_SIZE {
      SizeAtLeast(k - 1);
    } else {
      assert Pow2(4) == 16;
    }
  }

  lemma PopShrinkKeepsCore<T>(s: Deque<T>, after: After<T>)
    requires Core(s) && s.owner.PopTake? && s.active in s.buffers && s.created !in s.buffers && after.ThenReturn?
    requires Shrinks(Active(s), s.owner.b, s.owner.t)
    ensures Core(Replace(s, s.owner.b, s.owner.t, Active(s).logSize - 1, after))
  {
    ShrinkRoom(Active(s), s.owner.b, s.owner.t);
    ReplaceFits(s, s.owner.b, s.owner.t, Active(s).logSize - 1, after);
  }

  lemma PopTakeStep<T>(s: Deque<T>) returns (after: After<T>)
    requires s.owner.PopTake?
    ensures after.ThenReturn?
    ensures OwnerStep(s) ==
            if Shrinks(Active(s), s.owner.b, s.owner.t) then
              Replace(s, s.owner.b, s.owner.t, Active(s).logSize - 1, after)
            else StartReclaim(s, after)
  {
    after := ThenReturn(Took(if s.owner.b > 0 then Get(Active(s), s.owner.b - 1) else None));
  }

  lemma PopTakeKeepsCore<T>(s: Deque<T>)
    requires Core(s) && s.owner.PopTake? && s.active in s.buffers && s.created !in s.buffers
    ensures Core(OwnerStep(s))
  {
    var after := PopTakeStep(s);
    if Shrinks(Active(s), s.owner.b, s.owner.t) {
      PopShrinkKeepsCore(s, after);
    } else {
      StartReclaimFits(s, after);
    }
  }

  /** The slot written by a push is none of the live ones. */
  lemma PutMisses<T>(s: Deque<T>, a: Buffer<T>, b: nat, e: Option<Entry<T>>)
    requires Holds(s, a) && WellSized(a) && Room(s, a, b) && LogicalBottom(s) == b
    ensures Holds(s, Put(a, b, e)) && Get(Put(a, b, e), b) == e
  {
    PutGet(a, b, e, b);
    forall i: nat | s.top <= i < b ensures Get(Put(a, b, e), i) == Get(a, i) {
      SlotsDiffer(i, b, Size(a));
      PutGet(a, b, e, i);
    }
  }

  lemma PutKeepsCore<T>(s: Deque<T>)
    requires Core(s) && s.owner.PushPut?
    ensures Core(OwnerStep(s))
  {
    var s' := OwnerStep(s);
    PutMisses(s, Active(s), s.owner.b, Some(Entry(s.owner.b, s.owner.item)));
    assert Holds(s', Active(s'));
  }

  /** The steps of the owner that move `bottom` or claim an item. */
  lemma PushBottomKeepsCore<T>(s: Deque<T>)
    requires Core(s) && s.owner.PushBottom?
    ensures Core(OwnerStep(s)) && Carries(s, OwnerStep(s))
  {
    assert s.claims[..|s.claims|] == s.claims;
  }

  lemma PopDecKeepsCore<T>(s: Deque<T>)
    requires Core(s) && s.owner.PopDec?
    ensures Core(OwnerStep(s)) && Carries(s, OwnerStep(s))
  {
    assert s.claims[..|s.claims|] == s.claims;
    if s.owner.b - s.top >= 2 {
      assert Get(Active(s), s.owner.b - 1) == Some(Entry(s.owner.b - 1, s.items[|s.items| - 1]));
    }
  }

  lemma PopCasKeepsCore<T>(s: Deque<T>)
    requires Core(s) && s.owner.PopCas?
    ensures Core(OwnerStep(s)) && Carries(s, OwnerStep(s))
  {
    assert s.claims[..|s.claims|] == s.claims;
  }

  lemma DecideKeepsCore<T>(s: Deque<T>)
    requires Core(s)
    requires s.owner.PushBottom? || s.owner.PopDec? || s.owner.PopCas? || s.owner.PopLast? || s.owner.PopRestore?
    ensures Core(OwnerStep(s)) && Carries(s, OwnerStep(s))
  {
    assert s.claims[..|s.claims|] == s.claims;
    match s.owner
    case PushBottom(_, _) => PushBottomKeepsCore(s);
    case PopDec(_) => PopDecKeepsCore(s);
    case PopCas(_, _) => PopCasKeepsCore(s);
    case _ =>
  }

  lemma ScanKeepsCore<T>(s: Deque<T>)
    requires Core(s) && (s.owner.LoadTokens? || s.owner.ScanToken? || s.owner.ScanId? || s.owner.Free?)
    requires s.owner.Free? ==> Active(OwnerStep(s)) == Active(s)
    ensures Core(OwnerStep(s))
  {
    if s.owner.Free? {
      FreeOnlyFrees(s);
    } else {
      ScanOnlyScans(s);
    }
    CoreStays(s, OwnerStep(s));
  }

  /** The items and the bounds stay. */
  ghost predicate SameBounds<T>(s: Deque<T>, s': Deque<T>) {
    && s'.items == s.items && s'.claims == s.claims && s'.top == s.top && s'.bottom == s.bottom
    && LogicalBottom(s') == LogicalBottom(s)
  }

  lemma ScanOnlyScans<T>(s: Deque<T>)
    requires OwnerFits(s) && (s.owner.LoadTokens? || s.owner.ScanToken? || s.owner.ScanId?)
    ensures SameBounds(s, OwnerStep(s)) && OwnerFits(OwnerStep(s)) && Active(OwnerStep(s)) == Active(s)
  {
  }

  lemma FreeOnlyFrees<T>(s: Deque<T>)
    requires OwnerFits(s) && s.owner.Free? && Active(OwnerStep(s)) == Active(s)
    ensures SameBounds(s, OwnerStep(s)) && OwnerFits(OwnerStep(s))
  {
  }

  lemma CoreStays<T>(s: Deque<T>, s': Deque<T>)
    requires Core(s) && SameBounds(s, s') && OwnerFits(s') && Active(s') == Active(s)
    ensures Core(s')
  {
  }

  lemma OwnerStepKeepsCore<T>(s: Deque<T>)
    requires Mem(s) && Core(s)
    ensures Core(OwnerStep(s))
  {
    assert s.active in s.buffers && s.created !in s.buffers;
    match s.owner
    case PushSeen(_, _, _) => PushSeenKeepsCore(s);
    case StoreActive(after, n) =>
      assert BufferFits(s, n);
      StartReclaimFits(s.(active := n), after);
    case LoadTokens(_) => ScanKeepsCore(s);
    case ScanToken(_, _, _) => ScanKeepsCore(s);
    case ScanId(_, _, _) => ScanKeepsCore(s);
    case Free(_, _) =>
      OwnerStepKeepsMem(s);
      assert s.active in OwnerStep(s).buffers;
      ScanKeepsCore(s);
    case PushPut(_, _) => PutKeepsCore(s);
    case PopTake(_, _, _) => PopTakeKeepsCore(s);
    case OwnerIdle =>
    case PopEnd(_) =>
    case _ => DecideKeepsCore(s);
  }

  /** Apart from a push's write, an owner step leaves the slots of every surviving buffer alone. */
  ghost predicate SlotsStay<T>(s: Deque<T>, s': Deque<T>) {
    && s'.thieves == s.thieves
    && (forall a :: a in s.buffers && a in s'.buffers ==> SameSlots(s.buffers[a], s'.buffers[a]))
  }

  lemma ReplaceSlots<T>(s: Deque<T>, b: nat, t: nat, logSize: nat, after: After<T>)
    requires s.active in s.buffers && s.created !in s.buffers
    ensures SlotsStay(s, Replace(s, b, t, logSize, after))
  {
  }

  lemma OwnerSlots<T>(s: Deque<T>)
    requires s.active in s.buffers && s.created !in s.buffers && !s.owner.PushPut?
    ensures SlotsStay(s, OwnerStep(s))
  {
    match s.owner
    case PushSeen(item, b, t) => ReplaceSlots(s, b, t, Active(s).logSize + 1, ThenPut(item, b));
    case PopTake(_, _, _) => TakeSlots(s);
    case _ =>
  }

  lemma TakeSlots<T>(s: Deque<T>)
    requires s.active in s.buffers && s.created !in s.buffers && s.owner.PopTake?
    ensures SlotsStay(s, OwnerStep(s))
  {
    var b, t := s.owner.b, s.owner.t;
    if Shrinks(Active(s), b, t) {
      ReplaceSlots(s, b, t, Active(s).logSize - 1, ThenReturn(Took(if b > 0 then Get(Active(s), b - 1) else None)));
    }
  }

  lemma OwnerCarries<T>(s: Deque<T>)
    requires Core(s)
    ensures Carries(s, OwnerStep(s))
  {
    if s.owner.PushBottom? || s.owner.PopDec? || s.owner.PopCas? || s.owner.PopLast? || s.owner.PopRestore? {
      DecideKeepsCore(s);
    } else {
      QuietOwner(s);
      assert s.claims[..|s.claims|] == s.claims;
    }
  }

  lemma QuietOwner<T>(s: Deque<T>)
    requires !(s.owner.PushBottom? || s.owner.PopDec? || s.owner.PopCas? || s.owner.PopLast? || s.owner.PopRestore?)
    ensures var s' := OwnerStep(s);
            s'.top == s.top && s'.claims == s.claims && s'.items == s.items && s'.bottom == s.bottom
  {
    match s.owner
    case PushSeen(_, _, _) =>
    case PopTake(_, _, _) =>
    case _ =>
  }

  /** A push never disturbs a thief whose CAS can still win; it may overtake one that has won. */
  lemma PutKeepsThief<T>(s: Deque<T>, s': Deque<T>, pc: Thief<T>)
    requires s.owner.PushPut? && s' == OwnerStep(s)
    requires WellSized(Active(s)) && Room(s, Active(s), s.owner.b) && s.top <= s.bottom && s.active in s.buffers
    requires s.items != [] ==> s.top < s.bottom
    requires ThiefFits(s, pc) && ((pc.StealCas? || pc.StealGet?) ==> pc.held in s.buffers)
    ensures ThiefFits(s', pc)
  {
    var b := s.owner.b;
    var n := Size(Active(s));
    if (pc.StealCas? || pc.StealGet?) && pc.held == s.active {
      PutGet(Active(s), b, Some(Entry(b, s.owner.item)), pc.t);
      if pc.t < b < pc.t + n {
        SlotsDiffer(b, pc.t, n);
      }
    }
  }

  lemma OwnerStepKeepsThieves<T>(s: Deque<T>)
    requires Mem(s) && Con(s)
    ensures forall t :: t in OwnerStep(s).thieves ==> ThiefFits(OwnerStep(s), OwnerStep(s).thieves[t].pc)
  {
    var s' := OwnerStep(s);
    assert s.active in s.buffers && s.created !in s.buffers;
    if s.owner.PushPut? {
      forall t | t in s'.thieves ensures ThiefFits(s', s'.thieves[t].pc) {
        assert ThiefFits(s, s.thieves[t].pc) && TokenFits(s, s.thieves[t]);
        PutKeepsThief(s, s', s.thieves[t].pc);
      }
    } else {
      OwnerSlots(s);
      OwnerCarries(s);
      OwnerStepKeepsMem(s);
      CarriesThieves(s, s');
    }
  }

  lemma OwnerStepKeepsCon<T>(s: Deque<T>)
    requires Mem(s) && Con(s)
    ensures Con(OwnerStep(s))
  {
    OwnerStepKeepsCore(s);
    OwnerStepKeepsThieves(s);
  }

  // ----- Thief steps -----

  /** Advancing top takes the front item off. */
  lemma ClaimFrontKeepsCore<T>(s: Deque<T>)
    requires Core(s) && s.items != [] && !s.owner.PopLast? && !s.owner.PopRestore?
    ensures Core(ClaimFront(s)) && Carries(s, ClaimFront(s)) && ClaimFront(s).claims == s.claims + [s.items[0]]
  {
    var s' := ClaimFront(s);
    assert s.owner.StoreActive? ==> BufferAt(s', s.owner.fresh_) == BufferAt(s, s.owner.fresh_);
  }

  lemma StealKeepsCon<T>(s: Deque<T>, tid: nat)
    requires Mem(s) && Con(s) && tid in s.thieves && s.thieves[tid].pc.StealCas? && s.thieves[tid].pc.t == s.top
    ensures Con(ThiefStep(s, tid, false)) && ThiefStep(s, tid, true) == ThiefStep(s, tid, false)
    ensures s.items != [] && ThiefStep(s, tid, false).claims == s.claims + [s.items[0]]
  {
    var s' := ThiefStep(s, tid, false);
    assert ThiefFits(s, s.thieves[tid].pc);
    ClaimFrontKeepsCore(s);
    SameCore(ClaimFront(s), s');
    forall t | t in s'.thieves && t != tid ensures ThiefFits(s', s'.thieves[t].pc) {
      assert ThiefFits(s, s.thieves[t].pc);
      CarriesThief(s, s', s.thieves[t].pc);
    }
  }

  lemma SameCore<T>(s: Deque<T>, s': Deque<T>)
    requires Core(s) && s' == s.(thieves := s'.thieves, registry := s'.registry)
    ensures Core(s')
  {
  }

  /** A thief's step other than a winning CAS keeps all that the others rely on. */
  lemma ThiefMoveKeepsCon<T>(s: Deque<T>, s': Deque<T>, tid: nat)
    requires Con(s) && tid in s'.thieves && ThiefFits(s', s'.thieves[tid].pc)
    requires s' == s.(thieves := s.thieves[tid := s'.thieves[tid]], registry := s'.registry)
    ensures Con(s')
  {
    forall t | t in s'.thieves ensures ThiefFits(s', s'.thieves[t].pc) {
      assert t != tid ==> ThiefFits(s, s.thieves[t].pc);
    }
  }

  lemma ThiefStepFits<T>(s: Deque<T>, tid: nat, spurious: bool)
    requires Core(s) && tid in s.thieves && ThiefFits(s, s.thieves[tid].pc)
    requires !(s.thieves[tid].pc.StealCas? && s.thieves[tid].pc.t == s.top)
    ensures var s' := ThiefStep(s, tid, spurious);
            tid in s'.thieves && ThiefFits(s', s'.thieves[tid].pc) &&
            s' == s.(thieves := s.thieves[tid := s'.thieves[tid]], registry := s'.registry)
  {
    assert s.thieves == s.thieves[tid := s.thieves[tid]];
  }

  lemma ThiefStepKeepsCon<T>(s: Deque<T>, tid: nat, spurious: bool)
    requires Mem(s) && Con(s)
    ensures Con(ThiefStep(s, tid, spurious))
  {
    var pc := ThiefOf(s, tid).pc;
    if pc.StealCas? && pc.t == s.top {
      StealKeepsCon(s, tid);
    } else if tid in s.thieves {
      assert ThiefFits(s, pc);
      ThiefStepFits(s, tid, spurious);
      ThiefMoveKeepsCon(s, ThiefStep(s, tid, spurious), tid);
    }
  }

  lemma OwnerCallKeepsCon<T>(s: Deque<T>, a: Action<T>)
    requires Mem(s) && Con(s) && (a.OwnerPush? || a.OwnerPop? || a.OwnerReturn?)
    ensures Con(Step(s, a))
  {
    var s' := Step(s, a);
    StepKeepsMem(s, a);
    assert s.claims[..|s.claims|] == s.claims;
    CarriesThieves(s, s');
    OwnerCallKeepsCore(s, a);
  }

  lemma OwnerCallKeepsCore<T>(s: Deque<T>, a: Action<T>)
    requires Core(s) && (a.OwnerPush? || a.OwnerPop? || a.OwnerReturn?)
    ensures Core(Step(s, a))
  {
  }

  lemma StepKeepsCon<T>(s: Deque<T>, a: Action<T>)
    requires Mem(s) && Con(s)
    ensures Con(Step(s, a))
  {
    match a
    case OwnerGo => OwnerStepKeepsCon(s);
    case ThiefGo(t, spurious) => ThiefStepKeepsCon(s, t, spurious);
    case OwnerPush(_) => OwnerCallKeepsCon(s, a);
    case OwnerPop => OwnerCallKeepsCon(s, a);
    case OwnerReturn => OwnerCallKeepsCon(s, a);
    case _ => if Step(s, a) != s { ThiefMoveKeepsCon(s, Step(s, a), a.tid); }
  }

  lemma {:induction false} RunKeepsInv<T>(acts: seq<Action<T>>)
    ensures Mem(Exec(Init(), acts)) && Con(Exec(Init(), acts))
  {
    RunKeepsMem(acts);
    if acts != [] {
      RunKeepsInv(acts[..|acts| - 1]);
      StepKeepsCon(Exec(Init(), acts[..|acts| - 1]), acts[|acts| - 1]);
    } else {
      SizeAtLeast(LOG_INITIAL_SIZE);
    }
  }
}
