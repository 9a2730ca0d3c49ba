/** Operations of the deque run by one thread while the others stand still: how long, and to what end. */
module DequeAlone {
  import opened Common
  import opened Deque
  import opened DequeMemory
  import opened DequeContents
  import opened DequeRuns

  // ----- Bounded operations -----

  /** How many of its own steps the owner is at most away from the end of its operation. */
  function StepsLeft<T>(s: Deque<T>): int {
    match s.owner
    case OwnerIdle => 0
    case PopEnd(_) => 0
    case PushBottom(_, _) => 1
    case PopRestore(_, _) => 1
    case PushPut(_, _) => 2
    case PopLast(_, _, _) => 2
    case PopCas(_, _) => 3
    case Free(_, _) => 3 + s.created - Oldest(s)
    case ScanToken(_, _, left) => 4 + s.created + 2 * left
    case ScanId(_, _, left) => 3 + s.created + 2 * left
    case LoadTokens(_) => 5 + s.created + 2 * |s.registry|
    case StoreActive(_, _) => 6 + s.created + 2 * |s.registry|
    case PushSeen(_, _, _) => 8 + s.created + 2 * |s.registry|
    case PopTake(_, _, _) => 8 + s.created + 2 * |s.registry|
    case PopDec(_) => 9 + s.created + 2 * |s.registry|
  }

  /** Every own step brings the owner nearer to the end of its push or pop: it never has to retry. */
  lemma OwnerAdvances<T>(s: Deque<T>)
    requires Mem(s) && !s.owner.OwnerIdle? && !s.owner.PopEnd?
    ensures 0 <= StepsLeft(OwnerStep(s)) < StepsLeft(s)
  {
    OldestIsMade(s);
    match s.owner {
      case PushSeen(_, _, _) => ReclaimIsNear(s);
      case PopTake(_, _, _) => ReclaimIsNear(s);
      case StoreActive(_, _) => ReclaimIsNear(s);
      case LoadTokens(_) => ScanIsNear(s);
      case ScanToken(_, _, _) => ScanIsNear(s);
      case ScanId(_, _, _) => ScanIsNear(s);
      case Free(_, _) => FreeIsNear(s);
      case _ => OthersAreNear(s);
    }
  }

  lemma OldestIsMade<T>(s: Deque<T>)
    requires Mem(s)
    ensures Oldest(s) <= s.created
  {
    if s.unlinked.Some? {
      assert BufferFits(s, s.unlinked.value);
    }
  }

  lemma ScanIsNear<T>(s: Deque<T>)
    requires Reclaiming(s) && Oldest(s) <= s.created
    requires s.owner.LoadTokens? || s.owner.ScanToken? || s.owner.ScanId?
    ensures 0 <= StepsLeft(OwnerStep(s)) < StepsLeft(s)
  {
  }

  lemma FreeIsNear<T>(s: Deque<T>)
    requires Mem(s) && s.owner.Free?
    ensures 0 <= StepsLeft(OwnerStep(s)) < StepsLeft(s)
  {
    assert BufferFits(s, s.unlinked.value);
  }

  lemma OthersAreNear<T>(s: Deque<T>)
    requires var w := s.owner; w.PushPut? || w.PushBottom? || w.PopDec? || w.PopCas? || w.PopLast? || w.PopRestore?
    ensures 0 <= StepsLeft(OwnerStep(s)) < StepsLeft(s)
  {
  }

  lemma ReclaimIsNear<T>(s: Deque<T>)
    requires s.owner.PushSeen? || s.owner.PopTake? || s.owner.StoreActive?
    ensures 0 <= StepsLeft(OwnerStep(s)) < StepsLeft(s)
  {
    match s.owner
    case PushSeen(_, _, _) =>
    case PopTake(_, _, _) =>
    case StoreActive(_, _) =>
  }

  /** Thieves do not hold the owner up, but for looking at the token of each one that registers meanwhile. */
  lemma ThievesDoNotDelay<T>(s: Deque<T>, a: Action<T>)
    requires a.ThiefGo? || a.ThiefSteal? || a.ThiefRegister? || a.ThiefReturn?
    ensures StepsLeft(Step(s, a)) <= StepsLeft(s) + 2 * (|Step(s, a).registry| - |s.registry|)
  {
    ThiefLeavesOwner(s, a);
  }

  lemma ThiefLeavesOwner<T>(s: Deque<T>, a: Action<T>)
    requires a.ThiefGo? || a.ThiefSteal? || a.ThiefRegister? || a.ThiefReturn?
    ensures var s' := Step(s, a);
            && s'.owner == s.owner && s'.unlinked == s.unlinked && s'.created == s.created
            && |s'.registry| >= |s.registry|
  {
  }

  // ----- What an operation of the owner is about -----

  ghost predicate Pushes<T>(o: Owner<T>, item: T) {
    match o
    case PushSeen(i, _, _) => i == item
    case StoreActive(after, _) => after.ThenPut? && after.item == item
    case LoadTokens(after) => after.ThenPut? && after.item == item
    case ScanToken(after, _, _) => after.ThenPut? && after.item == item
    case ScanId(after, _, _) => after.ThenPut? && after.item == item
    case Free(after, _) => after.ThenPut? && after.item == item
    case PushPut(i, _) => i == item
    case PushBottom(i, _) => i == item
    case _ => false
  }

  lemma PushGoesOn<T>(s: Deque<T>, item: T)
    requires Mem(s) && Con(s) && Pushes(s.owner, item)
    ensures var s' := OwnerStep(s);
            s'.top == s.top && s'.claims == s.claims && s'.thieves == s.thieves &&
            if s'.owner.OwnerIdle? then s'.items == s.items + [item] else Pushes(s'.owner, item) && s'.items == s.items
  {
    OwnerKeepsThieves(s);
    if !s.owner.PushBottom? {
      QuietOwner(s);
    }
  }

  ghost predicate TookLast<T>(taken: Taken<T>, items: seq<T>) {
    if items == [] then taken.Nothing?
    else taken.Took? && taken.read.Some? && taken.read.value.item == items[|items| - 1]
  }

  /** The progress of an undisturbed pop from `items`. */
  ghost predicate Pops<T>(s: Deque<T>, items: seq<T>, claims: seq<T>) {
    var rest := if items == [] then [] else items[..|items| - 1];
    var won := if items == [] then claims else claims + [items[|items| - 1]];
    match s.owner
    case PopDec(_) => s.items == items && s.claims == claims
    case PopCas(_, t) => s.items == items && s.claims == claims && t == s.top && |items| == 1
    case PopLast(_, _, k) => s.items == rest && s.claims == won && k == |claims| && items != []
    case PopTake(_, _, k) => s.items == rest && s.claims == won && k == |claims| && items != []
    case PopRestore(_, taken) => s.items == rest && s.claims == won && TookLast(taken, items)
    case PopEnd(taken) => s.items == rest && s.claims == won && TookLast(taken, items)
    case StoreActive(ThenReturn(taken), _) => s.items == rest && s.claims == won && TookLast(taken, items)
    case LoadTokens(ThenReturn(taken)) => s.items == rest && s.claims == won && TookLast(taken, items)
    case ScanToken(ThenReturn(taken), _, _) => s.items == rest && s.claims == won && TookLast(taken, items)
    case ScanId(ThenReturn(taken), _, _) => s.items == rest && s.claims == won && TookLast(taken, items)
    case Free(ThenReturn(taken), _) => s.items == rest && s.claims == won && TookLast(taken, items)
    case _ => false
  }

  lemma PopGoesOn<T>(s: Deque<T>, items: seq<T>, claims: seq<T>)
    requires Mem(s) && Con(s) && Pops(s, items, claims) && !s.owner.PopEnd?
    ensures Pops(OwnerStep(s), items, claims) && OwnerStep(s).thieves == s.thieves
  {
    OwnerKeepsThieves(s);
    if s.owner.PopDec? || s.owner.PopCas? || s.owner.PopLast? || s.owner.PopRestore? {
      PopDecides(s, items, claims);
    } else {
      QuietOwner(s);
      PopReclaims(s, items, claims);
    }
  }

  lemma PopDecides<T>(s: Deque<T>, items: seq<T>, claims: seq<T>)
    requires Core(s) && Pops(s, items, claims)
    requires s.owner.PopDec? || s.owner.PopCas? || s.owner.PopLast? || s.owner.PopRestore?
    ensures Pops(OwnerStep(s), items, claims)
  {
    match s.owner
    case PopDec(_) =>
    case PopCas(_, _) => assert items[1..] == items[..0];
    case PopLast(_, _, _) =>
    case PopRestore(_, _) =>
  }

  lemma PopReclaims<T>(s: Deque<T>, items: seq<T>, claims: seq<T>)
    requires Core(s) && Pops(s, items, claims)
    requires s.owner.PopTake? || s.owner.StoreActive? || s.owner.LoadTokens? || s.owner.ScanToken? ||
             s.owner.ScanId? || s.owner.Free?
    ensures Pops(OwnerStep(s), items, claims)
  {
    match s.owner
    case PopTake(_, _, _) =>
    case StoreActive(_, _) =>
    case _ =>
  }

  // ----- What an operation of a thief is about -----

  /** What a steal brings back: the first item if there was one between the bounds. */
  ghost predicate TookFirst<T>(taken: Taken<T>, some: bool, items: seq<T>) {
    if some then items != [] && taken.Took? && taken.read.Some? && taken.read.value.item == items[0]
    else taken.Nothing?
  }

  ghost predicate Unclaimed<T>(s: Deque<T>, s0: Deque<T>) {
    s.top == s0.top && s.items == s0.items && s.claims == s0.claims
  }

  ghost predicate FirstClaimed<T>(s: Deque<T>, s0: Deque<T>) {
    && s0.items != [] && s.top == s0.top + 1
    && s.items == s0.items[1..] && s.claims == s0.claims + [s0.items[0]]
  }

  ghost predicate Outcome<T>(s: Deque<T>, s0: Deque<T>, taken: Taken<T>) {
    && TookFirst(taken, s0.bottom > s0.top, s0.items)
    && if s0.bottom > s0.top then FirstClaimed(s, s0) else Unclaimed(s, s0)
  }

  /** The progress of a steal by `tid` that started at `s0`, nobody else moving. */
  ghost predicate Steals<T>(s: Deque<T>, s0: Deque<T>, tid: nat) {
    && s == s0.(thieves := s0.thieves[tid := ThiefOf(s, tid)], top := s.top, items := s.items, claims := s.claims)
    && tid in s.thieves
    && match ThiefOf(s, tid).pc
       case StealStart => Unclaimed(s, s0)
       case StealTop => Unclaimed(s, s0)
       case StealBottom(t) => Unclaimed(s, s0) && t == s.top
       case StealLoad(t) => Unclaimed(s, s0) && t == s.top && s0.bottom > t
       case StealCas(t, _) => Unclaimed(s, s0) && t == s.top && s0.bottom > t
       case StealGet(t, _, k) => FirstClaimed(s, s0) && t + 1 == s.top && k == |s0.claims| && s0.bottom > t
       case StealRest(taken, _) => Outcome(s, s0, taken)
       case StealNote(taken) => Outcome(s, s0, taken) && ThiefOf(s, tid).wasIdle
       case StealEnd(taken) => Outcome(s, s0, taken) && ThiefOf(s, tid) == ThiefState(StealEnd(taken), s.active, true)
       case _ => false
  }

  /** How many of its own steps a steal is from its end. */
  function StealLeft<T>(pc: Thief<T>): nat {
    match pc
    case StealStart => 8
    case StealTop => 7
    case StealBottom(_) => 6
    case StealLoad(_) => 5
    case StealCas(_, _) => 4
    case StealGet(_, _, _) => 3
    case StealRest(_, _) => 2
    case StealNote(_) => 1
    case _ => 0
  }

  /** Whatever the others have done meanwhile, each own step brings a steal nearer to its end. */
  lemma ThiefAdvances<T>(s: Deque<T>, tid: nat, spurious: bool)
    requires StealLeft(ThiefOf(s, tid).pc) > 0
    ensures var pc := ThiefOf(ThiefStep(s, tid, spurious), tid).pc;
            StealLeft(pc) < StealLeft(ThiefOf(s, tid).pc) && (StealLeft(pc) > 0 || pc.StealEnd?)
  {
  }

  lemma OthersLeaveThief<T>(s: Deque<T>, a: Action<T>, tid: nat)
    requires StealLeft(ThiefOf(s, tid).pc) > 0 || ThiefOf(s, tid).pc.StealEnd?
    requires a != ThiefReturn(tid) && !IsOwn(a, tid)
    ensures ThiefOf(Step(s, a), tid) == ThiefOf(s, tid)
  {
    if a.ThiefGo? || a.OwnerGo? {
      assert tid in s.thieves;
    }
  }

  lemma RegisterBegins<T>(s: Deque<T>, tid: nat)
    requires ThiefOf(s, tid).pc.Unregistered?
    ensures var s' := Step(s, ThiefRegister(tid)); var done := ThiefState(ThiefIdle, 0, true);
            && tid in s'.thieves && s'.thieves[tid] == ThiefState(RegisterSeen(|s'.registry|), 0, true)
            && s'.registry == s.registry && SetThief(s', tid, done) == SetThief(s, tid, done)
  {
    var s' := Step(s, ThiefRegister(tid));
    assert s'.thieves[tid := ThiefState(ThiefIdle, 0, true)] == s.thieves[tid := ThiefState(ThiefIdle, 0, true)];
  }

  /** A failed CAS leaves everything as it is when nobody else moves, the next one that succeeds adds the token. */
  lemma RegisterGoesOn<T>(s: Deque<T>, tid: nat)
    requires tid in s.thieves && s.thieves[tid] == ThiefState(RegisterSeen(|s.registry|), 0, true)
    ensures ThiefStep(s, tid, true) == s
    ensures ThiefStep(s, tid, false) ==
            SetThief(s, tid, ThiefState(ThiefIdle, 0, true)).(registry := s.registry + [tid])
  {
    assert s.thieves[tid := s.thieves[tid]] == s.thieves;
  }

  predicate IsOwn<T>(a: Action<T>, tid: nat) {
    a.ThiefGo? && a.tid == tid
  }

  function OwnSteps<T>(acts: seq<Action<T>>, tid: nat): nat {
    if acts == [] then 0 else
      OwnSteps(acts[..|acts| - 1], tid) + if IsOwn(acts[|acts| - 1], tid) then 1 else 0
  }

  predicate StealWithin<T>(pc: Thief<T>, n: int) {
    (StealLeft(pc) > 0 || pc.StealEnd?) && StealLeft(pc) <= Max(0, n)
  }

  lemma StealMoves<T>(s: Deque<T>, a: Action<T>, tid: nat, n: int)
    requires StealWithin(ThiefOf(s, tid).pc, n) && a != ThiefReturn(tid)
    ensures StealWithin(ThiefOf(Step(s, a), tid).pc, n - if IsOwn(a, tid) then 1 else 0)
  {
    if !IsOwn(a, tid) {
      OthersLeaveThief(s, a, tid);
    } else if StealLeft(ThiefOf(s, tid).pc) > 0 {
      ThiefAdvances(s, tid, a.spurious);
    }
  }

  /** A steal is wait-free: it is over after eight steps of its thread, however the others run. */
  lemma {:induction false} StealIsWaitFree<T>(s: Deque<T>, acts: seq<Action<T>>, tid: nat)
    requires ThiefOf(s, tid).pc.StealStart? && ThiefReturn(tid) !in acts
    ensures StealWithin(ThiefOf(Exec(s, acts), tid).pc, 8 - OwnSteps(acts, tid))
  {
    if acts != [] {
      var before, a := acts[..|acts| - 1], acts[|acts| - 1];
      StealIsWaitFree(s, before, tid);
      assert a in acts;
      StealMoves(Exec(s, before), a, tid, 8 - OwnSteps(before, tid));
    }
  }

  lemma StealGoesOn<T>(s: Deque<T>, s0: Deque<T>, tid: nat)
    requires Mem(s) && Con(s) && Steals(s, s0, tid) && !ThiefOf(s, tid).pc.StealEnd?
    ensures var s' := ThiefStep(s, tid, false);
            Steals(s', s0, tid) && StealLeft(ThiefOf(s', tid).pc) < StealLeft(ThiefOf(s, tid).pc)
  {
    var pc := ThiefOf(s, tid).pc;
    assert ThiefFits(s, pc) && BufferFits(s, s.active);
    if pc.StealCas? {
      CasGoesOn(s, s0, tid);
    } else if pc.StealGet? {
      GetGoesOn(s, s0, tid);
    } else {
      OthersGoOn(s, s0, tid);
    }
  }

  lemma CasGoesOn<T>(s: Deque<T>, s0: Deque<T>, tid: nat)
    requires Steals(s, s0, tid) && ThiefOf(s, tid).pc.StealCas? && ThiefFits(s, ThiefOf(s, tid).pc)
    ensures var s' := ThiefStep(s, tid, false); Steals(s', s0, tid) && ThiefOf(s', tid).pc.StealGet?
  {
    var th := ThiefOf(s, tid);
    assert s.thieves[tid := th.(pc := StealGet(th.pc.t, th.pc.held, |s.claims|))] ==
           s0.thieves[tid := th.(pc := StealGet(th.pc.t, th.pc.held, |s.claims|))];
  }

  lemma GetGoesOn<T>(s: Deque<T>, s0: Deque<T>, tid: nat)
    requires Steals(s, s0, tid) && ThiefOf(s, tid).pc.StealGet? && ThiefFits(s, ThiefOf(s, tid).pc)
    ensures var s' := ThiefStep(s, tid, false); Steals(s', s0, tid) && ThiefOf(s', tid).pc.StealRest?
  {
    var s' := ThiefStep(s, tid, false);
    assert s.thieves[tid := ThiefOf(s', tid)] == s0.thieves[tid := ThiefOf(s', tid)];
  }

  lemma OthersGoOn<T>(s: Deque<T>, s0: Deque<T>, tid: nat)
    requires Steals(s, s0, tid) && Active(s).id == s.active
    requires var pc := ThiefOf(s, tid).pc; !pc.StealCas? && !pc.StealGet? && !pc.StealEnd?
    ensures var s' := ThiefStep(s, tid, false);
            Steals(s', s0, tid) && StealLeft(ThiefOf(s', tid).pc) < StealLeft(ThiefOf(s, tid).pc)
  {
    var s' := ThiefStep(s, tid, false);
    assert s.thieves[tid := ThiefOf(s', tid)] == s0.thieves[tid := ThiefOf(s', tid)];
  }

  /**
   What a whole steal by `tid` amounts to: the first item, if there is one between the bounds, leaves
   the deque for the caller, and the token is idle again and shows the active buffer.
   */
  ghost predicate Stole<T>(s0: Deque<T>, s: Deque<T>, tid: nat, result: Option<T>) {
    && s == s0.(thieves := s0.thieves[tid := ThiefState(ThiefIdle, s0.active, true)],
                top := s.top, items := s.items, claims := s.claims)
    && if s0.bottom > s0.top then
         && result.Some? && s0.items == [result.value] + s.items
         && s.top == s0.top + 1 && s.claims == s0.claims + [result.value]
       else result.None? && Unclaimed(s, s0)
  }

  lemma StealEnds<T>(s: Deque<T>, s0: Deque<T>, tid: nat)
    requires Steals(s, s0, tid) && ThiefOf(s, tid).pc.StealEnd?
    ensures var taken := ThiefOf(s, tid).pc.taken;
            Stole(s0, Step(s, ThiefReturn(tid)), tid,
                  if taken.Took? && taken.read.Some? then Some(taken.read.value.item) else None)
  {
    assert s.thieves[tid := ThiefState(ThiefIdle, s.active, true)] ==
           s0.thieves[tid := ThiefState(ThiefIdle, s.active, true)];
    if s0.bottom > s0.top {
      assert s0.items == [s0.items[0]] + s0.items[1..];
    }
  }
}
