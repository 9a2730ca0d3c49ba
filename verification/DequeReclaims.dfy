/**
 What an operation of the owner does to the buffers when the thieves stand still: by how much the
 active one grows or shrinks, and exactly which old ones are deleted.
 */
module DequeReclaims {
  import opened Common
  import opened Deque
  import opened DequeMemory
  import opened DequeContents

  // ----- The bound up to which buffers are deleted -----

  /** What the token of thief `t` makes of the bound `least`. */
  function Shown<T>(s: Deque<T>, t: nat, least: nat): nat {
    if ThiefOf(s, t).wasIdle then least else Min(ThiefOf(s, t).idLastUsed, least)
  }

  /** The least of the active id and the ids that the tokens at `left` and after it show. */
  function LeastFrom<T>(s: Deque<T>, left: nat): nat
    requires left <= |s.registry|
    decreases |s.registry| - left
  {
    if left == |s.registry| then s.active else Shown(s, s.registry[left], LeastFrom(s, left + 1))
  }

  function Least<T>(s: Deque<T>): nat {
    LeastFrom(s, 0)
  }

  /** Token `t` says that a thief is at work and shows the id it may use. */
  predicate Busy<T>(s: Deque<T>, t: nat) {
    t in s.registry && !ThiefOf(s, t).wasIdle
  }

  /** The bound is a lower bound of the active id and of what busy tokens show, and one of them. */
  lemma {:induction false} LeastFromIs<T>(s: Deque<T>, left: nat)
    requires left <= |s.registry|
    ensures LeastFrom(s, left) <= s.active
    ensures forall i :: left <= i < |s.registry| && !ThiefOf(s, s.registry[i]).wasIdle ==>
              LeastFrom(s, left) <= ThiefOf(s, s.registry[i]).idLastUsed
    ensures LeastFrom(s, left) < s.active ==>
              exists i :: left <= i < |s.registry| && !ThiefOf(s, s.registry[i]).wasIdle &&
                          LeastFrom(s, left) == ThiefOf(s, s.registry[i]).idLastUsed
    decreases |s.registry| - left
  {
    if left < |s.registry| {
      LeastFromIs(s, left + 1);
    }
  }

  lemma LeastIs<T>(s: Deque<T>)
    ensures Least(s) <= s.active
    ensures forall t :: Busy(s, t) ==> Least(s) <= ThiefOf(s, t).idLastUsed
    ensures Least(s) < s.active ==> exists t :: Busy(s, t) && Least(s) == ThiefOf(s, t).idLastUsed
  {
    LeastFromIs(s, 0);
    if Least(s) < s.active {
      var i :| 0 <= i < |s.registry| && !ThiefOf(s, s.registry[i]).wasIdle &&
               Least(s) == ThiefOf(s, s.registry[i]).idLastUsed;
      assert Busy(s, s.registry[i]);
    }
  }

  lemma {:induction false} SameLeast<T>(s: Deque<T>, s': Deque<T>, left: nat)
    requires left <= |s.registry| && s'.registry == s.registry && s'.thieves == s.thieves && s'.active == s.active
    ensures LeastFrom(s', left) == LeastFrom(s, left)
    decreases |s.registry| - left
  {
    if left < |s.registry| {
      SameLeast(s, s', left + 1);
    }
  }

  /** Deletion has gone as far as the bound allows, from `oldest` on. */
  ghost predicate Reclaimed<T>(s: Deque<T>, oldest: nat) {
    Oldest(s) == Max(oldest, Least(s))
  }

  /**
   The progress of an undisturbed operation that found `oldest` as its oldest buffer; `far` tells
   whether it gets as far as reclaiming, which a pop does that finds two items or more.
   */
  ghost predicate Reclaims<T>(s: Deque<T>, oldest: nat, far: bool) {
    match s.owner
    case PopDec(b) => Oldest(s) == oldest && (far <==> b - s.top >= 2)
    case PopCas(_, _) => Oldest(s) == oldest && !far
    case PopLast(_, _, _) => Oldest(s) == oldest && !far
    case PopRestore(_, _) => Oldest(s) == oldest && !far
    case PopEnd(_) => if far then Reclaimed(s, oldest) else Oldest(s) == oldest
    case ScanToken(_, minId, left) => far && Oldest(s) == oldest && left <= |s.registry| && minId == LeastFrom(s, left)
    case ScanId(_, minId, left) =>
      && far && Oldest(s) == oldest && 0 < left <= |s.registry| && minId == LeastFrom(s, left)
      && !ThiefOf(s, s.registry[left - 1]).wasIdle
    case Free(_, minId) => far && minId == Least(s) && oldest <= Oldest(s) <= Max(oldest, minId)
    case PushPut(_, _) => far && Reclaimed(s, oldest)
    case PushBottom(_, _) => far && Reclaimed(s, oldest)
    case OwnerIdle => far && Reclaimed(s, oldest)
    case _ => far && Oldest(s) == oldest
  }

  lemma LoadReclaims<T>(s: Deque<T>, oldest: nat)
    requires Mem(s) && s.owner.LoadTokens? && Reclaims(s, oldest, true)
    ensures Reclaims(OwnerStep(s), oldest, true)
  {
    assert BufferFits(s, s.active);
  }

  lemma TokenReclaims<T>(s: Deque<T>, oldest: nat)
    requires Registered(s) && s.owner.ScanToken? && Reclaims(s, oldest, true)
    ensures Reclaims(OwnerStep(s), oldest, true)
  {
    var left := s.owner.left;
    SameLeast(s, OwnerStep(s), left);
    if left > 0 {
      SameLeast(s, OwnerStep(s), left - 1);
      assert s.registry[left - 1] in s.thieves;
      assert LeastFrom(s, left - 1) == Shown(s, s.registry[left - 1], LeastFrom(s, left));
    }
  }

  lemma IdReclaims<T>(s: Deque<T>, oldest: nat)
    requires Registered(s) && s.owner.ScanId? && Reclaims(s, oldest, true)
    ensures Reclaims(OwnerStep(s), oldest, true)
  {
    var left := s.owner.left;
    SameLeast(s, OwnerStep(s), left - 1);
    assert s.registry[left - 1] in s.thieves;
    assert LeastFrom(s, left - 1) == Shown(s, s.registry[left - 1], LeastFrom(s, left));
  }

  /** Every deletion stays below the bound, and deleting stops only when nothing below it is left. */
  lemma FreeReclaims<T>(s: Deque<T>, oldest: nat)
    requires Mem(s) && s.owner.Free? && Reclaims(s, oldest, true)
    ensures Reclaims(OwnerStep(s), oldest, true)
  {
    assert BufferFits(s, s.unlinked.value);
    SameLeast(s, OwnerStep(s), 0);
  }

  /** Where nothing was ever replaced there is nothing to delete. */
  lemma StartReclaims<T>(s: Deque<T>, after: After<T>)
    requires s.unlinked.None? ==> s.active == 0
    ensures Reclaims(StartReclaim(s, after), Oldest(s), true)
  {
    SameLeast(s, StartReclaim(s, after), 0);
    LeastIs(s);
  }

  lemma SeenReclaims<T>(s: Deque<T>)
    requires (s.unlinked.None? ==> s.active == 0) && (s.owner.PushSeen? || s.owner.PopTake?)
    ensures Reclaims(OwnerStep(s), Oldest(s), true)
  {
    var b := s.owner.b;
    if s.owner.PushSeen? {
      StartReclaims(s, ThenPut(s.owner.item, b));
    } else {
      StartReclaims(s, ThenReturn(Took(if b > 0 then Get(Active(s), b - 1) else None)));
    }
  }

  lemma QuietReclaims<T>(s: Deque<T>, oldest: nat, far: bool)
    requires Reclaims(s, oldest, far)
    requires var w := s.owner; w.PushPut? || w.PushBottom? || w.PopDec? || w.PopCas? || w.PopLast? || w.PopRestore?
    ensures Reclaims(OwnerStep(s), oldest, far)
  {
    SameLeast(s, OwnerStep(s), 0);
  }

  lemma OwnerReclaims<T>(s: Deque<T>, oldest: nat, far: bool)
    requires Mem(s) && Reclaims(s, oldest, far) && !s.owner.OwnerIdle? && !s.owner.PopEnd?
    ensures Reclaims(OwnerStep(s), oldest, far)
  {
    match s.owner
    case PushSeen(_, _, _) => SeenReclaims(s);
    case PopTake(_, _, _) => SeenReclaims(s);
    case StoreActive(after, n) => StartReclaims(s.(active := n), after);
    case LoadTokens(_) => LoadReclaims(s, oldest);
    case ScanToken(_, _, _) => TokenReclaims(s, oldest);
    case ScanId(_, _, _) => IdReclaims(s, oldest);
    case Free(_, _) => FreeReclaims(s, oldest);
    case _ => QuietReclaims(s, oldest, far);
  }

  /** With all tokens idle only the active buffer is left. */
  lemma AllIdleLeavesOne<T>(s: Deque<T>, oldest: nat)
    requires Mem(s) && Reclaimed(s, oldest) && oldest <= s.active && (s.owner.OwnerIdle? || s.owner.PopEnd?)
    requires forall t :: !Busy(s, t)
    ensures s.buffers.Keys == {s.active}
  {
    LeastIs(s);
  }

  // ----- The size of the active buffer -----

  /** The size that the active buffer has at the end of an undisturbed operation, and its id. */
  function FinalLog<T>(s: Deque<T>): int {
    var a := Active(s);
    match s.owner
    case PushSeen(_, b, t) => if b - t >= Size(a) - 1 then a.logSize + 1 else a.logSize
    case PopDec(b) => if b - s.top >= 2 && Shrinks(a, b, s.top) then a.logSize - 1 else a.logSize
    case PopTake(b, t, _) => if Shrinks(a, b, t) then a.logSize - 1 else a.logSize
    case StoreActive(_, n) => BufferAt(s, n).logSize
    case _ => a.logSize
  }

  function FinalActive<T>(s: Deque<T>): nat {
    if s.owner.StoreActive? then s.owner.fresh_
    else if FinalLog(s) != Active(s).logSize then s.created
    else s.active
  }

  lemma SizeStays<T>(s: Deque<T>)
    requires Mem(s) && !s.owner.OwnerIdle? && !s.owner.PopEnd?
    ensures FinalLog(OwnerStep(s)) == FinalLog(s) && FinalActive(OwnerStep(s)) == FinalActive(s)
  {
    assert BufferFits(s, s.active);
    match s.owner
    case PushSeen(_, _, _) => ReplaceSizes(s);
    case PopTake(_, _, _) => ReplaceSizes(s);
    case Free(_, _) => FreeKeepsSize(s);
    case StoreActive(_, _) => StoreKeepsSize(s);
    case PopDec(_) => DecideKeepsSize(s);
    case PopCas(_, _) => DecideKeepsSize(s);
    case LoadTokens(_) => ScanKeepsSize(s);
    case ScanToken(_, _, _) => ScanKeepsSize(s);
    case ScanId(_, _, _) => ScanKeepsSize(s);
    case _ => OthersKeepSize(s);
  }

  lemma StoreKeepsSize<T>(s: Deque<T>)
    requires s.owner.StoreActive?
    ensures FinalLog(OwnerStep(s)) == FinalLog(s) && FinalActive(OwnerStep(s)) == FinalActive(s)
  {
  }

  lemma DecideKeepsSize<T>(s: Deque<T>)
    requires s.owner.PopDec? || s.owner.PopCas?
    ensures FinalLog(OwnerStep(s)) == FinalLog(s) && FinalActive(OwnerStep(s)) == FinalActive(s)
  {
  }

  lemma FreeKeepsSize<T>(s: Deque<T>)
    requires s.owner.Free? && s.owner.minId <= s.active && Active(s).id == s.active
    ensures FinalLog(OwnerStep(s)) == FinalLog(s) && FinalActive(OwnerStep(s)) == FinalActive(s)
  {
  }

  lemma ScanKeepsSize<T>(s: Deque<T>)
    requires s.owner.LoadTokens? || s.owner.ScanToken? || s.owner.ScanId?
    ensures FinalLog(OwnerStep(s)) == FinalLog(s) && FinalActive(OwnerStep(s)) == FinalActive(s)
  {
  }

  lemma OthersKeepSize<T>(s: Deque<T>)
    requires !s.owner.PushSeen? && !s.owner.PopTake? && !s.owner.Free? && !s.owner.StoreActive?
    requires !s.owner.PopDec? && !s.owner.PopCas? && !s.owner.LoadTokens? && !s.owner.ScanToken? && !s.owner.ScanId?
    ensures FinalLog(OwnerStep(s)) == FinalLog(s) && FinalActive(OwnerStep(s)) == FinalActive(s)
  {
  }

  lemma ReplaceSizes<T>(s: Deque<T>)
    requires s.active in s.buffers && s.created !in s.buffers && (s.owner.PushSeen? || s.owner.PopTake?)
    ensures FinalLog(OwnerStep(s)) == FinalLog(s) && FinalActive(OwnerStep(s)) == FinalActive(s)
  {
  }

  /** The active buffer has been replaced by one twice or half its size, as `step` says, or stays. */
  ghost predicate Resized<T>(s: Deque<T>, s': Deque<T>, step: int) {
    && Active(s').logSize == Active(s).logSize + step
    && s'.active == if step == 0 then s.active else s.active + 1
  }

  /** An undisturbed operation that will have resized the active buffer of `s0` as `step` says. */
  ghost predicate Resizes<T>(s: Deque<T>, s0: Deque<T>, far: bool, step: int) {
    && s.thieves == s0.thieves && s.registry == s0.registry
    && Reclaims(s, Oldest(s0), far) && FinalLog(s) == Active(s0).logSize + step
    && FinalActive(s) == if step == 0 then s0.active else s0.active + 1
  }

  /** When to grow: no slot would be spare after one more item. */
  function GrowsBy<T>(s: Deque<T>): int {
    if |s.items| >= Size(Active(s)) - 1 then 1 else 0
  }

  /** When to shrink: more than the initial 16 items, but no more than a third of the slots. */
  function ShrinksBy<T>(s: Deque<T>): int {
    if 16 < |s.items| <= Size(Active(s)) / 3 then -1 else 0
  }

  lemma PushResizes<T>(s: Deque<T>, item: T)
    requires Mem(s) && Core(s) && s.owner.OwnerIdle?
    ensures Resizes(Step(s, OwnerPush(item)), s, true, GrowsBy(s))
  {
  }

  lemma PopResizes<T>(s: Deque<T>)
    requires Mem(s) && Core(s) && s.owner.OwnerIdle?
    ensures Resizes(Step(s, OwnerPop), s, |s.items| >= 2, ShrinksBy(s))
  {
    assert Pow2(4) == 16;
  }

  lemma OwnerKeepsRegistry<T>(s: Deque<T>)
    ensures OwnerStep(s).registry == s.registry && OwnerStep(s).thieves == s.thieves
  {
    match s.owner
    case PushSeen(_, _, _) =>
    case PopTake(_, _, _) =>
    case _ =>
  }

  lemma ResizesOn<T>(s: Deque<T>, s0: Deque<T>, far: bool, step: int)
    requires Mem(s) && Resizes(s, s0, far, step) && !s.owner.OwnerIdle? && !s.owner.PopEnd?
    ensures Resizes(OwnerStep(s), s0, far, step)
  {
    OwnerKeepsRegistry(s);
    OwnerReclaims(s, Oldest(s0), far);
    SizeStays(s);
  }

  lemma ResizesEnds<T>(s: Deque<T>, s0: Deque<T>, far: bool, step: int)
    requires Mem(s) && Resizes(s, s0, far, step) && (s.owner.OwnerIdle? || s.owner.PopEnd?)
    ensures Resized(s0, s, step)
    ensures if far then Reclaimed(s, Oldest(s0)) else Oldest(s) == Oldest(s0)
  {
  }

  lemma PushReclaims<T>(s: Deque<T>, s': Deque<T>)
    requires Mem(s) && Mem(s') && s'.owner.OwnerIdle? && Resizes(s', s, true, GrowsBy(s))
    ensures Resized(s, s', GrowsBy(s)) && Reclaimed(s', Oldest(s))
    ensures (forall t :: !Busy(s', t)) ==> s'.buffers.Keys == {s'.active}
  {
    ResizesEnds(s', s, true, GrowsBy(s));
    if forall t :: !Busy(s', t) {
      AllIdleLeavesOne(s', Oldest(s));
    }
  }
}
