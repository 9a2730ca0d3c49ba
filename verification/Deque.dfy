/**
 The work-stealing deque as a step system: one owner pushes and pops at the bottom, any number
 of thieves steal at the top, and the ring buffers that the owner replaces are reclaimed through
 the thieves' tokens.
 */
module Deque {
  import opened Common

  /** An item in a slot, with the deque index at which it was put there. */
  datatype Entry<T> = Entry(index: nat, item: T)

  /** A slot is None until something is put in it. */
  datatype Buffer<T> = Buffer(id: nat, logSize: nat, segment: seq<Option<Entry<T>>>, next: Option<nat>)

  datatype Taken<T> = Nothing | Took(read: Option<Entry<T>>)

  /** What the owner goes on to do once buffers have been dealt with. */
  datatype After<T> = ThenPut(item: T, b: nat) | ThenReturn(taken: Taken<T>)

  /** Where the owner is; `serial` numbers the claim an operation has made. */
  datatype Owner<T> =
    | OwnerIdle
    | PushSeen(item: T, b: nat, t: nat)
    | StoreActive(after: After<T>, fresh_: nat)
    | LoadTokens(after: After<T>)
    | ScanToken(after: After<T>, minId: nat, left: nat)
    | ScanId(after: After<T>, minId: nat, left: nat)
    | Free(after: After<T>, minId: nat)
    | PushPut(item: T, b: nat)
    | PushBottom(item: T, b: nat)
    | PopDec(b: nat)
    | PopCas(b: nat, t: nat)
    | PopLast(b: nat, t: nat, serial: nat)
    | PopTake(b: nat, t: nat, serial: nat)
    | PopRestore(b: nat, taken: Taken<T>)
    | PopEnd(taken: Taken<T>)

  /** Where a thief is; `held` is the buffer it has loaded and may still read. */
  datatype Thief<T> =
    | Unregistered
    | RegisterSeen(head: nat)
    | ThiefIdle
    | StealStart
    | StealTop
    | StealBottom(t: nat)
    | StealLoad(t: nat)
    | StealCas(t: nat, held: nat)
    | StealGet(t: nat, held: nat, serial: nat)
    | StealRest(taken: Taken<T>, rested: Option<nat>)
    | StealNote(taken: Taken<T>)
    | StealEnd(taken: Taken<T>)

  datatype ThiefState<T> = ThiefState(pc: Thief<T>, idLastUsed: nat, wasIdle: bool)

  /**
   Buffers live at addresses handed out in order. The list of tokens only grows at its head, so
   it is kept as the sequence `registry`, oldest first. `items` is the abstract deque, `claims`
   the items claimed so far, `freed` the addresses deleted so far.
   */
  datatype Deque<T> = Deque(top: nat, bottom: int, unlinked: Option<nat>, active: nat,
                            buffers: map<nat, Buffer<T>>, registry: seq<nat>,
                            owner: Owner<T>, thieves: map<nat, ThiefState<T>>,
                            created: nat, items: seq<T>, claims: seq<T>, freed: seq<nat>)

  datatype Action<T> =
    | OwnerPush(item: T)
    | OwnerPop
    | OwnerGo
    | OwnerReturn
    | ThiefRegister(tid: nat)
    | ThiefSteal(tid: nat)
    | ThiefGo(tid: nat, spurious: bool)
    | ThiefReturn(tid: nat)

  const LOG_INITIAL_SIZE: nat := 4

  // ----- Ring buffers -----

  function NewBuffer<T>(logSize: nat, id: nat): Buffer<T> {
    Buffer(id, logSize, seq(Pow2(logSize), i => None), None)
  }

  function Size<T>(a: Buffer<T>): nat {
    Pow2(a.logSize)
  }

  function Get<T>(a: Buffer<T>, i: nat): Option<Entry<T>> {
    if |a.segment| == Size(a) then a.segment[Slot(i, Size(a))] else None
  }

  function Put<T>(a: Buffer<T>, i: nat, e: Option<Entry<T>>): (r: Buffer<T>)
    ensures r.id == a.id && r.logSize == a.logSize && |r.segment| == |a.segment| && r.next == a.next
  {
    if |a.segment| == Size(a) then a.(segment := a.segment[Slot(i, Size(a)) := e]) else a
  }

  /** The copying loop of `resize`. */
  function Copy<T>(from: Buffer<T>, into: Buffer<T>, t: nat, b: nat): (r: Buffer<T>)
    ensures r.id == into.id && r.logSize == into.logSize && |r.segment| == |into.segment| && r.next == into.next
    decreases b - t
  {
    if t >= b then into else Copy(from, Put(into, t, Get(from, t)), t + 1, b)
  }

  function Resize<T>(a: Buffer<T>, b: nat, t: nat, logSize: nat): Buffer<T> {
    Copy(a, NewBuffer(logSize, a.id + 1), t, b)
  }

  function BufferAt<T>(s: Deque<T>, a: nat): Buffer<T> {
    if a in s.buffers then s.buffers[a] else NewBuffer(0, 0)
  }

  function Active<T>(s: Deque<T>): Buffer<T> {
    BufferAt(s, s.active)
  }

  /** The rule by which `pop` halves the buffer; a buffer of one slot is never halved. */
  predicate Shrinks<T>(a: Buffer<T>, b: nat, t: nat) {
    b - t <= Size(a) / 3 && b - t > Pow2(LOG_INITIAL_SIZE) && a.logSize > 0
  }

  // ----- Steps -----

  function Init<T>(): Deque<T> {
    Deque(0, 0, None, 0, map[0 := NewBuffer(LOG_INITIAL_SIZE, 0)], [], OwnerIdle, map[], 1, [], [], [])
  }

  /** `reclaim_buffers` is entered only when something has been unlinked. */
  function StartReclaim<T>(s: Deque<T>, after: After<T>): (r: Deque<T>)
    ensures r == s.(owner := r.owner)
  {
    if s.unlinked.Some? then s.(owner := LoadTokens(after)) else Continue(s, after)
  }

  function Continue<T>(s: Deque<T>, after: After<T>): (r: Deque<T>)
    ensures r == s.(owner := r.owner)
  {
    match after
    case ThenPut(item, b) => s.(owner := PushPut(item, b))
    case ThenReturn(taken) => s.(owner := PopEnd(taken))
  }

  /** Allocate a buffer of another size, copy [t, b) into it and link it behind the active one. */
  function Replace<T>(s: Deque<T>, b: nat, t: nat, logSize: nat, after: After<T>): (r: Deque<T>)
    ensures r == s.(buffers := r.buffers, unlinked := r.unlinked, created := r.created, owner := r.owner)
  {
    var a := Active(s);
    var n := s.created;
    s.(buffers := s.buffers[s.active := a.(next := Some(n))][n := Resize(a, b, t, logSize)],
       unlinked := if s.unlinked.Some? then s.unlinked else Some(s.active),
       created := n + 1,
       owner := StoreActive(after, n))
  }

  function ClaimFront<T>(s: Deque<T>): Deque<T> {
    if s.items == [] then s.(top := s.top + 1)
    else s.(top := s.top + 1, items := s.items[1..], claims := s.claims + [s.items[0]])
  }

  function ClaimBack<T>(s: Deque<T>): Deque<T> {
    if s.items == [] then s
    else s.(items := s.items[..|s.items| - 1], claims := s.claims + [s.items[|s.items| - 1]])
  }

  function OwnerStep<T>(s: Deque<T>): Deque<T> {
    match s.owner
    case OwnerIdle => s
    case PushSeen(item, b, t) =>
      if b - t >= Size(Active(s)) - 1 then Replace(s, b, t, Active(s).logSize + 1, ThenPut(item, b))
      else StartReclaim(s, ThenPut(item, b))
    case StoreActive(after, n) => StartReclaim(s.(active := n), after)
    case LoadTokens(after) => s.(owner := ScanToken(after, Active(s).id, |s.registry|))
    case ScanToken(after, minId, left) =>
      if left == 0 || left > |s.registry| || s.registry[left - 1] !in s.thieves then s.(owner := Free(after, minId))
      else if s.thieves[s.registry[left - 1]].wasIdle then s.(owner := ScanToken(after, minId, left - 1))
      else s.(owner := ScanId(after, minId, left))
    case ScanId(after, minId, left) =>
      if left == 0 || left > |s.registry| || s.registry[left - 1] !in s.thieves then s.(owner := Free(after, minId))
      else
        var used := s.thieves[s.registry[left - 1]].idLastUsed;
        s.(owner := ScanToken(after, if used < minId then used else minId, left - 1))
    case Free(after, minId) =>
      if s.unlinked.Some? && BufferAt(s, s.unlinked.value).id < minId then
        var u := s.unlinked.value;
        s.(unlinked := BufferAt(s, u).next, buffers := s.buffers - {u}, freed := s.freed + [u])
      else Continue(s, after)
    case PushPut(item, b) =>
      s.(buffers := s.buffers[s.active := Put(Active(s), b, Some(Entry(b, item)))], owner := PushBottom(item, b))
    case PushBottom(item, b) => s.(bottom := b + 1, items := s.items + [item], owner := OwnerIdle)
    case PopDec(b) =>
      var t := s.top;
      if b - t <= 0 then s.(owner := PopRestore(b, Nothing))
      else if b - t == 1 then s.(owner := PopCas(b, t))
      else ClaimBack(s).(owner := PopTake(b, t, |s.claims|))
    case PopCas(b, t) =>
      if s.top == t then ClaimFront(s).(owner := PopLast(b, t, |s.claims|))
      else s.(owner := PopRestore(b, Nothing))
    case PopLast(b, t, _) => s.(owner := PopRestore(b, Took(Get(Active(s), t))))
    case PopTake(b, t, _) =>
      var taken := Took(if b > 0 then Get(Active(s), b - 1) else None);
      if Shrinks(Active(s), b, t) then
        Replace(s, b, t, Active(s).logSize - 1, ThenReturn(taken))
      else StartReclaim(s, ThenReturn(taken))
    case PopRestore(b, taken) => s.(bottom := b, owner := PopEnd(taken))
    case PopEnd(_) => s
  }

  function SetThief<T>(s: Deque<T>, t: nat, th: ThiefState<T>): Deque<T> {
    s.(thieves := s.thieves[t := th])
  }

  function ThiefOf<T>(s: Deque<T>, t: nat): ThiefState<T> {
    if t in s.thieves then s.thieves[t] else ThiefState(Unregistered, 0, true)
  }

  function ThiefStep<T>(s: Deque<T>, tid: nat, spurious: bool): Deque<T> {
    var th := ThiefOf(s, tid);
    match th.pc
    case RegisterSeen(head) =>
      if |s.registry| == head && !spurious then
        SetThief(s, tid, th.(pc := ThiefIdle)).(registry := s.registry + [tid])
      else SetThief(s, tid, th.(pc := RegisterSeen(|s.registry|)))
    case StealStart => SetThief(s, tid, th.(pc := StealTop, wasIdle := false))
    case StealTop => SetThief(s, tid, th.(pc := StealBottom(s.top)))
    case StealBottom(t) =>
      SetThief(s, tid, th.(pc := if s.bottom - t > 0 then StealLoad(t) else StealRest(Nothing, None)))
    case StealLoad(t) => SetThief(s, tid, th.(pc := StealCas(t, s.active)))
    case StealCas(t, a) =>
      if s.top == t then SetThief(ClaimFront(s), tid, th.(pc := StealGet(t, a, |s.claims|)))
      else SetThief(s, tid, th.(pc := StealRest(Nothing, Some(a))))
    case StealGet(t, a, _) => SetThief(s, tid, th.(pc := StealRest(Took(Get(BufferAt(s, a), t)), Some(a))))
    case StealRest(taken, _) => SetThief(s, tid, th.(pc := StealNote(taken), wasIdle := true))
    case StealNote(taken) => SetThief(s, tid, th.(pc := StealEnd(taken), idLastUsed := Active(s).id))
    case _ => s
  }

  function Step<T>(s: Deque<T>, a: Action<T>): Deque<T> {
    match a
    case OwnerPush(item) =>
      if s.owner.OwnerIdle? && s.bottom >= 0 then s.(owner := PushSeen(item, s.bottom, s.top)) else s
    case OwnerPop =>
      if s.owner.OwnerIdle? && s.bottom >= 0 then s.(bottom := s.bottom - 1, owner := PopDec(s.bottom)) else s
    case OwnerGo => OwnerStep(s)
    case OwnerReturn => if s.owner.PopEnd? then s.(owner := OwnerIdle) else s
    case ThiefRegister(t) =>
      if ThiefOf(s, t).pc.Unregistered? then SetThief(s, t, ThiefState(RegisterSeen(|s.registry|), 0, true)) else s
    case ThiefSteal(t) =>
      if ThiefOf(s, t).pc.ThiefIdle? then SetThief(s, t, ThiefOf(s, t).(pc := StealStart)) else s
    case ThiefGo(t, spurious) => ThiefStep(s, t, spurious)
    case ThiefReturn(t) =>
      if ThiefOf(s, t).pc.StealEnd? then SetThief(s, t, ThiefOf(s, t).(pc := ThiefIdle)) else s
  }

  function Exec<T>(s: Deque<T>, acts: seq<Action<T>>): Deque<T> {
    if acts == [] then s else Step(Exec(s, acts[..|acts| - 1]), acts[|acts| - 1])
  }
}
