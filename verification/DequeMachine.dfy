/**
 The deque objects: ring buffers over arrays with their copying loop, and the deque itself, whose
 fields each atomic action updates in place.
 */
module DequeMachine {
  import opened Common
  import opened Deque
  import opened DequeMemory
  import opened DequeContents
  import opened DequeRuns
  import opened DequeAlone
  import opened DequeReclaims

  class RingBuffer<T> {
    const id: nat
    const logSize: nat
    const segment: array<Option<Entry<T>>>
    var next: Option<nat>

    ghost function Value(): Buffer<T>
      reads this, segment
    {
      Buffer(id, logSize, segment[..], next)
    }

    constructor (logSize: nat, id: nat)
      ensures Value() == NewBuffer(logSize, id) && this.id == id && this.logSize == logSize && fresh(segment)
    {
      this.id, this.logSize, this.next := id, logSize, None;
      segment := new Option<Entry<T>>[Pow2(logSize)](_ => None);
      new;
      assert segment[..] == NewBuffer<T>(logSize, id).segment;
    }

    method GetAt(i: nat) returns (e: Option<Entry<T>>)
      requires segment.Length == Pow2(logSize)
      ensures e == Get(Value(), i)
    {
      SlotIsModulo(i, Pow2(logSize));
      e := segment[i % Pow2(logSize)];
    }

    method PutAt(i: nat, e: Option<Entry<T>>)
      requires segment.Length == Pow2(logSize)
      modifies segment
      ensures Value() == Put(old(Value()), i, e)
    {
      SlotIsModulo(i, Pow2(logSize));
      segment[i % Pow2(logSize)] := e;
    }

    /** `resize`: a new buffer, linked behind this one, to which indices [t, b) are copied. */
    method Resized(b: nat, t: nat, logSize': nat, address: nat) returns (r: RingBuffer<T>)
      requires segment.Length == Pow2(logSize)
      modifies this`next
      ensures fresh(r) && r.Value() == Resize(old(Value()), b, t, logSize')
      ensures Value() == old(Value()).(next := Some(address))
      ensures b - t <= Pow2(logSize') ==> forall i: nat :: t <= i < b ==> Get(r.Value(), i) == Get(old(Value()), i)
    {
      r := new RingBuffer(logSize', id + 1);
      ghost var from := Value();
      var i := t;
      while i < b
        invariant t <= i && fresh(r) && fresh(r.segment) && r.segment.Length == Pow2(r.logSize) && Value() == from
        invariant Copy(from, r.Value(), i, b) == Resize(from, b, t, logSize')
        decreases b - i
      {
        var e := GetAt(i);
        r.PutAt(i, e);
        i := i + 1;
      }
      next := Some(address);
      if b - t <= Pow2(logSize') {
        forall j: nat | t <= j < b ensures Get(r.Value(), j) == Get(from, j) {
          CopyGets(from, NewBuffer(logSize', id + 1), t, b, j);
        }
      }
    }
  }

  // ----- The deque -----

  class LfDeque<T> {
    var top: nat
    var bottom: int
    var unlinked: Option<nat>
    var active: nat
    var buffers: map<nat, Buffer<T>>
    var registry: seq<nat>
    var owner: Owner<T>
    var thieves: map<nat, ThiefState<T>>
    var created: nat
    /** Numbers the claims; only the tags in `owner` and `thieves` depend on it. */
    var serial: nat
    ghost var items: seq<T>
    ghost var claims: seq<T>
    ghost var freed: seq<nat>

    ghost function State(): Deque<T>
      reads this
    {
      Deque(top, bottom, unlinked, active, buffers, registry, owner, thieves, created, items, claims, freed)
    }

    ghost predicate Valid()
      reads this
    {
      Mem(State()) && Con(State()) && serial == |claims|
    }

    constructor ()
      ensures State() == Init() && Valid() && Size(Active(State())) == 16
    {
      top, bottom, unlinked, active, registry, owner, thieves, created := 0, 0, None, 0, [], OwnerIdle, map[], 1;
      buffers := map[0 := NewBuffer(LOG_INITIAL_SIZE, 0)];
      serial, items, claims, freed := 0, [], [], [];
      new;
      RunKeepsInv<T>([]);
      assert Pow2(4) == 16;
    }

    method BufferOf(a: nat) returns (r: Buffer<T>)
      ensures r == BufferAt(State(), a)
    {
      r := if a in buffers then buffers[a] else NewBuffer(0, 0);
    }

    method BeginReclaim(after: After<T>)
      modifies this`owner
      ensures State() == StartReclaim(old(State()), after)
    {
      if unlinked.Some? {
        owner := LoadTokens(after);
      } else {
        Proceed(after);
      }
    }

    method Proceed(after: After<T>)
      modifies this`owner
      ensures State() == Continue(old(State()), after)
    {
      match after {
        case ThenPut(item, b) => owner := PushPut(item, b);
        case ThenReturn(taken) => owner := PopEnd(taken);
      }
    }

    method ReplaceActive(b: nat, t: nat, logSize: nat, after: After<T>)
      modifies this`buffers, this`unlinked, this`created, this`owner
      ensures State() == Replace(old(State()), b, t, logSize, after)
    {
      var a := BufferOf(active);
      unlinked := if unlinked.Some? then unlinked else Some(active);
      buffers := buffers[active := a.(next := Some(created))][created := Resize(a, b, t, logSize)];
      owner := StoreActive(after, created);
      created := created + 1;
    }

    method AdvanceTop()
      requires items != []
      modifies this`top, this`serial, this`items, this`claims
      ensures State() == ClaimFront(old(State())) && serial == old(serial) + 1
    {
      top, serial := top + 1, serial + 1;
      items, claims := items[1..], claims + [items[0]];
    }

    /** The steps of `push` after its loads. */
    method PushAct()
      requires owner.PushSeen? || owner.PushPut? || owner.PushBottom?
      modifies this
      ensures State() == OwnerStep(old(State())) && serial == old(serial)
    {
      var a := BufferOf(active);
      match owner {
        case PushSeen(item, b, t) =>
          if b - t >= Size(a) - 1 {
            ReplaceActive(b, t, a.logSize + 1, ThenPut(item, b));
          } else {
            BeginReclaim(ThenPut(item, b));
          }
        case PushPut(item, b) =>
          buffers := buffers[active := Put(a, b, Some(Entry(b, item)))];
          owner := PushBottom(item, b);
        case PushBottom(item, b) =>
          bottom, items, owner := b + 1, items + [item], OwnerIdle;
      }
    }

    /** The steps of `pop` that decide what it takes, after it has lowered `bottom`. */
    method DecideAct()
      requires owner.PopDec? || owner.PopCas?
      requires serial == |claims| && (owner.PopDec? && owner.b - top >= 2 ==> items != [])
      requires owner.PopCas? && owner.t == top ==> items != []
      modifies this
      ensures State() == OwnerStep(old(State())) && serial == |claims|
    {
      match owner {
        case PopDec(b) =>
          var t := top;
          if b - t <= 0 {
            owner := PopRestore(b, Nothing);
          } else if b - t == 1 {
            owner := PopCas(b, t);
          } else {
            owner := PopTake(b, t, serial);
            items, claims, serial := items[..|items| - 1], claims + [items[|items| - 1]], serial + 1;
          }
        case PopCas(b, t) =>
          if top == t {
            owner := PopLast(b, t, serial);
            AdvanceTop();
          } else {
            owner := PopRestore(b, Nothing);
          }
      }
    }

    /** The steps of `pop` that take the item out. */
    method PopAct()
      requires owner.PopLast? || owner.PopTake? || owner.PopRestore?
      modifies this
      ensures State() == OwnerStep(old(State())) && serial == old(serial) && claims == old(claims)
    {
      var a := BufferOf(active);
      match owner {
        case PopLast(b, t, _) => owner := PopRestore(b, Took(Get(a, t)));
        case PopTake(b, t, _) =>
          var after := ThenReturn(Took(if b > 0 then Get(a, b - 1) else None));
          if Shrinks(a, b, t) {
            ReplaceActive(b, t, a.logSize - 1, after);
          } else {
            BeginReclaim(after);
          }
        case PopRestore(b, taken) => bottom, owner := b, PopEnd(taken);
      }
    }

    /** The steps of `reclaim_buffers`, after the store of a new buffer if there is one. */
    method ReclaimAct()
      requires owner.StoreActive? || owner.LoadTokens? || owner.ScanToken? || owner.ScanId? || owner.Free?
      modifies this
      ensures State() == OwnerStep(old(State())) && serial == old(serial)
    {
      match owner {
        case StoreActive(after, n) =>
          active := n;
          BeginReclaim(after);
        case LoadTokens(after) =>
          var r := BufferOf(active);
          owner := ScanToken(after, r.id, |registry|);
        case ScanToken(after, minId, left) =>
          if left == 0 || left > |registry| || registry[left - 1] !in thieves {
            owner := Free(after, minId);
          } else if thieves[registry[left - 1]].wasIdle {
            owner := ScanToken(after, minId, left - 1);
          } else {
            owner := ScanId(after, minId, left);
          }
        case ScanId(after, minId, left) =>
          if left == 0 || left > |registry| || registry[left - 1] !in thieves {
            owner := Free(after, minId);
          } else {
            var used := thieves[registry[left - 1]].idLastUsed;
            owner := ScanToken(after, if used < minId then used else minId, left - 1);
          }
        case Free(after, minId) =>
          var u := if unlinked.Some? then unlinked.value else 0;
          var r := BufferOf(u);
          if unlinked.Some? && r.id < minId {
            unlinked, buffers, freed := r.next, buffers - {u}, freed + [u];
          } else {
            Proceed(after);
          }
      }
    }

    method OwnerAct()
      requires Valid()
      modifies this
      ensures Valid() && State() == OwnerStep(old(State()))
    {
      OwnerStepKeepsMem(State());
      OwnerStepKeepsCon(State());
      if owner.PushSeen? || owner.StoreActive? || owner.LoadTokens? || owner.ScanToken? || owner.ScanId? {
        QuietOwner(State());
      }
      if owner.PushSeen? || owner.PushPut? || owner.PushBottom? {
        PushAct();
      } else if owner.StoreActive? || owner.LoadTokens? || owner.ScanToken? || owner.ScanId? || owner.Free? {
        ReclaimAct();
      } else if owner.PopDec? || owner.PopCas? {
        DecideAct();
      } else if !owner.OwnerIdle? && !owner.PopEnd? {
        PopAct();
      }
    }

    /** The steps of `register_stealer` and `pop_back`. */
    method ThiefAct(tid: nat, spurious: bool)
      requires Valid() && tid in thieves
      modifies this
      ensures Valid() && State() == ThiefStep(old(State()), tid, spurious)
    {
      ThiefStepKeepsMem(State(), tid, spurious);
      ThiefStepKeepsCon(State(), tid, spurious);
      assert ThiefFits(State(), State().thieves[tid].pc);
      if thieves[tid].pc.StealLoad? || thieves[tid].pc.StealCas? || thieves[tid].pc.StealGet? {
        StealAct(tid, spurious);
      } else {
        TokenAct(tid, spurious);
      }
    }

    method SetPc(tid: nat, pc: Thief<T>)
      requires tid in thieves
      modifies this`thieves
      ensures State() == SetThief(old(State()), tid, old(thieves[tid]).(pc := pc))
    {
      thieves := thieves[tid := thieves[tid].(pc := pc)];
    }

    /** From the load of the active buffer to the read of the slot. */
    method StealAct(tid: nat, spurious: bool)
      requires tid in thieves && serial == |claims|
      requires var pc := thieves[tid].pc;
               pc.StealLoad? || pc.StealGet? || (pc.StealCas? && (pc.t == top ==> items != []))
      modifies this
      ensures State() == ThiefStep(old(State()), tid, spurious) && serial == |claims|
    {
      match thieves[tid].pc {
        case StealLoad(t) => SetPc(tid, StealCas(t, active));
        case StealCas(t, a) =>
          if top == t {
            SetPc(tid, StealGet(t, a, serial));
            AdvanceTop();
          } else {
            SetPc(tid, StealRest(Nothing, Some(a)));
          }
        case StealGet(t, a, _) =>
          var r := BufferOf(a);
          SetPc(tid, StealRest(Took(Get(r, t)), Some(a)));
      }
    }

    /** Registering, and the steps before and after. */
    method TokenAct(tid: nat, spurious: bool)
      requires tid in thieves && !thieves[tid].pc.StealLoad? && !thieves[tid].pc.StealCas? && !thieves[tid].pc.StealGet?
      modifies this`registry, this`thieves
      ensures State() == ThiefStep(old(State()), tid, spurious)
    {
      var th := thieves[tid];
      match th.pc {
        case RegisterSeen(head) =>
          if |registry| == head && !spurious {
            registry, thieves := registry + [tid], thieves[tid := th.(pc := ThiefIdle)];
          } else {
            SetPc(tid, RegisterSeen(|registry|));
          }
        case StealStart => thieves := thieves[tid := th.(pc := StealTop, wasIdle := false)];
        case StealTop => SetPc(tid, StealBottom(top));
        case StealBottom(t) => SetPc(tid, if bottom - t > 0 then StealLoad(t) else StealRest(Nothing, None));
        case StealRest(taken, _) => thieves := thieves[tid := th.(pc := StealNote(taken), wasIdle := true)];
        case StealNote(taken) =>
          var r := BufferOf(active);
          thieves := thieves[tid := th.(pc := StealEnd(taken), idLastUsed := r.id)];
        case _ =>
      }
    }

    /** Entering and leaving the operations. */
    method Call(a: Action<T>)
      requires !a.OwnerGo? && !a.ThiefGo?
      modifies this`owner, this`bottom, this`thieves
      ensures State() == Step(old(State()), a)
    {
      match a {
        case OwnerPush(item) => if owner.OwnerIdle? && bottom >= 0 { owner := PushSeen(item, bottom, top); }
        case OwnerPop => if owner.OwnerIdle? && bottom >= 0 { owner, bottom := PopDec(bottom), bottom - 1; }
        case OwnerReturn => if owner.PopEnd? { owner := OwnerIdle; }
        case ThiefRegister(t) =>
          if t !in thieves || thieves[t].pc.Unregistered? {
            thieves := thieves[t := ThiefState(RegisterSeen(|registry|), 0, true)];
          }
        case ThiefSteal(t) =>
          if t in thieves && thieves[t].pc.ThiefIdle? { thieves := thieves[t := thieves[t].(pc := StealStart)]; }
        case ThiefReturn(t) =>
          if t in thieves && thieves[t].pc.StealEnd? { thieves := thieves[t := thieves[t].(pc := ThiefIdle)]; }
      }
    }

    method Act(a: Action<T>)
      requires Valid()
      modifies this
      ensures Valid() && State() == Step(old(State()), a)
    {
      if a.OwnerGo? {
        OwnerAct();
      } else if a.ThiefGo? {
        if a.tid in thieves { ThiefAct(a.tid, a.spurious); }
      } else {
        StepKeepsMem(State(), a);
        StepKeepsCon(State(), a);
        Call(a);
      }
    }

    /** Any interleaving of the owner with any number of thieves. */
    method RunAll(acts: seq<Action<T>>)
      requires Valid() && State() == Init()
      modifies this
      ensures Valid() && State() == Exec(Init(), acts)
      ensures multiset(Pushed(Trace(acts))) == multiset(claims) + multiset(items)
    {
      RunKeepsInv<T>([]);
      for i := 0 to |acts|
        invariant Valid() && State() == Exec(Init(), acts[..i])
      {
        assert acts[..i + 1][..i] == acts[..i];
        Act(acts[i]);
      }
      assert acts[..|acts|] == acts;
      RunIsSequential(acts);
    }

    /**
     `push` while the thieves stand still wherever they are: appends the item. The buffer doubles
     when it would have no spare slot left, and the old buffers go up to the least id in use.
     */
    method Push(item: T)
      requires Valid() && owner.OwnerIdle?
      modifies this
      ensures Valid() && owner.OwnerIdle? && items == old(items) + [item]
      ensures top == old(top) && claims == old(claims) && thieves == old(thieves) && registry == old(registry)
      ensures Resized(old(State()), State(), old(GrowsBy(State()))) && Reclaimed(State(), old(Oldest(State())))
      ensures (forall t :: !Busy(State(), t)) ==> buffers.Keys == {active}
    {
      ghost var s := State();
      PushResizes(s, item);
      Act(OwnerPush(item));
      while !owner.OwnerIdle?
        invariant Valid() && top == old(top) && claims == old(claims)
        invariant Resizes(State(), s, true, GrowsBy(s))
        invariant if owner.OwnerIdle? then items == old(items) + [item] else Pushes(owner, item) && items == old(items)
        decreases StepsLeft(State())
      {
        OwnerAdvances(State());
        PushGoesOn(State(), item);
        ResizesOn(State(), s, true, GrowsBy(s));
        OwnerAct();
      }
      PushReclaims(s, State());
    }

    /**
     `pop` while the thieves stand still wherever they are: removes the newest item. The buffer is
     halved when at most a third of it was in use, and if there were two items or more, the old
     buffers go up to the least id in use.
     */
    method Pop() returns (result: Option<T>)
      requires Valid() && owner.OwnerIdle?
      modifies this
      ensures Valid() && owner.OwnerIdle? && thieves == old(thieves) && registry == old(registry)
      ensures old(items) == [] ==> result.None? && items == [] && claims == old(claims)
      ensures old(items) != [] ==>
                result == Some(old(items)[|old(items)| - 1]) && items == old(items)[..|old(items)| - 1]
      ensures Resized(old(State()), State(), old(ShrinksBy(State())))
      ensures if |old(items)| >= 2 then Reclaimed(State(), old(Oldest(State())))
              else Oldest(State()) == old(Oldest(State()))
    {
      ghost var s := State();
      PopResizes(s);
      Act(OwnerPop);
      while !owner.PopEnd?
        invariant Valid() && Pops(State(), s.items, s.claims)
        invariant Resizes(State(), s, |s.items| >= 2, ShrinksBy(s))
        decreases StepsLeft(State())
      {
        PopOn(s);
      }
      result := if owner.taken.Took? && owner.taken.read.Some? then Some(owner.taken.read.value.item) else None;
      Return(s);
    }

    /** The next action of a pop that started at `s`. */
    method PopOn(ghost s: Deque<T>)
      requires Valid() && Pops(State(), s.items, s.claims) && !owner.PopEnd?
      requires Resizes(State(), s, |s.items| >= 2, ShrinksBy(s))
      modifies this
      ensures Valid() && Pops(State(), s.items, s.claims) && Resizes(State(), s, |s.items| >= 2, ShrinksBy(s))
      ensures 0 <= StepsLeft(State()) < old(StepsLeft(State()))
    {
      OwnerAdvances(State());
      PopGoesOn(State(), s.items, s.claims);
      ResizesOn(State(), s, |s.items| >= 2, ShrinksBy(s));
      OwnerAct();
    }

    /** Leaving `pop`. */
    method Return(ghost s: Deque<T>)
      requires Valid() && owner.PopEnd? && Resizes(State(), s, |s.items| >= 2, ShrinksBy(s))
      modifies this`owner, this`bottom, this`thieves
      ensures items == old(items) && claims == old(claims) && thieves == old(thieves) && registry == old(registry)
      ensures Valid() && owner.OwnerIdle? && Resized(s, State(), ShrinksBy(s))
      ensures if |s.items| >= 2 then Reclaimed(State(), Oldest(s)) else Oldest(State()) == Oldest(s)
    {
      ResizesEnds(State(), s, |s.items| >= 2, ShrinksBy(s));
      StepKeepsMem(State(), OwnerReturn);
      StepKeepsCon(State(), OwnerReturn);
      ghost var s' := State();
      Call(OwnerReturn);
      SameLeast(s', State(), 0);
    }

    /**
     `register_stealer` by thief `tid` while the others stand still; the weak CAS fails spuriously
     `failures` times. The token is the newest in the list, idle and with id 0.
     */
    method Register(tid: nat, failures: nat)
      requires Valid() && ThiefOf(State(), tid).pc.Unregistered?
      modifies this
      ensures Valid()
      ensures State() == SetThief(old(State()), tid, ThiefState(ThiefIdle, 0, true)).(registry := old(registry) + [tid])
    {
      RegisterBegins(State(), tid);
      Act(ThiefRegister(tid));
      PutToken(tid, failures);
    }

    /** The loop around the CAS. */
    method PutToken(tid: nat, failures: nat)
      requires Valid() && tid in thieves && thieves[tid] == ThiefState(RegisterSeen(|registry|), 0, true)
      modifies this
      ensures Valid()
      ensures State() == SetThief(old(State()), tid, ThiefState(ThiefIdle, 0, true)).(registry := old(registry) + [tid])
    {
      RegisterGoesOn(State(), tid);
      for i := 0 to failures
        invariant Valid() && State() == old(State())
      {
        ThiefAct(tid, true);
      }
      ThiefAct(tid, false);
    }

    /**
     `pop_back` by thief `tid` while everybody else stands still wherever they are: returns the
     oldest item, unless there is none between the bounds. With the owner idle that means no item.
     */
    method Steal(tid: nat) returns (result: Option<T>)
      requires Valid() && ThiefOf(State(), tid).pc.ThiefIdle?
      modifies this
      ensures Valid() && Stole(old(State()), State(), tid, result)
      ensures owner.OwnerIdle? ==> (result.Some? <==> old(items) != [])
    {
      ghost var s := State();
      Act(ThiefSteal(tid));
      while !thieves[tid].pc.StealEnd?
        invariant Valid() && Steals(State(), s, tid)
        decreases StealLeft(thieves[tid].pc)
      {
        StealOn(tid, s);
      }
      result := Back(tid, s);
    }

    /** Leaving `pop_back`. */
    method Back(tid: nat, ghost s: Deque<T>) returns (result: Option<T>)
      requires Valid() && Steals(State(), s, tid) && thieves[tid].pc.StealEnd?
      modifies this`owner, this`bottom, this`thieves
      ensures Valid() && Stole(s, State(), tid, result)
    {
      var taken := thieves[tid].pc.taken;
      result := if taken.Took? && taken.read.Some? then Some(taken.read.value.item) else None;
      StepKeepsMem(State(), ThiefReturn(tid));
      StepKeepsCon(State(), ThiefReturn(tid));
      StealEnds(State(), s, tid);
      Call(ThiefReturn(tid));
    }

    /** The next action of a steal that started at `s`. */
    method StealOn(tid: nat, ghost s: Deque<T>)
      requires Valid() && Steals(State(), s, tid) && !thieves[tid].pc.StealEnd?
      modifies this
      ensures Valid() && Steals(State(), s, tid)
      ensures StealLeft(thieves[tid].pc) < StealLeft(old(thieves[tid].pc))
    {
      StealGoesOn(State(), s, tid);
      ThiefAct(tid, false);
    }

    /** The destructor, when no operation is under way: every buffer goes, each exactly once. */
    method Destroy()
      requires Valid() && owner.OwnerIdle?
      modifies this
      ensures buffers == map[] && freed == seq(old(created), i => i)
    {
      var b := active;
      ChainIsLinked(State());
      while unlinked.Some? && unlinked.value != b
        invariant Linked(buffers, freed, b) && (unlinked.None? ==> b == 0 && |freed| == 0)
        invariant unlinked.Some? ==> unlinked.value == |freed|
        decreases b - |freed|
      {
        var reclaimed := unlinked.value;
        unlinked := buffers[reclaimed].next;
        freed, buffers := freed + [reclaimed], buffers - {reclaimed};
      }
      freed, buffers := freed + [b], buffers - {b};
    }
  }

  /** The buffers from the first one not freed up to `last`, each linked to the next. */
  ghost predicate Linked<T>(buffers: map<nat, Buffer<T>>, freed: seq<nat>, last: nat) {
    && |freed| <= last
    && (forall a: nat :: a in buffers <==> |freed| <= a <= last)
    && (forall a: nat :: |freed| <= a < last ==> buffers[a].next == Some(a + 1))
    && (forall i :: 0 <= i < |freed| ==> freed[i] == i)
  }

  lemma ChainIsLinked<T>(s: Deque<T>)
    requires Mem(s) && s.owner.OwnerIdle?
    ensures Linked(s.buffers, s.freed, s.active) && s.created == s.active + 1
    ensures if s.unlinked.None? then s.active == 0 && |s.freed| == 0 else s.unlinked.value == |s.freed|
  {
    forall a: nat | |s.freed| <= a < s.active ensures s.buffers[a].next == Some(a + 1) {
      assert BufferFits(s, a);
    }
  }
}
