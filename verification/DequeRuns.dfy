/**
 What the deque promises over whole runs: claims come off the two ends of one sequential deque,
 each claimed item is handed over once, and a thief gets the item it claimed unless it was overtaken.
 */
module DequeRuns {
  import opened Common
  import opened Deque
  import opened DequeMemory
  import opened DequeContents

  datatype Event<T> =
    | Quiet
    | PushBack(item: T)
    | PopBack(item: T)
    | PopFront(item: T)
    | Deliver(serial: nat, index: nat, read: Option<Entry<T>>)

  function EventOf<T>(s: Deque<T>, a: Action<T>): Event<T> {
    match a
    case OwnerGo => (
      match s.owner
      case PushBottom(item, _) => PushBack(item)
      case PopDec(b) => if b - s.top >= 2 && s.items != [] then PopBack(s.items[|s.items| - 1]) else Quiet
      case PopCas(_, t) => if s.top == t && s.items != [] then PopFront(s.items[0]) else Quiet
      case PopLast(_, t, k) => Deliver(k, t, Get(Active(s), t))
      case PopTake(b, _, k) => if b > 0 then Deliver(k, b - 1, Get(Active(s), b - 1)) else Quiet
      case _ => Quiet)
    case ThiefGo(t, _) => (
      match ThiefOf(s, t).pc
      case StealCas(i, _) => if s.top == i && s.items != [] then PopFront(s.items[0]) else Quiet
      case StealGet(i, h, k) => Deliver(k, i, Get(BufferAt(s, h), i))
      case _ => Quiet)
    case _ => Quiet
  }

  function Trace<T>(acts: seq<Action<T>>): seq<Event<T>> {
    if acts == [] then [] else
      var before := acts[..|acts| - 1];
      Trace(before) + [EventOf(Exec(Init(), before), acts[|acts| - 1])]
  }

  lemma {:induction false} TraceLength<T>(acts: seq<Action<T>>)
    ensures |Trace(acts)| == |acts|
  {
    if acts != [] {
      TraceLength(acts[..|acts| - 1]);
    }
  }

  /** The sequential deque after the events, or None when they are not its behaviour. */
  ghost function Sequential<T>(events: seq<Event<T>>): Option<seq<T>> {
    if events == [] then Some([]) else
      var q := Sequential(events[..|events| - 1]);
      if q.None? then None else
      match events[|events| - 1]
      case PushBack(v) => Some(q.value + [v])
      case PopBack(v) => if q.value != [] && v == q.value[|q.value| - 1] then Some(q.value[..|q.value| - 1]) else None
      case PopFront(v) => if q.value != [] && v == q.value[0] then Some(q.value[1..]) else None
      case _ => q
  }

  function Pushed<T>(events: seq<Event<T>>): seq<T> {
    if events == [] then [] else
      var e := events[|events| - 1];
      Pushed(events[..|events| - 1]) + if e.PushBack? then [e.item] else []
  }

  function Delivered<T>(events: seq<Event<T>>): seq<Event<T>> {
    if events == [] then [] else
      var e := events[|events| - 1];
      Delivered(events[..|events| - 1]) + if e.Deliver? then [e] else []
  }

  lemma StepIsSequential<T>(s: Deque<T>, a: Action<T>)
    requires Mem(s) && Con(s)
    ensures var s' := Step(s, a);
            match EventOf(s, a)
            case PushBack(v) => s'.items == s.items + [v] && s'.claims == s.claims
            case PopBack(v) =>
              s.items != [] && v == s.items[|s.items| - 1] && s'.items == s.items[..|s.items| - 1] &&
              s'.claims == s.claims + [v]
            case PopFront(v) =>
              s.items != [] && v == s.items[0] && s'.items == s.items[1..] && s'.claims == s.claims + [v]
            case _ => s'.items == s.items && s'.claims == s.claims
  {
    if a.ThiefGo? && ThiefOf(s, a.tid).pc.StealCas? {
      assert ThiefFits(s, ThiefOf(s, a.tid).pc);
    }
    if a.OwnerGo? && !(s.owner.PushBottom? || s.owner.PopDec? || s.owner.PopCas?) {
      OwnerKeepsItems(s);
    }
  }

  lemma OwnerKeepsItems<T>(s: Deque<T>)
    requires !(s.owner.PushBottom? || s.owner.PopDec? || s.owner.PopCas?)
    ensures OwnerStep(s).items == s.items && OwnerStep(s).claims == s.claims
  {
    if !s.owner.PopLast? && !s.owner.PopRestore? {
      QuietOwner(s);
    }
  }

  /**
   Refinement: in every interleaving of the owner with any number of thieves the claims are a
   run of a sequential deque, and nothing is lost: what was pushed is what was claimed plus
   what indices [top, bottom) still hold.
   */
  lemma {:induction false} RunIsSequential<T>(acts: seq<Action<T>>)
    ensures var s := Exec(Init(), acts);
            Mem(s) && Con(s) && Sequential(Trace(acts)) == Some(s.items) &&
            multiset(Pushed(Trace(acts))) == multiset(s.claims) + multiset(s.items)
  {
    RunKeepsInv(acts);
    if acts != [] {
      var before, a := acts[..|acts| - 1], acts[|acts| - 1];
      RunIsSequential(before);
      StepIsSequential(Exec(Init(), before), a);
      TraceLength(before);
      assert Trace(acts)[..|acts| - 1] == Trace(before);
      StepConserves(Exec(Init(), before), Exec(Init(), acts), EventOf(Exec(Init(), before), a), Pushed(Trace(before)));
    }
  }

  lemma StepConserves<T>(s: Deque<T>, s': Deque<T>, e: Event<T>, pushed: seq<T>)
    requires multiset(pushed) == multiset(s.claims) + multiset(s.items)
    requires match e
             case PushBack(v) => s'.items == s.items + [v] && s'.claims == s.claims
             case PopBack(v) =>
               s.items != [] && v == s.items[|s.items| - 1] && s'.items == s.items[..|s.items| - 1] &&
               s'.claims == s.claims + [v]
             case PopFront(v) =>
               s.items != [] && v == s.items[0] && s'.items == s.items[1..] && s'.claims == s.claims + [v]
             case _ => s'.items == s.items && s'.claims == s.claims
    ensures multiset(pushed + if e.PushBack? then [e.item] else []) == multiset(s'.claims) + multiset(s'.items)
  {
    match e
    case PushBack(v) =>
    case PopBack(v) => assert s.items == s.items[..|s.items| - 1] + [v];
    case PopFront(v) => assert s.items == [v] + s.items[1..];
    case _ => assert pushed + [] == pushed;
  }

  // ----- Each claim is handed over once -----

  predicate OwnerAwaits<T>(s: Deque<T>, k: nat) {
    (s.owner.PopLast? || s.owner.PopTake?) && s.owner.serial == k
  }

  predicate ThiefAwaits<T>(s: Deque<T>, t: nat, k: nat) {
    t in s.thieves && s.thieves[t].pc.StealGet? && s.thieves[t].pc.serial == k
  }

  ghost predicate Awaited<T>(s: Deque<T>, k: nat) {
    OwnerAwaits(s, k) || exists t :: ThiefAwaits(s, t, k)
  }

  /** At most one operation carries a given claim. */
  ghost predicate OneEach<T>(s: Deque<T>) {
    && (forall k: nat :: OwnerAwaits(s, k) ==> k < |s.claims|)
    && (forall t, k: nat :: ThiefAwaits(s, t, k) ==> k < |s.claims| && !OwnerAwaits(s, k))
    && (forall t, u, k: nat :: ThiefAwaits(s, t, k) && ThiefAwaits(s, u, k) ==> t == u)
  }

  /** A delivery hands over the claimed item, or was overtaken and reads one pushed later. */
  ghost predicate Honest<T>(s: Deque<T>, e: Event<T>)
    requires e.Deliver?
  {
    && e.serial < |s.claims| && e.read.Some?
    && (e.read.value.index == e.index ==> e.read.value.item == s.claims[e.serial])
    && (e.read.value.index != e.index ==> e.read.value.index > e.index && s.top >= e.index + 2)
  }

  ghost predicate HandedOnce<T>(s: Deque<T>, got: seq<Event<T>>) {
    && OneEach(s)
    && (forall i :: 0 <= i < |got| ==> got[i].Deliver? && Honest(s, got[i]) && !Awaited(s, got[i].serial))
    && (forall i, j :: 0 <= i < j < |got| ==> got[i].serial != got[j].serial)
    && (forall k: nat :: k < |s.claims| ==> Awaited(s, k) || exists i :: 0 <= i < |got| && got[i].serial == k)
  }

  lemma ThiefKeepsOthers<T>(s: Deque<T>, t: nat, spurious: bool)
    ensures ThiefStep(s, t, spurious).owner == s.owner
    ensures forall u :: u != t ==> (u in ThiefStep(s, t, spurious).thieves <==> u in s.thieves)
    ensures forall u :: u != t && u in s.thieves ==> ThiefStep(s, t, spurious).thieves[u] == s.thieves[u]
  {
  }

  lemma OthersStay<T>(s: Deque<T>, a: Action<T>)
    ensures var s' := Step(s, a); var own := a.OwnerPush? || a.OwnerPop? || a.OwnerGo? || a.OwnerReturn?;
            if own then s'.thieves == s.thieves
            else
              s'.owner == s.owner &&
              (forall u :: u != a.tid ==>
                 (u in s'.thieves <==> u in s.thieves) && (u in s.thieves ==> s'.thieves[u] == s.thieves[u]))
  {
    match a {
      case OwnerGo => OwnerKeepsThieves(s);
      case ThiefGo(t, spurious) => ThiefKeepsOthers(s, t, spurious);
      case _ =>
    }
  }

  lemma OwnerKeepsThieves<T>(s: Deque<T>)
    ensures OwnerStep(s).thieves == s.thieves
  {
    match s.owner
    case PushSeen(_, _, _) =>
    case PopTake(_, _, _) =>
    case _ =>
  }

  /** A step wins the next serial, delivers one, or leaves all claims where they are. */
  lemma OwnerAwaitsStep<T>(s: Deque<T>, k: nat)
    requires Mem(s) && Con(s)
    ensures var s' := OwnerStep(s); var e := EventOf(s, OwnerGo);
            OwnerAwaits(s', k) <==>
              (OwnerAwaits(s, k) && !e.Deliver?) || ((e.PopBack? || e.PopFront?) && k == |s.claims|)
    ensures EventOf(s, OwnerGo).Deliver? ==> OwnerAwaits(s, EventOf(s, OwnerGo).serial)
    ensures EventOf(s, OwnerGo).Deliver? ==> Honest(s, EventOf(s, OwnerGo))
  {
    if s.owner.PopDec? || s.owner.PopCas? || s.owner.PopLast? || s.owner.PopTake? || s.owner.PopRestore? {
      PopAwaitsStep(s, k);
    }
  }

  lemma PopAwaitsStep<T>(s: Deque<T>, k: nat)
    requires Mem(s) && Con(s)
    requires s.owner.PopDec? || s.owner.PopCas? || s.owner.PopLast? || s.owner.PopTake? || s.owner.PopRestore?
    ensures var s' := OwnerStep(s); var e := EventOf(s, OwnerGo);
            && (OwnerAwaits(s', k) <==>
                  (OwnerAwaits(s, k) && !e.Deliver?) || ((e.PopBack? || e.PopFront?) && k == |s.claims|))
            && (e.Deliver? ==> OwnerAwaits(s, e.serial) && Honest(s, e))
  {
  }

  lemma ThiefAwaitsStep<T>(s: Deque<T>, t: nat, spurious: bool, k: nat)
    requires Mem(s) && Con(s)
    ensures var s' := ThiefStep(s, t, spurious); var e := EventOf(s, ThiefGo(t, spurious));
            ThiefAwaits(s', t, k) <==> (ThiefAwaits(s, t, k) && !e.Deliver?) || (e.PopFront? && k == |s.claims|)
    ensures var e := EventOf(s, ThiefGo(t, spurious)); e.Deliver? ==> ThiefAwaits(s, t, e.serial) && Honest(s, e)
  {
    assert t in s.thieves ==> ThiefFits(s, s.thieves[t].pc);
  }

  /** Who awaits what after a step: only the acting thread's claim changes. */
  ghost predicate AwaitsChange<T>(s: Deque<T>, a: Action<T>, s': Deque<T>, e: Event<T>) {
    && (forall k: nat :: OwnerAwaits(s', k) <==>
         if a.OwnerGo? then (OwnerAwaits(s, k) && !e.Deliver?) || (Wins(e) && k == |s.claims|) else OwnerAwaits(s, k))
    && (forall u, k: nat :: ThiefAwaits(s', u, k) <==>
         if a.ThiefGo? && u == a.tid then (ThiefAwaits(s, u, k) && !e.Deliver?) || (Wins(e) && k == |s.claims|)
         else ThiefAwaits(s, u, k))
    && (e.Deliver? ==> Honest(s, e))
    && (e.Deliver? ==> if a.OwnerGo? then OwnerAwaits(s, e.serial) else a.ThiefGo? && ThiefAwaits(s, a.tid, e.serial))
    && (Wins(e) ==> a.OwnerGo? || a.ThiefGo?)
  }

  predicate Wins<T>(e: Event<T>) {
    e.PopBack? || e.PopFront?
  }

  lemma AwaitsOwner<T>(s: Deque<T>)
    requires Mem(s) && Con(s)
    ensures AwaitsChange(s, OwnerGo, OwnerStep(s), EventOf(s, OwnerGo))
  {
    OthersStay(s, OwnerGo);
    forall k: nat ensures OwnerAwaits(OwnerStep(s), k) <==>
        (OwnerAwaits(s, k) && !EventOf(s, OwnerGo).Deliver?) || (Wins(EventOf(s, OwnerGo)) && k == |s.claims|)
    {
      OwnerAwaitsStep(s, k);
    }
    OwnerAwaitsStep(s, 0);
  }

  lemma AwaitsThief<T>(s: Deque<T>, t: nat, spurious: bool)
    requires Mem(s) && Con(s)
    ensures AwaitsChange(s, ThiefGo(t, spurious), ThiefStep(s, t, spurious), EventOf(s, ThiefGo(t, spurious)))
  {
    var a: Action<T> := ThiefGo(t, spurious);
    OthersStay(s, a);
    forall u, k: nat ensures ThiefAwaits(ThiefStep(s, t, spurious), u, k) <==>
        if u == t then (ThiefAwaits(s, u, k) && !EventOf(s, a).Deliver?) || (Wins(EventOf(s, a)) && k == |s.claims|)
        else ThiefAwaits(s, u, k)
    {
      ThiefAwaitsStep(s, t, spurious, k);
    }
    ThiefAwaitsStep(s, t, spurious, 0);
  }

  lemma AwaitsCall<T>(s: Deque<T>, a: Action<T>)
    requires !a.OwnerGo? && !a.ThiefGo?
    ensures AwaitsChange(s, a, Step(s, a), EventOf(s, a))
  {
    OthersStay(s, a);
  }

  lemma AwaitsStep<T>(s: Deque<T>, a: Action<T>)
    requires Mem(s) && Con(s)
    ensures AwaitsChange(s, a, Step(s, a), EventOf(s, a))
  {
    match a
    case OwnerGo => AwaitsOwner(s);
    case ThiefGo(t, spurious) => AwaitsThief(s, t, spurious);
    case _ => AwaitsCall(s, a);
  }

  lemma AwaitedStep<T>(s: Deque<T>, a: Action<T>, s': Deque<T>, e: Event<T>, k: nat)
    requires OneEach(s) && AwaitsChange(s, a, s', e)
    ensures Awaited(s', k) <==> (Awaited(s, k) && !(e.Deliver? && e.serial == k)) || (Wins(e) && k == |s.claims|)
    ensures e.Deliver? ==> Awaited(s, e.serial)
  {
    if Wins(e) && k == |s.claims| {
      assert a.OwnerGo? ==> OwnerAwaits(s', k);
      assert a.ThiefGo? ==> ThiefAwaits(s', a.tid, k);
    }
    if t :| ThiefAwaits(s, t, k) {
      assert ThiefAwaits(s', t, k) || (e.Deliver? && e.serial == k);
    }
    if t :| ThiefAwaits(s', t, k) {
      assert ThiefAwaits(s, t, k) || (Wins(e) && k == |s.claims|);
    }
  }

  lemma OneEachStep<T>(s: Deque<T>, a: Action<T>, s': Deque<T>, e: Event<T>)
    requires OneEach(s) && AwaitsChange(s, a, s', e)
    requires |s'.claims| == |s.claims| + if Wins(e) then 1 else 0
    ensures OneEach(s')
  {
  }

  lemma HandsOnceOn<T>(s: Deque<T>, a: Action<T>, s': Deque<T>, e: Event<T>, got: seq<Event<T>>)
    requires HandedOnce(s, got) && AwaitsChange(s, a, s', e) && OneEach(s')
    requires s.claims <= s'.claims && |s'.claims| == |s.claims| + (if Wins(e) then 1 else 0) && s.top <= s'.top
    ensures HandedOnce(s', got + if e.Deliver? then [e] else [])
  {
    var got' := got + if e.Deliver? then [e] else [];
    forall k: nat
      ensures Awaited(s', k) <==>
              (Awaited(s, k) && !(e.Deliver? && e.serial == k)) || (Wins(e) && k == |s.claims|)
    {
      AwaitedStep(s, a, s', e, k);
    }
    if e.Deliver? {
      AwaitedStep(s, a, s', e, e.serial);
    }
    forall i | 0 <= i < |got'| ensures got'[i].Deliver? && Honest(s', got'[i]) && !Awaited(s', got'[i].serial) {
      assert i < |got| ==> got'[i] == got[i];
    }
    forall k: nat | k < |s'.claims| ensures Awaited(s', k) || exists i :: 0 <= i < |got'| && got'[i].serial == k {
      if e.Deliver? && e.serial == k {
        assert got'[|got|].serial == k;
      } else if k < |s.claims| && !Awaited(s, k) {
        var i :| 0 <= i < |got| && got[i].serial == k;
        assert got'[i].serial == k;
      }
    }
  }

  lemma StepHandsOnce<T>(s: Deque<T>, a: Action<T>, got: seq<Event<T>>)
    requires Mem(s) && Con(s) && HandedOnce(s, got)
    ensures var e := EventOf(s, a); HandedOnce(Step(s, a), got + if e.Deliver? then [e] else [])
  {
    var s' := Step(s, a);
    var e := EventOf(s, a);
    StepIsSequential(s, a);
    TopGrows(s, a);
    AwaitsStep(s, a);
    OneEachStep(s, a, s', e);
    HandsOnceOn(s, a, s', e, got);
  }

  lemma TopGrows<T>(s: Deque<T>, a: Action<T>)
    ensures Step(s, a).top >= s.top
  {
    if a.OwnerGo? && !(s.owner.PushBottom? || s.owner.PopDec? || s.owner.PopCas? || s.owner.PopLast? ||
                       s.owner.PopRestore?) {
      QuietOwner(s);
    }
  }

  /**
   Over a whole run no claim is handed over twice, and each is handed over exactly once when no
   operation is under way; what is handed over is the claimed item, except that a thief whose
   read comes after top has moved on twice more may find a later item in the slot.
   */
  lemma {:induction false} RunHandsOnce<T>(acts: seq<Action<T>>)
    ensures HandedOnce(Exec(Init(), acts), Delivered(Trace(acts)))
  {
    if acts != [] {
      var before, a := acts[..|acts| - 1], acts[|acts| - 1];
      RunHandsOnce(before);
      RunKeepsInv(before);
      StepHandsOnce(Exec(Init(), before), a, Delivered(Trace(before)));
      TraceLength(before);
      assert Trace(acts)[..|acts| - 1] == Trace(before);
    }
  }

  /** The owner always reads what it claimed; so does a thief that reads while top is still one past it. */
  lemma ReadsItsClaim<T>(s: Deque<T>, a: Action<T>)
    requires Mem(s) && Con(s) && EventOf(s, a).Deliver?
    requires a.OwnerGo? || s.top == EventOf(s, a).index + 1
    ensures var e := EventOf(s, a); e.serial < |s.claims| && e.read == Some(Entry(e.index, s.claims[e.serial]))
  {
    if a.ThiefGo? {
      assert ThiefFits(s, s.thieves[a.tid].pc);
    }
  }

  /**
   The owner finds nothing only when nothing is there; a thief may also find nothing while the
   owner is still deciding about the very last item, or when the item it saw has been claimed.
   */
  lemma NothingMeansEmpty<T>(s: Deque<T>, a: Action<T>)
    requires Mem(s) && Con(s)
    ensures a.OwnerGo? && Step(s, a).owner.PopRestore? && Step(s, a).owner.taken.Nothing? && !s.owner.PopRestore? ==>
              s.items == []
    ensures a.ThiefGo? && ThiefOf(s, a.tid).pc.StealBottom? &&
            ThiefOf(Step(s, a), a.tid).pc == StealRest(Nothing, None) ==>
            s.items == [] || (|s.items| == 1 && (s.owner.PopDec? || s.owner.PopCas?))
    ensures a.ThiefGo? && ThiefOf(s, a.tid).pc.StealCas? ==>
              var pc := ThiefOf(Step(s, a), a.tid).pc;
              pc.StealRest? && pc.taken.Nothing? ==> ThiefOf(s, a.tid).pc.t < s.top
  {
    if a.ThiefGo? && a.tid in s.thieves {
      assert ThiefFits(s, s.thieves[a.tid].pc);
    }
    if a.OwnerGo? && !(s.owner.PushBottom? || s.owner.PopDec? || s.owner.PopCas? || s.owner.PopLast? ||
                       s.owner.PopRestore?) {
      NeverRestores(s);
    }
  }

  lemma NeverRestores<T>(s: Deque<T>)
    requires !(s.owner.PopDec? || s.owner.PopCas? || s.owner.PopLast? || s.owner.PopRestore?)
    ensures !OwnerStep(s).owner.PopRestore?
  {
    match s.owner
    case PushSeen(_, _, _) =>
    case PopTake(_, _, _) =>
    case _ =>
  }

  /** The active buffer never gets smaller than at the start and never quite full. */
  lemma SizeBounds<T>(acts: seq<Action<T>>)
    ensures var s := Exec(Init(), acts); 16 <= Size(Active(s)) && |s.items| <= Size(Active(s)) - 1
  {
    RunKeepsInv(acts);
    SizeAtLeast(Active(Exec(Init(), acts)).logSize);
  }

  /**
   A buffer that a thief has loaded stays allocated until the thief marks its token idle; the
   active buffer stays allocated throughout; buffers are deleted in the order of their ids, each
   at most once.
   */
  lemma BuffersInUseAreAlive<T>(acts: seq<Action<T>>, t: nat)
    ensures var s := Exec(Init(), acts);
            && s.active in s.buffers
            && (Held(ThiefOf(s, t).pc).Some? ==>
                  Held(ThiefOf(s, t).pc).value in s.buffers && Held(ThiefOf(s, t).pc).value !in s.freed)
            && (forall i :: 0 <= i < |s.freed| ==> s.freed[i] == i && i !in s.buffers)
            && (forall a: nat :: a < s.created ==> (a in s.buffers <==> a !in s.freed))
  {
    RunKeepsMem(acts);
    var s := Exec(Init(), acts);
    assert t in s.thieves ==> TokenFits(s, s.thieves[t]);
    assert forall a: nat :: a in s.freed ==> a < |s.freed|;
    forall a: nat | a < |s.freed| ensures a in s.freed {
      assert s.freed[a] == a;
    }
  }

  // ----- A thief can be overtaken -----

  ghost predicate Reachable<T(!new)>(s: Deque<T>) {
    exists acts: seq<Action<T>> :: Exec(Init(), acts) == s
  }

  lemma ReachStep<T(!new)>(s: Deque<T>, a: Action<T>)
    requires Reachable(s)
    ensures Reachable(Step(s, a))
  {
    var acts: seq<Action<T>> :| Exec(Init(), acts) == s;
    assert (acts + [a])[..|acts|] == acts;
    assert Exec(Init(), acts + [a]) == Step(s, a);
  }

  /** A push that neither grows nor reclaims. */
  lemma PushRun<T(!new)>(s: Deque<T>, item: T) returns (s': Deque<T>)
    requires Reachable(s) && s.owner.OwnerIdle? && s.unlinked.None? && s.bottom >= 0
    requires s.bottom - s.top < Size(Active(s)) - 1
    ensures Reachable(s')
    ensures s' == s.(bottom := s.bottom + 1, items := s.items + [item],
                     buffers := s.buffers[s.active := Put(Active(s), s.bottom, Some(Entry(s.bottom, item)))])
  {
    var b := s.bottom;
    ReachStep(s, OwnerPush(item));
    var s1 := s.(owner := PushSeen(item, b, s.top));
    ReachStep(s1, OwnerGo);
    var s2 := s.(owner := PushPut(item, b));
    ReachStep(s2, OwnerGo);
    ReachStep(OwnerStep(s2), OwnerGo);
    s' := OwnerStep(OwnerStep(s2));
  }

  lemma SetTwice<T>(s: Deque<T>, tid: nat, th: ThiefState<T>, th': ThiefState<T>)
    ensures SetThief(SetThief(s, tid, th), tid, th') == SetThief(s, tid, th')
  {
  }

  lemma ThiefGoes<T(!new)>(s: Deque<T>, tid: nat, th: ThiefState<T>, th': ThiefState<T>)
    requires Reachable(SetThief(s, tid, th))
    requires ThiefStep(SetThief(s, tid, th), tid, false) == SetThief(SetThief(s, tid, th), tid, th')
    ensures Reachable(SetThief(s, tid, th'))
  {
    SetTwice(s, tid, th, th');
    ReachStep(SetThief(s, tid, th), ThiefGo(tid, false));
  }

  /** An undisturbed thief up to and including its CAS, from a deque with something in it. */
  lemma ClaimRun<T(!new)>(s: Deque<T>, tid: nat)
    requires Reachable(s) && ThiefOf(s, tid).pc.ThiefIdle? && s.bottom - s.top > 0
    ensures Reachable(SetThief(ClaimFront(s), tid,
                               ThiefState(StealGet(s.top, s.active, |s.claims|), ThiefOf(s, tid).idLastUsed, false)))
  {
    var id := ThiefOf(s, tid).idLastUsed;
    var idle := ThiefOf(s, tid).wasIdle;
    ReachStep(s, ThiefSteal(tid));
    ThiefGoes(s, tid, ThiefState(StealStart, id, idle), ThiefState(StealTop, id, false));
    ThiefGoes(s, tid, ThiefState(StealTop, id, false), ThiefState(StealBottom(s.top), id, false));
    ThiefGoes(s, tid, ThiefState(StealBottom(s.top), id, false), ThiefState(StealLoad(s.top), id, false));
    CasRun(s, tid, id);
  }

  lemma CasRun<T(!new)>(s: Deque<T>, tid: nat, id: nat)
    requires Reachable(SetThief(s, tid, ThiefState(StealLoad(s.top), id, false)))
    ensures Reachable(SetThief(ClaimFront(s), tid, ThiefState(StealGet(s.top, s.active, |s.claims|), id, false)))
  {
    ThiefGoes(s, tid, ThiefState(StealLoad(s.top), id, false), ThiefState(StealCas(s.top, s.active), id, false));
    var s5 := SetThief(s, tid, ThiefState(StealCas(s.top, s.active), id, false));
    ReachStep(s5, ThiefGo(tid, false));
    SetTwice(ClaimFront(s), tid, ThiefState(StealCas(s.top, s.active), id, false),
             ThiefState(StealGet(s.top, s.active, |s.claims|), id, false));
    assert ClaimFront(s5) == SetThief(ClaimFront(s), tid, ThiefState(StealCas(s.top, s.active), id, false));
  }

  lemma RegisterRun<T(!new)>(s: Deque<T>, tid: nat)
    requires Reachable(s) && tid !in s.thieves
    ensures Reachable(SetThief(s, tid, ThiefState(ThiefIdle, 0, true)).(registry := s.registry + [tid]))
  {
    ReachStep(s, ThiefRegister(tid));
    var s1 := SetThief(s, tid, ThiefState(RegisterSeen(|s.registry|), 0, true));
    ReachStep(s1, ThiefGo(tid, false));
    assert ThiefStep(s1, tid, false) ==
           SetThief(s, tid, ThiefState(ThiefIdle, 0, true)).(registry := s.registry + [tid]);
  }

  /** What pushing into the first buffer leaves alone. */
  predicate OnlyPushes(s: Deque<int>, s': Deque<int>) {
    && s'.owner.OwnerIdle? && s'.unlinked.None? && s'.top == s.top && s'.claims == s.claims
    && s'.active == s.active && s'.registry == s.registry && s'.thieves == s.thieves
    && WellSized(Active(s')) && Active(s').logSize == 4
  }

  /** Push the numbers from `bottom` up to `n`, without filling the first buffer. */
  lemma {:induction false} CountUp(s: Deque<int>, n: nat) returns (s': Deque<int>)
    requires Reachable(s) && OnlyPushes(s, s) && 0 <= s.bottom <= n && n - s.top <= 15
    ensures Reachable(s') && OnlyPushes(s, s') && s'.bottom == n && |s'.items| == |s.items| + n - s.bottom
    ensures s.items <= s'.items && (s.bottom < n ==> s'.items[|s'.items| - 1] == n - 1)
    ensures s.bottom < n ==> Get(Active(s'), n - 1) == Some(Entry(n - 1, n - 1))
    ensures s.bottom == n ==> s' == s
    decreases n - s.bottom
  {
    if s.bottom == n {
      s' := s;
    } else {
      assert Pow2(4) == 16;
      var s1 := PushRun(s, s.bottom);
      PutGet(Active(s), s.bottom, Some(Entry(s.bottom, s.bottom)), s.bottom);
      s' := CountUp(s1, n);
    }
  }

  /** Two thieves have each claimed one of the first two items and neither has read it. */
  lemma TwoClaims() returns (s: Deque<int>)
    ensures Reachable(s) && OnlyPushes(s, s) && s.top == 2 && s.bottom == 2 && s.items == [] && s.claims == [0, 1]
    ensures ThiefOf(s, 0).pc == StealGet(0, s.active, 0)
  {
    var s0 := Init<int>();
    assert Pow2(4) == 16;
    assert Exec(s0, []) == s0;
    var s1 := PushRun(s0, 0);
    var s2 := PushRun(s1, 1);
    RegisterRun(s2, 0);
    var s3 := SetThief(s2, 0, ThiefState(ThiefIdle, 0, true)).(registry := s2.registry + [0]);
    RegisterRun(s3, 1);
    var s4 := SetThief(s3, 1, ThiefState(ThiefIdle, 0, true)).(registry := s3.registry + [1]);
    ClaimRun(s4, 0);
    var s5 := SetThief(ClaimFront(s4), 0, ThiefState(StealGet(0, s4.active, 0), 0, false));
    assert s5.items == [1] && s5.claims == [0];
    ClaimRun(s5, 1);
    s := SetThief(ClaimFront(s5), 1, ThiefState(StealGet(1, s5.active, 1), 0, false));
  }

  /**
   The read at the end of a steal is not protected by its CAS: a thief that stops in between
   can find, in the same slot, an item pushed a whole lap later and still in the deque.
   */
  lemma StealCanBeOvertaken() returns (s: Deque<int>)
    ensures Reachable(s) && s.claims == [0, 1] && s.top == 2 && s.bottom == 17
    ensures EventOf(s, ThiefGo(0, false)) == Deliver(0, 0, Some(Entry(16, 16))) && 16 in s.items
  {
    var s1 := TwoClaims();
    s := CountUp(s1, 17);
    assert Pow2(4) == 16 && Slot(16, 16) == Slot(0, 16);
    assert s.items[|s.items| - 1] == 16;
  }
}
