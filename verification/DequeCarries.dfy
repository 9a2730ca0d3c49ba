/**
 From the read of a slot to the caller: every entry that a pop or a steal has read is what that
 same call returns, whatever the other threads do in between.
 */
module DequeCarries {
  import opened Common
  import opened Deque
  import opened DequeMemory
  import opened DequeContents
  import opened DequeRuns

  datatype Who = ByOwner | ByThief(tid: nat)

  function Actor<T>(a: Action<T>): Who {
    if a.OwnerPush? || a.OwnerPop? || a.OwnerGo? || a.OwnerReturn? then ByOwner else ByThief(a.tid)
  }

  /** What an operation has taken, as a sequence of at most one read. */
  function ReadOf<T>(taken: Taken<T>): (r: seq<Option<Entry<T>>>)
    ensures |r| <= 1
  {
    if taken.Took? then [taken.read] else []
  }

  function AfterOf<T>(after: After<T>): (r: seq<Option<Entry<T>>>)
    ensures |r| <= 1
  {
    if after.ThenReturn? then ReadOf(after.taken) else []
  }

  /** What a thread has read in its present call and not returned yet. */
  function InHand<T>(s: Deque<T>, w: Who): (r: seq<Option<Entry<T>>>)
    ensures |r| <= 1
  {
    match w
    case ByOwner => (
      match s.owner
      case PopRestore(_, taken) => ReadOf(taken)
      case PopEnd(taken) => ReadOf(taken)
      case StoreActive(after, _) => AfterOf(after)
      case LoadTokens(after) => AfterOf(after)
      case ScanToken(after, _, _) => AfterOf(after)
      case ScanId(after, _, _) => AfterOf(after)
      case Free(after, _) => AfterOf(after)
      case _ => [])
    case ByThief(t) =>
      match ThiefOf(s, t).pc
      case StealRest(taken, _) => ReadOf(taken)
      case StealNote(taken) => ReadOf(taken)
      case StealEnd(taken) => ReadOf(taken)
      case _ => []
  }

  /** What the call that action `a` brings to its end returns. */
  function ReturnOf<T>(s: Deque<T>, a: Action<T>): seq<Option<Entry<T>>> {
    match a
    case OwnerReturn => if s.owner.PopEnd? then ReadOf(s.owner.taken) else []
    case ThiefReturn(t) => if ThiefOf(s, t).pc.StealEnd? then ReadOf(ThiefOf(s, t).pc.taken) else []
    case _ => []
  }

  function ReadBy<T>(s: Deque<T>, a: Action<T>): seq<Option<Entry<T>>> {
    if EventOf(s, a).Deliver? then [EventOf(s, a).read] else []
  }

  /** What thread `w` has read, and what its calls have returned, over a run. */
  function ReadsBy<T>(acts: seq<Action<T>>, w: Who): seq<Option<Entry<T>>> {
    if acts == [] then [] else
      var before, a := acts[..|acts| - 1], acts[|acts| - 1];
      ReadsBy(before, w) + if Actor(a) == w then ReadBy(Exec(Init(), before), a) else []
  }

  function ReturnsBy<T>(acts: seq<Action<T>>, w: Who): seq<Option<Entry<T>>> {
    if acts == [] then [] else
      var before, a := acts[..|acts| - 1], acts[|acts| - 1];
      ReturnsBy(before, w) + if Actor(a) == w then ReturnOf(Exec(Init(), before), a) else []
  }

  lemma OwnerPasses<T>(s: Deque<T>)
    requires Con(s)
    ensures InHand(s, ByOwner) + ReadBy(s, OwnerGo) == InHand(OwnerStep(s), ByOwner)
  {
    if s.owner.PushSeen? || s.owner.PopTake? || s.owner.StoreActive? {
      ReplacePasses(s);
    } else {
      OthersPass(s);
    }
  }

  lemma ReplacePasses<T>(s: Deque<T>)
    requires OwnerFits(s) && (s.owner.PushSeen? || s.owner.PopTake? || s.owner.StoreActive?)
    ensures InHand(s, ByOwner) + ReadBy(s, OwnerGo) == InHand(OwnerStep(s), ByOwner)
  {
    match s.owner
    case PushSeen(_, _, _) =>
    case PopTake(_, _, _) =>
    case StoreActive(_, _) =>
  }

  lemma OthersPass<T>(s: Deque<T>)
    requires !s.owner.PushSeen? && !s.owner.PopTake? && !s.owner.StoreActive?
    ensures InHand(s, ByOwner) + ReadBy(s, OwnerGo) == InHand(OwnerStep(s), ByOwner)
  {
  }

  lemma ThiefPasses<T>(s: Deque<T>, t: nat, spurious: bool)
    ensures InHand(s, ByThief(t)) + ReadBy(s, ThiefGo(t, spurious)) == InHand(ThiefStep(s, t, spurious), ByThief(t))
  {
  }

  /** What a thread reads it has in hand until it returns it, and nobody else touches that. */
  lemma StepPasses<T>(s: Deque<T>, a: Action<T>, w: Who)
    requires Con(s)
    ensures if Actor(a) == w then InHand(s, w) + ReadBy(s, a) == ReturnOf(s, a) + InHand(Step(s, a), w)
            else InHand(Step(s, a), w) == InHand(s, w)
  {
    OthersStay(s, a);
    if Actor(a) == w {
      match a {
        case OwnerGo => OwnerPasses(s);
        case ThiefGo(t, spurious) => ThiefPasses(s, t, spurious);
        case _ =>
      }
    }
  }

  lemma Passed<A>(got: seq<A>, gone: seq<A>, hand: seq<A>, read: seq<A>, back: seq<A>, hand': seq<A>)
    requires got == gone + hand && hand + read == back + hand'
    ensures got + read == (gone + back) + hand'
  {
    assert got + read == gone + (hand + read);
    assert gone + (back + hand') == (gone + back) + hand';
  }

  /**
   In every run each thread has read exactly what its calls have returned, in the same order, and at
   most one more entry, which its present call will return.
   */
  lemma {:induction false} ReturnsWhatItReads<T>(acts: seq<Action<T>>, w: Who)
    ensures ReadsBy(acts, w) == ReturnsBy(acts, w) + InHand(Exec(Init(), acts), w)
    ensures |InHand(Exec(Init(), acts), w)| <= 1
  {
    if acts != [] {
      var before, a := acts[..|acts| - 1], acts[|acts| - 1];
      var s := Exec(Init(), before);
      ReturnsWhatItReads(before, w);
      assert Con(s) by {
        RunKeepsInv(before);
      }
      StepPasses(s, a, w);
      if Actor(a) == w {
        Passed(ReadsBy(before, w), ReturnsBy(before, w), InHand(s, w), ReadBy(s, a), ReturnOf(s, a),
               InHand(Step(s, a), w));
      }
    }
  }

  // ----- All threads together -----

  function Values<T>(q: seq<Option<Entry<T>>>): seq<T> {
    if q == [] then [] else
      var e := q[|q| - 1];
      Values(q[..|q| - 1]) + if e.Some? then [e.value.item] else []
  }

  /** The values read out of slots, and the values returned to callers, over a run. */
  function AllRead<T>(acts: seq<Action<T>>): seq<T> {
    if acts == [] then [] else
      var before, a := acts[..|acts| - 1], acts[|acts| - 1];
      AllRead(before) + Values(ReadBy(Exec(Init(), before), a))
  }

  function AllReturned<T>(acts: seq<Action<T>>): seq<T> {
    if acts == [] then [] else
      var before, a := acts[..|acts| - 1], acts[|acts| - 1];
      AllReturned(before) + Values(ReturnOf(Exec(Init(), before), a))
  }

  function Threads<T>(s: Deque<T>): set<Who> {
    {ByOwner} + set t | t in s.thieves :: ByThief(t)
  }

  /** The threads that are about to return `v`. */
  ghost function Holders<T>(s: Deque<T>, v: T): set<Who> {
    set w | w in Threads(s) && v in Values(InHand(s, w))
  }

  function Count<T(==)>(q: seq<T>, v: T): nat {
    multiset(q)[v]
  }

  lemma IsHolder<T>(s: Deque<T>, w: Who, v: T)
    ensures w in Holders(s, v) <==> v in Values(InHand(s, w))
    ensures Count(Values(InHand(s, w)), v) == if w in Holders(s, v) then 1 else 0
  {
    var q := InHand(s, w);
    if q != [] {
      assert q[..0] == [];
      assert Values(q) == if q[0].Some? then [q[0].value.item] else [];
      assert w.ByThief? ==> w.tid in s.thieves;
      assert w in Threads(s);
    }
  }

  lemma HoldersChange<T>(s: Deque<T>, s': Deque<T>, w: Who, v: T)
    requires forall u: Who :: u != w ==> InHand(s', u) == InHand(s, u)
    ensures |Holders(s', v)| + Count(Values(InHand(s, w)), v) == |Holders(s, v)| + Count(Values(InHand(s', w)), v)
  {
    var h, h' := Holders(s, v), Holders(s', v);
    forall u: Who | u != w ensures u in h <==> u in h' {
      IsHolder(s, u, v);
      IsHolder(s', u, v);
    }
    IsHolder(s, w, v);
    IsHolder(s', w, v);
    SameButOne(h, h', w);
  }

  lemma {:induction false} ValuesConcat<T>(p: seq<Option<Entry<T>>>, q: seq<Option<Entry<T>>>)
    ensures Values(p + q) == Values(p) + Values(q)
  {
    if q == [] {
      assert p + q == p;
    } else {
      ValuesConcat(p, q[..|q| - 1]);
      assert (p + q)[..|p + q| - 1] == p + q[..|q| - 1];
    }
  }

  lemma StepBalances<T>(s: Deque<T>, a: Action<T>, v: T)
    requires Con(s)
    ensures |Holders(Step(s, a), v)| + Count(Values(ReturnOf(s, a)), v) ==
            |Holders(s, v)| + Count(Values(ReadBy(s, a)), v)
  {
    var s', w := Step(s, a), Actor(a);
    forall u: Who | u != w ensures InHand(s', u) == InHand(s, u) {
      StepPasses(s, a, u);
    }
    StepPasses(s, a, w);
    HoldersChange(s, s', w, v);
    CountsMove(InHand(s, w), ReadBy(s, a), ReturnOf(s, a), InHand(s', w), v);
  }

  lemma CountsMove<T>(hand: seq<Option<Entry<T>>>, read: seq<Option<Entry<T>>>, back: seq<Option<Entry<T>>>,
                      hand': seq<Option<Entry<T>>>, v: T)
    requires hand + read == back + hand'
    ensures Count(Values(hand), v) + Count(Values(read), v) == Count(Values(back), v) + Count(Values(hand'), v)
  {
    ValuesConcat(hand, read);
    ValuesConcat(back, hand');
    CountsAdd(Values(hand), Values(read), Values(back), Values(hand'), v);
  }

  lemma CountsAdd<T>(p: seq<T>, q: seq<T>, p': seq<T>, q': seq<T>, v: T)
    requires p + q == p' + q'
    ensures Count(p, v) + Count(q, v) == Count(p', v) + Count(q', v)
  {
    assert multiset(p) + multiset(q) == multiset(p + q) == multiset(p' + q') == multiset(p') + multiset(q');
    assert (multiset(p) + multiset(q))[v] == (multiset(p') + multiset(q'))[v];
  }

  /** Of every value, as many copies have been read as have been returned or are about to be. */
  lemma {:induction false} ReadIsReturned<T>(acts: seq<Action<T>>, v: T)
    ensures Count(AllRead(acts), v) == Count(AllReturned(acts), v) + |Holders(Exec(Init(), acts), v)|
  {
    if acts == [] {
      forall w: Who ensures w !in Holders(Init<T>(), v) {
        IsHolder(Init<T>(), w, v);
      }
      assert Holders(Init<T>(), v) == {};
    } else {
      var before, a := acts[..|acts| - 1], acts[|acts| - 1];
      ReadIsReturned(before, v);
      assert Con(Exec(Init(), before)) by {
        RunKeepsInv(before);
      }
      StepBalances(Exec(Init(), before), a, v);
    }
  }
}
