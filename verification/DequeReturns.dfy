/**
 What callers of the deque get back: as long as no thief is overtaken, every pushed value is
 returned at most once, and none is missing when nobody is in the middle of a pop.
 */
module DequeReturns {
  import opened Common
  import opened Deque
  import opened DequeMemory
  import opened DequeContents
  import opened DequeRuns
  import opened DequeOvertaken
  import opened DequeCarries

  /** The values that deliveries have read, in order. */
  function ReadOut<T>(got: seq<Event<T>>): seq<T> {
    if got == [] then [] else
      var e := got[|got| - 1];
      ReadOut(got[..|got| - 1]) + if e.Deliver? && e.read.Some? then [e.read.value.item] else []
  }

  lemma {:induction false} ReadOutConcat<T>(a: seq<Event<T>>, b: seq<Event<T>>)
    ensures ReadOut(a + b) == ReadOut(a) + ReadOut(b)
  {
    if b == [] {
      assert a + b == a;
    } else {
      ReadOutConcat(a, b[..|b| - 1]);
      assert (a + b)[..|a + b| - 1] == a + b[..|b| - 1];
    }
  }

  /** Every delivery is of the item claimed under its serial, and serials do not repeat. */
  ghost predicate Redeems<T>(claims: seq<T>, got: seq<Event<T>>) {
    && (forall i :: 0 <= i < |got| ==>
          got[i].Deliver? && got[i].serial < |claims| && got[i].read.Some? &&
          got[i].read.value.item == claims[got[i].serial])
    && (forall i, j :: 0 <= i < j < |got| ==> got[i].serial != got[j].serial)
  }

  ghost predicate Redeemed<T>(got: seq<Event<T>>, k: nat) {
    exists i :: 0 <= i < |got| && got[i].Deliver? && got[i].serial == k
  }

  ghost predicate RedeemsAll<T>(claims: seq<T>, got: seq<Event<T>>) {
    forall k: nat :: k < |claims| ==> Redeemed(got, k)
  }

  lemma ReturnedOne<T>(e: Event<T>)
    requires e.Deliver? && e.read.Some?
    ensures ReadOut([e]) == [e.read.value.item]
  {
    assert [e][..0] == [];
  }

  lemma RemoveReturned<T>(got: seq<Event<T>>, i: nat)
    requires i < |got| && got[i].Deliver? && got[i].read.Some?
    ensures multiset(ReadOut(got)) == multiset(ReadOut(got[..i] + got[i + 1..])) + multiset{got[i].read.value.item}
  {
    var front, e, back := got[..i], got[i], got[i + 1..];
    assert got == front + [e] + back;
    ReadOutConcat(front + [e], back);
    ReadOutConcat(front, [e]);
    ReturnedOne(e);
    ReadOutConcat(front, back);
  }

  /** Setting the delivery of the last claim aside. */
  lemma WithoutLast<T>(claims: seq<T>, got: seq<Event<T>>, i: nat)
    requires Redeems(claims, got) && i < |got| && got[i].serial == |claims| - 1
    ensures Redeems(claims[..|claims| - 1], got[..i] + got[i + 1..])
    ensures RedeemsAll(claims, got) ==> RedeemsAll(claims[..|claims| - 1], got[..i] + got[i + 1..])
  {
    var rest := got[..i] + got[i + 1..];
    forall j | 0 <= j < |rest| ensures rest[j] == got[if j < i then j else j + 1] && rest[j].serial < |claims| - 1 {
      assert got[if j < i then j else j + 1].serial != got[i].serial;
    }
    if RedeemsAll(claims, got) {
      forall k: nat | k < |claims| - 1 ensures Redeemed(rest, k) {
        assert Redeemed(got, k);
        var j :| 0 <= j < |got| && got[j].Deliver? && got[j].serial == k;
        assert rest[if j < i then j else j - 1] == got[j];
      }
    }
  }

  lemma {:induction false} RedeemedOnce<T>(claims: seq<T>, got: seq<Event<T>>)
    requires Redeems(claims, got)
    ensures multiset(ReadOut(got)) <= multiset(claims)
    ensures RedeemsAll(claims, got) ==> multiset(ReadOut(got)) == multiset(claims)
  {
    assert |got| > 0 ==> got[0].Deliver? && got[0].serial < |claims|;
    if claims != [] {
      var n := |claims| - 1;
      assert claims == claims[..n] + [claims[n]];
      if Redeemed(got, n) {
        var i :| 0 <= i < |got| && got[i].Deliver? && got[i].serial == n;
        WithoutLast(claims, got, i);
        RemoveReturned(got, i);
        RedeemedOnce(claims[..n], got[..i] + got[i + 1..]);
      } else {
        assert forall i :: 0 <= i < |got| && got[i].Deliver? ==> got[i].serial != n;
        RedeemedOnce(claims[..n], got);
      }
    }
  }

  /** No thief reads its slot after the owner has pushed the index one lap on over it. */
  ghost predicate NotOvertaken<T>(acts: seq<Action<T>>) {
    acts == [] || (
      var before, a := acts[..|acts| - 1], acts[|acts| - 1];
      && NotOvertaken(before)
      && (a.ThiefGo? && ThiefOf(Exec(Init(), before), a.tid).pc.StealGet? ==> !Overwritten(before, a.tid)))
  }

  /** Every delivery is of the claimed index. */
  ghost predicate DeliversClaims<T>(got: seq<Event<T>>) {
    forall i :: 0 <= i < |got| ==> got[i].Deliver? && got[i].read.Some? && got[i].read.value.index == got[i].index
  }

  lemma DeliverStep<T>(acts: seq<Action<T>>, a: Action<T>)
    requires EventOf(Exec(Init(), acts), a).Deliver?
    ensures var e := EventOf(Exec(Init(), acts), a);
            e.read.Some? && (e.read.value.index == e.index <==> (a.ThiefGo? ==> !Overwritten(acts, a.tid)))
  {
    if a.ThiefGo? {
      ReadsItsClaimIff(acts, a.tid, a.spurious);
    } else {
      RunKeepsInv(acts);
      ReadsItsClaim(Exec(Init(), acts), a);
    }
  }

  lemma ReadingDelivers<T>(s: Deque<T>, a: Action<T>)
    ensures a.ThiefGo? ==> (EventOf(s, a).Deliver? <==> ThiefOf(s, a.tid).pc.StealGet?)
  {
  }

  lemma DeliversMore<T>(got: seq<Event<T>>, e: Event<T>)
    ensures DeliversClaims(got + [e]) <==>
            DeliversClaims(got) && e.Deliver? && e.read.Some? && e.read.value.index == e.index
  {
    assert (got + [e])[|got|] == e;
    assert forall i :: 0 <= i < |got| ==> (got + [e])[i] == got[i];
  }

  /** All deliveries of a run are of the claimed items if and only if no thief was overtaken in it. */
  lemma {:induction false} DeliversClaimsIff<T>(acts: seq<Action<T>>)
    ensures DeliversClaims(Delivered(Trace(acts))) <==> NotOvertaken(acts)
  {
    if acts != [] {
      var before, a := acts[..|acts| - 1], acts[|acts| - 1];
      DeliversClaimsIff(before);
      TraceLength(before);
      assert Trace(acts)[..|acts| - 1] == Trace(before);
      var e := EventOf(Exec(Init(), before), a);
      assert Delivered(Trace(acts)) == Delivered(Trace(before)) + if e.Deliver? then [e] else [];
      ReadingDelivers(Exec(Init(), before), a);
      if e.Deliver? {
        DeliverStep(before, a);
        DeliversMore(Delivered(Trace(before)), e);
      } else {
        assert Delivered(Trace(acts)) == Delivered(Trace(before));
      }
    }
  }

  /** Nobody is between claiming an item and reading it. */
  ghost predicate NobodyReads<T>(s: Deque<T>) {
    !s.owner.PopLast? && !s.owner.PopTake? && forall t: nat :: !ThiefOf(s, t).pc.StealGet?
  }

  /** What deliveries have read is what the threads have read. */
  lemma {:induction false} ReadOutIsRead<T>(acts: seq<Action<T>>)
    ensures ReadOut(Delivered(Trace(acts))) == AllRead(acts)
  {
    if acts != [] {
      var before, a := acts[..|acts| - 1], acts[|acts| - 1];
      ReadOutIsRead(before);
      TraceLength(before);
      assert Trace(acts)[..|acts| - 1] == Trace(before);
      var e := EventOf(Exec(Init(), before), a);
      assert Delivered(Trace(acts)) == Delivered(Trace(before)) + if e.Deliver? then [e] else [];
      ReadOutConcat(Delivered(Trace(before)), if e.Deliver? then [e] else []);
      OneReadOut(e);
    }
  }

  lemma OneReadOut<T>(e: Event<T>)
    ensures ReadOut(if e.Deliver? then [e] else []) == Values(if e.Deliver? then [e.read] else [])
  {
    if e.Deliver? {
      assert [e][..0] == [] && [e.read][..0] == [];
    }
  }

  /**
   Where no thief is overtaken, everything claimed has been returned, or is about to be by a thread
   that has read it, once nobody is between claim and read; until then nothing else is.
   */
  lemma ClaimsAreReturned<T>(acts: seq<Action<T>>, v: T)
    requires NotOvertaken(acts)
    ensures var s := Exec(Init(), acts);
            && Count(AllReturned(acts), v) + |Holders(s, v)| <= Count(s.claims, v)
            && (NobodyReads(s) ==> Count(AllReturned(acts), v) + |Holders(s, v)| == Count(s.claims, v))
  {
    var s := Exec(Init(), acts);
    RunRedeems(acts);
    RedeemedOnce(s.claims, Delivered(Trace(acts)));
    ReadOutIsRead(acts);
    ReadIsReturned(acts, v);
    var got, claims := multiset(AllRead(acts)), multiset(s.claims);
    assert got <= claims && (NobodyReads(s) ==> got == claims);
    assert got[v] <= claims[v];
  }

  /** Nobody is between claiming an item and returning it. */
  ghost predicate NobodyTakes<T>(s: Deque<T>) {
    NobodyReads(s) && forall w: Who :: InHand(s, w) == []
  }

  /**
   Every value pushed is returned to a caller at most once across the owner's pops and all steals,
   and when nobody is between claim and return, what was pushed is what was returned plus what
   [top, bottom) holds.
   */
  lemma EachReturnedOnce<T>(acts: seq<Action<T>>)
    requires NotOvertaken(acts)
    ensures var s := Exec(Init(), acts); var returned := multiset(AllReturned(acts));
            && returned + multiset(s.items) <= multiset(Pushed(Trace(acts)))
            && (NobodyTakes(s) ==> returned + multiset(s.items) == multiset(Pushed(Trace(acts))))
  {
    RunConserves(acts);
    ReturnedAreClaims(acts);
    Splits(multiset(AllReturned(acts)), multiset(Exec(Init(), acts).claims), multiset(Exec(Init(), acts).items));
  }

  lemma Splits<T>(returned: multiset<T>, claims: multiset<T>, items: multiset<T>)
    requires returned <= claims
    ensures returned + items <= claims + items
  {
  }

  lemma ReturnedAreClaims<T>(acts: seq<Action<T>>)
    requires NotOvertaken(acts)
    ensures var s := Exec(Init(), acts); var returned := multiset(AllReturned(acts));
            returned <= multiset(s.claims) && (NobodyTakes(s) ==> returned == multiset(s.claims))
  {
    var claims := Exec(Init(), acts).claims;
    forall v: T ensures Count(AllReturned(acts), v) <= Count(claims, v) {
      ClaimsAreReturned(acts, v);
    }
    CountsBound(AllReturned(acts), claims);
    if NobodyTakes(Exec(Init(), acts)) {
      forall v: T ensures Count(claims, v) <= Count(AllReturned(acts), v) {
        ClaimsAreReturned(acts, v);
        NobodyHolds(Exec(Init(), acts), v);
      }
      CountsBound(claims, AllReturned(acts));
    }
  }

  lemma CountsBound<T>(p: seq<T>, q: seq<T>)
    requires forall v: T :: Count(p, v) <= Count(q, v)
    ensures multiset(p) <= multiset(q)
  {
    forall v: T ensures multiset(p)[v] <= multiset(q)[v] {
      assert Count(p, v) <= Count(q, v);
    }
  }

  lemma NobodyHolds<T>(s: Deque<T>, v: T)
    requires NobodyTakes(s)
    ensures |Holders(s, v)| == 0
  {
    forall w: Who ensures w !in Holders(s, v) {
      IsHolder(s, w, v);
      assert InHand(s, w) == [];
    }
    assert Holders(s, v) == {};
  }

  lemma RunConserves<T>(acts: seq<Action<T>>)
    ensures var s := Exec(Init(), acts); multiset(Pushed(Trace(acts))) == multiset(s.claims) + multiset(s.items)
  {
    RunIsSequential(acts);
  }

  lemma RunRedeems<T>(acts: seq<Action<T>>)
    requires NotOvertaken(acts)
    ensures var s := Exec(Init(), acts); var got := Delivered(Trace(acts));
            Redeems(s.claims, got) && (NobodyReads(s) ==> RedeemsAll(s.claims, got))
  {
    RunHandsOnce(acts);
    DeliversClaimsIff(acts);
    var s := Exec(Init(), acts);
    if NobodyReads(s) {
      forall k: nat | k < |s.claims| ensures Redeemed(Delivered(Trace(acts)), k) {
        NobodyAwaits(s, k);
      }
    }
  }

  lemma NobodyAwaits<T>(s: Deque<T>, k: nat)
    requires NobodyReads(s)
    ensures !Awaited(s, k)
  {
    forall t: nat ensures !ThiefAwaits(s, t, k) {
      assert !ThiefOf(s, t).pc.StealGet?;
    }
  }

  // ----- Steals whose claim and read are not separated -----

  /** Whenever a thief has claimed an item, the next action is its read. */
  ghost predicate StealsAtOnce<T>(acts: seq<Action<T>>) {
    acts == [] || (
      var before, a := acts[..|acts| - 1], acts[|acts| - 1];
      StealsAtOnce(before) && forall t: nat :: ThiefOf(Exec(Init(), before), t).pc.StealGet? ==>
        a.ThiefGo? && a.tid == t)
  }

  ghost predicate FreshClaims<T>(s: Deque<T>) {
    forall t: nat :: ThiefOf(s, t).pc.StealGet? ==> s.top == ThiefOf(s, t).pc.t + 1
  }

  lemma StepKeepsFresh<T>(s: Deque<T>, a: Action<T>)
    requires FreshClaims(s) && forall t: nat :: ThiefOf(s, t).pc.StealGet? ==> a.ThiefGo? && a.tid == t
    ensures FreshClaims(Step(s, a))
  {
    OthersStay(s, a);
    forall t: nat | ThiefOf(Step(s, a), t).pc.StealGet? ensures Step(s, a).top == ThiefOf(Step(s, a), t).pc.t + 1 {
      var was := ThiefOf(s, t).pc;
    }
  }

  /** With claim and read in one piece no thief is ever overtaken, so `EachReturnedOnce` applies to every run. */
  lemma {:induction false} AtOnceIsNotOvertaken<T>(acts: seq<Action<T>>)
    requires StealsAtOnce(acts)
    ensures NotOvertaken(acts) && FreshClaims(Exec(Init(), acts))
  {
    if acts != [] {
      var before, a := acts[..|acts| - 1], acts[|acts| - 1];
      AtOnceIsNotOvertaken(before);
      var s := Exec(Init(), before);
      StepKeepsFresh(s, a);
      if a.ThiefGo? && ThiefOf(s, a.tid).pc.StealGet? {
        FreshReadIsRight(before, a.tid, a.spurious);
      }
    }
  }

  lemma FreshReadIsRight<T>(acts: seq<Action<T>>, tid: nat, spurious: bool)
    requires var s := Exec(Init(), acts); ThiefOf(s, tid).pc.StealGet? && s.top == ThiefOf(s, tid).pc.t + 1
    ensures !Overwritten(acts, tid)
  {
    RunKeepsInv(acts);
    ReadsItsClaim(Exec(Init(), acts), ThiefGo(tid, spurious));
    ReadsItsClaimIff(acts, tid, spurious);
  }
}
