/** A task queued in a ring of the lock-free pool is fetched by the worker of that ring. */
module LockFreeFetch {
  import opened Common
  import Ring
  import RingFifo
  import opened ClosingDown
  import opened LockFreeAlone
  import opened LockFreePool
  import opened LockFreeRuns
  import opened LockFreeTasks

  /** Worker `w` takes `k` steps with nobody else moving. */
  function Alone<T>(s: Pool<T>, w: nat, k: nat): (s': Pool<T>)
    requires Shape(s) && w < |s.workers|
    ensures Shape(s') && |s'.workers| == |s.workers|
    decreases k
  {
    if k == 0 then s else Alone(WorkStep(s, w, false), w, k - 1)
  }

  // ----- One pop -----

  lemma ReadyIff<T>(r: Ring.Ring<T>)
    requires Ring.Inv(r)
    ensures Ready(r) <==> r.dequeuePos < r.enqueuePos && !Ring.HasPusher(r, r.dequeuePos)
  {
    if Ring.HasPusher(r, r.dequeuePos) {
      var t :| t in r.threads && Ring.PushOwns(r.threads[t], r.dequeuePos);
      assert Ring.LocalFits(r, r.threads[t]);
    }
  }

  /** How many rounds at most a pop takes with nobody else moving. */
  function PopRank<T>(r: Ring.Ring<T>, id: nat): nat {
    match Ring.LocalOf(r, id)
    case PopStart => 5
    case PopLook(pos) => if pos == r.dequeuePos then 4 else 7
    case PopCas(pos) => if pos == r.dequeuePos then 3 else 6
    case PopTake(_) => 2
    case PopRelease(_, _) => 1
    case _ => 0
  }

  lemma PopRankFalls<T>(r: Ring.Ring<T>, id: nat)
    requires Ring.Inv(r) && PopLocal(Ring.LocalOf(r, id))
    ensures PopRound(r, id, false).1.Still? ==> PopRank(PopRound(r, id, false).0, id) < PopRank(r, id)
  {
    assert Ring.LocalFits(r, r.threads[id]);
    assert Ring.CellFits(r, r.dequeuePos);
  }

  /** A pop from a ring with a published head finishes with an earlier ticket or wins that head. */
  ghost predicate HeadFound<T>(r: Ring.Ring<T>, id: nat)
    requires |r.cells| > 0
  {
    var (r', round) := PopRound(r, id, false);
    && r'.log == r.log
    && if r'.dequeuePos == r.dequeuePos then
         && Ready(r') && round != Over(None)
         && (round.Over? ==> Carried(r, id).Some?)
         && (round.Still? ==> PopRank(r', id) < PopRank(r, id) && (Carried(r, id).None? ==> Carried(r', id).None?))
       else
         && r'.dequeuePos == r.dequeuePos + 1 && round.Still?
         && PopRank(r, id) == 3 && Ring.LocalOf(r', id) == Ring.PopTake(r.dequeuePos)
  }

  lemma StaysReady<T>(r: Ring.Ring<T>, id: nat)
    requires Ring.Inv(r) && PopLocal(Ring.LocalOf(r, id)) && Ready(r) && PopOutcome(r, id, false)
    ensures var r' := PopRound(r, id, false).0; r'.dequeuePos == r.dequeuePos ==> Ready(r')
  {
    var r' := PopRound(r, id, false).0;
    PopRoundSound(r, id, false);
    ReadyIff(r);
    ReadyIff(r');
  }

  lemma FindsHead<T>(r: Ring.Ring<T>, id: nat)
    requires Ring.Inv(r) && PopLocal(Ring.LocalOf(r, id)) && Ready(r)
    ensures HeadFound(r, id)
  {
    PopRounds(r, id, false);
    PopsCarry(r, id, false);
    PopRankFalls(r, id);
    StaysReady(r, id);
  }

  // ----- A worker on its own -----

  /** How many steps at most separate a worker that will look from taking a task of its own ring. */
  function Rank<T>(s: Pool<T>, w: nat): nat
    requires Shape(s) && w < |s.workers|
  {
    var n := |s.workers|;
    match s.workers[w]
    case Looking(_) => PopRank(s.rings[w], w) + if Carried(s.rings[w], w).Some? then 8 else 0
    case Admitted => 6
    case Top => 7
    case Running(_) => 8
    case Waiting(_) => 8
    case Sweeping(_, i) => if i < n - 1 then 9 + 5 * (n - 2 - i) + PopRank(s.rings[Target(w, i, n)], w) else 9
    case _ => 0
  }

  lemma RankBound<T>(s: Pool<T>, w: nat)
    requires Shape(s) && w < |s.workers|
    ensures Rank(s, w) <= 5 * |s.workers| + 6
  {
  }

  /** The worker is not blocked and will not block before it has looked into its ring, where a task is ready. */
  ghost predicate WillFetch<T>(s: Pool<T>, w: nat)
    requires Shape(s) && w < |s.workers|
  {
    var x := s.workers[w];
    && s.closing.Open? && Ready(s.rings[w]) && !x.Blocked? && !x.Exited?
    && (Looked(x) ==> x.seen != s.notifiers[w])
    && (x.Looking? ==> PopLocal(Ring.LocalOf(s.rings[w], w)))
  }

  /** One more step brings the worker closer to its ring's head, or wins it. */
  ghost predicate Closer<T>(s: Pool<T>, w: nat)
    requires Shape(s) && w < |s.workers|
  {
    var s' := WorkStep(s, w, false);
    && s'.rings[w].log == s.rings[w].log
    && if s'.rings[w].dequeuePos == s.rings[w].dequeuePos then WillFetch(s', w) && Rank(s', w) < Rank(s, w)
       else
         && s'.rings[w].dequeuePos == s.rings[w].dequeuePos + 1 && Rank(s, w) == 3
         && s'.workers[w].Looking? && Ring.LocalOf(s'.rings[w], w) == Ring.PopTake(s.rings[w].dequeuePos)
  }

  lemma LookingCloser<T>(s: Pool<T>, w: nat)
    requires Shape(s) && w < |s.workers| && WillFetch(s, w) && s.workers[w].Looking?
    requires HeadFound(s.rings[w], w) && PopOutcome(s.rings[w], w, false)
    ensures Closer(s, w)
  {
  }

  lemma SweepingCloser<T>(s: Pool<T>, w: nat, c: nat)
    requires Shape(s) && w < |s.workers| && WillFetch(s, w) && s.workers[w].Sweeping? && PopRing(s, w) == Some(c)
    requires c != w
    requires PopOutcome(s.rings[c], w, false)
    requires PopRound(s.rings[c], w, false).1.Still? ==>
               PopRank(PopRound(s.rings[c], w, false).0, w) < PopRank(s.rings[c], w)
    requires PopRank(s.rings[c], w) > 0
    ensures Closer(s, w)
  {
    var i := s.workers[w].i + 1;
    if i < |s.workers| - 1 {
      TargetsDiffer(w, i, |s.workers|);
    }
  }

  lemma OutsideCloser<T>(s: Pool<T>, w: nat)
    requires Shape(s) && w < |s.workers| && WillFetch(s, w) && PopRing(s, w).None?
    ensures Closer(s, w)
  {
    if s.workers[w].Admitted? {
      assert Ready(Ring.Move(s.rings[w], w, Ring.PopStart));
    }
  }

  lemma StepCloser<T>(s: Pool<T>, w: nat)
    requires Shape(s) && Sound(s.rings) && LocalsFit(s) && w < |s.workers| && WillFetch(s, w)
    ensures Closer(s, w)
  {
    if PopRing(s, w).Some? {
      var c := PopRing(s, w).value;
      assert LocalAgrees(s, c, w);
      PopRounds(s.rings[c], w, false);
      if s.workers[w].Looking? {
        FindsHead(s.rings[w], w);
        LookingCloser(s, w);
      } else {
        TargetsDiffer(w, s.workers[w].i, |s.workers|);
        PopRankFalls(s.rings[c], w);
        SweepingCloser(s, w, c);
      }
    } else {
      OutsideCloser(s, w);
    }
  }

  /** Worker `w` has won the head of its ring; two more steps bring it back with the message. */
  lemma TakenIsRun<T>(s: Pool<T>, w: nat, p: nat)
    requires Shape(s) && w < |s.workers| && s.workers[w].Looking? && Ring.Inv(s.rings[w])
    requires Ring.LocalOf(s.rings[w], w) == Ring.PopTake(p)
    ensures p < |s.rings[w].log|
    ensures s.rings[w].dequeuePos == WorkStep(WorkStep(s, w, false), w, false).rings[w].dequeuePos
    ensures WorkStep(WorkStep(s, w, false), w, false).workers[w] == Running(s.rings[w].log[p])
  {
    assert Ring.LocalFits(s.rings[w], s.rings[w].threads[w]);
  }

  lemma WorkKeepsBoth<T>(s: Pool<T>, w: nat)
    requires Shape(s) && Sound(s.rings) && LocalsFit(s) && w < |s.workers|
    ensures Sound(WorkStep(s, w, false).rings) && LocalsFit(WorkStep(s, w, false))
  {
    WorkSound(s, w, false);
    WorkOutcome(s, w, false);
    WorkLocals(s, w, false);
  }

  /** The worker has taken the ticket that was the head of its ring, and is about to run its task. */
  ghost predicate HeadFetched<T>(s: Pool<T>, s': Pool<T>, w: nat)
    requires Shape(s) && Shape(s') && w < |s.workers| == |s'.workers|
  {
    var p := s.rings[w].dequeuePos;
    p < |s.rings[w].log| && s'.rings[w].dequeuePos == p + 1 && s'.workers[w] == Running(s.rings[w].log[p])
  }

  lemma {:induction false} Fetches<T>(s: Pool<T>, w: nat) returns (k: nat)
    requires Shape(s) && Sound(s.rings) && LocalsFit(s) && w < |s.workers| && WillFetch(s, w)
    ensures k <= Rank(s, w) && HeadFetched(s, Alone(s, w, k), w)
    decreases Rank(s, w)
  {
    var s' := WorkStep(s, w, false);
    StepCloser(s, w);
    WorkKeepsBoth(s, w);
    if s'.rings[w].dequeuePos == s.rings[w].dequeuePos {
      k := Fetches(s', w);
      k := k + 1;
    } else {
      TakenIsRun(s', w, s.rings[w].dequeuePos);
      k := 3;
      var s2 := WorkStep(s', w, false);
      var s3 := WorkStep(s2, w, false);
      assert Alone(s, w, 3) == Alone(s', w, 2) == Alone(s2, w, 1) == Alone(s3, w, 0) == s3;
    }
  }

  /**
   In every reachable state before shutdown, if tickets of ring `w` have been handed out to pushers
   and not to poppers, and no submitter to that ring is between claiming its ticket and finishing its
   notification, then worker `w` takes the head of its ring without being notified: alone, within
   5 n + 6 of its own steps.
   */
  lemma QueuedTaskIsFetched<T>(workers: nat, capacity: nat, acts: seq<Action<T>>, w: nat) returns (k: nat)
    requires w < workers && capacity >= 2
    requires var s := Exec(Init(workers, capacity), acts);
             s.closing.Open? && HasTickets(s, w) && !SomeoneOwes(s, w) && !SomeoneNotifies(s, w)
    ensures k <= 5 * workers + 6
    ensures var s := Exec(Init(workers, capacity), acts); HeadFetched(s, Alone(s, w, k), w)
  {
    var s := Exec(Init(workers, capacity), acts);
    InitInv<T>(workers, capacity);
    LockFreeRuns.RunKeepsInv(Init(workers, capacity), acts);
    assert WorkerFits(s, w) && LocalAgrees(s, w, w);
    if RingFifo.Unpublished(s.rings[w], s.rings[w].dequeuePos) {
      UnpublishedIsOwed(s, w);
    }
    RankBound(s, w);
    k := Fetches(s, w);
  }
}
