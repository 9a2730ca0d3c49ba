/** The vectorised reduction, with its loops over vectors, lanes, tails, blocks and partial results. */
module SimdReduce {
  import opened Common
  import opened Reduce
  import opened SimdFold

  /** The register operation does in every lane what the scalar operation does. */
  ghost predicate LaneWise<T(!new), R>(vectorOp: (seq<T>, seq<T>) -> seq<R>, elemOp: (T, T) -> R, width: nat) {
    forall x, y :: |x| == |y| == width ==> vectorOp(x, y) == Elements(x, y, elemOp)
  }

  /** What is left of the data from `i` on. */
  function Rest<R>(xs: seq<R>, i: nat, end: nat): seq<R>
    requires end <= |xs|
  {
    if i <= end then xs[i..end] else []
  }

  lemma NextVector<T(!new), R>(a: seq<T>, b: seq<T>, i: nat, end: nat, sum: seq<R>,
                               vectorOp: (seq<T>, seq<T>) -> seq<R>, elemOp: (T, T) -> R, plus: (R, R) -> R)
    requires |a| == |b| && |sum| > 0 && i + |sum| <= end <= |a| && LaneWise(vectorOp, elemOp, |sum|)
    ensures var xs, v := Elements(a, b, elemOp), vectorOp(a[i..i + |sum|], b[i..i + |sum|]);
            |v| == |sum| &&
            Vectors(sum, Rest(xs, i, end), plus) == Vectors(AddLanes(sum, v, plus), Rest(xs, i + |sum|, end), plus)
  {
    var xs := Elements(a, b, elemOp);
    var w := |sum|;
    assert vectorOp(a[i..i + w], b[i..i + w]) == xs[i..i + w];
    assert xs[i..end][..w] == xs[i..i + w] && xs[i..end][w..] == xs[i + w..end];
  }

  /** The loop over whole vectors; every load is within the block, hence within the data. */
  method AddVectors<T(!new), R>(a: array<T>, b: array<T>, begin: nat, end: nat, width: nat,
                                vectorOp: (seq<T>, seq<T>) -> seq<R>, ghost elemOp: (T, T) -> R, o: Ops<R>)
    returns (sum: seq<R>, i: nat)
    requires end <= a.Length == b.Length && width > 0 && LaneWise(vectorOp, elemOp, width)
    ensures begin <= i
    ensures var xs := Elements(a[..], b[..], elemOp);
            Vectors(Copies(width, o.zero), Rest(xs, begin, end), o.plus) == (sum, Rest(xs, i, end))
  {
    ghost var xs := Elements(a[..], b[..], elemOp);
    sum := Copies(width, o.zero);
    i := begin;
    while i + width <= end
      invariant begin <= i && |sum| == width
      invariant Vectors(sum, Rest(xs, i, end), o.plus) == Vectors(Copies(width, o.zero), Rest(xs, begin, end), o.plus)
      decreases end - i
    {
      var va := a[i..i + width];
      var vb := b[i..i + width];
      assert va == a[..][i..i + width] && vb == b[..][i..i + width];
      NextVector(a[..], b[..], i, end, sum, vectorOp, elemOp, o.plus);
      sum := AddLanes(sum, vectorOp(va, vb), o.plus);
      i := i + width;
    }
  }

  method FoldLanes<R>(lanes: seq<R>, reduceOp: (R, R) -> R, identity: R) returns (blockSum: R)
    ensures blockSum == Fold(reduceOp, identity, lanes)
  {
    blockSum := identity;
    for k := 0 to |lanes|
      invariant blockSum == Fold(reduceOp, identity, lanes[..k])
    {
      assert lanes[..k + 1][..k] == lanes[..k];
      blockSum := reduceOp(blockSum, lanes[k]);
    }
    assert lanes[..|lanes|] == lanes;
  }

  method FoldTail<T, R>(a: array<T>, b: array<T>, from: nat, end: nat, elemOp: (T, T) -> R, reduceOp: (R, R) -> R,
                        acc: R)
    returns (blockSum: R)
    requires end <= a.Length == b.Length
    ensures blockSum == Fold(reduceOp, acc, Rest(Elements(a[..], b[..], elemOp), from, end))
  {
    ghost var tail := Rest(Elements(a[..], b[..], elemOp), from, end);
    blockSum := acc;
    var i := from;
    while i < end
      invariant from <= i <= Max(from, end)
      invariant blockSum == Fold(reduceOp, acc, tail[..i - from])
    {
      blockSum := reduceOp(blockSum, elemOp(a[i], b[i]));
      assert tail[..i + 1 - from][..i - from] == tail[..i - from];
      i := i + 1;
    }
    assert tail[..i - from] == tail;
  }

  /**
   The body of the parallel loop: whole vectors first, then the lanes and the tail one by one.
   `vectorOp` is the caller's operation on registers.
   */
  method ReduceBlockSimd<T(!new), R>(a: array<T>, b: array<T>, k: nat, size: nat, width: nat,
                                     vectorOp: (seq<T>, seq<T>) -> seq<R>, elemOp: (T, T) -> R, o: Ops<R>)
    returns (blockSum: R)
    requires a.Length == b.Length && width > 0 && LaneWise(vectorOp, elemOp, width)
    ensures blockSum == BlockSum(Block(Elements(a[..], b[..], elemOp), size, k), width, o)
  {
    BeginIsProduct(size, k);
    var begin := k * size;
    var end := Min(a.Length, begin + size);
    assert Block(Elements(a[..], b[..], elemOp), size, k) == Rest(Elements(a[..], b[..], elemOp), begin, end);
    var sum, i := AddVectors(a, b, begin, end, width, vectorOp, elemOp, o);
    blockSum := FoldLanes(sum, o.reduceOp, o.identity);
    blockSum := FoldTail(a, b, i, end, elemOp, o.reduceOp, blockSum);
  }

  /**
   The vectorised reduction, with the blocks executed in any order. It is the plain fold of the
   elements when the operation is a commutative monoid that suits the lanes.
   */
  method ElementwiseReduceSimd<T(!new), R(!new)>(a: array<T>, b: array<T>, threads: nat, width: nat,
                                                 vectorOp: (seq<T>, seq<T>) -> seq<R>, elemOp: (T, T) -> R, o: Ops<R>,
                                                 order: seq<nat>)
    returns (total: R)
    requires a.Length == b.Length && width > 0 && LaneWise(vectorOp, elemOp, width)
    requires Schedule(order, BlockCount(a.Length, threads, width))
    ensures total == Computed(Elements(a[..], b[..], elemOp), threads, width, o)
    ensures CommutativeMonoid(o) && SuitsLanes(width, o) ==>
              total == Fold(o.reduceOp, o.identity, Elements(a[..], b[..], elemOp))
  {
    var n := a.Length;
    ghost var xs := Elements(a[..], b[..], elemOp);
    if n == 0 {
      return o.identity;
    }
    var count := Min(Max(1, threads), Max(1, n / width));
    var size := Max(width, (n + count - 1) / count);
    assert count == BlockCount(n, threads, width) && size == BlockSize(n, threads, width);
    var partial := FillPartials(a, b, count, size, width, vectorOp, elemOp, o, order);
    total := Combine(partial, o.reduceOp, o.identity);
    if CommutativeMonoid(o) && SuitsLanes(width, o) {
      ComputedIsFold(xs, threads, width, o);
    }
  }

  lemma BlocksDone<R>(partial: seq<R>, order: seq<nat>, xs: seq<R>, size: nat, width: nat, o: Ops<R>)
    requires width > 0 && Schedule(order, |partial|)
    requires forall u :: 0 <= u < |order| ==> partial[order[u]] == BlockSum(Block(xs, size, order[u]), width, o)
    ensures Fold(o.reduceOp, o.identity, partial) == Blocked(xs, size, |partial|, width, o)
  {
    AllPartials(partial, order, xs, size, (ys: seq<R>) => BlockSum(ys, width, o));
  }

  /** The parallel loop over the blocks. */
  method FillPartials<T(!new), R(!new)>(a: array<T>, b: array<T>, count: nat, size: nat, width: nat,
                                        vectorOp: (seq<T>, seq<T>) -> seq<R>, elemOp: (T, T) -> R, o: Ops<R>,
                                        order: seq<nat>)
    returns (partial: array<R>)
    requires a.Length == b.Length && width > 0 && LaneWise(vectorOp, elemOp, width) && Schedule(order, count)
    ensures Fold(o.reduceOp, o.identity, partial[..]) == Blocked(Elements(a[..], b[..], elemOp), size, count, width, o)
  {
    ghost var xs := Elements(a[..], b[..], elemOp);
    partial := new R[count](_ => o.identity);
    for t := 0 to count
      invariant xs == Elements(a[..], b[..], elemOp)
      invariant forall u :: 0 <= u < t ==> partial[order[u]] == BlockSum(Block(xs, size, order[u]), width, o)
    {
      var k := order[t];
      var sum := ReduceBlockSimd(a, b, k, size, width, vectorOp, elemOp, o);
      partial[k] := sum;
    }
    assert forall u :: 0 <= u < |order| ==> partial[..][order[u]] == partial[order[u]];
    BlocksDone(partial[..], order, xs, size, width, o);
  }

  // ----- The dot product -----

  function Dot(a: seq<int>, b: seq<int>): int
    requires |a| == |b|
  {
    if a == [] then 0 else Dot(a[..|a| - 1], b[..|b| - 1]) + a[|a| - 1] * b[|b| - 1]
  }

  lemma {:induction false} DotIsFold(a: seq<int>, b: seq<int>, plus: (int, int) -> int, times: (int, int) -> int)
    requires |a| == |b| && (forall x, y :: plus(x, y) == x + y) && (forall x, y :: times(x, y) == x * y)
    ensures Fold(plus, 0, Elements(a, b, times)) == Dot(a, b)
  {
    if a != [] {
      DotIsFold(a[..|a| - 1], b[..|b| - 1], plus, times);
    }
  }

  /** The sum suits lanes that are summed. */
  lemma SumSuits(width: nat, plus: (int, int) -> int)
    requires width > 0 && forall x, y :: plus(x, y) == x + y
    ensures CommutativeMonoid(Ops(plus, 0, plus, 0)) && SuitsLanes(width, Ops(plus, 0, plus, 0))
  {
    forall x, y, z ensures Associates(plus, x, y, z) {
    }
    forall x, y ensures Swaps(plus, x, y) {
    }
    assert forall x :: plus(0, x) == x && plus(x, 0) == x;
    SameSuits(width, Ops(plus, 0, plus, 0));
  }

  /** `dot_simd`: the same loops with the product as the element operation and the sum as the reduction. */
  method DotSimd(a: array<int>, b: array<int>, threads: nat, width: nat, order: seq<nat>) returns (total: int)
    requires a.Length == b.Length && width > 0 && Schedule(order, BlockCount(a.Length, threads, width))
    ensures total == Dot(a[..], b[..])
  {
    var plus := (x: int, y: int) => x + y;
    var times := (x: int, y: int) => x * y;
    var vectorTimes := (x: seq<int>, y: seq<int>) => if |x| == |y| then AddLanes(x, y, times) else [];
    forall x: seq<int>, y: seq<int> | |x| == |y| == width ensures vectorTimes(x, y) == Elements(x, y, times) {
    }
    SumSuits(width, plus);
    total := ElementwiseReduceSimd(a, b, threads, width, vectorTimes, times, Ops(plus, 0, plus, 0), order);
    DotIsFold(a[..], b[..], plus, times);
  }
}
