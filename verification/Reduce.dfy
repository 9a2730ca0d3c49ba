/**
 Reductions in blocks: what the parallel and the vectorised reduction compute, and when that is
 the plain left-to-right fold.
 */
module Reduce {
  import opened Common

  function Fold<R>(op: (R, R) -> R, acc: R, xs: seq<R>): R {
    if xs == [] then acc else op(Fold(op, acc, xs[..|xs| - 1]), xs[|xs| - 1])
  }

  ghost predicate Associates<R>(op: (R, R) -> R, x: R, y: R, z: R) {
    op(op(x, y), z) == op(x, op(y, z))
  }

  ghost predicate Monoid<R(!new)>(op: (R, R) -> R, id: R) {
    && (forall x, y, z :: Associates(op, x, y, z))
    && (forall x :: op(id, x) == x && op(x, id) == x)
  }

  ghost predicate Swaps<R>(op: (R, R) -> R, x: R, y: R) {
    op(x, y) == op(y, x)
  }

  ghost predicate Commutes<R(!new)>(op: (R, R) -> R) {
    forall x, y :: Swaps(op, x, y)
  }

  lemma {:induction false} FoldConcat<R>(op: (R, R) -> R, acc: R, xs: seq<R>, ys: seq<R>)
    ensures Fold(op, acc, xs + ys) == Fold(op, Fold(op, acc, xs), ys)
  {
    if ys == [] {
      assert xs + ys == xs;
    } else {
      FoldConcat(op, acc, xs, ys[..|ys| - 1]);
      assert (xs + ys)[..|xs + ys| - 1] == xs + ys[..|ys| - 1];
    }
  }

  lemma FoldSnoc<R>(op: (R, R) -> R, acc: R, xs: seq<R>, x: R)
    ensures Fold(op, acc, xs + [x]) == op(Fold(op, acc, xs), x)
  {
    assert (xs + [x])[..|xs|] == xs;
  }

  lemma {:induction false} FoldFromAcc<R(!new)>(op: (R, R) -> R, id: R, acc: R, xs: seq<R>)
    requires Monoid(op, id)
    ensures Fold(op, acc, xs) == op(acc, Fold(op, id, xs))
  {
    if xs != [] {
      FoldFromAcc(op, id, acc, xs[..|xs| - 1]);
      assert Associates(op, acc, Fold(op, id, xs[..|xs| - 1]), xs[|xs| - 1]);
    }
  }

  // ----- Blocks -----

  /** Where block `k` begins: `k * size`, which may lie past the end. */
  function Begin(size: nat, k: nat): nat {
    if k == 0 then 0 else Begin(size, k - 1) + size
  }

  lemma {:induction false} BeginIsProduct(size: nat, k: nat)
    ensures Begin(size, k) == k * size
  {
    if k > 0 {
      BeginIsProduct(size, k - 1);
      assert k * size == (k - 1) * size + size;
    }
  }

  /** Block `k`, which is empty when its begin lies past the end of `xs`. */
  function Block<R>(xs: seq<R>, size: nat, k: nat): seq<R> {
    xs[Min(|xs|, Begin(size, k))..Min(|xs|, Begin(size, k) + size)]
  }

  /** The results of the first `k` blocks, each reduced by `f`. */
  function Partials<R>(xs: seq<R>, size: nat, k: nat, f: seq<R> -> R): (p: seq<R>)
    ensures |p| == k
  {
    if k == 0 then [] else Partials(xs, size, k - 1, f) + [f(Block(xs, size, k - 1))]
  }

  lemma {:induction false} PartialAt<R>(xs: seq<R>, size: nat, k: nat, f: seq<R> -> R, j: nat)
    requires j < k
    ensures Partials(xs, size, k, f)[j] == f(Block(xs, size, j))
  {
    if j < k - 1 {
      PartialAt(xs, size, k - 1, f, j);
    }
  }

  /** Reducing by `f` is folding. */
  ghost predicate FoldsAt<R>(f: seq<R> -> R, op: (R, R) -> R, id: R, xs: seq<R>) {
    f(xs) == Fold(op, id, xs)
  }

  /** Folding the folds of the blocks is folding everything, for any associative operation. */
  lemma {:induction false} BlocksFold<R(!new)>(op: (R, R) -> R, id: R, xs: seq<R>, size: nat, k: nat, f: seq<R> -> R)
    requires Monoid(op, id) && forall ys :: FoldsAt(f, op, id, ys)
    ensures Fold(op, id, Partials(xs, size, k, f)) == Fold(op, id, xs[..Min(|xs|, Begin(size, k))])
  {
    if k > 0 {
      BlocksFold(op, id, xs, size, k - 1, f);
      var p := Partials(xs, size, k - 1, f);
      var before := xs[..Min(|xs|, Begin(size, k - 1))];
      var rest := Block(xs, size, k - 1);
      assert xs[..Min(|xs|, Begin(size, k))] == before + rest;
      assert FoldsAt(f, op, id, rest);
      FoldSnoc(op, id, p, f(rest));
      FoldConcat(op, id, before, rest);
      FoldFromAcc(op, id, Fold(op, id, p), rest);
    }
  }

  // ----- The scalar reduction -----

  function Elements<T, R>(a: seq<T>, b: seq<T>, elemOp: (T, T) -> R): (xs: seq<R>)
    requires |a| == |b|
    ensures |xs| == |a| && forall i :: 0 <= i < |a| ==> xs[i] == elemOp(a[i], b[i])
  {
    if a == [] then [] else Elements(a[..|a| - 1], b[..|b| - 1], elemOp) + [elemOp(a[|a| - 1], b[|b| - 1])]
  }

  /** The size of each of `count` blocks of `n` elements; the last ones may be shorter. */
  function EvenShare(n: nat, count: nat): nat
    requires count > 0
  {
    (n + count - 1) / count
  }

  /** It is the least size with which the blocks cover everything. */
  lemma ShareIsLeast(n: nat, count: nat)
    requires count > 0
    ensures n <= count * EvenShare(n, count) && (n > 0 ==> count * (EvenShare(n, count) - 1) < n)
  {
    var size := EvenShare(n, count);
    assert size * count <= n + count - 1 < size * count + count;
    assert count * (size - 1) == size * count - count;
  }

  /** The order in which the blocks happen to be executed: each of them once. */
  predicate Schedule(order: seq<nat>, count: nat) {
    && |order| == count
    && (forall k :: 0 <= k < |order| ==> order[k] < count)
    && (forall k :: 0 <= k < count ==> k in order)
  }

  lemma FoldNext<R>(op: (R, R) -> R, acc: R, xs: seq<R>, from: nat, i: nat)
    requires from <= i < |xs|
    ensures Fold(op, acc, xs[from..i + 1]) == op(Fold(op, acc, xs[from..i]), xs[i])
  {
    assert xs[from..i + 1] == xs[from..i] + [xs[i]];
    FoldSnoc(op, acc, xs[from..i], xs[i]);
  }

  /** The body of the parallel loop: one block, from its begin to its end or the end of the data. */
  method ReduceBlock<T, R(!new)>(a: array<T>, b: array<T>, k: nat, size: nat, elemOp: (T, T) -> R,
                                 reduceOp: (R, R) -> R, identity: R)
    returns (sum: R)
    requires a.Length == b.Length
    ensures sum == Fold(reduceOp, identity, Block(Elements(a[..], b[..], elemOp), size, k))
  {
    var n := a.Length;
    ghost var xs := Elements(a[..], b[..], elemOp);
    BeginIsProduct(size, k);
    var begin := k * size;
    var end := Min(n, begin + size);
    sum := identity;
    var i := begin;
    while i < end
      invariant begin <= i <= Max(begin, end)
      invariant sum == Fold(reduceOp, identity, xs[Min(n, begin)..Min(n, i)])
    {
      FoldNext(reduceOp, identity, xs, begin, i);
      assert elemOp(a[i], b[i]) == xs[i];
      sum := reduceOp(sum, elemOp(a[i], b[i]));
      i := i + 1;
    }
    assert Min(n, i) == Min(n, begin + size);
  }

  /** The final loop over the partial results. */
  method Combine<R(!new)>(partial: array<R>, reduceOp: (R, R) -> R, identity: R) returns (total: R)
    ensures total == Fold(reduceOp, identity, partial[..])
  {
    total := identity;
    for k := 0 to partial.Length
      invariant total == Fold(reduceOp, identity, partial[..k])
    {
      assert partial[..k + 1][..k] == partial[..k];
      total := reduceOp(total, partial[k]);
    }
    assert partial[..partial.Length] == partial[..];
  }

  /** An array filled block by block in any order holds all the partial results. */
  lemma AllPartials<R>(partial: seq<R>, order: seq<nat>, xs: seq<R>, size: nat, f: seq<R> -> R)
    requires Schedule(order, |partial|)
    requires forall u :: 0 <= u < |order| ==> partial[order[u]] == f(Block(xs, size, order[u]))
    ensures partial == Partials(xs, size, |partial|, f)
  {
    forall k | 0 <= k < |partial| ensures partial[k] == Partials(xs, size, |partial|, f)[k] {
      assert k in order;
      PartialAt(xs, size, |partial|, f, k);
    }
  }

  /** The fold of the folds of `count` blocks of `xs`. */
  function Blockwise<R>(xs: seq<R>, size: nat, count: nat, op: (R, R) -> R, id: R): R {
    Fold(op, id, Partials(xs, size, count, (ys: seq<R>) => Fold(op, id, ys)))
  }

  /** The parallel loop over the blocks. */
  method FillPartials<T, R(!new)>(a: array<T>, b: array<T>, count: nat, size: nat, elemOp: (T, T) -> R,
                                  reduceOp: (R, R) -> R, identity: R, order: seq<nat>)
    returns (partial: array<R>)
    requires a.Length == b.Length && Schedule(order, count)
    ensures Fold(reduceOp, identity, partial[..]) ==
            Blockwise(Elements(a[..], b[..], elemOp), size, count, reduceOp, identity)
  {
    ghost var xs := Elements(a[..], b[..], elemOp);
    ghost var f := (ys: seq<R>) => Fold(reduceOp, identity, ys);
    partial := new R[count](_ => identity);
    for t := 0 to count
      invariant xs == Elements(a[..], b[..], elemOp)
      invariant forall u :: 0 <= u < t ==> partial[order[u]] == f(Block(xs, size, order[u]))
    {
      var k := order[t];
      var sum := ReduceBlock(a, b, k, size, elemOp, reduceOp, identity);
      partial[k] := sum;
    }
    assert forall u :: 0 <= u < |order| ==> partial[..][order[u]] == partial[order[u]];
    AllPartials(partial[..], order, xs, size, f);
  }

  lemma BlockwiseIsFold<R(!new)>(xs: seq<R>, count: nat, op: (R, R) -> R, id: R)
    requires count > 0 && Monoid(op, id)
    ensures Blockwise(xs, EvenShare(|xs|, count), count, op, id) == Fold(op, id, xs)
  {
    var size := EvenShare(|xs|, count);
    var f := (ys: seq<R>) => Fold(op, id, ys);
    Covered(xs, |xs|, size, count);
    assert forall ys :: FoldsAt(f, op, id, ys);
    BlocksFold(op, id, xs, size, count, f);
  }

  /**
   The scalar reduction folds the folds of the blocks, whatever their order; that is the left-to-right
   fold for every associative operation with a two-sided identity and any number of threads.
   */
  method ElementwiseReduce<T, R(!new)>(a: array<T>, b: array<T>, threads: nat, elemOp: (T, T) -> R,
                                       reduceOp: (R, R) -> R, identity: R, order: seq<nat>)
    returns (total: R)
    requires a.Length == b.Length && Schedule(order, Max(1, threads))
    ensures a.Length > 0 ==>
              total == Blockwise(Elements(a[..], b[..], elemOp), EvenShare(a.Length, Max(1, threads)), Max(1, threads),
                                 reduceOp, identity)
    ensures a.Length == 0 ==> total == identity
    ensures Monoid(reduceOp, identity) ==> total == Fold(reduceOp, identity, Elements(a[..], b[..], elemOp))
  {
    var n := a.Length;
    if n == 0 {
      return identity;
    }
    var count := Max(1, threads);
    var size := (n + count - 1) / count;
    var partial := FillPartials(a, b, count, size, elemOp, reduceOp, identity, order);
    total := Combine(partial, reduceOp, identity);
    if Monoid(reduceOp, identity) {
      BlockwiseIsFold(Elements(a[..], b[..], elemOp), count, reduceOp, identity);
    }
  }

  lemma Covered<R>(xs: seq<R>, n: nat, size: nat, count: nat)
    requires |xs| == n && count > 0 && size >= EvenShare(n, count)
    ensures xs[..Min(n, Begin(size, count))] == xs
  {
    ShareIsLeast(n, count);
    BeginIsProduct(size, count);
    Grows(size, EvenShare(n, count), count);
  }
}
