/**
 What the vectorised reduction computes, and exactly when that is the plain fold. A vector register
 is a sequence of `width` lanes.
 */
module SimdFold {
  import opened Common
  import opened Reduce

  /** `plus` and `zero` are the lanes' `+=` and cleared state, `reduceOp` and `identity` what the caller passes. */
  datatype Ops<!R> = Ops(plus: (R, R) -> R, zero: R, reduceOp: (R, R) -> R, identity: R)

  /** The operation of a vector register on another, lane by lane. */
  function AddLanes<R>(x: seq<R>, y: seq<R>, plus: (R, R) -> R): (z: seq<R>)
    requires |x| == |y|
    ensures |z| == |x| && forall i :: 0 <= i < |x| ==> z[i] == plus(x[i], y[i])
  {
    seq(|x|, i requires 0 <= i < |x| == |y| => plus(x[i], y[i]))
  }

  /** The register after all whole vectors of `xs` have been added to `sum`, and the tail. */
  function Vectors<R>(sum: seq<R>, xs: seq<R>, plus: (R, R) -> R): (r: (seq<R>, seq<R>))
    requires |sum| > 0
    ensures |r.0| == |sum|
    decreases |xs|
  {
    if |xs| < |sum| then (sum, xs) else Vectors(AddLanes(sum, xs[..|sum|], plus), xs[|sum|..], plus)
  }

  function Copies<R>(width: nat, x: R): (z: seq<R>)
    ensures |z| == width && forall i :: 0 <= i < width ==> z[i] == x
  {
    seq(width, _ => x)
  }

  /** What the code computes for one block: lanes first, then the tail. */
  function BlockSum<R>(xs: seq<R>, width: nat, o: Ops<R>): R
    requires width > 0
  {
    var (lanes, tail) := Vectors(Copies(width, o.zero), xs, o.plus);
    Fold(o.reduceOp, Fold(o.reduceOp, o.identity, lanes), tail)
  }

  function BlockCount(n: nat, threads: nat, width: nat): nat
    requires width > 0
  {
    Min(Max(1, threads), Max(1, n / width))
  }

  function BlockSize(n: nat, threads: nat, width: nat): (size: nat)
    requires width > 0
    ensures size >= width
  {
    var count := BlockCount(n, threads, width);
    Max(width, EvenShare(n, count))
  }

  /** As many blocks as there are threads, or else as many as could each fill a register. */
  lemma BlocksAreEnough(n: nat, threads: nat, width: nat)
    requires n > 0 && width > 0
    ensures var count := BlockCount(n, threads, width);
            1 <= count <= Max(1, threads) && (count > 1 ==> count * width <= n) &&
            (count < threads ==> n < (count + 1) * width)
  {
    var count, whole := BlockCount(n, threads, width), n / width;
    assert whole * width <= n < whole * width + width;
    if count > 1 {
      Grows(whole, count, width);
    }
    if count < threads {
      Grows(count + 1, whole + 1, width);
    }
  }

  /** The blocks are the smallest ones of at least a register that cover everything. */
  lemma BlocksAreEven(n: nat, threads: nat, width: nat)
    requires n > 0 && width > 0
    ensures var count, size := BlockCount(n, threads, width), BlockSize(n, threads, width);
            n <= count * size && width <= size && (size > width ==> count * (size - 1) < n)
  {
    var count, size := BlockCount(n, threads, width), BlockSize(n, threads, width);
    ShareIsLeast(n, count);
    Grows(size, EvenShare(n, count), count);
  }

  /** The fold of the results of `count` blocks. */
  function Blocked<R>(xs: seq<R>, size: nat, count: nat, width: nat, o: Ops<R>): R
    requires width > 0
  {
    Fold(o.reduceOp, o.identity, Partials(xs, size, count, (ys: seq<R>) => BlockSum(ys, width, o)))
  }

  /** What the code computes for all of `xs`. */
  function Computed<R>(xs: seq<R>, threads: nat, width: nat, o: Ops<R>): R
    requires width > 0
  {
    if xs == [] then o.identity
    else Blocked(xs, BlockSize(|xs|, threads, width), BlockCount(|xs|, threads, width), width, o)
  }

  ghost predicate ComputesFold<R>(xs: seq<R>, threads: nat, width: nat, o: Ops<R>)
    requires width > 0
  {
    Computed(xs, threads, width, o) == Fold(o.reduceOp, o.identity, xs)
  }

  /** With registers of `width` lanes, for every input and number of threads. */
  ghost predicate AlwaysComputesFold<R(!new)>(width: nat, o: Ops<R>)
    requires width > 0
  {
    forall xs: seq<R>, threads: nat :: ComputesFold(xs, threads, width, o)
  }

  // ----- Powers in a commutative monoid -----

  ghost predicate CommutativeMonoid<R(!new)>(o: Ops<R>) {
    Monoid(o.reduceOp, o.identity) && Commutes(o.reduceOp)
  }

  function Power<R>(op: (R, R) -> R, id: R, x: R, k: nat): R {
    if k == 0 then id else op(Power(op, id, x, k - 1), x)
  }

  lemma {:induction false} FoldCopies<R>(op: (R, R) -> R, id: R, x: R, k: nat)
    ensures Fold(op, id, Copies(k, x)) == Power(op, id, x, k)
  {
    if k > 0 {
      FoldCopies(op, id, x, k - 1);
      assert Copies(k, x) == Copies(k - 1, x) + [x];
      FoldSnoc(op, id, Copies(k - 1, x), x);
    }
  }

  lemma Interchange<R(!new)>(op: (R, R) -> R, id: R, a: R, b: R, c: R, d: R)
    requires Monoid(op, id) && Commutes(op)
    ensures op(op(a, b), op(c, d)) == op(op(a, c), op(b, d))
  {
    assert Associates(op, a, b, op(c, d)) && Associates(op, b, c, d) && Swaps(op, b, c);
    assert Associates(op, c, b, d) && Associates(op, a, c, op(b, d));
  }

  lemma {:induction false} PowerOfProduct<R(!new)>(op: (R, R) -> R, id: R, x: R, y: R, k: nat)
    requires Monoid(op, id) && Commutes(op)
    ensures Power(op, id, op(x, y), k) == op(Power(op, id, x, k), Power(op, id, y, k))
  {
    if k > 0 {
      PowerOfProduct(op, id, x, y, k - 1);
      Interchange(op, id, Power(op, id, x, k - 1), Power(op, id, y, k - 1), x, y);
    }
  }

  lemma {:induction false} PowerOfIdentity<R(!new)>(op: (R, R) -> R, id: R, k: nat)
    requires Monoid(op, id)
    ensures Power(op, id, id, k) == id
  {
    if k > 0 {
      PowerOfIdentity(op, id, k - 1);
    }
  }

  lemma {:induction false} PowerTwice<R(!new)>(op: (R, R) -> R, id: R, x: R, j: nat, k: nat)
    requires Monoid(op, id) && Commutes(op)
    ensures Power(op, id, Power(op, id, x, j), k) == Power(op, id, Power(op, id, x, k), j)
  {
    if j == 0 {
      PowerOfIdentity(op, id, k);
    } else {
      PowerTwice(op, id, x, j - 1, k);
      PowerOfProduct(op, id, Power(op, id, x, j - 1), x, k);
    }
  }

  /** Dividing both sides by an invertible element. */
  lemma Divide<R(!new)>(op: (R, R) -> R, id: R, u: R, c: R, v: R, d: R)
    requires Monoid(op, id) && op(u, c) == v && op(c, d) == id
    ensures u == op(v, d)
  {
    assert Associates(op, u, c, d);
  }

  // ----- The condition is enough -----

  ghost predicate ShiftsAt<R>(o: Ops<R>, x: R, y: R) {
    o.plus(x, y) == o.reduceOp(o.plus(o.identity, o.identity), o.reduceOp(x, y))
  }

  /**
   The lanes' addition is the caller's operation up to a constant that cancels over the lanes of a
   register, and so does the lanes' zero.
   */
  ghost predicate SuitsLanes<R(!new)>(width: nat, o: Ops<R>) {
    && Fold(o.reduceOp, o.identity, Copies(width, o.plus(o.identity, o.identity))) == o.identity
    && Fold(o.reduceOp, o.identity, Copies(width, o.zero)) == o.identity
    && (forall x, y :: ShiftsAt(o, x, y))
  }

  lemma {:induction false} FoldAddLanes<R(!new)>(o: Ops<R>, x: seq<R>, y: seq<R>)
    requires CommutativeMonoid(o) && |x| == |y| && forall a, b :: ShiftsAt(o, a, b)
    ensures var op, id := o.reduceOp, o.identity;
            Fold(op, id, AddLanes(x, y, o.plus)) ==
            op(op(Fold(op, id, x), Fold(op, id, y)), Power(op, id, o.plus(id, id), |x|))
  {
    if x != [] {
      var op, id, p, k := o.reduceOp, o.identity, o.plus(o.identity, o.identity), |x| - 1;
      FoldAddLanes(o, x[..k], y[..k]);
      assert AddLanes(x, y, o.plus)[..k] == AddLanes(x[..k], y[..k], o.plus);
      assert ShiftsAt(o, x[k], y[k]) && Swaps(op, p, op(x[k], y[k]));
      Interchange(op, id, op(Fold(op, id, x[..k]), Fold(op, id, y[..k])), Power(op, id, p, k), op(x[k], y[k]), p);
      Interchange(op, id, Fold(op, id, x[..k]), Fold(op, id, y[..k]), x[k], y[k]);
    }
  }

  lemma {:induction false} VectorsFold<R(!new)>(o: Ops<R>, sum: seq<R>, xs: seq<R>)
    requires CommutativeMonoid(o) && |sum| > 0 && SuitsLanes(|sum|, o)
    ensures var op, id, (lanes, tail) := o.reduceOp, o.identity, Vectors(sum, xs, o.plus);
            Fold(op, Fold(op, id, lanes), tail) == op(Fold(op, id, sum), Fold(op, id, xs))
    decreases |xs|
  {
    var op, id := o.reduceOp, o.identity;
    if |xs| < |sum| {
      FoldFromAcc(op, id, Fold(op, id, sum), xs);
    } else {
      var head, rest := xs[..|sum|], xs[|sum|..];
      VectorsFold(o, AddLanes(sum, head, o.plus), rest);
      FoldAddLanes(o, sum, head);
      FoldCopies(op, id, o.plus(id, id), |sum|);
      assert Associates(op, Fold(op, id, sum), Fold(op, id, head), Fold(op, id, rest));
      assert head + rest == xs;
      FoldConcat(op, id, head, rest);
      FoldFromAcc(op, id, Fold(op, id, head), rest);
    }
  }

  lemma BlockSumIsFold<R(!new)>(o: Ops<R>, width: nat, xs: seq<R>)
    requires CommutativeMonoid(o) && width > 0 && SuitsLanes(width, o)
    ensures BlockSum(xs, width, o) == Fold(o.reduceOp, o.identity, xs)
  {
    VectorsFold(o, Copies(width, o.zero), xs);
  }

  lemma BlockedIsFold<R(!new)>(xs: seq<R>, size: nat, count: nat, width: nat, o: Ops<R>)
    requires CommutativeMonoid(o) && width > 0 && SuitsLanes(width, o)
    requires xs[..Min(|xs|, Begin(size, count))] == xs
    ensures Blocked(xs, size, count, width, o) == Fold(o.reduceOp, o.identity, xs)
  {
    var f := (ys: seq<R>) => BlockSum(ys, width, o);
    forall ys ensures FoldsAt(f, o.reduceOp, o.identity, ys) {
      BlockSumIsFold(o, width, ys);
    }
    BlocksFold(o.reduceOp, o.identity, xs, size, count, f);
  }

  lemma ComputedIsFold<R(!new)>(xs: seq<R>, threads: nat, width: nat, o: Ops<R>)
    requires CommutativeMonoid(o) && width > 0 && SuitsLanes(width, o)
    ensures ComputesFold(xs, threads, width, o)
  {
    var size, count := BlockSize(|xs|, threads, width), BlockCount(|xs|, threads, width);
    Covered(xs, |xs|, size, count);
    BlockedIsFold(xs, size, count, width, o);
  }

  // ----- The condition is necessary -----

  lemma OneBlock(n: nat, width: nat)
    requires n > 0 && width > 0
    ensures BlockCount(n, 1, width) == 1 && BlockSize(n, 1, width) >= n
  {
  }

  /** One thread: everything is one block. */
  lemma OneThread<R>(xs: seq<R>, width: nat, o: Ops<R>)
    requires xs != [] && width > 0
    ensures Computed(xs, 1, width, o) == o.reduceOp(o.identity, BlockSum(xs, width, o))
  {
    OneBlock(|xs|, width);
    var size := BlockSize(|xs|, 1, width);
    var f := (ys: seq<R>) => BlockSum(ys, width, o);
    assert Begin(size, 0) == 0 && Block(xs, size, 0) == xs;
    assert Partials(xs, size, 0, f) == [] && Partials(xs, size, 1, f) == [] + [f(xs)];
    FoldSnoc(o.reduceOp, o.identity, [], f(xs));
  }

  /** A register with `x` in its first lane and `y` in the others. */
  function First<R>(x: R, y: R, width: nat): (z: seq<R>)
    requires width > 0
    ensures |z| == width
  {
    [x] + Copies(width - 1, y)
  }

  lemma FoldFirst<R(!new)>(op: (R, R) -> R, id: R, x: R, y: R, width: nat)
    requires Monoid(op, id) && width > 0
    ensures Fold(op, id, First(x, y, width)) == op(x, Power(op, id, y, width - 1))
  {
    FoldConcat(op, id, [x], Copies(width - 1, y));
    FoldSnoc(op, id, [], x);
    assert [] + [x] == [x];
    FoldFromAcc(op, id, x, Copies(width - 1, y));
    FoldCopies(op, id, y, width - 1);
  }

  lemma AddFirst<R>(x: R, y: R, x': R, y': R, width: nat, plus: (R, R) -> R)
    requires width > 0
    ensures AddLanes(First(x, y, width), First(x', y', width), plus) == First(plus(x, x'), plus(y, y'), width)
  {
  }

  lemma OneRound<R>(sum: seq<R>, head: seq<R>, rest: seq<R>, plus: (R, R) -> R)
    requires |sum| == |head| > 0
    ensures Vectors(sum, head + rest, plus) == Vectors(AddLanes(sum, head, plus), rest, plus)
  {
    assert (head + rest)[..|sum|] == head && (head + rest)[|sum|..] == rest;
  }

  lemma NoTail<R>(lanes: seq<R>, width: nat, xs: seq<R>, o: Ops<R>)
    requires width > 0 && Vectors(Copies(width, o.zero), xs, o.plus) == (lanes, [])
    ensures BlockSum(xs, width, o) == Fold(o.reduceOp, o.identity, lanes)
  {
  }

  /** The registers with `x` and `y` in their first lanes, one after the other, after `zero`. */
  lemma FirstVectors<R>(x: R, y: R, width: nat, o: Ops<R>)
    requires width > 0
    ensures BlockSum(First(x, o.identity, width), width, o) ==
            Fold(o.reduceOp, o.identity, First(o.plus(o.zero, x), o.plus(o.zero, o.identity), width))
    ensures BlockSum(First(x, o.identity, width) + First(y, o.identity, width), width, o) ==
            Fold(o.reduceOp, o.identity,
                 First(o.plus(o.plus(o.zero, x), y), o.plus(o.plus(o.zero, o.identity), o.identity), width))
  {
    var zeros, one, two := Copies(width, o.zero), First(x, o.identity, width), First(y, o.identity, width);
    var sum := First(o.plus(o.zero, x), o.plus(o.zero, o.identity), width);
    var both := First(o.plus(o.plus(o.zero, x), y), o.plus(o.plus(o.zero, o.identity), o.identity), width);
    assert zeros == First(o.zero, o.zero, width);
    AddFirst(o.zero, o.zero, x, o.identity, width, o.plus);
    AddFirst(o.plus(o.zero, x), o.plus(o.zero, o.identity), y, o.identity, width, o.plus);
    OneRound(zeros, one, [], o.plus);
    assert one + [] == one && two + [] == two;
    NoTail(sum, width, one, o);
    OneRound(zeros, one, two, o.plus);
    OneRound(sum, two, [], o.plus);
    NoTail(both, width, one + two, o);
  }

  lemma FoldUnit<R(!new)>(op: (R, R) -> R, id: R, x: R, width: nat)
    requires Monoid(op, id) && width > 0
    ensures Fold(op, id, First(x, id, width)) == x
  {
    FoldFirst(op, id, x, id, width);
    PowerOfIdentity(op, id, width - 1);
  }

  lemma ComputedIsBlock<R(!new)>(xs: seq<R>, width: nat, o: Ops<R>)
    requires Monoid(o.reduceOp, o.identity) && width > 0 && xs != [] && AlwaysComputesFold(width, o)
    ensures BlockSum(xs, width, o) == Fold(o.reduceOp, o.identity, xs)
  {
    assert ComputesFold(xs, 1, width, o);
    OneThread(xs, width, o);
  }

  /** What one vector and what two vectors in one block come to. */
  lemma OneVector<R(!new)>(x: R, width: nat, o: Ops<R>)
    requires Monoid(o.reduceOp, o.identity) && width > 0 && AlwaysComputesFold(width, o)
    ensures var op, id := o.reduceOp, o.identity;
            op(o.plus(o.zero, x), Power(op, id, o.plus(o.zero, id), width - 1)) == x
  {
    ComputedIsBlock(First(x, o.identity, width), width, o);
    FirstVectors(x, x, width, o);
    FoldUnit(o.reduceOp, o.identity, x, width);
    FoldFirst(o.reduceOp, o.identity, o.plus(o.zero, x), o.plus(o.zero, o.identity), width);
  }

  lemma TwoVectors<R(!new)>(x: R, y: R, width: nat, o: Ops<R>)
    requires Monoid(o.reduceOp, o.identity) && width > 0 && AlwaysComputesFold(width, o)
    ensures var op, id := o.reduceOp, o.identity;
            op(o.plus(o.plus(o.zero, x), y), Power(op, id, o.plus(o.plus(o.zero, id), id), width - 1)) == op(x, y)
  {
    var op, id := o.reduceOp, o.identity;
    var one, two := First(x, id, width), First(y, id, width);
    ComputedIsBlock(one + two, width, o);
    FirstVectors(x, y, width, o);
    FoldConcat(op, id, one, two);
    FoldUnit(op, id, x, width);
    FoldUnit(op, id, y, width);
    FoldFromAcc(op, id, x, two);
    FoldFirst(op, id, o.plus(o.plus(o.zero, x), y), o.plus(o.plus(o.zero, id), id), width);
  }

  /**
   What the lanes' zero does to the first element, it does by a factor `q`; what their addition
   does to two elements, it does by a factor `r` on top.
   */
  lemma Factors<R(!new)>(width: nat, o: Ops<R>, x: R, y: R)
    requires CommutativeMonoid(o) && width > 0 && AlwaysComputesFold(width, o)
    ensures var op, id := o.reduceOp, o.identity;
            var q := o.plus(o.zero, id); var qs := Power(op, id, q, width - 1);
            var r := o.plus(q, id); var rs := Power(op, id, r, width - 1);
            && op(q, qs) == id && op(r, rs) == id && o.plus(o.zero, x) == op(x, q)
            && o.plus(op(x, q), y) == op(op(x, y), r)
  {
    var op, id := o.reduceOp, o.identity;
    var q := o.plus(o.zero, id);
    var r := o.plus(q, id);
    var qs, rs := Power(op, id, q, width - 1), Power(op, id, r, width - 1);
    OneVector(id, width, o);
    OneVector(x, width, o);
    assert Swaps(op, q, qs);
    Divide(op, id, o.plus(o.zero, x), qs, x, q);
    TwoVectors(id, id, width, o);
    TwoVectors(x, y, width, o);
    assert Swaps(op, r, rs);
    Divide(op, id, o.plus(o.plus(o.zero, x), y), rs, op(x, y), r);
  }

  lemma AdditionShifts<R(!new)>(width: nat, o: Ops<R>, x: R, y: R)
    requires CommutativeMonoid(o) && width > 0 && AlwaysComputesFold(width, o)
    ensures var op, id := o.reduceOp, o.identity;
            var q := o.plus(o.zero, id); var qs := Power(op, id, q, width - 1); var r := o.plus(q, id);
            o.plus(x, y) == op(op(qs, r), op(x, y))
  {
    var op, id := o.reduceOp, o.identity;
    var q := o.plus(o.zero, id);
    var qs, r := Power(op, id, q, width - 1), o.plus(q, id);
    Factors(width, o, op(x, qs), y);
    assert Associates(op, x, qs, q) && Swaps(op, qs, q);
    assert o.plus(x, y) == op(op(op(x, qs), y), r);
    assert Associates(op, op(x, qs), y, r) && Swaps(op, y, r);
    Interchange(op, id, x, qs, y, r);
    assert Swaps(op, op(qs, r), op(x, y));
  }

  /** The constant of the addition cancels over a register. */
  lemma ShiftCancels<R(!new)>(width: nat, o: Ops<R>)
    requires CommutativeMonoid(o) && width > 0 && AlwaysComputesFold(width, o)
    ensures var op, id := o.reduceOp, o.identity; Power(op, id, o.plus(id, id), width) == id
    ensures forall x, y :: ShiftsAt(o, x, y)
  {
    var op, id := o.reduceOp, o.identity;
    var q := o.plus(o.zero, id);
    var qs, r := Power(op, id, q, width - 1), o.plus(q, id);
    AdditionShifts(width, o, id, id);
    forall x, y ensures ShiftsAt(o, x, y) {
      AdditionShifts(width, o, x, y);
    }
    Factors(width, o, id, id);
    PowerOfProduct(op, id, qs, r, width);
    assert Swaps(op, q, qs) && Swaps(op, r, Power(op, id, r, width - 1));
    PowerTwice(op, id, q, width - 1, width);
    PowerOfIdentity(op, id, width - 1);
  }

  lemma ZeroCancels<R(!new)>(width: nat, o: Ops<R>)
    requires CommutativeMonoid(o) && width > 0 && AlwaysComputesFold(width, o)
    ensures Power(o.reduceOp, o.identity, o.zero, width) == o.identity
  {
    var op, id := o.reduceOp, o.identity;
    FoldCopies(op, id, o.zero, width);
    if width > 1 {
      ComputedIsBlock([id], width, o);
      FoldSnoc(op, id, [], id);
      FoldSnoc(op, Fold(op, id, Copies(width, o.zero)), [], id);
      assert [] + [id] == [id];
    } else {
      ShiftCancels(width, o);
      Factors(width, o, id, id);
      assert ShiftsAt(o, o.zero, id);
    }
  }

  /**
   The exact condition, for each lane width. For a commutative monoid the vectorised reduction is
   the plain fold for every input and number of threads if and only if the lanes' addition is the
   caller's operation up to a constant that, like the lanes' zero, cancels over a register.
   */
  lemma PlainFoldIff<R(!new)>(width: nat, o: Ops<R>)
    requires CommutativeMonoid(o) && width > 0
    ensures AlwaysComputesFold(width, o) <==> SuitsLanes(width, o)
  {
    if SuitsLanes(width, o) {
      forall xs: seq<R>, threads: nat ensures ComputesFold(xs, threads, width, o) {
        ComputedIsFold(xs, threads, width, o);
      }
    }
    if AlwaysComputesFold(width, o) {
      ShiftCancels(width, o);
      ZeroCancels(width, o);
      FoldCopies(o.reduceOp, o.identity, o.plus(o.identity, o.identity), width);
      FoldCopies(o.reduceOp, o.identity, o.zero, width);
    }
  }

  // ----- Operations that suit the lanes, and one that does not -----

  /** The caller's operation is the one the lanes are added with. */
  ghost predicate SameAsLanes<R(!new)>(o: Ops<R>) {
    o.identity == o.zero && forall x, y :: o.plus(x, y) == o.reduceOp(x, y)
  }

  /** It suits lanes of every width, and only it suits them when registers have one lane. */
  lemma SameSuits<R(!new)>(width: nat, o: Ops<R>)
    requires CommutativeMonoid(o) && width > 0
    ensures SameAsLanes(o) ==> SuitsLanes(width, o)
    ensures width == 1 ==> (SuitsLanes(width, o) <==> SameAsLanes(o))
  {
    var op, id := o.reduceOp, o.identity;
    FoldCopies(op, id, o.zero, width);
    FoldCopies(op, id, o.plus(id, id), width);
    PowerOfIdentity(op, id, width);
    if SameAsLanes(o) {
      assert o.plus(id, id) == op(id, id);
      forall x, y ensures ShiftsAt(o, x, y) {
        assert o.plus(x, y) == op(x, y);
      }
    }
    if width == 1 && SuitsLanes(width, o) {
      assert Power(op, id, o.zero, 0) == id && Power(op, id, o.plus(id, id), 0) == id;
      forall x, y ensures o.plus(x, y) == op(x, y) {
        assert ShiftsAt(o, x, y);
      }
    }
  }

  type Byte = x: int | 0 <= x < 256

  function AddBytes(x: Byte, y: Byte): Byte {
    if x + y < 256 then x + y else x + y - 256
  }

  function AddOffset(x: Byte, y: Byte): Byte {
    if x + y < 128 then x + y + 128 else if x + y < 384 then x + y - 128 else x + y - 384
  }

  /** Bytes added with an offset of half their range: not the lanes' addition, but an even number of offsets cancels. */
  function OffsetSum(): Ops<Byte> {
    Ops(AddBytes, 0, AddOffset, 128)
  }

  lemma {:induction false} OffsetsCancel(k: nat)
    ensures Power<Byte>(AddOffset, 128, 0, 2 * k) == 128
  {
    if k > 0 {
      OffsetsCancel(k - 1);
      assert Power<Byte>(AddOffset, 128, 0, 2 * k - 1) == AddOffset(128, 0) == 0;
    }
  }

  lemma OffsetSumIsMonoid()
    ensures CommutativeMonoid(OffsetSum())
  {
    forall x: Byte, y: Byte, z: Byte ensures Associates(AddOffset, x, y, z) {
    }
    forall x: Byte, y: Byte ensures Swaps(AddOffset, x, y) {
    }
  }

  /** At every width of the library it suits the lanes without being their addition. */
  lemma OffsetSumSuits(width: nat)
    requires width > 0 && width % 2 == 0
    ensures CommutativeMonoid(OffsetSum()) && SuitsLanes(width, OffsetSum()) && !SameAsLanes(OffsetSum())
  {
    assert width == 2 * (width / 2);
    OffsetSumIsMonoid();
    forall x: Byte, y: Byte ensures ShiftsAt(OffsetSum(), x, y) {
    }
    assert AddBytes(128, 128) == 0;
    FoldCopies<Byte>(AddOffset, 128, 0, width);
    OffsetsCancel(width / 2);
  }

  function MaxOps(): Ops<int> {
    Ops((x: int, y: int) => x + y, 0, (x: int, y: int) => if x >= y then x else y, 0)
  }

  lemma {:induction false} MaxOfCopies(x: nat, k: nat)
    requires k > 0
    ensures Fold(MaxOps().reduceOp, 0, Copies(k, x as int)) == x
  {
    FoldCopies<int>(MaxOps().reduceOp, 0, x, k);
    if k > 1 {
      MaxOfCopies(x, k - 1);
      FoldCopies<int>(MaxOps().reduceOp, 0, x, k - 1);
    } else {
      assert Power<int>(MaxOps().reduceOp, 0, x, 0) == 0;
    }
  }

  /** A maximum, which the documentation admits, of two registers full of ones comes out as 2 at every width. */
  lemma MaximumIsNotComputed(width: nat)
    requires width > 0
    ensures var ones := Copies<int>(2 * width, 1);
            Computed(ones, 1, width, MaxOps()) == 2 && Fold(MaxOps().reduceOp, 0, ones) == 1
  {
    var o := MaxOps();
    var ones := Copies<int>(2 * width, 1);
    OneThread(ones, width, o);
    var half := Copies<int>(width, 1);
    assert ones == half + half && half + [] == half;
    OneRound(Copies<int>(width, 0), half, half, o.plus);
    assert AddLanes(Copies<int>(width, 0), half, o.plus) == half;
    OneRound(half, half, [], o.plus);
    assert AddLanes(half, half, o.plus) == Copies<int>(width, 2);
    NoTail(Copies<int>(width, 2), width, ones, o);
    MaxOfCopies(2, width);
    MaxOfCopies(1, 2 * width);
  }
}
