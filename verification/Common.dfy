/** Small facts shared by the models: options, extrema, slot arithmetic and counting. */
module Common {

  datatype Option<+T> = None | Some(value: T)

  function Min(a: int, b: int): int {
    if a <= b then a else b
  }

  function Max(a: int, b: int): int {
    if a >= b then a else b
  }

  // ----- Sequences -----

  predicate Distinct<A(==)>(q: seq<A>) {
    forall i, j :: 0 <= i < j < |q| ==> q[i] != q[j]
  }

  function Times<A(==)>(q: seq<A>, x: A): nat {
    if q == [] then 0 else Times(q[..|q| - 1], x) + if q[|q| - 1] == x then 1 else 0
  }

  /** Sets that agree on everything but `w`. */
  lemma SameButOne<A>(h: set<A>, h': set<A>, w: A)
    requires h - {w} == h' - {w}
    ensures |h'| + (if w in h then 1 else 0) == |h| + (if w in h' then 1 else 0)
  {
    assert |h - {w}| == |h| - if w in h then 1 else 0;
    assert |h' - {w}| == |h'| - if w in h' then 1 else 0;
  }

  // ----- Slots of a ring -----

  /**
   Index of ticket `p` in a ring of `n` slots: the remainder of `p` by `n`, written without
   nonlinear arithmetic.
   */
  function Slot(p: nat, n: nat): (j: nat)
    requires n > 0
    ensures j < n
  {
    if p < n then p else Slot(p - n, n)
  }

  lemma {:induction false} SlotIsModulo(p: nat, n: nat)
    requires n > 0
    ensures Slot(p, n) == p % n
  {
    if p >= n {
      SlotIsModulo(p - n, n);
      ModuloOf(p, n, (p - n) / n + 1, (p - n) % n) by {
        assert p - n == (p - n) / n * n + (p - n) % n;
        assert ((p - n) / n + 1) * n == (p - n) / n * n + n;
      }
    } else {
      ModuloOf(p, n, 0, p);
    }
  }

  lemma ModuloOf(p: int, n: nat, k: int, r: nat)
    requires n > 0 && r < n && p == k * n + r
    ensures p % n == r
  {
    assert p == p / n * n + p % n;
    assert (p / n - k) * n == r - p % n;
    if p / n != k {
      MultipleIsFar(p / n - k, n);
    }
  }

  lemma MultipleIsFar(k: int, n: int)
    requires n > 0 && k != 0
    ensures k * n >= n || k * n <= 0 - n
  {
    if k > 0 {
      Grows(k, 1, n);
    } else {
      Grows(-1, k, n);
    }
  }

  lemma Grows(k: int, l: int, n: int)
    requires n >= 0 && k >= l
    ensures k * n >= l * n
  {
    assert (k - l) * n >= 0;
  }

  /** Tickets less than `n` apart never share a slot. */
  lemma {:induction false} SlotsDiffer(p: nat, q: nat, n: nat)
    requires n > 0 && p != q && p < q + n && q < p + n
    ensures Slot(p, n) != Slot(q, n)
  {
    if p >= n && q >= n {
      SlotsDiffer(p - n, q - n, n);
    }
  }

  /** Tickets a whole lap apart share their slot. */
  lemma SlotRepeats(p: nat, n: nat)
    requires n > 0
    ensures Slot(p + n, n) == Slot(p, n)
  {
  }

  /** Every ticket has a representative of its slot in any window of one lap. */
  lemma {:induction false} SlotInWindow(p: nat, from: nat, n: nat) returns (q: nat)
    requires n > 0
    ensures from <= q < from + n && Slot(q, n) == Slot(p, n)
    ensures p <= from ==> q >= p
    ensures from <= p ==> q <= p
    ensures q != p ==> q >= p + n || q <= p - n
    decreases if p < from then from + n - p else p - from
  {
    if p < from {
      SlotRepeats(p, n);
      q := SlotInWindow(p + n, from, n);
    } else if p >= from + n {
      SlotRepeats(p - n, n);
      q := SlotInWindow(p - n, from, n);
    } else {
      q := p;
    }
  }

  function Pow2(k: nat): (n: nat)
    ensures n > 0
  {
    if k == 0 then 1 else 2 * Pow2(k - 1)
  }

  // ----- Sums over sequences -----

  ghost function Total<A>(xs: seq<A>, f: A -> nat): nat {
    if xs == [] then 0 else Total(xs[..|xs| - 1], f) + f(xs[|xs| - 1])
  }

  lemma {:induction false} TotalUpdate<A>(xs: seq<A>, i: nat, x: A, f: A -> nat)
    requires i < |xs|
    ensures Total(xs[i := x], f) == Total(xs, f) + f(x) - f(xs[i])
  {
    var last := |xs| - 1;
    if i < last {
      TotalUpdate(xs[..last], i, x, f);
      assert xs[i := x][..last] == xs[..last][i := x];
    } else {
      assert xs[i := x][..last] == xs[..last];
    }
  }

  lemma {:induction false} TotalSame<A>(xs: seq<A>, ys: seq<A>, f: A -> nat)
    requires |xs| == |ys| && forall i :: 0 <= i < |xs| ==> f(xs[i]) == f(ys[i])
    ensures Total(xs, f) == Total(ys, f)
  {
    if xs != [] {
      TotalSame(xs[..|xs| - 1], ys[..|xs| - 1], f);
    }
  }

  lemma {:induction false} TotalZero<A>(xs: seq<A>, f: A -> nat)
    requires forall i :: 0 <= i < |xs| ==> f(xs[i]) == 0
    ensures Total(xs, f) == 0
  {
    if xs != [] {
      TotalZero(xs[..|xs| - 1], f);
    }
  }

  // ----- Sums over sets -----

  ghost function Sum<A(!new)>(keys: set<A>, f: A -> nat): nat {
    if keys == {} then 0 else
      var x :| x in keys;
      f(x) + Sum(keys - {x}, f)
  }

  lemma {:induction false} SumWithout<A(!new)>(keys: set<A>, f: A -> nat, x: A)
    requires x in keys
    ensures Sum(keys, f) == f(x) + Sum(keys - {x}, f)
  {
    var y :| y in keys && Sum(keys, f) == f(y) + Sum(keys - {y}, f);
    if y != x {
      SumWithout(keys - {y}, f, x);
      SumWithout(keys - {x}, f, y);
      assert keys - {x} - {y} == keys - {y} - {x};
    }
  }

  lemma {:induction false} SumSame<A(!new)>(keys: set<A>, f: A -> nat, g: A -> nat)
    requires forall x :: x in keys ==> f(x) == g(x)
    ensures Sum(keys, f) == Sum(keys, g)
  {
    if keys != {} {
      var x :| x in keys;
      SumWithout(keys, f, x);
      SumWithout(keys, g, x);
      SumSame(keys - {x}, f, g);
    }
  }
}
