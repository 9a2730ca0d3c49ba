/**
 The ring as the machine runs it: counters are 64-bit words, cells are found by masking, and
 the comparison of a sequence number with a position is a signed difference, of 64 bits in one
 version of the queue and of 32 bits in the sized one. It does what the unbounded ring does as
 long as no thread falls too far behind.
 */
module RingWidth {
  import opened Common
  import opened Ring
  import opened RingFifo

  const WORD: nat := 0x1_0000_0000_0000_0000
  const HALF_WORD: nat := 0x1_0000_0000

  // ----- Masks and powers of two -----

  /** The bitwise `&`. */
  function And(a: nat, b: nat): nat {
    if a == 0 || b == 0 then 0 else 2 * And(a / 2, b / 2) + (a % 2) * (b % 2)
  }

  lemma {:induction false} MaskIsModulo(p: nat, k: nat)
    ensures And(p, Pow2(k) - 1) == p % Pow2(k)
  {
    if k > 0 {
      var n := Pow2(k - 1);
      MaskIsModulo(p / 2, k - 1);
      MaskOneMoreBit(p, n - 1);
      HalfModulo(p, n);
    }
  }

  lemma MaskOneMoreBit(p: nat, m: nat)
    ensures And(p, 2 * m + 1) == 2 * And(p / 2, m) + p % 2
  {
    if p > 0 {
      calc {
        And(p, 2 * m + 1);
        2 * And(p / 2, (2 * m + 1) / 2) + (p % 2) * ((2 * m + 1) % 2);
        { assert (2 * m + 1) / 2 == m && (2 * m + 1) % 2 == 1; }
        2 * And(p / 2, m) + p % 2;
      }
    }
  }

  lemma HalfModulo(p: nat, n: nat)
    requires n > 0
    ensures p % (2 * n) == 2 * (p / 2 % n) + p % 2
  {
    var r := 2 * (p / 2 % n) + p % 2;
    var k := p / 2 / n;
    assert p / 2 == k * n + p / 2 % n;
    assert k * (2 * n) == 2 * (k * n);
    assert p == k * (2 * n) + r;
    ModuloOf(p, 2 * n, k, r);
  }

  ghost predicate IsPowerOfTwo(n: nat) {
    exists k: nat :: n == Pow2(k)
  }

  /** The constructors' test `(size & (size - 1)) == 0` accepts exactly the powers of two. */
  lemma {:induction false} PowerOfTwoTest(n: nat)
    requires n > 0
    ensures And(n, n - 1) == 0 <==> IsPowerOfTwo(n)
  {
    if n == 1 {
      assert n == Pow2(0);
    } else if n % 2 == 1 {
      assert n / 2 == (n - 1) / 2 && n / 2 > 0;
      AndSelf(n / 2);
      forall k: nat ensures n != Pow2(k) {
        assert k > 0 ==> Pow2(k) == 2 * Pow2(k - 1);
      }
    } else {
      PowerOfTwoTest(n / 2);
      assert (n - 1) / 2 == n / 2 - 1;
      assert And(n, n - 1) == 2 * And(n / 2, n / 2 - 1);
      PowerOfTwoHalves(n / 2);
    }
  }

  lemma PowerOfTwoHalves(m: nat)
    requires m > 0
    ensures IsPowerOfTwo(2 * m) <==> IsPowerOfTwo(m)
  {
    if IsPowerOfTwo(m) {
      var k: nat :| m == Pow2(k);
      assert 2 * m == Pow2(k + 1);
    }
    if IsPowerOfTwo(2 * m) {
      var k: nat :| 2 * m == Pow2(k);
      assert m == Pow2(k - 1);
    }
  }

  lemma {:induction false} AndSelf(n: nat)
    ensures And(n, n) == n
  {
    if n > 0 {
      AndSelf(n / 2);
      assert (n % 2) * (n % 2) == n % 2;
    }
  }

  // ----- Words -----

  function Word(x: int): nat {
    x % WORD
  }

  /** The signed difference as computed: 64 bits wide, or both operands first cut to 32 bits. */
  function Dif(sequence: nat, pos: nat, short: bool): int {
    if short then
      var d := (sequence % HALF_WORD - pos % HALF_WORD) % HALF_WORD;
      if d >= HALF_WORD / 2 then d - HALF_WORD else d
    else
      var d := (sequence - pos) % WORD;
      if d >= WORD / 2 then d - WORD else d
  }

  function NarrowLocal<T>(l: Local<T>): Local<T> {
    match l
    case PushLook(msg, pos) => PushLook(msg, Word(pos))
    case PushCas(msg, pos) => PushCas(msg, Word(pos))
    case PushWrite(msg, pos) => PushWrite(msg, Word(pos))
    case PushPublish(msg, pos) => PushPublish(msg, Word(pos))
    case PushEnd(msg, Accepted(pos)) => PushEnd(msg, Accepted(Word(pos)))
    case PopLook(pos) => PopLook(Word(pos))
    case PopCas(pos) => PopCas(Word(pos))
    case PopTake(pos) => PopTake(Word(pos))
    case PopRelease(pos, taken) => PopRelease(Word(pos), taken)
    case PopEnd(Got(pos, value)) => PopEnd(Got(Word(pos), value))
    case _ => l
  }

  function NarrowCell<T>(c: Cell<T>): Cell<T> {
    c.(sequence := Word(c.sequence))
  }

  /** The words that the machine holds in state `s`. */
  function Narrow<T>(s: Ring<T>): Ring<T> {
    s.(cells := seq(|s.cells|, i requires 0 <= i < |s.cells| => NarrowCell(s.cells[i])),
       enqueuePos := Word(s.enqueuePos), dequeuePos := Word(s.dequeuePos),
       threads := map t | t in s.threads :: NarrowLocal(s.threads[t]))
  }

  /** The cell at `pos & mask`. */
  function WordCell<T>(w: Ring<T>, pos: nat): Cell<T>
    requires |w.cells| > 0
  {
    var j := And(pos, |w.cells| - 1);
    if j < |w.cells| then w.cells[j] else w.cells[0]
  }

  function SetWordCell<T>(w: Ring<T>, pos: nat, c: Cell<T>): Ring<T>
    requires |w.cells| > 0
  {
    var j := And(pos, |w.cells| - 1);
    if j < |w.cells| then w.(cells := w.cells[j := c]) else w
  }

  /** One step of a thread on machine words. */
  function WordRun<T>(w: Ring<T>, t: nat, spurious: bool): Ring<T>
    requires |w.cells| > 0
  {
    match LocalOf(w, t)
    case PushStart(msg) => Move(w, t, PushLook(msg, w.enqueuePos))
    case PushLook(msg, pos) =>
      var dif := Dif(WordCell(w, pos).sequence, pos, w.rereads);
      if dif == 0 then Move(w, t, PushCas(msg, pos))
      else if dif < 0 then Move(w, t, PushEnd(msg, Refused))
      else Move(w, t, PushStart(msg))
    case PushCas(msg, pos) =>
      if w.enqueuePos == pos && !spurious then
        Move(w, t, PushWrite(msg, pos)).(enqueuePos := Word(pos + 1), log := w.log + [msg])
      else if w.rereads then Move(w, t, PushStart(msg))
      else Move(w, t, PushLook(msg, w.enqueuePos))
    case PushWrite(msg, pos) =>
      Move(SetWordCell(w, pos, WordCell(w, pos).(data := Some(msg))), t, PushPublish(msg, pos))
    case PushPublish(msg, pos) =>
      Move(SetWordCell(w, pos, WordCell(w, pos).(sequence := Word(pos + 1))), t, PushEnd(msg, Accepted(pos)))
    case PopStart => Move(w, t, PopLook(w.dequeuePos))
    case PopLook(pos) =>
      var dif := Dif(WordCell(w, pos).sequence, Word(pos + 1), w.rereads);
      if dif == 0 then Move(w, t, PopCas(pos))
      else if dif < 0 then Move(w, t, PopEnd(Nothing))
      else Move(w, t, PopStart)
    case PopCas(pos) =>
      if w.dequeuePos == pos && !spurious then
        Move(w, t, PopTake(pos)).(dequeuePos := Word(pos + 1))
      else if w.rereads then Move(w, t, PopStart)
      else Move(w, t, PopLook(w.dequeuePos))
    case PopTake(pos) =>
      var c := WordCell(w, pos);
      Move(SetWordCell(w, pos, c.(data := None)), t, PopRelease(pos, c.data))
    case PopRelease(pos, taken) =>
      Move(SetWordCell(w, pos, WordCell(w, pos).(sequence := Word(pos + |w.cells|))), t, PopEnd(Got(pos, taken)))
    case _ => w
  }

  function WordStep<T>(w: Ring<T>, a: Action<T>): Ring<T>
    requires |w.cells| > 0
  {
    if a.Go? then WordRun(w, a.tid, a.spurious) else Step(w, a)
  }

  function WordExec<T>(w: Ring<T>, acts: seq<Action<T>>): (w': Ring<T>)
    requires |w.cells| > 0
    ensures |w'.cells| == |w.cells|
  {
    if acts == [] then w else WordStep(WordExec(w, acts[..|acts| - 1]), acts[|acts| - 1])
  }

  // ----- Refinement -----

  /** Room for lag: half the range of the difference. */
  function HalfRange(short: bool): nat {
    if short then HALF_WORD / 2 else WORD / 2
  }

  /** Thread `t` lags behind the counter it is after by less than half the range less one lap. */
  predicate KeepsUp<T>(s: Ring<T>, t: nat) {
    match LocalOf(s, t)
    case PushLook(_, pos) => s.enqueuePos - pos + |s.cells| < HalfRange(s.rereads)
    case PushCas(_, pos) => s.enqueuePos - pos + |s.cells| < HalfRange(s.rereads)
    case PopLook(pos) => s.dequeuePos - pos + |s.cells| < HalfRange(s.rereads)
    case PopCas(pos) => s.dequeuePos - pos + |s.cells| < HalfRange(s.rereads)
    case _ => true
  }

  /** The difference of two words is the difference of the counters. */
  lemma DifIsRight(a: nat, b: nat, short: bool)
    requires a - b < HalfRange(short) && b - a <= HalfRange(short)
    ensures Dif(Word(a), Word(b), short) == a - b
  {
    if short {
      DifIsRight32(a, b);
    } else {
      DifIsRight64(a, b);
    }
  }

  lemma DifIsRight32(a: nat, b: nat)
    requires a - b < HALF_WORD / 2 && b - a <= HALF_WORD / 2
    ensures Dif(Word(a), Word(b), true) == a - b
  {
    ShortWord(a);
    ShortWord(b);
    ModDifference(a, b, HALF_WORD);
  }

  lemma DifIsRight64(a: nat, b: nat)
    requires a - b < WORD / 2 && b - a <= WORD / 2
    ensures Dif(Word(a), Word(b), false) == a - b
  {
    ModDifference(a, b, WORD);
  }

  lemma ModDifference(a: nat, b: nat, m: nat)
    requires m > 0 && a - b < m && b - a <= m
    ensures (a % m - b % m) % m == if a >= b then a - b else if b - a == m then 0 else a - b + m
  {
    var d := if a >= b then a - b else if b - a == m then 0 else a - b + m;
    var j := if a >= b then 0 else -1;
    var e := a % m - b % m;
    LinearDifference(a, b, m, j, d);
    ModuloOf(e, m, j - (a / m - b / m), d);
  }

  lemma LinearDifference(a: nat, b: nat, m: nat, j: int, d: int)
    requires m > 0 && a - b == j * m + d
    ensures a % m - b % m == (j - (a / m - b / m)) * m + d
  {
    assert a == a / m * m + a % m && b == b / m * m + b % m;
    assert (j - (a / m - b / m)) * m == j * m - a / m * m + b / m * m;
  }

  lemma ShortWord(a: nat)
    ensures Word(a) % HALF_WORD == a % HALF_WORD
  {
  }

  lemma WordSlot(p: nat, k: nat)
    requires k <= 64
    ensures And(Word(p), Pow2(k) - 1) == Slot(p, Pow2(k))
  {
    MaskIsModulo(Word(p), k);
    PowDivides(k, 64);
    Pow64();
    ModuloOfModulo(p, WORD, Pow2(64 - k), Pow2(k));
    SlotIsModulo(p, Pow2(k));
  }

  lemma ModuloOfModulo(p: nat, m: nat, c: nat, n: nat)
    requires n > 0 && m > 0 && m == c * n
    ensures p % m % n == p % n
  {
    var r := p % m;
    var k := p / m * c + r / n;
    assert k * n == p / m * m + r / n * n by {
      assert p / m * c * n == p / m * (c * n);
    }
    assert r == r / n * n + r % n;
    ModuloOf(p, n, k, r % n);
  }

  lemma {:induction false} PowDivides(k: nat, m: nat)
    requires k <= m
    ensures Pow2(m) == Pow2(m - k) * Pow2(k)
  {
    if k > 0 {
      PowDivides(k - 1, m);
      assert Pow2(m - k + 1) == 2 * Pow2(m - k);
      assert Pow2(k) == 2 * Pow2(k - 1);
    }
  }

  lemma Pow64()
    ensures Pow2(64) == WORD
  {
    assert Pow2(8) == 0x100;
    PowDivides(8, 16);
    PowDivides(16, 32);
    PowDivides(32, 64);
  }

  ghost predicate Fits<T>(s: Ring<T>, k: nat) {
    Inv(s) && |s.cells| == Pow2(k) && k <= 64
  }

  lemma NarrowMove<T>(s: Ring<T>, t: nat, l: Local<T>)
    ensures Move(Narrow(s), t, NarrowLocal(l)) == Narrow(Move(s, t, l))
    ensures LocalOf(Narrow(s), t) == NarrowLocal(LocalOf(s, t))
  {
    assert Move(Narrow(s), t, NarrowLocal(l)).threads == Narrow(Move(s, t, l)).threads;
  }

  lemma NarrowCells<T>(s: Ring<T>, pos: nat, c: Cell<T>, k: nat)
    requires |s.cells| == Pow2(k) && k <= 64
    ensures WordCell(Narrow(s), Word(pos)) == NarrowCell(CellAt(s, pos))
    ensures SetWordCell(Narrow(s), Word(pos), NarrowCell(c)) == Narrow(SetCell(s, pos, c))
  {
    WordSlot(pos, k);
    assert SetWordCell(Narrow(s), Word(pos), NarrowCell(c)).cells == Narrow(SetCell(s, pos, c)).cells;
  }

  lemma WordsDiffer(a: nat, b: nat)
    requires a <= b < a + WORD
    ensures Word(a) == Word(b) <==> a == b
  {
  }

  lemma WordSum(p: nat, d: nat)
    ensures Word(Word(p) + d) == Word(p + d)
  {
  }

  /** A cell's sequence number is never a lap ahead of the counters, nor behind a reader by more than a lap. */
  lemma SequenceRange<T>(s: Ring<T>, pos: nat)
    requires Inv(s) && pos <= s.enqueuePos
    ensures pos - |s.cells| <= CellAt(s, pos).sequence <= s.dequeuePos + |s.cells|
    ensures pos <= s.dequeuePos ==> pos - |s.cells| < CellAt(s, pos).sequence
  {
    var q := SlotInWindow(pos, s.dequeuePos, |s.cells|);
    assert CellFits(s, q);
  }

  predicate DifsAgree<T>(s: Ring<T>, t: nat)
    requires |s.cells| > 0
  {
    match LocalOf(s, t)
    case PushLook(_, pos) => Dif(Word(CellAt(s, pos).sequence), Word(pos), s.rereads) == CellAt(s, pos).sequence - pos
    case PopLook(pos) =>
      Dif(Word(CellAt(s, pos).sequence), Word(pos + 1), s.rereads) == CellAt(s, pos).sequence - (pos + 1)
    case _ => true
  }

  lemma LookIsRight<T>(s: Ring<T>, t: nat)
    requires Inv(s) && KeepsUp(s, t) && |s.cells| <= HalfRange(s.rereads)
    ensures DifsAgree(s, t)
  {
    var l := LocalOf(s, t);
    if l.PushLook? {
      assert LocalFits(s, l);
      SequenceRange(s, l.pos);
      DifIsRight(CellAt(s, l.pos).sequence, l.pos, s.rereads);
    }
    if l.PopLook? {
      assert LocalFits(s, l);
      SequenceRange(s, l.pos);
      DifIsRight(CellAt(s, l.pos).sequence, l.pos + 1, s.rereads);
    }
  }

  /** A step on words is the step on counters, for a thread that keeps up. */
  lemma WordRunRefines<T>(s: Ring<T>, t: nat, spurious: bool, k: nat)
    requires Fits(s, k) && KeepsUp(s, t) && |s.cells| <= HalfRange(s.rereads)
    ensures WordRun(Narrow(s), t, spurious) == Narrow(Run(s, t, spurious))
  {
    var l := LocalOf(s, t);
    match l
    case PushStart(msg) => NarrowMove(s, t, PushLook(msg, s.enqueuePos));
    case PopStart => NarrowMove(s, t, PopLook(s.dequeuePos));
    case PushLook(msg, pos) => LookIsRight(s, t); PushLookRefines(s, t, spurious, k, msg, pos);
    case PopLook(pos) => LookIsRight(s, t); PopLookRefines(s, t, spurious, k, pos);
    case PushCas(msg, pos) => assert LocalFits(s, l); PushCasRefines(s, t, spurious, msg, pos);
    case PopCas(pos) => assert LocalFits(s, l); PopCasRefines(s, t, spurious, pos);
    case PushWrite(msg, pos) => PushWriteRefines(s, t, spurious, k, msg, pos);
    case PushPublish(msg, pos) => PushPublishRefines(s, t, spurious, k, msg, pos);
    case PopTake(pos) => PopTakeRefines(s, t, spurious, k, pos);
    case PopRelease(pos, taken) => PopReleaseRefines(s, t, spurious, k, pos, taken);
    case _ => NarrowMove(s, t, l);
  }

  lemma PushLookRefines<T>(s: Ring<T>, t: nat, spurious: bool, k: nat, msg: T, pos: nat)
    requires |s.cells| == Pow2(k) && k <= 64 && DifsAgree(s, t) && LocalOf(s, t) == PushLook(msg, pos)
    ensures WordRun(Narrow(s), t, spurious) == Narrow(Run(s, t, spurious))
  {
    NarrowCells(s, pos, CellAt(s, pos), k);
    var dif := CellAt(s, pos).sequence - pos;
    NarrowMove(s, t, if dif == 0 then PushCas(msg, pos) else if dif < 0 then PushEnd(msg, Refused) else PushStart(msg));
  }

  lemma PopLookRefines<T>(s: Ring<T>, t: nat, spurious: bool, k: nat, pos: nat)
    requires |s.cells| == Pow2(k) && k <= 64 && DifsAgree(s, t) && LocalOf(s, t) == PopLook(pos)
    ensures WordRun(Narrow(s), t, spurious) == Narrow(Run(s, t, spurious))
  {
    NarrowCells(s, pos, CellAt(s, pos), k);
    WordSum(pos, 1);
    var dif := CellAt(s, pos).sequence - (pos + 1);
    NarrowMove(s, t, if dif == 0 then PopCas(pos) else if dif < 0 then PopEnd(Nothing) else PopStart);
  }

  lemma PushCasRefines<T>(s: Ring<T>, t: nat, spurious: bool, msg: T, pos: nat)
    requires |s.cells| > 0 && LocalOf(s, t) == PushCas(msg, pos) && pos <= s.enqueuePos < pos + WORD
    ensures WordRun(Narrow(s), t, spurious) == Narrow(Run(s, t, spurious))
  {
    WordsDiffer(pos, s.enqueuePos);
    WordSum(pos, 1);
    if s.enqueuePos == pos && !spurious {
      NarrowMove(s, t, PushWrite(msg, pos));
      NarrowCounters(Move(s, t, PushWrite(msg, pos)), pos + 1, s.dequeuePos, s.log + [msg]);
    } else {
      NarrowMove(s, t, if s.rereads then PushStart(msg) else PushLook(msg, s.enqueuePos));
    }
  }

  lemma PopCasRefines<T>(s: Ring<T>, t: nat, spurious: bool, pos: nat)
    requires |s.cells| > 0 && LocalOf(s, t) == PopCas(pos) && pos <= s.dequeuePos < pos + WORD
    ensures WordRun(Narrow(s), t, spurious) == Narrow(Run(s, t, spurious))
  {
    WordsDiffer(pos, s.dequeuePos);
    WordSum(pos, 1);
    if s.dequeuePos == pos && !spurious {
      NarrowMove(s, t, PopTake(pos));
      NarrowCounters(Move(s, t, PopTake(pos)), s.enqueuePos, pos + 1, s.log);
    } else {
      NarrowMove(s, t, if s.rereads then PopStart else PopLook(s.dequeuePos));
    }
  }

  lemma NarrowCounters<T>(s: Ring<T>, enq: nat, deq: nat, log: seq<T>)
    ensures Narrow(s.(enqueuePos := enq, dequeuePos := deq, log := log)) ==
            Narrow(s).(enqueuePos := Word(enq), dequeuePos := Word(deq), log := log)
  {
  }

  lemma NarrowWrite<T>(s: Ring<T>, pos: nat, c: Cell<T>, t: nat, l: Local<T>, k: nat)
    requires |s.cells| == Pow2(k) && k <= 64
    ensures Move(SetWordCell(Narrow(s), Word(pos), NarrowCell(c)), t, NarrowLocal(l)) ==
            Narrow(Move(SetCell(s, pos, c), t, l))
    ensures WordCell(Narrow(s), Word(pos)) == NarrowCell(CellAt(s, pos))
    ensures LocalOf(Narrow(s), t) == NarrowLocal(LocalOf(s, t))
  {
    NarrowCells(s, pos, c, k);
    NarrowMove(s, t, LocalOf(s, t));
    NarrowMove(SetCell(s, pos, c), t, l);
  }

  lemma PushWriteRefines<T>(s: Ring<T>, t: nat, spurious: bool, k: nat, msg: T, pos: nat)
    requires |s.cells| == Pow2(k) && k <= 64 && LocalOf(s, t) == PushWrite(msg, pos)
    ensures WordRun(Narrow(s), t, spurious) == Narrow(Run(s, t, spurious))
  {
    NarrowWrite(s, pos, CellAt(s, pos).(data := Some(msg)), t, PushPublish(msg, pos), k);
  }

  lemma PushPublishRefines<T>(s: Ring<T>, t: nat, spurious: bool, k: nat, msg: T, pos: nat)
    requires |s.cells| == Pow2(k) && k <= 64 && LocalOf(s, t) == PushPublish(msg, pos)
    ensures WordRun(Narrow(s), t, spurious) == Narrow(Run(s, t, spurious))
  {
    WordSum(pos, 1);
    var c := Cell(pos + 1, CellAt(s, pos).data);
    NarrowWrite(s, pos, c, t, PushEnd(msg, Accepted(pos)), k);
    assert Run(s, t, spurious) == Move(SetCell(s, pos, c), t, PushEnd(msg, Accepted(pos)));
  }

  lemma PopTakeRefines<T>(s: Ring<T>, t: nat, spurious: bool, k: nat, pos: nat)
    requires |s.cells| == Pow2(k) && k <= 64 && LocalOf(s, t) == PopTake(pos)
    ensures WordRun(Narrow(s), t, spurious) == Narrow(Run(s, t, spurious))
  {
    var c := CellAt(s, pos);
    NarrowWrite(s, pos, c.(data := None), t, PopRelease(pos, c.data), k);
  }

  lemma PopReleaseRefines<T>(s: Ring<T>, t: nat, spurious: bool, k: nat, pos: nat, taken: Option<T>)
    requires |s.cells| == Pow2(k) && k <= 64 && LocalOf(s, t) == PopRelease(pos, taken)
    ensures WordRun(Narrow(s), t, spurious) == Narrow(Run(s, t, spurious))
  {
    WordSum(pos, |s.cells|);
    var c := Cell(pos + |s.cells|, CellAt(s, pos).data);
    NarrowWrite(s, pos, c, t, PopEnd(Got(pos, taken)), k);
    assert Run(s, t, spurious) == Move(SetCell(s, pos, c), t, PopEnd(Got(pos, taken)));
  }

  ghost predicate AllKeepUp<T>(s: Ring<T>, acts: seq<Action<T>>)
    requires |s.cells| > 0
  {
    acts == [] || (AllKeepUp(s, acts[..|acts| - 1]) && KeepsUp(Exec(s, acts[..|acts| - 1]), acts[|acts| - 1].tid))
  }

  lemma StepKeepsKind<T>(s: Ring<T>, a: Action<T>)
    requires |s.cells| > 0
    ensures Step(s, a).rereads == s.rereads
  {
  }

  lemma {:induction false} RunKeepsKind<T>(s: Ring<T>, acts: seq<Action<T>>)
    requires |s.cells| > 0
    ensures Exec(s, acts).rereads == s.rereads
  {
    if acts != [] {
      RunKeepsKind(s, acts[..|acts| - 1]);
      StepKeepsKind(Exec(s, acts[..|acts| - 1]), acts[|acts| - 1]);
    }
  }

  lemma WordStepRefines<T>(s: Ring<T>, a: Action<T>, k: nat)
    requires Fits(s, k) && KeepsUp(s, a.tid) && |s.cells| <= HalfRange(s.rereads)
    ensures WordStep(Narrow(s), a) == Narrow(Step(s, a))
  {
    NarrowMove(s, a.tid, LocalOf(s, a.tid));
    match a
    case Go(t, spurious) => WordRunRefines(s, t, spurious, k);
    case CallPush(t, msg) => NarrowMove(s, t, PushStart(msg));
    case CallPop(t) => NarrowMove(s, t, PopStart);
    case Return(t) => NarrowMove(s, t, Idle);
  }

  /** Over a whole run the machine words are those of the unbounded ring, so all it promises holds of them. */
  lemma {:induction false} WordRunsRefine<T>(capacity: nat, k: nat, rereads: bool, acts: seq<Action<T>>)
    requires capacity == Pow2(k) && 2 <= capacity <= HalfRange(rereads) && k <= 64
    requires AllKeepUp(Init(capacity, rereads), acts)
    ensures var s0 := Init<T>(capacity, rereads);
            Inv(Exec(s0, acts)) && WordExec(Narrow(s0), acts) == Narrow(Exec(s0, acts)) &&
            Fifo(Trace(s0, acts)) == Some(Contents(Exec(s0, acts)))
  {
    var s0 := Init<T>(capacity, rereads);
    RunIsFifo(capacity, rereads, acts);
    if acts != [] {
      var before, a := acts[..|acts| - 1], acts[|acts| - 1];
      WordRunsRefine(capacity, k, rereads, before);
      RunKeepsKind(s0, before);
      WordStepRefines(Exec(s0, before), a, k);
    }
  }
}