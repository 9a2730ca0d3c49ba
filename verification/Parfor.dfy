/**
 The parallel loop: how the iteration space is cut into chunks, in an index type whose arithmetic
 wraps around, and what the chunk tasks invoke when they run in any order.
 */
module Parfor {
  import opened Common

  /** A chunk covers the indices from `start` up to but not including `end`. */
  datatype Chunk = Chunk(start: int, end: int)

  /** An integral type of the values from `low` up to but not including `high`; it may be signed. */
  datatype IndexType = IndexType(low: int, high: int)
  {
    predicate Has(x: int) {
      low <= x < high
    }

    /** What a conversion of `x` to the type yields: `x` modulo the number of its values. */
    function Wrap(x: int): (y: int)
      requires low < high
      ensures Has(y) && (Has(x) ==> y == x)
      decreases if x < low then low - x else x - low
    {
      if x < low then if x + (high - low) < low then Wrap(x + (high - low)) else x + (high - low)
      else if x < high then x
      else Wrap(x - (high - low))
    }
  }

  /** The size of a chunk: a fixed one, or the default that `fixed < 0` asks for. */
  function ChunkSize(n: nat, threads: nat, fixed: int): (size: nat)
    requires fixed != 0 && (fixed < 0 ==> threads > 0)
    ensures size > 0
  {
    if fixed < 0 then Max(1, n / threads) else fixed
  }

  function ChunkCount(n: nat, size: nat): nat
    requires size > 0
  {
    (n + size - 1) / size
  }

  /** The chunks are nonempty and follow each other from `from` to `to` without gap or overlap. */
  predicate Tiles(chunks: seq<Chunk>, from: int, to: int) {
    if chunks == [] then from == to
    else
      var last := chunks[|chunks| - 1];
      last.start < last.end == to && Tiles(chunks[..|chunks| - 1], from, last.start)
  }

  /** The last chunk starts here. */
  function LastStart(from: int, to: int, size: nat): int
    requires from <= to && size > 0
  {
    from + (ChunkCount(to - from, size) - 1) * size
  }

  /** The end of the last chunk, computed in the index type, reaches the end of the loop. */
  predicate Representable(from: int, to: int, size: nat, index: IndexType)
    requires index.Has(from) && from < to && size > 0
  {
    to <= index.Wrap(LastStart(from, to, size) + size)
  }

  lemma DivBounds(a: int, b: int)
    requires b > 0
    ensures a / b * b <= a < a / b * b + b
  {
  }

  lemma {:induction false} WrapIsModulo(index: IndexType, x: int)
    requires index.low < index.high
    ensures index.Wrap(x) == index.low + (x - index.low) % (index.high - index.low)
    decreases if x < index.low then index.low - x else x - index.low
  {
    var n := index.high - index.low;
    if x < index.low {
      if x + n < index.low {
        WrapIsModulo(index, x + n);
        ModuloShifts(x - index.low, n);
      } else {
        ModuloOf(x - index.low, n, -1, x + n - index.low);
      }
    } else if x < index.high {
      ModuloOf(x - index.low, n, 0, x - index.low);
    } else {
      WrapIsModulo(index, x - n);
      ModuloShifts(x - n - index.low, n);
    }
  }

  lemma ModuloShifts(x: int, n: nat)
    requires n > 0
    ensures (x + n) % n == x % n
  {
    assert x == x / n * n + x % n;
    assert (x / n + 1) * n == x / n * n + n;
    ModuloOf(x + n, n, x / n + 1, x % n);
  }

  lemma WrapShifts(index: IndexType, x: int)
    requires index.low < index.high
    ensures index.Wrap(x + (index.high - index.low)) == index.Wrap(x)
  {
  }

  /** Converting early or late makes no difference. */
  lemma {:induction false} WrapSum(index: IndexType, x: int, y: int)
    requires index.low < index.high
    ensures index.Wrap(x + index.Wrap(y)) == index.Wrap(x + y)
    decreases if y < index.low then index.low - y else y - index.low
  {
    var n := index.high - index.low;
    if y < index.low {
      WrapShifts(index, y);
      WrapShifts(index, x + y);
      if y + n < index.low {
        WrapSum(index, x, y + n);
      }
    } else if y >= index.high {
      WrapShifts(index, y - n);
      WrapShifts(index, x + y - n);
      WrapSum(index, x, y - n);
    }
  }

  /** Rounding up: the last chunk starts before the end, and one more would not. */
  lemma CountBounds(n: nat, size: nat)
    requires n > 0 && size > 0
    ensures ChunkCount(n, size) > 0 && (ChunkCount(n, size) - 1) * size < n <= ChunkCount(n, size) * size
  {
    var k := ChunkCount(n, size);
    DivBounds(n + size - 1, size);
    assert k * size <= n + size - 1 < k * size + size;
    assert (k - 1) * size == k * size - size;
    if k <= 0 {
      Grows(0, k, size);
    }
  }

  lemma StartBounds(from: int, to: int, size: nat, k: nat)
    requires from < to && size > 0 && k < ChunkCount(to - from, size)
    ensures from <= from + k * size <= LastStart(from, to, size) < to
    ensures k + 1 < ChunkCount(to - from, size) ==>
              from + k * size + size < to && from + (k + 1) * size == from + k * size + size
    ensures k + 1 == ChunkCount(to - from, size) ==> from + k * size == LastStart(from, to, size)
  {
    var count := ChunkCount(to - from, size);
    CountBounds(to - from, size);
    Grows(k, 0, size);
    Grows(count - 1, k, size);
    assert (k + 1) * size == k * size + size;
    if k + 1 < count {
      Grows(count - 1, k + 1, size);
    }
  }

  /** A chunk as the loop computes it, in the index type. */
  function ChunkAt(from: int, to: int, size: nat, k: nat, index: IndexType): Chunk
    requires index.low < index.high
  {
    var start := index.Wrap(from + index.Wrap(k * size));
    Chunk(start, Min(index.Wrap(start + index.Wrap(size)), to))
  }

  /** What the conversions amount to. */
  lemma ChunkIs(from: int, to: int, size: nat, k: nat, index: IndexType)
    requires index.Has(from) && index.Has(to) && from < to && size > 0 && k < ChunkCount(to - from, size)
    ensures ChunkAt(from, to, size, k, index) == Chunk(from + k * size, Min(index.Wrap(from + k * size + size), to))
  {
    StartBounds(from, to, size, k);
    WrapSum(index, from, k * size);
    WrapSum(index, from + k * size, size);
  }

  lemma InnerChunk(from: int, to: int, size: nat, k: nat, index: IndexType)
    requires index.Has(from) && index.Has(to) && from < to && size > 0 && k + 1 < ChunkCount(to - from, size)
    ensures ChunkAt(from, to, size, k, index) == Chunk(from + k * size, from + (k + 1) * size)
    ensures from + (k + 1) * size < to
  {
    StartBounds(from, to, size, k);
    ChunkIs(from, to, size, k, index);
  }

  lemma LastChunk(from: int, to: int, size: nat, k: nat, index: IndexType)
    requires index.Has(from) && index.Has(to) && from < to && size > 0 && k + 1 == ChunkCount(to - from, size)
    ensures var c := ChunkAt(from, to, size, k, index);
            c.start == from + k * size < to && c.end <= to && (c.end == to <==> Representable(from, to, size, index))
  {
    StartBounds(from, to, size, k);
    ChunkIs(from, to, size, k, index);
  }

  function FirstChunks(from: int, to: int, size: nat, k: nat, index: IndexType): (chunks: seq<Chunk>)
    requires index.low < index.high
    ensures |chunks| == k
  {
    if k == 0 then [] else FirstChunks(from, to, size, k - 1, index) + [ChunkAt(from, to, size, k - 1, index)]
  }

  lemma {:induction false} InnerChunksTile(from: int, to: int, size: nat, k: nat, index: IndexType)
    requires index.Has(from) && index.Has(to) && from < to && size > 0 && k < ChunkCount(to - from, size)
    ensures from + k * size < to && Tiles(FirstChunks(from, to, size, k, index), from, from + k * size)
    ensures forall j :: 0 <= j < k ==> FirstChunks(from, to, size, k, index)[j].end < to
  {
    StartBounds(from, to, size, k);
    if k > 0 {
      InnerChunksTile(from, to, size, k - 1, index);
      InnerChunk(from, to, size, k - 1, index);
      TilesSnoc(FirstChunks(from, to, size, k - 1, index), from, ChunkAt(from, to, size, k - 1, index));
    }
  }

  lemma TilesSnoc(chunks: seq<Chunk>, from: int, c: Chunk)
    ensures Tiles(chunks + [c], from, c.end) <==> c.start < c.end && Tiles(chunks, from, c.start)
  {
    assert (chunks + [c])[..|chunks|] == chunks;
  }

  lemma LastTiles(inner: seq<Chunk>, c: Chunk, from: int, to: int)
    requires Tiles(inner, from, c.start) && c.start < to && c.end <= to
    requires forall j :: 0 <= j < |inner| ==> inner[j].end < to
    ensures Tiles(inner + [c], from, to) <==> c.end == to
    ensures c.end != to ==> forall j :: 0 <= j < |inner + [c]| ==> (inner + [c])[j].end < to
  {
    TilesSnoc(inner, from, c);
    assert (inner + [c])[|inner|] == c;
  }

  /**
   The chunks are exactly right if and only if the end of the last one, computed in the index type,
   reaches the end of the loop; otherwise the last index is in no chunk.
   */
  lemma ChunksTile(from: int, to: int, size: nat, index: IndexType)
    requires index.Has(from) && index.Has(to) && from < to && size > 0
    ensures var chunks := FirstChunks(from, to, size, ChunkCount(to - from, size), index);
            && (Tiles(chunks, from, to) <==> Representable(from, to, size, index))
            && (!Tiles(chunks, from, to) ==> forall j :: 0 <= j < |chunks| ==> chunks[j].end < to)
  {
    var count := ChunkCount(to - from, size);
    CountBounds(to - from, size);
    InnerChunksTile(from, to, size, count - 1, index);
    LastChunk(from, to, size, count - 1, index);
    LastTiles(FirstChunks(from, to, size, count - 1, index), ChunkAt(from, to, size, count - 1, index), from, to);
  }

  lemma {:induction false} FirstChunksAt(from: int, to: int, size: nat, k: nat, index: IndexType, j: nat)
    requires index.low < index.high && j < k
    ensures FirstChunks(from, to, size, k, index)[j] == ChunkAt(from, to, size, j, index)
  {
    if j < k - 1 {
      FirstChunksAt(from, to, size, k - 1, index, j);
    }
  }

  /** Every chunk starts a whole number of sizes after `from`, and all but the last are of that size. */
  ghost predicate Regular(chunks: seq<Chunk>, from: int, size: nat) {
    && (forall k :: 0 <= k < |chunks| ==> chunks[k].start == from + k * size)
    && (forall k :: 0 <= k < |chunks| - 1 ==> chunks[k].end == chunks[k].start + size)
  }

  lemma ChunksAreRegular(from: int, to: int, size: nat, index: IndexType)
    requires index.Has(from) && index.Has(to) && from < to && size > 0
    ensures Regular(FirstChunks(from, to, size, ChunkCount(to - from, size), index), from, size)
  {
    var count := ChunkCount(to - from, size);
    var chunks := FirstChunks(from, to, size, count, index);
    forall k | 0 <= k < count
      ensures chunks[k].start == from + k * size && (k < count - 1 ==> chunks[k].end == chunks[k].start + size)
    {
      FirstChunksAt(from, to, size, count, index, k);
      ChunkIs(from, to, size, k, index);
      StartBounds(from, to, size, k);
    }
  }

  lemma CutRegularly(chunks: seq<Chunk>, from: int, to: int, size: nat, index: IndexType)
    requires index.Has(from) && index.Has(to) && from < to && size > 0
    requires chunks == FirstChunks(from, to, size, ChunkCount(to - from, size), index)
    ensures Regular(chunks, from, size) && (|chunks| - 1) * size < to - from <= |chunks| * size
  {
    CountBounds(to - from, size);
    ChunksAreRegular(from, to, size, index);
  }

  /**
   Cutting the chunks, with every index converted to the index type. The chunks are of the fixed size,
   or by default of the number of iterations by the number of threads.
   */
  method Cut(from: int, to: int, threads: nat, fixed: int, index: IndexType) returns (chunks: seq<Chunk>)
    requires index.Has(from) && index.Has(to) && from < to && fixed != 0 && (fixed < 0 ==> threads > 0)
    ensures var size := if fixed > 0 then fixed else Max(1, (to - from) / threads);
            Regular(chunks, from, size) && (|chunks| - 1) * size < to - from <= |chunks| * size
    ensures Tiles(chunks, from, to) <==> Representable(from, to, ChunkSize(to - from, threads, fixed), index)
    ensures !Tiles(chunks, from, to) ==> forall k :: 0 <= k < |chunks| ==> chunks[k].end < to
  {
    var n := to - from;
    var size := fixed;
    if size < 0 {
      size := Max(1, n / threads);
    }
    var count := (n + size - 1) / size;
    CountBounds(n, size);
    chunks := CutInto(from, to, size, count, index);
    CutRegularly(chunks, from, to, size, index);
    ChunksTile(from, to, size, index);
  }

  /** The loop itself. */
  method CutInto(from: int, to: int, size: nat, count: nat, index: IndexType) returns (chunks: seq<Chunk>)
    requires index.low < index.high
    ensures chunks == FirstChunks(from, to, size, count, index)
  {
    chunks := [];
    for k := 0 to count
      invariant chunks == FirstChunks(from, to, size, k, index)
    {
      var start := index.Wrap(from + index.Wrap(k * size));
      var end := Min(index.Wrap(start + index.Wrap(size)), to);
      chunks := chunks + [Chunk(start, end)];
    }
  }

  // ----- The default size -----

  /** At most 2p - 1 chunks for p threads with the default size. */
  lemma DefaultChunkCount(n: nat, threads: nat)
    requires n > 0 && threads > 0
    ensures ChunkCount(n, ChunkSize(n, threads, -1)) <= 2 * threads - 1
  {
    var size := ChunkSize(n, threads, -1);
    var count := ChunkCount(n, size);
    DivBounds(n, threads);
    CountBounds(n, size);
    if n / threads >= 1 {
      assert n < size * threads + threads;
      assert (count - 1) * size < size * threads + threads;
      if count >= 2 * threads {
        Grows(count - 1, 2 * threads - 1, size);
        assert (2 * threads - 1) * size == size * threads + (threads - 1) * size;
        Grows(size, 1, threads - 1);
      }
    } else {
      assert count - 1 < n;
    }
  }

  /** And that many do occur, for every number of threads. */
  lemma DefaultChunkCountIsReached(threads: nat)
    requires threads > 0
    ensures ChunkCount(2 * threads - 1, ChunkSize(2 * threads - 1, threads, -1)) == 2 * threads - 1
  {
    var n := 2 * threads - 1;
    DivBounds(n, threads);
    if n / threads >= 2 {
      Grows(n / threads, 2, threads);
    }
    assert ChunkSize(n, threads, -1) == 1;
    CountBounds(n, 1);
  }

  /** The default size is at most the number of iterations. */
  lemma DefaultFits(n: nat, threads: nat)
    requires n > 0 && threads > 0
    ensures ChunkSize(n, threads, -1) <= n
  {
    DivBounds(n, threads);
    if n / threads >= 1 {
      Grows(threads, 1, n / threads);
    }
  }

  lemma LastReaches(from: int, to: int, size: nat)
    requires from < to && size > 0
    ensures to <= LastStart(from, to, size) + size && LastStart(from, to, size) < to
  {
    CountBounds(to - from, size);
    var count := ChunkCount(to - from, size);
    assert count * size == (count - 1) * size + size;
  }

  /** With the default size the only trouble is an end past the last value of the index type. */
  lemma DefaultIsRepresentable(from: int, to: int, threads: nat, index: IndexType)
    requires index.Has(from) && index.Has(to) && from < to && threads > 0
    ensures var size := ChunkSize(to - from, threads, -1);
            Representable(from, to, size, index) <==> LastStart(from, to, size) + size < index.high
  {
    var size := ChunkSize(to - from, threads, -1);
    var end := LastStart(from, to, size) + size;
    DefaultFits(to - from, threads);
    LastReaches(from, to, size);
    if end >= index.high {
      WrapShifts(index, end - (index.high - index.low));
    }
  }

  // ----- Running the chunk tasks -----

  ghost function Covers(i: int): Chunk -> nat {
    (c: Chunk) => if c.start <= i < c.end then 1 else 0
  }

  lemma {:induction false} TilesCover(chunks: seq<Chunk>, from: int, to: int, i: int)
    requires Tiles(chunks, from, to)
    ensures from <= to && Total(chunks, Covers(i)) == if from <= i < to then 1 else 0
  {
    if chunks != [] {
      TilesCover(chunks[..|chunks| - 1], from, chunks[|chunks| - 1].start, i);
    }
  }

  /**
   The tasks of the chunks: `created` of them exist, `done[k]` is the part of chunk `k` that task
   `k` has been through, `awaited` of them have been awaited in order, `log` lists the invocations.
   */
  datatype Run = Run(chunks: seq<Chunk>, created: nat, done: seq<Chunk>, awaited: nat, log: seq<int>)

  datatype Action = Create | Work(task: nat) | AwaitNext

  function Start(chunks: seq<Chunk>): Run {
    Run(chunks, 0, seq(|chunks|, k requires 0 <= k < |chunks| => Chunk(chunks[k].start, chunks[k].start)), 0, [])
  }

  predicate TaskOver(r: Run, k: nat)
    requires k < |r.chunks| == |r.done|
  {
    r.done[k].end >= r.chunks[k].end
  }

  function Step(r: Run, a: Action): (r': Run)
    requires |r.done| == |r.chunks|
    ensures |r'.done| == |r'.chunks| && r'.chunks == r.chunks
  {
    match a
    case Create => if r.created < |r.chunks| then r.(created := r.created + 1) else r
    case Work(k) =>
      if k >= r.created || k >= |r.chunks| || TaskOver(r, k) then r
      else r.(done := r.done[k := Chunk(r.done[k].start, r.done[k].end + 1)], log := r.log + [r.done[k].end])
    case AwaitNext =>
      if r.created == |r.chunks| && r.awaited < |r.chunks| && TaskOver(r, r.awaited) then r.(awaited := r.awaited + 1)
      else r
  }

  function Exec(r: Run, acts: seq<Action>): (r': Run)
    requires |r.done| == |r.chunks|
    ensures |r'.done| == |r'.chunks| && r'.chunks == r.chunks
  {
    if acts == [] then r else Step(Exec(r, acts[..|acts| - 1]), acts[|acts| - 1])
  }

  ghost predicate RunFits(r: Run) {
    && |r.done| == |r.chunks| && r.awaited <= |r.chunks|
    && (forall k :: 0 <= k < |r.chunks| ==>
          r.done[k].start == r.chunks[k].start &&
          (r.done[k].end <= r.chunks[k].end || r.done[k].end == r.done[k].start))
    && (forall k :: 0 <= k < |r.chunks| ==> r.done[k].start <= r.done[k].end)
    && (forall k :: 0 <= k < r.awaited ==> TaskOver(r, k))
    && (forall i :: Times(r.log, i) == Total(r.done, Covers(i)))
  }

  lemma StepKeepsFits(r: Run, a: Action)
    requires RunFits(r)
    ensures RunFits(Step(r, a))
  {
    var r' := Step(r, a);
    forall k | 0 <= k < r'.awaited ensures TaskOver(r', k) {
      assert k < r.awaited ==> TaskOver(r, k);
    }
    if r' != r && a.Work? {
      var k := a.task;
      forall i ensures Times(r'.log, i) == Total(r'.done, Covers(i)) {
        assert Times(r.log, i) == Total(r.done, Covers(i));
        assert r'.log[..|r.log|] == r.log;
        TotalUpdate(r.done, k, r'.done[k], Covers(i));
      }
    }
  }

  lemma {:induction false} RunFitsAlways(chunks: seq<Chunk>, acts: seq<Action>)
    ensures RunFits(Exec(Start(chunks), acts))
  {
    if acts == [] {
      forall i ensures Total(Start(chunks).done, Covers(i)) == 0 {
        TotalZero(Start(chunks).done, Covers(i));
      }
    } else {
      RunFitsAlways(chunks, acts[..|acts| - 1]);
      StepKeepsFits(Exec(Start(chunks), acts[..|acts| - 1]), acts[|acts| - 1]);
    }
  }

  lemma {:induction false} PartsCoverLess(done: seq<Chunk>, chunks: seq<Chunk>, i: int)
    requires |done| == |chunks|
    requires forall k :: 0 <= k < |chunks| ==>
      done[k].start == chunks[k].start && (done[k].end <= chunks[k].end || done[k].end == done[k].start)
    ensures Total(done, Covers(i)) <= Total(chunks, Covers(i))
    ensures (forall k :: 0 <= k < |chunks| ==> done[k].end >= chunks[k].end) ==>
              Total(done, Covers(i)) == Total(chunks, Covers(i))
  {
    if chunks != [] {
      PartsCoverLess(done[..|done| - 1], chunks[..|chunks| - 1], i);
    }
  }

  /**
   In any schedule no index is ever invoked twice or outside the loop's range, and
   when the last task has been awaited every index has been invoked exactly once.
   */
  lemma EachIndexOnce(chunks: seq<Chunk>, from: int, to: int, acts: seq<Action>, i: int)
    requires Tiles(chunks, from, to)
    ensures var r := Exec(Start(chunks), acts);
            && Times(r.log, i) <= (if from <= i < to then 1 else 0)
            && (r.awaited == |chunks| ==> Times(r.log, i) == if from <= i < to then 1 else 0)
  {
    RunFitsAlways(chunks, acts);
    TilesCover(chunks, from, to, i);
    var r := Exec(Start(chunks), acts);
    PartsCoverLess(r.done, chunks, i);
    if r.awaited == |chunks| {
      forall k | 0 <= k < |chunks| ensures r.done[k].end >= chunks[k].end {
        assert TaskOver(r, k);
      }
    }
  }

  /** Where the chunks do not come out right, no schedule ever invokes the last index. */
  lemma LastIndexIsLost(from: int, to: int, size: nat, index: IndexType, acts: seq<Action>)
    requires index.Has(from) && index.Has(to) && from < to && size > 0 && !Representable(from, to, size, index)
    ensures Times(Exec(Start(FirstChunks(from, to, size, ChunkCount(to - from, size), index)), acts).log, to - 1) == 0
  {
    var chunks := FirstChunks(from, to, size, ChunkCount(to - from, size), index);
    ChunksTile(from, to, size, index);
    RunFitsAlways(chunks, acts);
    TotalZero(chunks, Covers(to - 1));
    PartsCoverLess(Exec(Start(chunks), acts).done, chunks, to - 1);
  }

  /** It happens with the default size: on 3 threads the last of 250 iterations in an unsigned 8-bit index is lost. */
  lemma LosesIndex249(acts: seq<Action>)
    ensures var size := ChunkSize(250, 3, -1);
            && !Representable(0, 250, size, IndexType(0, 256))
            && Times(Exec(Start(FirstChunks(0, 250, size, ChunkCount(250, size), IndexType(0, 256))), acts).log,
                     249) == 0
  {
    assert ChunkSize(250, 3, -1) == 83 && LastStart(0, 250, 83) == 249;
    LastIndexIsLost(0, 250, 83, IndexType(0, 256), acts);
  }

  /** And in a signed one the last of the 230 from -110. */
  lemma LosesIndex119(acts: seq<Action>)
    ensures var size := ChunkSize(230, 3, -1);
            && !Representable(-110, 120, size, IndexType(-128, 128))
            && Times(Exec(Start(FirstChunks(-110, 120, size, ChunkCount(230, size), IndexType(-128, 128))), acts).log,
                     119) == 0
  {
    assert ChunkSize(230, 3, -1) == 76 && LastStart(-110, 120, 76) == 118;
    LastIndexIsLost(-110, 120, 76, IndexType(-128, 128), acts);
  }

  // ----- The loop comes to its end -----

  /** How many iterations a chunk task still has to go. */
  function ToGo(r: Run, k: nat): nat
    requires k < |r.chunks| == |r.done|
  {
    Max(0, r.chunks[k].end - r.done[k].end)
  }

  function AllToGo(r: Run, k: nat): nat
    requires k <= |r.chunks| == |r.done|
  {
    if k == 0 then 0 else AllToGo(r, k - 1) + ToGo(r, k - 1)
  }

  /** How many effective actions are left. */
  function Left(r: Run): int
    requires |r.chunks| == |r.done|
  {
    |r.chunks| - r.created + AllToGo(r, |r.chunks|) + |r.chunks| - r.awaited
  }

  lemma {:induction false} OneLess(r: Run, r': Run, i: nat, k: nat)
    requires |r.chunks| == |r.done| == |r'.done| && r'.chunks == r.chunks && k <= |r.chunks|
    requires i < |r.chunks| && r'.done == r.done[i := r'.done[i]] && ToGo(r', i) + 1 == ToGo(r, i)
    ensures AllToGo(r', k) + (if i < k then 1 else 0) == AllToGo(r, k)
  {
    if k > 0 {
      OneLess(r, r', i, k - 1);
    }
  }

  lemma {:induction false} SameToGo(r: Run, r': Run, k: nat)
    requires |r.chunks| == |r.done| && r'.chunks == r.chunks && r'.done == r.done && k <= |r.chunks|
    ensures AllToGo(r', k) == AllToGo(r, k)
  {
    if k > 0 {
      SameToGo(r, r', k - 1);
    }
  }

  ghost predicate CountsFit(r: Run) {
    && RunFits(r) && r.created <= |r.chunks|
    && (r.awaited > 0 ==> r.created == |r.chunks|)
    && (forall k :: r.created <= k < |r.chunks| ==> r.done[k].end == r.done[k].start)
  }

  /** Every action that changes anything brings the loop nearer to its end. */
  lemma StepsCount(r: Run, a: Action)
    requires CountsFit(r)
    ensures CountsFit(Step(r, a)) && 0 <= Left(Step(r, a)) && (Step(r, a) != r ==> Left(Step(r, a)) < Left(r))
  {
    StepKeepsFits(r, a);
    var r' := Step(r, a);
    if r' == r {
    } else if a.Work? {
      OneLess(r, r', a.task, |r.chunks|);
    } else {
      SameToGo(r, r', |r.chunks|);
    }
  }

  /** As long as a task has not been awaited, some action changes something. */
  lemma SomethingToDo(r: Run) returns (a: Action)
    requires CountsFit(r) && r.awaited < |r.chunks|
    ensures Step(r, a) != r
  {
    a := if r.created < |r.chunks| then Create else if TaskOver(r, r.awaited) then AwaitNext else Work(r.awaited);
    if a.Work? {
      assert Step(r, a).log == r.log + [r.done[r.awaited].end];
    }
  }

  lemma {:induction false} RunCountsFit(chunks: seq<Chunk>, acts: seq<Action>)
    ensures CountsFit(Exec(Start(chunks), acts))
  {
    RunFitsAlways(chunks, acts);
    if acts != [] {
      RunCountsFit(chunks, acts[..|acts| - 1]);
      StepsCount(Exec(Start(chunks), acts[..|acts| - 1]), acts[|acts| - 1]);
    }
  }

  function Creations(acts: seq<Action>): nat {
    if acts == [] then 0 else Creations(acts[..|acts| - 1]) + if acts[|acts| - 1].Create? then 1 else 0
  }

  /**
   The tasks are created one by one; none invokes anything before it is created, and none is awaited
   before all are created.
   */
  lemma {:induction false} CreatedFirst(chunks: seq<Chunk>, acts: seq<Action>, k: nat)
    requires k < |chunks|
    ensures var r := Exec(Start(chunks), acts);
            && r.created == Min(|chunks|, Creations(acts))
            && (r.awaited > 0 ==> r.created == |chunks|)
            && (k >= r.created ==> r.done[k] == Chunk(chunks[k].start, chunks[k].start))
  {
    RunCountsFit(chunks, acts);
    if acts != [] {
      CreatedFirst(chunks, acts[..|acts| - 1], k);
    }
  }

  lemma {:induction false} Finishes(r: Run, more: seq<Action>) returns (all: seq<Action>)
    requires |r.done| == |r.chunks| && CountsFit(Exec(r, more)) && 0 <= Left(Exec(r, more))
    ensures more <= all && Exec(r, all).awaited == |r.chunks|
    decreases Left(Exec(r, more))
  {
    var now := Exec(r, more);
    all := more;
    if now.awaited < |r.chunks| {
      var a := SomethingToDo(now);
      StepsCount(now, a);
      assert (more + [a])[..|more|] == more;
      all := Finishes(r, more + [a]);
    }
  }

  /** Every run can be carried on until all tasks have been awaited. */
  lemma EveryRunCanFinish(chunks: seq<Chunk>, acts: seq<Action>) returns (all: seq<Action>)
    ensures acts <= all && Exec(Start(chunks), all).awaited == |chunks|
  {
    RunCountsFit(chunks, acts);
    StepsCount(Exec(Start(chunks), acts), Create);
    LeftIsNatural(Exec(Start(chunks), acts));
    all := Finishes(Start(chunks), acts);
  }

  lemma LeftIsNatural(r: Run)
    requires CountsFit(r)
    ensures 0 <= Left(r)
  {
  }

  /** A run in which no action changes anything any more has awaited every task and invoked every index once. */
  lemma QuietIsComplete(chunks: seq<Chunk>, from: int, to: int, acts: seq<Action>, i: int)
    requires Tiles(chunks, from, to)
    requires forall a :: Step(Exec(Start(chunks), acts), a) == Exec(Start(chunks), acts)
    ensures Exec(Start(chunks), acts).awaited == |chunks|
    ensures Times(Exec(Start(chunks), acts).log, i) == if from <= i < to then 1 else 0
  {
    RunCountsFit(chunks, acts);
    if Exec(Start(chunks), acts).awaited < |chunks| {
      var a := SomethingToDo(Exec(Start(chunks), acts));
      assert false;
    }
    EachIndexOnce(chunks, from, to, acts, i);
  }

  // ----- One chunk task -----

  /** The indices of a chunk, in order. */
  function Indices(c: Chunk): (q: seq<int>)
    ensures |q| == Max(0, c.end - c.start)
  {
    seq(Max(0, c.end - c.start), j requires 0 <= j => c.start + j)
  }

  function Works(k: nat, n: nat): seq<Action> {
    seq(n, _ => Work(k))
  }

  /** A chunk task that runs by itself from its beginning invokes the indices of its chunk and is over. */
  lemma {:induction false} TaskAlone(r: Run, k: nat, n: nat)
    requires |r.done| == |r.chunks| && k < |r.chunks| && k < r.created && n <= |Indices(r.chunks[k])|
    requires r.done[k] == Chunk(r.chunks[k].start, r.chunks[k].start)
    ensures var r' := Exec(r, Works(k, n));
            && r'.log == r.log + Indices(r.chunks[k])[..n] && r'.created == r.created
            && r'.done == r.done[k := Chunk(r.chunks[k].start, r.chunks[k].start + n)]
            && (TaskOver(r', k) <==> n == |Indices(r.chunks[k])|)
  {
    if n > 0 {
      assert Works(k, n)[..n - 1] == Works(k, n - 1);
      TaskAlone(r, k, n - 1);
      assert Indices(r.chunks[k])[..n] == Indices(r.chunks[k])[..n - 1] + [r.chunks[k].start + n - 1];
    }
  }

  /** The body of one chunk task. */
  method RunChunk(c: Chunk) returns (log: seq<int>)
    ensures log == Indices(c)
  {
    log := [];
    var i := c.start;
    while i < c.end
      invariant c.start <= i <= Max(c.start, c.end) && log == Indices(c)[..i - c.start]
    {
      log := log + [i];
      i := i + 1;
    }
  }
}
