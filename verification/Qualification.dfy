/**
 One request's arithmetic qualification: before the first sparse call of a kind, the
 kernel is run on all rows with every key a sink key and compared with the dense
 reference, in chunks of query rows.

 The kernel and the dense reference are whatever the provider runs; nothing is assumed of
 them but the length of their results, unless a lemma says so.
*/
module Qualification {
  import opened Basics
  import opened GateStatistics
  import opened SparseAttention

  datatype Provider = Provider(
    kernel: Call -> seq<real>,
    dense: (seq<Vector>, seq<Vector>, seq<real>, Option<seq<real>>) -> seq<real>,
    root: real -> real)
  {
    function DenseOf(c: Call): seq<real> { dense(c.q, c.k, c.v, c.bias) }

    ghost predicate KernelShape(c: Call) { |kernel(c)| == |c.q| }
    ghost predicate DenseShape(q: seq<Vector>, k: seq<Vector>, v: seq<real>, bias: Option<seq<real>>) { |dense(q, k, v, bias)| == |q| }

    ghost predicate Shaped() {
      (forall c :: KernelShape(c)) && (forall q, k, v, bias :: DenseShape(q, k, v, bias))
    }

    /** Whole tiles of a call give that part of its result. */
    ghost predicate KernelSplits(c: Call, start: nat, stop: nat) {
      c.Ok() && WholeTiles(c, start, stop) ==>
        (c.mapped.Some? ==> (stop + 63) / 64 <= |c.mapped.value|) && kernel(Portion(c, start, stop)) == Slice(kernel(c), start, stop)
    }

    ghost predicate DenseSplits(q: seq<Vector>, k: seq<Vector>, v: seq<real>, bias: Option<seq<real>>, start: nat, stop: nat) {
      k != [] && start <= stop <= |q| ==> dense(q[start..stop], k, v, bias) == Slice(dense(q, k, v, bias), start, stop)
    }

    ghost predicate RowLocal() {
      && (forall c, start: nat, stop: nat :: KernelSplits(c, start, stop))
      && (forall q, k, v, bias, start: nat, stop: nat :: DenseSplits(q, k, v, bias, start, stop))
    }

    /** The provider computes in exact arithmetic. */
    ghost predicate KernelExact(op: Operator, c: Call)
      requires op.Ok()
    {
      c.Ok() ==> kernel(c) == Kernel(op, c)
    }

    ghost predicate DenseExact(op: Operator, q: seq<Vector>, k: seq<Vector>, v: seq<real>, bias: Option<seq<real>>)
      requires op.Ok()
    {
      k != [] ==> dense(q, k, v, bias) == Dense(op, q, k, v, bias)
    }

    ghost predicate Exact(op: Operator) {
      && op.Ok() && root(0.0) == 0.0
      && (forall c :: KernelExact(op, c))
      && (forall q, k, v, bias :: DenseExact(op, q, k, v, bias))
    }
  }

  function Slice<T>(s: seq<T>, start: nat, stop: nat): seq<T> {
    if start <= stop <= |s| then s[start..stop] else []
  }

  // ----- the gate -----

  function Zip(got: seq<real>, want: seq<real>): (s: seq<Sample>)
    requires |got| == |want|
    ensures |s| == |got| && forall i: nat | i < |got| :: s[i] == Sample(got[i], want[i])
  {
    seq(|got|, i requires 0 <= i < |got| => Sample(got[i], want[i]))
  }

  /** The number of query rows in a gate chunk. */
  function GateRows(c: Call): nat { if c.bias.None? then 4096 else 64 }

  function ChunkSamples(p: Provider, c: Call, start: nat, stop: nat): (s: seq<Sample>)
    requires p.Shaped() && c.Ok() && WholeTiles(c, start, stop)
    ensures |s| == stop - start
  {
    PortionIsCall(c, start, stop);
    var part := Portion(c, start, stop);
    assert p.KernelShape(AllSink(part)) && p.DenseShape(part.q, part.k, part.v, part.bias);
    Zip(p.kernel(AllSink(part)), p.DenseOf(part))
  }

  /** All samples of the first n chunks. */
  function GateSamples(p: Provider, c: Call, n: nat): (s: seq<Sample>)
    requires p.Shaped() && c.Ok() && n * GateRows(c) < |c.q| + GateRows(c)
    ensures |s| == Min(n * GateRows(c), |c.q|)
  {
    if n == 0 then []
    else
      ChunkIsWhole(c, n - 1);
      GateSamples(p, c, n - 1) + ChunkSamples(p, c, (n - 1) * GateRows(c), Min(n * GateRows(c), |c.q|))
  }

  /** The first row of chunk n. */
  function Begin(c: Call, n: nat): nat { n * GateRows(c) }

  lemma GateStep(p: Provider, c: Call, n: nat)
    requires p.Shaped() && c.Ok() && Begin(c, n) < |c.q|
    ensures Begin(c, n + 1) == Begin(c, n) + GateRows(c)
    ensures WholeTiles(c, Begin(c, n), Min(Begin(c, n) + GateRows(c), |c.q|))
    ensures n * GateRows(c) < |c.q| + GateRows(c) && (n + 1) * GateRows(c) < |c.q| + GateRows(c)
    ensures GateSamples(p, c, n + 1) == GateSamples(p, c, n) + ChunkSamples(p, c, Begin(c, n), Min(Begin(c, n) + GateRows(c), |c.q|))
  {
    ChunkIsWhole(c, n);
  }

  lemma OneDimension(n: nat)
    ensures Elements([n]) == n
  {
    assert Elements([n][1..]) == 1;
  }

  lemma ChunkIsWhole(c: Call, n: nat)
    requires n * GateRows(c) < |c.q|
    ensures WholeTiles(c, n * GateRows(c), Min((n + 1) * GateRows(c), |c.q|))
    ensures (n + 1) * GateRows(c) == n * GateRows(c) + GateRows(c)
  {
  }

  function Chunks(c: Call): nat
    requires c.Ok()
  {
    (|c.q| + GateRows(c) - 1) / GateRows(c)
  }

  lemma ChunksCover(c: Call)
    requires c.Ok()
    ensures Chunks(c) > 0 && (Chunks(c) - 1) * GateRows(c) < |c.q| <= Chunks(c) * GateRows(c) < |c.q| + GateRows(c)
  {
  }

  function AllSamples(p: Provider, c: Call): (s: seq<Sample>)
    requires p.Shaped() && c.Ok()
    ensures |s| == |c.q|
  {
    ChunksCover(c);
    GateSamples(p, c, Chunks(c))
  }

  /** The gate's verdict on a call, over every one of its rows. */
  predicate Qualifies(p: Provider, c: Call)
    requires p.Shaped() && c.Ok()
  {
    Passes(StatsOf(AllSamples(p, c)), |c.q|, p.root)
  }

  /** error_metrics: the statistics of one pair of outputs. */
  method ErrorMetrics(data: seq<Sample>, fused: bool) returns (s: Stats)
    requires data != []
    ensures s == StatsOf(data)
  {
    hide StatsOf;
    if |data| > TILE {
      var accumulator := new ErrorAccumulator();
      var _ := accumulator.Add(data, [|data|], fused);
      s := accumulator.Statistics();
      assert [] + data == data;
    } else {
      s := StatsOf(data);
    }
  }

  /** The gate loop: chunk by chunk, one accumulator for all chunks if there are several. */
  method Gate(p: Provider, c: Call, fused: bool) returns (passed: bool)
    requires p.Shaped() && c.Ok()
    ensures passed == Qualifies(p, c)
  {
    hide StatsOf, Passes, GateSamples, ChunkSamples, Chunks, Provider.Shaped, WholeTiles, Begin, Elements, ErrorAccumulator.Valid, Min;
    GateStarts(p, c);
    var rows := GateRows(c);
    var accumulator := new ErrorAccumulator();
    var stats := ZERO;
    ghost var n := 0;
    ghost var seen: seq<Sample> := [];
    var start := 0;
    while start < |c.q|
      invariant start == Begin(c, n) < |c.q| + rows && accumulator.Valid()
      invariant seen == SamplesUpTo(p, c, n) && accumulator.seen == if |c.q| > rows then seen else []
      invariant |c.q| <= rows ==> (n == 0 && start == 0) || (start == rows && stats == StatsOf(seen))
      decreases |c.q| + rows - start
    {
      var stop := Min(start + rows, |c.q|);
      GateStep(p, c, n);
      SamplesGrow(p, c, n);
      var data := ChunkSamples(p, c, start, stop);
      if |c.q| > rows {
        OneDimension(|data|);
        var _ := accumulator.Add(data, [|data|], fused);
      } else {
        assert seen + data == data;
        ChunkIsNotEmpty(c, start, stop);
        stats := ErrorMetrics(data, fused);
      }
      start := start + rows;
      n := n + 1;
      seen := seen + data;
    }
    GateEnds(p, c, n);
    if |c.q| > rows { stats := accumulator.Statistics(); }
    passed := Passes(stats, |c.q|, p.root);
  }

  /** The samples of the first n chunks, as far as there are so many. */
  function SamplesUpTo(p: Provider, c: Call, n: nat): seq<Sample>
    requires p.Shaped() && c.Ok()
  {
    if n * GateRows(c) < |c.q| + GateRows(c) then GateSamples(p, c, n) else []
  }

  lemma GateStarts(p: Provider, c: Call)
    requires p.Shaped() && c.Ok()
    ensures Begin(c, 0) == 0 && SamplesUpTo(p, c, 0) == [] && |c.q| > 0 && GateRows(c) > 0
  {
  }

  lemma SamplesGrow(p: Provider, c: Call, n: nat)
    requires p.Shaped() && c.Ok() && Begin(c, n) < |c.q|
    requires WholeTiles(c, Begin(c, n), Min(Begin(c, n) + GateRows(c), |c.q|))
    ensures SamplesUpTo(p, c, n + 1) == SamplesUpTo(p, c, n) + ChunkSamples(p, c, Begin(c, n), Min(Begin(c, n) + GateRows(c), |c.q|))
  {
    GateStep(p, c, n);
  }

  lemma ChunkIsNotEmpty(c: Call, start: nat, stop: nat)
    requires WholeTiles(c, start, stop)
    ensures stop - start > 0
  {
  }

  lemma GateEnds(p: Provider, c: Call, n: nat)
    requires p.Shaped() && c.Ok() && |c.q| <= Begin(c, n) < |c.q| + GateRows(c)
    ensures SamplesUpTo(p, c, n) == AllSamples(p, c)
  {
    ChunksCover(c);
    ChunkCount(c, n);
  }

  lemma ChunkCount(c: Call, n: nat)
    requires c.Ok() && |c.q| <= n * GateRows(c) < |c.q| + GateRows(c)
    ensures n == Chunks(c)
  {
  }

  // ----- what the gate's verdict means -----

  /** The chunk that holds row i: its first row and the row after its last. */
  function ChunkStart(c: Call, i: nat): nat { if c.bias.None? then i / 4096 * 4096 else i / 64 * 64 }
  function ChunkStop(c: Call, i: nat): nat {
    Min(ChunkStart(c, i) + GateRows(c), |c.q|)
  }

  lemma InLastChunk(c: Call, n: nat, i: nat)
    requires n > 0 && (n - 1) * GateRows(c) <= i < Min(n * GateRows(c), |c.q|)
    ensures ChunkStart(c, i) == (n - 1) * GateRows(c) && ChunkStop(c, i) == Min(n * GateRows(c), |c.q|)
    ensures WholeTiles(c, ChunkStart(c, i), ChunkStop(c, i)) && ChunkStart(c, i) <= i < ChunkStop(c, i)
  {
    ChunkIsWhole(c, n - 1);
    if c.bias.None? { assert i / 4096 == n - 1; } else { assert i / 64 == n - 1; }
  }

  lemma {:induction false} SampleInChunk(p: Provider, c: Call, n: nat, i: nat)
    requires p.Shaped() && c.Ok() && n * GateRows(c) < |c.q| + GateRows(c) && i < |GateSamples(p, c, n)|
    ensures WholeTiles(c, ChunkStart(c, i), ChunkStop(c, i)) && ChunkStart(c, i) <= i < ChunkStop(c, i)
    ensures GateSamples(p, c, n)[i] == ChunkSamples(p, c, ChunkStart(c, i), ChunkStop(c, i))[i - ChunkStart(c, i)]
    decreases n
  {
    hide Provider.Shaped, WholeTiles, ChunkSamples, ChunkStart, ChunkStop, GateRows;
    ChunkIsWhole(c, n - 1);
    var before := GateSamples(p, c, n - 1);
    if i < |before| { SampleInChunk(p, c, n - 1, i); } else { InLastChunk(c, n, i); }
  }

  /** The two numbers that the gate compares for row i: from the kernel on the row's chunk, with
      every key a sink key and the chunk's own part of the intervals and origin, and from the
      dense reference on the same queries. */
  lemma SampleOfRow(p: Provider, c: Call, i: nat) returns (start: nat, stop: nat, part: Call)
    requires p.Shaped() && c.Ok() && i < |c.q|
    ensures start == (if c.bias.None? then i / 4096 * 4096 else i / 64 * 64) && start <= i < stop <= |c.q|
    ensures stop == (if c.bias.None? then (if start + 4096 < |c.q| then start + 4096 else |c.q|) else if start + 64 < |c.q| then start + 64 else |c.q|)
    ensures part.q == c.q[start..stop] && part.k == c.k && part.v == c.v && part.bias == c.bias
    ensures part.queryStart == c.queryStart + start && part.sinkStart == 0 && part.sinkTokens == |c.k|
    ensures c.mapped.Some? ==> start / 64 <= (stop + 63) / 64 <= |c.mapped.value| && part.mapped == Some(c.mapped.value[start / 64..(stop + 63) / 64])
    ensures c.mapped.None? ==> part.mapped.None?
    ensures |p.kernel(part)| == |p.dense(part.q, c.k, c.v, c.bias)| == stop - start
    ensures AllSamples(p, c)[i].got == p.kernel(part)[i - start] && AllSamples(p, c)[i].want == p.dense(part.q, c.k, c.v, c.bias)[i - start]
  {
    ChunksCover(c);
    SampleInChunk(p, c, Chunks(c), i);
    PortionIsCall(c, ChunkStart(c, i), ChunkStop(c, i));
    start, stop := ChunkStart(c, i), ChunkStop(c, i);
    part := AllSink(Portion(c, start, stop));
    assert p.KernelShape(part) && p.DenseShape(part.q, part.k, part.v, part.bias);
  }

  /** A call qualifies exactly if, over all its rows, the errors are at most 0.002 on average, the
      root of their squares is at most 0.005 of that of the references' squares, and no error
      exceeds both 0.5 and four times every reference. */
  lemma QualifiesExactly(p: Provider, c: Call, s: seq<Sample>, absolute: nat -> real, square: nat -> real, reference: nat -> real)
    requires p.Shaped() && c.Ok() && s == AllSamples(p, c) && absolute(0) == square(0) == reference(0) == 0.0
    requires forall i: nat {:trigger s[i]} | i < |s| ::
               && absolute(i + 1) == absolute(i) + (if s[i].got < s[i].want then s[i].want - s[i].got else s[i].got - s[i].want)
               && square(i + 1) == square(i) + (s[i].got - s[i].want) * (s[i].got - s[i].want)
               && reference(i + 1) == reference(i) + s[i].want * s[i].want
    requires forall y {:trigger p.root(y)} | y >= 0.0 :: p.root(y) >= 0.0 && p.root(y) * p.root(y) == y
    ensures Qualifies(p, c) <==>
              && absolute(|c.q|) <= 0.002 * |c.q| as real
              && square(|c.q|) <= 0.005 * 0.005 *
                   (if reference(|c.q|) < 0.000000000001 * 0.000000000001 then 0.000000000001 * 0.000000000001 else reference(|c.q|))
              && forall i: nat | i < |s| ::
                   || -0.5 <= s[i].got - s[i].want <= 0.5
                   || exists k: nat :: k < |s| && (-4.0 * s[k].want <= s[i].got - s[i].want <= 4.0 * s[k].want
                                                   || 4.0 * s[k].want <= s[i].got - s[i].want <= -4.0 * s[k].want)
  {
    PassesExactly(s, p.root, absolute, square, reference);
    hide Passes;
  }

  lemma {:induction false} SamplesAreWhole(p: Provider, c: Call, n: nat)
    requires p.Shaped() && p.RowLocal() && c.Ok() && n * GateRows(c) < |c.q| + GateRows(c)
    ensures |p.kernel(AllSink(c))| == |p.DenseOf(c)| == |c.q|
    ensures GateSamples(p, c, n) == Zip(p.kernel(AllSink(c)), p.DenseOf(c))[..Min(n * GateRows(c), |c.q|)]
  {
    assert p.KernelShape(AllSink(c)) && p.DenseShape(c.q, c.k, c.v, c.bias);
    hide Provider.Shaped, Provider.RowLocal, WholeTiles, ChunkSamples;
    if n > 0 {
      SamplesAreWhole(p, c, n - 1);
      ChunkIsWhole(c, n - 1);
      var a, b := (n - 1) * GateRows(c), Min(n * GateRows(c), |c.q|);
      ChunkIsSlice(p, c, a, b);
      var all := Zip(p.kernel(AllSink(c)), p.DenseOf(c));
      assert all[..a] + all[a..b] == all[..b];
    }
  }

  lemma ChunkIsSlice(p: Provider, c: Call, start: nat, stop: nat)
    requires p.Shaped() && p.RowLocal() && c.Ok() && WholeTiles(c, start, stop)
    requires |p.kernel(AllSink(c))| == |p.DenseOf(c)| == |c.q|
    ensures ChunkSamples(p, c, start, stop) == Zip(p.kernel(AllSink(c)), p.DenseOf(c))[start..stop]
  {
    PortionIsCall(c, start, stop);
    assert p.KernelSplits(AllSink(c), start, stop);
    assert p.DenseSplits(c.q, c.k, c.v, c.bias, start, stop);
    assert Portion(AllSink(c), start, stop) == AllSink(Portion(c, start, stop));
  }

  /** Chunking does not matter: the verdict is that of one comparison of the whole outputs. */
  lemma VerdictIsWhole(p: Provider, c: Call)
    requires p.Shaped() && p.RowLocal() && c.Ok()
    ensures |p.kernel(AllSink(c))| == |p.DenseOf(c)| == |c.q|
    ensures Qualifies(p, c) <==> Passes(StatsOf(Zip(p.kernel(AllSink(c)), p.DenseOf(c))), |c.q|, p.root)
  {
    ChunksCover(c);
    SamplesAreWhole(p, c, Chunks(c));
    var all := Zip(p.kernel(AllSink(c)), p.DenseOf(c));
    assert all[..|c.q|] == all;
  }

  /** In exact arithmetic the provider splits by whole tiles... */
  lemma ExactIsRowLocal(op: Operator, p: Provider)
    requires p.Exact(op) && p.Shaped()
    ensures p.RowLocal()
  {
    forall c: Call, start: nat, stop: nat ensures p.KernelSplits(c, start, stop) {
      if c.Ok() && WholeTiles(c, start, stop) {
        PortionIsSlice(op, c, start, stop);
        assert p.KernelExact(op, c) && p.KernelExact(op, Portion(c, start, stop));
      }
    }
    forall q, k, v, bias, start: nat, stop: nat ensures p.DenseSplits(q, k, v, bias, start, stop) {
      if k != [] && start <= stop <= |q| {
        assert p.DenseExact(op, q, k, v, bias) && p.DenseExact(op, q[start..stop], k, v, bias);
        DenseSlice(op, q, k, v, bias, start, stop);
      }
    }
  }

  lemma DenseSlice(op: Operator, q: seq<Vector>, k: seq<Vector>, v: seq<real>, bias: Option<seq<real>>, start: nat, stop: nat)
    requires op.Ok() && k != [] && start <= stop <= |q|
    ensures Dense(op, q[start..stop], k, v, bias) == Dense(op, q, k, v, bias)[start..stop]
  {
  }

  /** ... and every call passes the gate. */
  lemma ExactQualifies(op: Operator, p: Provider, c: Call)
    requires p.Exact(op) && p.Shaped() && c.Ok()
    ensures Qualifies(p, c)
  {
    ChunksCover(c);
    NoErrorUpTo(op, p, c, Chunks(c));
    ExactPasses(AllSamples(p, c), p.root);
  }

  lemma {:induction false} NoErrorUpTo(op: Operator, p: Provider, c: Call, n: nat)
    requires p.Exact(op) && p.Shaped() && c.Ok() && n * GateRows(c) < |c.q| + GateRows(c)
    ensures forall i | 0 <= i < |GateSamples(p, c, n)| :: GateSamples(p, c, n)[i].got == GateSamples(p, c, n)[i].want
  {
    if n > 0 {
      NoErrorUpTo(op, p, c, n - 1);
      ChunkIsWhole(c, n - 1);
      NoErrorInChunk(op, p, c, (n - 1) * GateRows(c), Min(n * GateRows(c), |c.q|));
    }
  }

  lemma NoErrorInChunk(op: Operator, p: Provider, c: Call, start: nat, stop: nat)
    requires p.Exact(op) && p.Shaped() && c.Ok() && WholeTiles(c, start, stop)
    ensures forall i | 0 <= i < stop - start :: ChunkSamples(p, c, start, stop)[i].got == ChunkSamples(p, c, start, stop)[i].want
  {
    hide Kernel, Dense;
    PortionIsCall(c, start, stop);
    var part := Portion(c, start, stop);
    AllSinkKernelIsDense(op, part);
    assert p.KernelExact(op, AllSink(part)) && p.DenseExact(op, part.q, part.k, part.v, part.bias);
    assert p.kernel(AllSink(part)) == p.DenseOf(part);
  }
}
