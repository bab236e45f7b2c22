/**
 The bridge around the sparse kernel: which rows are sink, which rows are recomputed
 densely, and the arithmetic gate that every kind of call must pass once per request.

 One value coordinate, one head.  `Kernel` is what the sparse operator gives for whole
 query sequences: each 64-row tile is one `Tile` of module `MixedOperator`.
*/
module SparseAttention {
  import opened Basics
  import opened Exponential
  import opened MixedOperator
  import opened Routing
  import opened GateStatistics

  type Vector = seq<real>

  /** The arithmetic of the kernel: scores, block means, and the routing threshold that
      the preprocessing derives from a tile's queries and the block means. */
  datatype Operator = Operator(
    x: Exp2, dot: (Vector, Vector) -> real, centroid: seq<Vector> -> Vector,
    threshold: (seq<Vector>, seq<Vector>) -> real, log2e: real, scale: real)
  {
    ghost predicate Ok() { Lawful(x) && scale > 0.0 }
  }

  /** The arguments of one kernel call. */
  datatype Call = Call(q: seq<Vector>, k: seq<Vector>, v: seq<real>, bias: Option<seq<real>>,
                       queryStart: nat, sinkStart: nat, sinkTokens: nat, mapped: Option<seq<(nat, nat)>>)
  {
    predicate Ok() {
      && q != [] && k != [] && |v| == |k| && queryStart % 64 == 0
      && (bias.Some? ==> |bias.value| == |k|)
      && (mapped.Some? ==> |mapped.value| == (|q| + 63) / 64)
      && sinkStart + sinkTokens <= |k|
    }
  }

  /** Rows 64 b up to the end of block b, or of the sequence. */
  function Block<T>(s: seq<T>, b: nat): (r: seq<T>)
    requires 64 * b <= |s|
    ensures |r| == Min(64, |s| - 64 * b)
  {
    s[64 * b..64 * b + Min(64, |s| - 64 * b)]
  }

  function At<T>(s: seq<T>, i: nat, default: T): T { if i < |s| then s[i] else default }

  function BlockMean(op: Operator, k: seq<Vector>, j: nat): Vector {
    if 64 * j <= |k| then op.centroid(Block(k, j)) else []
  }

  function BlockMeans(op: Operator, k: seq<Vector>): seq<Vector> { seq((|k| + 63) / 64, j requires 0 <= j => BlockMean(op, k, j)) }

  /** The kernel's input for one query tile. */
  function TileOf(op: Operator, queries: seq<Vector>, k: seq<Vector>, v: seq<real>, bias: Option<seq<real>>): Tile {
    Tile(
      |queries|, |k|,
      (r: nat, u: nat) => op.dot(At(queries, r, []), At(k, u, [])),
      (r: nat, j: nat) => op.dot(At(queries, r, []), BlockMean(op, k, j)),
      (u: nat) => At(v, u, 0.0),
      (j: nat) => if 64 * j <= |v| then SumAll(Block(v, j)) else 0.0,
      bias.Some?,
      (u: nat) => if bias.Some? then At(bias.value, u, 0.0) else 0.0,
      op.log2e, op.scale)
  }

  // ----- the sink -----

  /** From rows to blocks: every block that holds a sink row; beyond the last block if
      there is none. */
  function SinkBlockRange(tokens: nat, start: nat, count: nat): (nat, nat) {
    if count == 0 then ((tokens + 63) / 64, (tokens + 63) / 64) else (start / 64, (start + count + 63) / 64)
  }

  /** The blocks of the range are those that meet the rows. */
  lemma SinkBlocksMeetRows(tokens: nat, start: nat, count: nat, j: nat)
    requires start + count <= tokens && j < (tokens + 63) / 64
    ensures Inside(j, SinkBlockRange(tokens, start, count)) <==> exists u: nat :: start <= u < start + count && u / 64 == j
  {
    if Inside(j, SinkBlockRange(tokens, start, count)) {
      var u := if start / 64 == j then start else 64 * j;
      assert start <= u < start + count && u / 64 == j;
    }
  }

  /** The rows of a range of exact blocks, as the bridge passes it on. */
  function SinkRows(kvRows: nat, blocks: (nat, nat)): (nat, nat) {
    var start, end := Min(kvRows, blocks.0 * 64), Min(kvRows, blocks.1 * 64);
    (start, if end < start then 0 else end - start)
  }

  /** A range of exact blocks survives the way through rows and back. */
  lemma SinkRoundTrip(kvRows: nat, blocks: (nat, nat), j: nat)
    requires blocks.0 <= blocks.1 <= (kvRows + 63) / 64 && j < (kvRows + 63) / 64
    ensures var rows := SinkRows(kvRows, blocks);
            && rows.0 + rows.1 <= kvRows
            && (Inside(j, SinkBlockRange(kvRows, rows.0, rows.1)) <==> Inside(j, blocks))
  {
  }

  /** A sink of all rows is a sink of all blocks. */
  lemma AllRowsAreSink(tokens: nat)
    requires tokens > 0
    ensures SinkBlockRange(tokens, 0, tokens) == (0, (tokens + 63) / 64)
  {
  }

  // ----- the operator on whole query sequences -----

  function RuleOf(op: Operator, queries: seq<Vector>, c: Call, b: nat): Rule {
    Rule(op.threshold(queries, BlockMeans(op, c.k)), c.queryStart / 64 + b,
         SinkBlockRange(|c.k|, c.sinkStart, c.sinkTokens),
         if c.mapped.Some? then At(c.mapped.value, b, (0, 0)) else (0, 0))
  }

  ghost function KernelRow(op: Operator, c: Call, i: nat): real
    requires op.Ok() && c.Ok() && i < |c.q|
  {
    var queries := Block(c.q, i / 64);
    var t := TileOf(op, queries, c.k, c.v, c.bias);
    Reference(op.x, t, RouteOf(t, RuleOf(op, queries, c, i / 64)), i % 64)
  }

  /** What the sparse kernel computes. */
  ghost function Kernel(op: Operator, c: Call): (out: seq<real>)
    requires op.Ok() && c.Ok()
    ensures |out| == |c.q| && forall i: nat | i < |c.q| :: out[i] == KernelRow(op, c, i)
  {
    seq(|c.q|, i requires 0 <= i < |c.q| => KernelRow(op, c, i))
  }

  /** The part of a call for the query rows start..stop. */
  function Portion(c: Call, start: nat, stop: nat): Call
    requires start <= stop <= |c.q| && (c.mapped.Some? ==> start / 64 <= (stop + 63) / 64 <= |c.mapped.value|)
  {
    c.(q := c.q[start..stop], queryStart := c.queryStart + start,
       mapped := if c.mapped.None? then None else Some(c.mapped.value[start / 64..(stop + 63) / 64]))
  }

  /** Ranges of query rows that consist of whole tiles. */
  predicate WholeTiles(c: Call, start: nat, stop: nat) {
    start < stop <= |c.q| && start % 64 == 0 && (stop % 64 == 0 || stop == |c.q|)
  }

  /** A part is a well-formed call: its mapped intervals have the right tile count. */
  lemma PortionIsCall(c: Call, start: nat, stop: nat)
    requires c.Ok() && WholeTiles(c, start, stop)
    ensures c.mapped.Some? ==> (stop + 63) / 64 <= |c.mapped.value|
    ensures Portion(c, start, stop).Ok()
  {
  }

  lemma SliceOfSlice<T>(s: seq<T>, a: nat, b: nat, lo: nat, n: nat)
    requires a <= b <= |s| && lo + n <= b - a
    ensures s[a..b][lo..lo + n] == s[a + lo..a + lo + n]
  {
    var left, right := s[a..b][lo..lo + n], s[a + lo..a + lo + n];
    forall k | 0 <= k < n ensures left[k] == right[k] { assert left[k] == s[a..b][lo + k]; }
  }

  lemma WholeBlocks(start: nat, i: nat)
    requires start % 64 == 0
    ensures (start + i) / 64 == start / 64 + i / 64 && (start + i) % 64 == i % 64
  {
    var s, b := start / 64, i / 64;
    assert start + i == 64 * (s + b) + i % 64;
  }

  /** The tile of row i of a part reaches as far as that row's tile in the whole. */
  lemma SameReach(rows: nat, start: nat, stop: nat, i: nat)
    requires start < stop <= rows && start % 64 == 0 && (stop % 64 == 0 || stop == rows) && i < stop - start
    ensures Min(64, stop - start - 64 * (i / 64)) == Min(64, rows - 64 * (start / 64 + i / 64))
    ensures 64 * (i / 64) + Min(64, stop - start - 64 * (i / 64)) <= stop - start
    ensures start + 64 * (i / 64) == 64 * (start / 64 + i / 64)
  {
    if stop < rows {
      var s, b, e := start / 64, i / 64, stop / 64;
      assert start == 64 * s && stop == 64 * e && b < e - s;
    }
  }

  lemma SameTile(c: Call, start: nat, stop: nat, i: nat)
    requires c.Ok() && WholeTiles(c, start, stop) && i < stop - start
    ensures Block(c.q[start..stop], i / 64) == Block(c.q, (start + i) / 64)
    ensures (start + i) / 64 == start / 64 + i / 64 && (start + i) % 64 == i % 64
  {
    WholeBlocks(start, i);
    SameReach(|c.q|, start, stop, i);
    SliceOfSlice(c.q, start, stop, 64 * (i / 64), Min(64, stop - start - 64 * (i / 64)));
  }

  /** The kernel on a part gives that part of the whole result: the same exact blocks for
      every global query tile, and the same rows. */
  lemma PortionIsSlice(op: Operator, c: Call, start: nat, stop: nat)
    requires op.Ok() && c.Ok() && WholeTiles(c, start, stop)
    ensures c.mapped.Some? ==> (stop + 63) / 64 <= |c.mapped.value|
    ensures Portion(c, start, stop).Ok()
    ensures Kernel(op, Portion(c, start, stop)) == Kernel(op, c)[start..stop]
  {
    PortionIsCall(c, start, stop);
    var p := Portion(c, start, stop);
    forall i: nat | i < stop - start ensures Kernel(op, p)[i] == Kernel(op, c)[start + i] { PortionRow(op, c, start, stop, i); }
  }

  lemma PortionRow(op: Operator, c: Call, start: nat, stop: nat, i: nat)
    requires op.Ok() && c.Ok() && WholeTiles(c, start, stop) && i < stop - start
    requires (c.mapped.Some? ==> (stop + 63) / 64 <= |c.mapped.value|) && Portion(c, start, stop).Ok()
    ensures KernelRow(op, Portion(c, start, stop), i) == KernelRow(op, c, start + i)
  {
    var p := Portion(c, start, stop);
    SameTile(c, start, stop, i);
    var queries := Block(p.q, i / 64);
    assert (c.queryStart + start) / 64 + i / 64 == c.queryStart / 64 + (start + i) / 64;
    assert RuleOf(op, queries, p, i / 64) == RuleOf(op, queries, c, (start + i) / 64);
  }

  // ----- the dense reference -----

  /** Dense softmax of one query over all keys, with the key measures. */
  ghost function DenseRow(op: Operator, query: Vector, k: seq<Vector>, v: seq<real>, bias: Option<seq<real>>): real
    requires op.Ok() && k != []
  {
    var ts := DenseTerms(TileOf(op, [query], k, v, bias), 0);
    DenPositive(op.x, ts, 0.0);
    Num(op.x, ts, 0.0) / Den(op.x, ts, 0.0)
  }

  ghost function Dense(op: Operator, q: seq<Vector>, k: seq<Vector>, v: seq<real>, bias: Option<seq<real>>): (out: seq<real>)
    requires op.Ok() && k != []
    ensures |out| == |q| && forall i: nat | i < |q| :: out[i] == DenseRow(op, q[i], k, v, bias)
  {
    seq(|q|, i requires 0 <= i < |q| => DenseRow(op, q[i], k, v, bias))
  }

  /** The call with every key a sink key. */
  function AllSink(c: Call): Call { c.(sinkStart := 0, sinkTokens := |c.k|) }

  /** With all keys as sink, the sparse kernel computes the dense reference, whatever the
      thresholds, the mapped intervals and the query origin. */
  lemma AllSinkKernelIsDense(op: Operator, c: Call)
    requires op.Ok() && c.Ok()
    ensures Kernel(op, AllSink(c)) == Dense(op, c.q, c.k, c.v, c.bias)
  {
    forall i: nat | i < |c.q| ensures Kernel(op, AllSink(c))[i] == Dense(op, c.q, c.k, c.v, c.bias)[i] { AllSinkRowIsDense(op, c, i); }
  }

  lemma SameKeyTerm(op: Operator, queries: seq<Vector>, r: nat, c: Call, u: nat)
    requires r < |queries|
    ensures TileOf(op, queries, c.k, c.v, c.bias).KeyTerm(r, u) == TileOf(op, [queries[r]], c.k, c.v, c.bias).KeyTerm(0, u)
  {
    var t, one := TileOf(op, queries, c.k, c.v, c.bias), TileOf(op, [queries[r]], c.k, c.v, c.bias);
    assert At([queries[r]], 0, []) == At(queries, r, []);
    assert t.qk(r, u) == op.dot(At(queries, r, []), At(c.k, u, [])) == one.qk(0, u);
  }

  lemma AllSinkRowIsDense(op: Operator, c: Call, i: nat)
    requires op.Ok() && c.Ok() && i < |c.q|
    ensures KernelRow(op, AllSink(c), i) == DenseRow(op, c.q[i], c.k, c.v, c.bias)
  {
    hide Reference, Weigh;
    var queries := Block(c.q, i / 64);
    var t, one := TileOf(op, queries, c.k, c.v, c.bias), TileOf(op, [c.q[i]], c.k, c.v, c.bias);
    AllRowsAreSink(|c.k|);
    AllSinkIsDense(op.x, t, RuleOf(op, queries, AllSink(c), i / 64), i % 64, 0.0);
    assert queries[i % 64] == c.q[i];
    forall u: nat | u < |c.k| ensures t.KeyTerm(i % 64, u) == one.KeyTerm(0, u) {
      SameKeyTerm(op, queries, i % 64, c, u);
    }
    assert DenseTerms(t, i % 64) == DenseTerms(one, 0);
  }
}
