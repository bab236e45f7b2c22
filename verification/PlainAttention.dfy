/**
 What one sparse attention call computes, told in its arguments alone: which scores, values,
 measures, sink and threshold reach the kernel for each row, and what the dense reference
 is.  Together with module `PlainSoftmax` this gives every row as a quotient of running sums.
*/
module PlainAttention {
  import opened Basics
  import opened Exponential
  import opened MixedOperator
  import opened Routing
  import opened SparseAttention
  import opened Qualification
  import opened SparseRequest
  import opened PlainSoftmax

  // ----- the kernel's tile -----

  /** Which tile and which rule decide row i of a kernel call.  Scores are those of the row's
      query with the keys and with the blocks' centroids, a block's value is the sum of its
      rows; the sink is every block with a sink row, and the tile's own index counts from the
      query origin. */
  lemma KernelRowTile(op: Operator, c: Call, i: nat, queries: seq<Vector>, means: seq<Vector>, sums: nat -> real)
    returns (t: Tile, rule: Rule)
    requires op.Ok() && c.Ok() && i < |c.q|
    requires queries == c.q[i / 64 * 64..if i / 64 * 64 + 64 < |c.q| then i / 64 * 64 + 64 else |c.q|]
    requires |means| == (|c.k| + 63) / 64
    requires forall j: nat | 64 * j < |c.k| :: means[j] == op.centroid(c.k[64 * j..if 64 * j + 64 < |c.k| then 64 * j + 64 else |c.k|])
    requires forall u: nat {:trigger c.v[u]} | u < |c.v| :: sums(u + 1) == sums(u) + c.v[u]
    ensures t.Ok() && KernelRow(op, c, i) == Reference(op.x, t, RouteOf(t, rule), i % 64)
    ensures t.tokens == |c.k| && t.qLen == |queries|
    ensures forall n: nat, u: nat | n < |queries| && u < |c.k| :: t.qk(n, u) == op.dot(queries[n], c.k[u])
    ensures forall n: nat, j: nat | n < |queries| && 64 * j < |c.k| :: t.qkc(n, j) == op.dot(queries[n], means[j])
    ensures forall u: nat | u < |c.k| :: t.v(u) == c.v[u]
    ensures forall j: nat | 64 * j < |c.k| :: t.vc(j) == sums(if 64 * j + 64 < |c.k| then 64 * j + 64 else |c.k|) - sums(64 * j)
    ensures t.biased == c.bias.Some? && (c.bias.Some? ==> forall u: nat | u < |c.k| :: t.bias(u) == c.bias.value[u])
    ensures t.scale == op.scale && t.log2e == op.log2e
    ensures rule.threshold == op.threshold(queries, means) && rule.qBlock == c.queryStart / 64 + i / 64
    ensures forall j: nat | 64 * j < |c.k| ::
              rule.sink.0 <= j < rule.sink.1 <==> exists u: nat :: c.sinkStart <= u < c.sinkStart + c.sinkTokens && u / 64 == j
    ensures rule.mapped == if c.mapped.Some? then c.mapped.value[i / 64] else (0, 0)
  {
    assert queries == Block(c.q, i / 64);
    t, rule := TileOf(op, queries, c.k, c.v, c.bias), RuleOf(op, queries, c, i / 64);
    MeansAre(op, c.k, means);
    TileScores(op, queries, c, means);
    TileSums(op, queries, c, sums);
    hide TileOf, BlockMeans, Reference, RouteOf;
    forall j: nat | 64 * j < |c.k|
      ensures rule.sink.0 <= j < rule.sink.1 <==> exists u: nat :: c.sinkStart <= u < c.sinkStart + c.sinkTokens && u / 64 == j
    {
      SinkBlocksMeetRows(|c.k|, c.sinkStart, c.sinkTokens, j);
    }
  }

  lemma MeansAre(op: Operator, k: seq<Vector>, means: seq<Vector>)
    requires |means| == (|k| + 63) / 64
    requires forall j: nat | 64 * j < |k| :: means[j] == op.centroid(k[64 * j..if 64 * j + 64 < |k| then 64 * j + 64 else |k|])
    ensures BlockMeans(op, k) == means && forall j: nat | 64 * j < |k| :: BlockMean(op, k, j) == means[j]
  {
    forall j: nat | 64 * j < |k| ensures BlockMean(op, k, j) == means[j] {
      assert Block(k, j) == k[64 * j..if 64 * j + 64 < |k| then 64 * j + 64 else |k|];
    }
  }

  lemma TileScores(op: Operator, queries: seq<Vector>, c: Call, means: seq<Vector>)
    requires c.Ok() && |means| == (|c.k| + 63) / 64 && forall j: nat | 64 * j < |c.k| :: BlockMean(op, c.k, j) == means[j]
    ensures var t := TileOf(op, queries, c.k, c.v, c.bias);
            && (forall n: nat, u: nat | n < |queries| && u < |c.k| :: t.qk(n, u) == op.dot(queries[n], c.k[u]))
            && (forall n: nat, j: nat | n < |queries| && 64 * j < |c.k| :: t.qkc(n, j) == op.dot(queries[n], means[j]))
            && (forall u: nat | u < |c.k| :: t.v(u) == c.v[u])
            && t.biased == c.bias.Some? && (c.bias.Some? ==> forall u: nat | u < |c.k| :: t.bias(u) == c.bias.value[u])
            && t.scale == op.scale && t.log2e == op.log2e && t.tokens == |c.k| && t.qLen == |queries|
  {
    var t := TileOf(op, queries, c.k, c.v, c.bias);
    forall n: nat, u: nat | n < |queries| && u < |c.k| ensures t.qk(n, u) == op.dot(queries[n], c.k[u]) {
      assert t.qk(n, u) == op.dot(At(queries, n, []), At(c.k, u, []));
    }
    forall n: nat, j: nat | n < |queries| && 64 * j < |c.k| ensures t.qkc(n, j) == op.dot(queries[n], means[j]) {
      assert t.qkc(n, j) == op.dot(At(queries, n, []), BlockMean(op, c.k, j));
    }
  }

  lemma TileSums(op: Operator, queries: seq<Vector>, c: Call, sums: nat -> real)
    requires c.Ok() && forall u: nat {:trigger c.v[u]} | u < |c.v| :: sums(u + 1) == sums(u) + c.v[u]
    ensures var t := TileOf(op, queries, c.k, c.v, c.bias);
            forall j: nat | 64 * j < |c.k| :: t.vc(j) == sums(if 64 * j + 64 < |c.k| then 64 * j + 64 else |c.k|) - sums(64 * j)
  {
    var t := TileOf(op, queries, c.k, c.v, c.bias);
    forall j: nat | 64 * j < |c.k| ensures t.vc(j) == sums(if 64 * j + 64 < |c.k| then 64 * j + 64 else |c.k|) - sums(64 * j) {
      SumOfPart(c.v, sums, 64 * j, Min(64, |c.k| - 64 * j));
    }
  }

  /** The dense reference: softmax of the query's scaled scores plus the keys' measures. */
  lemma DenseIsSoftmax(op: Operator, query: Vector, k: seq<Vector>, v: seq<real>, bias: Option<seq<real>>,
                       mass: nat -> real, value: nat -> real)
    requires op.Ok() && k != [] && |v| == |k| && (bias.Some? ==> |bias.value| == |k|)
    requires mass(0) == value(0) == 0.0
    requires forall u: nat {:trigger k[u]} | u < |k| ::
               mass(u + 1) == mass(u) + op.x.e(Mul(op.scale, op.dot(query, k[u])) + (if bias.Some? then Mul(op.log2e, bias.value[u]) else 0.0))
    requires forall u: nat {:trigger k[u]} | u < |k| ::
               value(u + 1) == value(u) + Mul(op.x.e(Mul(op.scale, op.dot(query, k[u])) + (if bias.Some? then Mul(op.log2e, bias.value[u]) else 0.0)), v[u])
    ensures mass(|k|) > 0.0 && DenseRow(op, query, k, v, bias) == value(|k|) / mass(|k|)
  {
    var t := TileOf(op, [query], k, v, bias);
    var route: Route, none := (j: nat) => true, (j: nat) => 0.0;
    assert t.tokens == |k| && t.Ok() && none(0) == 0.0 && Lawful(op.x);
    hide Reference, Weigh, TileOf, Tile.Ok, Mul, Operator.Ok, Lawful, DenseRow, Tile.AllTerms;
    DenseSteps(op, query, k, v, bias, route, mass, value);
    hide KeyStep;
    NoBlocks(op.x, t, route, none);
    SumsMakeReference(op.x, t, route, 0, mass, value, none, none);
    DenseIsAllExact(op, query, k, v, bias, route);
  }

  lemma DenseSteps(op: Operator, query: Vector, k: seq<Vector>, v: seq<real>, bias: Option<seq<real>>, route: Route,
                   mass: nat -> real, value: nat -> real)
    requires k != [] && |v| == |k| && (bias.Some? ==> |bias.value| == |k|) && forall j: nat :: route(j)
    requires forall u: nat {:trigger k[u]} | u < |k| ::
               mass(u + 1) == mass(u) + op.x.e(Mul(op.scale, op.dot(query, k[u])) + (if bias.Some? then Mul(op.log2e, bias.value[u]) else 0.0))
    requires forall u: nat {:trigger k[u]} | u < |k| ::
               value(u + 1) == value(u) + Mul(op.x.e(Mul(op.scale, op.dot(query, k[u])) + (if bias.Some? then Mul(op.log2e, bias.value[u]) else 0.0)), v[u])
    ensures var t := TileOf(op, [query], k, v, bias);
            forall u: nat {:trigger KeyStep(op.x, t, route, 0, u, Mass)} {:trigger KeyStep(op.x, t, route, 0, u, Value)} | u < |k| ::
              && mass(u + 1) == mass(u) + KeyStep(op.x, t, route, 0, u, Mass)
              && value(u + 1) == value(u) + KeyStep(op.x, t, route, 0, u, Value)
  {
    var t := TileOf(op, [query], k, v, bias);
    hide TileOf, Mul, KeyStep;
    forall u: nat | u < |k|
      ensures mass(u + 1) == mass(u) + KeyStep(op.x, t, route, 0, u, Mass)
      ensures value(u + 1) == value(u) + KeyStep(op.x, t, route, 0, u, Value)
    {
      var key := k[u];
      DenseStep(op, query, k, v, bias, route, u);
    }
  }

  lemma DenseStep(op: Operator, query: Vector, k: seq<Vector>, v: seq<real>, bias: Option<seq<real>>, route: Route, u: nat)
    requires u < |k| == |v| && (bias.Some? ==> |bias.value| == |k|) && forall j: nat :: route(j)
    ensures var t := TileOf(op, [query], k, v, bias);
            var w := op.x.e(Mul(op.scale, op.dot(query, k[u])) + (if bias.Some? then Mul(op.log2e, bias.value[u]) else 0.0));
            KeyStep(op.x, t, route, 0, u, Mass) == w && KeyStep(op.x, t, route, 0, u, Value) == Mul(w, v[u])
  {
    var t := TileOf(op, [query], k, v, bias);
    KeyStepIs(op.x, t, route, 0, u);
    WeightOfDense(op, query, k, v, bias, u);
    hide TileOf, Mul, KeyStep;
  }

  lemma NoBlocks(x: Exp2, t: Tile, route: Route, none: nat -> real)
    requires forall j: nat :: route(j) && none(j) == 0.0
    ensures AddsBlocks(x, t, route, 0, none, Mass) && AddsBlocks(x, t, route, 0, none, Value)
  {
  }

  lemma DenseIsAllExact(op: Operator, query: Vector, k: seq<Vector>, v: seq<real>, bias: Option<seq<real>>, route: Route)
    requires op.Ok() && k != [] && forall j: nat :: route(j)
    ensures DenseRow(op, query, k, v, bias) == Reference(op.x, TileOf(op, [query], k, v, bias), route, 0)
  {
    hide Reference, Weigh;
    AllExactIsDense(op.x, TileOf(op, [query], k, v, bias), route, 0, 0.0);
  }

  lemma KeyOfDense(op: Operator, query: Vector, k: seq<Vector>, v: seq<real>, bias: Option<seq<real>>, u: nat)
    requires u < |k| == |v| && (bias.Some? ==> |bias.value| == |k|)
    ensures var t := TileOf(op, [query], k, v, bias);
            && t.scale == op.scale && t.log2e == op.log2e && t.qk(0, u) == op.dot(query, k[u]) && t.v(u) == v[u]
            && t.biased == bias.Some? && (bias.Some? ==> t.bias(u) == bias.value[u])
  {
    var t := TileOf(op, [query], k, v, bias);
    assert At([query], 0, []) == query && At(k, u, []) == k[u];
    assert t.qk(0, u) == op.dot(At([query], 0, []), At(k, u, []));
  }

  lemma WeightOfDense(op: Operator, query: Vector, k: seq<Vector>, v: seq<real>, bias: Option<seq<real>>, u: nat)
    requires u < |k| == |v| && (bias.Some? ==> |bias.value| == |k|)
    ensures var t := TileOf(op, [query], k, v, bias);
            && op.x.e(Mul(t.scale, t.qk(0, u)) + (if t.biased then Mul(t.log2e, t.bias(u)) else 0.0))
               == op.x.e(Mul(op.scale, op.dot(query, k[u])) + (if bias.Some? then Mul(op.log2e, bias.value[u]) else 0.0))
            && t.v(u) == v[u]
  {
    KeyOfDense(op, query, k, v, bias, u);
    hide TileOf, Mul;
  }

  // ----- one call inside a request -----

  /** The arguments that a request accepts. */
  lemma ValidArguments(a: Args)
    ensures FaultOf(a).None? <==>
              && a.q != [] && a.k != [] && |a.v| == |a.k| && 0 <= a.prefix <= |a.k| && a.queryStart >= 0 && a.queryStart % 64 == 0
              && !(a.recompute && a.queryStart == 0 && !a.workspace && |a.q| < a.prefix)
              && match (a.mapped, a.bias)
                 case (Some(ivs), None) => |ivs| == (|a.q| + 63) / 64 && a.exactBlocks.None? && a.calibration.None?
                 case (None, Some(bias)) =>
                   && |bias| == |a.k| && a.mappedCalibration.None? && a.calibration.Some? && a.calibration.value != "" && a.exactBlocks.Some?
                   && 0 <= a.exactBlocks.value.0 <= a.exactBlocks.value.1 <= (|a.k| + 63) / 64
                 case (None, None) => a.mappedCalibration.None? && a.exactBlocks.None? && a.calibration.None?
                 case (Some(_), Some(_)) => false
  {
  }

  /** Row by row, whatever the provider computes: rows before the prefix's end come from the
      dense reference on the call's leading rows, all others from one kernel call with the
      call's own tensors, intervals and origin, whose sink is the prefix, or the rows of the
      range of exact blocks. */
  lemma RowsOfCall(p: Provider, a: Args, i: nat)
    requires p.Shaped() && FaultOf(a).None? && i < |a.q|
    ensures var rows := if a.prefix - a.queryStart < |a.q| then a.prefix - a.queryStart else |a.q|;
            var cut := (b: int) => if 64 * b < |a.k| then 64 * b else |a.k|;
            var c := match a.exactBlocks
                     case None => Call(a.q, a.k, a.v, a.bias, a.queryStart, 0, a.prefix, a.mapped)
                     case Some((lo, hi)) => Call(a.q, a.k, a.v, a.bias, a.queryStart, cut(lo), cut(hi) - cut(lo), a.mapped);
            if a.recompute && a.queryStart + i < a.prefix
            then i < rows && |p.dense(a.q[..rows], a.k, a.v, a.bias)| == rows && Expected(p, a)[i] == p.dense(a.q[..rows], a.k, a.v, a.bias)[i]
            else |p.kernel(c)| == |a.q| && Expected(p, a)[i] == p.kernel(c)[i]
  {
    ExpectedIs(p, a);
    assert p.DenseShape(a.q[..PrefixQueries(a)], a.k, a.v, a.bias);
  }

  /** In exact arithmetic a sparse row is the mixed operator on the call's own tensors, and every
      block of the prefix, or of the range of exact blocks, is exact for it. */
  lemma SparseRowOfCall(op: Operator, p: Provider, a: Args, i: nat, queries: seq<Vector>, means: seq<Vector>, sums: nat -> real)
    returns (t: Tile, rule: Rule)
    requires p.Exact(op) && p.Shaped() && FaultOf(a).None? && i < |a.q| && !(a.recompute && a.queryStart + i < a.prefix)
    requires queries == a.q[i / 64 * 64..if i / 64 * 64 + 64 < |a.q| then i / 64 * 64 + 64 else |a.q|]
    requires |means| == (|a.k| + 63) / 64
    requires forall j: nat | 64 * j < |a.k| :: means[j] == op.centroid(a.k[64 * j..if 64 * j + 64 < |a.k| then 64 * j + 64 else |a.k|])
    requires forall u: nat {:trigger a.v[u]} | u < |a.v| :: sums(u + 1) == sums(u) + a.v[u]
    ensures t.Ok() && Expected(p, a)[i] == Reference(op.x, t, RouteOf(t, rule), i % 64)
    ensures t.tokens == |a.k| && t.qLen == |queries|
    ensures forall n: nat, u: nat | n < |queries| && u < |a.k| :: t.qk(n, u) == op.dot(queries[n], a.k[u])
    ensures forall n: nat, j: nat | n < |queries| && 64 * j < |a.k| :: t.qkc(n, j) == op.dot(queries[n], means[j])
    ensures forall u: nat | u < |a.k| :: t.v(u) == a.v[u]
    ensures forall j: nat | 64 * j < |a.k| :: t.vc(j) == sums(if 64 * j + 64 < |a.k| then 64 * j + 64 else |a.k|) - sums(64 * j)
    ensures t.biased == a.bias.Some? && (a.bias.Some? ==> forall u: nat | u < |a.k| :: t.bias(u) == a.bias.value[u])
    ensures t.scale == op.scale && t.log2e == op.log2e
    ensures rule.threshold == op.threshold(queries, means) && rule.qBlock == a.queryStart / 64 + i / 64
    ensures forall j: nat | 64 * j < |a.k| ::
              rule.sink.0 <= j < rule.sink.1 <==>
                match a.exactBlocks case None => 64 * j < a.prefix case Some((lo, hi)) => lo <= j < hi
    ensures rule.mapped == if a.mapped.Some? then a.mapped.value[i / 64] else (0, 0)
    ensures forall j: nat | 64 * j < |a.k| && (match a.exactBlocks case None => 64 * j < a.prefix case Some((lo, hi)) => lo <= j < hi) ::
              RouteOf(t, rule)(j)
  {
    var c := CallOf(a);
    ExpectedRows(op, p, a, i);
    ValidArguments(a);
    t, rule := KernelRowTile(op, c, i, queries, means, sums);
    forall j: nat | 64 * j < |a.k|
      ensures (exists u: nat :: c.sinkStart <= u < c.sinkStart + c.sinkTokens && u / 64 == j) <==>
                match a.exactBlocks case None => 64 * j < a.prefix case Some((lo, hi)) => lo <= j < hi
    {
      SinkOfCall(a, j);
    }
  }

  lemma SinkOfCall(a: Args, j: nat)
    requires FaultOf(a).None? && 64 * j < |a.k|
    ensures var c := CallOf(a);
            (exists u: nat :: c.sinkStart <= u < c.sinkStart + c.sinkTokens && u / 64 == j) <==>
              match a.exactBlocks case None => 64 * j < a.prefix case Some((lo, hi)) => lo <= j < hi
  {
    var c := CallOf(a);
    ValidArguments(a);
    SinkBlocksMeetRows(|a.k|, c.sinkStart, c.sinkTokens, j);
    if a.exactBlocks.Some? { SinkRoundTrip(|a.k|, (a.exactBlocks.value.0, a.exactBlocks.value.1), j); }
  }
}
