/**
 Which key blocks a query tile treats exactly: the routing rule, and the SM120 way
 of evaluating it from four warps' partial column sums.
*/
module Routing {
  import opened Exponential
  import opened MixedOperator

  /** The rule's parameters.  An empty interval switches the sink or the mapped
      neighbours off; `qBlock` is the query tile's index in the whole sequence. */
  datatype Rule = Rule(threshold: real, qBlock: nat, sink: (nat, nat), mapped: (nat, nat))

  /** Sum of column j of the summary scores over the query rows lo..hi that exist. */
  function ColumnSum(t: Tile, j: nat, lo: nat, hi: nat): real
    decreases hi
  {
    if hi <= lo then 0.0
    else ColumnSum(t, j, lo, hi - 1) + (if hi - 1 < t.qLen then t.qkc(hi - 1, j) else 0.0)
  }

  function Mean(t: Tile, sum: real): real
    requires t.qLen > 0
  {
    Mul(sum, t.scale) / (t.qLen as real)
  }

  predicate Near(a: int, b: int) { -1 <= a - b <= 1 }

  predicate Inside(j: nat, i: (nat, nat)) { i.0 <= j < i.1 }

  /** Mean score above the threshold, diagonal neighbour, sink, or mapped neighbour. */
  predicate Exact(t: Tile, rule: Rule, j: nat)
    requires t.Ok()
  {
    Mean(t, ColumnSum(t, j, 0, t.qLen)) > rule.threshold || Near(rule.qBlock, j) || Inside(j, rule.sink) || Inside(j, rule.mapped)
  }

  /** `route` is what the rule decides for this tile. */
  ghost predicate Follows(t: Tile, rule: Rule, route: Route)
    requires t.Ok()
  {
    forall j: nat :: route(j) == Exact(t, rule, j)
  }

  function RouteOf(t: Tile, rule: Rule): (route: Route)
    requires t.Ok()
    ensures Follows(t, rule, route)
  {
    (j: nat) => t.Ok() && Exact(t, rule, j)
  }

  /** With every block in the sink, every block is exact, whatever the scores: this
      is how the arithmetic gate forces the dense result. */
  lemma AllSinkIsDense(x: Exp2, t: Tile, rule: Rule, r: nat, m: real)
    requires Lawful(x) && t.Ok() && rule.sink.0 == 0 && t.Blocks() <= rule.sink.1
    ensures Den(x, DenseTerms(t, r), m) > 0.0
    ensures Reference(x, t, RouteOf(t, rule), r) == Num(x, DenseTerms(t, r), m) / Den(x, DenseTerms(t, r), m)
  {
    AllExactIsDense(x, t, RouteOf(t, rule), r, m);
  }

  // ----- the SM120 evaluation -----

  lemma {:induction false} SumSplit(t: Tile, j: nat, lo: nat, mid: nat, hi: nat)
    requires lo <= mid <= hi
    ensures ColumnSum(t, j, lo, hi) == ColumnSum(t, j, lo, mid) + ColumnSum(t, j, mid, hi)
    decreases hi
  {
    if mid < hi { SumSplit(t, j, lo, mid, hi - 1); }
  }

  lemma {:induction false} RowsPastEnd(t: Tile, j: nat, hi: nat)
    requires t.qLen <= hi
    ensures ColumnSum(t, j, 0, hi) == ColumnSum(t, j, 0, t.qLen)
    decreases hi
  {
    if t.qLen < hi { RowsPastEnd(t, j, hi - 1); }
  }

  /** What warp w leaves in route_sums for column j: the sum over its sixteen rows. */
  function WarpSum(t: Tile, j: nat, w: nat): real { ColumnSum(t, j, 16 * w, 16 * w + 16) }

  lemma {:induction false} WarpSumsUpTo(t: Tile, j: nat, w: nat)
    ensures ColumnSum(t, j, 0, 16 * w + 16) == ColumnSum(t, j, 0, 16 * w) + WarpSum(t, j, w)
  {
    SumSplit(t, j, 0, 16 * w, 16 * w + 16);
  }

  /** Warp 0 adds the four rows of route_sums: the sum over all rows that exist. */
  function WarpTotal(t: Tile, j: nat): (sum: real)
    requires t.Ok()
    ensures sum == ColumnSum(t, j, 0, t.qLen)
  {
    WarpSumsUpTo(t, j, 0);
    WarpSumsUpTo(t, j, 1);
    WarpSumsUpTo(t, j, 2);
    WarpSumsUpTo(t, j, 3);
    RowsPastEnd(t, j, 64);
    WarpSum(t, j, 0) + WarpSum(t, j, 1) + WarpSum(t, j, 2) + WarpSum(t, j, 3)
  }

  /** The same sum of scores that were scaled before. */
  function ScaledSum(t: Tile, j: nat, lo: nat, hi: nat): real
    decreases hi
  {
    if hi <= lo then 0.0
    else ScaledSum(t, j, lo, hi - 1) + (if hi - 1 < t.qLen then Mul(t.qkc(hi - 1, j), t.scale) else 0.0)
  }

  lemma {:induction false} ScaledSumIs(t: Tile, j: nat, lo: nat, hi: nat)
    ensures ScaledSum(t, j, lo, hi) == Mul(ColumnSum(t, j, lo, hi), t.scale)
    decreases hi
  {
    if lo < hi {
      ScaledSumIs(t, j, lo, hi - 1);
      Distrib(t.scale, ColumnSum(t, j, lo, hi - 1), if hi - 1 < t.qLen then t.qkc(hi - 1, j) else 0.0);
    }
  }

  /** One lane's decision for block j. */
  function LaneDecision(t: Tile, rule: Rule, j: nat): (b: bool)
    requires t.Ok()
    ensures b == Exact(t, rule, j)
  {
    var distance := if rule.qBlock < j then j - rule.qBlock else rule.qBlock - j;
    || Mean(t, WarpTotal(t, j)) > rule.threshold || distance <= 1
    || (j >= rule.sink.0 && j < rule.sink.1)
    || (j >= rule.mapped.0 && j < rule.mapped.1)
  }

  /** The votes of `width` columns starting at block `start`: columns past the last
      block never vote. */
  predicate Votes(route: Route, start: nat, valid: nat, votes: seq<bool>) {
    forall off: nat | off < |votes| :: votes[off] == (off < valid && route(start + off))
  }

  function Vote(t: Tile, rule: Rule, start: nat, valid: nat, off: nat): (b: bool)
    requires t.Ok()
    ensures b == (off < valid && RouteOf(t, rule)(start + off))
  {
    off < valid && LaneDecision(t, rule, start + off)
  }

  function CastVotes(t: Tile, rule: Rule, start: nat, valid: nat, width: nat): (votes: seq<bool>)
    requires t.Ok()
    ensures |votes| == width && Votes(RouteOf(t, rule), start, valid, votes)
  {
    seq(width, off requires 0 <= off => Vote(t, rule, start, valid, off))
  }
}
