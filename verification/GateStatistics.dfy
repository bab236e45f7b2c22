/**
 The arithmetic gate's error statistics: bounded tiles of a tensor of any shape, a fused
 reducer with its own tiling, and an accumulator that mixes the two.  However the samples
 are cut up, the statistics are those of the whole.

 A tensor is its elements in logical row-major order together with its shape; strides are
 not modelled.  Reals are always finite, so neither is the finiteness flag.
*/
module GateStatistics {
  import opened Basics
  import Exponential

  const TILE: nat := 262144
  const FUSED: nat := 2048

  /** An output element and its reference. */
  datatype Sample = Sample(got: real, want: real)

  function Abs(x: real): (a: real)
    ensures a >= 0.0
  {
    if x < 0.0 then -x else x
  }

  function Larger(a: real, b: real): real { if a < b then b else a }

  datatype Figures = Figures(peak: real, error: real, absolute: real, square: real, reference: real)

  const ZERO := Figures(0.0, 0.0, 0.0, 0.0, 0.0)

  /** Reference peak, largest error, and the sums of errors, squared errors and squared
      references. */
  type Stats = f: Figures | f.peak >= 0.0 && f.error >= 0.0 witness ZERO

  function Join(a: Stats, b: Stats): Stats {
    Figures(Larger(a.peak, b.peak), Larger(a.error, b.error), a.absolute + b.absolute, a.square + b.square, a.reference + b.reference)
  }

  function Of(s: Sample): Stats {
    var d := s.got - s.want;
    Figures(Abs(s.want), Abs(d), Abs(d), d * d, s.want * s.want)
  }

  /** The statistics of a list of samples. */
  function StatsOf(s: seq<Sample>): Stats {
    if s == [] then ZERO else Join(StatsOf(s[..|s| - 1]), Of(s[|s| - 1]))
  }

  lemma JoinLaws(a: Stats, b: Stats, c: Stats)
    ensures Join(Join(a, b), c) == Join(a, Join(b, c)) == Join(Join(a, c), b)
  {
  }

  lemma JoinZero(a: Stats)
    ensures Join(a, ZERO) == a == Join(ZERO, a)
  {
  }

  lemma {:induction false} StatsConcat(a: seq<Sample>, b: seq<Sample>)
    ensures StatsOf(a + b) == Join(StatsOf(a), StatsOf(b))
    decreases |b|
  {
    if b == [] {
      assert a + b == a;
      JoinZero(StatsOf(a));
    } else {
      hide Of, Join;
      assert (a + b)[..|a + b| - 1] == a + b[..|b| - 1];
      StatsConcat(a, b[..|b| - 1]);
      JoinLaws(StatsOf(a), StatsOf(b[..|b| - 1]), Of(b[|b| - 1]));
    }
  }

  /** Masked lanes hold zeros, which change no statistic. */
  lemma {:induction false} PaddingIsNeutral(n: nat)
    ensures StatsOf(seq(n, _ => Sample(0.0, 0.0))) == ZERO
  {
    hide Join;
    assert Of(Sample(0.0, 0.0)) == ZERO;
    JoinZero(ZERO);
    if n > 0 {
      PaddingIsNeutral(n - 1);
      var pad := seq(n, _ => Sample(0.0, 0.0));
      assert pad[..n - 1] == seq(n - 1, _ => Sample(0.0, 0.0));
    }
  }

  // ----- tiles -----

  function Elements(shape: seq<nat>): nat { if shape == [] then 1 else shape[0] * Elements(shape[1..]) }

  ghost predicate Small<T(!new)>(tiles: seq<seq<T>>) { forall t | t in tiles :: |t| <= TILE }

  lemma {:induction false} Stretch(i: nat, n: nat, w: nat)
    requires i < n
    ensures 0 <= i * w <= (i + 1) * w <= n * w && (i + 1) * w == i * w + w
    decreases n
  {
    if i + 1 < n {
      Stretch(i, n - 1, w);
      assert n * w == (n - 1) * w + w;
    }
  }

  /** _metric_tiles: every element lies in exactly one tile, in order, and no tile exceeds
      the bound, for any rank and any extents. */
  method MetricTiles<T(!new)>(data: seq<T>, shape: seq<nat>) returns (tiles: seq<seq<T>>)
    requires |data| == Elements(shape)
    ensures Flatten(tiles) == data && Small(tiles) && forall t | t in tiles :: |t| <= 262144
    decreases |shape|
  {
    if |data| <= TILE {
      assert Flatten([data]) == Flatten([]) + data;
      return [data];
    }
    var width := Elements(shape[1..]);
    tiles := [];
    if width > TILE {
      for row := 0 to shape[0]
        invariant row * width <= |data| && Flatten(tiles) == data[..row * width] && Small(tiles)
      {
        Stretch(row, shape[0], width);
        var part := MetricTiles(data[row * width..(row + 1) * width], shape[1..]);
        FlattenConcat(tiles, part);
        tiles := tiles + part;
        assert data[..(row + 1) * width] == data[..row * width] + data[row * width..(row + 1) * width];
      }
      assert data[..shape[0] * width] == data;
    } else {
      tiles := Slabs(data, shape[0], width);
    }
  }

  lemma RowsFit(width: nat, rows: nat)
    requires 0 < width <= TILE && rows == if TILE / width < 1 then 1 else TILE / width
    ensures 0 < rows && rows * width <= TILE
  {
    assert TILE / width * width <= TILE;
  }

  lemma NoTiles<T(!new)>()
    ensures Flatten<T>([]) == [] && Small<T>([])
  {
  }

  lemma OneMore<T(!new)>(tiles: seq<seq<T>>, tile: seq<T>)
    requires Small(tiles) && |tile| <= TILE
    ensures Small(tiles + [tile]) && Flatten(tiles + [tile]) == Flatten(tiles) + tile
  {
    FlattenSnoc(tiles, tile);
  }

  function Product(a: nat, b: nat): nat { a * b }

  /** Several rows to a tile. */
  method Slabs<T(!new)>(data: seq<T>, extent: nat, width: nat) returns (tiles: seq<seq<T>>)
    requires |data| == Product(extent, width) > TILE && width <= TILE
    ensures Flatten(tiles) == data && Small(tiles)
  {
    assert width > 0;
    hide Product, Flatten, Small;
    var rows := if TILE / width < 1 then 1 else TILE / width;
    RowsFit(width, rows);
    NoTiles<T>();
    tiles := [];
    var start := 0;
    NoRows(width);
    while start < extent
      invariant Product(Min(start, extent), width) <= |data|
      invariant Flatten(tiles) == data[..Product(Min(start, extent), width)] && Small(tiles)
      decreases extent - start
    {
      var stop := Min(start + rows, extent);
      SlabBounds(start, stop, rows, extent, width);
      var tile := data[Product(start, width)..Product(stop, width)];
      OneMore(tiles, tile);
      tiles := tiles + [tile];
      assert data[..Product(stop, width)] == data[..Product(start, width)] + tile;
      start := start + rows;
    }
    assert data[..|data|] == data;
  }

  lemma NoRows(width: nat)
    ensures Product(0, width) == 0
  {
  }

  lemma SlabBounds(start: nat, stop: nat, rows: nat, extent: nat, width: nat)
    requires start < extent && stop == Min(start + rows, extent) && rows * width <= TILE
    ensures Product(start, width) <= Product(stop, width) <= Product(extent, width)
    ensures Product(stop, width) - Product(start, width) <= TILE
  {
    assert stop * width == start * width + (stop - start) * width;
    assert extent * width == stop * width + (extent - stop) * width;
    assert rows * width == (stop - start) * width + (rows - (stop - start)) * width;
    assert (stop - start) * width >= 0 && (extent - stop) * width >= 0 && (rows - (stop - start)) * width >= 0;
  }

  // ----- the fused reducer -----

  function JoinAll(p: seq<Stats>): Stats {
    if p == [] then ZERO else Join(JoinAll(p[..|p| - 1]), p[|p| - 1])
  }

  /** gate_partials: one set of statistics for every 2048 elements, the last tile padded. */
  method GatePartials(data: seq<Sample>) returns (partials: seq<Stats>)
    ensures JoinAll(partials) == StatsOf(data) && |partials| == (|data| + 2047) / 2048
  {
    hide StatsOf, Join;
    partials := [];
    assert data[..0] == [];
    EmptyStats();
    var tile := 0;
    while tile * FUSED < |data|
      invariant JoinAll(partials) == StatsOf(data[..Min(tile * FUSED, |data|)])
      invariant |partials| == tile && (tile > 0 ==> (tile - 1) * FUSED < |data|)
      decreases |data| - tile * FUSED
    {
      var stop := Min((tile + 1) * FUSED, |data|);
      var lanes := data[tile * FUSED..stop];
      var padding := seq((tile + 1) * FUSED - stop, _ => Sample(0.0, 0.0));
      var partial := StatsOf(lanes + padding);
      StatsConcat(lanes, padding);
      PaddingIsNeutral((tile + 1) * FUSED - stop);
      JoinZero(StatsOf(lanes));
      assert data[..stop] == data[..tile * FUSED] + lanes;
      StatsConcat(data[..tile * FUSED], lanes);
      assert (partials + [partial])[..|partials|] == partials;
      partials := partials + [partial];
      tile := tile + 1;
    }
    assert data[..|data|] == data;
  }

  lemma EmptyStats()
    ensures StatsOf([]) == ZERO
  {
  }

  // ----- the accumulator -----

  class ErrorAccumulator {
    var stats: Stats
    var elements: nat
    var partials: seq<Stats>
    ghost var seen: seq<Sample>

    ghost predicate Valid()
      reads this
    {
      elements == |seen| && Join(stats, JoinAll(partials)) == StatsOf(seen)
    }

    constructor ()
      ensures Valid() && seen == []
    {
      hide StatsOf, Join;
      stats, elements, partials, seen := ZERO, 0, [], [];
      EmptyStats();
      JoinZero(ZERO);
    }

    /** One chunk, reduced at once or by the fused kernel. */
    method Add(data: seq<Sample>, shape: seq<nat>, fused: bool) returns (ok: bool)
      requires Valid() && |data| == Elements(shape)
      modifies this
      ensures Valid() && ok == (data != [])
      ensures seen == old(seen) + data
    {
      hide StatsOf, Join;
      ok := data != [];
      assert data == [] ==> seen + data == seen;
      if !ok { return; }
      ghost var before := seen;
      StatsConcat(seen, data);
      elements := elements + |data|;
      seen := seen + data;
      if fused && |data| > TILE {
        var more := GatePartials(data);
        JoinAllConcat(partials, more);
        JoinLaws(stats, JoinAll(partials), JoinAll(more));
        partials := partials + more;
        return;
      }
      var tiles := MetricTiles(data, shape);
      ghost var whole := stats;
      EmptyStats();
      JoinZero(whole);
      for t := 0 to |tiles|
        invariant stats == Join(whole, StatsOf(Flatten(tiles[..t])))
        invariant partials == old(partials) && seen == old(seen) + data && elements == |seen|
      {
        var part := StatsOf(tiles[t]);
        assert tiles[..t + 1] == tiles[..t] + [tiles[t]];
        FlattenSnoc(tiles[..t], tiles[t]);
        StatsConcat(Flatten(tiles[..t]), tiles[t]);
        JoinLaws(whole, StatsOf(Flatten(tiles[..t])), part);
        stats := Join(stats, part);
      }
      assert tiles[..|tiles|] == tiles;
      JoinLaws(whole, JoinAll(partials), StatsOf(data));
    }

    /** The whole-output statistics, the fused partials being merged only now. */
    method Statistics() returns (s: Stats)
      requires Valid()
      modifies this
      ensures Valid() && seen == old(seen) && s == StatsOf(seen)
    {
      hide StatsOf, Join;
      JoinZero(stats);
      for t := 0 to |partials|
        invariant partials == old(partials) && stats == Join(old(stats), JoinAll(partials[..t]))
        invariant seen == old(seen) && elements == old(elements)
      {
        assert partials[..t + 1][..t] == partials[..t];
        JoinLaws(old(stats), JoinAll(partials[..t]), partials[t]);
        stats := Join(stats, partials[t]);
      }
      assert partials[..|partials|] == partials;
      partials := [];
      JoinZero(stats);
      return stats;
    }
  }

  lemma {:induction false} JoinAllConcat(a: seq<Stats>, b: seq<Stats>)
    ensures JoinAll(a + b) == Join(JoinAll(a), JoinAll(b))
    decreases |b|
  {
    if b == [] {
      assert a + b == a;
      JoinZero(JoinAll(a));
    } else {
      hide Join;
      assert (a + b)[..|a + b| - 1] == a + b[..|b| - 1];
      JoinAllConcat(a, b[..|b| - 1]);
      JoinLaws(JoinAll(a), JoinAll(b[..|b| - 1]), b[|b| - 1]);
    }
  }

  // ----- the verdict -----

  /** arithmetic_gate_passes on the statistics of `n` elements. */
  predicate Passes(s: Stats, n: nat, root: real -> real)
    requires n > 0
  {
    var norm := root(s.reference);
    && s.absolute / (n as real) <= 0.002
    && root(s.square) / Larger(norm, 0.000000000001) <= 0.005
    && s.error <= Larger(0.5, 4.0 * s.peak)
  }

  lemma {:induction false} NoError(s: seq<Sample>)
    requires forall i | 0 <= i < |s| :: s[i].got == s[i].want
    ensures StatsOf(s).error == StatsOf(s).absolute == StatsOf(s).square == 0.0
    decreases |s|
  {
    hide Of, Abs;
    if s != [] {
      NoError(s[..|s| - 1]);
      NoErrorOf(s[|s| - 1]);
    }
  }

  lemma NoErrorOf(s: Sample)
    requires s.got == s.want
    ensures Of(s).error == Of(s).absolute == Of(s).square == 0.0
  {
  }

  /** An output without error passes. */
  lemma ExactPasses(s: seq<Sample>, root: real -> real)
    requires s != [] && root(0.0) == 0.0 && forall i | 0 <= i < |s| :: s[i].got == s[i].want
    ensures Passes(StatsOf(s), |s|, root)
  {
    NoError(s);
  }

  // ----- the verdict on samples -----

  /** Running sums give the statistics' sums. */
  lemma {:induction false} SumsOfSamples(s: seq<Sample>, absolute: nat -> real, square: nat -> real, reference: nat -> real, n: nat)
    requires n <= |s| && absolute(0) == square(0) == reference(0) == 0.0
    requires forall i: nat {:trigger s[i]} | i < |s| ::
               && absolute(i + 1) == absolute(i) + (if s[i].got < s[i].want then s[i].want - s[i].got else s[i].got - s[i].want)
               && square(i + 1) == square(i) + (s[i].got - s[i].want) * (s[i].got - s[i].want)
               && reference(i + 1) == reference(i) + s[i].want * s[i].want
    ensures var f := StatsOf(s[..n]); f.absolute == absolute(n) && f.square == square(n) && f.reference == reference(n)
    decreases n
  {
    if n > 0 {
      SumsOfSamples(s, absolute, square, reference, n - 1);
      var last := s[n - 1];
      LastSample(s, n);
      hide StatsOf;
    }
  }

  lemma LastSample(s: seq<Sample>, n: nat)
    requires 0 < n <= |s|
    ensures var k, f, g := s[n - 1], StatsOf(s[..n - 1]), StatsOf(s[..n]);
            && g.absolute == f.absolute + (if k.got < k.want then k.want - k.got else k.got - k.want)
            && g.square == f.square + (k.got - k.want) * (k.got - k.want)
            && g.reference == f.reference + k.want * k.want
  {
    assert s[..n][..n - 1] == s[..n - 1] && s[..n][n - 1] == s[n - 1];
  }

  /** The largest error and the reference peak are attained, and nothing exceeds them. */
  lemma {:induction false} Extremes(s: seq<Sample>)
    ensures forall i | 0 <= i < |s| :: Abs(s[i].got - s[i].want) <= StatsOf(s).error && Abs(s[i].want) <= StatsOf(s).peak
    ensures s != [] ==> exists i :: 0 <= i < |s| && Abs(s[i].got - s[i].want) == StatsOf(s).error
    ensures s != [] ==> exists i :: 0 <= i < |s| && Abs(s[i].want) == StatsOf(s).peak
    decreases |s|
  {
    if s != [] {
      var init, last := Init(s), Last(s);
      Extremes(init);
      assert s[|s| - 1] == last && forall i | 0 <= i < |init| :: s[i] == init[i];
      if init == [] {
        assert StatsOf(init) == ZERO;
      } else {
        var i :| 0 <= i < |init| && Abs(init[i].got - init[i].want) == StatsOf(init).error;
        var j :| 0 <= j < |init| && Abs(init[j].want) == StatsOf(init).peak;
        assert Abs(s[i].got - s[i].want) == StatsOf(init).error && Abs(s[j].want) == StatsOf(init).peak;
      }
    }
  }

  lemma SquaresOrder(a: real, b: real)
    requires a >= 0.0 && b >= 0.0
    ensures a <= b <==> a * a <= b * b
  {
    if a > 0.0 { Exponential.MulMono(a, a, b); }
    if b > 0.0 { Exponential.MulMono(b, a, b); }
  }

  /** The relative error is a comparison of sums of squares. */
  lemma RelativeError(root: real -> real, square: real, reference: real)
    requires forall y {:trigger root(y)} | y >= 0.0 :: root(y) >= 0.0 && root(y) * root(y) == y
    requires square >= 0.0 && reference >= 0.0
    ensures root(square) / Larger(root(reference), 0.000000000001) <= 0.005 <==>
      square <= 0.005 * 0.005 * (if reference < 0.000000000001 * 0.000000000001 then 0.000000000001 * 0.000000000001 else reference)
  {
    var norm, a := root(reference), root(square);
    var bound := Larger(norm, 0.000000000001);
    SquaresOrder(norm, 0.000000000001);
    SquaresOrder(a, 0.005 * bound);
    assert bound * bound == if reference < 0.000000000001 * 0.000000000001 then 0.000000000001 * 0.000000000001 else reference;
    assert (0.005 * bound) * (0.005 * bound) == 0.005 * 0.005 * (bound * bound);
    Quotient(a, bound, 0.005);
  }

  lemma Quotient(a: real, b: real, c: real)
    requires b > 0.0
    ensures a / b <= c <==> a <= c * b
  {
    Exponential.MulMono(b, a / b, c);
    assert Exponential.Mul(b, a / b) == a;
  }

  /** The verdict on statistics without divisions and roots. */
  lemma PassesWithoutRoots(s: seq<Sample>, root: real -> real)
    requires s != [] && forall y {:trigger root(y)} | y >= 0.0 :: root(y) >= 0.0 && root(y) * root(y) == y
    ensures var f := StatsOf(s);
            Passes(f, |s|, root) <==>
              && f.absolute <= 0.002 * |s| as real
              && f.square <= 0.005 * 0.005 * (if f.reference < 0.000000000001 * 0.000000000001 then 0.000000000001 * 0.000000000001 else f.reference)
              && f.error <= Larger(0.5, 4.0 * f.peak)
  {
    var f := StatsOf(s);
    SquaresAreNonNegative(s);
    hide StatsOf;
    RelativeError(root, f.square, f.reference);
    Quotient(f.absolute, |s| as real, 0.002);
  }

  /** The gate passes exactly if the errors are at most 0.002 on average, their squares add up to
      at most 0.005 squared of the larger of the references' squares and 1e-24, and no error
      exceeds both 0.5 and four times every reference. */
  lemma PassesExactly(s: seq<Sample>, root: real -> real, absolute: nat -> real, square: nat -> real, reference: nat -> real)
    requires s != [] && absolute(0) == square(0) == reference(0) == 0.0
    requires forall i: nat {:trigger s[i]} | i < |s| ::
               && absolute(i + 1) == absolute(i) + (if s[i].got < s[i].want then s[i].want - s[i].got else s[i].got - s[i].want)
               && square(i + 1) == square(i) + (s[i].got - s[i].want) * (s[i].got - s[i].want)
               && reference(i + 1) == reference(i) + s[i].want * s[i].want
    requires forall y {:trigger root(y)} | y >= 0.0 :: root(y) >= 0.0 && root(y) * root(y) == y
    ensures Passes(StatsOf(s), |s|, root) <==>
              && absolute(|s|) <= 0.002 * |s| as real
              && square(|s|) <= 0.005 * 0.005 * (if reference(|s|) < 0.000000000001 * 0.000000000001 then 0.000000000001 * 0.000000000001 else reference(|s|))
              && forall i: nat | i < |s| ::
                   || -0.5 <= s[i].got - s[i].want <= 0.5
                   || exists k: nat :: k < |s| && (-4.0 * s[k].want <= s[i].got - s[i].want <= 4.0 * s[k].want
                                                   || 4.0 * s[k].want <= s[i].got - s[i].want <= -4.0 * s[k].want)
  {
    assert s[..|s|] == s;
    SumsOfSamples(s, absolute, square, reference, |s|);
    PassesWithoutRoots(s, root);
    NoErrorTooLarge(s);
    hide StatsOf, Passes, Larger;
  }

  lemma SquaresGrow(f: Stats, k: Sample)
    ensures Join(f, Of(k)).square >= f.square && Join(f, Of(k)).reference >= f.reference
  {
    SquareIsNonNegative(k.got - k.want);
    SquareIsNonNegative(k.want);
  }

  lemma {:induction false} SquaresAreNonNegative(s: seq<Sample>)
    ensures StatsOf(s).square >= 0.0 && StatsOf(s).reference >= 0.0
    decreases |s|
  {
    if s != [] {
      SquaresAreNonNegative(s[..|s| - 1]);
      SquaresGrow(StatsOf(s[..|s| - 1]), s[|s| - 1]);
      hide Of, Join;
    }
  }

  lemma SquareIsNonNegative(d: real)
    ensures d * d >= 0.0
  {
  }

  lemma NoErrorTooLarge(s: seq<Sample>)
    requires s != []
    ensures StatsOf(s).error <= Larger(0.5, 4.0 * StatsOf(s).peak) <==>
              forall i: nat | i < |s| ::
                || -0.5 <= s[i].got - s[i].want <= 0.5
                || exists k: nat :: k < |s| && (-4.0 * s[k].want <= s[i].got - s[i].want <= 4.0 * s[k].want
                                                || 4.0 * s[k].want <= s[i].got - s[i].want <= -4.0 * s[k].want)
  {
    hide StatsOf;
    Extremes(s);
    var worst: nat :| worst < |s| && Abs(s[worst].got - s[worst].want) == StatsOf(s).error;
    var top: nat :| top < |s| && Abs(s[top].want) == StatsOf(s).peak;
    forall i: nat | i < |s| && StatsOf(s).error <= Larger(0.5, 4.0 * StatsOf(s).peak)
      ensures -0.5 <= s[i].got - s[i].want <= 0.5
              || -4.0 * s[top].want <= s[i].got - s[i].want <= 4.0 * s[top].want
              || 4.0 * s[top].want <= s[i].got - s[i].want <= -4.0 * s[top].want
    {
    }
    if StatsOf(s).error > Larger(0.5, 4.0 * StatsOf(s).peak) {
      forall k: nat | k < |s|
        ensures !(-4.0 * s[k].want <= s[worst].got - s[worst].want <= 4.0 * s[k].want
                  || 4.0 * s[k].want <= s[worst].got - s[worst].want <= -4.0 * s[k].want)
      {
        assert Abs(s[k].want) <= StatsOf(s).peak;
      }
    }
  }
}
