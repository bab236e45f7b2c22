/**
 The representative K/V rows of a mixed-grid sequence: every source-grid coordinate takes
 the nearest row of the denser prefix grid, and the gather keeps the native order.

 The ratio of an axis to the square root of the latent area is a parameter, as the root is
 irrational in general.
*/
module MixedMeasure {
  datatype Result<T> = Ok(value: T) | Refused

  function Abs(x: real): real { if x < 0.0 then -x else x }

  predicate Rising(s: seq<real>) { forall i, j | 0 <= i < j < |s| :: s[i] < s[j] }
  predicate Increasing(s: seq<nat>) { forall i, j | 0 <= i < j < |s| :: s[i] < s[j] }

  /** _axis_coordinates. */
  function Coordinate(ratio: real, count: nat, i: nat): real
    requires count > 0
  {
    (i as real * (ratio / count as real) + (1.0 - ratio) / 2.0) * 32.0
  }

  function Axis(ratio: real, count: nat): (s: seq<real>)
    requires count > 0
    ensures |s| == count && forall i: nat | i < count :: s[i] == Coordinate(ratio, count, i)
  {
    seq(count, i requires 0 <= i < count => Coordinate(ratio, count, i))
  }

  lemma AxisRises(ratio: real, count: nat)
    requires count > 0 && ratio > 0.0
    ensures Rising(Axis(ratio, count))
  {
    var step := ratio / count as real;
    forall i, j | 0 <= i < j < count ensures Coordinate(ratio, count, i) < Coordinate(ratio, count, j) {
      assert j as real * step == i as real * step + (j - i) as real * step;
    }
  }

  // ----- the nearest grid point -----

  /** The least distance, and among equals the least index. */
  predicate IsNearest(grid: seq<real>, value: real, j: nat) {
    && j < |grid|
    && (forall i | 0 <= i < |grid| :: Abs(grid[j] - value) <= Abs(grid[i] - value))
    && (forall i | 0 <= i < j :: Abs(grid[j] - value) < Abs(grid[i] - value))
  }

  method Nearest(grid: seq<real>, value: real) returns (j: nat)
    requires grid != []
    ensures IsNearest(grid, value, j)
  {
    j := 0;
    for n := 1 to |grid|
      invariant j < n
      invariant forall i | 0 <= i < n :: Abs(grid[j] - value) <= Abs(grid[i] - value)
      invariant forall i | 0 <= i < j :: Abs(grid[j] - value) < Abs(grid[i] - value)
    {
      if Abs(grid[n] - value) < Abs(grid[j] - value) { j := n; }
    }
  }

  /** A larger value never has an earlier nearest point, ties included. */
  lemma NearestIsMonotone(grid: seq<real>, a: real, b: real, i: nat, j: nat)
    requires Rising(grid) && a < b && IsNearest(grid, a, i) && IsNearest(grid, b, j)
    ensures i <= j
  {
    var p, q := grid[i], grid[j];
    assert Abs(p - a) <= Abs(q - a) && Abs(q - b) <= Abs(p - b);
  }

  /** Points of a grid no denser than `grid`, over the same extent, have different nearest
      points: the one-to-one check cannot fail when both grids have one aspect ratio. */
  lemma SameAspectIsOneToOne(ratio: real, coarse: nat, fine: nat, u: nat, v: nat, i: nat, j: nat)
    requires ratio > 0.0 && 0 < coarse <= fine && u < v < coarse
    requires IsNearest(Axis(ratio, fine), Coordinate(ratio, coarse, u), i)
    requires IsNearest(Axis(ratio, fine), Coordinate(ratio, coarse, v), j)
    ensures i < j
  {
    AxisRises(ratio, fine);
    AxisRises(ratio, coarse);
    assert Axis(ratio, coarse)[u] < Axis(ratio, coarse)[v];
    NearestIsMonotone(Axis(ratio, fine), Coordinate(ratio, coarse, u), Coordinate(ratio, coarse, v), i, j);
    if i == j { OnePointOnly(ratio, coarse, fine, u, v, i); }
  }

  /** Two coarse points are a fine step apart; a fine point nearest to both would be at most
      half a step from each, with a tie on the upper side that the next point loses. */
  lemma OnePointOnly(ratio: real, coarse: nat, fine: nat, u: nat, v: nat, j: nat)
    requires ratio > 0.0 && 0 < coarse <= fine && u < v < coarse
    requires IsNearest(Axis(ratio, fine), Coordinate(ratio, coarse, u), j)
    ensures !IsNearest(Axis(ratio, fine), Coordinate(ratio, coarse, v), j)
  {
    var grid, a, b := Axis(ratio, fine), Coordinate(ratio, coarse, u), Coordinate(ratio, coarse, v);
    var wide, step := ratio / coarse as real * 32.0, ratio / fine as real * 32.0;
    Steps(ratio, coarse, u, v);
    StepOrder(ratio, coarse, fine);
    assert b >= a + step;
    if j > 0 { Steps(ratio, fine, j - 1, j); assert grid[j - 1] == grid[j] - step; assert a > grid[j] - step / 2.0; }
    if j + 1 < fine {
      Steps(ratio, fine, j, j + 1);
      assert grid[j + 1] == grid[j] + step;
    } else {
      LastIsInside(ratio, coarse, fine, v);
    }
    if j == 0 { Steps(ratio, coarse, 0, u); }
  }

  /** Distances along an axis. */
  lemma Steps(ratio: real, count: nat, i: nat, j: nat)
    requires count > 0 && i <= j && ratio > 0.0
    ensures Coordinate(ratio, count, j) == Coordinate(ratio, count, i) + (j - i) as real * (ratio / count as real * 32.0)
    ensures i < j ==> Coordinate(ratio, count, j) >= Coordinate(ratio, count, i) + ratio / count as real * 32.0
  {
    var s := ratio / count as real;
    assert j as real * s == i as real * s + (j - i) as real * s;
    if i < j { assert (j - i) as real * s >= s; }
  }

  lemma StepOrder(ratio: real, coarse: nat, fine: nat)
    requires ratio > 0.0 && 0 < coarse <= fine
    ensures ratio / coarse as real >= ratio / fine as real > 0.0
  {
    var c, f := ratio / coarse as real, ratio / fine as real;
    assert c * coarse as real == ratio == f * fine as real;
  }

  /** The last coarse point does not lie beyond the last fine one. */
  lemma LastIsInside(ratio: real, coarse: nat, fine: nat, v: nat)
    requires ratio > 0.0 && 0 < coarse <= fine && v < coarse
    ensures Coordinate(ratio, coarse, v) <= Coordinate(ratio, fine, fine - 1)
  {
    var c, f := ratio / coarse as real, ratio / fine as real;
    StepOrder(ratio, coarse, fine);
    assert v as real * c <= (coarse - 1) as real * c == ratio - c <= ratio - f == (fine - 1) as real * f;
  }

  // ----- the representative rows -----

  /** One axis: the nearest prefix coordinate of every source coordinate. */
  method AxisIndices(source: seq<real>, prefix: seq<real>) returns (index: seq<nat>)
    requires prefix != []
    ensures |index| == |source| && forall n | 0 <= n < |source| :: IsNearest(prefix, source[n], index[n])
  {
    index := [];
    for n := 0 to |source|
      invariant |index| == n && forall m | 0 <= m < n :: IsNearest(prefix, source[m], index[m])
    {
      var j := Nearest(prefix, source[n]);
      index := index + [j];
    }
  }

  predicate Distinct(s: seq<nat>) { forall i, j | 0 <= i < j < |s| :: s[i] != s[j] }

  /** One-to-one nearest indices are already in increasing order. */
  lemma DistinctIsIncreasing(source: seq<real>, prefix: seq<real>, index: seq<nat>)
    requires Rising(source) && Rising(prefix) && |index| == |source| && Distinct(index)
    requires forall n | 0 <= n < |source| :: IsNearest(prefix, source[n], index[n])
    ensures Increasing(index)
  {
    forall i, j | 0 <= i < j < |index| ensures index[i] < index[j] {
      NearestIsMonotone(prefix, source[i], source[j], index[i], index[j]);
    }
  }

  /** Row y * width + x for every pair, y first. */
  function Grid(ys: seq<nat>, xs: seq<nat>, width: nat): seq<nat> {
    if ys == [] then []
    else Grid(ys[..|ys| - 1], xs, width) + Shifted(xs, Times(ys[|ys| - 1], width))
  }

  function Shifted(xs: seq<nat>, base: nat): (r: seq<nat>)
    ensures |r| == |xs| && forall i | 0 <= i < |xs| :: r[i] == base + xs[i]
  {
    seq(|xs|, i requires 0 <= i < |xs| => base + xs[i])
  }

  predicate Below(s: seq<nat>, bound: nat) { forall i | 0 <= i < |s| :: s[i] < bound }

  /** A product, named so that it is not taken apart where only its growth matters. */
  function Times(a: nat, b: nat): (p: nat)
    ensures p == a * b
  {
    a * b
  }

  lemma TimesStep(a: nat, w: nat)
    ensures Times(a + 1, w) == Times(a, w) + w
  {
  }

  lemma {:induction false} TimesMono(a: nat, b: nat, w: nat)
    requires a <= b
    ensures Times(a, w) <= Times(b, w)
    decreases b
  {
    if a < b {
      TimesMono(a, b - 1, w);
      TimesStep(b - 1, w);
    }
  }

  lemma Appended(a: seq<nat>, b: seq<nat>, mid: nat, end: nat)
    requires Increasing(a) && Below(a, mid) && Increasing(b) && Below(b, end) && mid <= end
    requires forall i | 0 <= i < |b| :: b[i] >= mid
    ensures Increasing(a + b) && Below(a + b, end)
  {
  }

  lemma {:induction false} GridIncreases(ys: seq<nat>, xs: seq<nat>, width: nat, bound: nat)
    requires Increasing(ys) && Below(ys, bound) && Increasing(xs) && Below(xs, width)
    ensures Increasing(Grid(ys, xs, width)) && |Grid(ys, xs, width)| == Times(|ys|, |xs|)
    ensures Below(Grid(ys, xs, width), Times(bound, width))
    decreases |ys|
  {
    hide Times;
    if ys != [] {
      var n := |ys| - 1;
      var y := ys[n];
      GridIncreases(ys[..n], xs, width, y);
      TimesStep(n, |xs|);
      TimesStep(y, width);
      TimesMono(y + 1, bound, width);
      Appended(Grid(ys[..n], xs, width), Shifted(xs, Times(y, width)), Times(y, width), Times(bound, width));
    } else {
      assert Times(0, |xs|) == 0;
    }
  }

  lemma {:induction false} GridLength(ys: seq<nat>, xs: seq<nat>, width: nat)
    ensures |Grid(ys, xs, width)| == Times(|ys|, |xs|)
    decreases |ys|
  {
    hide Times;
    if ys != [] {
      GridLength(ys[..|ys| - 1], xs, width);
      TimesStep(|ys| - 1, |xs|);
    } else {
      NoTimes(|xs|);
    }
  }

  /** The row at (y, x) combines the y-th vertical and the x-th horizontal index. */
  lemma {:induction false} GridAt(ys: seq<nat>, xs: seq<nat>, width: nat, y: nat, x: nat)
    requires y < |ys| && x < |xs|
    ensures Times(y, |xs|) + x < |Grid(ys, xs, width)|
    ensures Grid(ys, xs, width)[Times(y, |xs|) + x] == Times(ys[y], width) + xs[x]
    decreases |ys|
  {
    hide Times;
    var n := |ys| - 1;
    GridLength(ys[..n], xs, width);
    if y < n {
      GridAt(ys[..n], xs, width, y, x);
      assert Grid(ys, xs, width)[Times(y, |xs|) + x] == Grid(ys[..n], xs, width)[Times(y, |xs|) + x];
    }
  }

  /** The sizes that the source accepts. */
  predicate Sizes(sourceH: int, sourceW: int, prefixH: int, prefixW: int) {
    0 < sourceH <= prefixH && 0 < sourceW <= prefixW && sourceH * sourceW < prefixH * prefixW
  }

  /** Row (y, x) of the source grid is represented by row h[y] and column w[x] of the prefix
      frame. */
  predicate Represents(rows: seq<nat>, h: seq<nat>, w: seq<nat>, prefixW: nat) {
    |rows| == Times(|h|, |w|) && forall y: nat, x: nat | y < |h| && x < |w| :: RowAt(rows, Times(y, |w|) + x, Times(h[y], prefixW) + w[x])
  }

  predicate RowAt(rows: seq<nat>, at: nat, row: nat) { at < |rows| && rows[at] == row }

  lemma GridRepresents(h: seq<nat>, w: seq<nat>, prefixW: nat)
    ensures Represents(Grid(h, w, prefixW), h, w, prefixW)
  {
    hide Times;
    GridLength(h, w, prefixW);
    forall y: nat, x: nat | y < |h| && x < |w| ensures RowAt(Grid(h, w, prefixW), Times(y, |w|) + x, Times(h[y], prefixW) + w[x]) {
      GridAt(h, w, prefixW, y, x);
    }
  }

  /** representative_spatial_indices, with the axis ratios given: `h` and `w` are the nearest
      prefix rows and columns of the source coordinates.  The sizes are accepted exactly if both
      are one-to-one; then every source coordinate has the row that they name, and rows are in
      native order, distinct and inside the prefix frame.  The final uniqueness check never
      fails, and for one aspect ratio nothing does. */
  method Representatives(sourceH: int, sourceW: int, prefixH: int, prefixW: int, ratios: (real, real, real, real))
    returns (r: Result<seq<nat>>, ghost h: seq<nat>, ghost w: seq<nat>)
    requires ratios.0 > 0.0 && ratios.1 > 0.0 && ratios.2 > 0.0 && ratios.3 > 0.0
    ensures Sizes(sourceH, sourceW, prefixH, prefixW) ==>
              NearestOnAxis(ratios.0, ratios.2, sourceH, prefixH, h) && NearestOnAxis(ratios.1, ratios.3, sourceW, prefixW, w)
    ensures r.Ok? <==> Sizes(sourceH, sourceW, prefixH, prefixW) && Distinct(h) && Distinct(w)
    ensures r.Ok? ==> Represents(r.value, h, w, prefixW) && Increasing(r.value) && Below(r.value, Times(prefixH, prefixW))
    ensures Sizes(sourceH, sourceW, prefixH, prefixW) && ratios.0 == ratios.2 && ratios.1 == ratios.3 ==> r.Ok?
  {
    h, w := [], [];
    if sourceH <= 0 || sourceW <= 0 || prefixH <= 0 || prefixW <= 0 { return Refused, h, w; }
    if sourceH > prefixH || sourceW > prefixW || sourceH * sourceW >= prefixH * prefixW { return Refused, h, w; }
    var hIndex := AxisIndices(Axis(ratios.0, sourceH), Axis(ratios.2, prefixH));
    var wIndex := AxisIndices(Axis(ratios.1, sourceW), Axis(ratios.3, prefixW));
    h, w := hIndex, wIndex;
    AllDistinct(ratios.0, ratios.2, sourceH, prefixH, hIndex);
    AllDistinct(ratios.1, ratios.3, sourceW, prefixW, wIndex);
    if !Distinct(hIndex) || !Distinct(wIndex) { return Refused, h, w; }
    AxisOrder(ratios.0, ratios.2, sourceH, prefixH, hIndex);
    AxisOrder(ratios.1, ratios.3, sourceW, prefixW, wIndex);
    GridIncreases(hIndex, wIndex, prefixW, prefixH);
    GridRepresents(hIndex, wIndex, prefixW);
    var rows := Grid(hIndex, wIndex, prefixW);
    if |rows| != sourceH * sourceW || !Distinct(rows) { return Refused, h, w; }
    r := Ok(rows);
  }

  ghost predicate NearestOnAxis(a: real, b: real, coarse: nat, fine: nat, index: seq<nat>)
    requires 0 < coarse && 0 < fine
  {
    |index| == coarse && forall n: nat | n < coarse :: IsNearest(Axis(b, fine), Axis(a, coarse)[n], index[n])
  }

  lemma AllDistinct(a: real, b: real, coarse: nat, fine: nat, index: seq<nat>)
    requires a > 0.0 && 0 < coarse <= fine && NearestOnAxis(a, b, coarse, fine, index)
    ensures a == b ==> Distinct(index)
  {
    if a == b {
      forall i: nat, j: nat | i < j < coarse ensures index[i] < index[j] {
        SameAspectIsOneToOne(a, coarse, fine, i, j, index[i], index[j]);
      }
    }
  }

  lemma AxisOrder(a: real, b: real, coarse: nat, fine: nat, index: seq<nat>)
    requires a > 0.0 && b > 0.0 && 0 < coarse <= fine && NearestOnAxis(a, b, coarse, fine, index) && Distinct(index)
    ensures Increasing(index) && Below(index, fine)
  {
    AxisRises(a, coarse);
    AxisRises(b, fine);
    DistinctIsIncreasing(Axis(a, coarse), Axis(b, fine), index);
  }

  // ----- the gather -----

  function Count(from: nat, n: nat): (s: seq<nat>)
    ensures |s| == n && forall i | 0 <= i < n :: s[i] == from + i
  {
    seq(n, i requires 0 <= i => from + i)
  }

  /** Row n of prefix frame f is that frame's n-th representative. */
  predicate FrameRows(indices: seq<nat>, start: nat, frames: nat, prefixRows: nat, reps: seq<nat>) {
    forall f: nat, n: nat | f < frames && n < |reps| ::
      RowAt(indices, start + Times(f, |reps|) + n, start + Times(f, prefixRows) + reps[n])
  }

  lemma FrameAppended(indices: seq<nat>, start: nat, frame: nat, prefixRows: nat, reps: seq<nat>)
    requires |indices| == start + Times(frame, |reps|) && FrameRows(indices, start, frame, prefixRows, reps)
    ensures FrameRows(indices + Shifted(reps, start + Times(frame, prefixRows)), start, frame + 1, prefixRows, reps)
  {
    hide Times;
    FramesRemain(indices, Shifted(reps, start + Times(frame, prefixRows)), start, frame, prefixRows, reps);
  }

  lemma FramesRemain(indices: seq<nat>, more: seq<nat>, start: nat, frames: nat, prefixRows: nat, reps: seq<nat>)
    requires FrameRows(indices, start, frames, prefixRows, reps)
    ensures FrameRows(indices + more, start, frames, prefixRows, reps)
  {
    hide Times;
  }

  /** kv_gather_indices: all rows before the video, the representatives of every prefix frame,
      all rows of the source-grid suffix, in native order and without repetition.  The
      consistency check never fails on a validated contract. */
  method GatherIndices(start: nat, prefixT: nat, temporal: nat, prefixRows: nat, sourceRows: nat, reps: seq<nat>)
    returns (r: Result<seq<nat>>)
    requires prefixT < temporal && Increasing(reps) && |reps| == sourceRows && Below(reps, prefixRows)
    ensures r.Ok? && Increasing(r.value) && |r.value| == start + Times(temporal, sourceRows)
    ensures Below(r.value, start + Times(prefixT, prefixRows) + Times(temporal - prefixT, sourceRows))
    ensures r.value[..start] == Count(0, start)
    ensures FrameRows(r.value, start, prefixT, prefixRows, reps)
    ensures r.value[start + Times(prefixT, sourceRows)..] == Count(start + Times(prefixT, prefixRows), Times(temporal - prefixT, sourceRows))
  {
    TimesSplit(prefixT, temporal, sourceRows);
    NoTimes(prefixRows);
    NoTimes(sourceRows);
    hide Times;
    var indices := Count(0, start);
    for frame := 0 to prefixT
      invariant |indices| == start + Times(frame, sourceRows) && indices[..start] == Count(0, start)
      invariant Increasing(indices) && Below(indices, start + Times(frame, prefixRows))
      invariant FrameRows(indices, start, frame, prefixRows, reps)
    {
      var base := start + Times(frame, prefixRows);
      TimesStep(frame, prefixRows);
      TimesStep(frame, sourceRows);
      Appended(indices, Shifted(reps, base), base, base + prefixRows);
      assert (indices + Shifted(reps, base))[..start] == indices[..start];
      FrameAppended(indices, start, frame, prefixRows, reps);
      indices := indices + Shifted(reps, base);
    }
    var suffixStart := start + Times(prefixT, prefixRows);
    var suffixRows := Times(temporal - prefixT, sourceRows);
    Appended(indices, Count(suffixStart, suffixRows), suffixStart, suffixStart + suffixRows);
    FramesRemain(indices, Count(suffixStart, suffixRows), start, prefixT, prefixRows, reps);
    indices := indices + Count(suffixStart, suffixRows);
    if |indices| != start + Times(temporal, sourceRows) || !Distinct(indices) { return Refused; }
    r := Ok(indices);
  }

  lemma TimesSplit(a: nat, b: nat, w: nat)
    requires a <= b
    ensures Times(a, w) + Times(b - a, w) == Times(b, w)
  {
  }

  lemma NoTimes(w: nat)
    ensures Times(0, w) == 0
  {
  }

  // ----- coordinates -----

  /** Nearest, in the axes' own coordinates: source coordinate i of an axis of n takes prefix index
      j of m if no other prefix coordinate is nearer and none before it is as near. */
  lemma NearestExactly(a: real, n: nat, i: nat, b: real, m: nat, j: nat, grid: nat -> real, source: real)
    requires i < n && j < m && source == (i as real * (a / n as real) + (1.0 - a) / 2.0) * 32.0
    requires forall k: nat {:trigger grid(k)} | k < m :: grid(k) == (k as real * (b / m as real) + (1.0 - b) / 2.0) * 32.0
    ensures IsNearest(Axis(b, m), Axis(a, n)[i], j) <==>
              forall k: nat | k < m ::
                var near := if grid(j) < source then source - grid(j) else grid(j) - source;
                var far := if grid(k) < source then source - grid(k) else grid(k) - source;
                near <= far && (k < j ==> near < far)
  {
    assert Axis(a, n)[i] == source;
    forall k: nat | k < m ensures Axis(b, m)[k] == grid(k) {}
    NearestOf(Axis(b, m), source, j, grid);
  }

  lemma NearestOf(axis: seq<real>, source: real, j: nat, grid: nat -> real)
    requires j < |axis| && forall k: nat | k < |axis| :: axis[k] == grid(k)
    ensures IsNearest(axis, source, j) <==>
              forall k: nat | k < |axis| ::
                var near := if grid(j) < source then source - grid(j) else grid(j) - source;
                var far := if grid(k) < source then source - grid(k) else grid(k) - source;
                near <= far && (k < j ==> near < far)
  {
  }
}
