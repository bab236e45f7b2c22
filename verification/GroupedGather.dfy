/**
 The fused gather of restricted-domain K/V rows: one program per block of 64 rows copies
 its window rows by index, leaves the sink rows alone, and reduces the block to its
 summaries.  Programs run in any order.

 One head and one coordinate of K and of V.
*/
module GroupedGather {
  import opened Basics

  lemma {:induction false} SumZeros(n: nat)
    ensures SumAll(seq(n, _ => 0.0)) == 0.0
  {
    if n > 0 {
      SumZeros(n - 1);
      assert seq(n, _ => 0.0)[..n - 1] == seq(n - 1, _ => 0.0);
    }
  }

  function Blocks(rows: nat): nat { (rows + 63) / 64 }

  function End(rows: nat, block: nat): nat { if 64 * block + 64 < rows then 64 * block + 64 else rows }

  /** The rows of one block. */
  function Tile(s: seq<real>, block: nat): (t: seq<real>)
    requires 64 * block < |s|
    ensures 0 < |t| <= 64
  {
    s[64 * block..End(|s|, block)]
  }

  /** What the separate reducer makes of a block: the mean of its K rows and the sum of its
      V rows. */
  function MeanOf(k: seq<real>, block: nat): real
    requires 64 * block < |k|
  {
    SumAll(Tile(k, block)) / (|Tile(k, block)| as real)
  }

  function SumOf(v: seq<real>, block: nat): real
    requires 64 * block < |v|
  {
    SumAll(Tile(v, block))
  }

  /** A whole tile of 64 lanes, those past the last row loaded as zero. */
  function Padded(t: seq<real>): (p: seq<real>)
    requires |t| <= 64
    ensures |p| == 64 && SumAll(p) == SumAll(t)
  {
    SumAllConcat(t, seq(64 - |t|, _ => 0.0));
    SumZeros(64 - |t|);
    t + seq(64 - |t|, _ => 0.0)
  }

  /** The reducer itself: padded loads, one division by the number of real rows. */
  method ReduceBlock(k: seq<real>, v: seq<real>, block: nat) returns (mean: real, sum: real)
    requires |k| == |v| && 64 * block < |k|
    ensures mean == MeanOf(k, block) && sum == SumOf(v, block)
  {
    var length := if 64 < |k| - block * 64 then 64 else |k| - block * 64;
    mean := SumAll(Padded(Tile(k, block))) / (length as real);
    sum := SumAll(Padded(Tile(v, block)));
  }

  // ----- the fused programs -----

  /** Row i after the gather: untouched below `sinks`, the indexed source row above. */
  function Gathered(before: seq<real>, source: seq<real>, index: seq<nat>, sinks: nat): (after: seq<real>)
    requires |index| == (if sinks < |before| then |before| - sinks else 0) && forall n | 0 <= n < |index| :: index[n] < |source|
    ensures |after| == |before|
    ensures forall i: nat | i < |before| :: after[i] == if i < sinks then before[i] else source[index[i - sinks]]
  {
    seq(|before|, i requires 0 <= i < |before| => if i < sinks then before[i] else source[index[i - sinks]])
  }

  /** One tensor of one program: load the window rows, keep the sink rows, store the window
      rows; the tile the summary is taken of, in restricted-domain order. */
  method GatherTile(source: seq<real>, index: seq<nat>, sinks: nat, block: nat, out: array<real>) returns (tile: seq<real>)
    requires 64 * block < out.Length
    requires |index| == (if sinks < out.Length then out.Length - sinks else 0) && forall n | 0 <= n < |index| :: index[n] < |source|
    modifies out
    ensures forall i: nat | i < out.Length :: out[i] ==
              if 64 * block <= i < End(out.Length, block) && i >= sinks then source[index[i - sinks]] else old(out[i])
    ensures |tile| == 64 && SumAll(tile) == SumAll(Tile(out[..], block))
  {
    tile := [];
    ghost var was := out[..];
    for lane := 0 to 64
      invariant |tile| == lane
      invariant forall i: nat | i < out.Length :: out[i] ==
                  if 64 * block <= i < 64 * block + lane && i >= sinks then source[index[i - sinks]] else was[i]
      invariant forall n: nat | n < lane :: tile[n] == if 64 * block + n < out.Length then out[64 * block + n] else 0.0
    {
      var row := block * 64 + lane;
      if row < out.Length && row >= sinks {
        out[row] := source[index[row - sinks]];
        tile := tile + [source[index[row - sinks]]];
      } else {
        tile := tile + [if row < sinks && row < out.Length then out[row] else 0.0];
      }
    }
    assert tile == Padded(Tile(out[..], block));
  }

  /** Every block runs once. */
  predicate Order(order: seq<nat>, blocks: nat) {
    && (forall n | 0 <= n < |order| :: order[n] < blocks)
    && (forall m, n | 0 <= m < n < |order| :: order[m] != order[n])
    && (forall b: nat | b < blocks :: b in order)
  }

  /** The blocks of `done` hold their final rows, all others their original ones. */
  predicate Progress(now: seq<real>, before: seq<real>, after: seq<real>, done: set<nat>) {
    |now| == |before| == |after| && forall i: nat | i < |now| :: now[i] == if i / 64 in done then after[i] else before[i]
  }

  /** One tensor of one program, whatever the others have done so far. */
  method GatherBlock(source: seq<real>, index: seq<nat>, sinks: nat, block: nat, out: array<real>,
                     ghost before: seq<real>, ghost done: set<nat>) returns (tile: seq<real>)
    requires 64 * block < out.Length == |before| && block !in done
    requires |index| == (if sinks < out.Length then out.Length - sinks else 0) && forall n | 0 <= n < |index| :: index[n] < |source|
    requires Progress(out[..], before, Gathered(before, source, index, sinks), done)
    modifies out
    ensures Progress(out[..], before, Gathered(before, source, index, sinks), done + {block})
    ensures SumAll(tile) == SumAll(Tile(Gathered(before, source, index, sinks), block))
  {
    ghost var was := out[..];
    tile := GatherTile(source, index, sinks, block, out);
    ghost var after := Gathered(before, source, index, sinks);
    forall i: nat | i < out.Length ensures out[i] == if i / 64 in done + {block} then after[i] else before[i] {
      assert was[i] == if i / 64 in done then after[i] else before[i];
    }
    assert Tile(out[..], block) == Tile(after, block);
  }

  /** All programs of the launch, in any order: sink rows are left as they were, window
      rows hold the indexed rows, and every summary is what the separate reducer would
      compute from the result, the straddling and the partial tile included. */
  method GatherSummaries(key: seq<real>, value: seq<real>, index: seq<nat>, sinks: nat, order: seq<nat>,
                         ko: array<real>, vo: array<real>) returns (kc: array<real>, vc: array<real>)
    requires ko != vo && ko.Length == vo.Length > 0 && |key| == |value| && Order(order, Blocks(ko.Length))
    requires |index| == (if sinks < ko.Length then ko.Length - sinks else 0) && forall n | 0 <= n < |index| :: index[n] < |key|
    modifies ko, vo
    ensures ko[..] == Gathered(old(ko[..]), key, index, sinks) && vo[..] == Gathered(old(vo[..]), value, index, sinks)
    ensures fresh(kc) && fresh(vc) && kc.Length == vc.Length == Blocks(ko.Length)
    ensures forall b: nat | b < kc.Length :: kc[b] == MeanOf(ko[..], b) && vc[b] == SumOf(vo[..], b)
  {
    hide SumAll, Progress;
    var rows := ko.Length;
    kc, vc := new real[Blocks(rows)], new real[Blocks(rows)];
    ghost var k0, v0, done := ko[..], vo[..], {};
    ghost var k', v' := Gathered(k0, key, index, sinks), Gathered(v0, value, index, sinks);
    Untouched(k0, k');
    Untouched(v0, v');
    for n := 0 to |order|
      invariant forall b :: b in done <==> b in order[..n]
      invariant Progress(ko[..], k0, k', done) && Progress(vo[..], v0, v', done)
      invariant forall b: nat | b < Blocks(rows) && b in done :: kc[b] == MeanOf(k', b) && vc[b] == SumOf(v', b)
    {
      var block := order[n];
      assert order[..n + 1] == order[..n] + [block];
      var k := GatherBlock(key, index, sinks, block, ko, k0, done);
      var v := GatherBlock(value, index, sinks, block, vo, v0, done);
      var count := if 64 < rows - block * 64 then 64 else rows - block * 64;
      kc[block] := SumAll(k) / (count as real);
      vc[block] := SumAll(v);
      done := done + {block};
    }
    assert order[..|order|] == order;
    Finished(ko[..], k0, k', done);
    Finished(vo[..], v0, v', done);
  }

  lemma Untouched(before: seq<real>, after: seq<real>)
    requires |before| == |after|
    ensures Progress(before, before, after, {})
  {
  }

  lemma Finished(now: seq<real>, before: seq<real>, after: seq<real>, done: set<nat>)
    requires Progress(now, before, after, done) && forall b: nat | b < Blocks(|now|) :: b in done
    ensures now == after
  {
    assert forall i: nat | i < |now| :: i / 64 < Blocks(|now|);
  }

  /** The reducer's mean and sum of a block, by running sums over the rows. */
  lemma ReducedExactly(k: seq<real>, v: seq<real>, block: nat, kSums: nat -> real, vSums: nat -> real)
    requires |k| == |v| && 64 * block < |k|
    requires forall u: nat {:trigger k[u]} | u < |k| :: kSums(u + 1) == kSums(u) + k[u]
    requires forall u: nat {:trigger v[u]} | u < |v| :: vSums(u + 1) == vSums(u) + v[u]
    ensures var end := if 64 * block + 64 < |k| then 64 * block + 64 else |k|;
            && MeanOf(k, block) == (kSums(end) - kSums(64 * block)) / (end - 64 * block) as real
            && SumOf(v, block) == vSums(end) - vSums(64 * block)
  {
    var n := End(|k|, block) - 64 * block;
    SumOfPart(k, kSums, 64 * block, n);
    SumOfPart(v, vSums, 64 * block, n);
  }
}
