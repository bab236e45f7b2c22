/**
 One query row of the SM90 kernel: the FlashAttention online softmax over the summaries and
 the exact blocks of each split's groups, the splits' outputs and log-sum-exps, and their
 combination, proved equal to the two-pass reference.

 The online softmax counts every column once.  A summary stands for as many keys as its
 block has, so the row sums are corrected after each batch of summaries: by one product
 where all blocks are full, column by column where the last one is not.
*/
module Sm90Row {
  import opened Basics
  import opened Exponential
  import opened Words
  import opened MixedOperator
  import opened OnlineSoftmax
  import opened RouteCompaction
  import opened Routing
  import opened ForwardSm120
  import opened ChosenBlocks
  import opened SplitMerge
  import opened KernelMeaning
  import Sm90Scan

  // ----- what the row sums miss -----

  /** The columns as the online softmax counts them. */
  function Once(cols: seq<Column>): (s: seq<Column>)
    ensures |s| == |cols| && forall c | 0 <= c < |cols| :: s[c] == cols[c].(mass := 1)
  {
    seq(|cols|, c requires 0 <= c < |cols| => cols[c].(mass := 1))
  }

  /** The keys that it does not count. */
  function Missed(k: Column): nat { if k.mass == 0 then 0 else k.mass - 1 }

  function Rest(cols: seq<Column>): (s: seq<Column>)
    ensures |s| == |cols| && forall c | 0 <= c < |cols| :: s[c] == cols[c].(mass := Missed(cols[c]))
  {
    seq(|cols|, c requires 0 <= c < |cols| => cols[c].(mass := Missed(cols[c])))
  }

  lemma {:induction false} MassSplits(x: Exp2, cols: seq<Column>, scale: real, m: real)
    requires forall c | 0 <= c < |cols| && cols[c].raw.Fin? :: cols[c].mass > 0
    ensures Den(x, Live(cols, scale), m) == Den(x, Live(Once(cols), scale), m) + Den(x, Live(Rest(cols), scale), m)
    ensures Num(x, Live(cols, scale), m) == Num(x, Live(Once(cols), scale), m)
    ensures Live(cols, scale) == [] <==> Live(Once(cols), scale) == []
    ensures Live(cols, scale) == [] <==> Live(Rest(cols), scale) == []
    decreases |cols|
  {
    if cols != [] {
      var n := |cols| - 1;
      MassSplits(x, cols[..n], scale, m);
      assert Once(cols)[..n] == Once(cols[..n]) && Rest(cols)[..n] == Rest(cols[..n]);
      if cols[n].raw.Fin? { OneMore(x, cols, n, scale, m); }
    }
  }

  lemma OneMore(x: Exp2, cols: seq<Column>, n: nat, scale: real, m: real)
    requires n == |cols| - 1 && cols[n].raw.Fin? && cols[n].mass > 0
    ensures var e := x.e(Mul(scale, cols[n].raw.x) - m);
            && Den(x, Live(cols, scale), m) == Den(x, Live(cols[..n], scale), m) + Mul(e, cols[n].mass as real)
            && Num(x, Live(cols, scale), m) == Num(x, Live(cols[..n], scale), m) + Mul(e, cols[n].value)
            && Den(x, Live(Once(cols), scale), m) == Den(x, Live(Once(cols)[..n], scale), m) + Mul(e, 1.0)
            && Num(x, Live(Once(cols), scale), m) == Num(x, Live(Once(cols)[..n], scale), m) + Mul(e, cols[n].value)
            && Den(x, Live(Rest(cols), scale), m) == Den(x, Live(Rest(cols)[..n], scale), m) + Mul(e, (cols[n].mass - 1) as real)
            && Mul(e, cols[n].mass as real) == Mul(e, 1.0) + Mul(e, (cols[n].mass - 1) as real)
  {
    hide Live, Weigh, Mul;
    LastColumn(x, cols, scale, m, Mass);
    LastColumn(x, cols, scale, m, Value);
    LastColumn(x, Once(cols), scale, m, Mass);
    LastColumn(x, Once(cols), scale, m, Value);
    LastColumn(x, Rest(cols), scale, m, Mass);
    assert cols[n].mass as real == 1.0 + (cols[n].mass - 1) as real;
    Distrib(x.e(Mul(scale, cols[n].raw.x) - m), 1.0, (cols[n].mass - 1) as real);
  }

  lemma LastColumn(x: Exp2, cols: seq<Column>, scale: real, m: real, part: Part)
    requires cols != [] && cols[|cols| - 1].raw.Fin?
    ensures var k := cols[|cols| - 1];
            Weigh(x, Live(cols, scale), m, part)
              == Weigh(x, Live(cols[..|cols| - 1], scale), m, part) + Mul(x.e(Mul(scale, k.raw.x) - m), ShareOf(k, part))
  {
    var k := cols[|cols| - 1];
    WeighSnoc(x, Live(cols[..|cols| - 1], scale), Term(Mul(scale, k.raw.x), k.mass, k.value), m, part);
  }

  /** Where every block is full, what is missed is 63 times what is counted. */
  lemma {:induction false} FullMasses(x: Exp2, cols: seq<Column>, scale: real, m: real)
    requires forall c | 0 <= c < |cols| && cols[c].raw.Fin? :: cols[c].mass == 64
    ensures Den(x, Live(Rest(cols), scale), m) == Mul(Den(x, Live(Once(cols), scale), m), 63.0)
    decreases |cols|
  {
    if cols != [] {
      var n := |cols| - 1;
      FullMasses(x, cols[..n], scale, m);
      assert Once(cols)[..n] == Once(cols[..n]) && Rest(cols)[..n] == Rest(cols[..n]);
      if cols[n].raw.Fin? {
        OneMore(x, cols, n, scale, m);
        Distrib(63.0, Den(x, Live(Once(cols)[..n], scale), m), x.e(Mul(scale, cols[n].raw.x) - m));
      }
    }
  }

  /** What a valid column adds in the tail form: its weight once for every further key. */
  function Extra(x: Exp2, t: Tile, k: Column, j: nat, safe: real): (d: real)
    requires t.Ok() && j < t.Blocks() && k.mass == t.Length(j)
    ensures d == Mul(Weight(x, t.scale, k.raw, safe), Missed(k) as real)
    ensures k.raw.NegInf? ==> d == 0.0
  {
    var last: nat := t.Blocks() - 1;
    var length := if j == last then t.tokens - last * 64 else 64;
    Mul(Weight(x, t.scale, k.raw, safe), (length - 1) as real)
  }

  lemma NoColumns(x: Exp2, cols: seq<Column>, scale: real, safe: real)
    ensures Live(cols[..0], scale) == [] && Den(x, Live(cols[..0], scale), Mul(scale, safe)) == 0.0
  {
  }

  lemma RestStep(x: Exp2, cols: seq<Column>, c: nat, scale: real, safe: real)
    requires c < |cols|
    ensures Den(x, Live(Rest(cols)[..c + 1], scale), Mul(scale, safe))
         == Den(x, Live(Rest(cols)[..c], scale), Mul(scale, safe)) + Mul(Weight(x, scale, cols[c].raw, safe), Missed(cols[c]) as real)
    ensures cols[c].raw.NegInf? ==> Mul(Weight(x, scale, cols[c].raw, safe), Missed(cols[c]) as real) == 0.0
    ensures Live(Rest(cols)[..c + 1], scale) == [] ==> cols[c].raw.NegInf? && Live(Rest(cols)[..c], scale) == []
  {
    LiveStep(x, scale, Rest(cols), c, safe, Mass);
    LiveSnoc(Rest(cols), c, scale);
  }

  /** The tail form of the correction. */
  method CorrectTail(x: Exp2, t: Tile, cols: seq<Column>, start: nat, valid: nat, safe: real, sums: seq<real>) returns (sums': seq<real>)
    requires t.Ok() && |sums| == LANES && valid <= |cols| && start + valid <= t.Blocks()
    requires forall c: nat | c < |cols| :: cols[c].mass == t.Length(start + c) && (c >= valid ==> cols[c].raw.NegInf?)
    ensures |sums'| == LANES
    ensures Total(sums') == Total(sums) + Den(x, Live(Rest(cols), t.scale), Mul(t.scale, safe))
    ensures Live(Rest(cols), t.scale) == [] ==> sums' == sums
  {
    hide Live, Weigh, Weight, Lane, Tile.Length, Tile.Blocks, Total, Mul, Missed;
    ghost var rest := Rest(cols);
    sums' := sums;
    NoColumns(x, rest, t.scale, safe);
    for c := 0 to |cols|
      invariant |sums'| == LANES
      invariant Total(sums') == Total(sums) + Den(x, Live(rest[..c], t.scale), Mul(t.scale, safe))
      invariant Live(rest[..c], t.scale) == [] ==> sums' == sums
    {
      RestStep(x, cols, c, t.scale, safe);
      if c < valid {
        var extra := Extra(x, t, cols[c], start + c, safe);
        AddToLane(sums', Lane(c), extra);
        sums' := sums'[Lane(c) := sums'[Lane(c)] + extra];
      }
    }
    assert rest[..|cols|] == rest;
  }

  /** The fast form: what the batch has added, which is the new sums less the rescaled old
      ones, is added 63 times more. */
  function CorrectFull(sums: seq<real>, before: seq<real>): (sums': seq<real>)
    requires |sums| == |before| == LANES
    ensures |sums'| == LANES && Total(sums') == Total(sums) + Mul(Total(sums) - Total(before), 63.0)
    ensures sums == before ==> sums' == sums
  {
    var d := seq(LANES, l requires 0 <= l < LANES => Mul(sums[l] - before[l], 63.0));
    [sums[0] + d[0], sums[1] + d[1], sums[2] + d[2], sums[3] + d[3]]
  }

  // ----- a batch of summaries -----

  /** The correction completes the batch: the state stands for the summaries with all their keys. */
  lemma Completed(x: Exp2, scale: real, cols: seq<Column>, ts: seq<Term>, cur: Ext, safe: real, sums: seq<real>, out: real)
    requires Bounds(scale, cur, ts + Live(cols, scale)) && safe == (if cur.NegInf? then 0.0 else cur.x)
    requires |sums| == LANES && (cur.NegInf? ==> sums == [0.0, 0.0, 0.0, 0.0] && out == 0.0)
    requires Total(sums) == Den(x, ts, Mul(scale, safe)) + Den(x, Live(cols, scale), Mul(scale, safe))
    requires out == Num(x, ts, Mul(scale, safe)) + Num(x, Live(cols, scale), Mul(scale, safe))
    ensures Tracks(x, scale, RowState(cur, sums, out), ts + Live(cols, scale))
  {
    Concat(x, ts, Live(cols, scale), Mul(scale, safe), Mass);
    Concat(x, ts, Live(cols, scale), Mul(scale, safe), Value);
  }

  lemma NothingSeen(x: Exp2, scale: real, st: RowState, ts: seq<Term>, more: seq<Term>, cur: Ext, factor: real)
    requires Tracks(x, scale, st, ts) && Bounds(scale, cur, ts + more) && cur.NegInf?
    ensures ts == more == [] && st.out == 0.0 && st.sums == [0.0, 0.0, 0.0, 0.0] && Mul(0.0, factor) == 0.0
  {
  }

  /** The route batch of a group: online softmax, then the correction of the row sums. */
  method FoldSummaries(x: Exp2, t: Tile, cols: seq<Column>, start: nat, valid: nat, st: RowState, ghost ts: seq<Term>) returns (st': RowState)
    requires Lawful(x) && t.Ok() && Tracks(x, t.scale, st, ts) && valid <= |cols| && start + valid <= t.Blocks()
    requires forall c: nat | c < |cols| :: cols[c].mass == t.Length(start + c) && (c >= valid ==> cols[c].raw.NegInf?)
    ensures Tracks(x, t.scale, st', ts + Live(cols, t.scale))
  {
    var cur := BatchMax(t.scale, cols, st.max, ts);
    var safe := if cur.NegInf? then 0.0 else cur.x;
    var factor := if st.max.NegInf? then 0.0 else x.e(Mul(st.max.x - safe, t.scale));
    var before := [Mul(st.sums[0], factor), Mul(st.sums[1], factor), Mul(st.sums[2], factor), Mul(st.sums[3], factor)];
    Rescaled(x, t.scale, st, ts, safe, factor, before);
    ghost var m := Mul(t.scale, safe);
    hide Weigh, Live;
    MassSplits(x, cols, t.scale, m);
    if cur.NegInf? { NothingSeen(x, t.scale, st, ts, Live(cols, t.scale), cur, factor); }
    var sums, out := Accumulate(x, t.scale, Once(cols), safe, before, Mul(st.out, factor));
    var last: nat := t.Blocks() - 1;
    if t.tokens - last * 64 == 64 || start + valid <= last {
      FullMasses(x, cols, t.scale, m);
      sums := CorrectFull(sums, before);
    } else {
      sums := CorrectTail(x, t, cols, start, valid, safe, sums);
    }
    Completed(x, t.scale, cols, ts, cur, safe, sums, out);
    st' := RowState(cur, sums, out);
  }

  /** Column c of the route scores: masked unless it is a real block that is not exact. */
  function RouteColumn(t: Tile, r: nat, start: nat, valid: nat, votes: seq<bool>, c: nat): Column
    requires c < |votes|
  {
    Column(if c >= valid || votes[c] then NegInf else Fin(t.qkc(r, start + c)), t.Length(start + c), t.vc(start + c))
  }

  function RouteColumns(t: Tile, r: nat, start: nat, valid: nat, votes: seq<bool>): (cols: seq<Column>)
    ensures |cols| == |votes| && forall c: nat | c < |cols| :: cols[c] == RouteColumn(t, r, start, valid, votes, c)
  {
    seq(|votes|, c requires 0 <= c < |votes| => RouteColumn(t, r, start, valid, votes, c))
  }

  lemma RouteBatch(t: Tile, route: Route, r: nat, start: nat, valid: nat, votes: seq<bool>)
    requires r < t.qLen && Votes(route, start, valid, votes) && valid <= |votes|
    ensures Live(RouteColumns(t, r, start, valid, votes), t.scale) == t.ApproxTerms(route, r, start, start + valid)
  {
    hide Live;
    var masks := seq(|votes|, c requires 0 <= c < |votes| => if c >= valid || votes[c] then NegInf else Fin(0.0));
    assert RouteColumns(t, r, start, valid, votes) == ApproxColumns(t, r, start, masks);
    ApproxBatch(t, route, r, start, valid, votes, masks);
  }

  // ----- exact blocks -----

  /** Only the first block of a group and the last block of the sequence are masked; with
      full blocks none is. */
  function BlockColumn(t: Tile, r: nat, block: nat, first: bool, c: nat): Column {
    var masked := t.tokens % 64 != 0 && (first || block == t.Blocks() - 1);
    Column(if masked && c >= t.tokens - block * 64 then NegInf else Fin(t.qk(r, block * 64 + c)), 1, t.v(block * 64 + c))
  }

  function BlockColumns(t: Tile, r: nat, block: nat, first: bool): (cols: seq<Column>)
    ensures |cols| == 64 && forall c: nat | c < 64 :: cols[c] == BlockColumn(t, r, block, first, c)
  {
    seq(64, c requires 0 <= c < 64 => BlockColumn(t, r, block, first, c))
  }

  /** That is enough: an exact block contributes its keys and nothing past the end. */
  lemma BlockBatch(t: Tile, r: nat, block: nat, first: bool)
    requires t.Ok() && !t.biased && r < t.qLen && block < t.Blocks()
    ensures Live(BlockColumns(t, r, block, first), t.scale) == t.BlockKeys(r, block)
  {
    hide Live;
    forall c: nat | c < 64 ensures BlockColumn(t, r, block, first, c) == ExactColumn(t, r, block, c) {}
    assert BlockColumns(t, r, block, first) == ExactColumns(t, r, block);
    ExactBatch(t, r, block);
  }

  method FoldBlock(x: Exp2, t: Tile, r: nat, block: nat, first: bool, st: RowState, ghost ts: seq<Term>, ghost done: seq<nat>) returns (st': RowState)
    requires Lawful(x) && t.Ok() && !t.biased && r < t.qLen && block < t.Blocks() && Tracks(x, t.scale, st, ts + ListTerms(t, r, done))
    ensures Tracks(x, t.scale, st', ts + ListTerms(t, r, done + [block]))
  {
    hide Tracks, Lawful, Live, ListTerms;
    st' := Step(x, t.scale, BlockColumns(t, r, block, first), st, ts + ListTerms(t, r, done));
    BlockBatch(t, r, block, first);
    ListGrows(t, r, done, block);
    Regroup(ts, ListTerms(t, r, done), t.BlockKeys(r, block));
  }

  lemma NoBlocks(t: Tile, r: nat, ts: seq<Term>)
    ensures ts + ListTerms(t, r, []) == ts
  {
    assert ListTerms(t, r, []) == [];
  }

  /** consume_exact_blocks on one row: the block taken out before the scan, then the scan, one
      block behind. */
  method FoldScan(x: Exp2, t: Tile, r: nat, start: nat, m: Sm90Scan.RouteMask, found: bool, firstBlock: nat, st: RowState, ghost ts: seq<Term>)
    returns (st': RowState)
    requires Lawful(x) && t.Ok() && !t.biased && r < t.qLen && Tracks(x, t.scale, st, ts)
    requires found ==> forall b | b in [firstBlock] + Sm90Scan.Left(m, 0, start) :: b < t.Blocks()
    ensures Tracks(x, t.scale, st', ts + if found then ListTerms(t, r, [firstBlock] + Sm90Scan.Left(m, 0, start)) else [])
  {
    hide Tracks, Sm90Scan.Peel, ListTerms, Lawful, Tile.Blocks;
    st' := st;
    assert ts + [] == ts;
    if found {
      var pending: nat, first := firstBlock, true;
      ghost var done: seq<nat>, all := [], [firstBlock] + Sm90Scan.Left(m, 0, start);
      NoBlocks(t, r, ts);
      for word := 0 to 2
        invariant done + [pending] + Sm90Scan.Left(m, word, start) == all
        invariant Tracks(x, t.scale, st', ts + ListTerms(t, r, done))
      {
        var bits := m[word];
        while bits != 0
          invariant Sm90Scan.Word(bits)
          invariant done + [pending] + Sm90Scan.Peel(bits, start + 32 * word) + Sm90Scan.Left(m, word + 1, start) == all
          invariant Tracks(x, t.scale, st', ts + ListTerms(t, r, done))
          decreases bits
        {
          var bit, rest := Sm90Scan.NextBit(bits);
          assert pending in all;
          st' := FoldBlock(x, t, r, pending, first, st', ts, done);
          done := done + [pending];
          pending, first, bits := start + 32 * word + bit, false, rest;
        }
        Sm90Scan.Peel0(start + 32 * word);
      }
      assert Sm90Scan.Left(m, 2, start) == [];
      assert pending in all && done + [pending] == all;
      st' := FoldBlock(x, t, r, pending, first, st', ts, done);
    }
  }

  // ----- one group -----

  lemma {:induction false} BallotFits(votes: seq<bool>)
    ensures Ballot(votes) < Pow2(|votes|)
    decreases |votes|
  {
    if votes != [] { BallotFits(votes[1..]); }
  }

  /** The mask words of a group: two ballots over the lanes' decisions. */
  method BuildMask(t: Tile, rule: Rule, g: nat) returns (m: Sm90Scan.RouteMask)
    requires t.Ok() && rule.mapped == (0, 0) && g < Groups(t)
    ensures MaskFollows(t, RouteOf(t, rule), g, m)
  {
    hide Pow2, Ballot, Sm90Scan.Columns, RouteOf;
    var votes := CastVotes(t, rule, 64 * g, GroupEnd(t, g) - 64 * g, 64);
    var low, high := votes[..32], votes[32..];
    BallotFits(low);
    BallotFits(high);
    Sm90Scan.WordIs32Bits();
    m := [Ballot(low), Ballot(high), 0, 0];
    BallotColumns(low, high, m);
    assert votes == low + high;
  }

  lemma BallotColumns(low: seq<bool>, high: seq<bool>, m: Sm90Scan.RouteMask)
    requires |low| == |high| == 32 && m[0] == Ballot(low) && m[1] == Ballot(high)
    ensures Sm90Scan.Columns(m) == low + high
  {
    hide Ballot, Bit;
    forall i: nat | i < 32 ensures Bit(m[0], i) == low[i] && Bit(m[1], i) == high[i] {
      BallotBit(low, i);
      BallotBit(high, i);
    }
  }

  /** The exact blocks named by the masks are blocks of the group. */
  lemma LeftIsChosen(t: Tile, route: Route, g: nat, m: Sm90Scan.RouteMask)
    requires MaskFollows(t, route, g, m)
    ensures Sm90Scan.Left(m, 0, 64 * g) == Chosen(route, 64 * g, GroupEnd(t, g))
    ensures forall b | b in Sm90Scan.Left(m, 0, 64 * g) :: b < t.Blocks()
  {
    Sm90Scan.LeftIsExact(m, 64 * g);
    MaskSelects(t, route, g, m);
    ChosenIsIncreasing(route, 64 * g, GroupEnd(t, g));
  }

  /** The route batch is folded in if some valid column is not exact, else there is none. */
  method FoldApproximate(x: Exp2, t: Tile, ghost route: Route, r: nat, g: nat, m: Sm90Scan.RouteMask, st: RowState, ghost ts: seq<Term>)
    returns (st': RowState)
    requires Lawful(x) && t.Ok() && r < t.qLen && MaskFollows(t, route, g, m) && Tracks(x, t.scale, st, ts)
    ensures Tracks(x, t.scale, st', ts + t.ApproxTerms(route, r, 64 * g, GroupEnd(t, g)))
  {
    hide Tracks, Live, Tile.ApproxTerms, Lawful;
    var start, valid := 64 * g, GroupEnd(t, g) - 64 * g;
    var votes := Sm90Scan.Columns(m);
    var approximate := Sm90Scan.RouteHasApprox(m, valid);
    st' := st;
    if approximate {
      RouteBatch(t, route, r, start, valid, votes);
      st' := FoldSummaries(x, t, RouteColumns(t, r, start, valid, votes), start, valid, st, ts);
    } else {
      forall j: nat | start <= j < start + valid ensures route(j) {
        var c: nat := j - start;
        assert votes[c] && start + c == j;
      }
      NoneApprox(t, route, r, start, start + valid);
      assert ts + t.ApproxTerms(route, r, start, start + valid) == ts;
    }
  }

  /** One route group: its summaries, then its exact blocks. */
  method FoldRouteGroup(x: Exp2, t: Tile, ghost route: Route, r: nat, g: nat, m: Sm90Scan.RouteMask, st: RowState, ghost ts: seq<Term>)
    returns (st': RowState)
    requires Lawful(x) && t.Ok() && !t.biased && r < t.qLen && MaskFollows(t, route, g, m) && Tracks(x, t.scale, st, ts)
    ensures Tracks(x, t.scale, st', ts + GroupTerms(t, route, r, 64 * g, GroupEnd(t, g)))
  {
    hide Tracks, Tile.ApproxTerms, Tile.ExactTerms, Sm90Scan.Left, Lawful, ListTerms, MaskFollows, Chosen;
    st' := FoldApproximate(x, t, route, r, g, m, st, ts);
    var found, first, rest := Sm90Scan.TakeFirst(m, 64 * g);
    LeftIsChosen(t, route, g, m);
    ChosenTerms(t, route, r, 64 * g, GroupEnd(t, g));
    ghost var summaries := t.ApproxTerms(route, r, 64 * g, GroupEnd(t, g));
    st' := FoldScan(x, t, r, 64 * g, rest, found, first, st', ts + summaries);
    NoBlocks(t, r, ts + summaries);
    Regroup(ts, summaries, t.ExactTerms(route, r, 64 * g, GroupEnd(t, g)));
  }

  // ----- one split -----

  lemma GroupIsMassive(t: Tile, route: Route, r: nat, lo: nat, hi: nat)
    requires t.Ok() && lo <= hi <= t.Blocks()
    ensures Massive(GroupTerms(t, route, r, lo, hi))
  {
    hide Tile.ApproxTerms, Tile.ExactTerms;
    TermsUpTo(t, route, r, lo, hi);
  }

  lemma BothMassive(a: seq<Term>, b: seq<Term>)
    requires Massive(a) && Massive(b)
    ensures Massive(a + b)
  {
  }

  lemma {:induction false} StreamIsMassive(t: Tile, route: Route, r: nat, cuts: seq<nat>)
    requires t.Ok() && Ascending(cuts) && forall i | 0 <= i < |cuts| :: cuts[i] <= t.Blocks()
    ensures Massive(Streamed(t, route, r, cuts))
    decreases |cuts|
  {
    if |cuts| >= 2 {
      hide GroupTerms, Massive, Tile.Blocks;
      var init := cuts[..|cuts| - 1];
      StreamIsMassive(t, route, r, init);
      GroupIsMassive(t, route, r, cuts[|cuts| - 2], cuts[|cuts| - 1]);
      BothMassive(Streamed(t, route, r, init), GroupTerms(t, route, r, cuts[|cuts| - 2], cuts[|cuts| - 1]));
    }
  }

  lemma CutsAreMassive(t: Tile, route: Route, r: nat, begin: nat, end: nat)
    requires t.Ok() && begin <= end
    ensures Massive(Streamed(t, route, r, Cuts(t, begin, end)))
  {
    CutsAscend(t, begin, end);
    StreamIsMassive(t, route, r, Cuts(t, begin, end));
  }

  /** finalize and the last rescaling: a split without a term has log-sum-exp -inf. */
  method FinalizeSplit(x: Exp2, scale: real, st: RowState, ghost ts: seq<Term>) returns (p: Partial)
    requires Lawful(x) && Tracks(x, scale, st, ts) && Massive(ts)
    ensures Summarises(x, p, ts)
  {
    var total := Total(st.sums);
    if ts != [] { DenPositive(x, ts, Mul(scale, if st.max.Fin? then st.max.x else 0.0)); }
    var ratio := 1.0 / (if total == 0.0 then 1.0 else total);
    p := Partial(Mul(st.out, ratio), if total == 0.0 then NegInf else Fin(Mul(Mul(st.max.x, scale) + x.lg(total), x.ln2)));
    if ts != [] {
      DivIs(p.lse.x, x.ln2, x.lg(total) + Mul(scale, st.max.x));
      assert Mul(p.out, total) == st.out;
      SumsSummarise(x, p, ts, Mul(scale, st.max.x), total);
    }
  }

  /** What one split writes for a row: the attention over its own groups, which is that of the
      tiles every warp consumes in its stream; -inf if it has no group. */
  method SplitRow(x: Exp2, t: Tile, rule: Rule, r: nat, begin: nat, count: nat) returns (p: Partial, ghost masks: seq<Sm90Scan.RouteMask>)
    requires Lawful(x) && t.Ok() && !t.biased && r < t.qLen && rule.mapped == (0, 0) && (count > 0 ==> begin + count <= Groups(t))
    ensures |masks| == count && MasksFollow(t, RouteOf(t, rule), begin, masks)
    ensures Summarises(x, p, MeaningOf(t, RouteOf(t, rule), r, Sm90Scan.Tiles(begin, masks)))
  {
    hide Tracks, Streamed, Summarises, MaskFollows, GroupTerms, RouteOf, MeaningOf, Cuts;
    ghost var route := RouteOf(t, rule);
    var st := EMPTY;
    masks := [];
    EmptyTracks(x, t.scale);
    NothingStreamed(t, route, r, begin);
    for i := 0 to count
      invariant |masks| == i && MasksFollow(t, route, begin, masks)
      invariant Tracks(x, t.scale, st, Streamed(t, route, r, Cuts(t, begin, begin + i)))
    {
      var g := begin + i;
      ghost var cuts := Cuts(t, begin, g);
      var m := BuildMask(t, rule, g);
      st := FoldRouteGroup(x, t, route, r, g, m, st, Streamed(t, route, r, cuts));
      CutsStep(t, begin, g);
      StreamedGrows(t, route, r, cuts, GroupEnd(t, g));
      masks := masks + [m];
    }
    CutsAreMassive(t, route, r, begin, begin + count);
    p := FinalizeSplit(x, t.scale, st, Streamed(t, route, r, Cuts(t, begin, begin + count)));
    TilesMean(t, route, r, begin, masks, count);
    assert masks[..count] == masks;
  }

  lemma NothingStreamed(t: Tile, route: Route, r: nat, begin: nat)
    ensures Streamed(t, route, r, Cuts(t, begin, begin)) == []
  {
  }

  // ----- the whole row -----

  /** One query row: every split over its own groups, then the combine kernel if there is more
      than one.  Whatever the number of splits, the result is the two-pass reference with its
      log-sum-exp. */
  method ForwardRow90(x: Exp2, t: Tile, rule: Rule, r: nat, splits: nat) returns (p: Partial)
    requires Lawful(x) && t.Ok() && !t.biased && r < t.qLen && rule.mapped == (0, 0) && splits > 0
    ensures p.out == Reference(x, t, RouteOf(t, rule), r) && Summarises(x, p, t.AllTerms(RouteOf(t, rule), r))
  {
    hide Summarises, MeaningOf, Streamed, Reference, RouteOf, MasksFollow;
    ghost var route := RouteOf(t, rule);
    var ps: seq<Partial> := [];
    ghost var maskss: seq<seq<Sm90Scan.RouteMask>> := [];
    for s := 0 to splits
      invariant |ps| == |maskss| == s
      invariant forall i: nat | i < s :: SplitDone(x, t, route, r, splits, i, ps[i], maskss[i])
    {
      RangesTile(Groups(t), splits, s);
      var range := SplitRange(Groups(t), splits, s);
      var one, masks := SplitRow(x, t, rule, r, range.0, range.1);
      if range.1 == 0 { NoGroups(t, route, range.0, First(t, splits, s)); }
      ps, maskss := ps + [one], maskss + [masks];
    }
    if splits == 1 {
      p := ps[0];
      OnlySplit(x, t, route, r, maskss, ps);
    } else {
      p := CombineStreams(x, t, route, r, splits, maskss, ps);
    }
  }

  ghost predicate SplitDone(x: Exp2, t: Tile, route: Route, r: nat, splits: nat, s: nat, p: Partial, masks: seq<Sm90Scan.RouteMask>)
    requires splits > 0 && x.ln2 > 0.0
  {
    && First(t, splits, s) + |masks| == First(t, splits, s + 1) && MasksFollow(t, route, First(t, splits, s), masks)
    && Summarises(x, p, MeaningOf(t, route, r, Sm90Scan.Tiles(First(t, splits, s), masks)))
  }

  lemma NoGroups(t: Tile, route: Route, a: nat, b: nat)
    ensures Sm90Scan.Tiles(a, []) == Sm90Scan.Tiles(b, []) && MasksFollow(t, route, b, [])
  {
  }

  lemma OnlySplit(x: Exp2, t: Tile, route: Route, r: nat, maskss: seq<seq<Sm90Scan.RouteMask>>, ps: seq<Partial>)
    requires Lawful(x) && t.Ok() && r < t.qLen && |ps| == |maskss| == 1 && SplitDone(x, t, route, r, 1, 0, ps[0], maskss[0])
    ensures ps[0].out == Reference(x, t, route, r) && Summarises(x, ps[0], t.AllTerms(route, r))
  {
    hide Summarises, MeaningOf, Streamed, Reference, MasksFollow;
    SplitsSummarise(x, t, route, r, 1, maskss, ps);
    SplitsCover(t, 1);
    var tss := SplitTerms(t, route, r, AllCuts(t, 1));
    assert Flatten(tss) == tss[0] by { assert tss[..0] == []; }
    SameSums(x, t, route, r, SplitBounds(t, 1), AllCuts(t, 1), ps[0]);
  }
}
