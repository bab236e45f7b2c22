/**
 One query row of the SM120 kernel, from the route scores to the output and its
 log-sum-exp, proved equal to the two-pass reference.

 A thread block's 64 rows run in lockstep; the routing below is the whole tile's,
 the softmax is that of one row.
*/
module ForwardSm120 {
  import opened Basics
  import opened Exponential
  import opened Words
  import opened MixedOperator
  import opened OnlineSoftmax
  import opened RouteCompaction
  import opened Routing

  predicate Orders(o: seq<seq<nat>>) { |o| == 2 && LaneOrder(o[0]) && LaneOrder(o[1]) }

  /** Every group, named by its first block, may have an order of its own. */
  ghost predicate GroupOrders(orders: nat -> seq<seq<nat>>) { forall start: nat :: Orders(orders(start)) }

  // ----- the two kinds of batches -----

  /** Column c of an approximate batch: the summary score under its mask. */
  function ApproxColumn(t: Tile, r: nat, j: nat, mask: Ext): Column {
    Column(if r < t.qLen then Fin(t.qkc(r, j)).Plus(mask) else NegInf, t.Length(j), t.vc(j))
  }

  function ApproxColumns(t: Tile, r: nat, start: nat, masks: seq<Ext>): (cols: seq<Column>)
    ensures |cols| == |masks| && forall c: nat | c < |cols| :: cols[c] == ApproxColumn(t, r, start + c, masks[c])
  {
    seq(|masks|, c requires 0 <= c < |masks| => ApproxColumn(t, r, start + c, masks[c]))
  }

  /** Column c of an exact block: the raw score, -inf past the tail and in absent
      rows, with the key measure added as bias / softmax scale. */
  function ExactColumn(t: Tile, r: nat, block: nat, c: nat): Column
    requires t.Ok()
  {
    var u := block * 64 + c;
    Column(
      if r >= t.qLen || c >= t.Length(block) then NegInf
      else if t.biased then Fin(t.qk(r, u) + Mul(t.bias(u), t.log2e / t.scale))
      else Fin(t.qk(r, u)),
      1, t.v(u))
  }

  function ExactColumns(t: Tile, r: nat, block: nat): (cols: seq<Column>)
    requires t.Ok()
    ensures |cols| == 64 && forall c: nat | c < 64 :: cols[c] == ExactColumn(t, r, block, c)
  {
    seq(64, c requires 0 <= c < 64 => ExactColumn(t, r, block, c))
  }

  // ----- what the batches mean -----

  predicate Masked(votes: seq<bool>, valid: nat, masks: seq<Ext>) {
    |masks| == |votes| && forall i: nat | i < |votes| :: Mask(votes, valid, i, masks[i])
  }

  lemma {:induction false} ApproxPrefix(t: Tile, route: Route, r: nat, start: nat, valid: nat, votes: seq<bool>, masks: seq<Ext>, n: nat)
    requires r < t.qLen && Votes(route, start, valid, votes) && Masked(votes, valid, masks) && n <= |votes|
    ensures Live(ApproxColumns(t, r, start, masks)[..n], t.scale) == t.ApproxTerms(route, r, start, start + Min(n, valid))
    decreases n
  {
    if n > 0 {
      var c := n - 1;
      ApproxPrefix(t, route, r, start, valid, votes, masks, c);
      LiveSnoc(ApproxColumns(t, r, start, masks), c, t.scale);
      assert Mask(votes, valid, c, masks[c]);
    }
  }

  /** The approximate batch contributes the unselected blocks of the group. */
  lemma ApproxBatch(t: Tile, route: Route, r: nat, start: nat, valid: nat, votes: seq<bool>, masks: seq<Ext>)
    requires r < t.qLen && Votes(route, start, valid, votes) && Masked(votes, valid, masks) && valid <= |votes|
    ensures Live(ApproxColumns(t, r, start, masks), t.scale) == t.ApproxTerms(route, r, start, start + valid)
  {
    ApproxPrefix(t, route, r, start, valid, votes, masks, |votes|);
    assert ApproxColumns(t, r, start, masks)[..|votes|] == ApproxColumns(t, r, start, masks);
  }

  /** Adding bias / scale to the raw score adds the measure in log2 units. */
  lemma BiasedScore(t: Tile, r: nat, u: nat)
    requires t.Ok()
    ensures Mul(t.scale, t.qk(r, u) + Mul(t.bias(u), t.log2e / t.scale)) == Mul(t.scale, t.qk(r, u)) + Mul(t.log2e, t.bias(u))
  {
    var inv := t.log2e / t.scale;
    Distrib(t.scale, t.qk(r, u), Mul(t.bias(u), inv));
    assert Mul(t.scale, inv) == t.log2e;
    assert Mul(t.scale, Mul(t.bias(u), inv)) == Mul(Mul(t.scale, inv), t.bias(u));
  }

  lemma {:induction false} ExactPrefix(t: Tile, r: nat, block: nat, n: nat)
    requires t.Ok() && r < t.qLen && n <= 64
    ensures Live(ExactColumns(t, r, block)[..n], t.scale) == t.BlockKeys(r, block)[..Min(n, t.Length(block))]
    decreases n
  {
    if n > 0 {
      ExactPrefix(t, r, block, n - 1);
      LiveSnoc(ExactColumns(t, r, block), n - 1, t.scale);
      if n <= t.Length(block) {
        BiasedScore(t, r, block * 64 + (n - 1));
        assert t.BlockKeys(r, block)[..n] == t.BlockKeys(r, block)[..n - 1] + [t.KeyTerm(r, block * 64 + (n - 1))];
      }
    }
  }

  /** An exact batch contributes the keys of its block, each with its measure. */
  lemma ExactBatch(t: Tile, r: nat, block: nat)
    requires t.Ok() && r < t.qLen
    ensures Live(ExactColumns(t, r, block), t.scale) == t.BlockKeys(r, block)
  {
    ExactPrefix(t, r, block, 64);
    assert ExactColumns(t, r, block)[..64] == ExactColumns(t, r, block);
    assert t.BlockKeys(r, block)[..t.Length(block)] == t.BlockKeys(r, block);
  }

  /** A row past the end of the query tile sees only -inf. */
  lemma {:induction false} DeadBatch(cols: seq<Column>, scale: real)
    requires forall c | 0 <= c < |cols| :: cols[c].raw.NegInf?
    ensures Live(cols, scale) == []
    decreases |cols|
  {
    if cols != [] { DeadBatch(cols[..|cols| - 1], scale); }
  }

  /** The keys of a list of blocks. */
  function ListTerms(t: Tile, r: nat, blocks: seq<nat>): seq<Term> {
    if blocks == [] then [] else ListTerms(t, r, blocks[..|blocks| - 1]) + t.BlockKeys(r, blocks[|blocks| - 1])
  }

  lemma ListGrows(t: Tile, r: nat, blocks: seq<nat>, b: nat)
    ensures ListTerms(t, r, blocks + [b]) == ListTerms(t, r, blocks) + t.BlockKeys(r, b)
  {
    assert (blocks + [b])[..|blocks|] == blocks;
  }

  lemma {:induction false} PickedTerms(t: Tile, route: Route, r: nat, start: nat, valid: nat, votes: seq<bool>, n: nat)
    requires Votes(route, start, valid, votes) && n <= |votes|
    ensures ListTerms(t, r, Picked(votes[..n], start)) == t.ExactTerms(route, r, start, start + Min(n, valid))
    decreases n
  {
    if n > 0 {
      hide Picked, ListTerms, Tile.ExactTerms, Votes, Min;
      var c := n - 1;
      PickedTerms(t, route, r, start, valid, votes, c);
      PickedSnoc(votes, c, start);
      if votes[c] { ListGrows(t, r, Picked(votes[..c], start), start + c); }
      ExactGrows(t, route, r, start, valid, votes, c);
    } else {
      assert votes[..0] == [];
    }
  }

  lemma ExactGrows(t: Tile, route: Route, r: nat, start: nat, valid: nat, votes: seq<bool>, c: nat)
    requires Votes(route, start, valid, votes) && c < |votes|
    ensures t.ExactTerms(route, r, start, start + Min(c + 1, valid)) ==
      if votes[c] then t.ExactTerms(route, r, start, start + Min(c, valid)) + t.BlockKeys(r, start + c)
      else t.ExactTerms(route, r, start, start + Min(c, valid))
  {
    assert votes[c] == (c < valid && route(start + c));
  }

  lemma PickedSnoc(votes: seq<bool>, n: nat, start: nat)
    requires n < |votes|
    ensures Picked(votes[..n + 1], start) ==
      if votes[n] then Picked(votes[..n], start) + [start + n] else Picked(votes[..n], start)
  {
    var upto := votes[..n + 1];
    assert upto[..|upto| - 1] == votes[..n];
  }

  lemma {:induction false} FullCount(v: seq<bool>)
    requires Count(v) == |v|
    ensures forall i | 0 <= i < |v| :: v[i]
    decreases |v|
  {
    if v != [] { FullCount(v[1..]); }
  }

  lemma {:induction false} NoVotes(v: seq<bool>)
    requires forall i | 0 <= i < |v| :: !v[i]
    ensures Count(v) == 0
    decreases |v|
  {
    if v != [] { NoVotes(v[1..]); }
  }

  lemma {:induction false} NoneApprox(t: Tile, route: Route, r: nat, lo: nat, hi: nat)
    requires lo <= hi && forall j: nat | lo <= j < hi :: route(j)
    ensures t.ApproxTerms(route, r, lo, hi) == []
    decreases hi
  {
    if lo < hi { NoneApprox(t, route, r, lo, hi - 1); }
  }

  /** When every real column was selected, the skipped approximate batch was empty. */
  lemma SkippedBatch(t: Tile, route: Route, r: nat, start: nat, valid: nat, votes: seq<bool>)
    requires Votes(route, start, valid, votes) && valid <= |votes| && Count(votes) >= valid
    ensures t.ApproxTerms(route, r, start, start + valid) == []
  {
    hide Tile.ApproxTerms;
    assert votes == votes[..valid] + votes[valid..];
    CountSplit(votes[..valid], votes[valid..]);
    NoVotes(votes[valid..]);
    FullCount(votes[..valid]);
    forall j: nat | start <= j < start + valid ensures route(j) {
      var i: nat := j - start;
      assert votes[..valid][i] && start + i == j;
    }
    NoneApprox(t, route, r, start, start + valid);
  }

  // ----- folding one group -----

  function ApproxPart(t: Tile, route: Route, r: nat, lo: nat, hi: nat): seq<Term> {
    if r >= t.qLen then [] else t.ApproxTerms(route, r, lo, hi)
  }

  function ListPart(t: Tile, r: nat, blocks: seq<nat>): seq<Term> {
    if r >= t.qLen then [] else ListTerms(t, r, blocks)
  }

  lemma ApproxBatchIsPart(t: Tile, route: Route, r: nat, start: nat, valid: nat, votes: seq<bool>, masks: seq<Ext>)
    requires Votes(route, start, valid, votes) && Masked(votes, valid, masks) && valid <= |votes|
    ensures Live(ApproxColumns(t, r, start, masks), t.scale) == ApproxPart(t, route, r, start, start + valid)
  {
    if r < t.qLen { ApproxBatch(t, route, r, start, valid, votes, masks); } else { DeadBatch(ApproxColumns(t, r, start, masks), t.scale); }
  }

  lemma ExactBatchIsPart(t: Tile, r: nat, blocks: seq<nat>, b: nat)
    requires t.Ok()
    ensures ListPart(t, r, blocks + [b]) == ListPart(t, r, blocks) + Live(ExactColumns(t, r, b), t.scale)
  {
    if r < t.qLen {
      ExactBatch(t, r, b);
      ListGrows(t, r, blocks, b);
    } else {
      DeadBatch(ExactColumns(t, r, b), t.scale);
    }
  }

  lemma PartsAreGroup(t: Tile, route: Route, r: nat, start: nat, valid: nat, votes: seq<bool>, ts: seq<Term>)
    requires Votes(route, start, valid, votes) && valid <= |votes|
    ensures ts + ApproxPart(t, route, r, start, start + valid) + ListPart(t, r, Picked(votes, start))
         == ts + GroupTerms(t, route, r, start, start + valid)
  {
    PickedTerms(t, route, r, start, valid, votes, |votes|);
    assert votes[..|votes|] == votes;
  }

  /** The approximate batch of a group, skipped when every real column was selected. */
  method FoldApprox(x: Exp2, t: Tile, ghost route: Route, r: nat, start: nat, valid: nat, ghost votes: seq<bool>, count: nat,
                    masks: seq<Ext>, st: RowState, ghost ts: seq<Term>) returns (st': RowState)
    requires Lawful(x) && t.Ok() && Tracks(x, t.scale, st, ts)
    requires Votes(route, start, valid, votes) && Masked(votes, valid, masks) && valid <= |votes| && count == Count(votes)
    ensures Tracks(x, t.scale, st', ts + ApproxPart(t, route, r, start, start + valid))
  {
    hide Tracks;
    st' := st;
    if count < valid {
      st' := Step(x, t.scale, ApproxColumns(t, r, start, masks), st, ts);
      ApproxBatchIsPart(t, route, r, start, valid, votes, masks);
    } else {
      SkippedBatch(t, route, r, start, valid, votes);
      assert ts + ApproxPart(t, route, r, start, start + valid) == ts;
    }
  }

  /** The exact blocks of the index list, one after the other. */
  method FoldExact(x: Exp2, t: Tile, r: nat, indices: array<nat>, count: nat, st: RowState, ghost ts: seq<Term>)
    returns (st': RowState)
    requires Lawful(x) && t.Ok() && Tracks(x, t.scale, st, ts) && count <= indices.Length
    ensures Tracks(x, t.scale, st', ts + ListPart(t, r, indices[..count]))
  {
    hide Tracks;
    st' := st;
    assert ts + ListPart(t, r, indices[..0]) == ts;
    for ordinal := 0 to count
      invariant Tracks(x, t.scale, st', ts + ListPart(t, r, indices[..ordinal]))
    {
      var block := indices[ordinal];
      ghost var part := ListPart(t, r, indices[..ordinal]);
      var cols := ExactColumns(t, r, block);
      st' := Step(x, t.scale, cols, st', ts + part);
      ExactBatchIsPart(t, r, indices[..ordinal], block);
      assert indices[..ordinal + 1] == indices[..ordinal] + [block];
      assert (ts + part) + Live(cols, t.scale) == ts + (part + Live(cols, t.scale));
    }
  }

  /** One route group of up to 64 blocks: routing and compaction, the approximate
      batch, the exact blocks.  The result does not depend on the order in which the
      lanes of warp 0 store. */
  method FoldGroup(x: Exp2, t: Tile, rule: Rule, r: nat, start: nat, valid: nat, orders: seq<seq<nat>>,
                   st: RowState, ghost ts: seq<Term>) returns (st': RowState)
    requires Lawful(x) && t.Ok() && Orders(orders) && valid <= 64 && Tracks(x, t.scale, st, ts)
    ensures Tracks(x, t.scale, st', ts + GroupTerms(t, RouteOf(t, rule), r, start, start + valid))
  {
    hide Tracks, Picked, GroupTerms, ListPart, ApproxPart, Follows;
    ghost var route := RouteOf(t, rule);
    var indices, masks := new nat[64], new Ext[64];
    var votes := CastVotes(t, rule, start, valid, 64);
    var count := Compact(votes, valid, start, 0, orders, indices, masks);
    var mid := FoldApprox(x, t, route, r, start, valid, votes, count, masks[..], st, ts);
    st' := FoldExact(x, t, r, indices, count, mid, ts + ApproxPart(t, route, r, start, start + valid));
    assert indices[..count] == Picked(votes, start);
    PartsAreGroup(t, route, r, start, valid, votes, ts);
  }

  // ----- the whole row -----

  /** The block range 0..n, cut into groups. */
  ghost predicate Covers(cuts: seq<nat>, n: nat) {
    |cuts| > 0 && Ascending(cuts) && cuts[0] == 0 && cuts[|cuts| - 1] == n
  }

  lemma CoversMore(cuts: seq<nat>, n: nat, next: nat)
    requires Covers(cuts, n) && n <= next
    ensures Covers(cuts + [next], next)
  {
  }

  lemma EmptyTracks(x: Exp2, scale: real)
    ensures Tracks(x, scale, EMPTY, [])
  {
  }

  /** All route groups of one row. */
  method FoldRow(x: Exp2, t: Tile, rule: Rule, r: nat, orders: nat -> seq<seq<nat>>) returns (st: RowState, ghost cuts: seq<nat>)
    requires Lawful(x) && t.Ok() && GroupOrders(orders)
    ensures Covers(cuts, t.Blocks()) && Tracks(x, t.scale, st, Streamed(t, RouteOf(t, rule), r, cuts))
  {
    EmptyTracks(x, t.scale);
    assert Streamed(t, RouteOf(t, rule), r, [0]) == [] && Covers([0], 0);
    hide Tracks, Streamed, GroupTerms, Lawful, Ascending, RouteOf, Exact;
    st, cuts := EMPTY, [0];
    var start := 0;
    while start < t.Blocks()
      invariant Covers(cuts, if start < t.Blocks() then start else t.Blocks())
      invariant Tracks(x, t.scale, st, Streamed(t, RouteOf(t, rule), r, cuts))
      decreases t.Blocks() - start
    {
      var valid := if t.Blocks() - start > 64 then 64 else t.Blocks() - start;
      st := FoldGroup(x, t, rule, r, start, valid, orders(start), st, Streamed(t, RouteOf(t, rule), r, cuts));
      StreamedGrows(t, RouteOf(t, rule), r, cuts, start + valid);
      CoversMore(cuts, start, start + valid);
      cuts := cuts + [start + valid];
      start := start + 64;
    }
  }

  /** One query row of the kernel: every route group in turn, then the reduction of
      the lane sums, the division, and the log-sum-exp. */
  method ForwardRow(x: Exp2, t: Tile, rule: Rule, r: nat, orders: nat -> seq<seq<nat>>) returns (out: real, lse: Ext)
    requires Lawful(x) && t.Ok() && GroupOrders(orders)
    ensures r < t.qLen ==> out == Reference(x, t, RouteOf(t, rule), r)
    ensures r < t.qLen ==> lse.Fin? && x.e(lse.x / x.ln2) == Den(x, t.AllTerms(RouteOf(t, rule), r), 0.0)
    ensures r >= t.qLen ==> out == 0.0 && lse.NegInf?
  {
    var st, cuts := FoldRow(x, t, rule, r, orders);
    out, lse := Finalize(x, t, RouteOf(t, rule), r, st, cuts);
  }

  lemma {:induction false} AbsentRow(t: Tile, route: Route, r: nat, cuts: seq<nat>)
    requires r >= t.qLen
    ensures Streamed(t, route, r, cuts) == []
    decreases |cuts|
  {
    if |cuts| >= 2 { AbsentRow(t, route, r, cuts[..|cuts| - 1]); }
  }

  /** finalize_softmax and the last rescaling: the four lane sums are added only here. */
  method Finalize(x: Exp2, t: Tile, ghost route: Route, r: nat, st: RowState, ghost cuts: seq<nat>) returns (out: real, lse: Ext)
    requires Lawful(x) && t.Ok() && Tracks(x, t.scale, st, Streamed(t, route, r, cuts))
    requires Covers(cuts, t.Blocks())
    ensures r < t.qLen ==> out == Reference(x, t, route, r)
    ensures r < t.qLen ==> lse.Fin? && x.e(lse.x / x.ln2) == Den(x, t.AllTerms(route, r), 0.0)
    ensures r >= t.qLen ==> out == 0.0 && lse.NegInf?
  {
    var total := Total(st.sums);
    var ratio := if total == 0.0 then 1.0 else 1.0 / total;
    if r < t.qLen { RowTotals(x, t, route, r, st, cuts); } else { AbsentRow(t, route, r, cuts); }
    out := Mul(st.out, ratio);
    lse := if total == 0.0 then NegInf else Fin(Mul(Mul(st.max.x, t.scale) + x.lg(total), x.ln2));
    if r < t.qLen {
      var m := Mul(t.scale, st.max.x);
      RowRatio(x, t, route, r, m);
      assert out == st.out / total;
      RowLse(x, t.AllTerms(route, r), m, total, lse.x);
    }
  }

  /** At the end a present row's state holds the reference's sums at its own shift. */
  lemma RowTotals(x: Exp2, t: Tile, route: Route, r: nat, st: RowState, cuts: seq<nat>)
    requires Lawful(x) && t.Ok() && Tracks(x, t.scale, st, Streamed(t, route, r, cuts)) && r < t.qLen
    requires Covers(cuts, t.Blocks())
    ensures st.max.Fin? && |st.sums| == LANES
    ensures var m := Mul(t.scale, st.max.x);
            Total(st.sums) == Den(x, t.AllTerms(route, r), m) > 0.0 && st.out == Num(x, t.AllTerms(route, r), m)
  {
    var m := if st.max.Fin? then Mul(t.scale, st.max.x) else 0.0;
    StreamedIsAll(x, t, route, r, cuts, m, Mass);
    StreamedIsAll(x, t, route, r, cuts, m, Value);
    TermsExist(t, route, r);
    DenPositive(x, t.AllTerms(route, r), m);
  }

  lemma StreamedIsAll(x: Exp2, t: Tile, route: Route, r: nat, cuts: seq<nat>, m: real, part: Part)
    requires t.Ok() && r < t.qLen && Covers(cuts, t.Blocks())
    ensures Weigh(x, Streamed(t, route, r, cuts), m, part) == Weigh(x, t.AllTerms(route, r), m, part)
  {
    hide Weigh, Streamed;
    StreamedWeight(x, t, route, r, cuts, m, part);
    Concat(x, t.ExactTerms(route, r, 0, t.Blocks()), t.ApproxTerms(route, r, 0, t.Blocks()), m, part);
  }

  lemma RowRatio(x: Exp2, t: Tile, route: Route, r: nat, m: real)
    requires Lawful(x) && t.Ok()
    ensures Den(x, t.AllTerms(route, r), m) > 0.0
    ensures Reference(x, t, route, r) == Num(x, t.AllTerms(route, r), m) / Den(x, t.AllTerms(route, r), m)
  {
    TermsExist(t, route, r);
    RatioIsShiftFree(x, t.AllTerms(route, r), MaxScore(t.AllTerms(route, r)), m);
  }

  lemma RowLse(x: Exp2, ts: seq<Term>, m: real, total: real, lse: real)
    requires Lawful(x) && total == Den(x, ts, m) > 0.0 && lse == Mul(m + x.lg(total), x.ln2)
    ensures x.e(lse / x.ln2) == Den(x, ts, 0.0)
  {
    DivIs(lse, x.ln2, m + x.lg(total));
    Sum(x, m, x.lg(total));
    LogInverse(x, total);
    Reshift(x, ts, m, 0.0, Mass);
    Same(x, m - 0.0, m);
  }
}
