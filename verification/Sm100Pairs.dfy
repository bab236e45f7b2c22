/**
 The SM100 mainloop on one query row: logical groups of 256 blocks, routed in two halves
 of 128 whose exact blocks are appended to one index list, which is then consumed in
 pairs.  Proved equal to the two-pass reference.
*/
module Sm100Pairs {
  import opened Basics
  import opened Exponential
  import opened Words
  import opened MixedOperator
  import opened OnlineSoftmax
  import opened RouteCompaction
  import opened Routing
  import opened ForwardSm120
  import opened ScaledSoftmax
  import opened ChosenBlocks

  const HALF: nat := 128
  const CAPACITY: nat := 256

  /** The row's softmax state.  Until the first batch the output accumulator holds
      whatever was there before: it is then overwritten, not added to. */
  datatype Cell = Cell(st: State, initialized: bool)
  {
    function Meaning(): State { if initialized then st else st.(out := 0.0) }
  }

  /** The state stands for the terms `ts`, and there are none before the first batch. */
  ghost predicate Sound(x: Exp2, ps: Cell, ts: seq<Term>) {
    Stands(x, ps.Meaning(), ts) && (ps.initialized || ts == [])
  }

  // ----- one batch -----

  function Scale(k: Column, scale: real): Column {
    if k.raw.NegInf? then k else k.(raw := Fin(Mul(scale, k.raw.x)))
  }

  function Scaled(cols: seq<Column>, scale: real): (s: seq<Column>)
    ensures |s| == |cols| && forall c | 0 <= c < |cols| :: s[c] == Scale(cols[c], scale)
  {
    seq(|cols|, c requires 0 <= c < |cols| => Scale(cols[c], scale))
  }

  /** The online update: the running maximum is kept in scaled units, and probabilities
      are zero while it is still -inf. */
  method FoldBatch(x: Exp2, scale: real, cols: seq<Column>, ps: Cell, ghost ts: seq<Term>) returns (ps': Cell)
    requires Lawful(x) && Sound(x, ps, ts)
    ensures Sound(x, ps', ts + Live(cols, scale))
  {
    hide Weigh;
    var scaled := Scaled(cols, scale);
    SameTerms(cols, scaled, scale);
    var cur := BatchMax(1.0, scaled, ps.st.max, ts);
    forall c | 0 <= c < |scaled| && scaled[c].raw.Fin? ensures cur.Fin? { LiveMember(scaled, c); }
    ghost var m := if cur.Fin? then Mul(1.0, cur.x) else 0.0;
    var alpha := if ps.st.max.NegInf? then 0.0 else Diff(x, ps.st.max, cur);
    Carried(x, ps.Meaning(), ts, alpha, m);
    var before := if ps.initialized then Mul(ps.st.out, alpha) else 0.0;
    var sum, out := AddBatch(x, scaled, seq(|scaled|, _ => cur.Fin?), cur, m, Mul(ps.st.sum, alpha), before);
    Grown(x, ps.Meaning(), ts, Live(scaled, 1.0), cur, m, sum, out);
    ps' := Cell(State(cur, sum, out), true);
  }

  // ----- a pair of exact blocks -----

  function Clamp(n: int): nat { if n < 0 then 0 else if n > 64 then 64 else n }

  /** Column c of a pair.  The upper half belongs to the second block; without one it
      shows the first block again, entirely masked. */
  function PairColumn(t: Tile, r: nat, block0: nat, peer: bool, block1: nat, c: nat): Column {
    var valid0 := Clamp(t.tokens - block0 * 64);
    var valid1 := if peer then Clamp(t.tokens - block1 * 64) else 0;
    var u := if c < 64 then block0 * 64 + c else block1 * 64 + (c - 64);
    var mask := if (if c < 64 then c >= valid0 else c - 64 >= valid1) then NegInf else Fin(0.0);
    Column(if valid0 == 64 && valid1 == 64 then Fin(t.qk(r, u)) else Fin(t.qk(r, u)).Plus(mask), 1, t.v(u))
  }

  function PairColumns(t: Tile, r: nat, block0: nat, peer: bool, block1: nat): (cols: seq<Column>)
    ensures |cols| == 128 && forall c: nat | c < 128 :: cols[c] == PairColumn(t, r, block0, peer, block1, c)
  {
    seq(128, c requires 0 <= c < 128 => PairColumn(t, r, block0, peer, block1, c))
  }

  lemma {:induction false} LiveConcat(a: seq<Column>, b: seq<Column>, scale: real)
    ensures Live(a + b, scale) == Live(a, scale) + Live(b, scale)
    decreases |b|
  {
    if b == [] {
      assert a + b == a;
    } else {
      assert (a + b)[..|a + b| - 1] == a + b[..|b| - 1];
      LiveConcat(a, b[..|b| - 1], scale);
    }
  }

  /** A pair contributes the keys of its blocks; a duplicated peer contributes neither mass
      nor value. */
  lemma PairBatch(t: Tile, r: nat, block0: nat, peer: bool, block1: nat)
    requires t.Ok() && !t.biased && r < t.qLen
    ensures Live(PairColumns(t, r, block0, peer, block1), t.scale)
         == t.BlockKeys(r, block0) + if peer then t.BlockKeys(r, block1) else []
  {
    var cols := PairColumns(t, r, block0, peer, block1);
    var lower, upper := cols[..64], cols[64..];
    assert cols == lower + upper;
    LiveConcat(lower, upper, t.scale);
    ExactBatch(t, r, block0);
    forall c: nat | c < 64 ensures lower[c] == ExactColumns(t, r, block0)[c] {
      assert lower[c] == PairColumn(t, r, block0, peer, block1, c);
    }
    assert lower == ExactColumns(t, r, block0);
    assert forall c: nat | c < 64 :: upper[c] == PairColumn(t, r, block0, peer, block1, c + 64);
    if peer {
      ExactBatch(t, r, block1);
      assert upper == ExactColumns(t, r, block1);
    } else {
      DeadBatch(upper, t.scale);
    }
  }

  /** The index list in pairs: every block is used exactly once. */
  method FoldPairs(x: Exp2, t: Tile, r: nat, indices: array<nat>, count: nat, ps: Cell, ghost ts: seq<Term>) returns (ps': Cell)
    requires Lawful(x) && t.Ok() && !t.biased && r < t.qLen && count <= indices.Length
    requires Sound(x, ps, ts)
    ensures Sound(x, ps', ts + ListTerms(t, r, indices[..count]))
  {
    hide Sound, Live, ListTerms, Lawful;
    ps' := ps;
    NoTerms(t, r, indices[..0], ts);
    for pair := 0 to (count + 1) / 2
      invariant Sound(x, ps', ts + ListTerms(t, r, indices[..Min(2 * pair, count)]))
    {
      var ordinal := 2 * pair;
      var block0 := indices[ordinal];
      var peer := ordinal + 1 < count;
      var block1 := block0;
      if peer { block1 := indices[ordinal + 1]; }
      PairBatch(t, r, block0, peer, block1);
      ghost var done := indices[..ordinal];
      ps' := FoldBatch(x, t.scale, PairColumns(t, r, block0, peer, block1), ps', ts + ListTerms(t, r, done));
      PairAppended(t, r, done, block0, peer, block1, ts);
      assert indices[..Min(ordinal + 2, count)] == done + if peer then [block0, block1] else [block0];
    }
  }

  lemma NoTerms(t: Tile, r: nat, none: seq<nat>, ts: seq<Term>)
    requires none == []
    ensures ts + ListTerms(t, r, none) == ts
  {
  }

  lemma PairAppended(t: Tile, r: nat, done: seq<nat>, block0: nat, peer: bool, block1: nat, ts: seq<Term>)
    ensures ts + ListTerms(t, r, done) + (t.BlockKeys(r, block0) + if peer then t.BlockKeys(r, block1) else [])
         == ts + ListTerms(t, r, done + if peer then [block0, block1] else [block0])
  {
    hide ListTerms, Tile.BlockKeys;
    ListGrows(t, r, done, block0);
    var k0, k1, before := t.BlockKeys(r, block0), t.BlockKeys(r, block1), ListTerms(t, r, done);
    if peer {
      ListGrows(t, r, done + [block0], block1);
      assert done + [block0] + [block1] == done + [block0, block1];
      assert ts + before + (k0 + k1) == ts + (before + k0 + k1);
    } else {
      assert ts + before + (k0 + []) == ts + (before + k0);
    }
  }

  // ----- the routing rule -----

  /** What owner warp w leaves in route_partial for column j: the scaled scores of its sixteen
      rows, which start sixteen rows further on, cyclically. */
  function Partial(t: Tile, j: nat, w: nat): real
    requires w < 4
  {
    var first := (16 * w + 16) % 64;
    ScaledSum(t, j, first, first + 16)
  }

  /** The partials are added in pairs: the scaled sum over all rows that exist. */
  function PairedTotal(t: Tile, j: nat): (sum: real)
    requires t.Ok()
    ensures sum == Mul(ColumnSum(t, j, 0, t.qLen), t.scale)
  {
    QuarterSums(t, j);
    (Partial(t, j, 0) + Partial(t, j, 2)) + (Partial(t, j, 1) + Partial(t, j, 3))
  }

  lemma QuarterSums(t: Tile, j: nat)
    requires t.Ok()
    ensures Partial(t, j, 0) + Partial(t, j, 2) + (Partial(t, j, 1) + Partial(t, j, 3)) == Mul(ColumnSum(t, j, 0, t.qLen), t.scale)
  {
    hide ScaledSum, ColumnSum;
    ScaledSumIs(t, j, 0, 16);
    ScaledSumIs(t, j, 16, 32);
    ScaledSumIs(t, j, 32, 48);
    ScaledSumIs(t, j, 48, 64);
    SumSplit(t, j, 0, 16, 64);
    SumSplit(t, j, 16, 32, 64);
    SumSplit(t, j, 32, 48, 64);
    RowsPastEnd(t, j, 64);
    var a, b, c, d := ColumnSum(t, j, 0, 16), ColumnSum(t, j, 16, 32), ColumnSum(t, j, 32, 48), ColumnSum(t, j, 48, 64);
    Distrib(t.scale, a, b);
    Distrib(t.scale, a + b, c);
    Distrib(t.scale, a + b + c, d);
  }

  /** The decision for column `off` of a half: columns past the last block never vote, and
      SM100 knows no mapped neighbours. */
  function HalfVote(t: Tile, rule: Rule, start: nat, valid: nat, off: nat): (b: bool)
    requires t.Ok() && rule.mapped == (0, 0)
    ensures b == (off < valid && RouteOf(t, rule)(start + off))
  {
    var j := start + off;
    var distance := if rule.qBlock < j then j - rule.qBlock else rule.qBlock - j;
    off < valid && (PairedTotal(t, j) / (t.qLen as real) > rule.threshold || distance <= 1 || (j >= rule.sink.0 && j < rule.sink.1))
  }

  function HalfVotes(t: Tile, rule: Rule, start: nat, valid: nat): (votes: seq<bool>)
    requires t.Ok() && rule.mapped == (0, 0)
    ensures |votes| == HALF && Votes(RouteOf(t, rule), start, valid, votes)
  {
    var votes := seq(HALF, off requires 0 <= off < HALF => HalfVote(t, rule, start, valid, off));
    assert forall off: nat | off < HALF :: votes[off] == HalfVote(t, rule, start, valid, off);
    votes
  }

  // ----- one half -----

  predicate HalfOrders(o: seq<seq<nat>>) { |o| == 4 && forall w | 0 <= w < 4 :: LaneOrder(o[w]) }

  /** Every half, named by its first block, may have an order of its own. */
  ghost predicate AllHalfOrders(orders: nat -> seq<seq<nat>>) { forall start: nat :: HalfOrders(orders(start)) }

  /** One half of a group: its exact blocks are appended to the list at the cumulative
      count of the half before, its approximate columns are folded at once. */
  method FoldHalf(x: Exp2, t: Tile, rule: Rule, r: nat, start: nat, valid: nat, base: nat, orders: seq<seq<nat>>,
                  indices: array<nat>, ps: Cell, ghost ts: seq<Term>) returns (ps': Cell, rank: nat)
    requires Lawful(x) && t.Ok() && r < t.qLen && rule.mapped == (0, 0) && HalfOrders(orders) && valid <= HALF
    requires indices.Length == CAPACITY && base <= HALF && Sound(x, ps, ts)
    modifies indices
    ensures base <= rank <= base + HALF && indices[..base] == old(indices[..base])
    ensures indices[base..rank] == Chosen(RouteOf(t, rule), start, start + valid)
    ensures Sound(x, ps', ts + t.ApproxTerms(RouteOf(t, rule), r, start, start + valid))
  {
    hide Sound, Live, Picked, Chosen, Lawful, Tile.ApproxTerms, Count;
    ghost var route := RouteOf(t, rule);
    var masks := new Ext[128];
    var votes := HalfVotes(t, rule, start, valid);
    rank := Compact(votes, valid, start, base, orders, indices, masks);
    PickedIsChosen(route, start, valid, votes, HALF);
    assert votes[..HALF] == votes;
    ps' := ps;
    if rank - base < valid {
      ApproxBatch(t, route, r, start, valid, votes, masks[..]);
      ps' := FoldBatch(x, t.scale, ApproxColumns(t, r, start, masks[..]), ps, ts);
    } else {
      SkippedBatch(t, route, r, start, valid, votes);
      assert ts + [] == ts;
    }
  }

  // ----- one logical group -----

  /** Two halves and then the pairs.  The combined list is the increasing list of the
      group's exact blocks and fits its 256 slots. */
  method FoldGroup256(x: Exp2, t: Tile, rule: Rule, r: nat, start: nat, orders: nat -> seq<seq<nat>>, ps: Cell, ghost ts: seq<Term>)
    returns (ps': Cell)
    requires Lawful(x) && t.Ok() && !t.biased && rule.mapped == (0, 0) && r < t.qLen && AllHalfOrders(orders) && start < t.Blocks()
    requires Sound(x, ps, ts)
    ensures Sound(x, ps', ts + GroupTerms(t, RouteOf(t, rule), r, start, Min(start + 256, t.Blocks())))
  {
    hide Sound, Chosen, Lawful, Tile.ApproxTerms, Tile.ExactTerms, ListTerms;
    ghost var route := RouteOf(t, rule);
    var indices := new nat[256];
    var rank := 0;
    ps' := ps;
    var halves := if t.Blocks() - start > HALF then 2 else 1;
    NothingYet(t, route, r, start, ts);
    for half := 0 to halves
      invariant rank <= HALF * half
      invariant indices[..rank] == Chosen(route, start, Min(start + HALF * half, t.Blocks()))
      invariant Sound(x, ps', ts + t.ApproxTerms(route, r, start, Min(start + HALF * half, t.Blocks())))
    {
      ghost var lo := start + HALF * half;
      var valid := Min(t.Blocks() - (start + HALF * half), HALF);
      ghost var before := ts + t.ApproxTerms(route, r, start, lo);
      ghost var base := rank;
      ps', rank := FoldHalf(x, t, rule, r, start + HALF * half, valid, rank, orders(start + HALF * half), indices, ps', before);
      ChosenSplit(route, start, lo, lo + valid);
      TermsSplit(t, route, r, start, lo, lo + valid);
      assert indices[..rank] == indices[..base] + indices[base..rank];
      assert before + t.ApproxTerms(route, r, lo, lo + valid) == ts + t.ApproxTerms(route, r, start, lo + valid);
    }
    ghost var end := Min(start + 256, t.Blocks());
    ps' := FoldPairs(x, t, r, indices, rank, ps', ts + t.ApproxTerms(route, r, start, end));
    ChosenTerms(t, route, r, start, end);
    assert ts + t.ApproxTerms(route, r, start, end) + t.ExactTerms(route, r, start, end) == ts + GroupTerms(t, route, r, start, end);
  }

  lemma NothingYet(t: Tile, route: Route, r: nat, start: nat, ts: seq<Term>)
    ensures Chosen(route, start, start) == [] && ts + t.ApproxTerms(route, r, start, start) == ts
  {
  }

  /** One query row, starting from an output accumulator with arbitrary contents. */
  method ForwardRow256(x: Exp2, t: Tile, rule: Rule, r: nat, orders: nat -> seq<seq<nat>>, stale: real) returns (out: real)
    requires Lawful(x) && t.Ok() && !t.biased && rule.mapped == (0, 0) && r < t.qLen && AllHalfOrders(orders)
    ensures out == Reference(x, t, RouteOf(t, rule), r)
  {
    ghost var route := RouteOf(t, rule);
    EmptyTracks(x, 1.0);
    assert Streamed(t, route, r, [0]) == [] && Covers([0], 0);
    var ps := Cell(State(NegInf, 0.0, stale), false);
    ghost var cuts := [0];
    assert Sound(x, ps, Streamed(t, route, r, cuts));
    hide Sound, Streamed, GroupTerms, Lawful, Ascending, RouteOf, Exact;
    var start := 0;
    while start < t.Blocks()
      invariant Covers(cuts, Min(start, t.Blocks()))
      invariant Sound(x, ps, Streamed(t, route, r, cuts))
      decreases t.Blocks() - start
    {
      ps := FoldGroup256(x, t, rule, r, start, orders, ps, Streamed(t, route, r, cuts));
      StreamedGrows(t, route, r, cuts, Min(start + 256, t.Blocks()));
      CoversMore(cuts, start, Min(start + 256, t.Blocks()));
      cuts := cuts + [Min(start + 256, t.Blocks())];
      start := start + 256;
    }
    PairsAreReference(x, t, route, r, ps, cuts);
    out := ps.st.out / ps.st.sum;
  }

  lemma PairsAreReference(x: Exp2, t: Tile, route: Route, r: nat, ps: Cell, cuts: seq<nat>)
    requires Lawful(x) && t.Ok() && r < t.qLen && Covers(cuts, t.Blocks())
    requires Sound(x, ps, Streamed(t, route, r, cuts))
    ensures ps.st.sum > 0.0 && ps.st.out / ps.st.sum == Reference(x, t, route, r)
  {
    hide Streamed, Reference, Stands;
    if !ps.initialized { EmptyHasNoSum(x, ps.Meaning()); }
    RowIsReference(x, t, route, r, ps.Meaning(), cuts);
  }

  lemma EmptyHasNoSum(x: Exp2, st: State)
    requires Stands(x, st, [])
    ensures st.sum == 0.0
  {
    assert st.Row().sums[0] == 0.0;
  }
}
