/**
 The Triton forms of the mixed operator: groups of 32 blocks, one row sum, scores scaled
 before the maximum is taken, exact blocks found by repeated minimum.  Both forms are
 proved to give one query row the value of the two-pass reference, hence that of the
 SM120 kernel with its groups of 64.
*/
module TritonForward {
  import opened Basics
  import opened Exponential
  import opened Words
  import opened MixedOperator
  import opened OnlineSoftmax
  import opened RouteCompaction
  import opened Routing
  import opened ForwardSm120
  import opened ScaledSoftmax

  const GROUP: nat := 32

  /** The tensor-descriptor form or the pointer form. */
  datatype Form = Tma | Pointer

  /** An approximate batch.  When no column is approximate nothing changes, also while the
      maximum is still -inf. */
  method FoldColumns(x: Exp2, form: Form, cols: seq<Column>, on: seq<bool>, st: State, ghost ts: seq<Term>) returns (st': State)
    requires Lawful(x) && Stands(x, st, ts)
    requires |on| == |cols| && forall c | 0 <= c < |cols| :: on[c] == cols[c].raw.Fin?
    ensures Stands(x, st', ts + Live(cols, 1.0))
  {
    hide Weigh;
    var cur := BatchMax(1.0, cols, st.max, ts);
    forall c | 0 <= c < |cols| && on[c] ensures cur.Fin? { LiveMember(cols, c); }
    ghost var m := if cur.Fin? then Mul(1.0, cur.x) else 0.0;
    var alpha;
    match form {
    case Tma =>
      alpha := if st.max == cur then x.e(0.0) else Diff(x, st.max, cur);
      Zero(x);
      if st.max == cur && cur.Fin? { Same(x, st.max.x - m, 0.0); }
    case Pointer =>
      var hasApproximate := exists c :: 0 <= c < |cols| && on[c];
      if !hasApproximate { DeadBatch(cols, 1.0); }
      cur := if hasApproximate then cur else st.max;
      m := if cur.Fin? then Mul(1.0, cur.x) else 0.0;
      alpha := if hasApproximate then Diff(x, st.max, cur) else x.e(0.0);
      Zero(x);
      if !hasApproximate && cur.Fin? { Same(x, st.max.x - m, 0.0); }
    }
    Carried(x, st, ts, alpha, m);
    var sum, out := AddBatch(x, cols, on, cur, m, Mul(st.sum, alpha), Mul(st.out, alpha));
    Grown(x, st, ts, Live(cols, 1.0), cur, m, sum, out);
    st' := State(cur, sum, out);
  }

  /** An exact block: every column is on, and the new maximum is finite because no block
      is empty. */
  method FoldKeys(x: Exp2, cols: seq<Column>, st: State, ghost ts: seq<Term>) returns (st': State)
    requires Lawful(x) && Stands(x, st, ts) && Live(cols, 1.0) != []
    ensures Stands(x, st', ts + Live(cols, 1.0))
  {
    hide Weigh, Live;
    var cur := BatchMax(1.0, cols, st.max, ts);
    ghost var m := Mul(1.0, cur.x);
    var alpha := Diff(x, st.max, cur);
    Carried(x, st, ts, alpha, m);
    var sum, out := AddBatch(x, cols, seq(|cols|, _ => true), cur, m, Mul(st.sum, alpha), Mul(st.out, alpha));
    Grown(x, st, ts, Live(cols, 1.0), cur, m, sum, out);
    st' := State(cur, sum, out);
  }

  // ----- the columns of a batch -----

  /** The number of keys of block j, as each form writes it.  The first is wrong past the
      last block, where it is multiplied by zero. */
  function Length(t: Tile, form: Form, j: nat): int
    requires t.Ok()
  {
    match form
    case Tma => if j == t.Blocks() - 1 then t.tokens - (t.Blocks() - 1) * 64 else 64
    case Pointer => var left := t.tokens - j * 64; if left < 0 then 0 else if left > 64 then 64 else left
  }

  lemma LengthIsRight(t: Tile, form: Form, j: nat)
    requires t.Ok()
    ensures 0 <= Length(t, form, j) && (j < t.Blocks() ==> Length(t, form, j) == t.Length(j))
  {
  }

  function GroupColumn(t: Tile, form: Form, r: nat, j: nat, approximate: bool): Column
    requires t.Ok()
  {
    LengthIsRight(t, form, j);
    Column(if approximate then Fin(Mul(t.qkc(r, j), t.scale)) else NegInf, Length(t, form, j), t.vc(j))
  }

  function GroupColumns(t: Tile, form: Form, r: nat, start: nat, on: seq<bool>): (cols: seq<Column>)
    requires t.Ok()
    ensures |cols| == |on| && forall c: nat | c < |on| :: cols[c] == GroupColumn(t, form, r, start + c, on[c])
  {
    seq(|on|, c requires 0 <= c < |on| => GroupColumn(t, form, r, start + c, on[c]))
  }

  function KeyColumn(t: Tile, r: nat, block: nat, c: nat): Column {
    var u := block * 64 + c;
    Column(Fin(Mul(t.qk(r, u), t.scale)).Plus(if u < t.tokens then Fin(0.0) else NegInf), 1, t.v(u))
  }

  function KeyColumns(t: Tile, r: nat, block: nat): (cols: seq<Column>)
    ensures |cols| == 64 && forall c: nat | c < 64 :: cols[c] == KeyColumn(t, r, block, c)
  {
    seq(64, c requires 0 <= c < 64 => KeyColumn(t, r, block, c))
  }

  function Masks(votes: seq<bool>, valid: nat): (masks: seq<Ext>)
    ensures Masked(votes, valid, masks)
  {
    seq(|votes|, i requires 0 <= i < |votes| => if votes[i] || i >= valid then NegInf else Fin(0.0))
  }

  lemma GroupBatch(t: Tile, route: Route, form: Form, r: nat, start: nat, valid: nat, votes: seq<bool>, on: seq<bool>)
    requires t.Ok() && r < t.qLen && Votes(route, start, valid, votes) && valid <= |votes| && start + valid <= t.Blocks()
    requires |on| == |votes| && forall c: nat | c < |on| :: on[c] == (c < valid && !votes[c])
    ensures Live(GroupColumns(t, form, r, start, on), 1.0) == t.ApproxTerms(route, r, start, start + valid)
  {
    var masks := Masks(votes, valid);
    var a, b := ApproxColumns(t, r, start, masks), GroupColumns(t, form, r, start, on);
    ApproxBatch(t, route, r, start, valid, votes, masks);
    forall c: nat | c < |a| ensures Prescaled(a[c], b[c], t.scale) {
      assert Mask(votes, valid, c, masks[c]);
      LengthIsRight(t, form, start + c);
    }
    SameTerms(a, b, t.scale);
  }

  lemma KeyBatch(t: Tile, r: nat, block: nat)
    requires t.Ok() && !t.biased && r < t.qLen && block < t.Blocks()
    ensures Live(KeyColumns(t, r, block), 1.0) == t.BlockKeys(r, block) != []
  {
    ExactBatch(t, r, block);
    var a, b := ExactColumns(t, r, block), KeyColumns(t, r, block);
    forall c: nat | c < 64 ensures Prescaled(a[c], b[c], t.scale) {
      assert a[c] == ExactColumn(t, r, block, c) && b[c] == KeyColumn(t, r, block, c);
    }
    SameTerms(a, b, t.scale);
  }

  // ----- the exact blocks of a group, by repeated minimum -----

  /** The offsets of the exact blocks, GROUP where there is none (any longer). */
  predicate Offsets(votes: seq<bool>, from: nat, offsets: seq<nat>) {
    |offsets| == |votes| && forall i: nat | i < |votes| :: offsets[i] == if i >= from && votes[i] then i else |votes|
  }

  method Minimum(offsets: seq<nat>) returns (m: nat)
    requires offsets != []
    ensures m in offsets && forall i | 0 <= i < |offsets| :: m <= offsets[i]
  {
    m := offsets[0];
    for i := 1 to |offsets|
      invariant m in offsets && forall k | 0 <= k < i :: m <= offsets[k]
    {
      if offsets[i] < m { m := offsets[i]; }
    }
  }

  /** Nothing is selected between `from` and the minimum, so the minimum is next in order. */
  lemma MinimumIsNext(votes: seq<bool>, from: nat, offsets: seq<nat>, m: nat, start: nat)
    requires from <= |votes| && Offsets(votes, from, offsets) && Count(votes[..from]) < Count(votes)
    requires m in offsets && forall i | 0 <= i < |offsets| :: m <= offsets[i]
    ensures from <= m < |votes| && votes[m]
    ensures Picked(votes[..m + 1], start) == Picked(votes[..from], start) + [start + m]
    ensures Count(votes[..m + 1]) == Count(votes[..from]) + 1
  {
    var n := NextVote(votes, from);
    assert offsets[n] == n;
    assert forall i: nat | from <= i < m && i < |votes| :: offsets[i] >= m;
    NothingBetween(votes, from, m, start);
    PickedSnoc(votes, m, start);
    CountSnoc(votes, m);
  }

  lemma NextVote(votes: seq<bool>, from: nat) returns (n: nat)
    requires from <= |votes| && Count(votes[..from]) < Count(votes)
    ensures from <= n < |votes| && votes[n]
  {
    CountSplit(votes[..from], votes[from..]);
    assert votes == votes[..from] + votes[from..];
    if forall i | from <= i < |votes| :: !votes[i] { NoVotes(votes[from..]); }
    n :| from <= n < |votes| && votes[n];
  }

  lemma {:induction false} NothingBetween(votes: seq<bool>, lo: nat, hi: nat, start: nat)
    requires lo <= hi <= |votes| && forall i | lo <= i < hi :: !votes[i]
    ensures Picked(votes[..hi], start) == Picked(votes[..lo], start) && Count(votes[..hi]) == Count(votes[..lo])
    decreases hi
  {
    if lo < hi {
      NothingBetween(votes, lo, hi - 1, start);
      PickedSnoc(votes, hi - 1, start);
      CountSnoc(votes, hi - 1);
    }
  }

  /** The exact loop: as many turns as there are exact blocks, each taking the least
      offset left and striking it out. */
  method FoldExactBlocks(x: Exp2, t: Tile, r: nat, start: nat, votes: seq<bool>, st: State, ghost ts: seq<Term>) returns (st': State)
    requires Lawful(x) && t.Ok() && !t.biased && r < t.qLen && Stands(x, st, ts) && |votes| == GROUP
    requires forall i: nat | i < |votes| && votes[i] :: start + i < t.Blocks()
    ensures Stands(x, st', ts + ListTerms(t, r, Picked(votes, start)))
  {
    hide Stands, Picked, ListTerms, Count, Lawful;
    st' := st;
    var offsets: seq<nat> := seq(GROUP, i requires 0 <= i < GROUP => if votes[i] then i else GROUP);
    ghost var from := 0;
    NoneYet(t, r, votes, start, ts);
    var count := Count(votes);
    for turn := 0 to count
      invariant from <= GROUP && Offsets(votes, from, offsets) && Count(votes[..from]) == turn
      invariant Stands(x, st', ts + ListTerms(t, r, Picked(votes[..from], start)))
    {
      var offset := Minimum(offsets);
      MinimumIsNext(votes, from, offsets, offset, start);
      var block := start + offset;
      offsets := offsets[offset := GROUP];
      KeyBatch(t, r, block);
      ghost var done := Picked(votes[..from], start);
      ListGrows(t, r, done, block);
      st' := FoldKeys(x, KeyColumns(t, r, block), st', ts + ListTerms(t, r, done));
      assert ts + ListTerms(t, r, done) + t.BlockKeys(r, block) == ts + ListTerms(t, r, done + [block]);
      from := offset + 1;
    }
    AllPicked(votes, from, start);
  }

  lemma NoneYet(t: Tile, r: nat, votes: seq<bool>, start: nat, ts: seq<Term>)
    ensures Count(votes[..0]) == 0 && ts + ListTerms(t, r, Picked(votes[..0], start)) == ts
  {
    assert votes[..0] == [];
  }

  lemma AllPicked(votes: seq<bool>, from: nat, start: nat)
    requires from <= |votes| && Count(votes[..from]) == Count(votes)
    ensures Picked(votes[..from], start) == Picked(votes, start)
  {
    var rest := votes[from..];
    assert votes == votes[..from] + rest && votes[..|votes|] == votes;
    CountSplit(votes[..from], rest);
    forall i | from <= i < |votes| ensures !votes[i] {
      RanksIncrease(rest, i - from, |rest|);
      assert rest[..|rest|] == rest;
    }
    NothingBetween(votes, from, |votes|, start);
  }

  // ----- the routing rule -----

  /** The program's decision for block j agrees with the routing rule. */
  function Decide(t: Tile, rule: Rule, j: nat): (b: bool)
    requires t.Ok() && rule.mapped == (0, 0)
    ensures b == (j < t.Blocks() && RouteOf(t, rule)(j))
  {
    ScaledSumIs(t, j, 0, 64);
    RowsPastEnd(t, j, 64);
    var distance := if rule.qBlock < j then j - rule.qBlock else rule.qBlock - j;
    var exact := ScaledSum(t, j, 0, 64) / (t.qLen as real) > rule.threshold || distance <= 1 || (j >= rule.sink.0 && j < rule.sink.1);
    exact && j < t.Blocks()
  }

  function Decisions(t: Tile, rule: Rule, start: nat): (votes: seq<bool>)
    requires t.Ok() && rule.mapped == (0, 0)
    ensures |votes| == GROUP && forall i: nat | i < GROUP :: votes[i] == (start + i < t.Blocks() && RouteOf(t, rule)(start + i))
  {
    var votes := seq(GROUP, i requires 0 <= i < GROUP => Decide(t, rule, start + i));
    assert forall i: nat | i < GROUP :: votes[i] == Decide(t, rule, start + i);
    votes
  }

  // ----- one query row -----

  /** One group of 32 blocks. */
  method FoldGroup32(x: Exp2, form: Form, t: Tile, rule: Rule, r: nat, start: nat, st: State, ghost ts: seq<Term>) returns (st': State)
    requires Lawful(x) && t.Ok() && !t.biased && rule.mapped == (0, 0) && r < t.qLen && start < t.Blocks()
    requires Stands(x, st, ts)
    ensures Stands(x, st', ts + GroupTerms(t, RouteOf(t, rule), r, start, Min(start + GROUP, t.Blocks())))
  {
    hide Stands, Picked, Live, Lawful, ListTerms, Tile.ApproxTerms;
    ghost var route, valid := RouteOf(t, rule), Min(start + GROUP, t.Blocks()) - start;
    var votes := Decisions(t, rule, start);
    var on := seq(GROUP, c requires 0 <= c < GROUP => start + c < t.Blocks() && !votes[c]);
    GroupBatch(t, route, form, r, start, valid, votes, on);
    var mid := FoldColumns(x, form, GroupColumns(t, form, r, start, on), on, st, ts);
    ghost var ts' := ts + t.ApproxTerms(route, r, start, start + valid);
    st' := FoldExactBlocks(x, t, r, start, votes, mid, ts');
    PartsAreGroup(t, route, r, start, valid, votes, ts);
  }

  /** One query row of either form equals the two-pass reference.  The divisor is never
      zero, so no row needs the guard that the SM120 kernel has. */
  method ForwardRow32(x: Exp2, form: Form, t: Tile, rule: Rule, r: nat) returns (out: real)
    requires Lawful(x) && t.Ok() && !t.biased && rule.mapped == (0, 0) && r < t.qLen
    ensures out == Reference(x, t, RouteOf(t, rule), r)
  {
    ghost var route := RouteOf(t, rule);
    EmptyTracks(x, 1.0);
    assert Streamed(t, route, r, [0]) == [] && Covers([0], 0);
    var st := State(NegInf, 0.0, 0.0);
    ghost var cuts := [0];
    hide Tracks, Streamed, GroupTerms, Lawful, Ascending, RouteOf, Exact;
    var start := 0;
    while start < t.Blocks()
      invariant Covers(cuts, Min(start, t.Blocks()))
      invariant Stands(x, st, Streamed(t, route, r, cuts))
      decreases t.Blocks() - start
    {
      st := FoldGroup32(x, form, t, rule, r, start, st, Streamed(t, route, r, cuts));
      StreamedGrows(t, route, r, cuts, Min(start + GROUP, t.Blocks()));
      CoversMore(cuts, start, Min(start + GROUP, t.Blocks()));
      cuts := cuts + [Min(start + GROUP, t.Blocks())];
      start := start + GROUP;
    }
    RowIsReference(x, t, route, r, st, cuts);
    out := st.out / st.sum;
  }
}
