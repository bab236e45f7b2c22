/**
 Putting independently normalised pieces of one row back together: the SM90 split
 ranges and their combine kernel, and the merge of physical key partitions.
*/
module SplitMerge {
  import opened Basics
  import opened Exponential
  import opened MixedOperator
  import opened OnlineSoftmax
  import opened RouteCompaction
  import opened Routing
  import opened ForwardSm120

  // ----- what a piece stands for -----

  /** The normalised output of a piece and its natural log-sum-exp. */
  datatype Partial = Partial(out: real, lse: Ext)

  /** `p` is the attention over the terms `ts`.  The output of an empty piece is
      unspecified: nothing may depend on it. */
  ghost predicate Summarises(x: Exp2, p: Partial, ts: seq<Term>)
    requires x.ln2 > 0.0
  {
    if ts == [] then p.lse.NegInf?
    else
      && p.lse.Fin? && Den(x, ts, 0.0) > 0.0
      && x.e(p.lse.x / x.ln2) == Den(x, ts, 0.0)
      && p.out == Num(x, ts, 0.0) / Den(x, ts, 0.0)
  }

  /** The terms determine the piece. */
  lemma SummaryIsUnique(x: Exp2, p: Partial, q: Partial, ts: seq<Term>)
    requires Lawful(x) && ts != [] && Summarises(x, p, ts) && Summarises(x, q, ts)
    ensures p == q
  {
    Injective(x, p.lse.x / x.ln2, q.lse.x / x.ln2);
    assert p.lse.x == Mul(p.lse.x / x.ln2, x.ln2) && q.lse.x == Mul(q.lse.x / x.ln2, x.ln2);
  }

  ghost predicate AllSummarise(x: Exp2, ps: seq<Partial>, tss: seq<seq<Term>>)
    requires x.ln2 > 0.0
  {
    |ps| == |tss| && forall s | 0 <= s < |ps| :: Summarises(x, ps[s], tss[s])
  }

  /** A piece's weight at shift m (log2 units) is its denominator there, and weight
      times output its numerator. */
  lemma PieceWeight(x: Exp2, p: Partial, ts: seq<Term>, m: real)
    requires Lawful(x) && Summarises(x, p, ts) && ts != []
    ensures x.e(p.lse.x / x.ln2 - m) == Den(x, ts, m) > 0.0
    ensures Mul(x.e(p.lse.x / x.ln2 - m), p.out) == Num(x, ts, m)
  {
    var a := p.lse.x / x.ln2;
    Reshift(x, ts, 0.0, m, Mass);
    Reshift(x, ts, 0.0, m, Value);
    Sum(x, a, 0.0 - m);
    Same(x, a + (0.0 - m), a - m);
    Pos(x, a - m);
    assert Mul(Den(x, ts, 0.0), p.out) == Num(x, ts, 0.0);
    Assoc(Den(x, ts, 0.0), x.e(0.0 - m), p.out);
  }

  // ----- the SM90 combine kernel -----

  /** exp2(lse * log2 e - max * log2 e), zero for an empty split. */
  function Scale(x: Exp2, lse: Ext, max: real): real
    requires x.ln2 > 0.0
  {
    if lse.NegInf? then 0.0 else x.e(lse.x / x.ln2 - max / x.ln2)
  }

  lemma ScaleIsDen(x: Exp2, p: Partial, ts: seq<Term>, max: real)
    requires Lawful(x) && Summarises(x, p, ts)
    ensures Scale(x, p.lse, max) == Den(x, ts, max / x.ln2) >= 0.0
    ensures Scale(x, p.lse, max) > 0.0 <==> ts != []
    ensures ts != [] ==> Mul(Scale(x, p.lse, max), p.out) == Num(x, ts, max / x.ln2)
  {
    if ts != [] { PieceWeight(x, p, ts, max / x.ln2); }
  }

  lemma FlattenMore(x: Exp2, tss: seq<seq<Term>>, s: nat, m: real)
    requires s < |tss|
    ensures Flatten(tss[..s + 1]) == Flatten(tss[..s]) + tss[s]
    ensures Den(x, Flatten(tss[..s + 1]), m) == Den(x, Flatten(tss[..s]), m) + Den(x, tss[s], m)
    ensures Num(x, Flatten(tss[..s + 1]), m) == Num(x, Flatten(tss[..s]), m) + Num(x, tss[s], m)
  {
    var upto := tss[..s + 1];
    assert upto[..|upto| - 1] == tss[..s] && upto[|upto| - 1] == tss[s];
    Concat(x, Flatten(tss[..s]), tss[s], m, Mass);
    Concat(x, Flatten(tss[..s]), tss[s], m, Value);
  }

  lemma {:induction false} TrailingEmpty(tss: seq<seq<Term>>, n: nat)
    requires n <= |tss| && forall s | n <= s < |tss| :: tss[s] == []
    ensures Flatten(tss) == Flatten(tss[..n])
    decreases |tss|
  {
    if n == |tss| {
      assert tss[..n] == tss;
    } else {
      var init := tss[..|tss| - 1];
      TrailingEmpty(init, n);
      assert init[..n] == tss[..n];
    }
  }

  /** A piece is settled by its sums at any shift. */
  lemma SumsSummarise(x: Exp2, p: Partial, ts: seq<Term>, m: real, sum: real)
    requires Lawful(x) && ts != [] && sum == Den(x, ts, m) > 0.0 && Mul(p.out, sum) == Num(x, ts, m)
    requires p.lse.Fin? && p.lse.x / x.ln2 == x.lg(sum) + m
    ensures Summarises(x, p, ts)
  {
    Reshift(x, ts, m, 0.0, Mass);
    Reshift(x, ts, m, 0.0, Value);
    Same(x, m - 0.0, m);
    Pos(x, m);
    MulPos(sum, x.e(m));
    Sum(x, x.lg(sum), m);
    LogInverse(x, sum);
    Assoc(p.out, sum, x.e(m));
    DivIs(Num(x, ts, 0.0), Den(x, ts, 0.0), p.out);
  }

  /** The largest of the log-sum-exps; -inf if there is none larger. */
  predicate IsLargest(max: Ext, ps: seq<Partial>) {
    && (forall s | 0 <= s < |ps| && ps[s].lse.Fin? :: max.Fin? && ps[s].lse.x <= max.x)
    && (max.Fin? ==> exists s :: 0 <= s < |ps| && ps[s].lse == max)
  }

  /** Largest log-sum-exp, and the last split that is not empty (-1 if none). */
  method LastValid(x: Exp2, ps: seq<Partial>, ghost tss: seq<seq<Term>>) returns (max: Ext, last: int)
    requires Lawful(x) && AllSummarise(x, ps, tss)
    ensures -1 <= last < |ps|
    ensures forall s | last < s < |ps| :: tss[s] == []
    ensures last >= 0 ==> tss[last] != []
    ensures IsLargest(max, ps)
  {
    max, last := NegInf, -1;
    for s := 0 to |ps|
      invariant -1 <= last < s
      invariant forall i | last < i < s :: tss[i] == []
      invariant last >= 0 ==> tss[last] != []
      invariant IsLargest(max, ps[..s])
    {
      LargestGrows(max, ps, s);
      assert Summarises(x, ps[s], tss[s]);
      max := max.Max(ps[s].lse);
      if ps[s].lse.Fin? { last := s; }
    }
    assert ps[..|ps|] == ps;
  }

  lemma LargestGrows(max: Ext, ps: seq<Partial>, s: nat)
    requires s < |ps| && IsLargest(max, ps[..s])
    ensures IsLargest(max.Max(ps[s].lse), ps[..s + 1])
  {
    var more := ps[..s + 1];
    assert more == ps[..s] + [ps[s]] && more[s] == ps[s];
    if max.Fin? {
      var i :| 0 <= i < s && ps[..s][i].lse == max;
      assert more[i].lse == max;
    }
  }

  /** Sum of the scales: the common denominator, positive unless every split is empty. */
  method SumScales(x: Exp2, ps: seq<Partial>, cur: real, ghost tss: seq<seq<Term>>) returns (sum: real)
    requires Lawful(x) && AllSummarise(x, ps, tss)
    ensures sum == Den(x, Flatten(tss), cur / x.ln2) >= 0.0
    ensures sum > 0.0 <==> Flatten(tss) != []
  {
    ghost var m := cur / x.ln2;
    sum := 0.0;
    for s := 0 to |ps|
      invariant sum == Den(x, Flatten(tss[..s]), m) >= 0.0
      invariant sum > 0.0 <==> Flatten(tss[..s]) != []
    {
      ScaleIsDen(x, ps[s], tss[s], cur);
      FlattenMore(x, tss, s, m);
      sum := sum + Scale(x, ps[s].lse, cur);
    }
    assert tss[..|tss|] == tss;
  }

  lemma ScaledOutput(x: Exp2, p: Partial, ts: seq<Term>, cur: real, inv: real)
    requires Lawful(x) && Summarises(x, p, ts) && inv > 0.0
    ensures var scale := Mul(Scale(x, p.lse, cur), inv);
            (if scale > 0.0 then Mul(scale, p.out) else 0.0) == Mul(Num(x, ts, cur / x.ln2), inv)
  {
    var w := Scale(x, p.lse, cur);
    ScaleIsDen(x, p, ts, cur);
    if ts != [] {
      MulPos(w, inv);
      Assoc(w, inv, p.out);
    }
  }

  lemma {:induction false} NonEmptyFlatten(tss: seq<seq<Term>>, s: nat)
    requires s < |tss| && tss[s] != []
    ensures Flatten(tss) != []
    decreases |tss|
  {
    if s < |tss| - 1 { NonEmptyFlatten(tss[..|tss| - 1], s); }
  }

  /** One row of the combine kernel: scales relative to the largest log-sum-exp, their
      sum, and the scaled outputs up to the last valid split, skipping zero scales.
      The result is the attention over all splits' terms together; empty splits,
      whatever their output buffers hold, contribute nothing. */
  method CombineRow(x: Exp2, ps: seq<Partial>, ghost tss: seq<seq<Term>>) returns (p: Partial)
    requires Lawful(x) && AllSummarise(x, ps, tss)
    ensures Summarises(x, p, Flatten(tss))
    ensures Flatten(tss) == [] ==> p.out == 0.0
  {
    hide Weigh, Flatten;
    var max, last := LastValid(x, ps, tss);
    var cur := if max.NegInf? then 0.0 else max.x;
    ghost var m := cur / x.ln2;
    var sum := SumScales(x, ps, cur, tss);
    var inv := if sum == 0.0 then 0.0 else 1.0 / sum;
    if last >= 0 { NonEmptyFlatten(tss, last); }
    var out := 0.0;
    NothingYet(x, tss, m);
    for s := 0 to last + 1
      invariant out == Mul(Num(x, Flatten(tss[..s]), m), inv)
    {
      var scale := Mul(Scale(x, ps[s].lse, cur), inv);
      ScaledOutput(x, ps[s], tss[s], cur, inv);
      FlattenMore(x, tss, s, m);
      Distrib(inv, Num(x, Flatten(tss[..s]), m), Num(x, tss[s], m));
      if scale > 0.0 { out := out + Mul(scale, ps[s].out); }
    }
    TrailingEmpty(tss, last + 1);
    p := Partial(out, if sum == 0.0 then NegInf else Fin(Mul(x.lg(sum), x.ln2) + cur));
    if sum > 0.0 {
      assert Mul(out, sum) == Num(x, Flatten(tss), m);
      LseInLog2(x, x.lg(sum), cur);
      SumsSummarise(x, p, Flatten(tss), m, sum);
    }
  }

  lemma NothingYet(x: Exp2, tss: seq<seq<Term>>, m: real)
    ensures Num(x, Flatten(tss[..0]), m) == 0.0 && Flatten(tss[..0]) == []
  {
  }

  lemma LseInLog2(x: Exp2, a: real, cur: real)
    requires x.ln2 > 0.0
    ensures (Mul(a, x.ln2) + cur) / x.ln2 == a + cur / x.ln2
  {
    DivIs(Mul(a, x.ln2) + cur, x.ln2, a + cur / x.ln2);
  }

  // ----- SM90 split ranges -----

  /** The route groups of split s: first group and number of groups. */
  function SplitRange(groups: nat, splits: nat, s: nat): (nat, nat)
    requires splits > 0
  {
    var per := (groups + splits - 1) / splits;
    var begin := s * per;
    var end := Min(begin + per, groups);
    (begin, if end > begin then end - begin else 0)
  }

  /** Where split s begins, clipped to the number of groups. */
  function Bound(groups: nat, splits: nat, s: nat): nat
    requires splits > 0
  {
    Min(s * ((groups + splits - 1) / splits), groups)
  }

  lemma EnoughPerSplit(groups: nat, splits: nat)
    requires splits > 0
    ensures splits * ((groups + splits - 1) / splits) >= groups
  {
    var per := (groups + splits - 1) / splits;
    assert groups + splits - 1 == per * splits + (groups + splits - 1) % splits;
  }

  lemma MulGrows(a: nat, b: nat, c: nat)
    requires a <= b
    ensures a * c <= b * c && (a + 1) * c == a * c + c
  {
  }

  /** The splits' ranges are consecutive pieces of the group range, whether or not
      the trailing ones are empty. */
  lemma RangesTile(groups: nat, splits: nat, s: nat)
    requires s < splits
    ensures Bound(groups, splits, 0) == 0 && Bound(groups, splits, splits) == groups
    ensures Bound(groups, splits, s) <= Bound(groups, splits, s + 1)
    ensures var r := SplitRange(groups, splits, s);
            && r.1 == Bound(groups, splits, s + 1) - Bound(groups, splits, s)
            && (r.1 > 0 ==> r.0 == Bound(groups, splits, s))
    ensures var r, per := SplitRange(groups, splits, s), (groups + splits - 1) / splits;
            && r.0 == s * per && r.1 == if groups <= s * per then 0 else if groups - s * per < per then groups - s * per else per
  {
    EnoughPerSplit(groups, splits);
    MulGrows(s, s + 1, (groups + splits - 1) / splits);
  }

  lemma {:induction false} BoundsAscend(groups: nat, splits: nat, a: nat, b: nat)
    requires a <= b <= splits && splits > 0
    ensures Bound(groups, splits, a) <= Bound(groups, splits, b)
    decreases b
  {
    if a < b {
      BoundsAscend(groups, splits, a, b - 1);
      RangesTile(groups, splits, b - 1);
    }
  }

  predicate InRange(g: nat, r: (nat, nat)) { r.0 <= g < r.0 + r.1 }

  /** Every route group belongs to exactly one split. */
  lemma EachGroupOnce(groups: nat, splits: nat, g: nat) returns (s: nat)
    requires splits > 0 && g < groups
    ensures s < splits && InRange(g, SplitRange(groups, splits, s))
    ensures forall s': nat | s' < splits && InRange(g, SplitRange(groups, splits, s')) :: s' == s
  {
    s := 0;
    RangesTile(groups, splits, 0);
    while Bound(groups, splits, s + 1) <= g
      invariant s < splits && Bound(groups, splits, s) <= g
      decreases splits - s
    {
      s := s + 1;
    }
    RangesTile(groups, splits, s);
    forall s': nat | s' < splits && InRange(g, SplitRange(groups, splits, s')) ensures s' == s {
      RangesTile(groups, splits, s');
      if s' < s { BoundsAscend(groups, splits, s' + 1, s); }
      if s < s' { BoundsAscend(groups, splits, s + 1, s'); }
    }
  }

  /** What split s folds: its own groups, cut at `cutss[s]`. */
  ghost predicate SplitCuts(bounds: seq<nat>, cutss: seq<seq<nat>>) {
    && |bounds| == |cutss| + 1 && Ascending(bounds)
    && forall s | 0 <= s < |cutss| ::
         cutss[s] != [] && Ascending(cutss[s]) && cutss[s][0] == bounds[s] && cutss[s][|cutss[s]| - 1] == bounds[s + 1]
  }

  function SplitTerms(t: Tile, route: Route, r: nat, cutss: seq<seq<nat>>): (tss: seq<seq<Term>>)
    ensures |tss| == |cutss| && forall s | 0 <= s < |tss| :: tss[s] == Streamed(t, route, r, cutss[s])
  {
    seq(|cutss|, s requires 0 <= s < |cutss| => Streamed(t, route, r, cutss[s]))
  }

  lemma SplitCutsInit(bounds: seq<nat>, cutss: seq<seq<nat>>)
    requires SplitCuts(bounds, cutss) && cutss != []
    ensures var n := |cutss| - 1;
            && SplitCuts(bounds[..n + 1], cutss[..n]) && bounds[0] <= bounds[n] <= bounds[n + 1]
            && cutss[n] != [] && Ascending(cutss[n]) && cutss[n][0] == bounds[n] && cutss[n][|cutss[n]| - 1] == bounds[n + 1]
  {
  }

  lemma {:induction false} SplitsWeight(x: Exp2, t: Tile, route: Route, r: nat, bounds: seq<nat>, cutss: seq<seq<nat>>, m: real, part: Part)
    requires t.Ok() && r < t.qLen && SplitCuts(bounds, cutss)
    ensures Weigh(x, Flatten(SplitTerms(t, route, r, cutss)), m, part) == WeighMixed(x, t, route, r, bounds[0], bounds[|cutss|], m, part)
    decreases |cutss|
  {
    if cutss != [] {
      var n := |cutss| - 1;
      var tss := SplitTerms(t, route, r, cutss);
      SplitCutsInit(bounds, cutss);
      assert tss[..n] == SplitTerms(t, route, r, cutss[..n]) && tss[n] == Streamed(t, route, r, cutss[n]);
      assert Flatten(tss) == Flatten(tss[..n]) + tss[n];
      hide Weigh, WeighMixed, Flatten, Streamed, SplitCuts, Ascending;
      SplitsWeight(x, t, route, r, bounds[..n + 1], cutss[..n], m, part);
      Concat(x, Flatten(tss[..n]), tss[n], m, part);
      StreamedWeight(x, t, route, r, cutss[n], m, part);
      MixedSplit(x, t, route, r, bounds[0], bounds[n], bounds[n + 1], m, part);
    }
  }

  lemma MixedSplit(x: Exp2, t: Tile, route: Route, r: nat, a: nat, b: nat, c: nat, m: real, part: Part)
    requires t.Ok() && r < t.qLen && a <= b <= c
    ensures WeighMixed(x, t, route, r, a, c, m, part) == WeighMixed(x, t, route, r, a, b, m, part) + WeighMixed(x, t, route, r, b, c, m, part)
  {
    GroupWeight(x, t, route, r, a, b, c, m, part);
    Concat(x, t.ApproxTerms(route, r, b, c), t.ExactTerms(route, r, b, c), m, part);
  }

  /** Splitting the key range does not change the result: when each split's partial is
      the attention over its own groups, the combine kernel returns the unsplit
      reference, and a log-sum-exp with the reference's denominator. */
  method CombineSplits(x: Exp2, t: Tile, ghost route: Route, r: nat, ghost bounds: seq<nat>, ghost cutss: seq<seq<nat>>, ps: seq<Partial>)
    returns (p: Partial)
    requires Lawful(x) && t.Ok() && r < t.qLen && SplitCuts(bounds, cutss)
    requires bounds[0] == 0 && bounds[|cutss|] == t.Blocks()
    requires AllSummarise(x, ps, SplitTerms(t, route, r, cutss))
    ensures p.out == Reference(x, t, route, r)
    ensures Summarises(x, p, t.AllTerms(route, r))
  {
    ghost var tss := SplitTerms(t, route, r, cutss);
    p := CombineRow(x, ps, tss);
    SameSums(x, t, route, r, bounds, cutss, p);
  }

  lemma SameSums(x: Exp2, t: Tile, route: Route, r: nat, bounds: seq<nat>, cutss: seq<seq<nat>>, p: Partial)
    requires Lawful(x) && t.Ok() && r < t.qLen && SplitCuts(bounds, cutss)
    requires bounds[0] == 0 && bounds[|cutss|] == t.Blocks()
    requires Summarises(x, p, Flatten(SplitTerms(t, route, r, cutss)))
    ensures p.out == Reference(x, t, route, r) && Summarises(x, p, t.AllTerms(route, r))
  {
    hide Weigh, Tile.AllTerms, WeighMixed, Reference;
    var all, split := t.AllTerms(route, r), Flatten(SplitTerms(t, route, r, cutss));
    SplitIsAll(x, t, route, r, bounds, cutss, Mass);
    SplitIsAll(x, t, route, r, bounds, cutss, Value);
    TermsExist(t, route, r);
    DenPositive(x, all, 0.0);
    RowRatio(x, t, route, r, 0.0);
    EqualSums(x, p, split, all);
  }

  lemma SplitIsAll(x: Exp2, t: Tile, route: Route, r: nat, bounds: seq<nat>, cutss: seq<seq<nat>>, part: Part)
    requires t.Ok() && r < t.qLen && SplitCuts(bounds, cutss) && bounds[0] == 0 && bounds[|cutss|] == t.Blocks()
    ensures Weigh(x, Flatten(SplitTerms(t, route, r, cutss)), 0.0, part) == Weigh(x, t.AllTerms(route, r), 0.0, part)
  {
    hide Weigh;
    SplitsWeight(x, t, route, r, bounds, cutss, 0.0, part);
    Concat(x, t.ExactTerms(route, r, 0, t.Blocks()), t.ApproxTerms(route, r, 0, t.Blocks()), 0.0, part);
  }

  /** A piece is settled by its two sums, not by the order of its terms. */
  lemma EqualSums(x: Exp2, p: Partial, a: seq<Term>, b: seq<Term>)
    requires Lawful(x) && b != [] && Summarises(x, p, a)
    requires Den(x, b, 0.0) > 0.0 && Den(x, a, 0.0) == Den(x, b, 0.0) && Num(x, a, 0.0) == Num(x, b, 0.0)
    ensures Summarises(x, p, b)
  {
  }

  // ----- merging physical key partitions -----

  /** The same keys with a log measure of c (in log2 units) on each. */
  function Measured(ts: seq<Term>, c: real): (us: seq<Term>)
    ensures |us| == |ts|
  {
    if ts == [] then [] else
      Measured(ts[..|ts| - 1], c) + [Term(ts[|ts| - 1].score + c, ts[|ts| - 1].mass, ts[|ts| - 1].value)]
  }

  lemma {:induction false} MeasuredWeight(x: Exp2, ts: seq<Term>, c: real, m: real, part: Part)
    ensures Weigh(x, Measured(ts, c), m, part) == Weigh(x, ts, m - c, part)
    decreases |ts|
  {
    if ts != [] {
      var k := ts[|ts| - 1];
      var k' := Term(k.score + c, k.mass, k.value);
      MeasuredWeight(x, ts[..|ts| - 1], c, m, part);
      WeighSnoc(x, Measured(ts[..|ts| - 1], c), k', m, part);
      Same(x, k.score + c - m, k.score - (m - c));
      assert Share(k, part) == Share(k', part);
    }
  }

  /** Adding the measure to the log-sum-exp measures the keys. */
  lemma AdjustedSummary(x: Exp2, p: Partial, ts: seq<Term>, mu: real)
    requires Lawful(x) && ts != [] && Summarises(x, p, ts)
    ensures Summarises(x, Partial(p.out, Fin(p.lse.x + mu)), Measured(ts, mu / x.ln2))
  {
    var c := mu / x.ln2;
    MeasuredWeight(x, ts, c, 0.0, Mass);
    MeasuredWeight(x, ts, c, 0.0, Value);
    PieceWeight(x, p, ts, 0.0 - c);
    Same(x, p.lse.x / x.ln2 - (0.0 - c), (p.lse.x + mu) / x.ln2);
    DivIs(Num(x, ts, 0.0 - c), Den(x, ts, 0.0 - c), p.out);
  }

  /** The keys of a partition under its log measure; under -inf there are none. */
  function MeasuredBy(x: Exp2, ts: seq<Term>, mu: Ext): seq<Term>
    requires x.ln2 > 0.0
  {
    if mu.NegInf? then [] else Measured(ts, mu.x / x.ln2)
  }

  function MeasuredAll(x: Exp2, tss: seq<seq<Term>>, mus: seq<Ext>): (uss: seq<seq<Term>>)
    requires |tss| == |mus| && x.ln2 > 0.0
    ensures |uss| == |tss| && forall s | 0 <= s < |uss| :: uss[s] == MeasuredBy(x, tss[s], mus[s])
  {
    seq(|tss|, s requires 0 <= s < |tss| => MeasuredBy(x, tss[s], mus[s]))
  }

  lemma Adjusted(x: Exp2, p: Partial, ts: seq<Term>, mu: Ext)
    requires Lawful(x) && Summarises(x, p, ts)
    ensures Summarises(x, Partial(p.out, p.lse.Plus(mu)), MeasuredBy(x, ts, mu))
  {
    if ts != [] && mu.Fin? { AdjustedSummary(x, p, ts, mu.x); }
  }

  /** torch.logsumexp over entries of which at least one is finite. */
  method LogSumExp(x: Exp2, adjusted: seq<Partial>, ghost uss: seq<seq<Term>>) returns (lse: real)
    requires Lawful(x) && AllSummarise(x, adjusted, uss) && Flatten(uss) != []
    ensures Den(x, Flatten(uss), 0.0) > 0.0 && x.e(lse / x.ln2) == Den(x, Flatten(uss), 0.0)
  {
    hide Weigh, Flatten;
    var max := NegInf;
    for s := 0 to |adjusted|
      invariant max.NegInf? ==> forall i | 0 <= i < s :: uss[i] == []
    {
      assert Summarises(x, adjusted[s], uss[s]);
      max := max.Max(adjusted[s].lse);
    }
    if max.NegInf? { AllEmpty(uss); }
    var sum := SumScales(x, adjusted, max.x, uss);
    lse := Mul(x.lg(sum), x.ln2) + max.x;
    SumIsLse(x, Flatten(uss), max.x, sum);
  }

  lemma SumIsLse(x: Exp2, ts: seq<Term>, max: real, sum: real)
    requires Lawful(x) && sum == Den(x, ts, max / x.ln2) > 0.0
    ensures Den(x, ts, 0.0) > 0.0 && x.e((Mul(x.lg(sum), x.ln2) + max) / x.ln2) == Den(x, ts, 0.0)
  {
    LseInLog2(x, x.lg(sum), max);
    LogInverse(x, sum);
    Sum(x, x.lg(sum), max / x.ln2);
    Reshift(x, ts, max / x.ln2, 0.0, Mass);
    Same(x, max / x.ln2 - 0.0, max / x.ln2);
    Pos(x, max / x.ln2);
    MulPos(sum, x.e(max / x.ln2));
  }

  lemma AllEmpty(uss: seq<seq<Term>>)
    requires forall i | 0 <= i < |uss| :: uss[i] == []
    ensures Flatten(uss) == []
  {
    TrailingEmpty(uss, 0);
    assert uss[..0] == [];
  }

  /** exp(lse - merged), zero for a partition of log-sum-exp -inf. */
  function Portion(x: Exp2, lse: Ext, merged: real): real
    requires x.ln2 > 0.0
  {
    if lse.NegInf? then 0.0 else x.e(lse.x / x.ln2 - merged / x.ln2)
  }

  lemma PortionIsNum(x: Exp2, p: Partial, ts: seq<Term>, merged: real)
    requires Lawful(x) && Summarises(x, p, ts)
    ensures Mul(Portion(x, p.lse, merged), p.out) == Num(x, ts, merged / x.ln2)
  {
    if ts != [] { PieceWeight(x, p, ts, merged / x.ln2); }
  }

  /** Some key is left: a partition that is not empty under a measure that is not -inf.
      Without one the source's result is not a number. */
  predicate SomeLive(tss: seq<seq<Term>>, mus: seq<Ext>)
    requires |tss| == |mus|
  {
    exists s :: 0 <= s < |tss| && tss[s] != [] && mus[s].Fin?
  }

  lemma LiveIsNonEmpty(x: Exp2, tss: seq<seq<Term>>, mus: seq<Ext>)
    requires |tss| == |mus| && x.ln2 > 0.0
    ensures SomeLive(tss, mus) <==> Flatten(MeasuredAll(x, tss, mus)) != []
  {
    var uss := MeasuredAll(x, tss, mus);
    if s :| 0 <= s < |tss| && tss[s] != [] && mus[s].Fin? {
      NonEmptyFlatten(uss, s);
    } else {
      AllEmpty(uss);
    }
  }

  /** merge_lse_partitions for one row and one value coordinate: every partition's
      log-sum-exp is adjusted by its log measure, and outputs are weighted by their
      share of the total.  The result is the attention over the union of all keys,
      each with its partition's measure; a partition of log-sum-exp -inf or of measure
      -inf contributes nothing. */
  method MergePartitions(x: Exp2, ps: seq<Partial>, mus: seq<Ext>, ghost tss: seq<seq<Term>>) returns (p: Partial)
    requires Lawful(x) && |mus| == |ps| && AllSummarise(x, ps, tss) && SomeLive(tss, mus)
    ensures Summarises(x, p, Flatten(MeasuredAll(x, tss, mus)))
  {
    hide Weigh, Flatten, Summarises;
    ghost var uss := MeasuredAll(x, tss, mus);
    var adjusted: seq<Partial> := [];
    for s := 0 to |ps|
      invariant |adjusted| == s && forall i | 0 <= i < s :: Summarises(x, adjusted[i], uss[i])
    {
      Adjusted(x, ps[s], tss[s], mus[s]);
      adjusted := adjusted + [Partial(ps[s].out, ps[s].lse.Plus(mus[s]))];
    }
    LiveIsNonEmpty(x, tss, mus);
    var lse := LogSumExp(x, adjusted, uss);
    ghost var m := lse / x.ln2;
    var out := 0.0;
    NothingYet(x, uss, m);
    for s := 0 to |ps|
      invariant out == Num(x, Flatten(uss[..s]), m)
    {
      PortionIsNum(x, adjusted[s], uss[s], lse);
      FlattenMore(x, uss, s, m);
      out := out + Mul(Portion(x, adjusted[s].lse, lse), adjusted[s].out);
    }
    assert uss[..|ps|] == uss;
    p := Partial(out, Fin(lse));
    ShareSummarises(x, p, Flatten(uss), m);
  }

  lemma ShareSummarises(x: Exp2, p: Partial, ts: seq<Term>, m: real)
    requires Lawful(x) && ts != [] && p.lse.Fin? && m == p.lse.x / x.ln2 && x.e(m) == Den(x, ts, 0.0) > 0.0 && p.out == Num(x, ts, m)
    ensures Summarises(x, p, ts)
  {
    Reshift(x, ts, m, 0.0, Value);
    Same(x, m - 0.0, m);
    DivIs(Num(x, ts, 0.0), Den(x, ts, 0.0), p.out);
  }

  // ----- the merge in its inputs alone -----

  /** What a partition weighs in a merge: exp of its log-sum-exp plus its measure. */
  function Claim(x: Exp2, lse: Ext, mu: Ext): real
    requires x.ln2 > 0.0
  {
    if lse.NegInf? || mu.NegInf? then 0.0 else x.e((lse.x + mu.x) / x.ln2)
  }

  lemma ClaimIsWeight(x: Exp2, p: Partial, ts: seq<Term>, mu: Ext)
    requires Lawful(x) && Summarises(x, p, ts)
    ensures Den(x, MeasuredBy(x, ts, mu), 0.0) == Claim(x, p.lse, mu)
    ensures Num(x, MeasuredBy(x, ts, mu), 0.0) == Mul(Claim(x, p.lse, mu), p.out)
  {
    Adjusted(x, p, ts, mu);
    var us := MeasuredBy(x, ts, mu);
    if us != [] {
      PieceWeight(x, Partial(p.out, p.lse.Plus(mu)), us, 0.0);
      Same(x, p.lse.Plus(mu).x / x.ln2 - 0.0, (p.lse.x + mu.x) / x.ln2);
    } else {
      assert ts == [] || mu.NegInf?;
    }
  }

  lemma {:induction false} ClaimsAddUp(x: Exp2, ps: seq<Partial>, mus: seq<Ext>, tss: seq<seq<Term>>, mass: nat -> real, value: nat -> real, n: nat)
    requires Lawful(x) && |mus| == |ps| && AllSummarise(x, ps, tss) && n <= |ps| && mass(0) == value(0) == 0.0
    requires forall s: nat {:trigger ps[s]} | s < |ps| ::
               mass(s + 1) == mass(s) + Claim(x, ps[s].lse, mus[s]) && value(s + 1) == value(s) + Mul(Claim(x, ps[s].lse, mus[s]), ps[s].out)
    ensures var ts := Flatten(MeasuredAll(x, tss, mus)[..n]); Den(x, ts, 0.0) == mass(n) && Num(x, ts, 0.0) == value(n)
    decreases n
  {
    var uss := MeasuredAll(x, tss, mus);
    hide Weigh, Flatten, Summarises, Claim;
    if n > 0 {
      var s: nat := n - 1;
      ClaimsAddUp(x, ps, mus, tss, mass, value, s);
      ClaimIsWeight(x, ps[s], tss[s], mus[s]);
      FlattenMore(x, uss, s, 0.0);
      assert mass(s + 1) == mass(n) && value(s + 1) == value(n);
    } else {
      NothingYet(x, uss, 0.0);
      assert Den(x, [], 0.0) == 0.0 by { NothingWeighs(x); }
    }
  }

  lemma NothingWeighs(x: Exp2)
    ensures Den(x, [], 0.0) == Num(x, [], 0.0) == 0.0
  {
  }

  /** A merge is the mean of its outputs, weighted by exp of their log-sum-exps plus measures, and the
      exp of its log-sum-exp is the sum of these weights. */
  lemma MergeIsWeightedMean(x: Exp2, ps: seq<Partial>, mus: seq<Ext>, tss: seq<seq<Term>>, p: Partial, mass: nat -> real, value: nat -> real)
    requires Lawful(x) && |mus| == |ps| && AllSummarise(x, ps, tss) && Summarises(x, p, Flatten(MeasuredAll(x, tss, mus)))
    requires exists s :: 0 <= s < |ps| && ps[s].lse.Fin? && mus[s].Fin?
    requires mass(0) == value(0) == 0.0
    requires forall s: nat {:trigger ps[s]} | s < |ps| && (ps[s].lse.NegInf? || mus[s].NegInf?) :: mass(s + 1) == mass(s) && value(s + 1) == value(s)
    requires forall s: nat {:trigger ps[s]} | s < |ps| && ps[s].lse.Fin? && mus[s].Fin? ::
               && mass(s + 1) == mass(s) + x.e((ps[s].lse.x + mus[s].x) / x.ln2)
               && value(s + 1) == value(s) + Mul(x.e((ps[s].lse.x + mus[s].x) / x.ln2), ps[s].out)
    ensures mass(|ps|) > 0.0 && p.lse.Fin? && x.e(p.lse.x / x.ln2) == mass(|ps|) && p.out == value(|ps|) / mass(|ps|)
  {
    var uss := MeasuredAll(x, tss, mus);
    assert uss[..|ps|] == uss;
    hide Summarises, Flatten, Weigh, Measured, MeasuredBy;
    forall s: nat | s < |ps|
      ensures mass(s + 1) == mass(s) + Claim(x, ps[s].lse, mus[s]) && value(s + 1) == value(s) + Mul(Claim(x, ps[s].lse, mus[s]), ps[s].out)
    {
      ClaimStep(x, ps[s], mus[s]);
    }
    ClaimsAddUp(x, ps, mus, tss, mass, value, |ps|);
    var s: nat :| s < |ps| && ps[s].lse.Fin? && mus[s].Fin?;
    HasKeys(x, ps[s], tss[s], mus[s]);
    NonEmptyFlatten(uss, s);
    QuotientOf(x, p, Flatten(uss));
  }

  lemma ClaimStep(x: Exp2, p: Partial, mu: Ext)
    requires x.ln2 > 0.0
    ensures p.lse.Fin? && mu.Fin? ==> Claim(x, p.lse, mu) == x.e((p.lse.x + mu.x) / x.ln2)
    ensures p.lse.NegInf? || mu.NegInf? ==> Claim(x, p.lse, mu) == 0.0 && Mul(Claim(x, p.lse, mu), p.out) == 0.0
  {
  }

  lemma HasKeys(x: Exp2, p: Partial, ts: seq<Term>, mu: Ext)
    requires x.ln2 > 0.0 && Summarises(x, p, ts) && p.lse.Fin? && mu.Fin?
    ensures MeasuredBy(x, ts, mu) != []
  {
  }

  lemma QuotientOf(x: Exp2, p: Partial, ts: seq<Term>)
    requires x.ln2 > 0.0 && ts != [] && Summarises(x, p, ts)
    ensures p.lse.Fin? && Den(x, ts, 0.0) > 0.0 && x.e(p.lse.x / x.ln2) == Den(x, ts, 0.0) && p.out == Num(x, ts, 0.0) / Den(x, ts, 0.0)
  {
  }

  // ----- regrouping and reordering -----

  function FlattenEach(groups: seq<seq<seq<Term>>>): (tss: seq<seq<Term>>)
    ensures |tss| == |groups| && forall g | 0 <= g < |groups| :: tss[g] == Flatten(groups[g])
  {
    seq(|groups|, g requires 0 <= g < |groups| => Flatten(groups[g]))
  }

  /** Flattening group by group or all at once gives the same terms. */
  lemma {:induction false} FlattenGroups(groups: seq<seq<seq<Term>>>)
    ensures Flatten(FlattenEach(groups)) == Flatten(Flatten(groups))
    decreases |groups|
  {
    if groups != [] {
      var n := |groups| - 1;
      FlattenGroups(groups[..n]);
      assert FlattenEach(groups)[..n] == FlattenEach(groups[..n]);
      FlattenConcat(Flatten(groups[..n]), groups[n]);
    }
  }

  /** Partitions in another order hold the same terms in another order. */
  lemma {:induction false} FlattenPermuted(a: seq<seq<Term>>, b: seq<seq<Term>>)
    requires multiset(a) == multiset(b)
    ensures multiset(Flatten(a)) == multiset(Flatten(b))
    decreases |a|
  {
    if a == [] {
      assert |b| == |multiset(b)| == 0;
    } else {
      var init, ts := Init(a), Last(a);
      var i := TakeLast(a, b);
      var before, after := b[..i], b[i + 1..];
      assert a == init + [ts];
      FlattenPermuted(init, before + after);
      FlattenSnoc(init, ts);
      FlattenConcat(before + [ts], after);
      FlattenSnoc(before, ts);
      FlattenConcat(before, after);
    }
  }

  /** The same terms in another order are summarised alike. */
  lemma SummaryIsOrderFree(x: Exp2, p: Partial, q: Partial, a: seq<Term>, b: seq<Term>)
    requires Lawful(x) && a != [] && multiset(a) == multiset(b) && Summarises(x, p, a) && Summarises(x, q, b)
    ensures p == q
  {
    Permuted(x, a, b, 0.0, Mass);
    Permuted(x, a, b, 0.0, Value);
    assert |b| == |multiset(b)| == |multiset(a)| == |a|;
    EqualSums(x, p, a, b);
    SummaryIsUnique(x, p, q, b);
  }

  /** However measured partitions are put into groups, and in whatever order, the attention
      over the groups' unions is that over the union of all. */
  lemma RegroupingIsFree(x: Exp2, groups: seq<seq<seq<Term>>>, all: seq<seq<Term>>, grouped: Partial, whole: Partial)
    requires Lawful(x) && Flatten(all) != [] && multiset(Flatten(groups)) == multiset(all)
    requires Summarises(x, grouped, Flatten(FlattenEach(groups))) && Summarises(x, whole, Flatten(all))
    ensures grouped == whole
  {
    hide Flatten, Summarises;
    FlattenGroups(groups);
    FlattenPermuted(Flatten(groups), all);
    SummaryIsOrderFree(x, whole, grouped, Flatten(all), Flatten(FlattenEach(groups)));
  }

  /** A measure on top of a measure. */
  lemma {:induction false} MeasuredTwice(ts: seq<Term>, a: real, b: real)
    ensures Measured(Measured(ts, a), b) == Measured(ts, a + b)
    decreases |ts|
  {
    if ts != [] {
      var init := Init(ts);
      MeasuredTwice(init, a, b);
      assert Measured(ts, a) == Measured(init, a) + [Term(Last(ts).score + a, Last(ts).mass, Last(ts).value)];
      assert Init(Measured(ts, a)) == Measured(init, a);
    }
  }

  lemma {:induction false} MeasuredConcat(a: seq<Term>, b: seq<Term>, c: real)
    ensures Measured(a + b, c) == Measured(a, c) + Measured(b, c)
    decreases |b|
  {
    if b == [] {
      assert a + b == a;
    } else {
      assert (a + b)[..|a + b| - 1] == a + b[..|b| - 1];
      MeasuredConcat(a, b[..|b| - 1], c);
    }
  }

  /** The measures of a group's partitions once the group itself is measured. */
  function Raised(mus: seq<Ext>, mu: Ext): (nus: seq<Ext>)
    ensures |nus| == |mus| && forall s | 0 <= s < |mus| :: nus[s] == mus[s].Plus(mu)
  {
    seq(|mus|, s requires 0 <= s < |mus| => mus[s].Plus(mu))
  }

  lemma DivSum(a: real, b: real, c: real)
    requires c > 0.0
    ensures a / c + b / c == (a + b) / c
  {
    Distrib(c, a / c, b / c);
    assert Mul(a / c, c) == a && Mul(b / c, c) == b;
    DivIs(a + b, c, a / c + b / c);
  }

  lemma MeasuredByTwice(x: Exp2, ts: seq<Term>, a: Ext, b: Ext)
    requires x.ln2 > 0.0
    ensures MeasuredBy(x, MeasuredBy(x, ts, a), b) == MeasuredBy(x, ts, a.Plus(b))
  {
    if a.Fin? && b.Fin? {
      MeasuredTwice(ts, a.x / x.ln2, b.x / x.ln2);
      DivSum(a.x, b.x, x.ln2);
    }
  }

  /** Measuring a merged group measures every partition in it. */
  lemma {:induction false} MeasuredGroup(x: Exp2, tss: seq<seq<Term>>, mus: seq<Ext>, mu: Ext)
    requires |tss| == |mus| && x.ln2 > 0.0
    ensures MeasuredBy(x, Flatten(MeasuredAll(x, tss, mus)), mu) == Flatten(MeasuredAll(x, tss, Raised(mus, mu)))
    decreases |tss|
  {
    if tss != [] {
      var n := |tss| - 1;
      var us, vs := MeasuredAll(x, tss, mus), MeasuredAll(x, tss, Raised(mus, mu));
      assert us[..n] == MeasuredAll(x, tss[..n], mus[..n]);
      assert vs[..n] == MeasuredAll(x, tss[..n], Raised(mus[..n], mu));
      MeasuredGroup(x, tss[..n], mus[..n], mu);
      MeasuredByTwice(x, tss[n], mus[n], mu);
      if mu.Fin? { MeasuredConcat(Flatten(us[..n]), us[n], mu.x / x.ln2); }
    }
  }

  /** Groups of partitions with their measures; each group has a key left to merge. */
  ghost predicate Grouped(x: Exp2, groups: seq<seq<Partial>>, inner: seq<seq<Ext>>, tsss: seq<seq<seq<Term>>>)
    requires x.ln2 > 0.0
  {
    |groups| == |inner| == |tsss| && forall g | 0 <= g < |tsss| ::
      |inner[g]| == |tsss[g]| && AllSummarise(x, groups[g], tsss[g]) && SomeLive(tsss[g], inner[g])
  }

  predicate SameShape(tsss: seq<seq<seq<Term>>>, inner: seq<seq<Ext>>, outer: seq<Ext>) {
    |tsss| == |inner| == |outer| && forall g | 0 <= g < |tsss| :: |inner[g]| == |tsss[g]|
  }

  /** Every partition under its own and its group's measure, group by group. */
  function MeasuredGroups(x: Exp2, tsss: seq<seq<seq<Term>>>, inner: seq<seq<Ext>>, outer: seq<Ext>): (usss: seq<seq<seq<Term>>>)
    requires x.ln2 > 0.0 && SameShape(tsss, inner, outer)
    ensures |usss| == |tsss| && forall g | 0 <= g < |usss| :: usss[g] == MeasuredAll(x, tsss[g], Raised(inner[g], outer[g]))
  {
    seq(|tsss|, g requires 0 <= g < |tsss| => MeasuredAll(x, tsss[g], Raised(inner[g], outer[g])))
  }

  /** A merge of merges: each group by itself, then the groups under measures of their own. */
  method MergeByGroups(x: Exp2, groups: seq<seq<Partial>>, inner: seq<seq<Ext>>, outer: seq<Ext>, ghost tsss: seq<seq<seq<Term>>>) returns (p: Partial)
    requires Lawful(x) && Grouped(x, groups, inner, tsss) && |outer| == |groups| && exists g :: 0 <= g < |outer| && outer[g].Fin?
    ensures Summarises(x, p, Flatten(FlattenEach(MeasuredGroups(x, tsss, inner, outer))))
  {
    hide Summarises, Flatten;
    var merged: seq<Partial> := [];
    ghost var unions: seq<seq<Term>> := [];
    for g := 0 to |groups|
      invariant |merged| == |unions| == g
      invariant forall i | 0 <= i < g :: Summarises(x, merged[i], unions[i]) && unions[i] == Flatten(MeasuredAll(x, tsss[i], inner[i])) != []
    {
      var one := MergePartitions(x, groups[g], inner[g], tsss[g]);
      LiveIsNonEmpty(x, tsss[g], inner[g]);
      merged := merged + [one];
      unions := unions + [Flatten(MeasuredAll(x, tsss[g], inner[g]))];
    }
    p := MergePartitions(x, merged, outer, unions);
    forall g | 0 <= g < |groups|
      ensures MeasuredAll(x, unions, outer)[g] == FlattenEach(MeasuredGroups(x, tsss, inner, outer))[g]
    {
      MeasuredGroup(x, tsss[g], inner[g], outer[g]);
    }
    assert MeasuredAll(x, unions, outer) == FlattenEach(MeasuredGroups(x, tsss, inner, outer));
  }

  /** Merging group by group and merging all at once return the same output and log-sum-exp,
      for any number of groups, any measures on partitions and on groups, and any order in
      which the one merge and the other take the measured partitions. */
  method MergeBothWays(x: Exp2, groups: seq<seq<Partial>>, inner: seq<seq<Ext>>, outer: seq<Ext>, ghost tsss: seq<seq<seq<Term>>>,
                       ps: seq<Partial>, mus: seq<Ext>, ghost tss: seq<seq<Term>>) returns (grouped: Partial, whole: Partial)
    requires Lawful(x) && Grouped(x, groups, inner, tsss) && |outer| == |groups| && exists g :: 0 <= g < |outer| && outer[g].Fin?
    requires |mus| == |ps| && AllSummarise(x, ps, tss) && SomeLive(tss, mus)
    requires multiset(Flatten(MeasuredGroups(x, tsss, inner, outer))) == multiset(MeasuredAll(x, tss, mus))
    ensures grouped == whole && Summarises(x, whole, Flatten(MeasuredAll(x, tss, mus)))
  {
    hide Summarises, Flatten;
    grouped := MergeByGroups(x, groups, inner, outer, tsss);
    whole := MergePartitions(x, ps, mus, tss);
    LiveIsNonEmpty(x, tss, mus);
    RegroupingIsFree(x, MeasuredGroups(x, tsss, inner, outer), MeasuredAll(x, tss, mus), grouped, whole);
  }

  // ----- partitioned attention -----

  /** One partition's keys with the route its own rule gives it. */
  function PartitionTerms(parts: seq<(Tile, Rule)>, r: nat): (tss: seq<seq<Term>>)
    requires forall i | 0 <= i < |parts| :: parts[i].0.Ok()
    ensures |tss| == |parts| && forall i | 0 <= i < |tss| :: tss[i] == parts[i].0.AllTerms(RouteOf(parts[i].0, parts[i].1), r)
  {
    seq(|parts|, i requires 0 <= i < |parts| => parts[i].0.AllTerms(RouteOf(parts[i].0, parts[i].1), r))
  }

  /** partitioned_sm120_attention for one row: the kernel on every key partition, then
      the merge. */
  method PartitionedRow(x: Exp2, parts: seq<(Tile, Rule)>, mus: seq<Ext>, r: nat, orders: seq<nat -> seq<seq<nat>>>) returns (p: Partial)
    requires Lawful(x) && |orders| == |mus| == |parts| && exists i :: 0 <= i < |mus| && mus[i].Fin?
    requires forall i | 0 <= i < |parts| :: parts[i].0.Ok() && r < parts[i].0.qLen && GroupOrders(orders[i])
    ensures Summarises(x, p, Flatten(MeasuredAll(x, PartitionTerms(parts, r), mus)))
  {
    ghost var tss := PartitionTerms(parts, r);
    var ps: seq<Partial> := [];
    for i := 0 to |parts|
      invariant |ps| == i && forall j | 0 <= j < i :: Summarises(x, ps[j], tss[j]) && tss[j] != []
    {
      var out, lse := ForwardRow(x, parts[i].0, parts[i].1, r, orders[i]);
      ForwardSummarises(x, parts[i].0, RouteOf(parts[i].0, parts[i].1), r, Partial(out, lse));
      ps := ps + [Partial(out, lse)];
    }
    p := MergePartitions(x, ps, mus, tss);
  }

  lemma ForwardSummarises(x: Exp2, t: Tile, route: Route, r: nat, p: Partial)
    requires Lawful(x) && t.Ok() && p.out == Reference(x, t, route, r)
    requires p.lse.Fin? && x.e(p.lse.x / x.ln2) == Den(x, t.AllTerms(route, r), 0.0)
    ensures t.AllTerms(route, r) != [] && Summarises(x, p, t.AllTerms(route, r))
  {
    TermsExist(t, route, r);
    RowRatio(x, t, route, r, 0.0);
  }
}
