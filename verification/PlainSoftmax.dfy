/**
 The mixed operator and its routing rule written out as running sums over keys, blocks and
 query rows, without the term lists of module `MixedOperator`: what the weights are, what a
 key measure does to them, and when a block is exact.

 Running sums are given by their first value and their step, as functions of how many keys,
 blocks or rows have been added.
*/
module PlainSoftmax {
  import opened Basics
  import opened Exponential
  import opened MixedOperator
  import opened Routing
  import opened SplitMerge
  import ForwardSm120

  // ----- the operator -----

  function KeyShare(t: Tile, u: nat, part: Part): real { if part.Mass? then 1.0 else t.v(u) }

  /** What key u adds to one part of the exact keys. */
  function KeyStep(x: Exp2, t: Tile, route: Route, r: nat, u: nat, part: Part): real {
    if route(u / 64) then Mul(x.e(t.KeyScore(r, u)), KeyShare(t, u, part)) else 0.0
  }

  ghost predicate AddsKeys(x: Exp2, t: Tile, route: Route, r: nat, acc: nat -> real, part: Part) {
    acc(0) == 0.0 && forall u: nat {:trigger KeyStep(x, t, route, r, u, part)} | u < t.tokens :: acc(u + 1) == acc(u) + KeyStep(x, t, route, r, u, part)
  }

  lemma AtKey(x: Exp2, t: Tile, route: Route, r: nat, acc: nat -> real, part: Part, j: nat, c: nat)
    requires AddsKeys(x, t, route, r, acc, part) && c < t.Length(j)
    ensures acc(64 * j + c + 1) == acc(64 * j + c) +
              if route(j) then Mul(x.e(t.KeyScore(r, 64 * j + c)), KeyShare(t, 64 * j + c, part)) else 0.0
  {
    hide Mul, KeyShare, Tile.KeyScore;
    assert (64 * j + c) / 64 == j;
    assert acc(64 * j + c + 1) == acc(64 * j + c) + KeyStep(x, t, route, r, 64 * j + c, part);
  }

  /** One part of the first c keys of a block. */
  function UpTo(x: Exp2, t: Tile, r: nat, j: nat, c: nat, part: Part): real
    requires c <= t.Length(j)
  {
    Weigh(x, t.BlockKeys(r, j)[..c], 0.0, part)
  }

  lemma NextKey(x: Exp2, t: Tile, r: nat, part: Part, j: nat, c: nat)
    requires c < t.Length(j)
    ensures UpTo(x, t, r, j, c + 1, part)
         == UpTo(x, t, r, j, c, part) + Mul(x.e(t.KeyScore(r, 64 * j + c)), KeyShare(t, 64 * j + c, part))
  {
    hide Mul, Weigh, Tile.KeyScore;
    var ts, k := t.BlockKeys(r, j), t.KeyTerm(r, 64 * j + c);
    assert ts[..c + 1] == ts[..c] + [k];
    WeighSnoc(x, ts[..c], k, 0.0, part);
    Same(x, k.score - 0.0, k.score);
  }

  lemma {:induction false} KeysOfBlock(x: Exp2, t: Tile, route: Route, r: nat, acc: nat -> real, part: Part, j: nat, c: nat)
    requires AddsKeys(x, t, route, r, acc, part) && 64 * j < t.tokens && c <= t.Length(j)
    ensures acc(64 * j + c) == acc(64 * j) + if route(j) then UpTo(x, t, r, j, c, part) else 0.0
    decreases c
  {
    if c > 0 {
      hide Mul, UpTo, KeyShare, Tile.KeyScore, Tile.Length, AddsKeys;
      KeysOfBlock(x, t, route, r, acc, part, j, c - 1);
      AtKey(x, t, route, r, acc, part, j, c - 1);
      assert 64 * j + (c - 1) + 1 == 64 * j + c;
      NextKey(x, t, r, part, j, c - 1);
    }
  }

  lemma CoveredStep(t: Tile, n: nat)
    requires 0 < n <= t.Blocks()
    ensures 64 * (n - 1) < t.tokens && n - 1 <= t.Blocks()
    ensures t.Covered(n - 1) == 64 * (n - 1) && t.Covered(n) == 64 * (n - 1) + t.Length(n - 1)
  {
  }

  lemma {:induction false} KeysOfBlocks(x: Exp2, t: Tile, route: Route, r: nat, acc: nat -> real, part: Part, n: nat)
    requires AddsKeys(x, t, route, r, acc, part) && n <= t.Blocks()
    ensures acc(t.Covered(n)) == Weigh(x, t.ExactTerms(route, r, 0, n), 0.0, part)
    decreases n
  {
    if n > 0 {
      CoveredStep(t, n);
      hide Weigh, AddsKeys, Tile.Covered, Tile.Length, Tile.Blocks;
      KeysOfBlocks(x, t, route, r, acc, part, n - 1);
      KeysOfBlock(x, t, route, r, acc, part, n - 1, t.Length(n - 1));
      var ts := t.BlockKeys(r, n - 1);
      assert ts[..t.Length(n - 1)] == ts;
      Concat(x, t.ExactTerms(route, r, 0, n - 1), ts, 0.0, part);
    } else {
      assert acc(0) == 0.0 && t.Covered(0) == 0;
    }
  }

  /** What block j adds to one part of the approximate blocks. */
  function BlockStep(x: Exp2, t: Tile, route: Route, r: nat, j: nat, part: Part): real {
    if route(j) then 0.0 else Mul(x.e(Mul(t.scale, t.qkc(r, j))), if part.Mass? then t.Length(j) as real else t.vc(j))
  }

  ghost predicate AddsBlocks(x: Exp2, t: Tile, route: Route, r: nat, acc: nat -> real, part: Part) {
    acc(0) == 0.0 && forall j: nat {:trigger BlockStep(x, t, route, r, j, part)} | 64 * j < t.tokens :: acc(j + 1) == acc(j) + BlockStep(x, t, route, r, j, part)
  }

  lemma NextBlock(x: Exp2, t: Tile, route: Route, r: nat, part: Part, j: nat)
    ensures Weigh(x, t.ApproxTerms(route, r, 0, j + 1), 0.0, part)
         == Weigh(x, t.ApproxTerms(route, r, 0, j), 0.0, part) + BlockStep(x, t, route, r, j, part)
  {
    hide Mul, Weigh;
    if !route(j) {
      WeighSnoc(x, t.ApproxTerms(route, r, 0, j), t.BlockTerm(r, j), 0.0, part);
      Same(x, t.BlockTerm(r, j).score - 0.0, Mul(t.scale, t.qkc(r, j)));
    }
  }

  lemma {:induction false} SumOfBlocks(x: Exp2, t: Tile, route: Route, r: nat, acc: nat -> real, part: Part, n: nat)
    requires AddsBlocks(x, t, route, r, acc, part) && n <= t.Blocks()
    ensures acc(n) == Weigh(x, t.ApproxTerms(route, r, 0, n), 0.0, part)
    decreases n
  {
    if n > 0 {
      hide BlockStep, Tile.ApproxTerms, Weigh;
      SumOfBlocks(x, t, route, r, acc, part, n - 1);
      assert 64 * (n - 1) < t.tokens && acc(n - 1 + 1) == acc(n - 1) + BlockStep(x, t, route, r, n - 1, part);
      NextBlock(x, t, route, r, part, n - 1);
    }
  }

  lemma PartOfAll(x: Exp2, t: Tile, route: Route, r: nat, keys: nat -> real, blocks: nat -> real, part: Part)
    requires AddsKeys(x, t, route, r, keys, part) && AddsBlocks(x, t, route, r, blocks, part)
    ensures Weigh(x, t.AllTerms(route, r), 0.0, part) == keys(t.tokens) + blocks((t.tokens + 63) / 64)
  {
    hide Weigh, AddsKeys, AddsBlocks;
    KeysOfBlocks(x, t, route, r, keys, part, t.Blocks());
    SumOfBlocks(x, t, route, r, blocks, part, t.Blocks());
    assert t.Covered(t.Blocks()) == t.tokens;
    Concat(x, t.ExactTerms(route, r, 0, t.Blocks()), t.ApproxTerms(route, r, 0, t.Blocks()), 0.0, part);
  }

  lemma KeyStepIs(x: Exp2, t: Tile, route: Route, r: nat, u: nat)
    ensures KeyStep(x, t, route, r, u, Mass) ==
      if route(u / 64) then x.e(Mul(t.scale, t.qk(r, u)) + (if t.biased then Mul(t.log2e, t.bias(u)) else 0.0)) else 0.0
    ensures KeyStep(x, t, route, r, u, Value) ==
      if route(u / 64) then Mul(x.e(Mul(t.scale, t.qk(r, u)) + (if t.biased then Mul(t.log2e, t.bias(u)) else 0.0)), t.v(u)) else 0.0
  {
    assert t.KeyScore(r, u) == Mul(t.scale, t.qk(r, u)) + (if t.biased then Mul(t.log2e, t.bias(u)) else 0.0);
    hide Mul;
  }

  lemma BlockStepIs(x: Exp2, t: Tile, route: Route, r: nat, j: nat)
    requires 64 * j < t.tokens
    ensures BlockStep(x, t, route, r, j, Mass) ==
      if route(j) then 0.0
      else Mul(x.e(Mul(t.scale, t.qkc(r, j))), (if t.tokens - 64 * j < 64 then t.tokens - 64 * j else 64) as real)
    ensures BlockStep(x, t, route, r, j, Value) == if route(j) then 0.0 else Mul(x.e(Mul(t.scale, t.qkc(r, j))), t.vc(j))
  {
    hide Mul;
    assert t.Length(j) == if t.tokens - 64 * j < 64 then t.tokens - 64 * j else 64;
  }

  /** The two-pass reference: every key of an exact block weighs exp2 of its scaled score plus
      its measure in log2 units, every approximate block exp2 of its scaled summary score once
      for each of its keys; values are weighted alike.  The same sums decide the log-sum-exp. */
  lemma ReferenceIsSoftmax(x: Exp2, t: Tile, route: Route, r: nat,
                           keyMass: nat -> real, keyValue: nat -> real, blockMass: nat -> real, blockValue: nat -> real)
    requires Lawful(x) && t.Ok()
    requires keyMass(0) == keyValue(0) == blockMass(0) == blockValue(0) == 0.0
    requires forall u: nat {:trigger t.qk(r, u)} | u < t.tokens :: keyMass(u + 1) == keyMass(u) +
               if route(u / 64) then x.e(Mul(t.scale, t.qk(r, u)) + (if t.biased then Mul(t.log2e, t.bias(u)) else 0.0)) else 0.0
    requires forall u: nat {:trigger t.qk(r, u)} | u < t.tokens :: keyValue(u + 1) == keyValue(u) +
               if route(u / 64) then Mul(x.e(Mul(t.scale, t.qk(r, u)) + (if t.biased then Mul(t.log2e, t.bias(u)) else 0.0)), t.v(u)) else 0.0
    requires forall j: nat {:trigger t.qkc(r, j)} | 64 * j < t.tokens :: blockMass(j + 1) == blockMass(j) +
               if route(j) then 0.0
               else Mul(x.e(Mul(t.scale, t.qkc(r, j))), (if t.tokens - 64 * j < 64 then t.tokens - 64 * j else 64) as real)
    requires forall j: nat {:trigger t.qkc(r, j)} | 64 * j < t.tokens :: blockValue(j + 1) == blockValue(j) +
               if route(j) then 0.0 else Mul(x.e(Mul(t.scale, t.qkc(r, j))), t.vc(j))
    ensures var mass := keyMass(t.tokens) + blockMass((t.tokens + 63) / 64);
            var value := keyValue(t.tokens) + blockValue((t.tokens + 63) / 64);
            && mass > 0.0 && Reference(x, t, route, r) == value / mass
            && Den(x, t.AllTerms(route, r), 0.0) == mass && Num(x, t.AllTerms(route, r), 0.0) == value
  {
    forall u: nat | u < t.tokens
      ensures keyMass(u + 1) == keyMass(u) + KeyStep(x, t, route, r, u, Mass)
      ensures keyValue(u + 1) == keyValue(u) + KeyStep(x, t, route, r, u, Value)
    {
      var score := t.qk(r, u);
      KeyStepIs(x, t, route, r, u);
    }
    forall j: nat | 64 * j < t.tokens
      ensures blockMass(j + 1) == blockMass(j) + BlockStep(x, t, route, r, j, Mass)
      ensures blockValue(j + 1) == blockValue(j) + BlockStep(x, t, route, r, j, Value)
    {
      var score := t.qkc(r, j);
      BlockStepIs(x, t, route, r, j);
    }
    hide KeyStep, BlockStep, Weigh, Reference;
    SumsMakeReference(x, t, route, r, keyMass, keyValue, blockMass, blockValue);
  }

  lemma SumsMakeReference(x: Exp2, t: Tile, route: Route, r: nat,
                          keyMass: nat -> real, keyValue: nat -> real, blockMass: nat -> real, blockValue: nat -> real)
    requires Lawful(x) && t.Ok()
    requires AddsKeys(x, t, route, r, keyMass, Mass) && AddsKeys(x, t, route, r, keyValue, Value)
    requires AddsBlocks(x, t, route, r, blockMass, Mass) && AddsBlocks(x, t, route, r, blockValue, Value)
    ensures var mass := keyMass(t.tokens) + blockMass((t.tokens + 63) / 64);
            var value := keyValue(t.tokens) + blockValue((t.tokens + 63) / 64);
            && mass > 0.0 && Reference(x, t, route, r) == value / mass
            && Den(x, t.AllTerms(route, r), 0.0) == mass && Num(x, t.AllTerms(route, r), 0.0) == value
  {
    hide Reference, Weigh, AddsKeys, AddsBlocks;
    PartOfAll(x, t, route, r, keyMass, blockMass, Mass);
    PartOfAll(x, t, route, r, keyValue, blockValue, Value);
    ForwardSm120.RowRatio(x, t, route, r, 0.0);
  }

  // ----- key measures -----

  /** The tile with the given key measures, and without any. */
  function Weighted(t: Tile, bias: nat -> real): Tile { t.(biased := true, bias := bias) }
  function Unweighted(t: Tile): Tile { t.(biased := false) }

  /** A key's measure multiplies its weight by the measure's exponential, and no other key's. */
  lemma MeasureMultiplies(x: Exp2, t: Tile, bias: nat -> real, r: nat, u: nat, m: real, part: Part)
    requires Lawful(x)
    ensures Weigh(x, [t.(biased := true, bias := bias).KeyTerm(r, u)], m, part)
         == Mul(x.e(Mul(t.log2e, bias(u))), Weigh(x, [t.(biased := false).KeyTerm(r, u)], m, part))
  {
    var a, b := Weighted(t, bias).KeyTerm(r, u), Unweighted(t).KeyTerm(r, u);
    WeighSnoc(x, [], a, m, part);
    WeighSnoc(x, [], b, m, part);
    assert [] + [a] == [a] && [] + [b] == [b];
    Sum(x, Mul(t.log2e, bias(u)), b.score - m);
    Same(x, Mul(t.log2e, bias(u)) + (b.score - m), a.score - m);
    Assoc(x.e(Mul(t.log2e, bias(u))), x.e(b.score - m), Share(b, part));
  }

  /** One measure on all keys is that log measure on the list of keys. */
  lemma {:induction false} UniformMeasure(x: Exp2, t: Tile, bias: nat -> real, mu: real, route: Route, r: nat, n: nat)
    requires x.ln2 > 0.0 && t.log2e * x.ln2 == 1.0 && forall u: nat :: bias(u) == mu
    ensures t.(biased := true, bias := bias).ExactTerms(route, r, 0, n) == Measured(t.(biased := false).ExactTerms(route, r, 0, n), mu / x.ln2)
    ensures t.(biased := true, bias := bias).ApproxTerms(route, r, 0, n) == t.(biased := false).ApproxTerms(route, r, 0, n)
    decreases n
  {
    if n > 0 {
      var a, b := Weighted(t, bias), Unweighted(t);
      UniformMeasure(x, t, bias, mu, route, r, n - 1);
      UniformBlock(x, t, bias, mu, r, n - 1);
      MeasuredConcat(b.ExactTerms(route, r, 0, n - 1), b.BlockKeys(r, n - 1), mu / x.ln2);
    }
  }

  lemma UniformBlock(x: Exp2, t: Tile, bias: nat -> real, mu: real, r: nat, j: nat)
    requires x.ln2 > 0.0 && t.log2e * x.ln2 == 1.0 && forall u: nat :: bias(u) == mu
    ensures Weighted(t, bias).BlockKeys(r, j) == Measured(Unweighted(t).BlockKeys(r, j), mu / x.ln2)
  {
    var as_, bs := Weighted(t, bias).BlockKeys(r, j), Unweighted(t).BlockKeys(r, j);
    assert t.log2e * mu == mu / x.ln2 by { assert t.log2e == 1.0 / x.ln2; }
    assert Weighted(t, bias).Length(j) == Unweighted(t).Length(j);
    forall c: nat | c < |bs| ensures as_[c] == Term(bs[c].score + mu / x.ln2, bs[c].mass, bs[c].value) {
      assert as_[c] == Weighted(t, bias).KeyTerm(r, j * 64 + c) && bs[c] == Unweighted(t).KeyTerm(r, j * 64 + c);
      assert bias(j * 64 + c) == mu;
    }
    IsMeasured(bs, mu / x.ln2, as_);
  }

  lemma {:induction false} IsMeasured(ts: seq<Term>, c: real, us: seq<Term>)
    requires |us| == |ts| && forall i: nat | i < |ts| :: us[i] == Term(ts[i].score + c, ts[i].mass, ts[i].value)
    ensures us == Measured(ts, c)
    decreases |ts|
  {
    if ts != [] { IsMeasured(Init(ts), c, Init(us)); }
  }

  /** So with every block exact, one measure on all keys leaves the output as it is and adds to
      the log-sum-exp. */
  lemma UniformMeasureShifts(x: Exp2, t: Tile, bias: nat -> real, mu: real, route: Route, r: nat, p: Partial)
    requires Lawful(x) && t.Ok() && t.log2e * x.ln2 == 1.0 && (forall u: nat :: bias(u) == mu) && forall j: nat | 64 * j < t.tokens :: route(j)
    requires Summarises(x, p, t.(biased := false).AllTerms(route, r))
    ensures p.lse.Fin? && Summarises(x, Partial(p.out, Fin(p.lse.x + mu)), t.(biased := true, bias := bias).AllTerms(route, r))
    ensures p.out == Reference(x, t.(biased := false), route, r) == Reference(x, t.(biased := true, bias := bias), route, r)
  {
    hide Summarises, Tile.ExactTerms, Tile.ApproxTerms;
    var a, b := Weighted(t, bias), Unweighted(t);
    UniformMeasure(x, t, bias, mu, route, r, t.Blocks());
    ForwardSm120.NoneApprox(b, route, r, 0, t.Blocks());
    TermsExist(b, route, r);
    NonEmptySummary(x, p, b.AllTerms(route, r));
    assert b.AllTerms(route, r) == b.ExactTerms(route, r, 0, t.Blocks());
    AdjustedSummary(x, p, b.AllTerms(route, r), mu);
    assert a.ApproxTerms(route, r, 0, t.Blocks()) == [] && a.Blocks() == b.Blocks() == t.Blocks();
    assert a.AllTerms(route, r) == Measured(b.AllTerms(route, r), mu / x.ln2);
    SummaryIsReference(x, b, route, r, p);
    SummaryIsReference(x, a, route, r, Partial(p.out, Fin(p.lse.x + mu)));
  }

  lemma SummaryIsReference(x: Exp2, t: Tile, route: Route, r: nat, p: Partial)
    requires Lawful(x) && t.Ok() && Summarises(x, p, t.AllTerms(route, r))
    ensures p.out == Reference(x, t, route, r)
  {
    TermsExist(t, route, r);
    ForwardSm120.RowRatio(x, t, route, r, 0.0);
  }

  lemma NonEmptySummary(x: Exp2, p: Partial, ts: seq<Term>)
    requires x.ln2 > 0.0 && ts != [] && Summarises(x, p, ts)
    ensures p.lse.Fin?
  {
  }

  // ----- the routing rule -----

  lemma {:induction false} SumOfColumn(t: Tile, j: nat, sum: nat -> real, n: nat)
    requires n <= t.qLen && sum(0) == 0.0 && forall i: nat {:trigger t.qkc(i, j)} | i < t.qLen :: sum(i + 1) == sum(i) + t.qkc(i, j)
    ensures sum(n) == ColumnSum(t, j, 0, n)
    decreases n
  {
    if n > 0 {
      SumOfColumn(t, j, sum, n - 1);
      var last := t.qkc(n - 1, j);
      assert sum(n - 1 + 1) == sum(n - 1) + last;
    }
  }

  lemma RuleIs(t: Tile, rule: Rule, j: nat)
    requires t.Ok()
    ensures RouteOf(t, rule)(j) <==>
              || Mul(ColumnSum(t, j, 0, t.qLen), t.scale) / (t.qLen as real) > rule.threshold
              || rule.qBlock - 1 <= j <= rule.qBlock + 1
              || rule.sink.0 <= j < rule.sink.1
              || rule.mapped.0 <= j < rule.mapped.1
  {
    hide ColumnSum, Mul;
  }

  /** A block is exact if the mean of its scaled summary scores over the tile's rows exceeds the
      threshold, if it is the tile's own or next to it, or if it lies in one of the two intervals. */
  lemma RouteIsRule(t: Tile, rule: Rule, j: nat, sum: nat -> real)
    requires t.Ok() && sum(0) == 0.0 && forall i: nat {:trigger t.qkc(i, j)} | i < t.qLen :: sum(i + 1) == sum(i) + t.qkc(i, j)
    ensures RouteOf(t, rule)(j) <==>
              || Mul(sum(t.qLen), t.scale) / (t.qLen as real) > rule.threshold
              || rule.qBlock - 1 <= j <= rule.qBlock + 1
              || rule.sink.0 <= j < rule.sink.1
              || rule.mapped.0 <= j < rule.mapped.1
  {
    SumOfColumn(t, j, sum, t.qLen);
    RuleIs(t, rule, j);
    hide ColumnSum, Mul, RouteOf, Exact, Mean;
  }
}
