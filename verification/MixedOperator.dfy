/**
 What the sparse-attention kernels are meant to compute for one query row: the
 mixed exact/approximate softmax of the two-pass reference, as a ratio of sums
 over terms.
*/
module MixedOperator {
  import opened Basics
  import opened Exponential

  /** One summand: its score in log2 units, how many keys it stands for, and its
      contribution to the numerator (the value row, or the sum of a block's rows). */
  datatype Term = Term(score: real, mass: nat, value: real)

  /** The two sums a softmax needs: of masses and of values. */
  datatype Part = Mass | Value

  function Share(k: Term, part: Part): real { if part.Mass? then k.mass as real else k.value }

  /** Exponentially weighted sum relative to the shift m. */
  function Weigh(x: Exp2, ts: seq<Term>, m: real, part: Part): real {
    if ts == [] then 0.0
    else Weigh(x, ts[..|ts| - 1], m, part) + Mul(x.e(ts[|ts| - 1].score - m), Share(ts[|ts| - 1], part))
  }

  function Den(x: Exp2, ts: seq<Term>, m: real): real { Weigh(x, ts, m, Mass) }
  function Num(x: Exp2, ts: seq<Term>, m: real): real { Weigh(x, ts, m, Value) }

  lemma WeighSnoc(x: Exp2, ts: seq<Term>, k: Term, m: real, part: Part)
    ensures Weigh(x, ts + [k], m, part) == Weigh(x, ts, m, part) + Mul(x.e(k.score - m), Share(k, part))
  {
    assert (ts + [k])[..|ts|] == ts;
  }

  lemma {:induction false} Concat(x: Exp2, a: seq<Term>, b: seq<Term>, m: real, part: Part)
    ensures Weigh(x, a + b, m, part) == Weigh(x, a, m, part) + Weigh(x, b, m, part)
    decreases |b|
  {
    if b == [] {
      assert a + b == a;
    } else {
      var k := b[|b| - 1];
      assert a + b == (a + b[..|b| - 1]) + [k] && b == b[..|b| - 1] + [k];
      Concat(x, a, b[..|b| - 1], m, part);
      WeighSnoc(x, a + b[..|b| - 1], k, m, part);
      WeighSnoc(x, b[..|b| - 1], k, m, part);
    }
  }

  /** The order of the terms does not matter. */
  lemma {:induction false} Permuted(x: Exp2, a: seq<Term>, b: seq<Term>, m: real, part: Part)
    requires multiset(a) == multiset(b)
    ensures Weigh(x, a, m, part) == Weigh(x, b, m, part)
    decreases |a|
  {
    if a == [] {
      assert |b| == |multiset(b)| == 0;
    } else {
      hide Weigh;
      var init, k := Init(a), Last(a);
      var i := TakeLast(a, b);
      var before, after := b[..i], b[i + 1..];
      assert a == init + [k];
      Permuted(x, init, before + after, m, part);
      WeighSnoc(x, init, k, m, part);
      Concat(x, before + [k], after, m, part);
      WeighSnoc(x, before, k, m, part);
      Concat(x, before, after, m, part);
    }
  }

  /** Changing the shift multiplies every sum by the same factor. */
  lemma {:induction false} Reshift(x: Exp2, ts: seq<Term>, m: real, m': real, part: Part)
    requires Lawful(x)
    ensures Weigh(x, ts, m', part) == Mul(Weigh(x, ts, m, part), x.e(m - m'))
    decreases |ts|
  {
    if ts != [] {
      var k := ts[|ts| - 1];
      Reshift(x, ts[..|ts| - 1], m, m', part);
      Sum(x, k.score - m, m - m');
      Same(x, k.score - m + (m - m'), k.score - m');
      Distrib(x.e(m - m'), Weigh(x, ts[..|ts| - 1], m, part), Mul(x.e(k.score - m), Share(k, part)));
      Assoc(x.e(k.score - m), Share(k, part), x.e(m - m'));
    }
  }

  predicate Massive(ts: seq<Term>) { forall t | t in ts :: t.mass > 0 }

  lemma {:induction false} DenPositive(x: Exp2, ts: seq<Term>, m: real)
    requires Lawful(x) && Massive(ts)
    ensures Den(x, ts, m) >= 0.0
    ensures ts != [] ==> Den(x, ts, m) > 0.0
    decreases |ts|
  {
    if ts != [] {
      DenPositive(x, ts[..|ts| - 1], m);
      Pos(x, ts[|ts| - 1].score - m);
      MulPos(x.e(ts[|ts| - 1].score - m), ts[|ts| - 1].mass as real);
    }
  }

  /** The operator's value does not depend on the shift. */
  lemma RatioIsShiftFree(x: Exp2, ts: seq<Term>, m: real, m': real)
    requires Lawful(x) && Massive(ts) && ts != []
    ensures Den(x, ts, m) > 0.0 && Den(x, ts, m') > 0.0
    ensures Num(x, ts, m) / Den(x, ts, m) == Num(x, ts, m') / Den(x, ts, m')
  {
    DenPositive(x, ts, m);
    DenPositive(x, ts, m');
    Reshift(x, ts, m, m', Mass);
    Reshift(x, ts, m, m', Value);
    Pos(x, m - m');
    DivCancel(Num(x, ts, m), Den(x, ts, m), x.e(m - m'));
  }

  // ----- the input of one query tile -----

  /** A frozen route: which blocks are exact. */
  type Route = nat -> bool

  /** One CTA's input: `qLen` query rows against `tokens` keys, scores given as
      functions, one value coordinate.  `scale` is the softmax scale times log2 e. */
  datatype Tile = Tile(
    qLen: nat,
    tokens: nat,
    qk: (nat, nat) -> real,      // raw score of a query row and a key
    qkc: (nat, nat) -> real,     // raw score of a query row and a block's mean key
    v: nat -> real,              // value of a key
    vc: nat -> real,             // sum of a block's values
    biased: bool,
    bias: nat -> real,           // natural-log measure of a key
    log2e: real,
    scale: real)
  {
    predicate Ok() { 0 < qLen <= 64 && tokens > 0 && scale > 0.0 }

    function Blocks(): nat { (tokens + 64 - 1) / 64 }

    /** Number of keys in block j, clamped as the kernels clamp it. */
    function Length(j: nat): nat {
      if tokens <= j * 64 then 0 else if tokens - j * 64 > 64 then 64 else tokens - j * 64
    }

    /** Number of keys in the first n blocks. */
    function Covered(n: nat): nat { if n * 64 <= tokens then n * 64 else tokens }

    /** Score of key u in log2 units, with its measure. */
    function KeyScore(r: nat, u: nat): real {
      Mul(scale, qk(r, u)) + if biased then Mul(log2e, bias(u)) else 0.0
    }

    function KeyTerm(r: nat, u: nat): Term { Term(KeyScore(r, u), 1, v(u)) }

    function BlockTerm(r: nat, j: nat): Term { Term(Mul(scale, qkc(r, j)), Length(j), vc(j)) }

    function BlockKeys(r: nat, j: nat): (ts: seq<Term>)
      ensures |ts| == Length(j) && forall c | 0 <= c < |ts| :: ts[c] == KeyTerm(r, j * 64 + c)
    {
      seq(Length(j), c requires 0 <= c => KeyTerm(r, j * 64 + c))
    }

    /** The keys of the exact blocks in lo..hi, in order. */
    function ExactTerms(route: Route, r: nat, lo: nat, hi: nat): seq<Term>
      decreases hi
    {
      if hi <= lo then []
      else if route(hi - 1) then ExactTerms(route, r, lo, hi - 1) + BlockKeys(r, hi - 1)
      else ExactTerms(route, r, lo, hi - 1)
    }

    /** The approximate blocks in lo..hi, in order. */
    function ApproxTerms(route: Route, r: nat, lo: nat, hi: nat): seq<Term>
      decreases hi
    {
      if hi <= lo then []
      else if route(hi - 1) then ApproxTerms(route, r, lo, hi - 1)
      else ApproxTerms(route, r, lo, hi - 1) + [BlockTerm(r, hi - 1)]
    }

    /** All summands of row r, exact keys first, as the two-pass reference walks them. */
    function AllTerms(route: Route, r: nat): seq<Term> {
      ExactTerms(route, r, 0, Blocks()) + ApproxTerms(route, r, 0, Blocks())
    }
  }

  function MaxScore(ts: seq<Term>): real
    requires ts != []
  {
    if |ts| == 1 then ts[0].score
    else
      var m := MaxScore(ts[..|ts| - 1]);
      if ts[|ts| - 1].score > m then ts[|ts| - 1].score else m
  }

  /** The two-pass reference: first the maximum, then numerator over denominator. */
  function Reference(x: Exp2, t: Tile, route: Route, r: nat): real
    requires Lawful(x) && t.Ok()
  {
    TermsExist(t, route, r);
    var ts := t.AllTerms(route, r);
    DenPositive(x, ts, MaxScore(ts));
    Num(x, ts, MaxScore(ts)) / Den(x, ts, MaxScore(ts))
  }

  lemma BlockKeysAreUnits(t: Tile, r: nat, j: nat)
    ensures forall k | k in t.BlockKeys(r, j) :: k.mass == 1
  {
  }

  lemma {:induction false} TermsUpTo(t: Tile, route: Route, r: nat, lo: nat, hi: nat)
    requires t.Ok() && lo <= hi <= t.Blocks()
    ensures Massive(t.ExactTerms(route, r, lo, hi)) && Massive(t.ApproxTerms(route, r, lo, hi))
    ensures lo < hi ==> t.ExactTerms(route, r, lo, hi) + t.ApproxTerms(route, r, lo, hi) != []
    decreases hi
  {
    if lo < hi {
      TermsUpTo(t, route, r, lo, hi - 1);
      assert t.Length(hi - 1) > 0;
      BlockKeysAreUnits(t, r, hi - 1);
      if route(hi - 1) { assert |t.BlockKeys(r, hi - 1)| > 0; }
    }
  }

  lemma TermsExist(t: Tile, route: Route, r: nat)
    requires t.Ok()
    ensures Massive(t.AllTerms(route, r)) && t.AllTerms(route, r) != []
  {
    assert t.Blocks() > 0;
    TermsUpTo(t, route, r, 0, t.Blocks());
  }

  /** Term lists of adjacent block ranges join. */
  lemma {:induction false} TermsSplit(t: Tile, route: Route, r: nat, lo: nat, mid: nat, hi: nat)
    requires t.Ok() && lo <= mid <= hi
    ensures t.ExactTerms(route, r, lo, hi) == t.ExactTerms(route, r, lo, mid) + t.ExactTerms(route, r, mid, hi)
    ensures t.ApproxTerms(route, r, lo, hi) == t.ApproxTerms(route, r, lo, mid) + t.ApproxTerms(route, r, mid, hi)
    decreases hi
  {
    if mid < hi { TermsSplit(t, route, r, lo, mid, hi - 1); }
  }

  // ----- group-wise order -----

  /** The two kinds of terms of the blocks lo..hi, weighed together. */
  function WeighMixed(x: Exp2, t: Tile, route: Route, r: nat, lo: nat, hi: nat, m: real, part: Part): real {
    Weigh(x, t.ExactTerms(route, r, lo, hi), m, part) + Weigh(x, t.ApproxTerms(route, r, lo, hi), m, part)
  }

  /** What the blocks lo..hi contribute when folded as one group: first the
      approximate columns, then the exact keys.  An absent row gets nothing. */
  function GroupTerms(t: Tile, route: Route, r: nat, lo: nat, hi: nat): seq<Term> {
    if r >= t.qLen then [] else t.ApproxTerms(route, r, lo, hi) + t.ExactTerms(route, r, lo, hi)
  }

  /** The terms of row r when the block range is cut at `cuts` and folded group by group. */
  function Streamed(t: Tile, route: Route, r: nat, cuts: seq<nat>): seq<Term> {
    if |cuts| < 2 then []
    else Streamed(t, route, r, cuts[..|cuts| - 1]) + GroupTerms(t, route, r, cuts[|cuts| - 2], cuts[|cuts| - 1])
  }

  predicate Ascending(cuts: seq<nat>) { forall i, j | 0 <= i <= j < |cuts| :: cuts[i] <= cuts[j] }

  lemma StreamedGrows(t: Tile, route: Route, r: nat, cuts: seq<nat>, next: nat)
    requires cuts != []
    ensures Streamed(t, route, r, cuts + [next])
         == Streamed(t, route, r, cuts) + GroupTerms(t, route, r, cuts[|cuts| - 1], next)
  {
    assert (cuts + [next])[..|cuts|] == cuts;
  }

  lemma GroupWeight(x: Exp2, t: Tile, route: Route, r: nat, a: nat, b: nat, c: nat, m: real, part: Part)
    requires t.Ok() && r < t.qLen && a <= b <= c
    ensures WeighMixed(x, t, route, r, a, c, m, part)
         == WeighMixed(x, t, route, r, a, b, m, part) + Weigh(x, GroupTerms(t, route, r, b, c), m, part)
  {
    hide Weigh, Tile.ApproxTerms, Tile.ExactTerms;
    TermsSplit(t, route, r, a, b, c);
    Concat(x, t.ExactTerms(route, r, a, b), t.ExactTerms(route, r, b, c), m, part);
    Concat(x, t.ApproxTerms(route, r, a, b), t.ApproxTerms(route, r, b, c), m, part);
    Concat(x, t.ApproxTerms(route, r, b, c), t.ExactTerms(route, r, b, c), m, part);
  }

  /** However the block range is cut into groups, the folded terms weigh the same as
      the reference's: the exact keys plus the approximate blocks. */
  lemma {:induction false} StreamedWeight(x: Exp2, t: Tile, route: Route, r: nat, cuts: seq<nat>, m: real, part: Part)
    requires t.Ok() && r < t.qLen && cuts != [] && Ascending(cuts)
    ensures Weigh(x, Streamed(t, route, r, cuts), m, part)
         == WeighMixed(x, t, route, r, cuts[0], cuts[|cuts| - 1], m, part)
    decreases |cuts|
  {
    var n := |cuts| - 1;
    if n > 0 {
      var init := cuts[..n];
      assert Ascending(init) && init[0] == cuts[0] && init[n - 1] == cuts[n - 1] && cuts[0] <= cuts[n - 1] <= cuts[n];
      assert Streamed(t, route, r, cuts) == Streamed(t, route, r, init) + GroupTerms(t, route, r, cuts[n - 1], cuts[n]);
      hide WeighMixed, GroupTerms, Weigh, Streamed, Ascending;
      StreamedWeight(x, t, route, r, init, m, part);
      GroupWeight(x, t, route, r, cuts[0], cuts[n - 1], cuts[n], m, part);
      Concat(x, Streamed(t, route, r, init), GroupTerms(t, route, r, cuts[n - 1], cuts[n]), m, part);
    }
  }

  // ----- what the reference means -----

  function TotalMass(ts: seq<Term>): nat {
    if ts == [] then 0 else TotalMass(ts[..|ts| - 1]) + ts[|ts| - 1].mass
  }

  lemma {:induction false} MassConcat(a: seq<Term>, b: seq<Term>)
    ensures TotalMass(a + b) == TotalMass(a) + TotalMass(b)
    decreases |b|
  {
    if b == [] {
      assert a + b == a;
    } else {
      assert (a + b)[..|a + b| - 1] == a + b[..|b| - 1];
      MassConcat(a, b[..|b| - 1]);
    }
  }

  lemma {:induction false} UnitMass(ts: seq<Term>)
    requires forall t | t in ts :: t.mass == 1
    ensures TotalMass(ts) == |ts|
    decreases |ts|
  {
    if ts != [] { UnitMass(ts[..|ts| - 1]); }
  }

  lemma {:induction false} MassUpTo(t: Tile, route: Route, r: nat, n: nat)
    requires t.Ok() && n <= t.Blocks()
    ensures TotalMass(t.ExactTerms(route, r, 0, n)) + TotalMass(t.ApproxTerms(route, r, 0, n))
         == t.Covered(n)
    decreases n
  {
    if n > 0 {
      MassUpTo(t, route, r, n - 1);
      assert t.Covered(n) == t.Covered(n - 1) + t.Length(n - 1);
      if route(n - 1) {
        MassOfBlock(t, r, n - 1, t.ExactTerms(route, r, 0, n - 1));
      } else {
        MassOfOne(t.ApproxTerms(route, r, 0, n - 1), t.BlockTerm(r, n - 1));
      }
    }
  }

  lemma MassOfBlock(t: Tile, r: nat, j: nat, ts: seq<Term>)
    ensures TotalMass(ts + t.BlockKeys(r, j)) == TotalMass(ts) + t.Length(j)
  {
    BlockKeysAreUnits(t, r, j);
    UnitMass(t.BlockKeys(r, j));
    MassConcat(ts, t.BlockKeys(r, j));
  }

  lemma MassOfOne(ts: seq<Term>, k: Term)
    ensures TotalMass(ts + [k]) == TotalMass(ts) + k.mass
  {
    assert (ts + [k])[..|ts|] == ts;
  }

  /** Whatever the route, the summands together stand for every key exactly once. */
  lemma MassIsTokens(t: Tile, route: Route, r: nat)
    requires t.Ok()
    ensures TotalMass(t.AllTerms(route, r)) == t.tokens
  {
    MassUpTo(t, route, r, t.Blocks());
    MassConcat(t.ExactTerms(route, r, 0, t.Blocks()), t.ApproxTerms(route, r, 0, t.Blocks()));
  }

  /** Every key of the sequence, in order: dense attention with the key measures. */
  function DenseTerms(t: Tile, r: nat): seq<Term> {
    seq(t.tokens, u requires 0 <= u => t.KeyTerm(r, u))
  }

  lemma {:induction false} AllExactUpTo(t: Tile, route: Route, r: nat, n: nat)
    requires t.Ok() && n <= t.Blocks() && forall j: nat | j < n :: route(j)
    ensures t.ApproxTerms(route, r, 0, n) == []
    ensures t.ExactTerms(route, r, 0, n) == DenseTerms(t, r)[..t.Covered(n)]
    decreases n
  {
    if n > 0 { AllExactUpTo(t, route, r, n - 1); }
  }

  /** With every block exact, the mixed operator is dense biased softmax. */
  lemma AllExactIsDense(x: Exp2, t: Tile, route: Route, r: nat, m: real)
    requires Lawful(x) && t.Ok() && forall j: nat | j < t.Blocks() :: route(j)
    ensures Den(x, DenseTerms(t, r), m) > 0.0
    ensures Reference(x, t, route, r) == Num(x, DenseTerms(t, r), m) / Den(x, DenseTerms(t, r), m)
  {
    AllExactUpTo(t, route, r, t.Blocks());
    TermsExist(t, route, r);
    assert t.AllTerms(route, r) == DenseTerms(t, r);
    RatioIsShiftFree(x, t.AllTerms(route, r), MaxScore(t.AllTerms(route, r)), m);
  }

  // ----- when the approximation is exact -----

  function ValueSum(t: Tile, j: nat, n: nat): real {
    if n == 0 then 0.0 else ValueSum(t, j, n - 1) + t.v(j * 64 + n - 1)
  }

  /** Block j is flat for row r: its keys score like its mean key, carry no measure,
      and its summary value is the sum of its values. */
  ghost predicate Flat(t: Tile, r: nat, j: nat) {
    && !t.biased
    && (forall u: nat | j * 64 <= u < j * 64 + t.Length(j) :: t.qk(r, u) == t.qkc(r, j))
    && t.vc(j) == ValueSum(t, j, t.Length(j))
  }

  function FlatShare(t: Tile, j: nat, n: nat, part: Part): real {
    if part.Mass? then n as real else ValueSum(t, j, n)
  }

  lemma FlatKey(t: Tile, r: nat, j: nat, n: nat)
    requires Flat(t, r, j) && n < t.Length(j)
    ensures t.BlockKeys(r, j)[n] == Term(Mul(t.scale, t.qkc(r, j)), 1, t.v(j * 64 + n))
  {
    assert t.BlockKeys(r, j)[n] == t.KeyTerm(r, j * 64 + n);
  }

  lemma {:induction false} FlatKeys(x: Exp2, t: Tile, r: nat, j: nat, n: nat, m: real, part: Part)
    requires Flat(t, r, j) && n <= t.Length(j)
    ensures Weigh(x, t.BlockKeys(r, j)[..n], m, part) == Mul(x.e(Mul(t.scale, t.qkc(r, j)) - m), FlatShare(t, j, n, part))
    decreases n
  {
    if n > 0 {
      FlatKey(t, r, j, n - 1);
      hide Flat, Tile.KeyTerm, Tile.Length, FlatShare, Share;
      FlatKeys(x, t, r, j, n - 1, m, part);
      var keys, k := t.BlockKeys(r, j), t.BlockKeys(r, j)[n - 1];
      assert keys[..n] == keys[..n - 1] + [k];
      WeighSnoc(x, keys[..n - 1], k, m, part);
      FlatShareStep(t, j, n, k, part);
      Distrib(x.e(k.score - m), FlatShare(t, j, n - 1, part), Share(k, part));
    } else {
      assert t.BlockKeys(r, j)[..0] == [];
    }
  }

  lemma FlatShareStep(t: Tile, j: nat, n: nat, k: Term, part: Part)
    requires n > 0 && k.mass == 1 && k.value == t.v(j * 64 + (n - 1))
    ensures FlatShare(t, j, n, part) == FlatShare(t, j, n - 1, part) + Share(k, part)
  {
  }

  lemma FlatBlock(x: Exp2, t: Tile, r: nat, j: nat, m: real, part: Part)
    requires Flat(t, r, j)
    ensures Weigh(x, t.BlockKeys(r, j), m, part) == Weigh(x, [t.BlockTerm(r, j)], m, part)
  {
    FlatKeys(x, t, r, j, t.Length(j), m, part);
    assert t.BlockKeys(r, j)[..t.Length(j)] == t.BlockKeys(r, j);
    assert [] + [t.BlockTerm(r, j)] == [t.BlockTerm(r, j)];
    WeighSnoc(x, [], t.BlockTerm(r, j), m, part);
  }

  lemma MixedGrows(x: Exp2, t: Tile, route: Route, r: nat, j: nat, m: real, part: Part)
    requires t.Ok() && (route(j) || Flat(t, r, j))
    ensures WeighMixed(x, t, route, r, 0, j + 1, m, part) == WeighMixed(x, t, route, r, 0, j, m, part) + Weigh(x, t.BlockKeys(r, j), m, part)
  {
    if route(j) {
      Concat(x, t.ExactTerms(route, r, 0, j), t.BlockKeys(r, j), m, part);
    } else {
      FlatBlock(x, t, r, j, m, part);
      Concat(x, t.ApproxTerms(route, r, 0, j), [t.BlockTerm(r, j)], m, part);
    }
  }

  ghost predicate AllFlat(t: Tile, route: Route, r: nat, n: nat)
    requires t.Ok()
  {
    forall j: nat | j < n :: route(j) || Flat(t, r, j)
  }

  lemma {:induction false} FlatUpTo(x: Exp2, t: Tile, route: Route, r: nat, n: nat, m: real, part: Part)
    requires t.Ok() && n <= t.Blocks() && AllFlat(t, route, r, n)
    ensures Weigh(x, DenseTerms(t, r)[..t.Covered(n)], m, part) == WeighMixed(x, t, route, r, 0, n, m, part)
    decreases n
  {
    if n > 0 {
      FlatUpTo(x, t, route, r, n - 1, m, part);
      DenseGrows(t, r, n - 1);
      Concat(x, DenseTerms(t, r)[..t.Covered(n - 1)], t.BlockKeys(r, n - 1), m, part);
      MixedGrows(x, t, route, r, n - 1, m, part);
    }
  }

  lemma DenseGrows(t: Tile, r: nat, j: nat)
    requires t.Ok() && j < t.Blocks()
    ensures DenseTerms(t, r)[..t.Covered(j + 1)] == DenseTerms(t, r)[..t.Covered(j)] + t.BlockKeys(r, j)
  {
  }

  /** Replacing a block by its summary loses nothing when the block is flat: if every
      approximated block is, the mixed operator equals dense attention, whatever
      the route. */
  lemma FlatIsDense(x: Exp2, t: Tile, route: Route, r: nat, m: real)
    requires Lawful(x) && t.Ok() && AllFlat(t, route, r, t.Blocks())
    ensures Den(x, DenseTerms(t, r), m) > 0.0
    ensures Reference(x, t, route, r) == Num(x, DenseTerms(t, r), m) / Den(x, DenseTerms(t, r), m)
  {
    FlatWeight(x, t, route, r, m, Mass);
    FlatWeight(x, t, route, r, m, Value);
    TermsExist(t, route, r);
    RatioIsShiftFree(x, t.AllTerms(route, r), MaxScore(t.AllTerms(route, r)), m);
  }

  lemma FlatWeight(x: Exp2, t: Tile, route: Route, r: nat, m: real, part: Part)
    requires t.Ok() && AllFlat(t, route, r, t.Blocks())
    ensures Weigh(x, DenseTerms(t, r), m, part) == Weigh(x, t.AllTerms(route, r), m, part)
  {
    var n := t.Blocks();
    FlatUpTo(x, t, route, r, n, m, part);
    assert DenseTerms(t, r)[..t.Covered(n)] == DenseTerms(t, r);
    Concat(x, t.ExactTerms(route, r, 0, n), t.ApproxTerms(route, r, 0, n), m, part);
  }
}
