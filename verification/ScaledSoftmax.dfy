/**
 The running state of the kernels that scale scores before taking the maximum and keep
 one sum per row: the Triton forms and SM100.
*/
module ScaledSoftmax {
  import opened Exponential
  import opened MixedOperator
  import opened OnlineSoftmax
  import opened ForwardSm120

  datatype State = State(max: Ext, sum: real, out: real)
  {
    function Row(): RowState { RowState(max, [sum, 0.0, 0.0, 0.0], out) }
  }

  /** The state stands for the terms `ts`. */
  ghost predicate Stands(x: Exp2, st: State, ts: seq<Term>) { Tracks(x, 1.0, st.Row(), ts) }

  /** exp2(a - b).  Where b is -inf the hardware would produce a NaN or an infinity; every
      use below shows that it is not. */
  function Diff(x: Exp2, a: Ext, b: Ext): real
    requires b.Fin?
  {
    if a.NegInf? then 0.0 else x.e(a.x - b.x)
  }

  // ----- one batch -----

  /** `on[c]` is the `where` mask of column c: off means probability zero. */
  predicate Guards(cols: seq<Column>, on: seq<bool>, cur: Ext) {
    && |on| == |cols|
    && forall c | 0 <= c < |cols| :: if on[c] then cur.Fin? else cols[c].raw.NegInf?
  }

  /** Row sum and output of a batch relative to the new maximum. */
  method AddBatch(x: Exp2, cols: seq<Column>, on: seq<bool>, cur: Ext, ghost m: real, sum: real, out: real)
    returns (sum': real, out': real)
    requires Guards(cols, on, cur) && (cur.Fin? ==> m == Mul(1.0, cur.x))
    ensures sum' == sum + Den(x, Live(cols, 1.0), m)
    ensures out' == out + Num(x, Live(cols, 1.0), m)
  {
    sum', out' := sum, out;
    for c := 0 to |cols|
      invariant sum' == sum + Den(x, Live(cols[..c], 1.0), m)
      invariant out' == out + Num(x, Live(cols[..c], 1.0), m)
    {
      var p := if on[c] then Diff(x, cols[c].raw, cur) else 0.0;
      ColumnStep(x, cols, c, p, m, Mass);
      ColumnStep(x, cols, c, p, m, Value);
      sum' := sum' + Mul(p, cols[c].mass as real);
      out' := out' + Mul(p, cols[c].value);
    }
    assert cols[..|cols|] == cols;
  }

  lemma ColumnStep(x: Exp2, cols: seq<Column>, c: nat, p: real, m: real, part: Part)
    requires c < |cols| && p == if cols[c].raw.NegInf? then 0.0 else x.e(cols[c].raw.x - m)
    ensures Weigh(x, Live(cols[..c + 1], 1.0), m, part)
         == Weigh(x, Live(cols[..c], 1.0), m, part) + Mul(p, ShareOf(cols[c], part))
  {
    var k := cols[c];
    LiveSnoc(cols, c, 1.0);
    if k.raw.Fin? {
      var t := Term(Mul(1.0, k.raw.x), k.mass, k.value);
      WeighSnoc(x, Live(cols[..c], 1.0), t, m, part);
      assert Share(t, part) == ShareOf(k, part) && t.score == k.raw.x;
    }
  }

  lemma LiveMember(cols: seq<Column>, c: nat)
    requires c < |cols| && cols[c].raw.Fin?
    ensures Live(cols, 1.0) != []
    decreases |cols|
  {
    if c < |cols| - 1 { LiveMember(cols[..|cols| - 1], c); }
  }

  /** What is left of the old sums under the new maximum. */
  lemma Carried(x: Exp2, st: State, ts: seq<Term>, alpha: real, m: real)
    requires Lawful(x) && Stands(x, st, ts)
    requires st.max.Fin? ==> alpha == x.e(st.max.x - m)
    ensures Mul(st.sum, alpha) == Den(x, ts, m) && Mul(st.out, alpha) == Num(x, ts, m)
  {
    assert st.max.NegInf? ==> st.Row().sums[0] == 0.0;
    if st.max.Fin? {
      Reshift(x, ts, Mul(1.0, st.max.x), m, Mass);
      Reshift(x, ts, Mul(1.0, st.max.x), m, Value);
      Same(x, Mul(1.0, st.max.x) - m, st.max.x - m);
    }
  }

  lemma Grown(x: Exp2, st: State, ts: seq<Term>, more: seq<Term>, cur: Ext, m: real, sum: real, out: real)
    requires Bounds(1.0, cur, ts + more) && (cur.Fin? ==> m == Mul(1.0, cur.x))
    requires sum == Den(x, ts, m) + Den(x, more, m) && out == Num(x, ts, m) + Num(x, more, m)
    ensures Stands(x, State(cur, sum, out), ts + more)
  {
    Concat(x, ts, more, m, Mass);
    Concat(x, ts, more, m, Value);
  }

  /** Scaling before or after the maximum makes no difference to the terms. */
  predicate Prescaled(a: Column, b: Column, scale: real) {
    && (a.raw.Fin? <==> b.raw.Fin?)
    && (a.raw.Fin? ==> b.raw.x == Mul(scale, a.raw.x) && a.mass == b.mass && a.value == b.value)
  }

  lemma {:induction false} SameTerms(a: seq<Column>, b: seq<Column>, scale: real)
    requires |a| == |b| && forall c | 0 <= c < |a| :: Prescaled(a[c], b[c], scale)
    ensures Live(a, scale) == Live(b, 1.0)
    decreases |a|
  {
    if a != [] {
      var n := |a| - 1;
      SameTerms(a[..n], b[..n], scale);
      assert Prescaled(a[n], b[n], scale);
    }
  }

  /** At the end of a row the quotient is the two-pass reference. */
  lemma RowIsReference(x: Exp2, t: Tile, route: Route, r: nat, st: State, cuts: seq<nat>)
    requires Lawful(x) && t.Ok() && r < t.qLen && Covers(cuts, t.Blocks())
    requires Stands(x, st, Streamed(t, route, r, cuts))
    ensures st.sum > 0.0 && st.out / st.sum == Reference(x, t, route, r)
  {
    assert st.max.NegInf? ==> st.Row().sums[0] == 0.0;
    var m := if st.max.Fin? then Mul(1.0, st.max.x) else 0.0;
    StreamedIsAll(x, t, route, r, cuts, m, Mass);
    StreamedIsAll(x, t, route, r, cuts, m, Value);
    RowRatio(x, t, route, r, m);
  }
}
