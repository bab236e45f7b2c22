/**
 The running softmax state of one query row.

 The row's 64 columns are spread over four lanes.  Each lane keeps its own partial
 row sum, which is only added up at the very end; the maximum is shared after every
 batch.
*/
module OnlineSoftmax {
  import opened Exponential
  import opened MixedOperator

  const LANES: nat := 4

  /** One column of a batch: its raw score after masking, the number of keys it
      stands for, and its value. */
  datatype Column = Column(raw: Ext, mass: nat, value: real)

  /** Raw running maximum, the four lanes' partial sums, and the unnormalised output. */
  datatype RowState = RowState(max: Ext, sums: seq<real>, out: real)

  const EMPTY := RowState(NegInf, [0.0, 0.0, 0.0, 0.0], 0.0)

  function Total(s: seq<real>): real
    requires |s| == LANES
  {
    s[0] + s[1] + s[2] + s[3]
  }

  /** The lane that owns column c of the accumulator fragment. */
  function Lane(c: nat): (l: nat)
    ensures l < LANES
  {
    c % 8 / 2
  }

  /** The terms a batch contributes: its unmasked columns. */
  function Live(cols: seq<Column>, scale: real): seq<Term> {
    if cols == [] then []
    else
      var k := cols[|cols| - 1];
      if k.raw.NegInf? then Live(cols[..|cols| - 1], scale)
      else Live(cols[..|cols| - 1], scale) + [Term(Mul(scale, k.raw.x), k.mass, k.value)]
  }

  /** The state stands for the terms `ts`: its maximum is theirs, and its sums are
      their sums relative to that maximum. */
  ghost predicate Tracks(x: Exp2, scale: real, st: RowState, ts: seq<Term>) {
    && |st.sums| == LANES
    && match st.max
       case NegInf => ts == [] && st.out == 0.0 && forall l | 0 <= l < LANES :: st.sums[l] == 0.0
       case Fin(m) =>
         && (forall t | t in ts :: t.score <= Mul(scale, m))
         && (exists t :: t in ts && t.score == Mul(scale, m))
         && Total(st.sums) == Den(x, ts, Mul(scale, m))
         && st.out == Num(x, ts, Mul(scale, m))
  }

  /** The terms seen so far and how far the maximum has come. */
  ghost predicate Bounds(scale: real, max: Ext, ts: seq<Term>) {
    match max
    case NegInf => ts == []
    case Fin(m) => (forall t | t in ts :: t.score <= Mul(scale, m)) && exists t :: t in ts && t.score == Mul(scale, m)
  }

  lemma BoundsGrow(scale: real, max: Ext, ts: seq<Term>, k: Term, raw: real)
    requires scale > 0.0 && Bounds(scale, max, ts) && k.score == Mul(scale, raw)
    ensures Bounds(scale, max.Max(Fin(raw)), ts + [k])
  {
    var m := max.Max(Fin(raw)).x;
    assert k in ts + [k];
    if max.Fin? {
      MulMono(scale, max.x, raw);
      var t :| t in ts && t.score == Mul(scale, max.x);
      assert t in ts + [k];
    }
    forall t | t in ts + [k] ensures t.score <= Mul(scale, m) {
      if t in ts { MulMono(scale, max.x, m); }
    }
  }

  /** The maximum over the batch, starting from the running one. */
  method BatchMax(scale: real, cols: seq<Column>, max: Ext, ghost ts: seq<Term>) returns (cur: Ext)
    requires scale > 0.0 && Bounds(scale, max, ts)
    ensures Bounds(scale, cur, ts + Live(cols, scale))
  {
    cur := max;
    assert ts + Live(cols[..0], scale) == ts;
    for c := 0 to |cols|
      invariant Bounds(scale, cur, ts + Live(cols[..c], scale))
    {
      LiveSnoc(cols, c, scale);
      if cols[c].raw.Fin? {
        var k := Term(Mul(scale, cols[c].raw.x), cols[c].mass, cols[c].value);
        BoundsGrow(scale, cur, ts + Live(cols[..c], scale), k, cols[c].raw.x);
        assert ts + Live(cols[..c + 1], scale) == ts + Live(cols[..c], scale) + [k];
      }
      cur := cur.Max(cols[c].raw);
    }
    assert cols[..|cols|] == cols;
  }

  /** exp2 of a score relative to the safe maximum. */
  function Weight(x: Exp2, scale: real, raw: Ext, safe: real): real {
    if raw.NegInf? then 0.0 else x.e(Mul(raw.x, scale) - Mul(safe, scale))
  }

  lemma WeightOfTerm(x: Exp2, scale: real, raw: real, safe: real)
    ensures Weight(x, scale, Fin(raw), safe) == x.e(Mul(scale, raw) - Mul(scale, safe))
  {
    Same(x, Mul(raw, scale) - Mul(safe, scale), Mul(scale, raw) - Mul(scale, safe));
  }

  /** Adds the batch's probabilities to the lanes and to the output. */
  method Accumulate(x: Exp2, scale: real, cols: seq<Column>, safe: real, sums: seq<real>, out: real)
    returns (sums': seq<real>, out': real)
    requires |sums| == LANES
    ensures |sums'| == LANES
    ensures Total(sums') == Total(sums) + Den(x, Live(cols, scale), Mul(scale, safe))
    ensures out' == out + Num(x, Live(cols, scale), Mul(scale, safe))
    ensures Live(cols, scale) == [] ==> sums' == sums && out' == out
  {
    sums', out' := sums, out;
    for c := 0 to |cols|
      invariant |sums'| == LANES
      invariant Total(sums') == Total(sums) + Den(x, Live(cols[..c], scale), Mul(scale, safe))
      invariant out' == out + Num(x, Live(cols[..c], scale), Mul(scale, safe))
      invariant Live(cols[..c], scale) == [] ==> sums' == sums && out' == out
    {
      var p := Weight(x, scale, cols[c].raw, safe);
      var part := Mul(p, cols[c].mass as real);
      AddToLane(sums', Lane(c), part);
      LiveStep(x, scale, cols, c, safe, Mass);
      LiveStep(x, scale, cols, c, safe, Value);
      LiveSnoc(cols, c, scale);
      sums' := sums'[Lane(c) := sums'[Lane(c)] + part];
      out' := out' + Mul(p, cols[c].value);
    }
    assert cols[..|cols|] == cols;
  }

  lemma AddToLane(s: seq<real>, l: nat, d: real)
    requires |s| == LANES && l < LANES
    ensures Total(s[l := s[l] + d]) == Total(s) + d
  {
  }

  lemma LiveSnoc(cols: seq<Column>, c: nat, scale: real)
    requires c < |cols|
    ensures Live(cols[..c + 1], scale) ==
      if cols[c].raw.NegInf? then Live(cols[..c], scale)
      else Live(cols[..c], scale) + [Term(Mul(scale, cols[c].raw.x), cols[c].mass, cols[c].value)]
  {
    var upto := cols[..c + 1];
    assert upto[..|upto| - 1] == cols[..c];
    assert upto[|upto| - 1] == cols[c];
    assert upto != [];
  }

  function ShareOf(k: Column, part: Part): real { if part.Mass? then k.mass as real else k.value }

  lemma LiveStep(x: Exp2, scale: real, cols: seq<Column>, c: nat, safe: real, part: Part)
    requires c < |cols|
    ensures Weigh(x, Live(cols[..c + 1], scale), Mul(scale, safe), part)
         == Weigh(x, Live(cols[..c], scale), Mul(scale, safe), part) + Mul(Weight(x, scale, cols[c].raw, safe), ShareOf(cols[c], part))
  {
    var k := cols[c];
    LiveSnoc(cols, c, scale);
    if k.raw.Fin? {
      var t := Term(Mul(scale, k.raw.x), k.mass, k.value);
      WeighSnoc(x, Live(cols[..c], scale), t, Mul(scale, safe), part);
      WeightOfTerm(x, scale, k.raw.x, safe);
      assert Share(t, part) == ShareOf(k, part);
    }
  }

  /** One batch: new maximum, rescaling of sums and output, then the batch itself.
      The state then stands for the old terms followed by the batch's. */
  method Step(x: Exp2, scale: real, cols: seq<Column>, st: RowState, ghost ts: seq<Term>) returns (st': RowState)
    requires Lawful(x) && scale > 0.0 && Tracks(x, scale, st, ts)
    ensures Tracks(x, scale, st', ts + Live(cols, scale))
  {
    var cur := BatchMax(scale, cols, st.max, ts);
    var safe := if cur.NegInf? then 0.0 else cur.x;
    var factor := if st.max.NegInf? then 0.0 else x.e(Mul(st.max.x - safe, scale));
    var sums := [Mul(st.sums[0], factor), Mul(st.sums[1], factor), Mul(st.sums[2], factor), Mul(st.sums[3], factor)];
    Rescaled(x, scale, st, ts, safe, factor, sums);
    var sums', out' := Accumulate(x, scale, cols, safe, sums, Mul(st.out, factor));
    Concat(x, ts, Live(cols, scale), Mul(scale, safe), Mass);
    Concat(x, ts, Live(cols, scale), Mul(scale, safe), Value);
    st' := RowState(cur, sums', out');
  }

  lemma Rescaled(x: Exp2, scale: real, st: RowState, ts: seq<Term>, safe: real, factor: real, sums: seq<real>)
    requires Lawful(x) && Tracks(x, scale, st, ts)
    requires factor == if st.max.NegInf? then 0.0 else x.e(Mul(st.max.x - safe, scale))
    requires sums == [Mul(st.sums[0], factor), Mul(st.sums[1], factor), Mul(st.sums[2], factor), Mul(st.sums[3], factor)]
    ensures Total(sums) == Den(x, ts, Mul(scale, safe)) && Mul(st.out, factor) == Num(x, ts, Mul(scale, safe))
  {
    assert Total(sums) == Mul(Total(st.sums), factor);
    if st.max.Fin? {
      Reshift(x, ts, Mul(scale, st.max.x), Mul(scale, safe), Mass);
      Reshift(x, ts, Mul(scale, st.max.x), Mul(scale, safe), Value);
      Same(x, Mul(st.max.x - safe, scale), Mul(scale, st.max.x) - Mul(scale, safe));
    }
  }
}
