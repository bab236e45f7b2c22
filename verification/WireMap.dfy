/**
 Validation of the wire tuple that carries a query map, and the equality by which such
 tuples are found in a cache.
*/
module WireMap {
  import opened Basics
  import opened MappedNeighbors

  /** A Python value as far as validation can tell values apart. */
  datatype Val = Nil | Int(n: int) | Bool(b: bool) | Number(x: real) | Text(s: string) | Tuple(items: seq<Val>) | Other

  const TAG := "vdn_query_positions"

  predicate StrictInt(v: Val, minimum: int) { v.Int? && Strict(v.n, minimum) }

  /** A run entry; anything that is not a triple of integers reads as an invalid one. */
  function RawOf(v: Val): RawRun {
    if v.Tuple? && |v.items| == 3 && v.items[0].Int? && v.items[1].Int? && v.items[2].Int?
    then (v.items[0].n, v.items[1].n, v.items[2].n)
    else (-1, -1, -1)
  }

  function RawRuns(items: seq<Val>): (raw: seq<RawRun>)
    ensures |raw| == |items| && forall i | 0 <= i < |items| :: raw[i] == RawOf(items[i])
  {
    seq(|items|, i requires 0 <= i < |items| => RawOf(items[i]))
  }

  /** The checks before the run list, in the order in which they are made. */
  function HeaderFault(value: Val, q: Val, kv: Val, sink: Val): Result<()> {
    if !value.Tuple? || |value.items| != 9 then Unavailable(if value.Nil? then Missing else Schema)
    else
      var w := value.items;
      if w[0] != Text(TAG) || w[1] != Int(1) then Unavailable(Schema)
      else if !w[2].Text? || w[2].s == "" || !w[3].Text? || !IsDigest(w[3].s) then Unavailable(Owner)
      else if !StrictInt(w[4], 0) || !StrictInt(w[5], 1) || !StrictInt(w[6], 1) || !StrictInt(w[7], 0) then Unavailable(Schema)
      else if !q.Int? || !kv.Int? || !sink.Int? then Unavailable(Domain)
      else if w[5] != q || w[6] != kv || w[7] != sink || w[7].n > w[6].n then Unavailable(Domain)
      else if !w[8].Tuple? || w[8].items == [] then Unavailable(Schema)
      else Ok(())
  }

  /** Which fault of the header is reported. */
  lemma HeaderFaults(value: Val, q: Val, kv: Val, sink: Val)
    ensures HeaderFault(value, q, kv, sink) == Unavailable(Missing) <==> value == Nil
    ensures HeaderFault(value, q, kv, sink) == Unavailable(Owner) <==>
              && value.Tuple? && |value.items| == 9 && value.items[0] == Text("vdn_query_positions") && value.items[1] == Int(1)
              && !(value.items[2].Text? && value.items[2].s != "" && value.items[3].Text? && IsDigest(value.items[3].s))
    ensures HeaderFault(value, q, kv, sink) == Unavailable(Domain) <==>
              && value.Tuple? && |value.items| == 9 && value.items[0] == Text("vdn_query_positions") && value.items[1] == Int(1)
              && value.items[2].Text? && value.items[2].s != "" && value.items[3].Text? && IsDigest(value.items[3].s)
              && value.items[4].Int? && 0 <= value.items[4].n <= 2147483647 && value.items[5].Int? && 1 <= value.items[5].n <= 2147483647
              && value.items[6].Int? && 1 <= value.items[6].n <= 2147483647 && value.items[7].Int? && 0 <= value.items[7].n <= 2147483647
              && !(value.items[5] == q && value.items[6] == kv && value.items[7] == sink && value.items[7].n <= value.items[6].n)
    ensures HeaderFault(value, q, kv, sink).Unavailable? ==>
              HeaderFault(value, q, kv, sink).reason in {Missing, Schema, Owner, Domain}
  {
  }

  lemma MirrorIsUnique(raw: seq<RawRun>, a: seq<Run>, b: seq<Run>)
    requires Mirrors(raw, a) && Mirrors(raw, b)
    ensures a == b
  {
    forall i | 0 <= i < |a| ensures a[i] == b[i] { assert raw[i] == raw[i]; }
  }

  /** `r` is the result that validating the wire value without any cache has. */
  ghost predicate ValidatesTo(value: Val, q: Val, kv: Val, sink: Val, r: Result<Validated>) {
    match HeaderFault(value, q, kv, sink)
    case Unavailable(reason) => r == Unavailable(reason)
    case Ok(_) =>
      var w := value.items;
      var raw := RawRuns(w[8].items);
      match r
      case Unavailable(reason) =>
        && Fault(raw, w[5].n, w[6].n, 0, 0, -1) == Unavailable(reason)
        && !exists runs: seq<Run> :: Mirrors(raw, runs) && ProperRuns(runs, w[5].n, w[6].n)
      case Ok(v) =>
        && v.owner == w[2].s && v.plan == w[3].s && v.group == w[4].n
        && v.qRows == w[5].n && v.kvRows == w[6].n && v.sinkRows == w[7].n
        && Mirrors(raw, v.runs) && v.Ok()
  }

  /** validate_wire_map on a cache miss. */
  method Validate(value: Val, q: Val, kv: Val, sink: Val) returns (r: Result<Validated>)
    ensures ValidatesTo(value, q, kv, sink, r)
  {
    var header := HeaderFault(value, q, kv, sink);
    if header.Unavailable? { return Unavailable(header.reason); }
    var w := value.items;
    var runs, aligned := ReadRuns(RawRuns(w[8].items), w[5].n, w[6].n);
    if runs.Unavailable? { return Unavailable(runs.reason); }
    return Ok(Validated(w[2].s, w[3].s, w[4].n, w[5].n, w[6].n, w[7].n, runs.value, aligned));
  }

  lemma ValidationIsUnique(value: Val, q: Val, kv: Val, sink: Val, a: Result<Validated>, b: Result<Validated>)
    requires ValidatesTo(value, q, kv, sink, a) && ValidatesTo(value, q, kv, sink, b)
    ensures a == b
  {
    if HeaderFault(value, q, kv, sink).Ok? {
      var raw := RawRuns(value.items[8].items);
      if a.Ok? && b.Ok? {
        MirrorIsUnique(raw, a.value.runs, b.value.runs);
      }
    }
  }

  // ----- the wire form of a validated map -----

  function RunVal(run: Run): Val { Tuple([Int(run.qBegin), Int(run.qEnd), Int(run.kvBegin)]) }

  function RunVals(runs: seq<Run>): (items: seq<Val>)
    ensures |items| == |runs| && forall i | 0 <= i < |runs| :: items[i] == RunVal(runs[i])
  {
    seq(|runs|, i requires 0 <= i < |runs| => RunVal(runs[i]))
  }

  /** _validated_cache_key: the wire tuple rebuilt from the validated fields. */
  function WireOf(v: Validated): Val {
    Tuple([Text(TAG), Int(1), Text(v.owner), Text(v.plan), Int(v.group), Int(v.qRows), Int(v.kvRows), Int(v.sinkRows),
           Tuple(RunVals(v.runs))])
  }

  /** Round trip: rebuilding the wire tuple of an accepted value gives that value back. */
  lemma WireRoundTrip(value: Val, q: Val, kv: Val, sink: Val, v: Validated)
    requires ValidatesTo(value, q, kv, sink, Ok(v))
    ensures WireOf(v) == value && q == Int(v.qRows) && kv == Int(v.kvRows) && sink == Int(v.sinkRows)
  {
    var w := value.items;
    var raw := RawRuns(w[8].items);
    assert v.runs != [];
    forall i | 0 <= i < |v.runs| ensures w[8].items[i] == RunVal(v.runs[i]) {
      assert raw[i] == RawOf(w[8].items[i]) && raw[i].0 >= 0;
      assert w[8].items[i].items == [Int(raw[i].0), Int(raw[i].1), Int(raw[i].2)];
    }
    assert w[8].items == RunVals(v.runs);
    assert w == WireOf(v).items;
  }

  // ----- dictionary keys -----

  /** Python's ==, under which True, 1 and 1.0 are one key. */
  predicate PyEq(a: Val, b: Val)
    decreases a
  {
    if a.Tuple? && b.Tuple? then
      |a.items| == |b.items| && forall i | 0 <= i < |a.items| :: PyEq(a.items[i], b.items[i])
    else if Numeric(a).Some? && Numeric(b).Some? then Numeric(a) == Numeric(b)
    else a == b
  }

  function Numeric(a: Val): Option<real> {
    match a
    case Int(n) => Some(n as real)
    case Bool(b) => Some(if b then 1.0 else 0.0)
    case Number(x) => Some(x)
    case _ => None
  }

  datatype Key = Key(value: Val, q: Val, kv: Val, sink: Val)

  predicate Triple(v: Val) { v.Tuple? && |v.items| == 3 && v.items[0].Int? && v.items[1].Int? && v.items[2].Int? }

  /** _safe_wire_cache_key: only these may be looked up. */
  predicate Safe(k: Key) {
    && k.value.Tuple? && |k.value.items| == 9
    && var w := k.value.items;
    && w[0].Text? && w[1].Int? && w[2].Text? && w[3].Text?
    && w[4].Int? && w[5].Int? && w[6].Int? && w[7].Int?
    && w[8].Tuple? && (forall i | 0 <= i < |w[8].items| :: Triple(w[8].items[i]))
    && k.q.Int? && k.kv.Int? && k.sink.Int?
  }

  predicate KeyEq(a: Key, b: Key) { PyEq(a.value, b.value) && PyEq(a.q, b.q) && PyEq(a.kv, b.kv) && PyEq(a.sink, b.sink) }

  /** Among safe keys dictionary equality is identity: an integer never matches a
      boolean or a float that compares equal to it. */
  lemma SafeKeysAreExact(a: Key, b: Key)
    requires Safe(a) && Safe(b) && KeyEq(a, b)
    ensures a == b
  {
    var v, w := a.value.items, b.value.items;
    forall i | 0 <= i < 9 ensures v[i] == w[i] {
      assert PyEq(v[i], w[i]);
      if i == 8 { TriplesAreExact(v[8].items, w[8].items); }
    }
  }

  lemma TriplesAreExact(a: seq<Val>, b: seq<Val>)
    requires |a| == |b| && forall i | 0 <= i < |a| :: Triple(a[i]) && Triple(b[i]) && PyEq(a[i], b[i])
    ensures a == b
  {
    forall i | 0 <= i < |a| ensures a[i] == b[i] {
      assert PyEq(a[i].items[0], b[i].items[0]) && PyEq(a[i].items[1], b[i].items[1]) && PyEq(a[i].items[2], b[i].items[2]);
      assert a[i].items == b[i].items;
    }
  }

  /** Without that safety they would not: keys that differ compare equal. */
  lemma UnsafeKeysCollide()
    ensures KeyEq(Key(Int(1), Int(64), Int(64), Int(1)), Key(Bool(true), Int(64), Int(64), Number(1.0)))
    ensures !Safe(Key(Int(1), Int(64), Int(64), Int(1)))
    ensures !Safe(Key(Int(1), Int(64), Bool(true), Int(1)))
  {
  }

  lemma AcceptedIsSafe(k: Key, v: Validated)
    requires ValidatesTo(k.value, k.q, k.kv, k.sink, Ok(v))
    ensures Safe(k) && k == Key(WireOf(v), Int(v.qRows), Int(v.kvRows), Int(v.sinkRows))
  {
    WireRoundTrip(k.value, k.q, k.kv, k.sink, v);
  }

  // ----- what is accepted, field by field -----

  /** An accepted value is a tuple of these nine entries for just these rows, and its runs follow one
      another over the query rows, at positions that follow one another in the key range. */
  lemma AcceptedFields(value: Val, q: Val, kv: Val, sink: Val, v: Validated)
    requires ValidatesTo(value, q, kv, sink, Ok(v))
    ensures q == Int(v.qRows) && kv == Int(v.kvRows) && sink == Int(v.sinkRows)
    ensures value.Tuple? && |value.items| == 9 && value.items[8].Tuple?
    ensures value.items[..8] == [Text("vdn_query_positions"), Int(1), Text(v.owner), Text(v.plan), Int(v.group), Int(v.qRows), Int(v.kvRows), Int(v.sinkRows)]
    ensures v.owner != "" && |v.plan| == 64 && forall i | 0 <= i < 64 :: '0' <= v.plan[i] <= '9' || 'a' <= v.plan[i] <= 'f'
    ensures v.group <= 2147483647 && 1 <= v.qRows <= 2147483647 && 1 <= v.kvRows <= 2147483647 && v.sinkRows <= v.kvRows
    ensures |value.items[8].items| == |v.runs| > 0
    ensures forall i: nat | i < |v.runs| ::
              value.items[8].items[i] == Tuple([Int(v.runs[i].qBegin), Int(v.runs[i].qEnd), Int(v.runs[i].kvBegin)])
    ensures v.runs[0].qBegin == 0 && v.runs[|v.runs| - 1].qEnd == v.qRows
    ensures forall i: nat | i < |v.runs| :: v.runs[i].qBegin < v.runs[i].qEnd
    ensures forall i: nat | 0 < i < |v.runs| :: v.runs[i - 1].kvBegin + (v.runs[i - 1].qEnd - v.runs[i - 1].qBegin) <= v.runs[i].kvBegin
    ensures v.runs[|v.runs| - 1].kvBegin + (v.runs[|v.runs| - 1].qEnd - v.runs[|v.runs| - 1].qBegin) <= v.kvRows
    ensures forall i: nat | 0 < i < |v.runs| :: v.runs[i].qBegin == v.runs[i - 1].qEnd
  {
    WireRoundTrip(value, q, kv, sink, v);
    assert value == WireOf(v);
    forall i: nat | i < |v.runs| ensures value.items[8].items[i] == Tuple([Int(v.runs[i].qBegin), Int(v.runs[i].qEnd), Int(v.runs[i].kvBegin)]) {
      assert value.items[8].items[i] == RunVal(v.runs[i]);
    }
  }

  /** Every such tuple is accepted. */
  lemma FieldsAreAccepted(value: Val, v: Validated)
    requires value.Tuple? && |value.items| == 9 && value.items[8].Tuple?
    requires value.items[..8] == [Text("vdn_query_positions"), Int(1), Text(v.owner), Text(v.plan), Int(v.group), Int(v.qRows), Int(v.kvRows), Int(v.sinkRows)]
    requires v.owner != "" && |v.plan| == 64 && forall i | 0 <= i < 64 :: '0' <= v.plan[i] <= '9' || 'a' <= v.plan[i] <= 'f'
    requires v.group <= 2147483647 && 1 <= v.qRows <= 2147483647 && 1 <= v.kvRows <= 2147483647 && v.sinkRows <= v.kvRows
    requires |value.items[8].items| == |v.runs| > 0
    requires forall i: nat | i < |v.runs| ::
               value.items[8].items[i] == Tuple([Int(v.runs[i].qBegin), Int(v.runs[i].qEnd), Int(v.runs[i].kvBegin)])
    requires v.runs[0].qBegin == 0 && v.runs[|v.runs| - 1].qEnd == v.qRows
    requires forall i: nat | i < |v.runs| :: v.runs[i].qBegin < v.runs[i].qEnd
    requires forall i: nat | 0 < i < |v.runs| :: v.runs[i - 1].kvBegin + (v.runs[i - 1].qEnd - v.runs[i - 1].qBegin) <= v.runs[i].kvBegin
    requires v.runs[|v.runs| - 1].kvBegin + (v.runs[|v.runs| - 1].qEnd - v.runs[|v.runs| - 1].qBegin) <= v.kvRows
    requires forall i: nat | 0 < i < |v.runs| :: v.runs[i].qBegin == v.runs[i - 1].qEnd
    requires v.aligned <==> v.qRows == v.kvRows && forall i: nat | i < |v.runs| :: v.runs[i].kvBegin == v.runs[i].qBegin
    ensures ValidatesTo(value, Int(v.qRows), Int(v.kvRows), Int(v.sinkRows), Ok(v))
    ensures forall r :: ValidatesTo(value, Int(v.qRows), Int(v.kvRows), Int(v.sinkRows), r) ==> r == Ok(v)
  {
    HeaderPasses(value, v);
    RunsAreProper(v.runs, v.qRows, v.kvRows);
    RunsAreMirrored(value.items[8].items, v.runs);
    var h := value.items[..8];
    assert value.items[2] == h[2] && value.items[3] == h[3] && value.items[4] == h[4] && value.items[5] == h[5] && value.items[6] == h[6] && value.items[7] == h[7];
    hide HeaderFault, ProperRuns, RawRuns, Mirrors, Fault;
    assert ValidatesTo(value, Int(v.qRows), Int(v.kvRows), Int(v.sinkRows), Ok(v));
    hide ValidatesTo;
    forall r | ValidatesTo(value, Int(v.qRows), Int(v.kvRows), Int(v.sinkRows), r) ensures r == Ok(v) {
      ValidationIsUnique(value, Int(v.qRows), Int(v.kvRows), Int(v.sinkRows), r, Ok(v));
    }
  }

  lemma HeaderPasses(value: Val, v: Validated)
    requires value.Tuple? && |value.items| == 9 && value.items[8].Tuple? && value.items[8].items != []
    requires value.items[..8] == [Text("vdn_query_positions"), Int(1), Text(v.owner), Text(v.plan), Int(v.group), Int(v.qRows), Int(v.kvRows), Int(v.sinkRows)]
    requires v.owner != "" && |v.plan| == 64 && forall i | 0 <= i < 64 :: '0' <= v.plan[i] <= '9' || 'a' <= v.plan[i] <= 'f'
    requires v.group <= 2147483647 && 1 <= v.qRows <= 2147483647 && 1 <= v.kvRows <= 2147483647 && v.sinkRows <= v.kvRows
    ensures HeaderFault(value, Int(v.qRows), Int(v.kvRows), Int(v.sinkRows)).Ok?
  {
    var w, h := value.items, value.items[..8];
    assert w[0] == h[0] && w[1] == h[1] && w[2] == h[2] && w[3] == h[3] && w[4] == h[4] && w[5] == h[5] && w[6] == h[6] && w[7] == h[7];
  }

  lemma RunsAreMirrored(items: seq<Val>, runs: seq<Run>)
    requires |items| == |runs|
    requires forall i: nat | i < |runs| :: items[i] == Tuple([Int(runs[i].qBegin), Int(runs[i].qEnd), Int(runs[i].kvBegin)])
    ensures Mirrors(RawRuns(items), runs)
  {
  }

  lemma RunsAreProper(runs: seq<Run>, qRows: nat, kvRows: nat)
    requires runs != [] && runs[0].qBegin == 0 && runs[|runs| - 1].qEnd == qRows
    requires forall i: nat | i < |runs| :: runs[i].qBegin < runs[i].qEnd
    requires forall i: nat | 0 < i < |runs| :: runs[i - 1].kvBegin + (runs[i - 1].qEnd - runs[i - 1].qBegin) <= runs[i].kvBegin
    requires runs[|runs| - 1].kvBegin + (runs[|runs| - 1].qEnd - runs[|runs| - 1].qBegin) <= kvRows
    requires forall i: nat | 0 < i < |runs| :: runs[i].qBegin == runs[i - 1].qEnd
    ensures ProperRuns(runs, qRows, kvRows)
  {
    forall i: nat, j: nat | i < j < |runs|
      ensures runs[i].qEnd <= runs[j].qBegin && runs[i].kvBegin + (runs[i].qEnd - runs[i].qBegin) <= runs[j].kvBegin
    {
      RunsFollow(runs, i, j);
    }
    LastReach(runs, kvRows);
  }

  lemma {:induction false} RunsFollow(runs: seq<Run>, i: nat, j: nat)
    requires i < j < |runs|
    requires forall k: nat | k < |runs| :: runs[k].qBegin < runs[k].qEnd
    requires forall k: nat | 0 < k < |runs| :: runs[k - 1].kvBegin + (runs[k - 1].qEnd - runs[k - 1].qBegin) <= runs[k].kvBegin
    requires forall k: nat | 0 < k < |runs| :: runs[k].qBegin == runs[k - 1].qEnd
    ensures runs[i].qEnd <= runs[j].qBegin && runs[i].kvBegin + (runs[i].qEnd - runs[i].qBegin) <= runs[j].kvBegin
    decreases j
  {
    if i + 1 < j { RunsFollow(runs, i, j - 1); }
  }

  lemma LastReach(runs: seq<Run>, kvRows: nat)
    requires runs != [] && runs[|runs| - 1].kvBegin + (runs[|runs| - 1].qEnd - runs[|runs| - 1].qBegin) <= kvRows
    requires forall k: nat | k < |runs| :: runs[k].qBegin < runs[k].qEnd
    requires forall i: nat, j: nat | i < j < |runs| :: runs[i].kvBegin + (runs[i].qEnd - runs[i].qBegin) <= runs[j].kvBegin
    ensures forall i: nat | i < |runs| :: runs[i].kvBegin + (runs[i].qEnd - runs[i].qBegin) <= kvRows
  {
  }
}
