/**
 One sparse attention call inside a request: validation, qualification once per kind of
 call, the kernel, and the dense recomputation of the prefix rows.
*/
module SparseRequest {
  import opened Basics
  import opened SparseAttention
  import opened Qualification

  datatype Args = Args(q: seq<Vector>, k: seq<Vector>, v: seq<real>, prefix: int, recompute: bool,
                       bias: Option<seq<real>>, exactBlocks: Option<(int, int)>, calibration: Option<string>,
                       mapped: Option<seq<(nat, nat)>>, mappedCalibration: Option<string>,
                       queryStart: int, workspace: bool, placement: string)

  datatype Fault = Geometry | Sink | Origin | PrefixRows | MappedShape | MappedMixed | MappedIdentity
                 | BiasShape | BiasIdentity | BiasBlocks | BlocksRange | UnusedMetadata

  datatype Reason = Invalid(fault: Fault) | GateFailed | ChunkSize

  datatype Result = Out(rows: seq<real>) | Refused(why: Reason)

  /** Everything attention() checks before it looks for a kernel, in its order. */
  function FaultOf(a: Args): Option<Fault> {
    var blocks := (|a.k| + 63) / 64;
    if |a.v| != |a.k| || a.q == [] || a.k == [] then Some(Geometry)
    else if a.prefix < 0 || a.prefix > |a.k| then Some(Sink)
    else if a.queryStart < 0 || a.queryStart % 64 != 0 then Some(Origin)
    else if a.recompute && a.queryStart == 0 && !a.workspace && a.prefix > |a.q| then Some(PrefixRows)
    else if a.mapped.Some? && |a.mapped.value| != (|a.q| + 63) / 64 then Some(MappedShape)
    else if a.mapped.Some? && (a.bias.Some? || a.exactBlocks.Some? || a.calibration.Some?) then Some(MappedMixed)
    else if a.mapped.None? && a.mappedCalibration.Some? then Some(MappedIdentity)
    else if a.bias.Some? then
      if |a.bias.value| != |a.k| then Some(BiasShape)
      else if a.calibration.None? || a.calibration.value == "" then Some(BiasIdentity)
      else if a.exactBlocks.None? then Some(BiasBlocks)
      else if a.exactBlocks.value.0 < 0 || a.exactBlocks.value.1 < a.exactBlocks.value.0 || a.exactBlocks.value.1 > blocks then Some(BlocksRange)
      else None
    else if a.mapped.None? && (a.exactBlocks.Some? || a.calibration.Some?) then Some(UnusedMetadata)
    else None
  }

  /** The kernel call that answers the arguments: the sink is the prefix, or the range of
      exact blocks. */
  function CallOf(a: Args): (c: Call)
    requires FaultOf(a).None?
    ensures c.Ok()
  {
    var sink := if a.exactBlocks.None? then (0, a.prefix) else SinkRows(|a.k|, (a.exactBlocks.value.0, a.exactBlocks.value.1));
    Call(a.q, a.k, a.v, a.bias, a.queryStart, sink.0, sink.1, a.mapped)
  }

  /** The kind of a call: where and how its tensors lie (device, element type and strides, as
      one opaque value), their geometry, and what routes them.  Values are not part of it: maps
      and tensors of one kind share one qualification. */
  datatype Key = Key(placement: string, qRows: nat, kvRows: nat, calibration: Option<string>, mapped: bool, queryStart: int)

  function KeyOf(a: Args): Key { Key(a.placement, |a.q|, |a.k|, a.calibration, a.mapped.Some?, a.queryStart) }

  /** Calls are of one kind exactly if they agree in all of these. */
  lemma SameKind(a: Args, b: Args)
    ensures KeyOf(a) == KeyOf(b) <==>
              && a.placement == b.placement && |a.q| == |b.q| && |a.k| == |b.k| && a.calibration == b.calibration
              && (a.mapped == None <==> b.mapped == None) && a.queryStart == b.queryStart
  {
  }

  /** How many of the call's rows belong to the prefix of the whole sequence. */
  function PrefixQueries(a: Args): (n: nat)
    ensures n <= |a.q|
  {
    if a.recompute && a.prefix > a.queryStart then
      if a.prefix - a.queryStart < |a.q| then a.prefix - a.queryStart else |a.q|
    else 0
  }

  /** What a successful call returns: dense prefix rows, sparse rows after them. */
  function Expected(p: Provider, a: Args): (out: seq<real>)
    requires p.Shaped() && FaultOf(a).None?
    ensures |out| == |a.q|
  {
    assert p.KernelShape(CallOf(a)) && p.DenseShape(a.q[..PrefixQueries(a)], a.k, a.v, a.bias);
    p.dense(a.q[..PrefixQueries(a)], a.k, a.v, a.bias) + p.kernel(CallOf(a))[PrefixQueries(a)..]
  }

  class Request {
    const provider: Provider
    var verified: set<Key>
    var sparseCalls: nat

    /** Every key in the verified set has passed its gate, on some call of that key. */
    ghost predicate Valid()
      reads this
    {
      && provider.Shaped()
      && forall key | key in verified :: Earned(provider, key)
    }

    constructor (provider: Provider)
      requires provider.Shaped()
      ensures Valid() && this.provider == provider && verified == {}
    {
      this.provider, verified, sparseCalls := provider, {}, 0;
    }

    /** attention(): refuses exactly the invalid calls and those whose kind has not
        qualified and does not now. */
    method Attention(a: Args, fused: bool) returns (r: Result)
      requires Valid()
      modifies this
      ensures Valid()
      ensures r.Refused? ==> r == if FaultOf(a).Some? then Refused(Invalid(FaultOf(a).value)) else Refused(GateFailed)
      ensures r.Out? ==> FaultOf(a).None?
      ensures r == Refused(GateFailed) <==> FaultOf(a).None? && KeyOf(a) !in old(verified) && !Qualifies(provider, CallOf(a))
      ensures r.Out? ==> r.rows == Expected(provider, a)
      ensures verified == if r.Out? then old(verified) + {KeyOf(a)} else old(verified)
      ensures sparseCalls == old(sparseCalls) + if r.Out? then 1 else 0
    {
      hide Qualifies;
      if FaultOf(a).Some? { return Refused(Invalid(FaultOf(a).value)); }
      var c := CallOf(a);
      if KeyOf(a) !in verified {
        var passed := Gate(provider, c, fused);
        if !passed { return Refused(GateFailed); }
        Earns(provider, a);
        verified := verified + {KeyOf(a)};
      }
      var out := provider.kernel(c);
      assert provider.KernelShape(c);
      var prefixQueries := if a.prefix - a.queryStart < 0 then 0 else a.prefix - a.queryStart;
      if prefixQueries > |a.q| { prefixQueries := |a.q|; }
      if prefixQueries > 0 && a.recompute {
        out := provider.dense(a.q[..prefixQueries], a.k, a.v, a.bias) + out[prefixQueries..];
      } else {
        assert provider.DenseShape(a.q[..0], a.k, a.v, a.bias);
      }
      sparseCalls := sparseCalls + 1;
      r := Out(out);
    }
  }

  ghost predicate Earned(p: Provider, key: Key) {
    exists a :: KeyOf(a) == key && p.Shaped() && FaultOf(a).None? && Qualifies(p, CallOf(a))
  }

  lemma Earns(p: Provider, a: Args)
    requires p.Shaped() && FaultOf(a).None? && Qualifies(p, CallOf(a))
    ensures Earned(p, KeyOf(a))
  {
  }

  /** In exact arithmetic a prefix row is the dense row and any other row the sparse one. */
  lemma ExpectedRows(op: Operator, p: Provider, a: Args, i: nat)
    requires p.Exact(op) && p.Shaped() && FaultOf(a).None? && i < |a.q|
    ensures Expected(p, a)[i] == if a.recompute && a.queryStart + i < a.prefix then DenseRow(op, a.q[i], a.k, a.v, a.bias) else KernelRow(op, CallOf(a), i)
  {
    hide Provider.Exact, Provider.Shaped, FaultOf, CallOf, KernelRow, DenseRow, Expected, PrefixQueries;
    var n := PrefixQueries(a);
    ExactParts(op, p, a, n);
    PrefixRange(a, i);
    var d, k := p.dense(a.q[..n], a.k, a.v, a.bias), p.kernel(CallOf(a));
    ExpectedIs(p, a);
    if i < n {
      assert (d + k[n..])[i] == d[i] && a.q[..n][i] == a.q[i];
    } else {
      assert (d + k[n..])[i] == k[n..][i - n] == k[i];
    }
  }

  lemma PrefixRange(a: Args, i: nat)
    requires i < |a.q|
    ensures i < PrefixQueries(a) <==> a.recompute && a.queryStart + i < a.prefix
  {
  }

  lemma ExpectedIs(p: Provider, a: Args)
    requires p.Shaped() && FaultOf(a).None?
    ensures |p.kernel(CallOf(a))| == |a.q|
    ensures Expected(p, a) == p.dense(a.q[..PrefixQueries(a)], a.k, a.v, a.bias) + p.kernel(CallOf(a))[PrefixQueries(a)..]
  {
    assert p.KernelShape(CallOf(a));
  }

  lemma ExactParts(op: Operator, p: Provider, a: Args, n: nat)
    requires p.Exact(op) && p.Shaped() && FaultOf(a).None? && n <= |a.q|
    ensures |p.dense(a.q[..n], a.k, a.v, a.bias)| == n && |p.kernel(CallOf(a))| == |a.q|
    ensures forall i: nat | i < n :: p.dense(a.q[..n], a.k, a.v, a.bias)[i] == DenseRow(op, a.q[..n][i], a.k, a.v, a.bias)
    ensures forall i: nat | i < |a.q| :: p.kernel(CallOf(a))[i] == KernelRow(op, CallOf(a), i)
  {
    hide KernelRow, DenseRow;
    assert p.KernelExact(op, CallOf(a)) && p.DenseExact(op, a.q[..n], a.k, a.v, a.bias);
    assert p.KernelShape(CallOf(a)) && p.DenseShape(a.q[..n], a.k, a.v, a.bias);
  }
}
