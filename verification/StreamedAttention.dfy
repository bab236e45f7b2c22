/**
 Two-pass streamed attention: keys and values of all rows are projected first, chunk by
 chunk; then queries are projected again, chunk by chunk, and each chunk is attended with
 its origin in the whole sequence.
*/
module StreamedAttention {
  import opened Basics
  import opened SparseAttention
  import opened Qualification
  import opened SparseRequest

  /** One projected row. */
  datatype Row = Row(q: Vector, k: Vector, v: real)

  /** A projection of row ranges that treats every row by itself. */
  ghost predicate RowWise(project: (nat, nat) -> seq<Row>, rows: nat) {
    forall start: nat, stop: nat | start <= stop <= rows :: project(start, stop) == Slice(project(0, rows), start, stop) && |project(start, stop)| == stop - start
  }

  function Queries(rows: seq<Row>): (q: seq<Vector>)
    ensures |q| == |rows| && forall i: nat | i < |rows| :: q[i] == rows[i].q
  {
    seq(|rows|, i requires 0 <= i < |rows| => rows[i].q)
  }

  function Keys(rows: seq<Row>): (k: seq<Vector>)
    ensures |k| == |rows| && forall i: nat | i < |rows| :: k[i] == rows[i].k
  {
    seq(|rows|, i requires 0 <= i < |rows| => rows[i].k)
  }

  function Values(rows: seq<Row>): (v: seq<real>)
    ensures |v| == |rows| && forall i: nat | i < |rows| :: v[i] == rows[i].v
  {
    seq(|rows|, i requires 0 <= i < |rows| => rows[i].v)
  }

  /** All chunks' tensors lie on one device, with one element type and packed. */
  const PACKED := "packed"

  /** One attention call on the query rows start..stop of the sequence, keys and values
      being those of all rows. */
  function ChunkArgs(all: seq<Row>, prefix: int, start: nat, stop: nat): Args
    requires start <= stop <= |all|
  {
    Args(Queries(all)[start..stop], Keys(all), Values(all), prefix, true, None, None, None, None, None, start, true, PACKED)
  }

  /** The unstreamed call. */
  function WholeArgs(all: seq<Row>, prefix: int): Args { ChunkArgs(all, prefix, 0, |all|).(workspace := false) }

  /** copy_ of the next slice: a buffer that holds `whole` up to `start` then holds it up to
      the end of the slice. */
  method CopyInto<T>(a: array<T>, start: nat, src: seq<T>, ghost whole: seq<T>)
    requires start + |src| <= a.Length == |whole|
    requires a[..start] == whole[..start] && src == whole[start..start + |src|]
    modifies a
    ensures a[..start + |src|] == whole[..start + |src|]
  {
    for i := 0 to |src|
      invariant a[..start + i] == whole[..start + i]
    {
      a[start + i] := src[i];
    }
  }

  /** The first pass: K and V buffers of all rows. */
  method ProjectKeys(project: (nat, nat) -> seq<Row>, rows: nat, chunk: nat) returns (k: array<Vector>, v: array<real>)
    requires RowWise(project, rows) && chunk > 0
    ensures fresh(k) && fresh(v) && k[..] == Keys(project(0, rows)) && v[..] == Values(project(0, rows))
  {
    ghost var all := project(0, rows);
    k, v := new Vector[rows](_ => []), new real[rows](_ => 0.0);
    var start := 0;
    while start < rows
      invariant k.Length == v.Length == rows == |all| && fresh(k) && fresh(v)
      invariant k[..Min(start, rows)] == Keys(all)[..Min(start, rows)]
      invariant v[..Min(start, rows)] == Values(all)[..Min(start, rows)]
      decreases rows - start
    {
      var stop := Min(start + chunk, rows);
      var part := project(start, stop);
      assert part == all[start..stop];
      assert Keys(part) == Keys(all)[start..stop] && Values(part) == Values(all)[start..stop];
      CopyInto(k, start, Keys(part), Keys(all));
      CopyInto(v, start, Values(part), Values(all));
      start := start + chunk;
    }
    assert k[..rows] == k[..] && v[..rows] == v[..];
  }

  // ----- the chunks of a run -----

  /** The first row of chunk n. */
  function Origin(n: nat, chunk: nat): nat { n * chunk }

  lemma OriginStep(n: nat, chunk: nat)
    ensures Origin(0, chunk) == 0 && Origin(n + 1, chunk) == Origin(n, chunk) + chunk
  {
  }

  lemma {:induction false} OriginGrows(m: nat, n: nat, chunk: nat)
    requires m <= n
    ensures Origin(m, chunk) <= Origin(n, chunk)
    decreases n
  {
    if m < n {
      OriginGrows(m, n - 1, chunk);
      OriginStep(n - 1, chunk);
    }
  }

  /** The call of chunk n. */
  function ChunkCall(all: seq<Row>, prefix: int, chunk: nat, n: nat): Args
    requires Origin(n, chunk) < |all|
  {
    ChunkArgs(all, prefix, Origin(n, chunk), Min(Origin(n, chunk) + chunk, |all|))
  }

  /** The kinds of the first n chunks' calls. */
  function ChunkKeys(all: seq<Row>, prefix: int, chunk: nat, n: nat): set<Key> {
    if n == 0 then {}
    else ChunkKeys(all, prefix, chunk, n - 1) + if Origin(n - 1, chunk) < |all| then {KeyOf(ChunkCall(all, prefix, chunk, n - 1))} else {}
  }

  /** No two chunks have calls of one kind, because no two have one origin. */
  lemma {:induction false} KeysBehind(all: seq<Row>, prefix: int, chunk: nat, n: nat, key: Key)
    requires chunk > 0 && key in ChunkKeys(all, prefix, chunk, n)
    ensures key.queryStart < Origin(n, chunk)
    decreases n
  {
    OriginStep(n - 1, chunk);
    if key in ChunkKeys(all, prefix, chunk, n - 1) { KeysBehind(all, prefix, chunk, n - 1, key); }
  }

  /** A valid call whose kind is not among the verified ones and does not qualify. */
  ghost predicate Rejected(p: Provider, verified: set<Key>, a: Args) {
    p.Shaped() && FaultOf(a).None? && KeyOf(a) !in verified && !Qualifies(p, CallOf(a))
  }

  ghost predicate ChunkRejected(p: Provider, verified: set<Key>, all: seq<Row>, prefix: int, chunk: nat, n: nat) {
    Origin(n, chunk) < |all| && Rejected(p, verified, ChunkCall(all, prefix, chunk, n))
  }

  /** One chunk of the second pass. */
  method AttendChunk(request: Request, project: (nat, nat) -> seq<Row>, ghost all: seq<Row>, k: seq<Vector>, v: seq<real>,
                     prefix: int, start: nat, stop: nat, fused: bool) returns (r: Result)
    requires request.Valid() && request.provider.RowLocal() && RowWise(project, |all|) && all == project(0, |all|)
    requires k == Keys(all) && v == Values(all)
    requires start < stop <= |all| && start % 64 == 0 && (stop % 64 == 0 || stop == |all|)
    modifies request
    ensures request.Valid()
    ensures r.Out? ==> FaultOf(WholeArgs(all, prefix)).None? && r.rows == Expected(request.provider, WholeArgs(all, prefix))[start..stop]
    ensures !(0 <= prefix <= |all|) ==> r == Refused(Invalid(Sink))
    ensures 0 <= prefix <= |all| ==>
              r.Out? || r == Refused(GateFailed)
    ensures r == Refused(GateFailed) <==> Rejected(request.provider, old(request.verified), ChunkArgs(all, prefix, start, stop))
    ensures request.verified == if r.Out? then old(request.verified) + {KeyOf(ChunkArgs(all, prefix, start, stop))} else old(request.verified)
  {
    hide Expected, Qualifies;
    var part := project(start, stop);
    assert part == all[start..stop];
    assert Queries(part) == Queries(all)[start..stop];
    var a := Args(Queries(part), k, v, prefix, true, None, None, None, None, None, start, true, PACKED);
    assert a == ChunkArgs(all, prefix, start, stop);
    ChunkFault(all, prefix, start, stop);
    r := request.Attention(a, fused);
    if r.Out? { ChunkIsSlice(request.provider, all, prefix, start, stop); }
  }

  /** The rows of the first chunks are those of the unstreamed call. */
  ghost predicate Holds(out: seq<real>, p: Provider, all: seq<Row>, prefix: int, n: nat, start: nat) {
    && p.Shaped() && |out| == |all|
    && (n > 0 ==> FaultOf(WholeArgs(all, prefix)).None? && out[..Min(start, |all|)] == Expected(p, WholeArgs(all, prefix))[..Min(start, |all|)])
  }

  /** The same for chunk n of a run, with its rows stored behind those of the chunks before. */
  method StoreChunk(request: Request, project: (nat, nat) -> seq<Row>, ghost all: seq<Row>, k: seq<Vector>, v: seq<real>,
                    prefix: int, chunk: nat, n: nat, start: nat, fused: bool, output: array<real>) returns (r: Result)
    requires request.Valid() && request.provider.RowLocal() && RowWise(project, |all|) && all == project(0, |all|)
    requires k == Keys(all) && v == Values(all) && output.Length == |all|
    requires chunk > 0 && chunk % 64 == 0 && start % 64 == 0 && start == Origin(n, chunk) < |all| && (n == 0 ==> start == 0)
    requires Holds(output[..], request.provider, all, prefix, n, start)
    modifies request, output
    ensures request.Valid()
    ensures !(0 <= prefix <= |all|) ==> r == Refused(Invalid(Sink))
    ensures 0 <= prefix <= |all| ==> r.Out? || r == Refused(GateFailed)
    ensures r == Refused(GateFailed) <==> ChunkRejected(request.provider, old(request.verified), all, prefix, chunk, n)
    ensures request.verified == if r.Out? then old(request.verified) + {KeyOf(ChunkCall(all, prefix, chunk, n))} else old(request.verified)
    ensures r.Out? ==> Holds(output[..], request.provider, all, prefix, n + 1, start + chunk)
  {
    hide Expected, FaultOf, Provider.RowLocal, RowWise, Rejected, Provider.Shaped, Origin, Keys, Values, WholeArgs, KeyOf, Request.Valid, ChunkArgs;
    r := AttendChunk(request, project, all, k, v, prefix, start, Min(start + chunk, output.Length), fused);
    if r.Out? {
      ghost var whole := Expected(request.provider, WholeArgs(all, prefix));
      WholeLength(request.provider, all, prefix);
      CopyInto(output, start, r.rows, whole);
      assert output[..][..Min(start + chunk, |all|)] == output[..Min(start + chunk, |all|)];
    }
  }

  lemma WholeLength(p: Provider, all: seq<Row>, prefix: int)
    requires p.Shaped() && FaultOf(WholeArgs(all, prefix)).None?
    ensures |Expected(p, WholeArgs(all, prefix))| == |all|
  {
  }

  /** What has been verified and that nothing has been rejected, after n chunks. */
  ghost predicate Passed(p: Provider, before: set<Key>, verified: set<Key>, all: seq<Row>, prefix: int, chunk: nat, n: nat) {
    && verified == before + ChunkKeys(all, prefix, chunk, n)
    && (n > 0 ==> 0 <= prefix <= |all|)
    && forall m: nat | m < n :: !ChunkRejected(p, before, all, prefix, chunk, m)
  }

  lemma PassedStep(p: Provider, before: set<Key>, verified: set<Key>, all: seq<Row>, prefix: int, chunk: nat, n: nat)
    requires chunk > 0 && Origin(n, chunk) < |all| && Passed(p, before, verified, all, prefix, chunk, n)
    ensures ChunkRejected(p, verified, all, prefix, chunk, n) <==> ChunkRejected(p, before, all, prefix, chunk, n)
    ensures 0 <= prefix <= |all| && !ChunkRejected(p, before, all, prefix, chunk, n) ==>
              Passed(p, before, verified + {KeyOf(ChunkCall(all, prefix, chunk, n))}, all, prefix, chunk, n + 1)
  {
    NewKind(p, before, all, prefix, chunk, n);
  }

  /** What a run gives, once its chunk size is accepted: refused exactly for a bad prefix or a
      rejected chunk, else the unstreamed rows, with every chunk's kind verified. */
  ghost predicate RunOutcome(p: Provider, before: set<Key>, verified: set<Key>, all: seq<Row>, prefix: int, chunk: nat, r: Result)
    requires p.Shaped()
  {
    && (|all| > 0 && !(0 <= prefix <= |all|) ==> r == Refused(Invalid(Sink)))
    && (|all| == 0 || 0 <= prefix <= |all| ==>
          (r.Out? || r == Refused(GateFailed))
          && (r == Refused(GateFailed) <==> exists n: nat :: ChunkRejected(p, before, all, prefix, chunk, n)))
    && (r.Out? && |all| > 0 ==> FaultOf(WholeArgs(all, prefix)).None? && r.rows == Expected(p, WholeArgs(all, prefix)))
    && (r.Out? ==> forall n: nat | Origin(n, chunk) < |all| :: KeyOf(ChunkCall(all, prefix, chunk, n)) in verified)
    && (r.Refused? ==> r.why != ChunkSize)
  }

  /** The second pass. */
  method AttendAll(request: Request, project: (nat, nat) -> seq<Row>, ghost all: seq<Row>, k: seq<Vector>, v: seq<real>,
                   rows: nat, prefix: int, chunk: nat, fused: bool) returns (r: Result)
    requires request.Valid() && request.provider.Shaped() && request.provider.RowLocal() && RowWise(project, rows)
    requires all == project(0, rows) && |all| == rows && k == Keys(all) && v == Values(all) && chunk > 0 && chunk % 64 == 0
    modifies request
    ensures request.Valid() && RunOutcome(request.provider, old(request.verified), request.verified, all, prefix, chunk, r)
  {
    hide Expected, FaultOf, Provider.RowLocal, RowWise, Keys, Values, Request.Valid, Provider.Shaped, WholeArgs,
         ChunkRejected, Origin, ChunkCall, Holds, Passed, KeyOf, RunOutcome;
    ghost var p, before := request.provider, request.verified;
    var output := new real[rows](_ => 0.0);
    var start: nat, n: nat := 0, 0;
    OriginStep(0, chunk);
    RunBegins(output[..], p, before, all, prefix, chunk);
    while start < rows
      invariant start % 64 == 0 && fresh(output) && output.Length == rows && start == Origin(n, chunk) && (n == 0 ==> start == 0)
      invariant request.Valid() && Passed(p, before, request.verified, all, prefix, chunk, n)
      invariant Holds(output[..], p, all, prefix, n, start)
      decreases rows - start
    {
      ghost var verified := request.verified;
      PassedStep(p, before, verified, all, prefix, chunk, n);
      r := StoreChunk(request, project, all, k, v, prefix, chunk, n, start, fused, output);
      if r.Refused? {
        RunRefused(p, before, verified, request.verified, all, prefix, chunk, n, r);
        return;
      }
      OriginStep(n, chunk);
      start, n := start + chunk, n + 1;
    }
    RunEnds(output[..], p, before, request.verified, all, prefix, chunk, n, start);
    r := Out(output[..]);
  }

  /** The whole streamed invocation.  It is refused exactly for a bad chunk size, for a prefix
      outside the sequence, or because some chunk of this run is of a kind that had not been
      verified before and does not qualify; and what it returns otherwise is what one unstreamed
      call with the same provider returns, every chunk's kind being verified then. */
  method Streamed(request: Request, project: (nat, nat) -> seq<Row>, rows: nat, prefix: int, chunk: int, fused: bool)
    returns (r: Result)
    requires request.Valid() && request.provider.Shaped() && request.provider.RowLocal() && RowWise(project, rows)
    modifies request
    ensures request.Valid()
    ensures r == Refused(ChunkSize) <==> chunk <= 0 || chunk % 64 != 0
    ensures r != Refused(ChunkSize) ==> RunOutcome(request.provider, old(request.verified), request.verified, project(0, rows), prefix, chunk, r)
  {
    if chunk <= 0 || chunk % 64 != 0 { return Refused(ChunkSize); }
    ghost var all := project(0, rows);
    assert |all| == rows;
    var k, v := ProjectKeys(project, rows, chunk);
    hide Keys, Values, RowWise, Provider.RowLocal, Request.Valid, ChunkRejected, ChunkCall;
    r := AttendAll(request, project, all, k[..], v[..], rows, prefix, chunk, fused);
  }

  lemma RunBegins(out: seq<real>, p: Provider, before: set<Key>, all: seq<Row>, prefix: int, chunk: nat)
    requires p.Shaped() && |out| == |all|
    ensures Holds(out, p, all, prefix, 0, 0) && Passed(p, before, before, all, prefix, chunk, 0)
  {
  }

  lemma RunRefused(p: Provider, before: set<Key>, verified: set<Key>, after: set<Key>, all: seq<Row>, prefix: int, chunk: nat, n: nat, r: Result)
    requires p.Shaped() && chunk > 0 && Origin(n, chunk) < |all| && Passed(p, before, verified, all, prefix, chunk, n)
    requires !(0 <= prefix <= |all|) ==> r == Refused(Invalid(Sink))
    requires 0 <= prefix <= |all| ==> r == Refused(GateFailed) && ChunkRejected(p, verified, all, prefix, chunk, n)
    ensures RunOutcome(p, before, after, all, prefix, chunk, r)
  {
    hide Expected, FaultOf, ChunkRejected, ChunkCall, KeyOf, WholeArgs, Origin;
    PassedStep(p, before, verified, all, prefix, chunk, n);
  }

  lemma RunEnds(out: seq<real>, p: Provider, before: set<Key>, verified: set<Key>, all: seq<Row>, prefix: int, chunk: nat, n: nat, start: nat)
    requires p.Shaped() && |all| <= start == Origin(n, chunk) && (n == 0 ==> start == 0)
    requires Holds(out, p, all, prefix, n, start) && Passed(p, before, verified, all, prefix, chunk, n)
    ensures RunOutcome(p, before, verified, all, prefix, chunk, Out(out))
  {
    hide Expected, FaultOf, ChunkRejected, ChunkCall, KeyOf, WholeArgs, Origin;
    if |all| > 0 { WholeLength(p, all, prefix); }
    AllChunksDone(p, before, all, prefix, chunk, n);
    assert out[..|all|] == out;
  }

  /** The chunks before it do not verify a chunk's kind. */
  lemma NewKind(p: Provider, verified: set<Key>, all: seq<Row>, prefix: int, chunk: nat, n: nat)
    requires chunk > 0
    ensures ChunkRejected(p, verified + ChunkKeys(all, prefix, chunk, n), all, prefix, chunk, n) <==> ChunkRejected(p, verified, all, prefix, chunk, n)
  {
    if Origin(n, chunk) < |all| {
      var key := KeyOf(ChunkCall(all, prefix, chunk, n));
      if key in ChunkKeys(all, prefix, chunk, n) { KeysBehind(all, prefix, chunk, n, key); }
    }
  }

  lemma AllChunksDone(p: Provider, verified: set<Key>, all: seq<Row>, prefix: int, chunk: nat, n: nat)
    requires |all| <= Origin(n, chunk) && forall m: nat | m < n :: !ChunkRejected(p, verified, all, prefix, chunk, m)
    ensures forall m: nat :: !ChunkRejected(p, verified, all, prefix, chunk, m)
    ensures forall m: nat | Origin(m, chunk) < |all| :: KeyOf(ChunkCall(all, prefix, chunk, m)) in ChunkKeys(all, prefix, chunk, n)
  {
    forall m: nat ensures Origin(m, chunk) < |all| ==> m < n {
      if n <= m { OriginGrows(n, m, chunk); }
    }
    forall m: nat | Origin(m, chunk) < |all| ensures KeyOf(ChunkCall(all, prefix, chunk, m)) in ChunkKeys(all, prefix, chunk, n) {
      KeyIsListed(all, prefix, chunk, m, n);
    }
  }

  lemma {:induction false} KeyIsListed(all: seq<Row>, prefix: int, chunk: nat, m: nat, n: nat)
    requires m < n && Origin(m, chunk) < |all|
    ensures KeyOf(ChunkCall(all, prefix, chunk, m)) in ChunkKeys(all, prefix, chunk, n)
    decreases n
  {
    if m < n - 1 { KeyIsListed(all, prefix, chunk, m, n - 1); }
  }

  /** A chunk's call is as valid as the whole one. */
  lemma ChunkFault(all: seq<Row>, prefix: int, start: nat, stop: nat)
    requires start < stop <= |all| && start % 64 == 0
    ensures FaultOf(ChunkArgs(all, prefix, start, stop)) == FaultOf(WholeArgs(all, prefix))
    ensures FaultOf(WholeArgs(all, prefix)) == if 0 <= prefix <= |all| then None else Some(Sink)
  {
  }

  /** A chunk's result is that slice of the unstreamed one: the prefix rows recomputed
      densely in the chunk are exactly those of the whole that lie in it. */
  lemma ChunkIsSlice(p: Provider, all: seq<Row>, prefix: int, start: nat, stop: nat)
    requires p.Shaped() && p.RowLocal() && start < stop <= |all| && start % 64 == 0 && (stop % 64 == 0 || stop == |all|)
    requires FaultOf(WholeArgs(all, prefix)).None? && FaultOf(ChunkArgs(all, prefix, start, stop)).None?
    ensures Expected(p, ChunkArgs(all, prefix, start, stop)) == Expected(p, WholeArgs(all, prefix))[start..stop]
  {
    var whole, part := WholeArgs(all, prefix), ChunkArgs(all, prefix, start, stop);
    var c := CallOf(whole);
    assert Queries(all)[0..|all|] == Queries(all);
    assert CallOf(part) == Portion(c, start, stop);
    assert p.KernelSplits(c, start, stop) && p.KernelShape(c) && p.KernelShape(CallOf(part));
    var n, m := PrefixQueries(whole), PrefixQueries(part);
    assert n == prefix && m == if prefix <= start then 0 else Min(prefix, stop) - start;
    DensePrefix(p, whole, start, start + m);
    assert part.q[..m] == whole.q[start..start + m];
    assert p.DenseShape(whole.q[..n], whole.k, whole.v, whole.bias);
    Splice(p.dense(whole.q[..n], whole.k, whole.v, whole.bias), p.kernel(c), start, stop, m);
  }

  lemma Splice(d: seq<real>, s: seq<real>, start: nat, stop: nat, m: nat)
    requires |d| <= |s| && start <= stop <= |s| && m == if |d| <= start then 0 else Min(|d|, stop) - start
    ensures (d + s[|d|..])[start..stop] == (if m > 0 then d[start..start + m] else []) + s[start..stop][m..]
  {
    var left, right := (d + s[|d|..])[start..stop], (if m > 0 then d[start..start + m] else []) + s[start..stop][m..];
    assert |left| == |right|;
    forall i | 0 <= i < |left| ensures left[i] == right[i] {
      assert left[i] == (d + s[|d|..])[start + i];
    }
  }

  /** Dense rows do not depend on how many of them are asked for at once. */
  lemma DensePrefix(p: Provider, a: Args, start: nat, stop: nat)
    requires p.Shaped() && p.RowLocal() && a.k != [] && start <= stop <= |a.q| && (start < stop ==> stop <= PrefixQueries(a))
    ensures start < stop ==> |p.dense(a.q[..PrefixQueries(a)], a.k, a.v, a.bias)| == PrefixQueries(a)
    ensures start < stop ==> p.dense(a.q[start..stop], a.k, a.v, a.bias) == p.dense(a.q[..PrefixQueries(a)], a.k, a.v, a.bias)[start..stop]
    ensures start == stop ==> p.dense(a.q[start..stop], a.k, a.v, a.bias) == []
  {
    var n := PrefixQueries(a);
    assert p.DenseShape(a.q[..n], a.k, a.v, a.bias) && p.DenseShape(a.q[start..stop], a.k, a.v, a.bias);
    assert p.DenseSplits(a.q[..n], a.k, a.v, a.bias, start, stop);
    if start < stop { assert a.q[..n][start..stop] == a.q[start..stop]; }
  }

  /** In exact arithmetic no chunk is rejected, ... */
  lemma NeverRejected(op: Operator, p: Provider, verified: set<Key>, all: seq<Row>, prefix: int, chunk: nat, n: nat)
    requires p.Exact(op) && p.Shaped()
    ensures !ChunkRejected(p, verified, all, prefix, chunk, n)
  {
    if Origin(n, chunk) < |all| && FaultOf(ChunkCall(all, prefix, chunk, n)).None? {
      ExactQualifies(op, p, CallOf(ChunkCall(all, prefix, chunk, n)));
    }
  }

  /** ... and the densely recomputed rows, over all chunks, are exactly those before the
      prefix's end; every other row is the sparse operator's on the whole sequence. */
  lemma StreamedRow(op: Operator, p: Provider, all: seq<Row>, prefix: int, i: nat)
    requires p.Exact(op) && p.Shaped() && 0 <= prefix <= |all| && i < |all| && FaultOf(WholeArgs(all, prefix)).None?
    ensures Expected(p, WholeArgs(all, prefix))[i] ==
      if i < prefix then DenseRow(op, all[i].q, Keys(all), Values(all), None)
      else KernelRow(op, Call(Queries(all), Keys(all), Values(all), None, 0, 0, prefix, None), i)
  {
    ExpectedRows(op, p, WholeArgs(all, prefix), i);
    assert Queries(all)[0..|all|] == Queries(all);
  }

  // ----- the calls of a run, written out -----

  /** The unstreamed result, whatever the provider computes. */
  lemma UnstreamedRows(p: Provider, all: seq<Row>, prefix: nat)
    requires p.Shaped() && all != [] && prefix <= |all|
    ensures FaultOf(WholeArgs(all, prefix)).None?
    ensures var kernel := p.kernel(Call(Queries(all), Keys(all), Values(all), None, 0, 0, prefix, None));
            && |kernel| == |all|
            && Expected(p, WholeArgs(all, prefix)) == p.dense(Queries(all)[..prefix], Keys(all), Values(all), None) + kernel[prefix..]
  {
    assert Queries(all)[0..|all|] == Queries(all);
    ExpectedIs(p, WholeArgs(all, prefix));
  }

  /** A chunk that brings the run to an end: it starts a whole number of chunks into the sequence, no
      call at its origin with as many rows has been verified, and it does not qualify. */
  lemma RejectedExactly(p: Provider, verified: set<Key>, all: seq<Row>, prefix: nat, chunk: nat, n: nat, start: nat)
    requires p.Shaped() && prefix <= |all| && start == n * chunk && start % 64 == 0 && chunk > 0
    ensures ChunkRejected(p, verified, all, prefix, chunk, n) <==>
              && start < |all|
              && var stop := if start + chunk < |all| then start + chunk else |all|;
              && Key("packed", stop - start, |all|, None, false, start) !in verified
              && !Qualifies(p, Call(Queries(all)[start..stop], Keys(all), Values(all), None, start, 0, prefix, None))
  {
    hide Qualifies;
    if start < |all| { ChunkFault(all, prefix, start, Min(start + chunk, |all|)); }
  }
}
