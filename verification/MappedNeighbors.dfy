/**
 The mapped-neighbour compiler: from an affine map of query rows to key positions to
 one interval of 64-key blocks per 64-row query tile, or a refusal.
*/
module MappedNeighbors {
  import Routing

  const MAX_WIDTH: nat := 4

  datatype Reason = Missing | Schema | Owner | Domain | Fragmented | IntervalWidth | MetadataBudget

  datatype Result<T> = Ok(value: T) | Unavailable(reason: Reason)

  /** Query rows qBegin..qEnd sit at consecutive key positions from kvBegin on. */
  datatype Run = Run(qBegin: nat, qEnd: nat, kvBegin: nat)

  type Interval = (nat, nat)

  /** The runs cover the query rows 0..qRows in order and their key positions strictly
      increase within 0..kvRows. */
  ghost predicate ProperRuns(runs: seq<Run>, qRows: nat, kvRows: nat) {
    && runs != [] && runs[0].qBegin == 0 && runs[|runs| - 1].qEnd == qRows
    && (forall i | 0 <= i < |runs| :: runs[i].qBegin < runs[i].qEnd && runs[i].kvBegin + (runs[i].qEnd - runs[i].qBegin) <= kvRows)
    && (forall i, j | 0 <= i < j < |runs| ::
          runs[i].qEnd <= runs[j].qBegin && runs[i].kvBegin + (runs[i].qEnd - runs[i].qBegin) <= runs[j].kvBegin)
    && (forall i | 0 < i < |runs| :: runs[i].qBegin == runs[i - 1].qEnd)
  }

  /** Row q is mapped to key position p. */
  predicate Maps(runs: seq<Run>, q: nat, p: nat) {
    exists i :: 0 <= i < |runs| && RunMaps(runs[i], q, p)
  }

  predicate RunMaps(run: Run, q: nat, p: nat) {
    run.qBegin <= q < run.qEnd && p == run.kvBegin + (q - run.qBegin)
  }

  /** Every row is mapped to a position inside the key range. */
  lemma EveryRowIsMapped(runs: seq<Run>, qRows: nat, kvRows: nat, q: nat) returns (i: nat, p: nat)
    requires ProperRuns(runs, qRows, kvRows) && q < qRows
    ensures i < |runs| && RunMaps(runs[i], q, p) && p < kvRows
  {
    i := 0;
    while runs[i].qEnd <= q
      invariant i < |runs| && runs[i].qBegin <= q
      decreases |runs| - i
    {
      i := i + 1;
    }
    p := runs[i].kvBegin + (q - runs[i].qBegin);
  }

  /** Positions strictly increase with rows; in particular a row has one position. */
  lemma PositionsIncrease(runs: seq<Run>, qRows: nat, kvRows: nat, q: nat, p: nat, q': nat, p': nat)
    requires ProperRuns(runs, qRows, kvRows) && Maps(runs, q, p) && Maps(runs, q', p')
    ensures q < q' ==> p < p'
    ensures q == q' ==> p == p'
  {
    var i :| 0 <= i < |runs| && RunMaps(runs[i], q, p);
    var j :| 0 <= j < |runs| && RunMaps(runs[j], q', p');
    assert i < j ==> runs[i].qEnd <= runs[j].qBegin;
    assert j < i ==> runs[j].qEnd <= runs[i].qBegin;
  }

  // ----- validation of the run list -----

  /** A run entry as it comes over the wire: three integers of any value. */
  type RawRun = (int, int, int)

  const INT32_MAX: int := 0x7FFF_FFFF

  predicate Strict(n: int, minimum: int) { minimum <= n <= INT32_MAX }

  /** The first fault found when the runs are read from run k on, if any. */
  function Fault(raw: seq<RawRun>, qRows: nat, kvRows: nat, k: nat, expectedQ: int, previous: int): (f: Result<()>)
    requires k <= |raw|
    decreases |raw| - k
  {
    if k == |raw| then if expectedQ == qRows then Ok(()) else Unavailable(Schema)
    else
      var (b, e, p) := raw[k];
      if Misplaced(raw[k], qRows, expectedQ) then Unavailable(Schema)
      else if OutOfRange(raw[k], kvRows, previous) then Unavailable(Domain)
      else Fault(raw, qRows, kvRows, k + 1, e, p + (e - b) - 1)
  }

  /** A faulty list has a first faulty entry: one that is no proper row range, or does not begin where
      the one before ended, is a schema fault; positions beyond the key range, or not beyond those of the
      entry before, are a domain fault; and rows left over at the end are a schema fault. */
  lemma {:induction false} FirstFault(raw: seq<RawRun>, qRows: nat, kvRows: nat, k: nat, expectedQ: int, previous: int) returns (at: nat)
    requires k <= |raw| && Fault(raw, qRows, kvRows, k, expectedQ, previous).Unavailable?
    requires k > 0 ==> expectedQ == raw[k - 1].1 && previous == raw[k - 1].2 + (raw[k - 1].1 - raw[k - 1].0) - 1
    requires k == 0 ==> expectedQ == 0 && previous == -1
    ensures k <= at <= |raw|
    ensures at == |raw| ==> (if at == 0 then 0 else raw[at - 1].1) != qRows
    ensures at < |raw| ==>
              var before := if at == 0 then 0 else raw[at - 1].1;
              var misplaced := raw[at].0 != before || raw[at].0 < 0 || raw[at].1 <= raw[at].0 || raw[at].1 > qRows || raw[at].2 < 0
                               || raw[at].0 > 2147483647 || raw[at].1 > 2147483647 || raw[at].2 > 2147483647;
              if Fault(raw, qRows, kvRows, k, expectedQ, previous) == Unavailable(Schema) then misplaced
              else !misplaced && (raw[at].2 + (raw[at].1 - raw[at].0) > kvRows
                                  || (at > 0 && raw[at].2 < raw[at - 1].2 + (raw[at - 1].1 - raw[at - 1].0)))
    ensures Fault(raw, qRows, kvRows, k, expectedQ, previous) == Unavailable(if at == |raw| then Schema else Fault(raw, qRows, kvRows, k, expectedQ, previous).reason)
    ensures Fault(raw, qRows, kvRows, k, expectedQ, previous).reason == Schema || Fault(raw, qRows, kvRows, k, expectedQ, previous).reason == Domain
    decreases |raw| - k
  {
    at := k;
    if k < |raw| && !Misplaced(raw[k], qRows, expectedQ) && !OutOfRange(raw[k], kvRows, previous) {
      at := FirstFault(raw, qRows, kvRows, k + 1, raw[k].1, raw[k].2 + (raw[k].1 - raw[k].0) - 1);
    }
  }

  predicate Mirrors(raw: seq<RawRun>, runs: seq<Run>) {
    |runs| == |raw| && forall i | 0 <= i < |raw| :: raw[i] == (runs[i].qBegin, runs[i].qEnd, runs[i].kvBegin)
  }

  predicate Aligned(runs: seq<Run>) { forall i | 0 <= i < |runs| :: runs[i].kvBegin == runs[i].qBegin }

  predicate Misplaced(entry: RawRun, qRows: nat, expectedQ: int) {
    || !Strict(entry.0, 0) || !Strict(entry.1, 1) || !Strict(entry.2, 0)
    || entry.0 != expectedQ || entry.1 <= entry.0 || entry.1 > qRows
  }

  predicate OutOfRange(entry: RawRun, kvRows: nat, previous: int) {
    entry.2 + (entry.1 - entry.0) > kvRows || entry.2 <= previous
  }

  function LastQ(runs: seq<Run>): int { if runs == [] then 0 else runs[|runs| - 1].qEnd }

  function LastPosition(runs: seq<Run>): int {
    if runs == [] then -1
    else runs[|runs| - 1].kvBegin as int + (runs[|runs| - 1].qEnd as int - runs[|runs| - 1].qBegin) - 1
  }

  /** Reads the runs in order.  It accepts exactly the proper run lists whose numbers
      fit in 32 bits, and reports the first fault otherwise. */
  method ReadRuns(raw: seq<RawRun>, qRows: nat, kvRows: nat) returns (r: Result<seq<Run>>, aligned: bool)
    requires raw != [] && qRows <= INT32_MAX && kvRows <= INT32_MAX
    ensures r.Ok? ==> Mirrors(raw, r.value) && ProperRuns(r.value, qRows, kvRows)
    ensures r.Ok? ==> aligned == (qRows == kvRows && Aligned(r.value))
    ensures r.Unavailable? ==> Fault(raw, qRows, kvRows, 0, 0, -1) == Unavailable(r.reason)
    ensures r.Unavailable? ==> !exists runs: seq<Run> :: Mirrors(raw, runs) && ProperRuns(runs, qRows, kvRows)
  {
    hide ProperRuns;
    var runs: seq<Run> := [];
    var expectedQ, previous := 0, -1;
    aligned := qRows == kvRows;
    for k := 0 to |raw|
      invariant Mirrors(raw[..k], runs) && Sound(runs, kvRows)
      invariant expectedQ == LastQ(runs) <= qRows && previous == LastPosition(runs)
      invariant Fault(raw, qRows, kvRows, 0, 0, -1) == Fault(raw, qRows, kvRows, k, expectedQ, previous)
      invariant aligned == (qRows == kvRows && Aligned(runs))
    {
      var (b, e, p) := raw[k];
      if Misplaced(raw[k], qRows, expectedQ) {
        NoRepair(raw, runs, k, qRows, kvRows);
        return Unavailable(Schema), aligned;
      }
      if OutOfRange(raw[k], kvRows, previous) {
        NoRepair(raw, runs, k, qRows, kvRows);
        return Unavailable(Domain), aligned;
      }
      aligned := aligned && p == b;
      SoundMore(runs, Run(b, e, p), kvRows);
      runs := runs + [Run(b, e, p)];
      expectedQ, previous := e, p + (e - b) - 1;
      assert raw[..k + 1] == raw[..k] + [raw[k]];
    }
    assert raw[..|raw|] == raw;
    if expectedQ != qRows {
      NoShortRepair(raw, runs, qRows, kvRows);
      return Unavailable(Schema), aligned;
    }
    return Ok(runs), aligned;
  }

  /** A proper run list as far as it has been read. */
  ghost predicate Sound(runs: seq<Run>, kvRows: nat) {
    runs == [] || ProperRuns(runs, runs[|runs| - 1].qEnd, kvRows)
  }

  lemma SoundMore(runs: seq<Run>, run: Run, kvRows: nat)
    requires Sound(runs, kvRows) && run.qBegin == LastQ(runs) && run.qBegin < run.qEnd
    requires run.kvBegin + (run.qEnd - run.qBegin) <= kvRows && run.kvBegin > LastPosition(runs)
    ensures Sound(runs + [run], kvRows)
  {
    var n := |runs|;
    forall i, j | 0 <= i < j < n + 1
      ensures var rs := runs + [run];
              rs[i].qEnd <= rs[j].qBegin && rs[i].kvBegin + (rs[i].qEnd - rs[i].qBegin) <= rs[j].kvBegin
    {
      if j == n && i < n - 1 { assert runs[i].qEnd <= runs[n - 1].qBegin; }
    }
  }

  lemma GoodEntry(raw: seq<RawRun>, prefix: seq<Run>, runs: seq<Run>, k: nat, qRows: nat, kvRows: nat)
    requires k < |raw| && Mirrors(raw[..k], prefix) && Mirrors(raw, runs) && ProperRuns(runs, qRows, kvRows)
    requires qRows <= INT32_MAX && kvRows <= INT32_MAX
    ensures !Misplaced(raw[k], qRows, LastQ(prefix)) && !OutOfRange(raw[k], kvRows, LastPosition(prefix))
  {
    assert raw[k] == (runs[k].qBegin, runs[k].qEnd, runs[k].kvBegin);
    if k > 0 { assert raw[..k][k - 1] == raw[k - 1]; }
    if k < |runs| - 1 { assert runs[k].qEnd <= runs[|runs| - 1].qBegin; }
  }

  /** A raw list that fails at entry k mirrors no proper run list. */
  lemma NoRepair(raw: seq<RawRun>, prefix: seq<Run>, k: nat, qRows: nat, kvRows: nat)
    requires k < |raw| && Mirrors(raw[..k], prefix) && qRows <= INT32_MAX && kvRows <= INT32_MAX
    requires Misplaced(raw[k], qRows, LastQ(prefix)) || OutOfRange(raw[k], kvRows, LastPosition(prefix))
    ensures !exists runs: seq<Run> :: Mirrors(raw, runs) && ProperRuns(runs, qRows, kvRows)
  {
    forall runs: seq<Run> | Mirrors(raw, runs) ensures !ProperRuns(runs, qRows, kvRows) {
      if ProperRuns(runs, qRows, kvRows) { GoodEntry(raw, prefix, runs, k, qRows, kvRows); }
    }
  }

  lemma NoShortRepair(raw: seq<RawRun>, read: seq<Run>, qRows: nat, kvRows: nat)
    requires raw != [] && Mirrors(raw, read) && LastQ(read) != qRows
    ensures !exists runs: seq<Run> :: Mirrors(raw, runs) && ProperRuns(runs, qRows, kvRows)
  {
    forall runs: seq<Run> | Mirrors(raw, runs) ensures !ProperRuns(runs, qRows, kvRows) {
      assert raw[|raw| - 1] == (runs[|raw| - 1].qBegin, runs[|raw| - 1].qEnd, runs[|raw| - 1].kvBegin);
    }
  }

  // ----- merging block intervals -----

  predicate In(b: nat, iv: Interval) { iv.0 <= b < iv.1 }

  ghost predicate InSome(b: nat, ivs: seq<Interval>) { exists k :: 0 <= k < |ivs| && In(b, ivs[k]) }

  predicate NonEmpty(ivs: seq<Interval>) { forall k | 0 <= k < |ivs| :: ivs[k].0 < ivs[k].1 }

  predicate Before(a: Interval, b: Interval) { a.0 < b.0 || (a.0 == b.0 && a.1 <= b.1) }

  predicate Ordered(ivs: seq<Interval>) { forall i, j | 0 <= i < j < |ivs| :: Before(ivs[i], ivs[j]) }

  /** Ascending, with a gap after each interval. */
  predicate Apart(ivs: seq<Interval>) { forall i, j | 0 <= i < j < |ivs| :: ivs[i].1 < ivs[j].0 }

  /** Inserts into an ordered list. */
  function Insert(iv: Interval, ivs: seq<Interval>): (r: seq<Interval>)
    requires Ordered(ivs)
    ensures Ordered(r) && forall x :: x in r <==> x == iv || x in ivs
    decreases |ivs|
  {
    if ivs == [] then [iv]
    else if Before(iv, ivs[0]) then [iv] + ivs
    else
      var rest := Insert(iv, ivs[1..]);
      assert forall x | x in rest :: Before(ivs[0], x);
      [ivs[0]] + rest
  }

  /** The library sort: the same intervals in lexicographic order. */
  function Sorted(ivs: seq<Interval>): (r: seq<Interval>)
    ensures Ordered(r) && forall x :: x in r <==> x in ivs
    decreases |ivs|
  {
    if ivs == [] then [] else Insert(ivs[0], Sorted(ivs[1..]))
  }

  lemma SameMembers(a: seq<Interval>, b: seq<Interval>)
    requires forall x :: x in b <==> x in a
    ensures NonEmpty(a) ==> NonEmpty(b)
    ensures forall n: nat :: InSome(n, a) ==> InSome(n, b)
  {
    forall k | 0 <= k < |b| ensures b[k] in a { assert b[k] in b; }
    forall n: nat | InSome(n, a) ensures InSome(n, b) {
      var k :| 0 <= k < |a| && In(n, a[k]);
      assert a[k] in b;
    }
  }

  /** `merged` covers the same blocks as the ordered intervals read so far, with gaps, and no
      interval yet to come begins before its last one does. */
  ghost predicate MergedSoFar(merged: seq<Interval>, read: seq<Interval>) {
    && merged != [] && read != [] && NonEmpty(merged) && Apart(merged)
    && merged[|merged| - 1].0 <= read[|read| - 1].0
    && forall b: nat :: InSome(b, merged) <==> InSome(b, read)
  }

  lemma MergeInto(merged: seq<Interval>, read: seq<Interval>, iv: Interval, wider: seq<Interval>)
    requires MergedSoFar(merged, read) && Before(read[|read| - 1], iv) && iv.0 <= merged[|merged| - 1].1
    requires var last := merged[|merged| - 1]; wider == merged[|merged| - 1 := (last.0, if last.1 < iv.1 then iv.1 else last.1)]
    ensures MergedSoFar(wider, read + [iv])
  {
    hide InSome;
    Absorb(merged, iv, wider);
    Adjoin(read, iv);
  }

  lemma MergeNext(merged: seq<Interval>, read: seq<Interval>, iv: Interval)
    requires MergedSoFar(merged, read) && Before(read[|read| - 1], iv) && merged[|merged| - 1].1 < iv.0 < iv.1
    ensures MergedSoFar(merged + [iv], read + [iv])
  {
    hide InSome;
    Adjoin(merged, iv);
    Adjoin(read, iv);
  }

  lemma MergeFirst(iv: Interval)
    requires iv.0 < iv.1
    ensures MergedSoFar([iv], [iv])
  {
  }

  /** Merges overlapping and adjacent intervals without changing which blocks they
      cover; what remains is separated by gaps. */
  method MergeBlockIntervals(intervals: seq<Interval>) returns (merged: seq<Interval>)
    requires NonEmpty(intervals)
    ensures NonEmpty(merged) && Apart(merged)
    ensures forall b: nat :: InSome(b, merged) <==> InSome(b, intervals)
  {
    if intervals == [] { return []; }
    var ordered := Sorted(intervals);
    SameMembers(intervals, ordered);
    SameMembers(ordered, intervals);
    assert intervals[0] in ordered;
    merged := [ordered[0]];
    MergeFirst(ordered[0]);
    assert ordered[..1] == [ordered[0]];
    for n := 1 to |ordered|
      invariant MergedSoFar(merged, ordered[..n])
    {
      hide MergedSoFar, InSome, Apart;
      var (start, end) := ordered[n];
      MergedIsSome(merged, ordered[..n]);
      var last := merged[|merged| - 1];
      assert Before(ordered[n - 1], ordered[n]) && ordered[..n + 1] == ordered[..n] + [ordered[n]];
      if start <= last.1 {
        var wider := merged[|merged| - 1 := (last.0, if last.1 < end then end else last.1)];
        MergeInto(merged, ordered[..n], ordered[n], wider);
        merged := wider;
      } else {
        MergeNext(merged, ordered[..n], ordered[n]);
        merged := merged + [(start, end)];
      }
    }
    assert ordered[..|ordered|] == ordered;
  }

  lemma MergedIsSome(merged: seq<Interval>, read: seq<Interval>)
    requires MergedSoFar(merged, read)
    ensures merged != []
  {
  }

  lemma Adjoin(ivs: seq<Interval>, iv: Interval)
    ensures forall b: nat :: InSome(b, ivs + [iv]) <==> InSome(b, ivs) || In(b, iv)
  {
    forall b: nat ensures InSome(b, ivs + [iv]) <==> InSome(b, ivs) || In(b, iv) {
      if InSome(b, ivs) {
        var k :| 0 <= k < |ivs| && In(b, ivs[k]);
        assert (ivs + [iv])[k] == ivs[k];
      }
      if In(b, iv) { assert (ivs + [iv])[|ivs|] == iv; }
    }
  }

  lemma Absorb(was: seq<Interval>, iv: Interval, now: seq<Interval>)
    requires was != [] && NonEmpty(was) && was[|was| - 1].0 <= iv.0 <= was[|was| - 1].1
    requires var last := was[|was| - 1]; now == was[|was| - 1 := (last.0, if last.1 < iv.1 then iv.1 else last.1)]
    ensures forall b: nat :: InSome(b, now) <==> InSome(b, was) || In(b, iv)
  {
    var n := |was| - 1;
    forall b: nat ensures InSome(b, now) <==> InSome(b, was) || In(b, iv) {
      if InSome(b, now) {
        var k :| 0 <= k < |now| && In(b, now[k]);
        assert In(b, was[k]) || (k == n && In(b, iv));
      }
      if InSome(b, was) {
        var k :| 0 <= k < |was| && In(b, was[k]);
        assert In(b, now[k]);
      }
      if In(b, iv) { assert In(b, now[n]); }
    }
  }

  // ----- the neighbour set of one query tile -----

  datatype Validated = Validated(owner: string, plan: string, group: nat, qRows: nat, kvRows: nat, sinkRows: nat,
                                 runs: seq<Run>, aligned: bool)
  {
    ghost predicate Ok() {
      ProperRuns(runs, qRows, kvRows) && aligned == (qRows == kvRows && Aligned(runs)) && sinkRows <= kvRows
    }
    function KeyBlocks(): nat { (kvRows + 63) / 64 }
    function Tiles(): nat { (qRows + 63) / 64 }
    function TileEnd(tile: nat): nat { if qRows < tile * 64 + 64 then qRows else tile * 64 + 64 }
  }

  predicate Beside(a: nat, b: nat) { -1 <= a - b <= 1 }

  /** Some row in lo..hi of one of the first n runs sits in block b or next to it. */
  ghost predicate Touches(runs: seq<Run>, n: nat, lo: nat, hi: nat, b: nat)
    requires n <= |runs|
  {
    exists i, q, p: nat :: 0 <= i < n && lo <= q < hi && RunMaps(runs[i], q, p) && Beside(p / 64, b)
  }

  /** The physical neighbours of a query tile. */
  ghost predicate Neighbor(v: Validated, tile: nat, b: nat) {
    b < v.KeyBlocks() && Touches(v.runs, |v.runs|, tile * 64, v.TileEnd(tile), b)
  }

  ghost predicate IsBlockSet(v: Validated, tile: nat, iv: Interval) {
    iv.0 < iv.1 && forall b: nat :: Neighbor(v, tile, b) <==> In(b, iv)
  }

  /** What compiling one tile must yield. */
  ghost predicate TileOutcome(v: Validated, tile: nat, r: Result<Interval>) {
    match r
    case Ok(iv) => IsBlockSet(v, tile, iv) && iv.1 - iv.0 <= MAX_WIDTH
    case Unavailable(Fragmented) => !exists iv: Interval :: IsBlockSet(v, tile, iv)
    case Unavailable(IntervalWidth) => exists iv: Interval :: IsBlockSet(v, tile, iv) && iv.1 - iv.0 > MAX_WIDTH
    case _ => false
  }

  /** The block interval computed for the rows that a run shares with lo..hi. */
  function RangeOf(run: Run, lo: nat, hi: nat, keyBlocks: nat): (iv: Interval)
    requires run.qBegin < run.qEnd && lo < run.qEnd && run.qBegin < hi && lo < hi
  {
    var begin := if lo < run.qBegin then run.qBegin else lo;
    var end := if hi < run.qEnd then hi else run.qEnd;
    var first := (run.kvBegin + begin - run.qBegin) / 64;
    var last := (run.kvBegin + end - run.qBegin - 1) / 64;
    (if first == 0 then 0 else first - 1, if keyBlocks < last + 2 then keyBlocks else last + 2)
  }

  /** That interval is exactly the blocks within one of a block the rows occupy. */
  lemma RangeIsNeighbors(run: Run, lo: nat, hi: nat, kvRows: nat, b: nat)
    requires run.qBegin < run.qEnd && lo < run.qEnd && run.qBegin < hi && lo < hi
    requires run.kvBegin + (run.qEnd - run.qBegin) <= kvRows
    ensures In(b, RangeOf(run, lo, hi, (kvRows + 63) / 64)) <==>
      b < (kvRows + 63) / 64 && exists q, p: nat :: lo <= q < hi && RunMaps(run, q, p) && Beside(p / 64, b)
  {
    var begin := if lo < run.qBegin then run.qBegin else lo;
    var end := if hi < run.qEnd then hi else run.qEnd;
    var p1, p2 := run.kvBegin + begin - run.qBegin, run.kvBegin + end - run.qBegin - 1;
    if In(b, RangeOf(run, lo, hi, (kvRows + 63) / 64)) {
      var p := if b < p1 / 64 then p1 else if b > p2 / 64 then p2 else if b * 64 < p1 then p1 else b * 64;
      var q := run.qBegin + (p - run.kvBegin);
      assert RunMaps(run, q, p) && lo <= q < hi && Beside(p / 64, b);
    }
    forall q, p: nat | lo <= q < hi && RunMaps(run, q, p) && Beside(p / 64, b) && b < (kvRows + 63) / 64
      ensures In(b, RangeOf(run, lo, hi, (kvRows + 63) / 64))
    {
      assert p1 <= p <= p2 && p1 / 64 <= p / 64 <= p2 / 64;
    }
  }

  lemma RangeNonEmpty(run: Run, lo: nat, hi: nat, kvRows: nat)
    requires run.qBegin < run.qEnd && lo < run.qEnd && run.qBegin < hi && lo < hi
    requires run.kvBegin + (run.qEnd - run.qBegin) <= kvRows
    ensures var iv := RangeOf(run, lo, hi, (kvRows + 63) / 64); iv.0 < iv.1
  {
  }

  /** The ranges collected from the first `scan` runs cover the tile's neighbours
      among those runs, and nothing else. */
  ghost predicate Collected(v: Validated, tile: nat, scan: nat, selected: seq<Interval>)
    requires scan <= |v.runs|
  {
    && NonEmpty(selected)
    && forall b: nat :: InSome(b, selected) <==> b < v.KeyBlocks() && Touches(v.runs, scan, tile * 64, v.TileEnd(tile), b)
  }

  /** Runs that share no row with the tile add nothing. */
  lemma SkipRun(v: Validated, tile: nat, scan: nat, selected: seq<Interval>)
    requires scan < |v.runs| && Collected(v, tile, scan, selected)
    requires v.runs[scan].qEnd <= tile * 64 || v.TileEnd(tile) <= v.runs[scan].qBegin
    ensures Collected(v, tile, scan + 1, selected)
  {
    forall b: nat ensures Touches(v.runs, scan + 1, tile * 64, v.TileEnd(tile), b) <==> Touches(v.runs, scan, tile * 64, v.TileEnd(tile), b) {
    }
  }

  lemma TakeRun(v: Validated, tile: nat, scan: nat, selected: seq<Interval>)
    requires v.Ok() && scan < |v.runs| && Collected(v, tile, scan, selected)
    requires tile * 64 < v.runs[scan].qEnd && v.runs[scan].qBegin < v.TileEnd(tile) && tile * 64 < v.TileEnd(tile)
    ensures Collected(v, tile, scan + 1, selected + [RangeOf(v.runs[scan], tile * 64, v.TileEnd(tile), v.KeyBlocks())])
  {
    var run, lo, hi := v.runs[scan], tile * 64, v.TileEnd(tile);
    var iv := RangeOf(run, lo, hi, v.KeyBlocks());
    RangeNonEmpty(run, lo, hi, v.kvRows);
    Adjoin(selected, iv);
    forall b: nat
      ensures InSome(b, selected + [iv]) <==> b < v.KeyBlocks() && Touches(v.runs, scan + 1, lo, hi, b)
    {
      RangeIsNeighbors(run, lo, hi, v.kvRows, b);
      TouchesOneMore(v.runs, scan, lo, hi, b);
    }
  }

  lemma TouchesOneMore(runs: seq<Run>, n: nat, lo: nat, hi: nat, b: nat)
    requires n < |runs|
    ensures Touches(runs, n + 1, lo, hi, b) <==>
      Touches(runs, n, lo, hi, b) || exists q, p: nat :: lo <= q < hi && RunMaps(runs[n], q, p) && Beside(p / 64, b)
  {
  }

  // ----- one tile -----

  /** Separated intervals cover one contiguous block set exactly when there is one. */
  lemma OnePiece(v: Validated, tile: nat, merged: seq<Interval>)
    requires NonEmpty(merged) && Apart(merged) && forall b: nat :: InSome(b, merged) <==> Neighbor(v, tile, b)
    ensures |merged| == 1 ==> IsBlockSet(v, tile, merged[0])
    ensures |merged| != 1 ==> !exists iv: Interval :: IsBlockSet(v, tile, iv)
  {
    if |merged| == 1 {
      forall b: nat ensures Neighbor(v, tile, b) <==> In(b, merged[0]) {
        assert In(b, merged[0]) ==> InSome(b, merged);
      }
    } else {
      forall iv: Interval | IsBlockSet(v, tile, iv) ensures false { NotOnePiece(v, tile, merged, iv); }
    }
  }

  lemma NotOnePiece(v: Validated, tile: nat, merged: seq<Interval>, iv: Interval)
    requires NonEmpty(merged) && Apart(merged) && |merged| != 1
    requires forall b: nat :: InSome(b, merged) <==> Neighbor(v, tile, b)
    ensures !IsBlockSet(v, tile, iv)
  {
    if merged == [] {
      assert !InSome(iv.0, merged) && (IsBlockSet(v, tile, iv) ==> In(iv.0, iv));
    } else {
      var a, gap, c := merged[0].0, merged[0].1, merged[1].0;
      assert forall k | 0 < k < |merged| :: merged[0].1 < merged[k].0;
      assert !InSome(gap, merged);
      assert In(a, merged[0]) && In(c, merged[1]);
      assert InSome(a, merged) && InSome(c, merged);
      assert In(a, iv) && In(c, iv) ==> In(gap, iv);
    }
  }

  /** Every tile holds a row, so its neighbour set is never empty. */
  lemma TileHasNeighbor(v: Validated, tile: nat) returns (b: nat)
    requires v.Ok() && tile < v.Tiles()
    ensures Neighbor(v, tile, b)
  {
    var i, p := EveryRowIsMapped(v.runs, v.qRows, v.kvRows, tile * 64);
    b := p / 64;
    assert RunMaps(v.runs[i], tile * 64, p) && Beside(p / 64, b);
  }

  /** Runs before `runIndex` end at or before the tile. */
  ghost predicate Passed(v: Validated, tile: nat, runIndex: nat) {
    runIndex <= |v.runs| && forall i | 0 <= i < runIndex :: v.runs[i].qEnd <= tile * 64
  }

  lemma {:induction false} PassedCollectNothing(v: Validated, tile: nat, runIndex: nat)
    requires Passed(v, tile, runIndex)
    ensures Collected(v, tile, runIndex, [])
    decreases runIndex
  {
    if runIndex > 0 {
      PassedCollectNothing(v, tile, runIndex - 1);
      SkipRun(v, tile, runIndex - 1, []);
    }
  }

  lemma {:induction false} RestCollectNothing(v: Validated, tile: nat, scan: nat, selected: seq<Interval>)
    requires v.Ok() && scan <= |v.runs| && Collected(v, tile, scan, selected)
    requires scan < |v.runs| ==> v.TileEnd(tile) <= v.runs[scan].qBegin
    ensures Collected(v, tile, |v.runs|, selected)
    decreases |v.runs| - scan
  {
    if scan < |v.runs| {
      SkipRun(v, tile, scan, selected);
      RestCollectNothing(v, tile, scan + 1, selected);
    }
  }

  /** The scan for one tile, starting at the first run that may reach it. */
  method SelectRanges(v: Validated, tile: nat, runIndex: nat) returns (selected: seq<Interval>)
    requires v.Ok() && tile < v.Tiles() && Passed(v, tile, runIndex)
    requires runIndex < |v.runs| ==> tile * 64 < v.runs[runIndex].qEnd
    ensures Collected(v, tile, |v.runs|, selected)
  {
    var lo, hi := tile * 64, v.TileEnd(tile);
    selected := [];
    PassedCollectNothing(v, tile, runIndex);
    var scan := runIndex;
    while scan < |v.runs|
      invariant runIndex <= scan <= |v.runs| && Collected(v, tile, scan, selected)
      invariant scan < |v.runs| ==> lo < v.runs[scan].qEnd
    {
      var run := v.runs[scan];
      if run.qBegin >= hi { break; }
      var begin, end := if lo < run.qBegin then run.qBegin else lo, if hi < run.qEnd then hi else run.qEnd;
      if begin < end {
        TakeRun(v, tile, scan, selected);
        selected := selected + [RangeOf(run, lo, hi, v.KeyBlocks())];
      }
      scan := scan + 1;
    }
    RestCollectNothing(v, tile, scan, selected);
  }

  /** One tile: select, merge, and accept only a single interval of at most four blocks. */
  method CompileTile(v: Validated, tile: nat, runIndex: nat) returns (r: Result<Interval>)
    requires v.Ok() && tile < v.Tiles() && Passed(v, tile, runIndex)
    requires runIndex < |v.runs| ==> tile * 64 < v.runs[runIndex].qEnd
    ensures TileOutcome(v, tile, r)
    ensures r.Ok? ==> r.value.0 < r.value.1 <= v.KeyBlocks()
  {
    hide Touches;
    var selected := SelectRanges(v, tile, runIndex);
    var merged := MergeBlockIntervals(selected);
    OnePiece(v, tile, merged);
    if |merged| != 1 { return Unavailable(Fragmented); }
    var (start, end) := merged[0];
    if end <= start { return Unavailable(Fragmented); }
    assert In(end - 1, merged[0]);
    if end - start > MAX_WIDTH { return Unavailable(IntervalWidth); }
    return Ok((start, end));
  }

  // ----- the whole map -----

  /** Nothing to add for a square identity map; otherwise one interval per tile. */
  datatype Plan = Identity | Intervals(ivs: seq<Interval>)

  /** What compiling a validated map must yield: the neighbour interval of every tile,
      or the refusal of the first tile that has none that is narrow enough. */
  ghost predicate Compiled(v: Validated, r: Result<Plan>) {
    if v.aligned then r == Ok(Identity)
    else match r
      case Ok(Identity) => false
      case Ok(Intervals(ivs)) => |ivs| == v.Tiles() && forall tile: nat | tile < v.Tiles() :: TileOutcome(v, tile, Ok(ivs[tile]))
      case Unavailable(reason) => exists tile: nat :: RefusedAt(v, tile, reason)
  }

  ghost predicate RefusedAt(v: Validated, tile: nat, reason: Reason) {
    && tile < v.Tiles() && TileOutcome(v, tile, Unavailable(reason))
    && forall earlier: nat | earlier < tile :: Accepted(v, earlier)
  }

  ghost predicate Accepted(v: Validated, tile: nat) { exists iv: Interval :: TileOutcome(v, tile, Ok(iv)) }

  /** compile_descriptor without its cache: a single sweep over the runs. */
  method CompileMap(v: Validated) returns (r: Result<Plan>)
    requires v.Ok()
    ensures Compiled(v, r)
  {
    if v.aligned { return Ok(Identity); }
    var ivs: seq<Interval> := [];
    var runIndex := 0;
    for tile := 0 to v.Tiles()
      invariant |ivs| == tile && Passed(v, tile, runIndex)
      invariant forall t: nat | t < tile :: TileOutcome(v, t, Ok(ivs[t]))
    {
      hide TileOutcome;
      while runIndex < |v.runs| && v.runs[runIndex].qEnd <= tile * 64
        invariant Passed(v, tile, runIndex)
      {
        runIndex := runIndex + 1;
      }
      var one := CompileTile(v, tile, runIndex);
      if one.Unavailable? {
        forall earlier: nat | earlier < tile ensures Accepted(v, earlier) { assert TileOutcome(v, earlier, Ok(ivs[earlier])); }
        assert RefusedAt(v, tile, one.reason);
        return Unavailable(one.reason);
      }
      ivs := ivs + [one.value];
    }
    return Ok(Intervals(ivs));
  }

  // ----- consequences -----

  lemma SetIsUnique(v: Validated, tile: nat, a: Interval, b: Interval)
    requires IsBlockSet(v, tile, a) && IsBlockSet(v, tile, b)
    ensures a == b
  {
    assert In(a.0, a) && In(a.1 - 1, a) && In(b.0, b) && In(b.1 - 1, b);
    assert In(a.0, b) && In(a.1 - 1, b) && In(b.0, a) && In(b.1 - 1, a);
  }

  lemma OutcomeIsUnique(v: Validated, tile: nat, a: Result<Interval>, b: Result<Interval>)
    requires TileOutcome(v, tile, a) && TileOutcome(v, tile, b)
    ensures a == b
  {
    forall x: Interval, y: Interval | IsBlockSet(v, tile, x) && IsBlockSet(v, tile, y) ensures x == y { SetIsUnique(v, tile, x, y); }
  }

  lemma RefusalIsUnique(v: Validated, s: nat, a: Reason, t: nat, b: Reason)
    requires RefusedAt(v, s, a) && RefusedAt(v, t, b)
    ensures s == t && a == b
  {
    if s < t {
      assert Accepted(v, s);
      var iv: Interval :| TileOutcome(v, s, Ok(iv));
      OutcomeIsUnique(v, s, Ok(iv), Unavailable(a));
    } else if t < s {
      assert Accepted(v, t);
      var iv: Interval :| TileOutcome(v, t, Ok(iv));
      OutcomeIsUnique(v, t, Ok(iv), Unavailable(b));
    } else {
      OutcomeIsUnique(v, s, Unavailable(a), Unavailable(b));
    }
  }

  /** The map alone decides what is compiled from it. */
  lemma CompiledIsUnique(v: Validated, a: Result<Plan>, b: Result<Plan>)
    requires Compiled(v, a) && Compiled(v, b)
    ensures a == b
  {
    hide TileOutcome;
    if !v.aligned {
      if a.Ok? && b.Ok? {
        forall tile: nat | tile < v.Tiles() ensures a.value.ivs[tile] == b.value.ivs[tile] {
          OutcomeIsUnique(v, tile, Ok(a.value.ivs[tile]), Ok(b.value.ivs[tile]));
        }
        assert a.value.ivs == b.value.ivs;
      } else if a.Unavailable? && b.Unavailable? {
        var s: nat :| RefusedAt(v, s, a.reason);
        var t: nat :| RefusedAt(v, t, b.reason);
        RefusalIsUnique(v, s, a.reason, t, b.reason);
      } else if a.Ok? {
        var t: nat :| RefusedAt(v, t, b.reason);
        OutcomeIsUnique(v, t, Ok(a.value.ivs[t]), Unavailable(b.reason));
      } else {
        var t: nat :| RefusedAt(v, t, a.reason);
        OutcomeIsUnique(v, t, Ok(b.value.ivs[t]), Unavailable(a.reason));
      }
    }
  }

  /** A tile whose rows all lie in one run is never refused: consecutive positions
      touch at most two blocks, so with their neighbours at most four. */
  lemma SingleRunTile(v: Validated, tile: nat, k: nat)
    requires v.Ok() && tile < v.Tiles() && k < |v.runs|
    requires v.runs[k].qBegin <= tile * 64 && v.TileEnd(tile) <= v.runs[k].qEnd
    ensures Accepted(v, tile)
  {
    var lo, hi := tile * 64, v.TileEnd(tile);
    var iv := RangeOf(v.runs[k], lo, hi, v.KeyBlocks());
    RangeNonEmpty(v.runs[k], lo, hi, v.kvRows);
    forall b: nat ensures Neighbor(v, tile, b) <==> In(b, iv) {
      RangeIsNeighbors(v.runs[k], lo, hi, v.kvRows, b);
      OnlyThisRun(v, tile, k, b);
    }
    assert TileOutcome(v, tile, Ok(iv));
  }

  lemma OnlyThisRun(v: Validated, tile: nat, k: nat, b: nat)
    requires v.Ok() && tile < v.Tiles() && k < |v.runs|
    requires v.runs[k].qBegin <= tile * 64 && v.TileEnd(tile) <= v.runs[k].qEnd
    ensures Touches(v.runs, |v.runs|, tile * 64, v.TileEnd(tile), b) <==>
      exists q, p: nat :: tile * 64 <= q < v.TileEnd(tile) && RunMaps(v.runs[k], q, p) && Beside(p / 64, b)
  {
    assert forall i | 0 <= i < k :: v.runs[i].qEnd <= v.runs[k].qBegin;
    assert forall i | k < i < |v.runs| :: v.runs[k].qEnd <= v.runs[i].qBegin;
    forall i, q, p: nat | 0 <= i < |v.runs| && tile * 64 <= q < v.TileEnd(tile) && RunMaps(v.runs[i], q, p)
      ensures i == k
    {
    }
  }

  // ----- what a compiled plan says, in rows and positions -----

  /** A neighbour is a block of the key range that some row's position lies in, or that is next to
      the one it lies in. */
  lemma NeighborHasRow(v: Validated, tile: nat, b: nat) returns (i: nat, q: nat)
    requires v.Ok() && Neighbor(v, tile, b)
    ensures b < (v.kvRows + 63) / 64 && i < |v.runs| && v.runs[i].qBegin <= q < v.runs[i].qEnd && 64 * tile <= q < 64 * tile + 64 && q < v.qRows
    ensures (v.runs[i].kvBegin + (q - v.runs[i].qBegin)) / 64 - 1 <= b <= (v.runs[i].kvBegin + (q - v.runs[i].qBegin)) / 64 + 1
  {
    var j: nat, r: nat, p: nat :| j < |v.runs| && tile * 64 <= r < v.TileEnd(tile) && RunMaps(v.runs[j], r, p) && Beside(p / 64, b);
    i, q := j, r;
  }

  lemma RowMakesNeighbor(v: Validated, tile: nat, b: nat, i: nat, q: nat)
    requires v.Ok() && b < (v.kvRows + 63) / 64
    requires i < |v.runs| && v.runs[i].qBegin <= q < v.runs[i].qEnd && 64 * tile <= q < 64 * tile + 64
    requires (v.runs[i].kvBegin + (q - v.runs[i].qBegin)) / 64 - 1 <= b <= (v.runs[i].kvBegin + (q - v.runs[i].qBegin)) / 64 + 1
    ensures Neighbor(v, tile, b)
  {
    assert v.runs[i].qEnd <= v.qRows by { EndsInside(v, i); }
    var p := v.runs[i].kvBegin + (q - v.runs[i].qBegin);
    assert RunMaps(v.runs[i], q, p) && Beside(p / 64, b) && tile * 64 <= q < v.TileEnd(tile);
  }

  lemma EndsInside(v: Validated, i: nat)
    requires v.Ok() && i < |v.runs|
    ensures v.runs[i].qEnd <= v.qRows
  {
    if i < |v.runs| - 1 { assert v.runs[i].qEnd <= v.runs[|v.runs| - 1].qBegin; }
  }

  /** In a compiled plan every tile has one interval of at most four blocks, and a block lies in it
      only if some row of the tile has its position in that block or in one next to it, ... */
  lemma PlannedHasRow(v: Validated, ivs: seq<Interval>, tile: nat, b: nat) returns (i: nat, q: nat)
    requires v.Ok() && Compiled(v, Ok(Intervals(ivs))) && 64 * tile < v.qRows
    ensures |ivs| == (v.qRows + 63) / 64 && tile < |ivs| && ivs[tile].0 < ivs[tile].1 <= ivs[tile].0 + 4
    ensures ivs[tile].0 <= b < ivs[tile].1 ==>
              && b < (v.kvRows + 63) / 64 && i < |v.runs| && v.runs[i].qBegin <= q < v.runs[i].qEnd && 64 * tile <= q < 64 * tile + 64
              && (v.runs[i].kvBegin + (q - v.runs[i].qBegin)) / 64 - 1 <= b <= (v.runs[i].kvBegin + (q - v.runs[i].qBegin)) / 64 + 1
  {
    i, q := 0, 0;
    assert tile < v.Tiles() && TileOutcome(v, tile, Ok(ivs[tile]));
    if ivs[tile].0 <= b < ivs[tile].1 {
      assert In(b, ivs[tile]);
      i, q := NeighborHasRow(v, tile, b);
    }
  }

  /** ... and always if so. */
  lemma RowIsPlanned(v: Validated, ivs: seq<Interval>, tile: nat, b: nat, i: nat, q: nat)
    requires v.Ok() && Compiled(v, Ok(Intervals(ivs))) && b < (v.kvRows + 63) / 64
    requires i < |v.runs| && v.runs[i].qBegin <= q < v.runs[i].qEnd && 64 * tile <= q < 64 * tile + 64
    requires (v.runs[i].kvBegin + (q - v.runs[i].qBegin)) / 64 - 1 <= b <= (v.runs[i].kvBegin + (q - v.runs[i].qBegin)) / 64 + 1
    ensures tile < |ivs| && ivs[tile].0 <= b < ivs[tile].1
  {
    RowMakesNeighbor(v, tile, b, i, q);
    EndsInside(v, i);
    assert tile < v.Tiles() && TileOutcome(v, tile, Ok(ivs[tile]));
  }

  /** Nothing is compiled exactly for square maps that send every row to itself. */
  lemma IdentityExactly(v: Validated)
    requires v.Ok()
    ensures Compiled(v, Ok(Identity)) <==> v.qRows == v.kvRows && forall i: nat | i < |v.runs| :: v.runs[i].kvBegin == v.runs[i].qBegin
  {
  }

  /** A refusal is for the first tile that has no fitting interval: one with a block between two
      neighbours that is none, or one with more than four neighbours in a row. */
  lemma RefusalHasTile(v: Validated, reason: Reason) returns (tile: nat, a: nat, m: nat, c: nat, before: seq<Interval>)
    requires v.Ok() && Compiled(v, Unavailable(reason))
    ensures 64 * tile < v.qRows && (reason == Fragmented || reason == IntervalWidth)
    ensures reason == Fragmented ==> a < m < c && Neighbor(v, tile, a) && !Neighbor(v, tile, m) && Neighbor(v, tile, c)
    ensures reason == IntervalWidth ==> a + 4 < c && forall b: nat :: a <= b < c <==> Neighbor(v, tile, b)
    ensures |before| == tile
    ensures forall e: nat | e < tile :: before[e].0 < before[e].1 <= before[e].0 + 4 && forall b: nat :: Neighbor(v, e, b) <==> before[e].0 <= b < before[e].1
  {
    hide Neighbor;
    tile :| RefusedAt(v, tile, reason);
    a, m, c := 0, 0, 0;
    if reason == IntervalWidth {
      a, c := TooWide(v, tile);
    } else {
      a, m, c := Gap(v, tile);
    }
    before := PlannedBefore(v, tile);
  }

  lemma TooWide(v: Validated, tile: nat) returns (a: nat, c: nat)
    requires TileOutcome(v, tile, Unavailable(IntervalWidth))
    ensures a + 4 < c && forall b: nat :: a <= b < c <==> Neighbor(v, tile, b)
  {
    hide Neighbor;
    var iv: Interval :| IsBlockSet(v, tile, iv) && iv.1 - iv.0 > MAX_WIDTH;
    a, c := iv.0, iv.1;
    forall b: nat ensures a <= b < c <==> Neighbor(v, tile, b) { assert Neighbor(v, tile, b) <==> In(b, iv); }
  }

  lemma {:induction false} PlannedBefore(v: Validated, n: nat) returns (before: seq<Interval>)
    requires forall e: nat | e < n :: Accepted(v, e)
    ensures |before| == n
    ensures forall e: nat | e < n :: before[e].0 < before[e].1 <= before[e].0 + 4 && forall b: nat :: Neighbor(v, e, b) <==> before[e].0 <= b < before[e].1
    decreases n
  {
    hide Neighbor;
    before := [];
    if n > 0 {
      var last := n - 1;
      before := PlannedBefore(v, last);
      assert Accepted(v, last);
      var iv: Interval :| TileOutcome(v, last, Ok(iv));
      forall b: nat ensures Neighbor(v, last, b) <==> iv.0 <= b < iv.1 { assert Neighbor(v, last, b) <==> In(b, iv); }
      before := before + [iv];
    }
  }

  /** A tile whose neighbours are no interval has one missing between two. */
  lemma Gap(v: Validated, tile: nat) returns (a: nat, m: nat, c: nat)
    requires v.Ok() && tile < v.Tiles() && !exists iv: Interval :: IsBlockSet(v, tile, iv)
    ensures a < m < c && Neighbor(v, tile, a) && !Neighbor(v, tile, m) && Neighbor(v, tile, c)
  {
    hide Neighbor;
    var some := TileHasNeighbor(v, tile);
    BelowKeyBlocks(v, tile, some);
    a := 0;
    while !Neighbor(v, tile, a)
      invariant a <= some && forall b: nat | b < a :: !Neighbor(v, tile, b)
      decreases some - a
    {
      a := a + 1;
    }
    c := v.KeyBlocks();
    forall b: nat | Neighbor(v, tile, b) ensures b < c { BelowKeyBlocks(v, tile, b); }
    while !Neighbor(v, tile, c)
      invariant a <= c && forall b: nat | b > c :: !Neighbor(v, tile, b)
      decreases c
    {
      c := c - 1;
    }
    if forall b: nat | a < b < c :: Neighbor(v, tile, b) {
      NoGap(v, tile, a, c);
      assert false;
    } else {
      m :| a < m < c && !Neighbor(v, tile, m);
    }
  }

  lemma NoGap(v: Validated, tile: nat, a: nat, c: nat)
    requires a <= c && Neighbor(v, tile, a) && Neighbor(v, tile, c)
    requires forall b: nat | b < a || c < b :: !Neighbor(v, tile, b)
    requires forall b: nat | a < b < c :: Neighbor(v, tile, b)
    ensures IsBlockSet(v, tile, (a, c + 1))
  {
    hide Neighbor;
  }

  lemma BelowKeyBlocks(v: Validated, tile: nat, b: nat)
    requires Neighbor(v, tile, b)
    ensures b < v.KeyBlocks()
  {
  }

  /** Why a square identity map needs no intervals: a tile's neighbours are the blocks that the
      kernel's diagonal rule selects anyway. */
  lemma IdentityIsDiagonal(v: Validated, tile: nat, b: nat)
    requires v.Ok() && v.aligned && tile < v.Tiles()
    ensures Neighbor(v, tile, b) <==> b < v.KeyBlocks() && Routing.Near(tile, b)
  {
    var lo, hi := tile * 64, v.TileEnd(tile);
    forall i: nat, q: nat, p: nat | i < |v.runs| && lo <= q < hi && RunMaps(v.runs[i], q, p) ensures p / 64 == tile {
      assert v.runs[i].kvBegin == v.runs[i].qBegin;
    }
    var i, p := EveryRowIsMapped(v.runs, v.qRows, v.kvRows, lo);
    if b < v.KeyBlocks() && Beside(tile, b) { assert RunMaps(v.runs[i], lo, p) && Beside(p / 64, b); }
  }
}
