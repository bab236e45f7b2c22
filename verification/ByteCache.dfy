/**
 The two request-local caches of device tensors: mapped-neighbour descriptors and key
 biases.  Both are ordered dictionaries with a limit on entries and on bytes; they
 differ in what happens to a tensor that exceeds the byte limit on its own.
*/
module ByteCache {
  import opened MappedNeighbors

  const MAX_ENTRIES: nat := 64
  const MAX_BYTES: nat := 4194304

  datatype Entry<K, V> = Entry(key: K, value: V, size: nat)

  function Bytes<K, V>(es: seq<Entry<K, V>>): nat {
    if es == [] then 0 else es[0].size + Bytes(es[1..])
  }

  lemma {:induction false} BytesConcat<K, V>(a: seq<Entry<K, V>>, b: seq<Entry<K, V>>)
    ensures Bytes(a + b) == Bytes(a) + Bytes(b)
    decreases |a|
  {
    if a == [] {
      assert a + b == b;
    } else {
      assert (a + b)[1..] == a[1..] + b;
      BytesConcat(a[1..], b);
    }
  }

  predicate Fits<K, V>(es: seq<Entry<K, V>>) { |es| <= MAX_ENTRIES && Bytes(es) <= MAX_BYTES }

  /** The `n` most recent entries. */
  function Newest<K, V>(es: seq<Entry<K, V>>, n: nat): seq<Entry<K, V>>
    requires n <= |es|
  {
    es[|es| - n..]
  }

  /** Dropping from the front until both limits hold. */
  function Trimmed<K, V>(es: seq<Entry<K, V>>): (t: seq<Entry<K, V>>)
    decreases |es|
  {
    if Fits(es) then es else Trimmed(es[1..])
  }

  /** Trimming keeps the longest suffix that is within both limits. */
  lemma {:induction false} TrimmedIsLongestSuffix<K, V>(es: seq<Entry<K, V>>)
    ensures Fits(Trimmed(es)) && |Trimmed(es)| <= |es| && Trimmed(es) == Newest(es, |Trimmed(es)|)
    ensures forall n | |Trimmed(es)| < n <= |es| :: !Fits(Newest(es, n))
    decreases |es|
  {
    assert Newest(es, |es|) == es;
    assert es == [] ==> Fits(es);
    hide Fits;
    if !Fits(es) {
      var rest := es[1..];
      TrimmedIsLongestSuffix(rest);
      assert Newest(es, |Trimmed(rest)|) == Newest(rest, |Trimmed(rest)|);
      forall n | |Trimmed(es)| < n <= |es| ensures !Fits(Newest(es, n)) {
        if n < |es| { assert Newest(es, n) == Newest(rest, n); }
      }
    }
  }

  /** That is at most 64 entries and four megabytes, and one entry more would exceed one of them. */
  lemma TrimmedExactly<K, V>(es: seq<Entry<K, V>>)
    ensures var t := Trimmed(es);
            && |t| <= |es| && t == es[|es| - |t|..] && |t| <= 64 && Bytes(t) <= 4194304
            && (|t| < |es| ==> |t| == 64 || es[|es| - |t| - 1].size + Bytes(t) > 4194304)
  {
    TrimmedIsLongestSuffix(es);
    var t := Trimmed(es);
    if |t| < |es| {
      var more := Newest(es, |t| + 1);
      assert !Fits(more) && more[1..] == t && more[0] == es[|es| - |t| - 1];
    }
  }

  /** An entry that fits by itself survives its own insertion. */
  lemma LastSurvives<K, V>(es: seq<Entry<K, V>>, e: Entry<K, V>)
    requires e.size <= MAX_BYTES
    ensures var t := Trimmed(es + [e]); t != [] && t[|t| - 1] == e
  {
    var all := es + [e];
    TrimmedIsLongestSuffix(all);
    assert Newest(all, 1) == [e];
    assert Bytes([e]) == e.size;
    assert Fits(Newest(all, 1));
  }

  predicate Distinct<K(==), V>(es: seq<Entry<K, V>>) { forall i, j | 0 <= i < j < |es| :: es[i].key != es[j].key }

  predicate Has<K(==), V>(es: seq<Entry<K, V>>, k: K) { exists i :: 0 <= i < |es| && es[i].key == k }

  class Lru<K(==), V> {
    var entries: seq<Entry<K, V>>
    var bytes: int

    ghost predicate Valid()
      reads this
    {
      Distinct(entries) && Fits(entries) && bytes == Bytes(entries)
    }

    constructor ()
      ensures Valid() && entries == []
    {
      entries := [];
      bytes := 0;
    }

    method Find(k: K) returns (at: int)
      ensures -1 <= at < |entries|
      ensures at >= 0 ==> entries[at].key == k
      ensures at == -1 ==> !Has(entries, k)
    {
      at := 0;
      while at < |entries|
        invariant 0 <= at <= |entries| && forall i | 0 <= i < at :: entries[i].key != k
      {
        if entries[at].key == k { return; }
        at := at + 1;
      }
      at := -1;
    }

    /** move_to_end. */
    method MoveToEnd(at: nat)
      requires Valid() && at < |entries|
      modifies this`entries
      ensures Valid() && entries == old(entries[..at] + entries[at + 1..] + [entries[at]])
    {
      ghost var a, b, c := entries[..at], [entries[at]], entries[at + 1..];
      assert entries == a + b + c;
      BytesConcat(a + b, c);
      BytesConcat(a, b);
      BytesConcat(a + c, b);
      BytesConcat(a, c);
      entries := entries[..at] + entries[at + 1..] + [entries[at]];
    }

    /** Assignment under a new key, then eviction from the front while either limit is
        exceeded.  The byte counter never disagrees with the retained entries, and an
        empty cache is never popped. */
    method Insert(k: K, value: V, size: nat)
      requires Valid() && !Has(entries, k)
      modifies this
      ensures Valid() && entries == Trimmed(old(entries) + [Entry(k, value, size)])
    {
      ghost var all := entries + [Entry(k, value, size)];
      BytesConcat(entries, [Entry(k, value, size)]);
      assert Bytes([Entry(k, value, size)]) == size;
      entries := entries + [Entry(k, value, size)];
      bytes := bytes + size;
      while |entries| > MAX_ENTRIES || bytes > MAX_BYTES
        invariant Distinct(entries) && bytes == Bytes(entries) && Trimmed(entries) == Trimmed(all)
        decreases |entries|
      {
        var oldest := entries[0];
        entries := entries[1..];
        bytes := bytes - oldest.size;
      }
    }
  }

  // ----- the mapped-neighbour descriptors -----

  /** descriptor_cache_key: the map and the device. */
  datatype DescriptorKey = DescriptorKey(v: Validated, device: string)

  /** Every cached tensor holds the intervals that its map compiles to. */
  ghost predicate Faithful(es: seq<Entry<DescriptorKey, seq<Interval>>>) {
    forall e | e in es :: Compiled(e.key.v, Ok(Intervals(e.value))) && e.size == 8 * |e.value|
  }

  /** device_descriptor: a hit returns the cached intervals, a miss builds them, refuses
      them if they exceed the budget alone, and caches them otherwise.  Hit or miss, what is
      returned are the intervals of the plan asked for. */
  method DeviceDescriptor(cache: Lru<DescriptorKey, seq<Interval>>, v: Validated, ivs: seq<Interval>, device: string)
    returns (r: Result<seq<Interval>>)
    requires cache.Valid() && Faithful(cache.entries) && Compiled(v, Ok(Intervals(ivs)))
    modifies cache
    ensures cache.Valid() && Faithful(cache.entries)
    ensures r.Ok? ==> r.value == ivs && cache.entries != []
                      && cache.entries[|cache.entries| - 1] == Entry(DescriptorKey(v, device), ivs, 8 * |ivs|)
    ensures r.Unavailable? <==> 8 * |ivs| > 4194304 && !Has(old(cache.entries), DescriptorKey(v, device))
    ensures r.Unavailable? ==> r.reason == MetadataBudget && cache.entries == old(cache.entries)
  {
    var k := DescriptorKey(v, device);
    var at := cache.Find(k);
    if at >= 0 {
      var hit := cache.entries[at];
      assert hit in cache.entries;
      CompiledIsUnique(v, Ok(Intervals(hit.value)), Ok(Intervals(ivs)));
      cache.MoveToEnd(at);
      return Ok(hit.value);
    }
    var size := 8 * |ivs|;
    if size > MAX_BYTES { return Unavailable(MetadataBudget); }
    LastSurvives(cache.entries, Entry(k, ivs, size));
    TrimmedIsLongestSuffix(cache.entries + [Entry(k, ivs, size)]);
    cache.Insert(k, ivs, size);
    return Ok(ivs);
  }

  // ----- the key biases -----

  /** The key of one bias tensor; the measure is compared as a number. */
  datatype BiasKey = BiasKey(semantic: string, rows: nat, start: nat, end: nat, measure: real, device: string)

  /** Zero outside the measured rows. */
  function Bias(k: BiasKey): (b: seq<real>)
    ensures |b| == k.rows
    ensures forall i | 0 <= i < k.rows :: b[i] == if k.start <= i < k.end then k.measure else 0.0
  {
    seq(k.rows, i => if k.start <= i < k.end then k.measure else 0.0)
  }

  ghost predicate FaithfulBiases(es: seq<Entry<BiasKey, seq<real>>>) {
    forall e | e in es :: e.value == Bias(e.key) && e.size == 4 * e.key.rows
  }

  datatype Range = Absent | Rows(start: int, end: int)

  datatype BiasResult = Refused | NoBias | Biased(values: seq<real>)

  /** _key_bias: refused are ranges outside the domain, positive log measures, and a measure
      without a range; no tensor for the unit measure; otherwise the cache is asked, and it keeps
      what it is given without looking at its size.  A tensor beyond the budget is returned
      but not kept, and takes every other entry with it. */
  method KeyBias(cache: Lru<BiasKey, seq<real>>, semantic: string, rows: nat, range: Range, measure: real, device: string)
    returns (r: BiasResult)
    requires cache.Valid() && FaithfulBiases(cache.entries)
    modifies cache
    ensures cache.Valid() && FaithfulBiases(cache.entries)
    ensures r.Refused? <==> match range
                            case Absent => measure != 0.0
                            case Rows(start, end) => start < 0 || end <= start || end > rows || measure > 0.0
    ensures r.NoBias? ==> measure == 0.0
    ensures r.Biased? ==> measure < 0.0 && range.Rows?
    ensures r.Biased? ==> |r.values| == rows
    ensures r.Biased? ==> forall i | 0 <= i < rows :: r.values[i] == if range.start <= i < range.end then measure else 0.0
    ensures !r.Biased? ==> cache.entries == old(cache.entries)
    ensures r.Biased? && 4 * rows <= 4194304 ==>
              cache.entries != [] && cache.entries[|cache.entries| - 1].key == BiasKey(semantic, rows, range.start, range.end, measure, device)
    ensures r.Biased? && 4 * rows > 4194304 ==> cache.entries == [] && cache.bytes == 0
  {
    if range.Absent? { return if measure != 0.0 then Refused else NoBias; }
    if !(0 <= range.start < range.end <= rows) || measure > 0.0 { return Refused; }
    if measure == 0.0 { return NoBias; }
    var k := BiasKey(semantic, rows, range.start, range.end, measure, device);
    var at := cache.Find(k);
    if at >= 0 {
      var hit := cache.entries[at];
      assert hit in cache.entries;
      SizeIsBounded(cache.entries, at);
      cache.MoveToEnd(at);
      return Biased(hit.value);
    }
    var bias := Bias(k);
    ghost var e := Entry(k, bias, 4 * rows);
    TrimmedIsLongestSuffix(cache.entries + [e]);
    if 4 * rows <= MAX_BYTES { LastSurvives(cache.entries, e); } else { OversizedTakesAll(cache.entries, e); }
    cache.Insert(k, bias, 4 * rows);
    return Biased(bias);
  }

  lemma {:induction false} SizeIsBounded<K, V>(es: seq<Entry<K, V>>, at: nat)
    requires at < |es|
    ensures es[at].size <= Bytes(es)
  {
    if at > 0 { SizeIsBounded(es[1..], at - 1); }
  }

  lemma OversizedTakesAll<K, V>(es: seq<Entry<K, V>>, e: Entry<K, V>)
    requires e.size > MAX_BYTES
    ensures Trimmed(es + [e]) == []
  {
    var all := es + [e];
    TrimmedIsLongestSuffix(all);
    SizeIsBounded([e], 0);
    BytesAtLeastLast(es, e, |Trimmed(all)|);
  }

  lemma BytesAtLeastLast<K, V>(es: seq<Entry<K, V>>, e: Entry<K, V>, n: nat)
    requires n <= |es| + 1
    ensures n > 0 ==> Bytes(Newest(es + [e], n)) >= e.size
  {
    if n > 0 { SizeIsBounded(Newest(es + [e], n), n - 1); }
  }
}
