/**
 The request's cache of validated maps and compiled plans: an ordered dictionary of
 at most 64 entries, least recently used first.
*/
module PlanCache {
  import opened MappedNeighbors
  import opened WireMap

  const MAX_ENTRIES: nat := 64

  /** A cached plan, or the marker of a map that has not been compiled yet. */
  datatype Slot = Uncompiled | Known(plan: Plan)

  datatype Entry = Entry(key: Key, validated: Validated, slot: Slot)

  /** The entry holds what an uncached validation and compilation would give. */
  ghost predicate Truthful(e: Entry) {
    && Safe(e.key) && ValidatesTo(e.key.value, e.key.q, e.key.kv, e.key.sink, Ok(e.validated))
    && (e.slot.Known? ==> Compiled(e.validated, Ok(e.slot.plan)))
  }

  /** `v` is the result of some validation. */
  ghost predicate Genuine(v: Validated) {
    ValidatesTo(WireOf(v), Int(v.qRows), Int(v.kvRows), Int(v.sinkRows), Ok(v))
  }

  function KeyOf(v: Validated): Key { Key(WireOf(v), Int(v.qRows), Int(v.kvRows), Int(v.sinkRows)) }

  predicate Distinct(es: seq<Entry>) { forall i, j | 0 <= i < j < |es| :: es[i].key != es[j].key }

  predicate Has(es: seq<Entry>, k: Key) { exists i :: 0 <= i < |es| && es[i].key == k }

  /** All entries but the one under `k`. */
  function Without(es: seq<Entry>, k: Key): seq<Entry> {
    if es == [] then []
    else if es[|es| - 1].key == k then Without(es[..|es| - 1], k)
    else Without(es[..|es| - 1], k) + [es[|es| - 1]]
  }

  /** `e` becomes the most recent entry; the oldest give way beyond the limit. */
  function Stored(es: seq<Entry>, e: Entry): seq<Entry> {
    var s := Without(es, e.key) + [e];
    if |s| > MAX_ENTRIES then s[|s| - MAX_ENTRIES..] else s
  }

  ghost predicate AllTruthful(es: seq<Entry>) { forall i | 0 <= i < |es| :: Truthful(es[i]) }

  lemma {:induction false} WithoutKeeps(es: seq<Entry>, k: Key)
    requires Distinct(es) && AllTruthful(es)
    ensures Distinct(Without(es, k)) && AllTruthful(Without(es, k)) && !Has(Without(es, k), k)
    ensures |Without(es, k)| == |es| - if Has(es, k) then 1 else 0
    ensures forall e | e in Without(es, k) :: e in es
    decreases |es|
  {
    hide Truthful;
    if es != [] {
      var init, last := es[..|es| - 1], es[|es| - 1];
      WithoutKeeps(init, k);
      assert Has(es, k) <==> Has(init, k) || last.key == k;
      assert forall i | 0 <= i < |Without(init, k)| :: Without(init, k)[i] in Without(init, k);
    }
  }

  lemma StoredKeeps(es: seq<Entry>, e: Entry)
    requires Distinct(es) && AllTruthful(es) && |es| <= MAX_ENTRIES && Truthful(e)
    ensures var s := Stored(es, e); Distinct(s) && AllTruthful(s) && s[|s| - 1] == e
    ensures |Stored(es, e)| == if Has(es, e.key) then |es| else if |es| < 64 then |es| + 1 else 64
  {
    hide Truthful, Without;
    WithoutKeeps(es, e.key);
  }

  /** Where the entry is new, the most recent 63 stay behind it; where it replaces one, all others stay,
      and in either case in their order. */
  lemma StoredExactly(es: seq<Entry>, e: Entry, before: seq<Entry>, same: seq<Entry>, after: seq<Entry>)
    requires |es| <= 64 && es == before + same + after && |same| <= 1
    requires forall i | 0 <= i < |before| :: before[i].key != e.key
    requires forall i | 0 <= i < |after| :: after[i].key != e.key
    requires same != [] ==> same[0].key == e.key
    ensures Stored(es, e) == if same == [] && |es| == 64 then es[1..] + [e] else before + after + [e]
  {
    WithoutExactly(e.key, before, same, after);
    hide Without;
    var full := before + after + [e];
    if same == [] {
      assert before + same + after == before + after == es;
      if |es| == 64 { assert full[1..] == es[1..] + [e]; }
    }
  }

  lemma WithoutExactly(k: Key, before: seq<Entry>, same: seq<Entry>, after: seq<Entry>)
    requires |same| <= 1 && (same != [] ==> same[0].key == k)
    requires forall i | 0 <= i < |before| :: before[i].key != k
    requires forall i | 0 <= i < |after| :: after[i].key != k
    ensures Without(before + same + after, k) == before + after
  {
    NotAmong(before, k);
    NotAmong(after, k);
    WithoutConcat(before + same, after, k);
    WithoutConcat(before, same, k);
    WithoutAbsent(before, k);
    WithoutAbsent(after, k);
    assert same != [] ==> same[..0] == [];
    assert Without(same, k) == [];
  }

  lemma NotAmong(es: seq<Entry>, k: Key)
    requires forall i | 0 <= i < |es| :: es[i].key != k
    ensures !Has(es, k)
  {
  }

  lemma {:induction false} WithoutConcat(a: seq<Entry>, b: seq<Entry>, k: Key)
    ensures Without(a + b, k) == Without(a, k) + Without(b, k)
    decreases |b|
  {
    if b == [] {
      assert a + b == a;
    } else {
      assert (a + b)[..|a + b| - 1] == a + b[..|b| - 1];
      WithoutConcat(a, b[..|b| - 1], k);
    }
  }

  /** The `n` most recent entries. */
  function Newest(es: seq<Entry>, n: nat): (newest: seq<Entry>)
    ensures n <= |es| ==> |newest| == n
  {
    if n <= |es| then es[|es| - n..] else []
  }

  lemma NewestIsAll(es: seq<Entry>)
    ensures Newest(es, |es|) == es
  {
  }

  lemma DropOldest(es: seq<Entry>, n: nat)
    requires 0 < n <= |es|
    ensures Newest(es, n)[1..] == Newest(es, n - 1)
  {
  }

  lemma StoredIsNewest(es: seq<Entry>, e: Entry)
    requires Distinct(es) && AllTruthful(es) && |es| <= MAX_ENTRIES
    ensures var full := Without(es, e.key) + [e];
            |full| <= MAX_ENTRIES + 1 && Stored(es, e) == Newest(full, if |full| > MAX_ENTRIES then MAX_ENTRIES else |full|)
  {
    WithoutKeeps(es, e.key);
  }

  class Cache {
    var entries: seq<Entry>

    ghost predicate Valid()
      reads this
    {
      |entries| <= MAX_ENTRIES && Distinct(entries) && AllTruthful(entries)
    }

    constructor ()
      ensures Valid() && entries == []
    {
      entries := [];
    }

    /** Dictionary lookup: by Python equality, among safe keys. */
    method Find(k: Key) returns (at: int)
      requires Valid() && Safe(k)
      ensures -1 <= at < |entries|
      ensures at >= 0 ==> entries[at].key == k
      ensures at == -1 ==> !Has(entries, k)
    {
      at := 0;
      while at < |entries|
        invariant 0 <= at <= |entries| && forall i | 0 <= i < at :: entries[i].key != k
      {
        if KeyEq(entries[at].key, k) {
          SafeKeysAreExact(entries[at].key, k);
          return;
        }
        EqualKeysMatch(k);
        at := at + 1;
      }
      at := -1;
    }

    /** _cache_store: assign, move to the end, evict from the front. */
    method Store(e: Entry)
      requires Valid() && Truthful(e)
      modifies this
      ensures Valid() && entries == Stored(old(entries), e)
    {
      StoredKeeps(entries, e);
      StoredIsNewest(entries, e);
      hide Truthful, Without, Distinct, AllTruthful, Stored, Newest;
      entries := Without(entries, e.key) + [e];
      ghost var full := entries;
      NewestIsAll(full);
      while |entries| > MAX_ENTRIES
        invariant |entries| <= |full| && entries == Newest(full, |entries|)
        invariant |entries| == |full| || |entries| == MAX_ENTRIES
      {
        DropOldest(full, |entries|);
        entries := entries[1..];
      }
    }

    /** validate_wire_map: a safe key that is cached answers at once, everything else is
        validated, and what is accepted is cached.  The answer is always the uncached one. */
    method ValidateWireMap(value: Val, q: Val, kv: Val, sink: Val) returns (r: Result<Validated>)
      requires Valid()
      modifies this
      ensures Valid() && ValidatesTo(value, q, kv, sink, r)
      ensures r.Unavailable? ==> entries == old(entries)
      ensures r.Ok? ==> forall e | e in old(entries) && e.key == Key(value, q, kv, sink) :: entries == Stored(old(entries), e)
      ensures r.Ok? && !Has(old(entries), Key(value, q, kv, sink)) ==>
                entries == Stored(old(entries), Entry(Key(value, q, kv, sink), r.value, Uncompiled))
    {
      var k := Key(value, q, kv, sink);
      if Safe(k) {
        var at := Find(k);
        if at >= 0 {
          var hit := entries[at];
          Store(hit);
          return Ok(hit.validated);
        }
      }
      r := Validate(value, q, kv, sink);
      if r.Ok? {
        AcceptedIsSafe(k, r.value);
        Store(Entry(k, r.value, Uncompiled));
      }
    }

    /** compile_descriptor: a cached plan answers at once; otherwise the map is compiled
        and the plan cached.  The answer is always the uncached one, and the cached map is
        never a different one from the map asked for. */
    method CompileDescriptor(v: Validated) returns (r: Result<Plan>, identityChanged: bool)
      requires Valid() && Genuine(v)
      modifies this
      ensures Valid() && !identityChanged && Compiled(v, r)
      ensures r.Ok? ==> entries == Stored(old(entries), Entry(KeyOf(v), v, Known(r.value)))
      ensures r.Unavailable? ==> forall e | e in old(entries) && e.key == KeyOf(v) :: entries == Stored(old(entries), e)
      ensures r.Unavailable? && !Has(old(entries), KeyOf(v)) ==> entries == old(entries)
    {
      var k := KeyOf(v);
      AcceptedIsSafe(k, v);
      assert v.Ok();
      hide Truthful, Distinct, AllTruthful, Stored, Genuine, Compiled, Safe, KeyOf, Validated.Ok;
      identityChanged := false;
      var at := Find(k);
      if at >= 0 {
        var hit := entries[at];
        HitIsRight(entries, at, v);
        Store(hit);
        if hit.validated != v {
          identityChanged := true;
          return Unavailable(Schema), identityChanged;
        }
        if hit.slot.Known? { return Ok(hit.slot.plan), identityChanged; }
      }
      r := CompileMap(v);
      if r.Ok? {
        PlanIsTruthful(v, r.value);
        Store(Entry(k, v, Known(r.value)));
        if at >= 0 { StoredTwice(old(entries), old(entries)[at], Entry(k, v, Known(r.value))); }
      }
    }
  }

  /** A hit holds the map asked for, and its plan if there is one is that map's. */
  lemma HitIsRight(es: seq<Entry>, at: nat, v: Validated)
    requires AllTruthful(es) && at < |es| && es[at].key == KeyOf(v) && Genuine(v)
    ensures Truthful(es[at]) && es[at].validated == v
    ensures es[at].slot.Known? ==> Compiled(v, Ok(es[at].slot.plan))
  {
    var k := KeyOf(v);
    ValidationIsUnique(k.value, k.q, k.kv, k.sink, Ok(es[at].validated), Ok(v));
  }

  lemma PlanIsTruthful(v: Validated, plan: Plan)
    requires Genuine(v) && Compiled(v, Ok(plan))
    ensures Truthful(Entry(KeyOf(v), v, Known(plan)))
  {
    AcceptedIsSafe(KeyOf(v), v);
  }

  lemma EqualKeysMatch(k: Key)
    ensures KeyEq(k, k)
  {
    ValEqualsItself(k.value);
    ValEqualsItself(k.q);
    ValEqualsItself(k.kv);
    ValEqualsItself(k.sink);
  }

  lemma {:induction false} ValEqualsItself(v: Val)
    ensures PyEq(v, v)
  {
    if v.Tuple? {
      forall i | 0 <= i < |v.items| ensures PyEq(v.items[i], v.items[i]) { ValEqualsItself(v.items[i]); }
    }
  }

  lemma {:induction false} WithoutAbsent(es: seq<Entry>, k: Key)
    requires !Has(es, k)
    ensures Without(es, k) == es
    decreases |es|
  {
    if es != [] {
      var init := es[..|es| - 1];
      assert es[|es| - 1].key != k;
      assert forall i | 0 <= i < |init| :: init[i] == es[i] && es[i].key != k;
      WithoutAbsent(init, k);
    }
  }

  /** Moving an entry to the end and then replacing it is the same as storing at once. */
  lemma StoredTwice(es: seq<Entry>, a: Entry, b: Entry)
    requires Distinct(es) && AllTruthful(es) && |es| <= MAX_ENTRIES && a in es && a.key == b.key
    ensures Stored(Stored(es, a), b) == Stored(es, b)
  {
    WithoutKeeps(es, a.key);
    assert Has(es, a.key);
    var w := Without(es, a.key);
    assert (w + [a])[..|w|] == w;
    WithoutAbsent(w, a.key);
  }
}
