/** Small things that many modules share. */
module Basics {
  datatype Option<T> = None | Some(value: T)

  function Min(a: nat, b: nat): nat { if a <= b then a else b }

  function Last<T>(s: seq<T>): T
    requires s != []
  {
    s[|s| - 1]
  }

  function Init<T>(s: seq<T>): seq<T>
    requires s != []
  {
    s[..|s| - 1]
  }

  /** All lists of a list of lists, one after the other. */
  function Flatten<T>(ss: seq<seq<T>>): seq<T> {
    if ss == [] then [] else Flatten(ss[..|ss| - 1]) + ss[|ss| - 1]
  }

  lemma FlattenSnoc<T>(ss: seq<seq<T>>, s: seq<T>)
    ensures Flatten(ss + [s]) == Flatten(ss) + s
  {
    assert (ss + [s])[..|ss|] == ss;
  }

  lemma {:induction false} FlattenConcat<T>(a: seq<seq<T>>, b: seq<seq<T>>)
    ensures Flatten(a + b) == Flatten(a) + Flatten(b)
    decreases |b|
  {
    if b == [] {
      assert a + b == a;
    } else {
      assert (a + b)[..|a + b| - 1] == a + b[..|b| - 1];
      FlattenConcat(a, b[..|b| - 1]);
    }
  }

  /** Of two lists with the same elements, the last of one can be taken out of the other. */
  lemma TakeLast<T>(a: seq<T>, b: seq<T>) returns (i: nat)
    requires a != [] && multiset(a) == multiset(b)
    ensures i < |b| && b == b[..i] + [Last(a)] + b[i + 1..]
    ensures multiset(Init(a)) == multiset(b[..i] + b[i + 1..])
  {
    var k := Last(a);
    assert a == Init(a) + [k];
    assert k in multiset(b);
    i :| 0 <= i < |b| && b[i] == k;
    assert b == b[..i] + [k] + b[i + 1..];
    var rest, others := multiset(Init(a)), multiset(b[..i] + b[i + 1..]);
    assert multiset(a) == rest + multiset{k} && multiset(b) == others + multiset{k};
    assert rest == multiset(a) - multiset{k} && others == multiset(b) - multiset{k};
  }

  // ----- sums -----

  function SumAll(s: seq<real>): real { if s == [] then 0.0 else SumAll(s[..|s| - 1]) + s[|s| - 1] }

  lemma {:induction false} SumAllConcat(a: seq<real>, b: seq<real>)
    ensures SumAll(a + b) == SumAll(a) + SumAll(b)
    decreases |b|
  {
    if b == [] {
      assert a + b == a;
    } else {
      assert (a + b)[..|a + b| - 1] == a + b[..|b| - 1];
      SumAllConcat(a, b[..|b| - 1]);
    }
  }

  /** Running sums give the sum of any part. */
  lemma {:induction false} SumOfPart(v: seq<real>, sums: nat -> real, lo: nat, n: nat)
    requires lo + n <= |v| && forall u: nat {:trigger v[u]} | u < |v| :: sums(u + 1) == sums(u) + v[u]
    ensures SumAll(v[lo..lo + n]) == sums(lo + n) - sums(lo)
    decreases n
  {
    if n > 0 {
      SumOfPart(v, sums, lo, n - 1);
      var part := v[lo..lo + n];
      assert part[..n - 1] == v[lo..lo + (n - 1)] && part[n - 1] == v[lo + n - 1];
      assert sums(lo + n - 1 + 1) == sums(lo + n - 1) + v[lo + n - 1];
    }
  }

  /** A SHA-256 digest in lower-case hexadecimal. */
  predicate IsDigest(s: string) {
    |s| == 64 && forall i | 0 <= i < 64 :: '0' <= s[i] <= '9' || 'a' <= s[i] <= 'f'
  }
}
