/**
 The exact blocks of a range of blocks, as a list: what every kernel's selection machinery
 has to produce.
*/
module ChosenBlocks {
  import opened Basics
  import opened MixedOperator
  import opened RouteCompaction
  import opened Routing
  import opened ForwardSm120

  /** The exact blocks of lo..hi, in order. */
  function Chosen(route: Route, lo: nat, hi: nat): seq<nat>
    decreases hi
  {
    if hi <= lo then [] else if route(hi - 1) then Chosen(route, lo, hi - 1) + [hi - 1] else Chosen(route, lo, hi - 1)
  }

  lemma {:induction false} ChosenIsIncreasing(route: Route, lo: nat, hi: nat)
    ensures forall b: nat :: b in Chosen(route, lo, hi) <==> lo <= b < hi && route(b)
    ensures var c := Chosen(route, lo, hi); forall i, j | 0 <= i < j < |c| :: c[i] < c[j]
    decreases hi
  {
    if lo < hi {
      ChosenIsIncreasing(route, lo, hi - 1);
      var c := Chosen(route, lo, hi - 1);
      forall i | 0 <= i < |c| ensures c[i] < hi - 1 { assert c[i] in Chosen(route, lo, hi - 1); }
    }
  }

  lemma {:induction false} ChosenSplit(route: Route, lo: nat, mid: nat, hi: nat)
    requires lo <= mid <= hi
    ensures Chosen(route, lo, hi) == Chosen(route, lo, mid) + Chosen(route, mid, hi)
    decreases hi
  {
    if mid < hi { ChosenSplit(route, lo, mid, hi - 1); }
  }

  lemma {:induction false} ChosenTerms(t: Tile, route: Route, r: nat, lo: nat, hi: nat)
    ensures ListTerms(t, r, Chosen(route, lo, hi)) == t.ExactTerms(route, r, lo, hi)
    decreases hi
  {
    if lo < hi {
      ChosenTerms(t, route, r, lo, hi - 1);
      if route(hi - 1) { ListGrows(t, r, Chosen(route, lo, hi - 1), hi - 1); }
    }
  }

  lemma {:induction false} PickedIsChosen(route: Route, start: nat, valid: nat, votes: seq<bool>, n: nat)
    requires Votes(route, start, valid, votes) && n <= |votes|
    ensures Picked(votes[..n], start) == Chosen(route, start, start + Min(n, valid))
    decreases n
  {
    if n > 0 {
      PickedIsChosen(route, start, valid, votes, n - 1);
      PickedSnoc(votes, n - 1, start);
      assert votes[n - 1] == (n - 1 < valid && route(start + (n - 1)));
    } else {
      assert votes[..0] == [];
    }
  }
}
