/**
 Warp 0's compaction of a route group's exact blocks into an index list, by ballot
 and population count, and the column masks that go with it.
*/
module RouteCompaction {
  import opened Exponential
  import opened Words

  /** The selected blocks, in order: column i of the group is block start + i. */
  function Picked(votes: seq<bool>, start: nat): seq<nat> {
    if votes == [] then []
    else if votes[|votes| - 1] then Picked(votes[..|votes| - 1], start) + [start + |votes| - 1]
    else Picked(votes[..|votes| - 1], start)
  }

  lemma {:induction false} CountSplit(a: seq<bool>, b: seq<bool>)
    ensures Count(a + b) == Count(a) + Count(b)
    decreases |a|
  {
    if a == [] {
      assert a + b == b;
    } else {
      assert (a + b)[1..] == a[1..] + b;
      CountSplit(a[1..], b);
    }
  }

  lemma CountSnoc(votes: seq<bool>, i: nat)
    requires i < |votes|
    ensures Count(votes[..i + 1]) == Count(votes[..i]) + if votes[i] then 1 else 0
  {
    assert votes[..i + 1] == votes[..i] + [votes[i]];
    CountSplit(votes[..i], [votes[i]]);
  }

  /** Ranks of selected columns are distinct and increase with the column. */
  lemma {:induction false} RanksIncrease(votes: seq<bool>, i: nat, j: nat)
    requires i < j <= |votes|
    ensures Count(votes[..i]) + (if votes[i] then 1 else 0) <= Count(votes[..j])
    decreases j
  {
    if i + 1 < j {
      RanksIncrease(votes, i, j - 1);
      CountSnoc(votes, j - 1);
    } else {
      CountSnoc(votes, i);
    }
  }

  /** The list has one entry per vote, and a selected column's entry sits at its rank. */
  lemma {:induction false} PickedAtRank(votes: seq<bool>, start: nat)
    ensures |Picked(votes, start)| == Count(votes)
    ensures forall i | 0 <= i < |votes| && votes[i] ::
              Count(votes[..i]) < Count(votes) && Picked(votes, start)[Count(votes[..i])] == start + i
    decreases |votes|
  {
    if votes != [] {
      var n := |votes| - 1;
      var init := votes[..n];
      PickedAtRank(init, start);
      CountSnoc(votes, n);
      assert votes[..n + 1] == votes;
      assert forall i | 0 <= i < n :: votes[..i] == init[..i];
    }
  }

  /** The list is strictly increasing and holds exactly the selected blocks. */
  lemma {:induction false} PickedIsTheSelection(votes: seq<bool>, start: nat)
    ensures forall b :: b in Picked(votes, start) <==> start <= b < start + |votes| && votes[b - start]
    ensures forall i, j | 0 <= i < j < |Picked(votes, start)| :: Picked(votes, start)[i] < Picked(votes, start)[j]
    decreases |votes|
  {
    if votes != [] {
      var init := Picked(votes[..|votes| - 1], start);
      PickedIsTheSelection(votes[..|votes| - 1], start);
      assert forall i | 0 <= i < |init| :: init[i] in init;
    }
  }

  lemma {:induction false} PickedSplit(a: seq<bool>, b: seq<bool>, start: nat)
    ensures Picked(a + b, start) == Picked(a, start) + Picked(b, start + |a|)
    decreases |b|
  {
    if b == [] {
      assert a + b == a;
    } else {
      assert (a + b)[..|a + b| - 1] == a + b[..|b| - 1];
      PickedSplit(a, b[..|b| - 1], start);
    }
  }

  /** The 32 lanes of a warp, in the order in which they happen to store. */
  predicate LaneOrder(order: seq<nat>) {
    |order| == 32 && (forall k | 0 <= k < 32 :: order[k] < 32) && forall l: nat | l < 32 :: l in order
  }

  predicate Mask(votes: seq<bool>, valid: nat, i: nat, m: Ext)
    requires i < |votes|
  {
    m == if votes[i] || i >= valid then NegInf else Fin(0.0)
  }

  /** One ballot word: every lane stores its column mask and, if selected, its block
      at its rank, the lanes in any order. */
  method CompactWord(votes: seq<bool>, word: nat, valid: nat, start: nat, rank0: nat, order: seq<nat>,
                     indices: array<nat>, masks: array<Ext>) returns (next: nat)
    requires 32 * (word + 1) <= |votes| == masks.Length && rank0 + 32 <= indices.Length && LaneOrder(order)
    modifies indices, masks
    ensures var mine := votes[32 * word..32 * (word + 1)];
            && next == rank0 + Count(mine)
            && indices[rank0..next] == Picked(mine, start + 32 * word)
    ensures indices[..rank0] == old(indices[..rank0])
    ensures forall i: nat | 32 * word <= i < 32 * (word + 1) :: Mask(votes, valid, i, masks[i])
    ensures forall i: nat | i < |votes| && !(32 * word <= i < 32 * (word + 1)) :: masks[i] == old(masks[i])
  {
    hide Ballot, And, Popc, LanesBelow, Count, Picked;
    ghost var mine := votes[32 * word..32 * (word + 1)];
    var ballot := Ballot(votes[32 * word..32 * (word + 1)]);
    PickedAtRank(mine, start + 32 * word);
    for k := 0 to 32
      invariant indices[..rank0] == old(indices[..rank0])
      invariant forall i: nat | i < |votes| && !(32 * word <= i < 32 * (word + 1)) :: masks[i] == old(masks[i])
      invariant forall h | 0 <= h < k ::
        && Mask(votes, valid, 32 * word + order[h], masks[32 * word + order[h]])
        && (mine[order[h]] ==> indices[rank0 + Count(mine[..order[h]])] == start + 32 * word + order[h])
    {
      var lane := order[k];
      var off := 32 * word + lane;
      masks[off] := if votes[off] || off >= valid then NegInf else Fin(0.0);
      RankIsCount(mine, lane);
      var rank := rank0 + Popc(And(ballot, LanesBelow(lane)));
      if votes[off] {
        RanksDiffer(mine, order, k, lane);
        indices[rank] := start + off;
      }
    }
    next := rank0 + Popc(ballot);
    PopcBallot(mine);
    AllLanesStored(mine, order, start + 32 * word, rank0, indices[..]);
    assert indices[rank0..next] == Picked(mine, start + 32 * word);
    forall i: nat | 32 * word <= i < 32 * (word + 1) ensures Mask(votes, valid, i, masks[i]) {
      assert (i - 32 * word) as nat in order;
    }
  }

  /** Two selected lanes never store at the same rank. */
  lemma RanksDiffer(mine: seq<bool>, order: seq<nat>, k: nat, lane: nat)
    requires |mine| == 32 && LaneOrder(order) && k <= 32 && lane < 32 && mine[lane]
    ensures forall h | 0 <= h < k && mine[order[h]] && order[h] != lane :: Count(mine[..order[h]]) != Count(mine[..lane])
  {
    forall h | 0 <= h < k && mine[order[h]] && order[h] != lane
      ensures Count(mine[..order[h]]) != Count(mine[..lane])
    {
      if order[h] < lane { RanksIncrease(mine, order[h], lane); } else { RanksIncrease(mine, lane, order[h]); }
    }
  }

  lemma {:induction false} EveryRankIsTaken(mine: seq<bool>, r: nat) returns (lane: nat)
    requires r < Count(mine)
    ensures lane < |mine| && mine[lane] && Count(mine[..lane]) == r
    decreases |mine|
  {
    var n := |mine| - 1;
    CountSnoc(mine, n);
    assert mine[..n + 1] == mine;
    if mine[n] && r == Count(mine[..n]) {
      lane := n;
    } else {
      lane := EveryRankIsTaken(mine[..n], r);
      assert mine[..n][..lane] == mine[..lane];
    }
  }

  lemma AllLanesStored(mine: seq<bool>, order: seq<nat>, start: nat, rank0: nat, indices: seq<nat>)
    requires |mine| == 32 && LaneOrder(order) && rank0 + 32 <= |indices|
    requires forall h | 0 <= h < 32 :: mine[order[h]] ==> indices[rank0 + Count(mine[..order[h]])] == start + order[h]
    ensures indices[rank0..rank0 + Count(mine)] == Picked(mine, start)
  {
    PickedAtRank(mine, start);
    forall r: nat | r < Count(mine) ensures indices[rank0 + r] == Picked(mine, start)[r] {
      var lane := EveryRankIsTaken(mine, r);
      assert lane in order;
    }
  }

  lemma NoneCounted(votes: seq<bool>, start: nat)
    ensures Count(votes[..0]) == 0 && Picked(votes[..0], start) == []
  {
    assert votes[..0] == [];
  }

  lemma Joined(now: seq<nat>, kept: seq<nat>, base: nat, next: nat)
    requires base <= |kept| <= next <= |now| && now[..|kept|] == kept
    ensures now[base..next] == kept[base..] + now[|kept|..next] && now[..base] == kept[..base]
  {
    assert now[base..|kept|] == now[..|kept|][base..];
    assert now[..base] == now[..|kept|][..base];
  }

  /** All ballot words of a route step, appending at `base`. */
  method Compact(votes: seq<bool>, valid: nat, start: nat, base: nat, orders: seq<seq<nat>>,
                 indices: array<nat>, masks: array<Ext>) returns (total: nat)
    requires |votes| == 32 * |orders| == masks.Length && base + |votes| <= indices.Length
    requires forall w | 0 <= w < |orders| :: LaneOrder(orders[w])
    modifies indices, masks
    ensures total == base + Count(votes)
    ensures indices[base..total] == Picked(votes, start) && indices[..base] == old(indices[..base])
    ensures forall i: nat | i < |votes| :: Mask(votes, valid, i, masks[i])
  {
    hide Count, Picked, Mask, LaneOrder;
    NoneCounted(votes, start);
    total := base;
    for word := 0 to |orders|
      invariant total == base + Count(votes[..32 * word])
      invariant indices[base..total] == Picked(votes[..32 * word], start)
      invariant indices[..base] == old(indices[..base])
      invariant forall i: nat | i < 32 * word :: Mask(votes, valid, i, masks[i])
    {
      ghost var before, mine := votes[..32 * word], votes[32 * word..32 * (word + 1)];
      ghost var kept := indices[..total];
      var next := CompactWord(votes, word, valid, start, total, orders[word], indices, masks);
      CountSplit(before, mine);
      PickedSplit(before, mine, start);
      assert votes[..32 * (word + 1)] == before + mine;
      Joined(indices[..], kept, base, next);
      total := next;
    }
    assert votes[..32 * |orders|] == votes;
  }
}
