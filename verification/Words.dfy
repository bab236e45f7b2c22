/**
 Machine words of ballots and route masks, as natural numbers (the unsigned reading
 of the 32-bit registers), with the bit tricks the kernels play on them.
*/
module Words {

  function Pow2(n: nat): (p: nat)
    ensures p >= 1
  {
    if n == 0 then 1 else 2 * Pow2(n - 1)
  }

  predicate Bit(w: nat, i: nat)
    decreases i
  {
    if i == 0 then w % 2 == 1 else Bit(w / 2, i - 1)
  }

  function And(a: nat, b: nat): nat
    decreases a
  {
    if a == 0 then 0 else 2 * And(a / 2, b / 2) + (if a % 2 == 1 && b % 2 == 1 then 1 else 0)
  }

  /** Population count. */
  function Popc(w: nat): nat { if w == 0 then 0 else w % 2 + Popc(w / 2) }

  lemma {:induction false} AndBit(a: nat, b: nat, i: nat)
    ensures Bit(And(a, b), i) <==> Bit(a, i) && Bit(b, i)
    decreases i
  {
    if a == 0 {
      ZeroBit(i);
    } else if i > 0 {
      assert And(a, b) / 2 == And(a / 2, b / 2);
      AndBit(a / 2, b / 2, i - 1);
    }
  }

  lemma {:induction false} ZeroBit(i: nat)
    ensures !Bit(0, i)
    decreases i
  {
    if i > 0 { ZeroBit(i - 1); }
  }

  // ----- ballots -----

  /** vote_ballot_sync: bit i is the vote of lane i. */
  function Ballot(votes: seq<bool>): nat {
    if votes == [] then 0 else (if votes[0] then 1 else 0) + 2 * Ballot(votes[1..])
  }

  function Count(votes: seq<bool>): (n: nat)
    ensures n <= |votes|
  {
    if votes == [] then 0 else (if votes[0] then 1 else 0) + Count(votes[1..])
  }

  lemma {:induction false} BallotBit(votes: seq<bool>, i: nat)
    ensures Bit(Ballot(votes), i) <==> i < |votes| && votes[i]
    decreases i
  {
    if votes == [] { ZeroBit(i); }
    else if i > 0 { BallotBit(votes[1..], i - 1); }
  }

  lemma {:induction false} PopcBallot(votes: seq<bool>)
    ensures Popc(Ballot(votes)) == Count(votes)
    decreases |votes|
  {
    if votes != [] {
      PopcBallot(votes[1..]);
      assert Ballot(votes) / 2 == Ballot(votes[1..]);
    }
  }

  /** Right shift of a word whose sign bit is clear. */
  function Shr(w: nat, k: nat): nat
    decreases k
  {
    if k == 0 then w else Shr(w / 2, k - 1)
  }

  /** The kernels' mask of the lanes below `lane`: 0x7FFFFFFF >> (31 - lane). */
  function LanesBelow(lane: nat): nat
    requires lane < 32
  {
    Shr(0x7FFF_FFFF, 31 - lane)
  }

  lemma {:induction false} ShiftOnes(a: nat, b: nat)
    ensures Shr(Pow2(a + b) - 1, b) == Pow2(a) - 1
    decreases b
  {
    if b > 0 {
      assert (Pow2(a + b) - 1) / 2 == Pow2(a + b - 1) - 1;
      ShiftOnes(a, b - 1);
    }
  }

  lemma {:induction false} Pow2Sum(a: nat, b: nat)
    ensures Pow2(a + b) == Pow2(a) * Pow2(b)
  {
    if a > 0 { Pow2Sum(a - 1, b); }
  }

  lemma SmallPowers()
    ensures Pow2(7) == 0x80 && Pow2(8) == 0x100
  {
  }

  lemma LargePowers()
    ensures Pow2(16) == 0x1_0000 && Pow2(31) == 0x8000_0000 && Pow2(32) == 0x1_0000_0000
  {
    SmallPowers();
    hide Pow2;
    Pow2Sum(8, 8);
    Pow2Sum(8, 7);
    Pow2Sum(16, 15);
    Pow2Sum(16, 16);
  }

  /** The shift yields 2^lane - 1 in every lane; a `1 << 31` is never formed. */
  lemma LanesBelowIsOnes(lane: nat)
    requires lane < 32
    ensures LanesBelow(lane) == Pow2(lane) - 1
  {
    LargePowers();
    hide Pow2, Shr;
    ShiftOnes(lane, 31 - lane);
  }

  lemma {:induction false} PopcBelow(votes: seq<bool>, n: nat)
    requires n <= |votes|
    ensures Popc(And(Ballot(votes), Pow2(n) - 1)) == Count(votes[..n])
    decreases n
  {
    if n == 0 {
      AndZero(Ballot(votes));
    } else {
      var b, m := Ballot(votes), Pow2(n) - 1;
      assert m % 2 == 1 && m / 2 == Pow2(n - 1) - 1;
      assert b / 2 == Ballot(votes[1..]);
      assert votes[1..][..n - 1] == votes[..n][1..];
      PopcBelow(votes[1..], n - 1);
    }
  }

  lemma {:induction false} AndZero(a: nat)
    ensures And(a, 0) == 0
    decreases a
  {
    if a > 0 { AndZero(a / 2); }
  }

  /** A selected lane's rank is the number of selected lanes before it. */
  lemma RankIsCount(votes: seq<bool>, lane: nat)
    requires |votes| == 32 && lane < 32
    ensures Popc(And(Ballot(votes), LanesBelow(lane))) == Count(votes[..lane])
  {
    LanesBelowIsOnes(lane);
    PopcBelow(votes, lane);
  }
}
