/**
 The SM90 mainloop's walk over a route group's exact blocks: the route mask is scanned
 by lowest set bit, the first block having been removed and requested beforehand, and
 each pass requests the K rows of the block after it.  The last pass of a group
 requests the next group's KC instead, which the next prologue then skips.

 The methods build the instruction stream of the issuing warp in the terms of module
 `KvProgram` (one K stage, one V stage, four warps, warp 0 issues), so what module
 `WarpMachine` proves about accepted streams holds of it.
*/
module Sm90Scan {
  import opened Words
  import opened KvProgram
  import opened RouteCompaction
  import opened WarpMachine

  const GROUP: nat := 64

  // ----- scanning a word -----

  function Lowest(w: nat): nat
    requires w > 0
  {
    if w % 2 == 1 then 0 else 1 + Lowest(w / 2)
  }

  /** bfind: the highest set bit. */
  function Bfind(w: nat): nat
    requires w > 0
  {
    if w == 1 then 0 else 1 + Bfind(w / 2)
  }

  lemma {:induction false} AndComplement(w: nat, n: nat)
    requires w < Pow2(n)
    ensures And(w, Pow2(n) - 1 - w) == 0
    decreases n
  {
    if w > 0 {
      assert (Pow2(n) - 1 - w) / 2 == Pow2(n - 1) - 1 - w / 2;
      AndComplement(w / 2, n - 1);
    }
  }

  /** `w & -w` in an n-bit register keeps the lowest set bit alone. */
  lemma {:induction false} LowBit(w: nat, n: nat)
    requires 0 < w < Pow2(n)
    ensures Lowest(w) < n && And(w, Pow2(n) - w) == Pow2(Lowest(w))
    decreases n
  {
    assert n > 0;
    if w % 2 == 1 {
      assert (Pow2(n) - w) / 2 == Pow2(n - 1) - 1 - w / 2;
      AndComplement(w / 2, n - 1);
    } else {
      assert (Pow2(n) - w) / 2 == Pow2(n - 1) - w / 2;
      LowBit(w / 2, n - 1);
    }
  }

  lemma {:induction false} BfindPow2(k: nat)
    ensures Bfind(Pow2(k)) == k
  {
    if k > 0 {
      assert Pow2(k) / 2 == Pow2(k - 1);
      BfindPow2(k - 1);
    }
  }

  lemma {:induction false} AndSelf(w: nat)
    ensures And(w, w) == w
    decreases w
  {
    if w > 0 { AndSelf(w / 2); }
  }

  /** `w & (w - 1)` clears the lowest set bit and nothing else. */
  lemma {:induction false} ClearLow(w: nat, i: nat)
    requires w > 0
    ensures And(w, w - 1) < w
    ensures Bit(And(w, w - 1), i) <==> Bit(w, i) && i != Lowest(w)
    ensures Bit(w, i) ==> i >= Lowest(w)
    decreases w
  {
    var h := w / 2;
    assert And(w, w - 1) / 2 == And(h, (w - 1) / 2);
    if w % 2 == 1 {
      assert (w - 1) / 2 == h;
      AndSelf(h);
    } else {
      assert (w - 1) / 2 == h - 1;
      ClearLow(h, if i == 0 then 0 else i - 1);
    }
  }

  /** The bits of a word, lowest first, as block numbers. */
  function Peel(w: nat, base: nat): seq<nat>
    decreases w
  {
    if w == 0 then [] else
      ClearLow(w, 0);
      [base + Lowest(w)] + Peel(And(w, w - 1), base)
  }

  lemma {:induction false} PeelIsIncreasing(w: nat, base: nat)
    ensures forall b :: b in Peel(w, base) <==> b >= base && Bit(w, b - base)
    ensures forall i, j | 0 <= i < j < |Peel(w, base)| :: Peel(w, base)[i] < Peel(w, base)[j]
    decreases w
  {
    if w == 0 {
      forall i: nat ensures !Bit(0, i) { ZeroBit(i); }
    } else {
      var rest := And(w, w - 1);
      forall i: nat
        ensures Bit(rest, i) <==> Bit(w, i) && i != Lowest(w)
        ensures Bit(w, i) ==> i >= Lowest(w)
      {
        ClearLow(w, i);
      }
      ClearLow(w, 0);
      LowestIsSet(w);
      PeelIsIncreasing(rest, base);
      assert forall j | 0 <= j < |Peel(rest, base)| :: Peel(rest, base)[j] in Peel(rest, base);
    }
  }

  lemma {:induction false} LowestIsSet(w: nat)
    requires w > 0
    ensures Bit(w, Lowest(w))
  {
    if w % 2 == 0 { LowestIsSet(w / 2); }
  }

  function Low(w: nat): (votes: seq<bool>)
    ensures |votes| == 32 && forall i | 0 <= i < 32 :: votes[i] == Bit(w, i)
  {
    seq(32, i requires 0 <= i < 32 => Bit(w, i))
  }

  lemma {:induction false} HighBits(w: nat, n: nat, i: nat)
    requires w < Pow2(n) && i >= n
    ensures !Bit(w, i)
    decreases n
  {
    if n == 0 { ZeroBit(i); } else { HighBits(w / 2, n - 1, i - 1); }
  }

  lemma {:induction false} IncreasingIsUnique(a: seq<nat>, b: seq<nat>)
    requires forall i, j | 0 <= i < j < |a| :: a[i] < a[j]
    requires forall i, j | 0 <= i < j < |b| :: b[i] < b[j]
    requires forall x :: x in a <==> x in b
    ensures a == b
    decreases |a|
  {
    assert b != [] ==> b[0] in a;
    if a != [] {
      assert a[0] in b && b[0] in a;
      assert a[0] == b[0];
      forall x ensures x in a[1..] <==> x in b[1..] {
        assert x in a <==> x == a[0] || x in a[1..];
        assert x in b <==> x == b[0] || x in b[1..];
      }
      IncreasingIsUnique(a[1..], b[1..]);
    }
  }

  const WORD: nat := 0x1_0000_0000

  predicate Word(w: nat) { w < WORD }

  lemma WordIs32Bits()
    ensures WORD == Pow2(32)
  {
    LargePowers();
  }

  /** The scan visits every set bit of a 32-bit word once, in increasing order. */
  lemma ScanIsTheSelection(w: nat, base: nat)
    requires Word(w)
    ensures Peel(w, base) == Picked(Low(w), base)
  {
    hide Pow2, Bit, And, Peel, Picked;
    WordIs32Bits();
    PeelIsIncreasing(w, base);
    PickedIsTheSelection(Low(w), base);
    forall b ensures b in Peel(w, base) <==> b in Picked(Low(w), base) {
      if b >= base + 32 { HighBits(w, 32, b - base); }
    }
    IncreasingIsUnique(Peel(w, base), Picked(Low(w), base));
  }

  /** One turn of the scan, in the registers' own operations. */
  method NextBit(bits: nat) returns (bit: nat, rest: nat)
    requires Word(bits) && bits != 0
    ensures bit < 32 && Word(rest) && rest < bits
    ensures forall base: nat :: Peel(bits, base) == [base + bit] + Peel(rest, base)
  {
    hide Pow2, Bit, And, Peel;
    WordIs32Bits();
    LowBit(bits, 32);
    BfindPow2(Lowest(bits));
    var lowbit := And(bits, WORD - bits);
    bit := Bfind(lowbit);
    rest := And(bits, bits - 1);
    ClearLow(bits, 0);
    forall base: nat ensures Peel(bits, base) == [base + bit] + Peel(rest, base) { PeelOnce(bits, base); }
  }

  lemma PeelOnce(w: nat, base: nat)
    requires w > 0
    ensures Peel(w, base) == [base + Lowest(w)] + Peel(And(w, w - 1), base)
  {
  }

  // ----- the four mask words of a group -----

  predicate MaskWords(m: seq<nat>) {
    |m| == 4 && Word(m[0]) && Word(m[1]) && m[2] == m[3] == 0
  }

  type RouteMask = m: seq<nat> | MaskWords(m) witness [0, 0, 0, 0]

  /** The blocks named by words k and up (64-block groups use two words). */
  function Left(m: RouteMask, k: nat, start: nat): seq<nat>
    requires k <= 2
  {
    if k == 0 then Peel(m[0], start) + Peel(m[1], start + 32)
    else if k == 1 then Peel(m[1], start + 32)
    else []
  }

  function Columns(m: RouteMask): (votes: seq<bool>)
    ensures |votes| == 64
  {
    Low(m[0]) + Low(m[1])
  }

  /** A group's exact blocks: the columns whose bits are set. */
  function Exact(m: RouteMask, start: nat): seq<nat>
  {
    Picked(Columns(m), start)
  }

  lemma LeftIsExact(m: RouteMask, start: nat)
    ensures Left(m, 0, start) == Exact(m, start)
  {
    hide Peel, Picked, Low;
    ScanIsTheSelection(m[0], start);
    ScanIsTheSelection(m[1], start + 32);
    PickedSplit(Low(m[0]), Low(m[1]), start);
  }

  /** The first exact block is taken out of the words before the scan. */
  method TakeFirst(m: RouteMask, start: nat) returns (found: bool, first: nat, rest: RouteMask)
    ensures (found <==> Left(m, 0, start) != [])
    ensures found ==> Left(m, 0, start) == [first] + Left(rest, 0, start)
  {
    hide Peel;
    found := m[0] != 0 || m[1] != 0 || m[2] != 0 || m[3] != 0;
    first, rest := start, m;
    Peel0(start);
    Peel0(start + 32);
    if m[0] != 0 {
      var bit, cleared := NextBit(m[0]);
      first, rest := first + bit, m[0 := cleared];
    } else if m[1] != 0 {
      var bit, cleared := NextBit(m[1]);
      first, rest := first + 32 + bit, m[1 := cleared];
    }
  }

  lemma Peel0(base: nat)
    ensures Peel(0, base) == []
  {
  }

  predicate Ones(w: nat, n: nat) { forall i: nat | i < n :: Bit(w, i) }

  /** A word covers the low n bits exactly if all of them are set. */
  lemma {:induction false} CoversOnes(w: nat, n: nat)
    ensures And(w, Pow2(n) - 1) == Pow2(n) - 1 <==> Ones(w, n)
    decreases n
  {
    if n == 0 {
      AndZero(w);
    } else {
      assert (Pow2(n) - 1) / 2 == Pow2(n - 1) - 1;
      CoversOnes(w / 2, n - 1);
      if Ones(w, n) {
        assert Bit(w, 0);
        forall i: nat | i < n - 1 ensures Bit(w / 2, i) { assert Bit(w, i + 1); }
      } else {
        var i: nat :| i < n && !Bit(w, i);
        assert i > 0 ==> !Bit(w / 2, i - 1);
      }
    }
  }

  /** The mask of a word's valid columns, out of `count` valid columns in the group. */
  method ValidBits(count: nat, word: nat) returns (bits: nat, valid: nat)
    requires word < 2
    ensures valid == (if count <= 32 * word then 0 else if count >= 32 * (word + 1) then 32 else count - 32 * word)
    ensures bits == Pow2(valid) - 1
  {
    var n: int := count - 32 * word;
    if n < 0 { n := 0; }
    if n > 32 { n := 32; }
    bits, valid := 0, n;
    if n > 0 {
      bits := WORD - 1;
      if n < 32 { bits := Pow2(n) - 1; }
    }
    WordIs32Bits();
  }

  /** The approximate columns are folded in exactly if some valid column is not exact. */
  method RouteHasApprox(m: RouteMask, count: nat) returns (approx: bool)
    requires count <= GROUP
    ensures approx <==> exists c: nat :: c < count && !Columns(m)[c]
  {
    hide Pow2, And, Bit;
    var bits0, valid0 := ValidBits(count, 0);
    var bits1, valid1 := ValidBits(count, 1);
    approx := And(m[0], bits0) != bits0 || And(m[1], bits1) != bits1;
    CoversOnes(m[0], valid0);
    CoversOnes(m[1], valid1);
    if Ones(m[0], valid0) && Ones(m[1], valid1) {
      forall c: nat | c < count ensures Columns(m)[c] {
        assert if c < 32 then Bit(m[0], c) else Bit(m[1], c - 32);
      }
    } else if !Ones(m[0], valid0) {
      var i: nat :| i < valid0 && !Bit(m[0], i);
      assert !Columns(m)[i];
    } else {
      var i: nat :| i < valid1 && !Bit(m[1], i);
      assert !Columns(m)[i + 32];
    }
  }

  // ----- the issuing warp's instruction stream -----

  /** Appending an action that the one-thread reading allows. */
  function Do(p: seq<Act>, a: Act): (p': seq<Act>)
    requires Plays(p, INIT) && Can(a, Play(p, INIT))
    ensures Plays(p', INIT) && Play(p', INIT) == Next(a, Play(p, INIT)) && p' == p + [a]
  {
    Then(p, [a], INIT);
    Play1(a, Play(p, INIT));
    p + [a]
  }

  /** One exact block: its K tile is there, its V tile is requested by the caller; the
      freed K stage takes what comes next, unless `next` is negative. */
  method ConsumeExactBlock(p0: seq<Act>, block: nat, next: int, loadsRoute: bool) returns (p: seq<Act>)
    requires Plays(p0, INIT)
    requires var q := Play(p0, INIT); q.arrives == q.awaits && q.k.Full(Rows(block)) && q.v.Full(Rows(block))
    ensures Plays(p, INIT) && p0 <= p
    ensures var q, q' := Play(p0, INIT), Play(p, INIT);
            && q' == q.(k := q'.k, v := q'.v) && q'.v.Empty()
            && q'.k.seen == q.k.seen + [Here(Rows(block))] && q'.v.seen == q.v.seen + [Here(Rows(block))]
            && (if next >= 0 then q'.k.Full(if loadsRoute then Summary(next) else Rows(next)) else q'.k.Empty())
  {
    hide Plays, Play;
    p := Do(p0, Wait(KSlot, Rows(block)));
    p := Do(p, Release(KSlot));
    if next >= 0 { p := Do(p, Load(KSlot, if loadsRoute then Summary(next) else Rows(next))); }
    p := Do(p, Wait(VSlot, Rows(block)));
    p := Do(p, Release(VSlot));
  }

  /** consume_exact_blocks: `m` has lost its first block, which is in flight in the K
      stage.  Every block is consumed once, in order; the K stage is left with the next
      group's KC if there is a next group. */
  method ConsumeExactBlocks(p0: seq<Act>, m: RouteMask, start: nat, hasExact: bool, first: nat, nextRouteTile: int)
    returns (p: seq<Act>)
    requires Plays(p0, INIT)
    requires var q := Play(p0, INIT); q.arrives == q.awaits && q.v.Empty() && q.k.seen == q.v.seen
    requires hasExact ==> Play(p0, INIT).k.Full(Rows(first))
    ensures Plays(p, INIT) && p0 <= p
    ensures !hasExact ==> p == p0
    ensures hasExact ==>
              var q, q' := Play(p0, INIT), Play(p, INIT);
              && q' == q.(k := q'.k, v := q'.v) && q'.v.Empty()
              && q'.k.seen == q'.v.seen == q.k.seen + Blocks([first] + Left(m, 0, start))
              && (if nextRouteTile >= 0 then q'.k.Full(Summary(nextRouteTile)) else q'.k.Empty())
  {
    hide Plays, Play, Peel;
    p := p0;
    if hasExact {
      var pending: nat := first;
      ghost var q0, done: seq<nat> := Play(p0, INIT), [];
      assert Mid(q0, Play(p, INIT), done, pending);
      hide Mid;
      for word := 0 to 2
        invariant Plays(p, INIT) && p0 <= p
        invariant done + [pending] + Left(m, word, start) == [first] + Left(m, 0, start)
        invariant Mid(q0, Play(p, INIT), done, pending)
      {
        var bits := m[word];
        while bits != 0
          invariant Word(bits) && Plays(p, INIT) && p0 <= p
          invariant done + [pending] + Peel(bits, start + 32 * word) + Left(m, word + 1, start) == [first] + Left(m, 0, start)
          invariant Mid(q0, Play(p, INIT), done, pending)
          decreases bits
        {
          var bit, rest := NextBit(bits);
          var next := start + 32 * word + bit;
          p := Pass(p, pending, next, q0, done);
          done := done + [pending];
          pending := next;
          bits := rest;
        }
        Peel0(start + 32 * word);
      }
      p := LastPass(p, pending, nextRouteTile, q0, done);
      assert Left(m, 2, start) == [];
    }
  }

  /** One turn of the scan: V of the pending block, its consumption, and K of the next. */
  method Pass(p0: seq<Act>, pending: nat, next: nat, ghost q0: View, ghost done: seq<nat>) returns (p: seq<Act>)
    requires Plays(p0, INIT) && Mid(q0, Play(p0, INIT), done, pending)
    ensures p0 <= p && Plays(p, INIT) && Mid(q0, Play(p, INIT), done + [pending], next)
  {
    hide Plays, Play;
    p := Do(p0, Load(VSlot, Rows(pending)));
    p := ConsumeExactBlock(p, pending, next, false);
    BlocksSnoc(done, pending);
  }

  /** The block after the scan, with the next group's KC behind it. */
  method LastPass(p0: seq<Act>, pending: nat, nextRouteTile: int, ghost q0: View, ghost done: seq<nat>) returns (p: seq<Act>)
    requires Plays(p0, INIT) && Mid(q0, Play(p0, INIT), done, pending)
    ensures Plays(p, INIT) && p0 <= p
    ensures var q := Play(p, INIT);
            && q == q0.(k := q.k, v := q.v) && q.v.Empty()
            && q.k.seen == q.v.seen == q0.k.seen + Blocks(done + [pending])
            && (if nextRouteTile >= 0 then q.k.Full(Summary(nextRouteTile)) else q.k.Empty())
  {
    hide Plays, Play;
    p := Do(p0, Load(VSlot, Rows(pending)));
    p := ConsumeExactBlock(p, pending, nextRouteTile, true);
    BlocksSnoc(done, pending);
  }

  /** Between two passes: the blocks of `done` are consumed, `pending` is in the K stage. */
  predicate Mid(q0: View, q: View, done: seq<nat>, pending: nat) {
    && q == q0.(k := q.k, v := q.v) && q0.arrives == q0.awaits
    && q.k.Full(Rows(pending)) && q.v.Empty()
    && q.k.seen == q.v.seen == q0.k.seen + Blocks(done)
  }

  lemma BlocksSnoc(e: seq<nat>, b: nat)
    ensures Blocks(e + [b]) == Blocks(e) + [Here(Rows(b))]
  {
  }

  // ----- the group loop -----

  /** What one split consumes: KC of each of its groups, then the rows of that group's
      exact blocks.  Tiles and blocks are numbered over the whole key range. */
  function Tiles(begin: nat, masks: seq<RouteMask>): seq<Cargo>
  {
    if masks == [] then []
    else
      var n := |masks| - 1;
      Tiles(begin, masks[..n]) + [Here(Summary(begin + n))] + Blocks(Exact(masks[n], GROUP * (begin + n)))
  }

  lemma TilesStep(begin: nat, masks: seq<RouteMask>, n: nat)
    requires n < |masks|
    ensures Tiles(begin, masks[..n + 1])
         == Tiles(begin, masks[..n]) + [Here(Summary(begin + n))] + Blocks(Exact(masks[n], GROUP * (begin + n)))
  {
    assert masks[..n + 1][..n] == masks[..n];
  }

  predicate HasExact(m: RouteMask)
  {
    m[0] != 0 || m[1] != 0 || m[2] != 0 || m[3] != 0
  }

  /** At the head of group i: its KC is on its way exactly if the previous group had an
      exact block. */
  predicate AtGroup(begin: nat, masks: seq<RouteMask>, i: nat, q: View)
    requires i <= |masks|
  {
    && (if 0 < i < |masks| && HasExact(masks[i - 1]) then q.k.Full(Summary(begin + i)) else q.k.Empty())
    && q.v.Empty()
    && q.k.seen == q.v.seen == Tiles(begin, masks[..i])
    && q.arrives == q.awaits == 2 * i
    && (i > 0 ==> q.Holds(Mask, begin + i - 1))
  }

  /** The stream holds one group's exchange of route sums and mask words: every warp's sums, warp 0's
      reading of them and its masks, and every warp's reading of the masks, with a barrier in between. */
  ghost predicate Publishes(p: seq<Act>, g: nat) {
    exists before: seq<Act> ::
      before + [PutSums(g), Arrive(Signal), Await(Signal), GetSums(g), Put(Mask, g), Arrive(Sync), Await(Sync), Get(Mask, g)] <= p
  }

  lemma StillPublishes(p: seq<Act>, more: seq<Act>, g: nat)
    requires Publishes(p, g) && p <= more
    ensures Publishes(more, g)
  {
    var before :|
      before + [PutSums(g), Arrive(Signal), Await(Signal), GetSums(g), Put(Mask, g), Arrive(Sync), Await(Sync), Get(Mask, g)] <= p;
    assert before + [PutSums(g), Arrive(Signal), Await(Signal), GetSums(g), Put(Mask, g), Arrive(Sync), Await(Sync), Get(Mask, g)] <= more;
  }

  lemma JustPublished(p: seq<Act>, g: nat)
    ensures Publishes(p + [PutSums(g), Arrive(Signal), Await(Signal), GetSums(g), Put(Mask, g), Arrive(Sync), Await(Sync), Get(Mask, g)], g)
  {
    assert p + [PutSums(g), Arrive(Signal), Await(Signal), GetSums(g), Put(Mask, g), Arrive(Sync), Await(Sync), Get(Mask, g)] <= p + [PutSums(g), Arrive(Signal), Await(Signal), GetSums(g), Put(Mask, g), Arrive(Sync), Await(Sync), Get(Mask, g)];
  }

  /** Both prologue loads, the route scores, and the published mask words. */
  method RoutePart(p0: seq<Act>, begin: nat, masks: seq<RouteMask>, i: nat) returns (p: seq<Act>)
    requires i < |masks|
    requires Plays(p0, INIT) && AtGroup(begin, masks, i, Play(p0, INIT))
    ensures Plays(p, INIT) && p0 <= p && Publishes(p, begin + i)
    ensures var q, q' := Play(p0, INIT), Play(p, INIT);
            && q'.k.Empty() && q'.k.seen == q.k.seen + [Here(Summary(begin + i))]
            && q'.v.Full(Summary(begin + i)) && q'.v.seen == q.v.seen
            && q'.arrives == q'.awaits == 2 * i + 2 && q'.Holds(Mask, begin + i)
  {
    hide Plays, Play, Tiles, Publishes;
    var routeTile := begin + i;
    p := p0;
    if i == 0 {
      p := Do(p, Load(KSlot, Summary(routeTile)));
    } else {
      p := Do(p, LeadGet(Mask, routeTile - 1));
      if !HasExact(masks[i - 1]) { p := Do(p, Load(KSlot, Summary(routeTile))); }
    }
    p := Do(p, Load(VSlot, Summary(routeTile)));
    p := Do(p, Wait(KSlot, Summary(routeTile)));
    p := Do(p, Release(KSlot));
    JustPublished(p, routeTile);
    p := PublishMask(p, routeTile, i);
  }

  /** From the route scores to the mask words that every warp reads.  Warps 1 to 3 only
      arrive at the first barrier. */
  method PublishMask(p0: seq<Act>, routeTile: nat, i: nat) returns (p: seq<Act>)
    requires Plays(p0, INIT)
    requires var q := Play(p0, INIT); q.arrives == q.awaits == 2 * i
    ensures Plays(p, INIT) && p == p0 + [PutSums(routeTile), Arrive(Signal), Await(Signal), GetSums(routeTile), Put(Mask, routeTile),
                                        Arrive(Sync), Await(Sync), Get(Mask, routeTile)]
    ensures var q, q' := Play(p0, INIT), Play(p, INIT);
            && q'.k == q.k && q'.v == q.v
            && q'.arrives == q'.awaits == 2 * i + 2 && q'.Holds(Mask, routeTile)
  {
    hide Plays, Play;
    p := Do(p0, PutSums(routeTile));
    p := Do(p, Arrive(Signal));
    p := Do(p, Await(Signal));
    p := Do(p, GetSums(routeTile));
    p := Do(p, Put(Mask, routeTile));
    p := Do(p, Arrive(Sync));
    p := Do(p, Await(Sync));
    p := Do(p, Get(Mask, routeTile));
  }

  /** The part of the group after the mask is known. */
  method ExactPart(p0: seq<Act>, begin: nat, masks: seq<RouteMask>, i: nat) returns (p: seq<Act>)
    requires i < |masks|
    requires Plays(p0, INIT)
    requires var q := Play(p0, INIT);
             && q.k.Empty() && q.v.Full(Summary(begin + i)) && q.k.seen == q.v.seen + [Here(Summary(begin + i))]
             && q.v.seen == Tiles(begin, masks[..i])
             && q.arrives == q.awaits == 2 * i + 2 && q.Holds(Mask, begin + i)
    ensures p0 <= p && Plays(p, INIT) && AtGroup(begin, masks, i + 1, Play(p, INIT))
  {
    hide Plays, Play, Peel, Picked, Left;
    var start := (begin + i) * GROUP;
    var nextRouteTile := if i + 1 < |masks| then begin + i + 1 else -1;
    var hasExact, first, rest := TakeFirst(masks[i], start);
    LeftIsExact(masks[i], start);
    NoneLeft(masks[i], start);
    p := p0;
    if hasExact { p := Do(p, Load(KSlot, Rows(first))); }
    p := Do(p, Wait(VSlot, Summary(begin + i)));
    p := Do(p, Release(VSlot));
    p := ConsumeExactBlocks(p, rest, start, hasExact, first, nextRouteTile);
    assert masks[..i + 1][..i] == masks[..i];
  }

  lemma NoneLeft(m: RouteMask, start: nat)
    ensures HasExact(m) <==> Left(m, 0, start) != []
  {
  }

  /** The group loop of one split.  Each group's KC is requested exactly once, by its own
      prologue or by the last pass of the group before; every set bit of every mask is
      consumed once, in increasing order; and all of it holds of four warps in any
      interleaving. */
  method MainLoop(begin: nat, masks: seq<RouteMask>) returns (p: seq<Act>)
    ensures Accepted(p, Tiles(begin, masks))
    ensures forall ms | Final(p, ms) :: Fed(p, Tiles(begin, masks), Run(p, ms).st)
    ensures forall g | begin <= g < begin + |masks| :: Publishes(p, g)
  {
    hide Plays, Play, Run, Fed, Publishes;
    p := [];
    EmptyStream();
    for i := 0 to |masks|
      invariant Plays(p, INIT) && AtGroup(begin, masks, i, Play(p, INIT))
      invariant forall g | begin <= g < begin + i :: Publishes(p, g)
    {
      ghost var before := p;
      p := RoutePart(p, begin, masks, i);
      ghost var routed := p;
      p := ExactPart(p, begin, masks, i);
      forall g | begin <= g < begin + i + 1 ensures Publishes(p, g) {
        StillPublishes(if g < begin + i then before else routed, p, g);
      }
    }
    assert masks[..|masks|] == masks;
    forall ms | Final(p, ms) ensures Fed(p, Tiles(begin, masks), Run(p, ms).st) {
      EveryWarpIsFed(p, Tiles(begin, masks), ms);
    }
  }

  lemma EmptyStream()
    ensures Plays([], INIT) && Play([], INIT) == INIT
  {
  }
}
