/**
 What the instruction streams compute: the tiles that a warp consumes, read as softmax
 terms, against the two-pass reference.

 This joins the two halves of the model.  On one side every warp, in every interleaving,
 consumes a certain list of tiles; on the other a certain list of terms has the
 reference's quotient.  Here the first list is shown to stand for the second.
*/
module KernelMeaning {
  import opened Basics
  import opened Exponential
  import opened MixedOperator
  import opened Words
  import opened RouteCompaction
  import opened Routing
  import opened ForwardSm120
  import opened ChosenBlocks
  import opened SplitMerge
  import KvProgram
  import WarpMachine
  import Sm90Scan

  function Groups(t: Tile): nat { (t.Blocks() + 63) / 64 }

  function GroupEnd(t: Tile, g: nat): nat { Min(64 * g + 64, t.Blocks()) }

  /** The terms that a consumed tile contributes to row r. */
  function Meaning(t: Tile, route: Route, r: nat, tile: KvProgram.Cargo): seq<Term> {
    match tile
    case Here(Summary(g)) => t.ApproxTerms(route, r, 64 * g, GroupEnd(t, g))
    case Here(Rows(b)) => t.BlockKeys(r, b)
    case _ => []
  }

  function MeaningOf(t: Tile, route: Route, r: nat, tiles: seq<KvProgram.Cargo>): seq<Term> {
    if tiles == [] then [] else MeaningOf(t, route, r, tiles[..|tiles| - 1]) + Meaning(t, route, r, tiles[|tiles| - 1])
  }

  lemma {:induction false} MeaningConcat(t: Tile, route: Route, r: nat, a: seq<KvProgram.Cargo>, b: seq<KvProgram.Cargo>)
    ensures MeaningOf(t, route, r, a + b) == MeaningOf(t, route, r, a) + MeaningOf(t, route, r, b)
    decreases |b|
  {
    hide Meaning;
    if b == [] {
      assert a + b == a;
    } else {
      assert (a + b)[..|a + b| - 1] == a + b[..|b| - 1];
      MeaningConcat(t, route, r, a, b[..|b| - 1]);
    }
  }

  lemma {:induction false} RowsMean(t: Tile, route: Route, r: nat, e: seq<nat>)
    ensures MeaningOf(t, route, r, KvProgram.Blocks(e)) == ListTerms(t, r, e)
    decreases |e|
  {
    if e != [] {
      RowsMean(t, route, r, e[..|e| - 1]);
      assert KvProgram.Blocks(e)[..|e| - 1] == KvProgram.Blocks(e[..|e| - 1]);
    }
  }

  /** The cuts at every 64th block, from group `lo` to group `hi`. */
  function Cuts(t: Tile, lo: nat, hi: nat): (cuts: seq<nat>)
    requires lo <= hi
    ensures cuts != []
    decreases hi
  {
    if hi == lo then [Min(64 * lo, t.Blocks())] else Cuts(t, lo, hi - 1) + [Min(64 * hi, t.Blocks())]
  }

  lemma {:induction false} CutsAscend(t: Tile, lo: nat, hi: nat)
    requires lo <= hi
    ensures Ascending(Cuts(t, lo, hi)) && Cuts(t, lo, hi)[0] == Min(64 * lo, t.Blocks())
    ensures Cuts(t, lo, hi)[|Cuts(t, lo, hi)| - 1] == Min(64 * hi, t.Blocks())
    decreases hi
  {
    if lo < hi { CutsAscend(t, lo, hi - 1); }
  }

  lemma OneMeans(t: Tile, route: Route, r: nat, tile: KvProgram.Cargo)
    ensures MeaningOf(t, route, r, [tile]) == Meaning(t, route, r, tile)
  {
    assert MeaningOf(t, route, r, [tile][..0]) == [];
  }

  /** One group's tiles: its summaries, then the rows of its exact blocks. */
  lemma GroupMeans(t: Tile, route: Route, r: nat, before: seq<KvProgram.Cargo>, g: nat, e: seq<nat>)
    requires r < t.qLen && g < Groups(t) && e == Chosen(route, 64 * g, GroupEnd(t, g))
    ensures MeaningOf(t, route, r, before + [KvProgram.Here(KvProgram.Summary(g))] + KvProgram.Blocks(e))
         == MeaningOf(t, route, r, before) + GroupTerms(t, route, r, 64 * g, GroupEnd(t, g))
  {
    hide Tile.ApproxTerms, Tile.ExactTerms, ListTerms, MeaningOf, Chosen;
    var kc := KvProgram.Here(KvProgram.Summary(g));
    MeaningConcat(t, route, r, before + [kc], KvProgram.Blocks(e));
    MeaningConcat(t, route, r, before, [kc]);
    OneMeans(t, route, r, kc);
    RowsMean(t, route, r, e);
    ChosenTerms(t, route, r, 64 * g, GroupEnd(t, g));
    Regroup(MeaningOf(t, route, r, before), t.ApproxTerms(route, r, 64 * g, GroupEnd(t, g)), t.ExactTerms(route, r, 64 * g, GroupEnd(t, g)));
  }

  lemma Regroup(a: seq<Term>, b: seq<Term>, c: seq<Term>)
    ensures a + b + c == a + (b + c)
  {
  }

  /** One more group on both sides. */
  lemma StepMeans(t: Tile, route: Route, r: nat, before: seq<KvProgram.Cargo>, cuts: seq<nat>, g: nat, e: seq<nat>)
    requires r < t.qLen && g < Groups(t) && e == Chosen(route, 64 * g, GroupEnd(t, g))
    requires cuts != [] && cuts[|cuts| - 1] == 64 * g && MeaningOf(t, route, r, before) == Streamed(t, route, r, cuts)
    ensures MeaningOf(t, route, r, before + [KvProgram.Here(KvProgram.Summary(g))] + KvProgram.Blocks(e))
         == Streamed(t, route, r, cuts + [GroupEnd(t, g)])
  {
    hide MeaningOf, Streamed, Chosen, GroupTerms;
    GroupMeans(t, route, r, before, g, e);
    StreamedGrows(t, route, r, cuts, GroupEnd(t, g));
  }

  lemma CutsStep(t: Tile, lo: nat, g: nat)
    requires lo <= g < Groups(t)
    ensures Cuts(t, lo, g + 1) == Cuts(t, lo, g) + [GroupEnd(t, g)]
    ensures Cuts(t, lo, g) != [] && Cuts(t, lo, g)[|Cuts(t, lo, g)| - 1] == 64 * g
  {
    CutsAscend(t, lo, g);
  }

  // ----- SM120 -----

  /** The routing outcome of every group of a tile. */
  function RoutedGroup(t: Tile, route: Route, g: nat): KvProgram.Group
    requires g < Groups(t)
  {
    KvProgram.Group(Chosen(route, 64 * g, GroupEnd(t, g)), GroupEnd(t, g) - 64 * g)
  }

  function Routed(t: Tile, route: Route): (r: seq<KvProgram.Group>)
    ensures |r| == Groups(t) && forall g: nat | g < |r| :: r[g] == RoutedGroup(t, route, g)
  {
    seq(Groups(t), g requires 0 <= g < Groups(t) => RoutedGroup(t, route, g))
  }

  lemma {:induction false} StreamMeans(t: Tile, route: Route, r: nat, n: nat)
    requires r < t.qLen && n <= Groups(t)
    ensures MeaningOf(t, route, r, KvProgram.Stream(Routed(t, route)[..n])) == Streamed(t, route, r, Cuts(t, 0, n))
    decreases n
  {
    if n > 0 {
      hide MeaningOf, Streamed, Chosen, Cuts, KvProgram.Stream;
      var g := n - 1;
      var groups := Routed(t, route);
      StreamMeans(t, route, r, g);
      KvProgram.StreamStep(groups, g);
      CutsStep(t, 0, g);
      StepMeans(t, route, r, KvProgram.Stream(groups[..g]), Cuts(t, 0, g), g, groups[g].exact);
    }
  }

  /** The terms `ts` have the reference's quotient. */
  ghost predicate Computes(x: Exp2, t: Tile, route: Route, r: nat, ts: seq<Term>)
    requires Lawful(x) && t.Ok()
  {
    Den(x, ts, 0.0) > 0.0 && Num(x, ts, 0.0) / Den(x, ts, 0.0) == Reference(x, t, route, r)
  }

  lemma StreamedComputes(x: Exp2, t: Tile, route: Route, r: nat)
    requires Lawful(x) && t.Ok() && r < t.qLen
    ensures Computes(x, t, route, r, Streamed(t, route, r, Cuts(t, 0, Groups(t))))
  {
    hide Streamed, Reference;
    CutsAscend(t, 0, Groups(t));
    StreamedIsAll(x, t, route, r, Cuts(t, 0, Groups(t)), 0.0, Mass);
    StreamedIsAll(x, t, route, r, Cuts(t, 0, Groups(t)), 0.0, Value);
    RowRatio(x, t, route, r, 0.0);
  }

  /** In every interleaving of the four warps and for all settings of the prefetch flags:
      when the SM120 kernel can go no further, the tiles that any of its warps has taken from
      the K stage, and from the V stage, stand for terms with the reference's quotient. */
  lemma EveryWarpComputesReference(x: Exp2, t: Tile, route: Route, r: nat, f: KvProgram.Flags, ms: seq<WarpMachine.Move>, w: nat, s: KvProgram.Slot)
    requires Lawful(x) && t.Ok() && r < t.qLen && w < KvProgram.WARPS
    requires WarpMachine.Final(KvProgram.Kernel(f, Routed(t, route)), ms)
    ensures var st := WarpMachine.Run(KvProgram.Kernel(f, Routed(t, route)), ms).st;
            && st.Shaped()
            && var ts := MeaningOf(t, route, r, st.At(s).seen[w]);
            Den(x, ts, 0.0) > 0.0 && Num(x, ts, 0.0) / Den(x, ts, 0.0) == Reference(x, t, route, r)
  {
    hide MeaningOf, Streamed, Reference, Weigh;
    WarpMachine.KernelFeedsEveryWarp(f, Routed(t, route), ms);
    StreamMeans(t, route, r, Groups(t));
    assert Routed(t, route)[..Groups(t)] == Routed(t, route);
    StreamedComputes(x, t, route, r);
  }

  // ----- SM90 -----

  /** Mask words follow the route: bit c is set exactly if column c is a real, exact block. */
  ghost predicate MaskFollows(t: Tile, route: Route, g: nat, m: Sm90Scan.RouteMask) {
    g < Groups(t) && Votes(route, 64 * g, GroupEnd(t, g) - 64 * g, Sm90Scan.Columns(m))
  }

  ghost predicate MasksFollow(t: Tile, route: Route, begin: nat, masks: seq<Sm90Scan.RouteMask>) {
    forall i: nat | i < |masks| :: MaskFollows(t, route, begin + i, masks[i])
  }

  lemma MaskSelects(t: Tile, route: Route, g: nat, m: Sm90Scan.RouteMask)
    requires MaskFollows(t, route, g, m)
    ensures Sm90Scan.Exact(m, 64 * g) == Chosen(route, 64 * g, GroupEnd(t, g))
  {
    hide Sm90Scan.Columns;
    var votes := Sm90Scan.Columns(m);
    PickedIsChosen(route, 64 * g, GroupEnd(t, g) - 64 * g, votes, 64);
    assert votes[..64] == votes;
  }

  /** What an SM90 split consumes stands for the terms of its own groups, which is what the
      combine kernel of module `SplitMerge` asks of a split. */
  lemma {:induction false} TilesMean(t: Tile, route: Route, r: nat, begin: nat, masks: seq<Sm90Scan.RouteMask>, n: nat)
    requires r < t.qLen && MasksFollow(t, route, begin, masks) && n <= |masks|
    ensures MeaningOf(t, route, r, Sm90Scan.Tiles(begin, masks[..n])) == Streamed(t, route, r, Cuts(t, begin, begin + n))
    decreases n
  {
    hide MeaningOf, Streamed, Chosen, Cuts, Sm90Scan.Tiles, Sm90Scan.Columns, Sm90Scan.Exact;
    if n > 0 {
      var g := begin + n - 1;
      TilesMean(t, route, r, begin, masks, n - 1);
      Sm90Scan.TilesStep(begin, masks, n - 1);
      MaskSelects(t, route, g, masks[n - 1]);
      CutsStep(t, begin, g);
      StepMeans(t, route, r, Sm90Scan.Tiles(begin, masks[..n - 1]), Cuts(t, begin, g), g, Sm90Scan.Exact(masks[n - 1], 64 * g));
    } else {
      NoTilesMean(t, route, r, begin, masks);
    }
  }

  lemma NoTilesMean(t: Tile, route: Route, r: nat, begin: nat, masks: seq<Sm90Scan.RouteMask>)
    ensures MeaningOf(t, route, r, Sm90Scan.Tiles(begin, masks[..0])) == Streamed(t, route, r, Cuts(t, begin, begin))
  {
    assert masks[..0] == [];
  }

  // ----- SM90 splits -----

  /** Where split s begins, in groups and in blocks. */
  function First(t: Tile, splits: nat, s: nat): nat
    requires splits > 0
  {
    Bound(Groups(t), splits, s)
  }

  function SplitBounds(t: Tile, splits: nat): (bounds: seq<nat>)
    requires splits > 0
    ensures |bounds| == splits + 1 && forall s: nat | s <= splits :: bounds[s] == Min(64 * First(t, splits, s), t.Blocks())
  {
    seq(splits + 1, s requires 0 <= s <= splits => Min(64 * First(t, splits, s), t.Blocks()))
  }

  function CutsOf(t: Tile, splits: nat, s: nat): seq<nat>
    requires s < splits
  {
    RangesTile(Groups(t), splits, s);
    Cuts(t, First(t, splits, s), First(t, splits, s + 1))
  }

  function AllCuts(t: Tile, splits: nat): (cutss: seq<seq<nat>>)
    requires splits > 0
    ensures |cutss| == splits && forall s: nat | s < splits :: cutss[s] == CutsOf(t, splits, s)
  {
    seq(splits, s requires 0 <= s < splits => CutsOf(t, splits, s))
  }

  /** The splits' own group ranges cut the whole block range into consecutive pieces. */
  lemma SplitsCover(t: Tile, splits: nat)
    requires splits > 0 && t.Ok()
    ensures SplitCuts(SplitBounds(t, splits), AllCuts(t, splits))
    ensures SplitBounds(t, splits)[0] == 0 && SplitBounds(t, splits)[splits] == t.Blocks()
  {
    RangesTile(Groups(t), splits, 0);
    forall i: nat, j: nat | i <= j <= splits ensures SplitBounds(t, splits)[i] <= SplitBounds(t, splits)[j] {
      BoundsAscend(Groups(t), splits, i, j);
    }
    forall s: nat | s < splits
      ensures var c := AllCuts(t, splits)[s];
              c != [] && Ascending(c) && c[0] == SplitBounds(t, splits)[s] && c[|c| - 1] == SplitBounds(t, splits)[s + 1]
    {
      RangesTile(Groups(t), splits, s);
      CutsAscend(t, First(t, splits, s), First(t, splits, s + 1));
    }
  }

  /** The masks of every split follow the route over that split's range of groups. */
  ghost predicate SplitMasks(t: Tile, route: Route, splits: nat, maskss: seq<seq<Sm90Scan.RouteMask>>)
    requires splits > 0
  {
    |maskss| == splits && forall s: nat | s < splits ::
      First(t, splits, s) + |maskss[s]| == First(t, splits, s + 1) && MasksFollow(t, route, First(t, splits, s), maskss[s])
  }

  lemma SplitMeans(t: Tile, route: Route, r: nat, splits: nat, maskss: seq<seq<Sm90Scan.RouteMask>>, s: nat)
    requires splits > 0 && r < t.qLen && SplitMasks(t, route, splits, maskss) && s < splits
    ensures MeaningOf(t, route, r, Sm90Scan.Tiles(First(t, splits, s), maskss[s])) == Streamed(t, route, r, CutsOf(t, splits, s))
  {
    hide MeaningOf, Streamed, MasksFollow, Cuts;
    TilesMean(t, route, r, First(t, splits, s), maskss[s], |maskss[s]|);
    assert maskss[s][..|maskss[s]|] == maskss[s];
  }

  lemma SplitsSummarise(x: Exp2, t: Tile, route: Route, r: nat, splits: nat, maskss: seq<seq<Sm90Scan.RouteMask>>, ps: seq<Partial>)
    requires Lawful(x) && r < t.qLen && splits > 0 && SplitMasks(t, route, splits, maskss) && |ps| == splits
    requires forall s: nat | s < splits :: Summarises(x, ps[s], MeaningOf(t, route, r, Sm90Scan.Tiles(First(t, splits, s), maskss[s])))
    ensures AllSummarise(x, ps, SplitTerms(t, route, r, AllCuts(t, splits)))
  {
    hide Summarises, MeaningOf, Streamed;
    forall s: nat | s < splits ensures Summarises(x, ps[s], SplitTerms(t, route, r, AllCuts(t, splits))[s]) {
      SplitMeans(t, route, r, splits, maskss, s);
    }
  }

  /** Whatever the number of splits, empty ones included: if every split's output and
      log-sum-exp are those of the tiles it consumed, combining them gives the two-pass
      reference. */
  method CombineStreams(x: Exp2, t: Tile, ghost route: Route, r: nat, splits: nat, ghost maskss: seq<seq<Sm90Scan.RouteMask>>, ps: seq<Partial>)
    returns (p: Partial)
    requires Lawful(x) && t.Ok() && r < t.qLen && splits > 0 && SplitMasks(t, route, splits, maskss) && |ps| == splits
    requires forall s: nat | s < splits :: Summarises(x, ps[s], MeaningOf(t, route, r, Sm90Scan.Tiles(First(t, splits, s), maskss[s])))
    ensures p.out == Reference(x, t, route, r) && Summarises(x, p, t.AllTerms(route, r))
  {
    hide Summarises, MeaningOf, Streamed, Reference, SplitMasks, SplitCuts, AllSummarise;
    SplitsCover(t, splits);
    SplitsSummarise(x, t, route, r, splits, maskss, ps);
    p := CombineSplits(x, t, route, r, SplitBounds(t, splits), AllCuts(t, splits), ps);
  }
}
