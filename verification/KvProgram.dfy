/**
 The instruction stream of the fused SM120 mainloop, as far as synchronisation is concerned.

 All four warps of a CTA walk the same stream; the actions marked `LeadOnly` are
 guarded by `warp == 0` and are stepped over by the other warps.  This module
 gives the stream (`Kernel`), a one-thread reading of it (`Can` and `Next`), and
 proves that the one-thread reading accepts the stream for every route and for all
 four settings of the two prefetch flags.  Module `WarpMachine` lifts that to
 every interleaving of the four warps.
*/
module KvProgram {

  const WARPS: nat := 4

  datatype Slot = KSlot | VSlot

  /** What a K or V stage may hold: the summary tile (KC or VC) of a route group,
      or the rows of one exact block. */
  datatype Tile = Summary(g: nat) | Rows(block: nat)

  /** What is in the shared-memory stage: nothing meaningful, a tile that the TMA
      unit is still writing, or a complete tile. */
  datatype Cargo = Junk | Flight(t: Tile) | Here(t: Tile)

  /** Shared route scratch.  `Sums(w)` is row w of route_sums, `Mask` the column
      masks, `Index(n)` entry n of route_indices, `Count` the exact count. */
  datatype Cell = Sums(w: nat) | Mask | Index(n: nat) | Count

  /** A barrier at which every warp waits, or one at which only warp 0 waits while the others
      arrive and go on. */
  datatype Barrier = Sync | Signal

  /** A scratch access carries the route group whose data it concerns. */
  datatype Act =
    | Load(s: Slot, t: Tile)     // producer_acquire, TMA copy, producer_commit
    | Wait(s: Slot, t: Tile)     // consumer_wait, expecting tile t
    | Release(s: Slot)           // consumer_release
    | Arrive(b: Barrier)         // first half of a barrier
    | Await(b: Barrier)          // second half of a barrier
    | PutSums(g: nat)            // every warp writes its own row of route_sums
    | GetSums(g: nat)            // warp 0 adds the four rows
    | Put(c: Cell, g: nat)       // warp 0 writes a routing result
    | Get(c: Cell, g: nat)       // every warp reads a routing result
    | LeadGet(c: Cell, g: nat)   // warp 0 reads a routing result
  {
    predicate LeadOnly() {
      Load? || GetSums? || Put? || LeadGet?
    }
  }

  /** One stage as a single thread sees it: the tile loaded last, the number of
      loads and releases so far, and the tiles it waited for, in order. */
  datatype Lane = Lane(tile: Tile, loads: nat, seen: seq<Cargo>, releases: nat)
  {
    predicate Empty() { loads == |seen| == releases }
    predicate Full(t: Tile) { loads == |seen| + 1 && |seen| == releases && tile == t }
    predicate Held() { loads == |seen| == releases + 1 }
  }

  /** Barriers by kind: arrivals at and passages of each. */
  datatype Counts = Counts(syncs: nat, synced: nat, signals: nat, heard: nat)
  {
    function Arrive(b: Barrier): Counts { if b.Sync? then this.(syncs := syncs + 1) else this.(signals := signals + 1) }
    function Pass(b: Barrier): Counts { if b.Sync? then this.(synced := synced + 1) else this.(heard := heard + 1) }
  }

  /** `arrives` and `awaits` count barriers of either kind, `last` is the kind of the last one
      arrived at. */
  datatype View = View(k: Lane, v: Lane, arrives: nat, awaits: nat, last: Barrier, counts: Counts, mem: map<Cell, nat>)
  {
    function At(s: Slot): Lane { if s.KSlot? then k else v }

    predicate Holds(c: Cell, g: nat) { c in mem && mem[c] == g }
  }

  const FRESH := Lane(Summary(0), 0, [], 0)
  const INIT := View(FRESH, FRESH, 0, 0, Sync, Counts(0, 0, 0, 0), map[])

  /** May a single thread perform `a` in `q`?  Stages must be used in the order
      load, wait, release; routing results are written in odd barrier epochs and
      read in even ones (route sums the other way round); every scratch read finds
      what its own group wrote.  The warps that go on at a Signal barrier may do so only
      out of an even epoch. */
  predicate Can(a: Act, q: View) {
    if a.Await? then q.arrives == q.awaits + 1 && q.last == a.b
    else
      q.arrives == q.awaits &&
      match a
      case Load(s, _) => q.At(s).Empty()
      case Wait(s, t) => q.At(s).Full(t)
      case Release(s) => q.At(s).Held()
      case Arrive(b) => b.Signal? ==> q.arrives % 2 == 0
      case PutSums(_) => q.arrives % 2 == 0
      case GetSums(g) => q.arrives % 2 == 1 && forall w: nat | w < WARPS :: q.Holds(Sums(w), g)
      case Put(c, _) => !c.Sums? && q.arrives % 2 == 1
      case Get(c, g) => !c.Sums? && q.arrives % 2 == 0 && q.Holds(c, g)
      case LeadGet(c, g) => !c.Sums? && q.arrives % 2 == 0 && q.Holds(c, g)
  }

  function OnLane(q: View, s: Slot, l: Lane): View {
    if s.KSlot? then q.(k := l) else q.(v := l)
  }

  function Next(a: Act, q: View): View {
    match a
    case Load(s, t) => OnLane(q, s, q.At(s).(tile := t, loads := q.At(s).loads + 1))
    case Wait(s, t) => OnLane(q, s, q.At(s).(seen := q.At(s).seen + [Here(t)]))
    case Release(s) => OnLane(q, s, q.At(s).(releases := q.At(s).releases + 1))
    case Arrive(b) => q.(arrives := q.arrives + 1, last := b, counts := q.counts.Arrive(b))
    case Await(b) => q.(awaits := q.awaits + 1, counts := q.counts.Pass(b))
    case PutSums(g) => q.(mem := q.mem[Sums(0) := g][Sums(1) := g][Sums(2) := g][Sums(3) := g])
    case Put(c, g) => q.(mem := q.mem[c := g])
    case GetSums(_) => q
    case Get(_, _) => q
    case LeadGet(_, _) => q
  }

  /** The view of a single thread after performing `p` from `q`. */
  function Play(p: seq<Act>, q: View): View {
    if p == [] then q else Play(p[1..], Next(p[0], q))
  }

  /** Every action of `p` is allowed when a single thread starting in `q` reaches it. */
  predicate Plays(p: seq<Act>, q: View) {
    p == [] || (Can(p[0], q) && Plays(p[1..], Next(p[0], q)))
  }

  // ----- the stream itself -----

  /** The two compile-time prefetch flags of the kernel. */
  datatype Flags = Flags(firstExactK: bool, nextRouteK: bool)

  /** The routing outcome of one group: its exact blocks in order, and how many
      of its columns are real blocks. */
  datatype Group = Group(exact: seq<nat>, valid: nat)

  function IndexPuts(g: nat, n: nat): seq<Act> {
    if n == 0 then [] else IndexPuts(g, n - 1) + [Put(Index(n - 1), g)]
  }

  /** Prologue: KC is loaded here unless the previous group handed it over. */
  function SummaryLoads(f: Flags, r: seq<Group>, g: nat): seq<Act>
    requires g < |r|
  {
    (if !f.nextRouteK || g == 0 then [Load(KSlot, Summary(g))]
     else if r[g - 1].exact == [] then [LeadGet(Count, g - 1), Load(KSlot, Summary(g))]
     else [LeadGet(Count, g - 1)])
    + [Load(VSlot, Summary(g))]
  }

  /** Route scores from KC, the barrier after the row sums, and the column masks. */
  function RouteStart(g: nat): seq<Act> {
    [Wait(KSlot, Summary(g)), Release(KSlot)] + [PutSums(g), Arrive(Sync), Await(Sync)] + [GetSums(g), Put(Mask, g)]
  }

  function RouteEnd(r: seq<Group>, g: nat): seq<Act>
    requires g < |r|
  {
    IndexPuts(g, |r[g].exact|) + [Put(Count, g), Arrive(Sync), Await(Sync)]
  }

  /** After the second barrier: the K stage may be refilled with the first exact block. */
  function EarlyLoad(f: Flags, r: seq<Group>, g: nat): seq<Act>
    requires g < |r|
  {
    var e := r[g].exact;
    [Get(Count, g)]
    + (if f.firstExactK && e != [] then [LeadGet(Index(0), g), Load(KSlot, Rows(e[0]))] else [])
  }

  function ApproxColumns(r: seq<Group>, g: nat): seq<Act>
    requires g < |r|
  {
    if |r[g].exact| < r[g].valid then [Wait(VSlot, Summary(g)), Get(Mask, g), Release(VSlot)]
    else [Wait(VSlot, Summary(g)), Release(VSlot)]
  }

  function FirstExactLoads(f: Flags, r: seq<Group>, g: nat): seq<Act>
    requires g < |r|
  {
    var e := r[g].exact;
    if e == [] then []
    else if f.firstExactK then [LeadGet(Index(0), g), Load(VSlot, Rows(e[0]))]
    else [LeadGet(Index(0), g), Load(KSlot, Rows(e[0])), Load(VSlot, Rows(e[0]))]
  }

  function ApproxActs(f: Flags, r: seq<Group>, g: nat): seq<Act>
    requires g < |r|
  {
    EarlyLoad(f, r, g) + (ApproxColumns(r, g) + FirstExactLoads(f, r, g))
  }

  /** What warp 0 puts in the K stage released by pass n of the exact loop: the
      next exact block or, after the last one, the next group's KC when that
      hand-over is compiled in. */
  function KRefill(f: Flags, r: seq<Group>, g: nat, n: nat): seq<Act>
    requires g < |r| && n < |r[g].exact|
  {
    var e := r[g].exact;
    if n + 1 < |e| then [LeadGet(Index(n + 1), g), Load(KSlot, Rows(e[n + 1]))]
    else if f.nextRouteK && g + 1 < |r| then [Load(KSlot, Summary(g + 1))]
    else []
  }

  function PassK(f: Flags, r: seq<Group>, g: nat, n: nat): seq<Act>
    requires g < |r| && n < |r[g].exact|
  {
    [Get(Index(n), g), Wait(KSlot, Rows(r[g].exact[n])), Release(KSlot)] + KRefill(f, r, g, n)
  }

  function PassV(r: seq<Group>, g: nat, n: nat): seq<Act>
    requires g < |r| && n < |r[g].exact|
  {
    var e := r[g].exact;
    [Wait(VSlot, Rows(e[n])), Release(VSlot)]
    + (if n + 1 < |e| then [LeadGet(Index(n + 1), g), Load(VSlot, Rows(e[n + 1]))] else [])
  }

  function ExactLoop(f: Flags, r: seq<Group>, g: nat, n: nat): seq<Act>
    requires g < |r| && n <= |r[g].exact|
  {
    if n == 0 then [] else ExactLoop(f, r, g, n - 1) + (PassK(f, r, g, n - 1) + PassV(r, g, n - 1))
  }

  function GroupActs(f: Flags, r: seq<Group>, g: nat): seq<Act>
    requires g < |r|
  {
    (SummaryLoads(f, r, g) + (RouteStart(g) + RouteEnd(r, g)))
    + (ApproxActs(f, r, g) + ExactLoop(f, r, g, |r[g].exact|))
  }

  function Groups(f: Flags, r: seq<Group>, g: nat): seq<Act>
    requires g <= |r|
  {
    if g == 0 then [] else Groups(f, r, g - 1) + GroupActs(f, r, g - 1)
  }

  function Kernel(f: Flags, r: seq<Group>): seq<Act> { Groups(f, r, |r|) }

  /** The routing data that a group shares among the warps: warp 0 adds everybody's sums and publishes
      the masks, the count and every index; everybody reads the count, reads each index it follows,
      and reads the masks if some column is approximate. */
  lemma {:induction false} GroupShares(f: Flags, r: seq<Group>, g: nat, n: nat)
    requires g < n <= |r|
    ensures PutSums(g) in Groups(f, r, n) && GetSums(g) in Groups(f, r, n) && Put(Mask, g) in Groups(f, r, n)
    ensures Put(Count, g) in Groups(f, r, n) && Get(Count, g) in Groups(f, r, n)
    ensures |r[g].exact| < r[g].valid ==> Get(Mask, g) in Groups(f, r, n)
    ensures forall i: nat | i < |r[g].exact| :: Put(Index(i), g) in Groups(f, r, n) && Get(Index(i), g) in Groups(f, r, n)
    decreases n
  {
    hide GroupActs;
    if g < n - 1 {
      GroupShares(f, r, g, n - 1);
    } else {
      MasksAreShared(f, r, g);
      forall i: nat | i < |r[g].exact| ensures Put(Index(i), g) in GroupActs(f, r, g) && Get(Index(i), g) in GroupActs(f, r, g) {
        IndexIsShared(f, r, g, i);
      }
    }
  }

  lemma MasksAreShared(f: Flags, r: seq<Group>, g: nat)
    requires g < |r|
    ensures PutSums(g) in GroupActs(f, r, g) && GetSums(g) in GroupActs(f, r, g) && Put(Mask, g) in GroupActs(f, r, g)
    ensures Put(Count, g) in GroupActs(f, r, g) && Get(Count, g) in GroupActs(f, r, g)
    ensures |r[g].exact| < r[g].valid ==> Get(Mask, g) in GroupActs(f, r, g)
  {
    var start, end, early, approx := RouteStart(g), RouteEnd(r, g), EarlyLoad(f, r, g), ApproxColumns(r, g);
    assert PutSums(g) in start && GetSums(g) in start && Put(Mask, g) in start && Put(Count, g) in end && Get(Count, g) in early;
    assert |r[g].exact| < r[g].valid ==> Get(Mask, g) in approx;
    hide RouteStart, RouteEnd, EarlyLoad, ApproxColumns, ExactLoop, FirstExactLoads, SummaryLoads;
  }

  lemma IndexIsShared(f: Flags, r: seq<Group>, g: nat, i: nat)
    requires g < |r| && i < |r[g].exact|
    ensures Put(Index(i), g) in GroupActs(f, r, g) && Get(Index(i), g) in GroupActs(f, r, g)
  {
    IndexIsPut(g, |r[g].exact|, i);
    IndexIsRead(f, r, g, |r[g].exact|, i);
    hide IndexPuts, ExactLoop, RouteStart, ApproxActs, SummaryLoads;
  }

  lemma {:induction false} IndexIsPut(g: nat, n: nat, i: nat)
    requires i < n
    ensures Put(Index(i), g) in IndexPuts(g, n)
    decreases n
  {
    if i < n - 1 { IndexIsPut(g, n - 1, i); }
  }

  lemma {:induction false} IndexIsRead(f: Flags, r: seq<Group>, g: nat, n: nat, i: nat)
    requires g < |r| && i < n <= |r[g].exact|
    ensures Get(Index(i), g) in ExactLoop(f, r, g, n)
    decreases n
  {
    hide PassK, PassV;
    if i < n - 1 { IndexIsRead(f, r, g, n - 1, i); } else { PassReads(f, r, g, i); }
  }

  lemma PassReads(f: Flags, r: seq<Group>, g: nat, n: nat)
    requires g < |r| && n < |r[g].exact|
    ensures Get(Index(n), g) in PassK(f, r, g, n)
  {
    assert PassK(f, r, g, n)[0] == Get(Index(n), g);
  }

  // ----- what each warp is meant to consume -----

  function Blocks(e: seq<nat>): (s: seq<Cargo>)
    ensures |s| == |e|
  {
    seq(|e|, i requires 0 <= i < |e| => Here(Rows(e[i])))
  }

  /** The summary tile of each group followed by the rows of its exact blocks. */
  function Stream(r: seq<Group>): seq<Cargo> {
    if r == [] then []
    else Stream(r[..|r| - 1]) + [Here(Summary(|r| - 1))] + Blocks(r[|r| - 1].exact)
  }

  lemma StreamStep(r: seq<Group>, n: nat)
    requires n < |r|
    ensures Stream(r[..n + 1]) == Stream(r[..n]) + [Here(Summary(n))] + Blocks(r[n].exact)
  {
    assert r[..n + 1][..n] == r[..n];
  }

  // ----- the one-thread reading accepts the stream -----

  lemma {:induction false} Then(a: seq<Act>, b: seq<Act>, q: View)
    ensures Plays(a + b, q) <==> Plays(a, q) && Plays(b, Play(a, q))
    ensures Play(a + b, q) == Play(b, Play(a, q))
  {
    if a == [] {
      assert a + b == b;
    } else {
      assert (a + b)[1..] == a[1..] + b;
      Then(a[1..], b, Next(a[0], q));
    }
  }

  lemma Play1(a: Act, q: View)
    ensures Plays([a], q) <==> Can(a, q)
    ensures Play([a], q) == Next(a, q)
  {
    assert [a][1..] == [];
  }

  lemma Play2(a: Act, b: Act, q: View)
    ensures Plays([a, b], q) <==> Can(a, q) && Can(b, Next(a, q))
    ensures Play([a, b], q) == Next(b, Next(a, q))
  {
    assert [a, b][1..] == [b];
    Play1(b, Next(a, q));
  }

  lemma Play3(a: Act, b: Act, c: Act, q: View)
    ensures Plays([a, b, c], q) <==> Can(a, q) && Can(b, Next(a, q)) && Can(c, Next(b, Next(a, q)))
    ensures Play([a, b, c], q) == Next(c, Next(b, Next(a, q)))
  {
    assert [a, b, c][1..] == [b, c];
    Play2(b, c, Next(a, q));
  }

  /** Is the KC tile of group g already on its way when the group begins? */
  predicate HandedOver(f: Flags, r: seq<Group>, g: nat)
    requires g <= |r|
  {
    f.nextRouteK && 0 < g < |r| && r[g - 1].exact != []
  }

  predicate AtGroup(f: Flags, r: seq<Group>, g: nat, q: View)
    requires g <= |r|
  {
    && (if HandedOver(f, r, g) then q.k.Full(Summary(g)) else q.k.Empty())
    && q.v.Empty()
    && q.k.seen == q.v.seen == Stream(r[..g])
    && q.arrives == q.awaits == 2 * g
    && (g > 0 ==> q.Holds(Count, g - 1))
  }

  lemma SummaryLoadsRun(f: Flags, r: seq<Group>, g: nat, q: View)
    requires g < |r| && AtGroup(f, r, g, q)
    ensures Plays(SummaryLoads(f, r, g), q)
    ensures var q' := Play(SummaryLoads(f, r, g), q);
            && q'.k.Full(Summary(g)) && q'.v.Full(Summary(g))
            && q'.k.seen == q'.v.seen == q.k.seen && q'.arrives == q'.awaits == 2 * g
  {
    var kc, vc, read := Load(KSlot, Summary(g)), Load(VSlot, Summary(g)), LeadGet(Count, if g == 0 then 0 else g - 1);
    if !f.nextRouteK || g == 0 {
      Play2(kc, vc, q);
      assert SummaryLoads(f, r, g) == [kc, vc];
    } else if r[g - 1].exact == [] {
      Play3(read, kc, vc, q);
      assert SummaryLoads(f, r, g) == [read, kc, vc];
    } else {
      Play2(read, vc, q);
      assert SummaryLoads(f, r, g) == [read, vc];
    }
  }

  /** All routing results of group g are in place. */
  predicate Routed(r: seq<Group>, g: nat, q: View)
    requires g < |r|
  {
    q.Holds(Mask, g) && q.Holds(Count, g) && forall n: nat | n < |r[g].exact| :: q.Holds(Index(n), g)
  }

  lemma {:induction false} IndexPutsRun(g: nat, n: nat, q: View)
    requires q.arrives == q.awaits && q.arrives % 2 == 1
    ensures Plays(IndexPuts(g, n), q)
    ensures var q' := Play(IndexPuts(g, n), q);
            && q' == q.(mem := q'.mem)
            && (forall i: nat | i < n :: q'.Holds(Index(i), g))
            && (q.Holds(Mask, g) ==> q'.Holds(Mask, g))
  {
    if n > 0 {
      IndexPutsRun(g, n - 1, q);
      Then(IndexPuts(g, n - 1), [Put(Index(n - 1), g)], q);
      Play1(Put(Index(n - 1), g), Play(IndexPuts(g, n - 1), q));
    }
  }

  lemma RouteStartRun(g: nat, q: View)
    requires q.k.Full(Summary(g)) && q.arrives == q.awaits == 2 * g
    ensures Plays(RouteStart(g), q)
    ensures var q' := Play(RouteStart(g), q);
            && q'.k.Empty() && q'.k.seen == q.k.seen + [Here(Summary(g))] && q'.v == q.v
            && q'.arrives == q'.awaits == 2 * g + 1 && q'.Holds(Mask, g)
  {
    var a, b, c := [Wait(KSlot, Summary(g)), Release(KSlot)], [PutSums(g), Arrive(Sync), Await(Sync)], [GetSums(g), Put(Mask, g)];
    Play2(a[0], a[1], q);
    Then(a, b, q);
    var q1 := Play(a, q);
    Play3(b[0], b[1], b[2], q1);
    Then(a + b, c, q);
    var q2 := Play(b, q1);
    assert forall w: nat | w < WARPS :: q2.Holds(Sums(w), g);
    Play2(c[0], c[1], q2);
  }

  lemma RouteEndRun(r: seq<Group>, g: nat, q: View)
    requires g < |r| && q.arrives == q.awaits == 2 * g + 1 && q.Holds(Mask, g)
    ensures Plays(RouteEnd(r, g), q)
    ensures var q' := Play(RouteEnd(r, g), q);
            q'.k == q.k && q'.v == q.v && q'.arrives == q'.awaits == 2 * g + 2 && Routed(r, g, q')
  {
    var n := |r[g].exact|;
    IndexPutsRun(g, n, q);
    Then(IndexPuts(g, n), [Put(Count, g), Arrive(Sync), Await(Sync)], q);
    Play3(Put(Count, g), Arrive(Sync), Await(Sync), Play(IndexPuts(g, n), q));
  }

  /** Just before pass n of the exact loop: the rows of block n are loaded, and
      the first n blocks have been consumed. */
  predicate AtPass(f: Flags, r: seq<Group>, g: nat, n: nat, q: View, base: seq<Cargo>)
    requires g < |r| && n <= |r[g].exact|
  {
    var e := r[g].exact;
    && Routed(r, g, q)
    && q.arrives == q.awaits == 2 * g + 2
    && q.k.seen == q.v.seen == base + Blocks(e[..n])
    && (if n < |e| then q.k.Full(Rows(e[n])) && q.v.Full(Rows(e[n]))
        else (if HandedOver(f, r, g + 1) then q.k.Full(Summary(g + 1)) else q.k.Empty()) && q.v.Empty())
  }

  lemma EarlyLoadRun(f: Flags, r: seq<Group>, g: nat, q: View)
    requires g < |r| && Routed(r, g, q) && q.arrives == q.awaits == 2 * g + 2 && q.k.Empty()
    ensures Plays(EarlyLoad(f, r, g), q)
    ensures var q' := Play(EarlyLoad(f, r, g), q); var e := r[g].exact;
            && q' == q.(k := q'.k) && q'.k.seen == q.k.seen
            && if f.firstExactK && e != [] then q'.k.Full(Rows(e[0])) else q'.k == q.k
  {
    var e := r[g].exact;
    Play1(Get(Count, g), q);
    if f.firstExactK && e != [] {
      Play3(Get(Count, g), LeadGet(Index(0), g), Load(KSlot, Rows(e[0])), q);
      assert EarlyLoad(f, r, g) == [Get(Count, g), LeadGet(Index(0), g), Load(KSlot, Rows(e[0]))];
    } else {
      assert EarlyLoad(f, r, g) == [Get(Count, g)];
    }
  }

  lemma ApproxColumnsRun(r: seq<Group>, g: nat, q: View)
    requires g < |r| && Routed(r, g, q) && q.arrives == q.awaits == 2 * g + 2 && q.v.Full(Summary(g))
    ensures Plays(ApproxColumns(r, g), q)
    ensures var q' := Play(ApproxColumns(r, g), q);
            q' == q.(v := q'.v) && q'.v.Empty() && q'.v.seen == q.v.seen + [Here(Summary(g))]
  {
    if |r[g].exact| < r[g].valid {
      Play3(Wait(VSlot, Summary(g)), Get(Mask, g), Release(VSlot), q);
    } else {
      Play2(Wait(VSlot, Summary(g)), Release(VSlot), q);
    }
  }

  lemma FirstExactLoadsRun(f: Flags, r: seq<Group>, g: nat, q: View)
    requires g < |r| && Routed(r, g, q) && q.arrives == q.awaits == 2 * g + 2
    requires var e := r[g].exact; if f.firstExactK && e != [] then q.k.Full(Rows(e[0])) else q.k.Empty()
    requires q.v.Empty() && q.k.seen == q.v.seen
    ensures Plays(FirstExactLoads(f, r, g), q)
    ensures AtPass(f, r, g, 0, Play(FirstExactLoads(f, r, g), q), q.k.seen)
  {
    var e := r[g].exact;
    assert q.k.seen + Blocks(e[..0]) == q.k.seen;
    if e == [] {
    } else if f.firstExactK {
      Play2(LeadGet(Index(0), g), Load(VSlot, Rows(e[0])), q);
    } else {
      Play3(LeadGet(Index(0), g), Load(KSlot, Rows(e[0])), Load(VSlot, Rows(e[0])), q);
    }
  }

  lemma PassKRun(f: Flags, r: seq<Group>, g: nat, n: nat, q: View)
    requires g < |r| && n < |r[g].exact| && Routed(r, g, q) && q.arrives == q.awaits == 2 * g + 2
    requires q.k.Full(Rows(r[g].exact[n]))
    ensures Plays(PassK(f, r, g, n), q)
    ensures var q' := Play(PassK(f, r, g, n), q); var e := r[g].exact;
            && q' == q.(k := q'.k) && q'.k.seen == q.k.seen + [Here(Rows(e[n]))]
            && if n + 1 < |e| then q'.k.Full(Rows(e[n + 1]))
               else if HandedOver(f, r, g + 1) then q'.k.Full(Summary(g + 1))
               else q'.k.Empty()
  {
    var e := r[g].exact;
    Play3(Get(Index(n), g), Wait(KSlot, Rows(e[n])), Release(KSlot), q);
    var a := [Get(Index(n), g), Wait(KSlot, Rows(e[n])), Release(KSlot)];
    Then(a, KRefill(f, r, g, n), q);
    var q1 := Play(a, q);
    if n + 1 < |e| {
      Play2(LeadGet(Index(n + 1), g), Load(KSlot, Rows(e[n + 1])), q1);
    } else if f.nextRouteK && g + 1 < |r| {
      Play1(Load(KSlot, Summary(g + 1)), q1);
    }
  }

  lemma PassVRun(r: seq<Group>, g: nat, n: nat, q: View)
    requires g < |r| && n < |r[g].exact| && Routed(r, g, q) && q.arrives == q.awaits == 2 * g + 2
    requires q.v.Full(Rows(r[g].exact[n]))
    ensures Plays(PassV(r, g, n), q)
    ensures var q' := Play(PassV(r, g, n), q); var e := r[g].exact;
            && q' == q.(v := q'.v) && q'.v.seen == q.v.seen + [Here(Rows(e[n]))]
            && if n + 1 < |e| then q'.v.Full(Rows(e[n + 1])) else q'.v.Empty()
  {
    hide Play, Plays, PassV, Routed;
    var e := r[g].exact;
    UseV(e[n], q);
    if n + 1 < |e| {
      HasIndex(r, g, n + 1, q);
      PassVGoesOn(r, g, n);
      UseAndNextV(g, n + 1, e[n], e[n + 1], q);
    } else {
      PassVStops(r, g, n);
    }
  }

  lemma PassVGoesOn(r: seq<Group>, g: nat, n: nat)
    requires g < |r| && n + 1 < |r[g].exact|
    ensures var e := r[g].exact;
            PassV(r, g, n) == [Wait(VSlot, Rows(e[n])), Release(VSlot)] + [LeadGet(Index(n + 1), g), Load(VSlot, Rows(e[n + 1]))]
  {
  }

  lemma PassVStops(r: seq<Group>, g: nat, n: nat)
    requires g < |r| && n + 1 == |r[g].exact|
    ensures PassV(r, g, n) == [Wait(VSlot, Rows(r[g].exact[n])), Release(VSlot)]
  {
    assert PassV(r, g, n) == [Wait(VSlot, Rows(r[g].exact[n])), Release(VSlot)] + [];
  }

  lemma UseAndNextV(g: nat, i: nat, block: nat, next: nat, q: View)
    requires q.arrives == q.awaits && q.arrives % 2 == 0 && q.v.Full(Rows(block)) && q.Holds(Index(i), g)
    ensures var acts := [Wait(VSlot, Rows(block)), Release(VSlot)] + [LeadGet(Index(i), g), Load(VSlot, Rows(next))];
            && Plays(acts, q)
            && Play(acts, q) == q.(v := Lane(Rows(next), q.v.loads + 1, q.v.seen + [Here(Rows(block))], q.v.releases + 1))
  {
    hide Play, Plays;
    var a, b := [Wait(VSlot, Rows(block)), Release(VSlot)], [LeadGet(Index(i), g), Load(VSlot, Rows(next))];
    UseV(block, q);
    NextV(g, i, next, Play(a, q));
    Then(a, b, q);
  }

  lemma HasIndex(r: seq<Group>, g: nat, n: nat, q: View)
    requires g < |r| && n < |r[g].exact| && Routed(r, g, q)
    ensures q.Holds(Index(n), g)
  {
  }

  lemma UseV(block: nat, q: View)
    requires q.arrives == q.awaits && q.v.Full(Rows(block))
    ensures var a := [Wait(VSlot, Rows(block)), Release(VSlot)];
            && Plays(a, q)
            && Play(a, q) == q.(v := q.v.(seen := q.v.seen + [Here(Rows(block))], releases := q.v.releases + 1))
  {
    Play2(Wait(VSlot, Rows(block)), Release(VSlot), q);
  }

  lemma NextV(g: nat, i: nat, block: nat, q: View)
    requires q.arrives == q.awaits && q.arrives % 2 == 0 && q.Holds(Index(i), g) && q.v.Empty()
    ensures var b := [LeadGet(Index(i), g), Load(VSlot, Rows(block))];
            && Plays(b, q) && Play(b, q) == q.(v := q.v.(tile := Rows(block), loads := q.v.loads + 1))
  {
    Play2(LeadGet(Index(i), g), Load(VSlot, Rows(block)), q);
  }

  lemma PassRun(f: Flags, r: seq<Group>, g: nat, n: nat, q: View, base: seq<Cargo>)
    requires g < |r| && n < |r[g].exact| && AtPass(f, r, g, n, q, base)
    ensures var a := PassK(f, r, g, n) + PassV(r, g, n); Plays(a, q) && AtPass(f, r, g, n + 1, Play(a, q), base)
  {
    var e := r[g].exact;
    Then(PassK(f, r, g, n), PassV(r, g, n), q);
    PassKRun(f, r, g, n, q);
    PassVRun(r, g, n, Play(PassK(f, r, g, n), q));
    assert base + Blocks(e[..n]) + [Here(Rows(e[n]))] == base + Blocks(e[..n + 1]);
  }

  lemma {:induction false} ExactLoopRun(f: Flags, r: seq<Group>, g: nat, n: nat, q: View, base: seq<Cargo>)
    requires g < |r| && n <= |r[g].exact| && AtPass(f, r, g, 0, q, base)
    ensures Plays(ExactLoop(f, r, g, n), q)
    ensures AtPass(f, r, g, n, Play(ExactLoop(f, r, g, n), q), base)
  {
    if n > 0 {
      ExactLoopRun(f, r, g, n - 1, q, base);
      Then(ExactLoop(f, r, g, n - 1), PassK(f, r, g, n - 1) + PassV(r, g, n - 1), q);
      PassRun(f, r, g, n - 1, Play(ExactLoop(f, r, g, n - 1), q), base);
    }
  }

  lemma GroupRun(f: Flags, r: seq<Group>, g: nat, q: View)
    requires g < |r| && AtGroup(f, r, g, q)
    ensures Plays(GroupActs(f, r, g), q) && AtGroup(f, r, g + 1, Play(GroupActs(f, r, g), q))
  {
    var e := r[g].exact;
    var a, b := SummaryLoads(f, r, g) + (RouteStart(g) + RouteEnd(r, g)), ApproxActs(f, r, g) + ExactLoop(f, r, g, |e|);
    Then(a, b, q);
    RoutePart(f, r, g, q);
    ApproxPart(f, r, g, Play(a, q));
    assert r[..g + 1][..g] == r[..g] && e[..|e|] == e;
  }

  lemma RoutePart(f: Flags, r: seq<Group>, g: nat, q: View)
    requires g < |r| && AtGroup(f, r, g, q)
    ensures var a := SummaryLoads(f, r, g) + (RouteStart(g) + RouteEnd(r, g)); var q' := Play(a, q);
            && Plays(a, q) && Routed(r, g, q') && q'.arrives == q'.awaits == 2 * g + 2
            && q'.k.Empty() && q'.k.seen == q.k.seen + [Here(Summary(g))]
            && q'.v.Full(Summary(g)) && q'.v.seen == q.v.seen
  {
    SummaryLoadsRun(f, r, g, q);
    var q1 := Play(SummaryLoads(f, r, g), q);
    Then(SummaryLoads(f, r, g), RouteStart(g) + RouteEnd(r, g), q);
    RouteStartRun(g, q1);
    Then(RouteStart(g), RouteEnd(r, g), q1);
    RouteEndRun(r, g, Play(RouteStart(g), q1));
  }

  lemma ApproxPart(f: Flags, r: seq<Group>, g: nat, q: View)
    requires g < |r| && Routed(r, g, q) && q.arrives == q.awaits == 2 * g + 2
    requires q.k.Empty() && q.v.Full(Summary(g)) && q.k.seen == q.v.seen + [Here(Summary(g))]
    ensures var a := ApproxActs(f, r, g) + ExactLoop(f, r, g, |r[g].exact|);
            Plays(a, q) && AtPass(f, r, g, |r[g].exact|, Play(a, q), q.k.seen)
  {
    var x, y, z := EarlyLoad(f, r, g), ApproxColumns(r, g), FirstExactLoads(f, r, g);
    EarlyLoadRun(f, r, g, q);
    var q1 := Play(x, q);
    Then(x, y + z, q);
    ApproxColumnsRun(r, g, q1);
    Then(y, z, q1);
    FirstExactLoadsRun(f, r, g, Play(y, q1));
    Then(x + (y + z), ExactLoop(f, r, g, |r[g].exact|), q);
    ExactLoopRun(f, r, g, |r[g].exact|, Play(x + (y + z), q), q.k.seen);
  }

  lemma {:induction false} GroupsRun(f: Flags, r: seq<Group>, g: nat)
    requires g <= |r|
    ensures Plays(Groups(f, r, g), INIT) && AtGroup(f, r, g, Play(Groups(f, r, g), INIT))
  {
    if g > 0 {
      GroupsRun(f, r, g - 1);
      Then(Groups(f, r, g - 1), GroupActs(f, r, g - 1), INIT);
      GroupRun(f, r, g - 1, Play(Groups(f, r, g - 1), INIT));
    }
  }

  /** The one-thread reading accepts `p`, leaves both stages empty, and consumes `tiles`
      from each of them in order. */
  predicate Accepted(p: seq<Act>, tiles: seq<Cargo>) {
    && Plays(p, INIT)
    && Play(p, INIT).k.Empty() && Play(p, INIT).v.Empty()
    && Play(p, INIT).k.seen == Play(p, INIT).v.seen == tiles
  }

  /** The kernel's stream is accepted for every route and every setting of the flags. */
  lemma KernelAccepted(f: Flags, r: seq<Group>)
    ensures Accepted(Kernel(f, r), Stream(r))
  {
    GroupsRun(f, r, |r|);
    assert r[..|r|] == r;
  }
}
