/**
 The four warps of one CTA, the TMA unit and the hardware barriers, for any
 instruction stream that the one-thread reading of module `KvProgram` accepts.

 A K or V stage is guarded by two mbarriers.  Hardware keeps only the parity of
 their phases, so a wait here looks at nothing but a counter modulo 2.  Any warp
 may move at any time its next action is enabled, and a TMA copy may land at any
 time after it was issued.

 Main results, for every run: every wait yields exactly the tile it expects and
 that tile stays in place until the warp releases it; every scratch read sees what
 its own group wrote, with no conflicting write possible at the same time; a run
 that has not finished can always continue; runs have bounded length; and a
 finished run has fed every warp the whole prescribed stream.
*/
module WarpMachine {
  import opened KvProgram

  /** Four parties meeting again and again: the number of completed meetings and
      how many have arrived at the next one. */
  datatype Rally = Rally(done: nat, arrived: nat)
  {
    function Join(): Rally {
      if arrived + 1 == WARPS then Rally(done + 1, 0) else Rally(done, arrived + 1)
    }
  }

  /** One stage.  `issued` and `landed` count TMA copies; `freed` is the rally of
      consumer releases; `released` and `seen` are per warp.  Only the parities of
      `issued`, `landed`, `freed.done` and `released[w]` decide a wait. */
  datatype Pipe = Pipe(cargo: Cargo, issued: nat, landed: nat, freed: Rally,
                       released: seq<nat>, seen: seq<seq<Cargo>>)
  {
    /** producer_acquire: the producer's inverted phase bit against the empty barrier. */
    predicate MayLoad() { freed.done % 2 == issued % 2 }

    /** consumer_wait: warp w's phase bit against the full barrier. */
    predicate MayTake(w: nat)
      requires w < |released|
    {
      landed % 2 != released[w] % 2
    }

    /** What warp w's action does to the stage it names. */
    function After(a: Act, w: nat): (q: Pipe)
      requires |released| == |seen| == WARPS && w < WARPS
      ensures |q.released| == |q.seen| == WARPS
    {
      match a
      case Load(_, t) => if w == 0 then this.(cargo := Flight(t), issued := issued + 1) else this
      case Wait(_, _) => this.(seen := seen[w := seen[w] + [cargo]])
      case Release(_) => this.(freed := freed.Join(), released := released[w := released[w] + 1])
      case _ => this
    }
  }

  /** The two barriers of the CTA: where all warps wait, with each warp's number of passages,
      and where only warp 0 does, with its number of passages. */
  datatype Barriers = Barriers(sync: Rally, passed: seq<nat>, signal: Rally, heard: nat)
  {
    function Joined(b: Barrier): Barriers {
      if b.Sync? then this.(sync := sync.Join()) else this.(signal := signal.Join())
    }

    predicate Opens(b: Barrier, w: nat)
      requires w < |passed|
    {
      if b.Sync? then sync.done > passed[w] else w != 0 || signal.done > heard
    }

    function Passing(b: Barrier, w: nat): (c: Barriers)
      requires w < |passed|
      ensures |c.passed| == |passed|
    {
      if b.Sync? then this.(passed := passed[w := passed[w] + 1])
      else if w == 0 then this.(heard := heard + 1)
      else this
    }
  }

  datatype State = State(pc: seq<nat>, k: Pipe, v: Pipe, cta: Barriers, mem: map<Cell, nat>, stray: bool)
  {
    function At(s: Slot): Pipe { if s.KSlot? then k else v }
    function With(s: Slot, p: Pipe): State { if s.KSlot? then this.(k := p) else this.(v := p) }
    predicate Shaped() {
      |pc| == |cta.passed| == |k.released| == |k.seen| == |v.released| == |v.seen| == WARPS
    }
    predicate Holds(c: Cell, g: nat) { c in mem && mem[c] == g }
  }

  datatype Move = Step(w: nat) | Land(s: Slot)

  const IDLE := Pipe(Junk, 0, 0, Rally(0, 0), [0, 0, 0, 0], [[], [], [], []])
  const START := State([0, 0, 0, 0], IDLE, IDLE, Barriers(Rally(0, 0), [0, 0, 0, 0], Rally(0, 0), 0), map[], false)

  /** Does nothing hold warp w back from performing `a`? */
  predicate Ready(a: Act, w: nat, st: State)
    requires st.Shaped() && w < WARPS
  {
    match a
    case Load(s, _) => w != 0 || st.At(s).MayLoad()
    case Wait(s, _) => st.At(s).MayTake(w)
    case Await(b) => st.cta.Opens(b, w)
    case _ => true
  }

  predicate Enabled(p: seq<Act>, st: State, m: Move)
    requires st.Shaped()
  {
    match m
    case Land(s) => st.At(s).cargo.Flight?
    case Step(w) => w < WARPS && st.pc[w] < |p| && Ready(p[st.pc[w]], w, st)
  }

  /** A warp that reads another group's routing data no longer follows the stream. */
  function Read(st: State, c: Cell, g: nat): State {
    if st.Holds(c, g) then st else st.(stray := true)
  }

  function Perform(a: Act, w: nat, st: State): (st': State)
    requires st.Shaped() && w < WARPS
    ensures st'.Shaped() && st'.pc == st.pc
  {
    if a.LeadOnly() && !a.Load? && w != 0 then st else
    match a
    case Load(s, _) => st.With(s, st.At(s).After(a, w))
    case Wait(s, _) => st.With(s, st.At(s).After(a, w))
    case Release(s) => st.With(s, st.At(s).After(a, w))
    case Arrive(b) => st.(cta := st.cta.Joined(b))
    case Await(b) => st.(cta := st.cta.Passing(b, w))
    case PutSums(g) => st.(mem := st.mem[Sums(w) := g])
    case GetSums(g) => Read(Read(Read(Read(st, Sums(0), g), Sums(1), g), Sums(2), g), Sums(3), g)
    case Put(c, g) => st.(mem := st.mem[c := g])
    case Get(c, g) => Read(st, c, g)
    case LeadGet(c, g) => Read(st, c, g)
  }

  function Apply(p: seq<Act>, st: State, m: Move): (st': State)
    requires st.Shaped() && Enabled(p, st, m)
    ensures st'.Shaped()
  {
    match m
    case Land(s) =>
      var q := st.At(s); st.With(s, q.(cargo := Here(q.cargo.t), landed := q.landed + 1))
    case Step(w) =>
      Perform(p[st.pc[w]], w, st).(pc := st.pc[w := st.pc[w] + 1])
  }

  /** The state after the moves `ms`, or None if one of them was not enabled. */
  datatype Outcome = Stuck | At(st: State)

  function Run(p: seq<Act>, ms: seq<Move>): (r: Outcome)
    ensures r.At? ==> r.st.Shaped()
  {
    if ms == [] then At(START)
    else
      var r := Run(p, ms[..|ms| - 1]);
      if r.At? && Enabled(p, r.st, ms[|ms| - 1]) then At(Apply(p, r.st, ms[|ms| - 1])) else Stuck
  }

  predicate Finished(p: seq<Act>, st: State)
    requires st.Shaped()
  {
    forall w | 0 <= w < WARPS :: st.pc[w] == |p|
  }

  // ----- monotonicity of the one-thread reading -----

  function ViewAt(p: seq<Act>, i: nat): View
    requires i <= |p|
  {
    Play(p[..i], INIT)
  }

  lemma ViewStep(p: seq<Act>, i: nat)
    requires i < |p| && Plays(p, INIT)
    ensures Can(p[i], ViewAt(p, i)) && ViewAt(p, i + 1) == Next(p[i], ViewAt(p, i))
  {
    assert p == p[..i] + p[i..] && p[..i + 1] == p[..i] + [p[i]];
    Then(p[..i], p[i..], INIT);
    Then(p[..i], [p[i]], INIT);
    Play1(p[i], ViewAt(p, i));
  }

  predicate LaneOk(l: Lane) { l.releases <= |l.seen| <= l.loads <= l.releases + 1 }

  predicate LaneLe(a: Lane, b: Lane) {
    && a.loads <= b.loads && |a.seen| <= |b.seen| && a.releases <= b.releases
    && (a.loads == b.loads ==> a.tile == b.tile)
  }

  /** The counts by kind add up, and none is ahead of the other by more than the barrier being
      passed. */
  predicate CountsOk(v: View) {
    var c := v.counts;
    && v.awaits <= v.arrives <= v.awaits + 1
    && v.arrives == c.syncs + c.signals && v.awaits == c.synced + c.heard
    && c.synced <= c.syncs && c.heard <= c.signals
    && (v.arrives == v.awaits + 1 ==>
          if v.last.Sync? then c.heard == c.signals else c.synced == c.syncs && v.arrives % 2 == 1)
  }

  predicate CountsLe(a: Counts, b: Counts) {
    a.syncs <= b.syncs && a.synced <= b.synced && a.signals <= b.signals && a.heard <= b.heard
  }

  predicate ViewOk(v: View) { LaneOk(v.k) && LaneOk(v.v) && CountsOk(v) }

  predicate ViewLe(a: View, b: View) {
    && LaneLe(a.k, b.k) && LaneLe(a.v, b.v) && a.arrives <= b.arrives && a.awaits <= b.awaits
    && CountsLe(a.counts, b.counts)
  }

  lemma NextGrows(a: Act, q: View)
    requires Can(a, q) && ViewOk(q)
    ensures ViewOk(Next(a, q)) && ViewLe(q, Next(a, q))
  {
  }

  lemma LeTransitive(a: View, b: View, c: View)
    requires ViewLe(a, b) && ViewLe(b, c)
    ensures ViewLe(a, c)
  {
  }

  lemma LeReflexive(a: View)
    ensures ViewLe(a, a)
  {
  }

  lemma AtFirst(p: seq<Act>)
    ensures ViewOk(ViewAt(p, 0))
  {
  }

  lemma {:induction false} Grows(p: seq<Act>, i: nat, j: nat)
    requires i <= j <= |p| && Plays(p, INIT)
    ensures ViewLe(ViewAt(p, i), ViewAt(p, j)) && ViewOk(ViewAt(p, j))
    decreases j
  {
    hide Can, Next, Plays, ViewOk, ViewLe, ViewAt;
    if j == 0 {
      AtFirst(p);
      LeReflexive(ViewAt(p, 0));
    } else {
      ViewStep(p, j - 1);
      if i < j { Grows(p, i, j - 1); } else { Grows(p, j - 1, j - 1); }
      NextGrows(p[j - 1], ViewAt(p, j - 1));
      if i < j { LeTransitive(ViewAt(p, i), ViewAt(p, j - 1), ViewAt(p, j)); } else { LeReflexive(ViewAt(p, j)); }
    }
  }

  /** A cell is untouched along a stretch of the stream in which nothing writes it. */
  lemma {:induction false} Untouched(p: seq<Act>, i: nat, j: nat, c: Cell)
    requires i <= j <= |p| && Plays(p, INIT)
    requires forall n | i <= n < j :: !Writes(p[n], c)
    ensures c in ViewAt(p, i).mem <==> c in ViewAt(p, j).mem
    ensures c in ViewAt(p, i).mem ==> ViewAt(p, i).mem[c] == ViewAt(p, j).mem[c]
    decreases j - i
  {
    if i < j {
      ViewStep(p, j - 1);
      Untouched(p, i, j - 1, c);
    }
  }

  predicate Writes(a: Act, c: Cell) {
    (a.PutSums? && c.Sums?) || (a.Put? && a.c == c)
  }

  predicate Reads(a: Act, c: Cell) {
    (a.GetSums? && c.Sums?) || ((a.Get? || a.LeadGet?) && a.c == c)
  }

  /** The one warp that writes a cell. */
  function Owner(c: Cell): nat { if c.Sums? && c.w < WARPS then c.w else 0 }

  // ----- the invariant -----

  function Late(done: nat, x: nat): nat { if x > done then 1 else 0 }

  /** How many parties have already joined the next meeting. */
  function Early(done: nat, n: seq<nat>): nat
    requires |n| == WARPS
  {
    Late(done, n[0]) + Late(done, n[1]) + Late(done, n[2]) + Late(done, n[3])
  }

  /** The rally's counters against the number of times each party has joined. */
  predicate RallyOk(r: Rally, n: seq<nat>)
    requires |n| == WARPS
  {
    && (forall w | 0 <= w < WARPS :: r.done <= n[w] <= r.done + 1)
    && r.arrived == Early(r.done, n) < WARPS
  }

  /** A stage against the four warps' own readings of it. */
  predicate PipeOk(q: Pipe, ls: seq<Lane>) {
    && |ls| == |q.released| == |q.seen| == WARPS
    && (forall w | 0 <= w < WARPS ::
          q.released[w] == ls[w].releases && q.seen[w] == ls[w].seen && |ls[w].seen| <= q.landed)
    && RallyOk(q.freed, q.released)
    && q.issued == ls[0].loads
    && q.landed <= q.issued <= q.landed + 1
    && q.issued <= q.freed.done + 1
    && q.cargo == (if q.issued == 0 then Junk else if q.landed == q.issued then Here(ls[0].tile) else Flight(ls[0].tile))
  }

  function Syncs(vs: seq<View>): (n: seq<nat>)
    requires |vs| == WARPS
    ensures |n| == WARPS && forall w | 0 <= w < WARPS :: n[w] == vs[w].counts.syncs
  {
    [vs[0].counts.syncs, vs[1].counts.syncs, vs[2].counts.syncs, vs[3].counts.syncs]
  }

  function Signals(vs: seq<View>): (n: seq<nat>)
    requires |vs| == WARPS
    ensures |n| == WARPS && forall w | 0 <= w < WARPS :: n[w] == vs[w].counts.signals
  {
    [vs[0].counts.signals, vs[1].counts.signals, vs[2].counts.signals, vs[3].counts.signals]
  }

  predicate SyncOk(b: Barriers, vs: seq<View>) {
    && |b.passed| == |vs| == WARPS
    && RallyOk(b.sync, Syncs(vs))
    && forall w | 0 <= w < WARPS :: b.passed[w] == vs[w].counts.synced <= b.sync.done
  }

  /** Warp 0 waits for every signal; and no warp is back in an even epoch before all have
      arrived at the signals it has itself arrived at. */
  predicate SignalOk(b: Barriers, vs: seq<View>) {
    && |vs| == WARPS
    && RallyOk(b.signal, Signals(vs))
    && b.heard == vs[0].counts.heard <= b.signal.done
    && forall w | 0 <= w < WARPS && Settled(vs[w]) :: vs[w].counts.signals <= b.signal.done
  }

  predicate Settled(v: View) { v.arrives == v.awaits && v.arrives % 2 == 0 }

  predicate CtaOk(b: Barriers, vs: seq<View>) { SyncOk(b, vs) && SignalOk(b, vs) }

  ghost predicate MemOk(mem: map<Cell, nat>, vs: seq<View>)
    requires |vs| == WARPS
  {
    forall c: Cell {:trigger c in mem} ::
      var m := vs[Owner(c)].mem;
      (c in mem <==> c in m) && (c in mem ==> mem[c] == m[c])
  }

  predicate Within(p: seq<Act>, pc: seq<nat>) {
    |pc| == WARPS && forall w | 0 <= w < WARPS :: pc[w] <= |p|
  }

  /** What each warp would have seen had it run alone up to its program counter. */
  function Views(p: seq<Act>, pc: seq<nat>): (vs: seq<View>)
    requires Within(p, pc)
    ensures |vs| == WARPS && forall w | 0 <= w < WARPS :: vs[w] == ViewAt(p, pc[w])
  {
    [ViewAt(p, pc[0]), ViewAt(p, pc[1]), ViewAt(p, pc[2]), ViewAt(p, pc[3])]
  }

  function Lanes(vs: seq<View>, s: Slot): (ls: seq<Lane>)
    requires |vs| == WARPS
    ensures |ls| == WARPS && forall w | 0 <= w < WARPS :: ls[w] == vs[w].At(s)
  {
    [vs[0].At(s), vs[1].At(s), vs[2].At(s), vs[3].At(s)]
  }

  ghost predicate Fits(st: State, vs: seq<View>) {
    && st.Shaped() && !st.stray && |vs| == WARPS
    && PipeOk(st.k, Lanes(vs, KSlot)) && PipeOk(st.v, Lanes(vs, VSlot))
    && CtaOk(st.cta, vs)
    && MemOk(st.mem, vs)
  }

  ghost predicate Inv(p: seq<Act>, st: State) {
    Within(p, st.pc) && Fits(st, Views(p, st.pc))
  }

  // ----- one stage, one move -----

  /** A load waits for all four releases: no warp is between its wait and its release. */
  lemma LoadKeeps(q: Pipe, ls: seq<Lane>, s: Slot, t: Tile, l: Lane)
    requires PipeOk(q, ls) && ls[0].Empty() && q.MayLoad() && l == ls[0].(tile := t, loads := ls[0].loads + 1)
    requires forall w | 0 <= w < WARPS :: LaneOk(ls[w])
    ensures q.freed.done == q.issued == q.landed
    ensures forall w | 0 <= w < WARPS :: ls[w].releases == |ls[w].seen| == q.issued
    ensures PipeOk(q.After(Load(s, t), 0), ls[0 := l])
  {
    assert q.released[0] == ls[0].releases && q.freed.done <= q.released[0];
  }

  lemma TakeSees(q: Pipe, ls: seq<Lane>, w: nat, s: Slot, t: Tile, l: Lane)
    requires PipeOk(q, ls) && w < WARPS && ls[w].Full(t) && q.MayTake(w)
    requires l == ls[w].(seen := ls[w].seen + [Here(t)])
    requires ls[0].loads == ls[w].loads ==> ls[0].tile == ls[w].tile
    ensures q.cargo == Here(t) && PipeOk(q.After(Wait(s, t), w), ls[w := l])
  {
    assert q.freed.done <= q.released[w] == ls[w].releases;
  }

  lemma ReleaseKeeps(q: Pipe, ls: seq<Lane>, w: nat, s: Slot, l: Lane)
    requires PipeOk(q, ls) && w < WARPS && ls[w].Held() && l == ls[w].(releases := ls[w].releases + 1)
    ensures PipeOk(q.After(Release(s), w), ls[w := l])
  {
    assert |ls[w].seen| <= q.landed && q.released[w] == ls[w].releases <= q.freed.done;
    JoinKeeps(q.freed, q.released, w);
  }

  lemma JoinKeeps(r: Rally, n: seq<nat>, w: nat)
    requires |n| == WARPS && RallyOk(r, n) && w < WARPS && n[w] == r.done
    ensures RallyOk(r.Join(), n[w := n[w] + 1]) && r.Join().done >= r.done
  {
  }

  lemma LandKeeps(q: Pipe, ls: seq<Lane>)
    requires PipeOk(q, ls) && q.cargo.Flight?
    ensures PipeOk(q.(cargo := Here(q.cargo.t), landed := q.landed + 1), ls)
  {
  }

  // ----- the CTA barrier separates writers from readers -----

  /** Whoever has passed a barrier has seen everybody arrive as often as it has passed. */
  lemma Epochs(b: Barriers, vs: seq<View>, w: nat, x: nat)
    requires CtaOk(b, vs) && w < WARPS && x < WARPS
    ensures vs[w].counts.synced <= b.sync.done <= vs[x].counts.syncs
    ensures vs[0].counts.heard <= b.signal.done <= vs[x].counts.signals
  {
    assert Syncs(vs)[x] == vs[x].counts.syncs && Signals(vs)[x] == vs[x].counts.signals;
  }

  /** Out of an odd epoch there is no way but through a barrier at which all wait. */
  lemma {:induction false} OddNeedsSync(p: seq<Act>, i: nat, j: nat)
    requires i <= j <= |p| && Plays(p, INIT) && ViewAt(p, i).arrives % 2 == 1
    ensures ViewAt(p, i).counts.syncs == ViewAt(p, j).counts.syncs ==> ViewAt(p, i).arrives == ViewAt(p, j).arrives
    decreases j
  {
    Grows(p, i, j);
    if i < j {
      OddNeedsSync(p, i, j - 1);
      ViewStep(p, j - 1);
      Grows(p, i, j - 1);
    }
  }

  /** Between a and b there is a barrier at which warp w waits before b. */
  predicate Guarded(a: View, b: View, w: nat) {
    a.counts.syncs < b.counts.synced || (w == 0 && a.counts.signals < b.counts.heard)
  }

  /** What warp w itself does: the other warps step over lead-only actions. */
  predicate Does(a: Act, w: nat) { !a.LeadOnly() || w == 0 }

  lemma ReadEpoch(a: Act, q: View, c: Cell)
    requires Can(a, q) && Reads(a, c)
    ensures q.arrives == q.awaits && q.arrives % 2 == if c.Sums? then 1 else 0
  {
  }

  lemma WriteEpoch(a: Act, q: View, c: Cell)
    requires Can(a, q) && Writes(a, c)
    ensures q.arrives == q.awaits && q.arrives % 2 == if c.Sums? then 0 else 1
  {
  }

  /** Out of an odd epoch every warp has waited; out of an even one at least warp 0. */
  lemma EpochsGuard(p: seq<Act>, i: nat, j: nat, w: nat)
    requires i <= j <= |p| && Plays(p, INIT)
    requires ViewAt(p, i).arrives % 2 != ViewAt(p, j).arrives % 2 && ViewAt(p, j).arrives == ViewAt(p, j).awaits
    requires ViewAt(p, i).arrives % 2 == 0 ==> w == 0
    ensures Guarded(ViewAt(p, i), ViewAt(p, j), w)
  {
    hide Plays, ViewAt;
    Grows(p, i, j);
    Grows(p, i, i);
    if ViewAt(p, i).arrives % 2 == 1 { OddNeedsSync(p, i, j); }
  }

  /** A read and a write of one cell lie in different epochs of the stream, with a barrier
      between them at which the later of the two warps waits. */
  lemma Apart(p: seq<Act>, i: nat, j: nat, c: Cell, w: nat)
    requires i < |p| && j < |p| && Plays(p, INIT) && Reads(p[i], c) && Writes(p[j], c) && Does(p[i], w)
    ensures i != j
    ensures i < j ==> Guarded(ViewAt(p, i), ViewAt(p, j), Owner(c))
    ensures j < i ==> Guarded(ViewAt(p, j), ViewAt(p, i), w)
  {
    hide Plays, ViewAt, Can, Next, Guarded;
    ViewStep(p, i);
    ViewStep(p, j);
    ReadEpoch(p[i], ViewAt(p, i), c);
    WriteEpoch(p[j], ViewAt(p, j), c);
    if i < j { EpochsGuard(p, i, j, Owner(c)); } else { EpochsGuard(p, j, i, w); }
  }

  /** Between the program counters of a reader and of the cell's writer, in either
      order, the stream holds no write to that cell. */
  lemma NoWriteBetween(p: seq<Act>, st: State, w: nat, c: Cell, n: nat)
    requires Plays(p, INIT) && Within(p, st.pc) && CtaOk(st.cta, Views(p, st.pc))
    requires w < WARPS && st.pc[w] < |p| && Reads(p[st.pc[w]], c) && Does(p[st.pc[w]], w)
    requires n < |p| && Writes(p[n], c)
    ensures !(st.pc[w] <= n < st.pc[Owner(c)]) && !(st.pc[Owner(c)] <= n < st.pc[w])
  {
    var i, o := st.pc[w], st.pc[Owner(c)];
    Epochs(st.cta, Views(p, st.pc), Owner(c), w);
    Epochs(st.cta, Views(p, st.pc), w, Owner(c));
    Apart(p, i, n, c, w);
    if n < o { Grows(p, n, o); } else { Grows(p, o, n); }
  }

  lemma ReadAgrees(p: seq<Act>, st: State, w: nat, c: Cell)
    requires Plays(p, INIT) && Within(p, st.pc) && CtaOk(st.cta, Views(p, st.pc))
    requires w < WARPS && st.pc[w] < |p| && Reads(p[st.pc[w]], c) && Does(p[st.pc[w]], w)
    ensures var a, b := ViewAt(p, st.pc[w]).mem, ViewAt(p, st.pc[Owner(c)]).mem;
            (c in a <==> c in b) && (c in a ==> a[c] == b[c])
  {
    var i, o := st.pc[w], st.pc[Owner(c)];
    forall n | (o <= n < i || i <= n < o) && Writes(p[n], c)
      ensures false
    {
      NoWriteBetween(p, st, w, c, n);
    }
    if o <= i { Untouched(p, o, i, c); } else { Untouched(p, i, o, c); }
  }

  /** A warp that has come through a barrier at which all wait leaves no signal behind that
      warp 0 has not heard. */
  lemma Heard(p: seq<Act>, i: nat, j: nat)
    requires i < |p| && j <= |p| && Plays(p, INIT) && p[i] == Await(Sync)
    requires ViewAt(p, i).counts.syncs <= ViewAt(p, j).counts.syncs
    ensures ViewAt(p, i).counts.signals <= ViewAt(p, j).counts.heard
  {
    hide Plays, ViewAt;
    ViewStep(p, i);
    Grows(p, i, i);
    if j < i {
      ViewStep(p, i - 1);
      Grows(p, i - 1, i - 1);
      Grows(p, j, i - 1);
    } else {
      Grows(p, i, j);
    }
  }

  // ----- every move keeps the invariant -----

  /** The facts about a warp's next action that its effect on the state needs. */
  ghost predicate Sound(vs: seq<View>, w: nat, a: Act)
    requires |vs| == WARPS && w < WARPS
  {
    && Can(a, vs[w])
    && (forall x, s: Slot | 0 <= x < WARPS :: LaneOk(vs[x].At(s)))
    && (forall s: Slot :: vs[0].At(s).loads == vs[w].At(s).loads ==> vs[0].At(s).tile == vs[w].At(s).tile)
    && (Does(a, w) ==> forall c: Cell, g: nat :: Reads(a, c) && vs[w].Holds(c, g) ==> vs[Owner(c)].Holds(c, g))
    && CountsOk(vs[w])
    && (a == Await(Sync) && vs[w].counts.syncs <= vs[0].counts.syncs ==> vs[w].counts.signals <= vs[0].counts.heard)
  }

  lemma SameTile(p: seq<Act>, st: State, w: nat, s: Slot)
    requires Plays(p, INIT) && Within(p, st.pc) && w < WARPS
    ensures var a, b := ViewAt(p, st.pc[0]).At(s), ViewAt(p, st.pc[w]).At(s);
            (a.loads == b.loads ==> a.tile == b.tile) && LaneOk(b)
  {
    if st.pc[0] <= st.pc[w] { Grows(p, st.pc[0], st.pc[w]); } else { Grows(p, st.pc[w], st.pc[0]); Grows(p, st.pc[w], st.pc[w]); }
  }

  lemma OwnersAgree(p: seq<Act>, st: State, w: nat)
    requires Plays(p, INIT) && Within(p, st.pc) && CtaOk(st.cta, Views(p, st.pc))
    requires w < WARPS && st.pc[w] < |p| && Does(p[st.pc[w]], w)
    ensures var vs := Views(p, st.pc);
            forall c: Cell, g: nat :: Reads(p[st.pc[w]], c) && vs[w].Holds(c, g) ==> vs[Owner(c)].Holds(c, g)
  {
    hide Plays, ViewAt, CtaOk;
    var vs := Views(p, st.pc);
    forall c: Cell, g: nat | Reads(p[st.pc[w]], c) && vs[w].Holds(c, g) ensures vs[Owner(c)].Holds(c, g) {
      ReadAgrees(p, st, w, c);
    }
  }

  lemma NextIsSound(p: seq<Act>, st: State, w: nat)
    requires Plays(p, INIT) && Inv(p, st) && w < WARPS && st.pc[w] < |p|
    ensures Sound(Views(p, st.pc), w, p[st.pc[w]])
  {
    var vs, a := Views(p, st.pc), p[st.pc[w]];
    hide Plays, ViewAt, Can, Next, PipeOk, CtaOk, MemOk, CountsLe, Views, Reads, Owner, Does, Writes;
    ViewStep(p, st.pc[w]);
    forall x: nat, s: Slot | x < WARPS
      ensures LaneOk(vs[x].At(s)) && (vs[0].At(s).loads == vs[x].At(s).loads ==> vs[0].At(s).tile == vs[x].At(s).tile)
    {
      SameTile(p, st, x, s);
    }
    if Does(a, w) { OwnersAgree(p, st, w); }
    Grows(p, 0, st.pc[w]);
    if a == Await(Sync) && vs[w].counts.syncs <= vs[0].counts.syncs { Heard(p, st.pc[w], st.pc[0]); }
  }

  // What a move leaves alone still fits.

  lemma LanesFrame(vs: seq<View>, w: nat, v: View, s: Slot)
    requires |vs| == WARPS && w < WARPS
    ensures Lanes(vs[w := v], s) == Lanes(vs, s)[w := v.At(s)]
    ensures v.At(s) == vs[w].At(s) ==> Lanes(vs[w := v], s) == Lanes(vs, s)
  {
  }

  lemma CtaFrame(b: Barriers, vs: seq<View>, w: nat, v: View)
    requires CtaOk(b, vs) && w < WARPS && v.arrives == vs[w].arrives && v.awaits == vs[w].awaits && v.counts == vs[w].counts
    ensures CtaOk(b, vs[w := v])
  {
    assert Syncs(vs[w := v]) == Syncs(vs) && Signals(vs[w := v]) == Signals(vs);
  }

  lemma MemFrame(mem: map<Cell, nat>, vs: seq<View>, w: nat, v: View)
    requires |vs| == WARPS && MemOk(mem, vs) && w < WARPS && v.mem == vs[w].mem
    ensures MemOk(mem, vs[w := v])
  {
  }

  lemma LoadFits(st: State, vs: seq<View>, w: nat, s: Slot, t: Tile)
    requires Fits(st, vs) && w < WARPS && Sound(vs, w, Load(s, t)) && Ready(Load(s, t), w, st)
    ensures Fits(Perform(Load(s, t), w, st), vs[w := Next(Load(s, t), vs[w])])
  {
    LoadPipes(st, vs, w, s, t);
    CtaFrame(st.cta, vs, w, Next(Load(s, t), vs[w]));
    MemFrame(st.mem, vs, w, Next(Load(s, t), vs[w]));
  }

  lemma LoadPipes(st: State, vs: seq<View>, w: nat, s: Slot, t: Tile)
    requires st.Shaped() && |vs| == WARPS && PipeOk(st.k, Lanes(vs, KSlot)) && PipeOk(st.v, Lanes(vs, VSlot))
    requires w < WARPS && Sound(vs, w, Load(s, t)) && Ready(Load(s, t), w, st)
    ensures var st', vs' := Perform(Load(s, t), w, st), vs[w := Next(Load(s, t), vs[w])];
            PipeOk(st'.k, Lanes(vs', KSlot)) && PipeOk(st'.v, Lanes(vs', VSlot))
  {
    LanesFrame(vs, w, Next(Load(s, t), vs[w]), KSlot);
    LanesFrame(vs, w, Next(Load(s, t), vs[w]), VSlot);
    forall x | 0 <= x < WARPS ensures LaneOk(Lanes(vs, s)[x]) { assert LaneOk(vs[x].At(s)); }
    if w == 0 { LoadKeeps(st.At(s), Lanes(vs, s), s, t, Next(Load(s, t), vs[w]).At(s)); }
  }

  lemma WaitFits(st: State, vs: seq<View>, w: nat, s: Slot, t: Tile)
    requires Fits(st, vs) && w < WARPS && Sound(vs, w, Wait(s, t)) && Ready(Wait(s, t), w, st)
    ensures Fits(Perform(Wait(s, t), w, st), vs[w := Next(Wait(s, t), vs[w])])
  {
    WaitPipes(st, vs, w, s, t);
    CtaFrame(st.cta, vs, w, Next(Wait(s, t), vs[w]));
    MemFrame(st.mem, vs, w, Next(Wait(s, t), vs[w]));
  }

  lemma WaitPipes(st: State, vs: seq<View>, w: nat, s: Slot, t: Tile)
    requires st.Shaped() && |vs| == WARPS && PipeOk(st.k, Lanes(vs, KSlot)) && PipeOk(st.v, Lanes(vs, VSlot))
    requires w < WARPS && Sound(vs, w, Wait(s, t)) && Ready(Wait(s, t), w, st)
    ensures var st', vs' := Perform(Wait(s, t), w, st), vs[w := Next(Wait(s, t), vs[w])];
            PipeOk(st'.k, Lanes(vs', KSlot)) && PipeOk(st'.v, Lanes(vs', VSlot))
  {
    LanesFrame(vs, w, Next(Wait(s, t), vs[w]), KSlot);
    LanesFrame(vs, w, Next(Wait(s, t), vs[w]), VSlot);
    TakeSees(st.At(s), Lanes(vs, s), w, s, t, Next(Wait(s, t), vs[w]).At(s));
  }

  lemma ReleaseFits(st: State, vs: seq<View>, w: nat, s: Slot)
    requires Fits(st, vs) && w < WARPS && Sound(vs, w, Release(s)) && Ready(Release(s), w, st)
    ensures Fits(Perform(Release(s), w, st), vs[w := Next(Release(s), vs[w])])
  {
    ReleasePipes(st, vs, w, s);
    CtaFrame(st.cta, vs, w, Next(Release(s), vs[w]));
    MemFrame(st.mem, vs, w, Next(Release(s), vs[w]));
  }

  lemma ReleasePipes(st: State, vs: seq<View>, w: nat, s: Slot)
    requires st.Shaped() && |vs| == WARPS && PipeOk(st.k, Lanes(vs, KSlot)) && PipeOk(st.v, Lanes(vs, VSlot))
    requires w < WARPS && Can(Release(s), vs[w])
    ensures var st', vs' := Perform(Release(s), w, st), vs[w := Next(Release(s), vs[w])];
            PipeOk(st'.k, Lanes(vs', KSlot)) && PipeOk(st'.v, Lanes(vs', VSlot))
  {
    LanesFrame(vs, w, Next(Release(s), vs[w]), KSlot);
    LanesFrame(vs, w, Next(Release(s), vs[w]), VSlot);
    ReleaseKeeps(st.At(s), Lanes(vs, s), w, s, Next(Release(s), vs[w]).At(s));
  }

  lemma BarrierActFits(st: State, vs: seq<View>, w: nat, a: Act)
    requires Fits(st, vs) && w < WARPS && Sound(vs, w, a) && (a.Arrive? || a.Await?) && Ready(a, w, st)
    ensures Fits(Perform(a, w, st), vs[w := Next(a, vs[w])])
  {
    var v := Next(a, vs[w]);
    LanesFrame(vs, w, v, KSlot);
    LanesFrame(vs, w, v, VSlot);
    MemFrame(st.mem, vs, w, v);
    match a {
      case Arrive(Sync) => SyncArriveKeeps(st.cta, vs, w, v);
      case Arrive(Signal) => SignalArriveKeeps(st.cta, vs, w, v);
      case Await(Sync) => SyncAwaitKeeps(st.cta, vs, w, v);
      case Await(Signal) => SignalAwaitKeeps(st.cta, vs, w, v);
    }
  }

  lemma SyncArriveKeeps(b: Barriers, vs: seq<View>, w: nat, v: View)
    requires CtaOk(b, vs) && w < WARPS && CountsOk(vs[w]) && vs[w].arrives == vs[w].awaits && v == Next(Arrive(Sync), vs[w])
    ensures CtaOk(b.Joined(Sync), vs[w := v])
  {
    var n := Syncs(vs);
    JoinKeeps(b.sync, n, w);
    assert Syncs(vs[w := v]) == n[w := n[w] + 1] && Signals(vs[w := v]) == Signals(vs);
  }

  lemma SignalArriveKeeps(b: Barriers, vs: seq<View>, w: nat, v: View)
    requires CtaOk(b, vs) && w < WARPS && CountsOk(vs[w]) && Settled(vs[w]) && v == Next(Arrive(Signal), vs[w])
    ensures CtaOk(b.Joined(Signal), vs[w := v])
  {
    var n := Signals(vs);
    assert n[w] == b.signal.done;
    JoinKeeps(b.signal, n, w);
    assert Signals(vs[w := v]) == n[w := n[w] + 1] && Syncs(vs[w := v]) == Syncs(vs);
  }

  lemma SyncAwaitKeeps(b: Barriers, vs: seq<View>, w: nat, v: View)
    requires CtaOk(b, vs) && w < WARPS && CountsOk(vs[w]) && b.Opens(Sync, w) && v == Next(Await(Sync), vs[w])
    requires vs[w].arrives == vs[w].awaits + 1 && vs[w].last.Sync?
    requires vs[w].counts.syncs <= vs[0].counts.syncs ==> vs[w].counts.signals <= vs[0].counts.heard
    ensures CtaOk(b.Passing(Sync, w), vs[w := v])
  {
    assert Syncs(vs[w := v]) == Syncs(vs) && Signals(vs[w := v]) == Signals(vs);
    assert Syncs(vs)[0] == vs[0].counts.syncs >= b.sync.done;
  }

  lemma SignalAwaitKeeps(b: Barriers, vs: seq<View>, w: nat, v: View)
    requires CtaOk(b, vs) && w < WARPS && CountsOk(vs[w]) && b.Opens(Signal, w) && v == Next(Await(Signal), vs[w])
    requires vs[w].arrives == vs[w].awaits + 1 && vs[w].last.Signal? && vs[w].arrives % 2 == 1
    ensures CtaOk(b.Passing(Signal, w), vs[w := v])
  {
    assert Syncs(vs[w := v]) == Syncs(vs) && Signals(vs[w := v]) == Signals(vs);
  }

  lemma ScratchActFits(st: State, vs: seq<View>, w: nat, a: Act)
    requires Fits(st, vs) && w < WARPS && Sound(vs, w, a)
    requires a.PutSums? || a.GetSums? || a.Put? || a.Get? || a.LeadGet?
    ensures Fits(Perform(a, w, st), vs[w := Next(a, vs[w])])
  {
    var v := Next(a, vs[w]);
    LanesFrame(vs, w, v, KSlot);
    LanesFrame(vs, w, v, VSlot);
    CtaFrame(st.cta, vs, w, v);
    ScratchMem(st, vs, w, a);
  }

  lemma ScratchMem(st: State, vs: seq<View>, w: nat, a: Act)
    requires st.Shaped() && |vs| == WARPS && MemOk(st.mem, vs) && w < WARPS && Sound(vs, w, a)
    requires a.PutSums? || a.GetSums? || a.Put? || a.Get? || a.LeadGet?
    ensures var st' := Perform(a, w, st); MemOk(st'.mem, vs[w := Next(a, vs[w])]) && st' == st.(mem := st'.mem)
  {
    if a.PutSums? || a.Put? {
      WriteKeeps(st.mem, vs, w, a);
    } else {
      MemFrame(st.mem, vs, w, Next(a, vs[w]));
      if w == 0 || a.Get? { ReadsAreRight(st, vs, w, a); }
    }
  }

  lemma WriteKeeps(mem: map<Cell, nat>, vs: seq<View>, w: nat, a: Act)
    requires |vs| == WARPS && MemOk(mem, vs) && w < WARPS
    requires a.PutSums? || (a.Put? && !a.c.Sums?)
    ensures var mem' := if a.PutSums? then mem[Sums(w) := a.g] else if w == 0 then mem[a.c := a.g] else mem;
            MemOk(mem', vs[w := Next(a, vs[w])])
  {
  }

  lemma ReadsAreRight(st: State, vs: seq<View>, w: nat, a: Act)
    requires st.Shaped() && |vs| == WARPS && MemOk(st.mem, vs) && w < WARPS && Sound(vs, w, a)
    requires (a.GetSums? || a.Get? || a.LeadGet?) && Does(a, w)
    ensures forall c: Cell | Reads(a, c) && (c.Sums? ==> c.w < WARPS) :: st.Holds(c, a.g)
  {
    forall c: Cell | Reads(a, c) && (c.Sums? ==> c.w < WARPS) ensures st.Holds(c, a.g) {
      assert vs[w].Holds(c, a.g);
      assert vs[Owner(c)].Holds(c, a.g);
    }
  }

  lemma PerformFits(st: State, vs: seq<View>, w: nat, a: Act)
    requires Fits(st, vs) && w < WARPS && Sound(vs, w, a) && Ready(a, w, st)
    ensures Fits(Perform(a, w, st), vs[w := Next(a, vs[w])])
  {
    match a
    case Load(s, t) => LoadFits(st, vs, w, s, t);
    case Wait(s, t) => WaitFits(st, vs, w, s, t);
    case Release(s) => ReleaseFits(st, vs, w, s);
    case Arrive(_) => BarrierActFits(st, vs, w, a);
    case Await(_) => BarrierActFits(st, vs, w, a);
    case _ => ScratchActFits(st, vs, w, a);
  }

  lemma StepKeeps(p: seq<Act>, st: State, w: nat)
    requires Plays(p, INIT) && Inv(p, st) && Enabled(p, st, Step(w))
    ensures Inv(p, Apply(p, st, Step(w)))
  {
    var vs, a := Views(p, st.pc), p[st.pc[w]];
    NextIsSound(p, st, w);
    ViewStep(p, st.pc[w]);
    hide Plays, Fits, Sound, Next, Play, ViewAt;
    var pc := st.pc[w := st.pc[w] + 1];
    assert Views(p, pc) == vs[w := Next(a, vs[w])];
    PerformFits(st, vs, w, a);
    CountersApart(Perform(a, w, st), pc, Views(p, pc));
  }

  lemma CountersApart(st: State, pc: seq<nat>, vs: seq<View>)
    requires Fits(st, vs) && |pc| == WARPS
    ensures Fits(st.(pc := pc), vs)
  {
  }

  lemma LandingKeeps(p: seq<Act>, st: State, s: Slot)
    requires Inv(p, st) && Enabled(p, st, Land(s))
    ensures Inv(p, Apply(p, st, Land(s)))
  {
    LandKeeps(st.At(s), Lanes(Views(p, st.pc), s));
  }

  lemma {:induction false} RunKeeps(p: seq<Act>, ms: seq<Move>)
    requires Plays(p, INIT) && Run(p, ms).At?
    ensures Inv(p, Run(p, ms).st)
  {
    if ms != [] {
      RunUnrolls(p, ms);
      hide Inv, Enabled, Apply, Run, Plays;
      RunKeeps(p, ms[..|ms| - 1]);
      var st := Run(p, ms[..|ms| - 1]).st;
      match ms[|ms| - 1]
      case Step(w) => StepKeeps(p, st, w);
      case Land(s) => LandingKeeps(p, st, s);
    } else {
      StartIsSound(p);
    }
  }

  lemma RunUnrolls(p: seq<Act>, ms: seq<Move>)
    requires ms != [] && Run(p, ms).At?
    ensures var r := Run(p, ms[..|ms| - 1]);
            r.At? && Enabled(p, r.st, ms[|ms| - 1]) && Run(p, ms).st == Apply(p, r.st, ms[|ms| - 1])
  {
  }

  lemma StartIsSound(p: seq<Act>)
    ensures Run(p, []).At? && Inv(p, Run(p, []).st)
  {
    assert p[..0] == [];
  }

  // ----- safety -----

  /** Warp w has waited for the tile in stage s and not yet released it. */
  predicate Holding(p: seq<Act>, st: State, w: nat, s: Slot)
    requires Within(p, st.pc) && w < WARPS
  {
    ViewAt(p, st.pc[w]).At(s).Held()
  }

  /** No warp has read foreign routing data; each warp has taken from each stage
      exactly the tiles the stream prescribes up to its program counter; and a tile
      stays complete and in place for every warp between its wait and its release. */
  ghost predicate Safe(p: seq<Act>, st: State) {
    && st.Shaped() && Within(p, st.pc) && !st.stray
    && forall w: nat, s: Slot | w < WARPS ::
         && st.At(s).seen[w] == ViewAt(p, st.pc[w]).At(s).seen
         && (Holding(p, st, w, s) ==> st.At(s).cargo == Here(ViewAt(p, st.pc[w]).At(s).tile))
  }

  /** Every run is safe, whatever the interleaving. */
  lemma RunIsSafe(p: seq<Act>, ms: seq<Move>)
    requires Plays(p, INIT) && Run(p, ms).At?
    ensures Safe(p, Run(p, ms).st)
  {
    RunKeeps(p, ms);
    InvIsSafe(p, Run(p, ms).st);
  }

  lemma InvIsSafe(p: seq<Act>, st: State)
    requires Plays(p, INIT) && Inv(p, st)
    ensures Safe(p, st)
  {
    forall w: nat, s: Slot | w < WARPS
      ensures st.At(s).seen[w] == ViewAt(p, st.pc[w]).At(s).seen
      ensures Holding(p, st, w, s) ==> st.At(s).cargo == Here(ViewAt(p, st.pc[w]).At(s).tile)
    {
      SameTile(p, st, w, s);
      HeldIsIntact(st.At(s), Lanes(Views(p, st.pc), s), w);
    }
  }

  lemma HeldIsIntact(q: Pipe, ls: seq<Lane>, w: nat)
    requires PipeOk(q, ls) && w < WARPS && (ls[0].loads == ls[w].loads ==> ls[0].tile == ls[w].tile)
    ensures q.seen[w] == ls[w].seen && (ls[w].Held() ==> q.cargo == Here(ls[w].tile))
  {
    assert q.freed.done <= q.released[w] == ls[w].releases && |ls[w].seen| <= q.landed;
  }

  /** A TMA copy is only ever issued into a stage that no warp holds. */
  lemma LoadOverwritesNothing(p: seq<Act>, ms: seq<Move>, s: Slot, t: Tile)
    requires Plays(p, INIT) && Run(p, ms).At?
    requires var st := Run(p, ms).st;
             st.pc[0] < |p| && p[st.pc[0]] == Load(s, t) && Enabled(p, st, Step(0))
    ensures var st := Run(p, ms).st; Within(p, st.pc) && forall w: nat | w < WARPS :: !Holding(p, st, w, s)
  {
    RunKeeps(p, ms);
    var st := Run(p, ms).st;
    var ls := Lanes(Views(p, st.pc), s);
    ViewStep(p, st.pc[0]);
    forall w: nat | w < WARPS ensures LaneOk(ls[w]) { SameTile(p, st, w, s); }
    assert PipeOk(st.At(s), ls);
    LoadKeeps(st.At(s), ls, s, t, ls[0].(tile := t, loads := ls[0].loads + 1));
    forall w: nat | w < WARPS ensures !Holding(p, st, w, s) { assert ls[w] == ViewAt(p, st.pc[w]).At(s); }
  }

  /** What warp w would actually touch: a lead-only action touches nothing elsewhere. */
  predicate Touches(a: Act, w: nat, c: Cell) {
    Does(a, w) && (Reads(a, c) || Writes(a, c)) && (a.PutSums? ==> c == Sums(w))
  }

  /** No data race: when two warps are both about to touch a scratch cell, neither
      is about to write it. */
  lemma NoRace(p: seq<Act>, ms: seq<Move>, w: nat, x: nat, c: Cell)
    requires Plays(p, INIT) && Run(p, ms).At? && w < WARPS && x < WARPS && w != x
    requires var st := Run(p, ms).st;
             st.pc[w] < |p| && st.pc[x] < |p| && Touches(p[st.pc[w]], w, c) && Touches(p[st.pc[x]], x, c)
    ensures var st := Run(p, ms).st; !Writes(p[st.pc[w]], c) && !Writes(p[st.pc[x]], c)
  {
    RunKeeps(p, ms);
    var st := Run(p, ms).st;
    RaceFree(p, st, w, x, c);
    RaceFree(p, st, x, w, c);
  }

  lemma RaceFree(p: seq<Act>, st: State, w: nat, x: nat, c: Cell)
    requires Plays(p, INIT) && Inv(p, st) && w < WARPS && x < WARPS && w != x
    requires st.pc[w] < |p| && st.pc[x] < |p| && Touches(p[st.pc[w]], w, c) && Touches(p[st.pc[x]], x, c)
    ensures !Writes(p[st.pc[w]], c)
  {
    if Writes(p[st.pc[w]], c) {
      if Reads(p[st.pc[x]], c) {
        NoReadBeside(p, st, w, x, c);
      } else {
        ViewStep(p, st.pc[w]);
        ViewStep(p, st.pc[x]);
      }
    }
  }

  lemma NoReadBeside(p: seq<Act>, st: State, w: nat, x: nat, c: Cell)
    requires Plays(p, INIT) && Within(p, st.pc) && CtaOk(st.cta, Views(p, st.pc))
    requires w < WARPS && x < WARPS && st.pc[w] < |p| && st.pc[x] < |p|
    requires Touches(p[st.pc[w]], w, c) && Touches(p[st.pc[x]], x, c)
    ensures !(Writes(p[st.pc[w]], c) && Reads(p[st.pc[x]], c))
  {
    Epochs(st.cta, Views(p, st.pc), w, x);
    Epochs(st.cta, Views(p, st.pc), x, w);
    if Writes(p[st.pc[w]], c) && Reads(p[st.pc[x]], c) {
      ViewStep(p, st.pc[w]);
      Apart(p, st.pc[x], st.pc[w], c, x);
    }
  }

  // ----- progress -----

  /** The warp that is furthest behind is never the one that is blocked for good. */
  lemma LaggardMoves(p: seq<Act>, st: State, w: nat)
    requires Plays(p, INIT) && Inv(p, st) && w < WARPS && st.pc[w] < |p|
    requires forall x: nat | x < WARPS :: st.pc[w] <= st.pc[x]
    ensures exists m :: Enabled(p, st, m)
  {
    var vs, a := Views(p, st.pc), p[st.pc[w]];
    hide Plays, ViewAt, Fits, Views, Ready, Can, ViewOk, ViewLe;
    ViewStep(p, st.pc[w]);
    forall x: nat | x < WARPS ensures ViewLe(vs[w], vs[x]) && ViewOk(vs[x]) { Grows(p, st.pc[w], st.pc[x]); }
    LaggardReady(st, vs, w, a);
    if Ready(a, w, st) { assert Enabled(p, st, Step(w)); } else { assert Enabled(p, st, Land(a.s)); }
  }

  lemma LaggardReady(st: State, vs: seq<View>, w: nat, a: Act)
    requires Fits(st, vs) && w < WARPS && Can(a, vs[w])
    requires forall x: nat | x < WARPS :: ViewLe(vs[w], vs[x]) && ViewOk(vs[x])
    ensures Ready(a, w, st) || (a.Wait? && st.At(a.s).cargo.Flight?)
  {
    match a
    case Load(s, _) => if w == 0 { LaggardLoads(st.At(s), Lanes(vs, s)); }
    case Wait(s, t) => LaggardTakes(st.At(s), Lanes(vs, s), w, t);
    case Await(b) => LaggardPasses(st.cta, vs, w, b);
    case _ =>
  }

  /** Some party has not joined early, so a rally cannot run ahead of everybody. */
  lemma Slowest(r: Rally, n: seq<nat>, bound: nat)
    requires |n| == WARPS && RallyOk(r, n) && forall x: nat | x < WARPS :: bound <= n[x]
    ensures bound <= r.done
  {
  }

  lemma LaggardLoads(q: Pipe, ls: seq<Lane>)
    requires PipeOk(q, ls) && ls[0].Empty()
    requires forall x: nat | x < WARPS :: ls[0].releases <= ls[x].releases
    ensures q.MayLoad()
  {
    assert forall x: nat | x < WARPS :: q.released[x] == ls[x].releases;
    Slowest(q.freed, q.released, ls[0].releases);
  }

  lemma LaggardTakes(q: Pipe, ls: seq<Lane>, w: nat, t: Tile)
    requires PipeOk(q, ls) && w < WARPS && ls[w].Full(t) && ls[w].loads <= ls[0].loads
    ensures q.MayTake(w) || q.cargo.Flight?
  {
    assert q.freed.done <= q.released[w] == ls[w].releases;
  }

  lemma LaggardPasses(b: Barriers, vs: seq<View>, w: nat, kind: Barrier)
    requires CtaOk(b, vs) && w < WARPS && CountsOk(vs[w]) && vs[w].arrives == vs[w].awaits + 1 && vs[w].last == kind
    requires forall x: nat | x < WARPS :: CountsLe(vs[w].counts, vs[x].counts)
    ensures b.Opens(kind, w)
  {
    if kind.Sync? { Slowest(b.sync, Syncs(vs), vs[w].counts.syncs); } else { Slowest(b.signal, Signals(vs), vs[w].counts.signals); }
  }

  /** No deadlock: a run that has not taken every warp to the end can be continued. */
  lemma NeverStuck(p: seq<Act>, ms: seq<Move>)
    requires Plays(p, INIT) && Run(p, ms).At? && !Finished(p, Run(p, ms).st)
    ensures exists m :: Enabled(p, Run(p, ms).st, m)
  {
    RunKeeps(p, ms);
    var w := Laggard(Run(p, ms).st.pc);
    LaggardMoves(p, Run(p, ms).st, w);
  }

  lemma Laggard(pc: seq<nat>) returns (w: nat)
    requires |pc| == WARPS
    ensures w < WARPS && forall x: nat | x < WARPS :: pc[w] <= pc[x]
  {
    w := 0;
    for x := 1 to WARPS
      invariant w < WARPS && forall y: nat | y < x :: pc[w] <= pc[y]
    {
      if pc[x] < pc[w] { w := x; }
    }
  }

  function Sum(n: seq<nat>): nat
    requires |n| == WARPS
  {
    n[0] + n[1] + n[2] + n[3]
  }

  function Progress(st: State): nat
    requires st.Shaped()
  {
    Sum(st.pc) + st.k.landed + st.v.landed
  }

  lemma MoveCounts(p: seq<Act>, st: State, m: Move)
    requires st.Shaped() && Enabled(p, st, m)
    ensures Progress(Apply(p, st, m)) == Progress(st) + 1
  {
    if m.Step? { LandsNothing(p[st.pc[m.w]], m.w, st); }
  }

  lemma LandsNothing(a: Act, w: nat, st: State)
    requires st.Shaped() && w < WARPS
    ensures var st' := Perform(a, w, st); st'.k.landed == st.k.landed && st'.v.landed == st.v.landed
  {
  }

  lemma {:induction false} RunCounts(p: seq<Act>, ms: seq<Move>)
    requires Run(p, ms).At?
    ensures Progress(Run(p, ms).st) == |ms|
  {
    if ms != [] {
      RunCounts(p, ms[..|ms| - 1]);
      MoveCounts(p, Run(p, ms[..|ms| - 1]).st, ms[|ms| - 1]);
    }
  }

  /** Every move is one action of one warp or one landing, so runs are bounded and
      no scheduling assumption is needed for the kernel to end. */
  lemma RunsAreBounded(p: seq<Act>, ms: seq<Move>)
    requires Plays(p, INIT) && Run(p, ms).At?
    ensures |ms| <= 6 * |p|
  {
    RunKeeps(p, ms);
    var st := Run(p, ms).st;
    RunCounts(p, ms);
    LoadsBounded(p, st.pc[0]);
  }

  lemma {:induction false} LoadsBounded(p: seq<Act>, i: nat)
    requires i <= |p| && Plays(p, INIT)
    ensures ViewAt(p, i).k.loads <= i && ViewAt(p, i).v.loads <= i
  {
    if i > 0 {
      ViewStep(p, i - 1);
      LoadsBounded(p, i - 1);
    }
  }

  // ----- finished runs -----

  /** A run that cannot be continued. */
  ghost predicate Final(p: seq<Act>, ms: seq<Move>) {
    Run(p, ms).At? && !exists m :: Enabled(p, Run(p, ms).st, m)
  }

  /** Every warp is at the end; it consumed `tiles` from the K stage and from the V stage,
      in order; and every copy that was issued has landed and has been released by all
      four warps. */
  predicate Fed(p: seq<Act>, tiles: seq<Cargo>, st: State)
    requires st.Shaped()
  {
    && Finished(p, st) && !st.stray
    && forall w: nat, s: Slot | w < WARPS ::
         && st.At(s).seen[w] == tiles
         && st.At(s).issued == st.At(s).landed == st.At(s).freed.done == st.At(s).released[w] == |tiles|
  }

  /** Every run can be continued to one that cannot be continued any further; in particular
      there are such runs. */
  lemma {:induction false} EveryRunEnds(p: seq<Act>, ms: seq<Move>) returns (more: seq<Move>)
    requires Plays(p, INIT) && Run(p, ms).At?
    ensures Final(p, ms + more)
    decreases 6 * |p| - |ms|
  {
    RunsAreBounded(p, ms);
    if Final(p, ms) {
      assert ms + [] == ms;
      more := [];
    } else {
      var m :| Enabled(p, Run(p, ms).st, m);
      assert (ms + [m])[..|ms|] == ms;
      RunsAreBounded(p, ms + [m]);
      var rest := EveryRunEnds(p, ms + [m]);
      assert ms + [m] + rest == ms + ([m] + rest);
      more := [m] + rest;
    }
  }

  /** What one thread accepts, four warps carry out: a stream whose one-thread reading
      consumes `tiles` ends, in every interleaving, with every warp fed with them. */
  lemma EveryWarpIsFed(p: seq<Act>, tiles: seq<Cargo>, ms: seq<Move>)
    requires Accepted(p, tiles) && Final(p, ms)
    ensures Fed(p, tiles, Run(p, ms).st)
    ensures var st := Run(p, ms).st;
            !st.stray && forall w: nat, s: Slot | w < WARPS ::
              && st.pc[w] == |p| && st.At(s).seen[w] == tiles
              && st.At(s).issued == st.At(s).landed == st.At(s).freed.done == st.At(s).released[w] == |tiles|
  {
    var st := Run(p, ms).st;
    if !Finished(p, st) { NeverStuck(p, ms); }
    RunKeeps(p, ms);
    assert p[..|p|] == p;
    var vs := Views(p, st.pc);
    assert forall w: nat | w < WARPS :: vs[w] == Play(p, INIT);
    forall w: nat, s: Slot | w < WARPS
      ensures st.At(s).seen[w] == tiles
      ensures st.At(s).issued == st.At(s).landed == st.At(s).freed.done == st.At(s).released[w] == |tiles|
    {
      var q, ls := st.At(s), Lanes(vs, s);
      assert PipeOk(q, ls) && ls[w].Empty();
      assert forall x: nat | x < WARPS :: q.released[x] == |tiles|;
      Slowest(q.freed, q.released, |tiles|);
    }
  }

  /** For every route and all four settings of the prefetch flags, every run of the SM120
      kernel that cannot be continued has fed each warp the summary tile of every group
      followed by the rows of its exact blocks. */
  lemma KernelFeedsEveryWarp(f: Flags, r: seq<Group>, ms: seq<Move>)
    requires Final(Kernel(f, r), ms)
    ensures Fed(Kernel(f, r), Stream(r), Run(Kernel(f, r), ms).st)
  {
    KernelAccepted(f, r);
    EveryWarpIsFed(Kernel(f, r), Stream(r), ms);
  }
}
