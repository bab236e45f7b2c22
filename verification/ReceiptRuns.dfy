/**
 Receipts over whole runs: sampling requests, diffusion forwards and blocks come and go,
 attention calls publish, and at any moment a history may ask whether a receipt is
 acceptable.
*/
module ReceiptRuns {
  import opened Basics
  import opened Receipts

  /** One sampling request.  `stamp` is the evaluation its record belongs to, `owned` the
      record: block and fields of every receipt published in that evaluation. */
  datatype Request = Request(evaluations: nat, stamp: Option<nat>, owned: set<(int, Fields)>)

  /** An active diffusion forward: its request, the evaluation number it was given, whether a
      block has begun in it, and the event with which it was entered. */
  datatype Forward = Forward(request: nat, evaluation: nat, begun: bool, entered: nat)

  /** A publication: the forward it was made in, and the call. */
  datatype Issue = Issue(request: nat, evaluation: nat, forward: nat, call: Call)
  {
    function Item(): Item { call.Published() }
    function Entry(): (int, Fields) { (call.block, call.Completion()) }
  }

  /** Requests by number; the active ones and the active forwards, innermost last; and for
      the statements below the publications so far, in order, and the number of events. */
  datatype World = World(requests: seq<Request>, sampling: seq<nat>, active: seq<Forward>, history: seq<Issue>, time: nat)
  {
    predicate InRequest() { sampling != [] && Last(sampling) < |requests| }
    predicate InForward() { active != [] }

    /** _record_completion insists on it, and so does the acceptance of a receipt. */
    predicate Owner() { InRequest() && InForward() && Last(active).request == Last(sampling) }
  }

  const START := World([], [], [], [], 0)

  datatype Event = BeginSample | EndSample | Enter | Leave | Block | Attend(c: Call)

  /** _record_completion: a new evaluation starts a new record. */
  function Record(r: Request, evaluation: nat, entry: (int, Fields)): Request {
    r.(stamp := Some(evaluation), owned := (if r.stamp == Some(evaluation) then r.owned else {}) + {entry})
  }

  /** What an event does.  Calls that raise leave the world as it was. */
  function Effect(w: World, e: Event): World {
    match e
    case BeginSample => w.(requests := w.requests + [Request(0, None, {})], sampling := w.sampling + [|w.requests|])
    case EndSample => if w.sampling == [] then w else w.(sampling := Init(w.sampling))
    case Enter =>
      if !w.InRequest() then w
      else w.(active := w.active + [Forward(Last(w.sampling), w.requests[Last(w.sampling)].evaluations, false, w.time)])
    case Leave => if !w.InForward() then w else w.(active := Init(w.active))
    case Block =>
      if !w.InForward() || Last(w.active).request >= |w.requests| || Last(w.active).begun then w
      else
        var f := Last(w.active);
        var r := w.requests[f.request];
        w.(requests := w.requests[f.request := r.(evaluations := r.evaluations + 1)], active := Init(w.active) + [f.(begun := true)])
    case Attend(c) =>
      if !c.mapping.Ok() || !c.Succeeds() || !w.Owner() then w
      else
        var f := Last(w.active);
        var i := Issue(f.request, f.evaluation, f.entered, c);
        w.(requests := w.requests[f.request := Record(w.requests[f.request], f.evaluation, i.Entry())], history := w.history + [i])
  }

  function Step(w: World, e: Event): World { Effect(w, e).(time := w.time + 1) }

  function Run(es: seq<Event>): World {
    if es == [] then START else Step(Run(Init(es)), Last(es))
  }

  /** _accept_partitioned_receipt. */
  predicate Accepts(w: World, item: Item) {
    && WellFormed(item) && w.Owner()
    && var r := w.requests[Last(w.sampling)];
    && r.stamp == Some(Last(w.active).evaluation)
    && (item.block, item.fields) in r.owned
  }

  predicate Partitioned(item: Item) {
    !item.Other? && (item.route == DENSE_ROUTE || item.route == SOL_ROUTE || item.route == MAPPED_ROUTE)
  }

  function Ordinary(items: seq<Item>): seq<Item> {
    if items == [] then []
    else if Partitioned(Last(items)) then Ordinary(Init(items))
    else Ordinary(Init(items)) + [Last(items)]
  }

  /** When a history is accepted: it is not empty, every partitioned receipt is acceptable, and
      all others together are by the released rule. */
  predicate AcceptsAll(w: World, items: seq<Item>, released: seq<Item> -> bool) {
    && items != [] && (forall i | 0 <= i < |items| && Partitioned(items[i]) :: Accepts(w, items[i]))
    && (Ordinary(items) != [] ==> released(Ordinary(items)))
  }

  /** partitioned_accept: one pass that tells partitioned receipts from all others. */
  method AcceptReceipts(w: World, items: seq<Item>, released: seq<Item> -> bool) returns (ok: bool)
    ensures ok <==> AcceptsAll(w, items, released)
  {
    hide Accepts;
    if items == [] { return false; }
    var ordinary, saw := [], false;
    for n := 0 to |items|
      invariant ordinary == Ordinary(items[..n])
      invariant forall i | 0 <= i < n && Partitioned(items[i]) :: Accepts(w, items[i])
      invariant n > 0 ==> saw || ordinary != []
    {
      assert Init(items[..n + 1]) == items[..n];
      if Partitioned(items[n]) {
        saw := true;
        if !Accepts(w, items[n]) { return false; }
      } else {
        ordinary := ordinary + [items[n]];
      }
    }
    assert items[..|items|] == items;
    if ordinary != [] && !released(ordinary) { return false; }
    ok := saw || ordinary != [];
  }

  /** The released rule is asked about exactly the items without one of the three routes, ... */
  lemma {:induction false} ReleasedItems(items: seq<Item>, x: Item)
    ensures multiset(Ordinary(items))[x] ==
      if !x.Other? && (x.route == "partitioned_dense" || x.route == "partitioned_sol" || x.route == "partitioned_sol_mapped") then 0
      else multiset(items)[x]
    decreases |items|
  {
    if items != [] {
      ReleasedItems(Init(items), x);
      assert items == Init(items) + [Last(items)];
    }
  }

  /** ... so a history of acceptable receipts with these routes is accepted whatever it says. */
  lemma PartitionedNeedNoRelease(w: World, items: seq<Item>, released: seq<Item> -> bool)
    requires items != []
    requires forall i | 0 <= i < |items| ::
               && Accepts(w, items[i]) && !items[i].Other?
               && (items[i].route == "partitioned_dense" || items[i].route == "partitioned_sol" || items[i].route == "partitioned_sol_mapped")
    ensures AcceptsAll(w, items, released)
  {
    hide Accepts;
    NoneOrdinary(items);
  }

  lemma {:induction false} NoneOrdinary(items: seq<Item>)
    requires forall i | 0 <= i < |items| :: Partitioned(items[i])
    ensures Ordinary(items) == []
    decreases |items|
  {
    if items != [] { NoneOrdinary(Init(items)); }
  }

  // ----- the record and the publications -----

  /** Publication k was made in request q under number n, and so was everything published in
      that request since. */
  predicate Standing(h: seq<Issue>, k: nat, q: nat, n: nat) {
    k < |h| && h[k].request == q && h[k].evaluation == n && forall j | k < j < |h| && h[j].request == q :: h[j].evaluation == n
  }

  /** The record of request q that a list of publications leaves. */
  function RecordOf(h: seq<Issue>, q: nat): Request {
    if h == [] then Request(0, None, {})
    else if Last(h).request != q then RecordOf(Init(h), q)
    else Record(RecordOf(Init(h), q), Last(h).evaluation, Last(h).Entry())
  }

  lemma {:induction false} RecordIsStanding(h: seq<Issue>, q: nat, n: nat, entry: (int, Fields))
    ensures RecordOf(h, q).stamp == Some(n) && entry in RecordOf(h, q).owned <==> exists k: nat :: Standing(h, k, q, n) && h[k].Entry() == entry
    decreases |h|
  {
    hide Issue.Entry;
    if h != [] {
      var last := |h| - 1;
      RecordIsStanding(Init(h), q, n, entry);
      forall k: nat
        ensures Standing(h, k, q, n) <==>
                  (h[last].request == q ==> h[last].evaluation == n)
                  && ((k == last && h[last].request == q) || Standing(Init(h), k, q, n))
      {
        StandingSnoc(h, k, q, n);
      }
    }
  }

  lemma StandingSnoc(h: seq<Issue>, k: nat, q: nat, n: nat)
    requires h != []
    ensures var last := |h| - 1;
            Standing(h, k, q, n) <==> (h[last].request == q ==> h[last].evaluation == n)
                                      && ((k == last && h[last].request == q) || Standing(Init(h), k, q, n))
  {
    var init := Init(h);
    assert forall j | 0 <= j < |init| :: init[j] == h[j];
  }

  /** Every request's record is the one its publications leave, and only successful calls
      are published. */
  ghost predicate Recorded(w: World) {
    && (forall q: nat | q < |w.requests| :: w.requests[q].stamp == RecordOf(w.history, q).stamp && w.requests[q].owned == RecordOf(w.history, q).owned)
    && (forall q: nat | |w.requests| <= q :: RecordOf(w.history, q) == Request(0, None, {}))
    && (forall i | i in w.history :: i.call.mapping.Ok() && i.call.Succeeds())
  }

  lemma StepRecords(w: World, e: Event)
    requires Recorded(w)
    ensures Recorded(Step(w, e))
  {
    hide Call.Succeeds, Call.Completion, Call.Published;
    var w' := Step(w, e);
    if e.Attend? && e.c.mapping.Ok() && e.c.Succeeds() && w.Owner() {
      var f := Last(w.active);
      var i := Issue(f.request, f.evaluation, f.entered, e.c);
      assert Init(w'.history) == w.history && Last(w'.history) == i;
      forall q: nat
        ensures RecordOf(w'.history, q) == if q == f.request then Record(RecordOf(w.history, q), f.evaluation, i.Entry()) else RecordOf(w.history, q)
      {
      }
    }
  }

  lemma {:induction false} RunRecords(es: seq<Event>)
    ensures Recorded(Run(es))
    decreases |es|
  {
    if es != [] {
      RunRecords(Init(es));
      StepRecords(Run(Init(es)), Last(es));
    }
  }

  /** In every run, nested or not, what is acceptable is what stands. */
  lemma AcceptedIsStanding(es: seq<Event>, item: Item)
    requires Run(es).Owner()
    ensures var w := Run(es);
            Accepts(w, item) <==>
              exists k: nat :: Standing(w.history, k, Last(w.sampling), Last(w.active).evaluation) && w.history[k].Item() == item
  {
    hide WellFormed, Run, Call.Succeeds, Call.Completion, Standing;
    var w := Run(es);
    var q, n := Last(w.sampling), Last(w.active).evaluation;
    RunRecords(es);
    NotAReceipt(item);
    if WellFormed(item) {
      RecordIsStanding(w.history, q, n, (item.block, item.fields));
    }
    forall k: nat | Standing(w.history, k, q, n)
      ensures k < |w.history| && WellFormed(w.history[k].Item())
      ensures WellFormed(item) ==> (w.history[k].Entry() == (item.block, item.fields) <==> w.history[k].Item() == item)
    {
      StandingIsListed(w.history, k, q, n);
      PublishedIsWellFormed(w.history[k].call);
      if WellFormed(item) && w.history[k].Entry() == (item.block, item.fields) { RouteIsDetermined(w.history[k].Item(), item); }
    }
  }

  /** A receipt is acceptable exactly if it was published in the current request under the active
      evaluation number and nothing has been published in that request under another number
      since; without an active forward of the current request, none is. */
  lemma AcceptedExactly(es: seq<Event>, item: Item)
    ensures var w := Run(es);
            Accepts(w, item) <==>
              && w.sampling != [] && w.active != [] && Last(w.sampling) < |w.requests| && Last(w.active).request == Last(w.sampling)
              && exists k: nat :: k < |w.history| && w.history[k].Item() == item
                                  && w.history[k].request == Last(w.sampling) && w.history[k].evaluation == Last(w.active).evaluation
                                  && forall j | k < j < |w.history| && w.history[j].request == Last(w.sampling) ::
                                       w.history[j].evaluation == Last(w.active).evaluation
  {
    hide Run, WellFormed;
    if Run(es).Owner() { AcceptedIsStanding(es, item); }
  }

  /** In an accepted history every item with one of the three routes is such a receipt. */
  lemma AcceptedHistory(es: seq<Event>, items: seq<Item>, released: seq<Item> -> bool, i: nat)
    requires AcceptsAll(Run(es), items, released) && i < |items| && !items[i].Other?
    requires items[i].route == "partitioned_dense" || items[i].route == "partitioned_sol" || items[i].route == "partitioned_sol_mapped"
    ensures var w := Run(es);
            && w.sampling != [] && w.active != []
            && exists k: nat :: k < |w.history| && w.history[k].Item() == items[i]
                                && w.history[k].request == Last(w.sampling) && w.history[k].evaluation == Last(w.active).evaluation
  {
    hide Run, Accepts, Ordinary;
    AcceptedExactly(es, items[i]);
  }

  lemma StandingIsListed(h: seq<Issue>, k: nat, q: nat, n: nat)
    requires Standing(h, k, q, n)
    ensures k < |h| && h[k] in h
  {
  }

  lemma NotAReceipt(item: Item)
    ensures WellFormed(item) ==> item.Receipt?
  {
  }

  // ----- what events change -----

  /** Only the first block of a forward counts an evaluation of its request; a forward is given its
      request's count when it is entered; and only a successful call in a forward of the current
      request publishes, under that forward's number. */
  lemma EventEffects(w: World, e: Event, q: nat)
    requires q < |w.requests|
    ensures q < |Step(w, e).requests|
    ensures Step(w, e).requests[q].evaluations == w.requests[q].evaluations +
              if e.Block? && w.active != [] && !w.active[|w.active| - 1].begun && w.active[|w.active| - 1].request == q then 1 else 0
    ensures e.Enter? && w.sampling != [] && w.sampling[|w.sampling| - 1] == q ==>
              Step(w, e).active == w.active + [Forward(q, w.requests[q].evaluations, false, w.time)]
    ensures Step(w, e).history == w.history +
              if e.Attend? && e.c.mapping.Ok() && e.c.Succeeds() && w.sampling != [] && w.active != []
                 && w.sampling[|w.sampling| - 1] < |w.requests| && w.active[|w.active| - 1].request == w.sampling[|w.sampling| - 1]
              then [Issue(w.active[|w.active| - 1].request, w.active[|w.active| - 1].evaluation, w.active[|w.active| - 1].entered, e.c)] else []
  {
    hide Call.Succeeds, Call.Completion;
  }

  // ----- evaluation numbers and blocks -----

  /** Event b begins the first block of a forward of request q. */
  predicate Begins(es: seq<Event>, b: nat, q: nat) {
    b < |es| && es[b].Block?
    && var w := Run(es[..b]);
    w.InForward() && !Last(w.active).begun && Last(w.active).request == q && q < |w.requests|
  }

  /** The evaluations counted in request q by the first i events. */
  function Count(es: seq<Event>, i: nat, q: nat): nat
    requires i <= |es|
  {
    var w := Run(es[..i]);
    if q < |w.requests| then w.requests[q].evaluations else 0
  }

  lemma RunStep(es: seq<Event>, i: nat)
    requires i < |es|
    ensures Run(es[..i + 1]) == Step(Run(es[..i]), es[i])
  {
    assert Init(es[..i + 1]) == es[..i];
  }

  lemma CountStep(es: seq<Event>, i: nat, q: nat)
    requires i < |es|
    ensures Count(es, i + 1, q) == Count(es, i, q) + if Begins(es, i, q) then 1 else 0
  {
    hide Run, Call.Completion, Call.Succeeds;
    RunStep(es, i);
  }

  lemma {:induction false} CountBetween(es: seq<Event>, i: nat, j: nat, q: nat)
    requires i <= j <= |es|
    ensures Count(es, i, q) <= Count(es, j, q)
    ensures Count(es, i, q) == Count(es, j, q) <==> forall b: nat | i <= b < j :: !Begins(es, b, q)
    decreases j
  {
    hide Begins, Count;
    if i < j {
      CountBetween(es, i, j - 1, q);
      CountStep(es, j - 1, q);
    }
  }

  /** A forward entered with event `entered` belongs to the request current then and has as
      number that request's count. */
  predicate EntryOk(es: seq<Event>, entered: nat, q: nat, n: nat) {
    && entered < |es| && es[entered].Enter? && n == Count(es, entered, q)
    && Run(es[..entered]).InRequest() && Last(Run(es[..entered]).sampling) == q
  }

  ghost predicate Numbered(es: seq<Event>, w: World) {
    && (forall f | f in w.active :: EntryOk(es, f.entered, f.request, f.evaluation))
    && (forall i | i in w.history :: EntryOk(es, i.forward, i.request, i.evaluation))
  }

  lemma StepNumbers(es: seq<Event>, i: nat)
    requires i < |es| && Numbered(es, Run(es[..i])) && Run(es[..i]).time == i
    ensures Numbered(es, Run(es[..i + 1]))
  {
    hide Call.Completion, Call.Succeeds;
    RunStep(es, i);
    var w := Run(es[..i]);
    var w' := Step(w, es[i]);
    assert w.InForward() ==> Last(w.active) in w.active;
    forall f | f in w'.active ensures EntryOk(es, f.entered, f.request, f.evaluation) {
      if f !in w.active { NewForward(w, es[i], f); }
    }
  }

  lemma NewForward(w: World, e: Event, f: Forward)
    requires f in Step(w, e).active && f !in w.active
    ensures e.Enter? || e.Block?
    ensures e.Enter? ==> w.InRequest() && f == Forward(Last(w.sampling), w.requests[Last(w.sampling)].evaluations, false, w.time)
    ensures e.Block? ==> w.InForward() && f == Last(w.active).(begun := true)
  {
  }

  lemma {:induction false} RunNumbers(es: seq<Event>, i: nat)
    requires i <= |es|
    ensures Run(es[..i]).time == i && Numbered(es, Run(es[..i]))
  {
    if i > 0 {
      RunNumbers(es, i - 1);
      StepNumbers(es, i - 1);
      RunStep(es, i - 1);
    }
  }

  /** A block of request q begins between the entries of two forwards. */
  ghost predicate Separated(es: seq<Event>, i: nat, j: nat, q: nat) {
    exists b: nat :: (i < b < j || j < b < i) && Begins(es, b, q)
  }

  /** Two forwards of a request share a number exactly if no block begins between their
      entries. */
  lemma SharedNumber(es: seq<Event>, i: nat, m: nat, j: nat, n: nat, q: nat)
    requires EntryOk(es, i, q, m) && EntryOk(es, j, q, n)
    ensures m == n <==> !Separated(es, i, j, q)
  {
    assert !Begins(es, i, q) && !Begins(es, j, q);
    hide Begins, Count;
    if i <= j { CountBetween(es, i, j, q); } else { CountBetween(es, j, i, q); }
  }

  // ----- the exact conditions -----

  /** Publication k was made in the current request by a forward that no block separates from
      the active one, and so was everything published in that request since. */
  ghost predicate Current(es: seq<Event>, k: nat)
    requires Run(es).Owner()
  {
    var w := Run(es);
    var q, a := Last(w.sampling), Last(w.active).entered;
    && k < |w.history| && w.history[k].request == q && !Separated(es, w.history[k].forward, a, q)
    && forall j: nat | k < j < |w.history| && w.history[j].request == q :: !Separated(es, w.history[j].forward, a, q)
  }

  lemma CurrentIsStanding(es: seq<Event>, k: nat)
    requires Run(es).Owner()
    ensures var w := Run(es); Current(es, k) <==> Standing(w.history, k, Last(w.sampling), Last(w.active).evaluation)
  {
    var w := Run(es);
    var q, f := Last(w.sampling), Last(w.active);
    RunNumbers(es, |es|);
    assert es[..|es|] == es;
    hide Run, Separated, EntryOk;
    forall j: nat | j < |w.history| && w.history[j].request == q
      ensures w.history[j].evaluation == f.evaluation <==> !Separated(es, w.history[j].forward, f.entered, q)
    {
      assert w.history[j] in w.history && f in w.active;
      SharedNumber(es, w.history[j].forward, w.history[j].evaluation, f.entered, f.evaluation, q);
    }
  }

  /** The same without numbers: a receipt is acceptable exactly if it was published in the
      current request by a forward that no beginning block separates from the active one,
      and since then only such forwards have published in that request. */
  lemma AcceptedByBlocks(es: seq<Event>, item: Item)
    requires Run(es).Owner()
    ensures Accepts(Run(es), item) <==> exists k: nat :: Current(es, k) && Run(es).history[k].Item() == item
  {
    hide Run, Standing, Current, Accepts;
    var w := Run(es);
    AcceptedIsStanding(es, item);
    forall k: nat ensures Current(es, k) <==> Standing(w.history, k, Last(w.sampling), Last(w.active).evaluation) { CurrentIsStanding(es, k); }
    forall k: nat | Current(es, k) ensures k < |w.history| { CurrentIsListed(es, k); }
  }

  lemma CurrentIsListed(es: seq<Event>, k: nat)
    requires Run(es).Owner() && Current(es, k)
    ensures k < |Run(es).history|
  {
  }

  /** What is accepted was published, route and all, in the same request under the same
      evaluation number. */
  lemma AcceptedWasPublished(es: seq<Event>, item: Item)
    requires Accepts(Run(es), item)
    ensures var w := Run(es);
            exists i :: i in w.history && i.Item() == item && i.request == Last(w.sampling) && i.evaluation == Last(w.active).evaluation
  {
    hide Run;
    AcceptedIsStanding(es, item);
    var w := Run(es);
    var k: nat :| Standing(w.history, k, Last(w.sampling), Last(w.active).evaluation) && w.history[k].Item() == item;
    StandingIsListed(w.history, k, Last(w.sampling), Last(w.active).evaluation);
  }

  /** The active forward's own publications are of its request, and nothing separates it
      from itself. */
  lemma OwnIsUnseparated(es: seq<Event>, k: nat)
    requires Run(es).Owner() && k < |Run(es).history| && Run(es).history[k].forward == Last(Run(es).active).entered
    ensures var w := Run(es);
            w.history[k].request == Last(w.sampling) && !Separated(es, w.history[k].forward, Last(w.active).entered, Last(w.sampling))
  {
    RunNumbers(es, |es|);
    assert es[..|es|] == es;
    var w := Run(es);
    assert w.history[k] in w.history && Last(w.active) in w.active;
  }

  /** Publication j is of the active forward's own, and current. */
  ghost predicate Own(es: seq<Event>, j: nat)
    requires Run(es).Owner()
  {
    Current(es, j) && Run(es).history[j].forward == Last(Run(es).active).entered
  }

  /** Completeness, exactly: a receipt of the active forward is acceptable if and only if, from
      it or from a later publication of the same receipt on, no forward that a block separates
      from the active one has published in the request. */
  lemma PublishedIsAccepted(es: seq<Event>, k: nat)
    requires Run(es).Owner() && k < |Run(es).history| && Run(es).history[k].forward == Last(Run(es).active).entered
    ensures var w := Run(es);
            Accepts(w, w.history[k].Item()) <==> exists j: nat :: k <= j && Current(es, j) && w.history[j].Item() == w.history[k].Item()
  {
    var w := Run(es);
    OwnIsUnseparated(es, k);
    hide Run, Accepts, Separated;
    AcceptedByBlocks(es, w.history[k].Item());
    if j: nat :| Current(es, j) && w.history[j].Item() == w.history[k].Item() && j < k { assert Current(es, k); }
  }

  /** Freshness, exactly: every acceptable receipt is the active forward's own if and only if
      each one that another, unseparated forward has current has also been published by the
      active forward and is current. */
  lemma AcceptedIsFresh(es: seq<Event>)
    requires Run(es).Owner()
    ensures var w := Run(es);
            (forall item | Accepts(w, item) :: exists j: nat :: Own(es, j) && w.history[j].Item() == item) <==>
            (forall k: nat | Current(es, k) && w.history[k].forward != Last(w.active).entered ::
               exists j: nat :: Own(es, j) && w.history[j].Item() == w.history[k].Item())
  {
    hide Run, Accepts, Current;
    var w := Run(es);
    forall k: nat | Current(es, k) ensures k < |w.history| { CurrentIsListed(es, k); }
    forall item ensures Accepts(w, item) <==> exists k: nat :: Current(es, k) && w.history[k].Item() == item { AcceptedByBlocks(es, item); }
    forall k: nat | Current(es, k) ensures Accepts(w, w.history[k].Item()) {}
  }

  /** So if a block separates the active forward from every other forward that has published
      in its request, all that is acceptable is its own. */
  lemma SeparatedForwardsAreFresh(es: seq<Event>, item: Item)
    requires Accepts(Run(es), item)
    requires var w := Run(es);
             forall i | i in w.history && i.request == Last(w.sampling) && i.forward != Last(w.active).entered ::
               Separated(es, i.forward, Last(w.active).entered, Last(w.sampling))
    ensures exists j: nat :: Own(es, j) && Run(es).history[j].Item() == item
  {
    hide Run, Separated;
    AcceptedByBlocks(es, item);
    var w := Run(es);
    var k: nat :| Current(es, k) && w.history[k].Item() == item;
    assert w.history[k] in w.history;
    assert Own(es, k);
  }

  // ----- runs in which the conditions fail -----

  lemma RunSnoc(es: seq<Event>, e: Event, w: World)
    requires Run(es) == w
    ensures Run(es + [e]) == Step(w, e)
  {
    assert Init(es + [e]) == es;
  }

  /** A request with a first forward, entered but without a block. */
  const ENTERED := World([Request(0, None, {})], [0], [Forward(0, 0, false, 1)], [], 2)

  lemma RunToEntered()
    ensures Run([BeginSample, Enter]) == ENTERED
  {
    NoEvents();
    hide Run;
    var begun := World([Request(0, None, {})], [0], [], [], 1);
    assert Step(START, BeginSample) == begun;
    assert Step(begun, Enter) == ENTERED;
    RunSnoc([], BeginSample, START);
    assert [] + [BeginSample] == [BeginSample];
    RunSnoc([BeginSample], Enter, begun);
    assert [BeginSample] + [Enter] == [BeginSample, Enter];
  }

  lemma NoEvents()
    ensures Run([]) == START
  {
  }

  /** A forward that ends without a block leaves its number to the next one, which then
      accepts receipts it has not published. */
  lemma BlocklessForwardsShareReceipts(c: Call)
    requires c.mapping.Ok() && c.Succeeds()
    ensures var w := Run([BeginSample, Enter, Attend(c), Leave, Enter]);
            && Accepts(w, c.Published())
            && forall i | i in w.history :: i.forward != Last(w.active).entered
  {
    hide WellFormed, Call.Completion, Call.Valid, Call.Gated, Call.Route, Run;
    PublishedIsWellFormed(c);
    RunToEntered();
    var attended := Step(ENTERED, Attend(c));
    var left := Step(attended, Leave);
    RunSnoc([BeginSample, Enter], Attend(c), ENTERED);
    RunSnoc([BeginSample, Enter] + [Attend(c)], Leave, attended);
    RunSnoc([BeginSample, Enter] + [Attend(c)] + [Leave], Enter, left);
    assert [BeginSample, Enter] + [Attend(c)] + [Leave] + [Enter] == [BeginSample, Enter, Attend(c), Leave, Enter];
    assert {} + {(c.block, c.Completion())} == {(c.block, c.Completion())};
    assert attended.requests[0] == Request(0, Some(0), {(c.block, c.Completion())});
    assert attended.history == [Issue(0, 0, 1, c)];
    assert left.active == [];
  }

  /** The worlds of an outer forward that attends, and of one inside it that attends too. */
  function Outer(c: Call): World { Step(Step(ENTERED, Block), Attend(c)) }
  function Nested(c: Call): World { Step(Step(Step(Outer(c), Enter), Attend(c)), Leave) }

  lemma RunToNested(c: Call)
    ensures Run([BeginSample, Enter, Block, Attend(c), Enter, Attend(c), Leave]) == Nested(c)
  {
    hide Step, Run;
    RunToEntered();
    RunSnoc([BeginSample, Enter], Block, ENTERED);
    RunSnoc([BeginSample, Enter] + [Block], Attend(c), Step(ENTERED, Block));
    RunSnoc([BeginSample, Enter] + [Block] + [Attend(c)], Enter, Outer(c));
    RunSnoc([BeginSample, Enter] + [Block] + [Attend(c)] + [Enter], Attend(c), Step(Outer(c), Enter));
    RunSnoc([BeginSample, Enter] + [Block] + [Attend(c)] + [Enter] + [Attend(c)], Leave, Step(Step(Outer(c), Enter), Attend(c)));
    assert [BeginSample, Enter] + [Block] + [Attend(c)] + [Enter] + [Attend(c)] + [Leave]
        == [BeginSample, Enter, Block, Attend(c), Enter, Attend(c), Leave];
  }

  lemma NestedWorld(c: Call)
    requires c.mapping.Ok() && c.Succeeds()
    ensures var w := Nested(c);
            && w.Owner() && !Accepts(w, c.Published()) && Issue(0, 0, Last(w.active).entered, c) in w.history
  {
    hide WellFormed, Call.Completion, Call.Succeeds, Call.Published;
    var first := Outer(c);
    var inner := Step(first, Enter);
    assert first.requests[0].stamp == Some(0) && Issue(0, 0, 1, c) in first.history;
    assert inner.active == [Forward(0, 0, true, 1), Forward(0, 1, false, 4)];
    assert Step(inner, Attend(c)).requests[0].stamp == Some(1);
  }

  /** A forward inside a forward that publishes after a block began starts a record of its own,
      and the outer forward's receipts are refused from then on. */
  lemma NestedForwardLosesReceipts(c: Call)
    requires c.mapping.Ok() && c.Succeeds()
    ensures var w := Run([BeginSample, Enter, Block, Attend(c), Enter, Attend(c), Leave]);
            && w.Owner() && !Accepts(w, c.Published())
            && Issue(0, 0, Last(w.active).entered, c) in w.history
  {
    hide Accepts, Run, Nested, Call.Succeeds, Call.Published;
    RunToNested(c);
    NestedWorld(c);
  }
}
