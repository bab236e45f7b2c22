/**
 Completion receipts of partitioned attention: what a call publishes, and which receipts
 the history bridge takes for well-formed.

 Digests are opaque strings of the right shape.
*/
module Receipts {
  import opened Basics

  const TAG := "sol_h3_partitioned_exact_prefix_v2"
  const ABI := "sol-h3-partitioned-single-union-v1"
  const POLICY := "k64-union-radius1-additive-interval4-v1"
  const CONTRACT := "sana-sol-engine-sol-attn-64-rect-sm120-query-origin-v5"
  const WEIGHTED_DENSE := "sm120-weighted-all-selected-v1"
  const DENSE_ROUTE := "partitioned_dense"
  const SOL_ROUTE := "partitioned_sol"
  const MAPPED_ROUTE := "partitioned_sol_mapped"

  predicate IsKind(s: string) { s == "global" || s == "local" || s == "anchor" || s == "full" }

  /** The fifteen published fields. */
  datatype Fields = Fields(
    tag: string, abi: string, semantic: string, kind: string, mode: string,
    qRows: int, kvRows: int, sinkRows: int, range: Option<(int, int)>, measure: real,
    map_: Option<string>, descriptor: Option<string>, policy: Option<string>, contract: Option<string>, completed: bool)

  /** What a history is asked to accept: a receipt, a tuple of another shape with the given
      route in its third place, or something else. */
  datatype Item = Other | Misshapen(route: string) | Receipt(owner: string, block: int, route: string, fields: Fields)

  // ----- what a call publishes -----

  /** The outcome of the mapped-neighbour contract for the call's position map: a digest of
      the map, and of its intervals unless the map needs none. */
  datatype Mapping = NoMap | Unavailable | Mapped(map_: string, descriptor: Option<string>)
  {
    predicate Ok() { Mapped? ==> IsDigest(map_) && (descriptor.Some? ==> IsDigest(descriptor.value)) }
  }

  /** One call, as far as its receipt depends on it.  `warmup` is the schedule's verdict on
      the evaluation, `gate` that of the arithmetic gate if the call has to pass one. */
  datatype Call = Call(block: int, kind: string, semantic: string, qRows: int, kvRows: int, sinkRows: int,
                       range: Option<(int, int)>, measure: real, mapping: Mapping, forced: bool, warmup: bool, gate: bool)
  {
    predicate Dense() { forced || warmup }

    /** The geometry, key-measure and mapping checks. */
    predicate Valid() {
      && qRows > 0 && kvRows > 0 && IsKind(kind) && block >= 0 && 0 <= sinkRows <= kvRows && IsDigest(semantic)
      && (match range
          case None => measure == 0.0
          case Some(r) =>
            && 0 <= r.0 < r.1 <= kvRows && measure <= 0.0
            && !(r.0 < sinkRows && !(Dense() && r.0 == 0 && r.1 > sinkRows))
            && !(!Dense() && r.0 != sinkRows))
      && !mapping.Unavailable?
    }

    /** Weighted dense and sparse calls must have passed their gate. */
    predicate Gated() { !Dense() || measure != 0.0 }

    predicate Succeeds() { Valid() && (Gated() ==> gate) }

    function Route(): string {
      if Dense() then DENSE_ROUTE else if HasIntervals() then MAPPED_ROUTE else SOL_ROUTE
    }

    predicate HasIntervals() { mapping.Mapped? && mapping.descriptor.Some? }

    function Mode(): string {
      if Dense() then
        if measure == 0.0 then (if forced then "dense_forced" else "dense_warmup")
        else if forced then "dense_sm120_forced" else "dense_sm120_warmup"
      else if HasIntervals() then "sm120_mapped" else "sm120_union"
    }

    function Contract(): Option<string> {
      if !Dense() then Some(CONTRACT) else if measure == 0.0 then None else Some(WEIGHTED_DENSE)
    }

    /** _completion_fields. */
    function Completion(): Fields {
      Fields(TAG, ABI, semantic, kind, Mode(), qRows, kvRows, sinkRows, range, measure,
             if mapping.Mapped? then Some(mapping.map_) else None,
             if mapping.Mapped? then mapping.descriptor else None,
             if mapping.Mapped? then Some(POLICY) else None,
             Contract(), true)
    }

    function Published(): Item { Receipt("sol_h3", block, Route(), Completion()) }
  }

  // ----- what the bridge accepts -----

  predicate RangeOk(route: string, f: Fields) {
    match f.range
    case None => f.measure == 0.0
    case Some(r) =>
      && (f.sinkRows <= r.0 < r.1 <= f.kvRows || (route == DENSE_ROUTE && r.0 == 0 && f.sinkRows < r.1 <= f.kvRows))
      && (route != DENSE_ROUTE ==> r.0 == f.sinkRows)
  }

  predicate MapOk(f: Fields) {
    match f.map_
    case None => f.descriptor.None? && f.policy.None?
    case Some(m) => IsDigest(m) && f.policy == Some(POLICY) && (f.descriptor.Some? ==> IsDigest(f.descriptor.value))
  }

  predicate NativeDense(f: Fields) { (f.mode == "dense_forced" || f.mode == "dense_warmup") && f.contract.None? }

  predicate WeightedDense(f: Fields) {
    && (f.mode == "dense_sm120_forced" || f.mode == "dense_sm120_warmup")
    && f.contract == Some(WEIGHTED_DENSE) && f.range.Some? && f.measure < 0.0
  }

  predicate Named(c: Option<string>) { c.Some? && c.value != "" }

  predicate RouteOk(route: string, f: Fields) {
    if route == DENSE_ROUTE then NativeDense(f) || WeightedDense(f)
    else if route == MAPPED_ROUTE then f.mode == "sm120_mapped" && f.map_.Some? && f.descriptor.Some? && Named(f.contract)
    else f.mode == "sm120_union" && f.descriptor.None? && Named(f.contract)
  }

  /** The structural half of _accept_partitioned_receipt. */
  predicate WellFormed(item: Item) {
    && item.Receipt? && item.owner == "sol_h3" && item.block >= 0
    && (item.route == DENSE_ROUTE || item.route == SOL_ROUTE || item.route == MAPPED_ROUTE)
    && var f := item.fields;
    && f.tag == TAG && f.abi == ABI && IsDigest(f.semantic) && IsKind(f.kind)
    && f.qRows > 0 && f.kvRows > 0 && 0 <= f.sinkRows <= f.kvRows && f.measure <= 0.0 && f.completed
    && RangeOk(item.route, f) && MapOk(f) && RouteOk(item.route, f)
  }

  /** Publishable: some successful call publishes it. */
  ghost predicate Publishable(item: Item) {
    exists c: Call :: Publishes(c, item)
  }

  ghost predicate Publishes(c: Call, item: Item) { c.mapping.Ok() && c.Succeeds() && c.Published() == item }

  /** Producer and validator agree: a well-formed receipt is one that some successful call
      publishes, but for two families that the validator lets through and no call
      publishes: a native dense receipt with a key measure, and a sparse one under another
      kernel contract. */
  lemma WellFormedIsPublishable(item: Item)
    ensures Publishable(item) <==> WellFormed(item) && Exact(item)
  {
    if WellFormed(item) && Exact(item) { assert Publishes(CallFor(item), item) by { CallForPublishes(item); } }
    if Publishable(item) {
      var c: Call :| Publishes(c, item);
      PublishedIsWellFormed(c);
    }
  }

  predicate Exact(item: Item) {
    item.Receipt? &&
    if item.route == DENSE_ROUTE then NativeDense(item.fields) ==> item.fields.measure == 0.0
    else item.fields.contract == Some(CONTRACT)
  }

  lemma PublishedIsWellFormed(c: Call)
    requires c.mapping.Ok() && c.Succeeds()
    ensures WellFormed(c.Published()) && Exact(c.Published())
  {
  }

  function CallFor(item: Item): Call
    requires item.Receipt?
  {
    var f := item.fields;
    var dense := item.route == DENSE_ROUTE;
    Call(item.block, f.kind, f.semantic, f.qRows, f.kvRows, f.sinkRows, f.range, f.measure,
         if f.map_.None? then NoMap else Mapped(f.map_.value, f.descriptor),
         dense && (f.mode == "dense_forced" || f.mode == "dense_sm120_forced"), dense, true)
  }

  lemma CallForPublishes(item: Item)
    requires WellFormed(item) && Exact(item)
    ensures Publishes(CallFor(item), item)
  {
  }

  /** The fields determine the route: a block's fields are well-formed under one route only. */
  lemma RouteIsDetermined(a: Item, b: Item)
    requires WellFormed(a) && WellFormed(b) && a.block == b.block && a.fields == b.fields
    ensures a == b
  {
  }

  // ----- the two families that are let through and never published -----

  /** A well-formed dense receipt under the given mode, measure and kernel contract. */
  function Sample(route: string, mode: string, measure: real, contract: Option<string>): Item {
    Receipt("sol_h3", 0, route,
            Fields(TAG, ABI, seq(64, _ => 'a'), "full", mode, 64, 64, 0, Some((0, 64)), measure, None, None, None, contract, true))
  }

  lemma DenseMeasureIsNeverPublished()
    ensures var item := Sample(DENSE_ROUTE, "dense_forced", -1.0, None); WellFormed(item) && !Publishable(item)
  {
    WellFormedIsPublishable(Sample(DENSE_ROUTE, "dense_forced", -1.0, None));
  }

  lemma ForeignContractIsNeverPublished()
    ensures var item := Sample(SOL_ROUTE, "sm120_union", 0.0, Some("other")); WellFormed(item) && !Publishable(item)
  {
    WellFormedIsPublishable(Sample(SOL_ROUTE, "sm120_union", 0.0, Some("other")));
  }

  // ----- what is published and accepted, field by field -----

  /** The receipt of a valid call with a proper mapping. */
  lemma PublishedFields(c: Call)
    requires c.mapping.Ok() && c.Succeeds()
    ensures c.Published().Receipt? && c.Published().owner == "sol_h3" && c.Published().block == c.block
    ensures var f := c.Published().fields;
            && f.tag == "sol_h3_partitioned_exact_prefix_v2" && f.abi == "sol-h3-partitioned-single-union-v1" && f.completed
            && f.semantic == c.semantic && f.kind == c.kind && f.range == c.range && f.measure == c.measure
            && f.qRows == c.qRows && f.kvRows == c.kvRows && f.sinkRows == c.sinkRows
    ensures var f := c.Published().fields;
            match c.mapping
            case Mapped(m, d) => f.map_ == Some(m) && f.descriptor == d && f.policy == Some("k64-union-radius1-additive-interval4-v1")
            case _ => f.map_.None? && f.descriptor.None? && f.policy.None?
    ensures var r, f := c.Published().route, c.Published().fields;
            if (c.forced || c.warmup) && c.measure == 0.0 then
              r == "partitioned_dense" && f.mode == (if c.forced then "dense_forced" else "dense_warmup") && f.contract.None?
            else if c.forced || c.warmup then
              && r == "partitioned_dense" && f.mode == (if c.forced then "dense_sm120_forced" else "dense_sm120_warmup")
              && f.contract == Some("sm120-weighted-all-selected-v1")
            else
              && f.contract == Some("sana-sol-engine-sol-attn-64-rect-sm120-query-origin-v5")
              && if c.mapping.Mapped? && c.mapping.descriptor.Some?
                 then r == "partitioned_sol_mapped" && f.mode == "sm120_mapped"
                 else r == "partitioned_sol" && f.mode == "sm120_union"
  {
  }

  /** When a call publishes at all. */
  lemma SucceedsExactly(c: Call)
    ensures c.Succeeds() <==>
              && c.qRows > 0 && c.kvRows > 0 && c.block >= 0 && 0 <= c.sinkRows <= c.kvRows && IsDigest(c.semantic)
              && (c.kind == "global" || c.kind == "local" || c.kind == "anchor" || c.kind == "full") && !c.mapping.Unavailable?
              && (c.gate || ((c.forced || c.warmup) && c.measure == 0.0))
              && match c.range
                 case None => c.measure == 0.0
                 case Some((start, end)) =>
                   && 0 <= start < end <= c.kvRows && c.measure <= 0.0
                   && if c.forced || c.warmup then c.sinkRows <= start || (start == 0 && c.sinkRows < end) else start == c.sinkRows
  {
  }

  /** The structural test: what every receipt must say, and what each of the four ways of computing a
      block's attention must say besides. */
  lemma WellFormedExactly(item: Item)
    ensures WellFormed(item) <==>
              && item.Receipt? && item.owner == "sol_h3" && item.block >= 0
              && var f := item.fields;
              && f.tag == "sol_h3_partitioned_exact_prefix_v2" && f.abi == "sol-h3-partitioned-single-union-v1" && f.completed
              && IsDigest(f.semantic) && (f.kind == "global" || f.kind == "local" || f.kind == "anchor" || f.kind == "full")
              && f.qRows > 0 && f.kvRows > 0 && 0 <= f.sinkRows <= f.kvRows && f.measure <= 0.0
              && (f.range.None? ==> f.measure == 0.0)
              && (if f.map_.None? then f.descriptor.None? && f.policy.None?
                  else && IsDigest(f.map_.value) && f.policy == Some("k64-union-radius1-additive-interval4-v1")
                       && (f.descriptor.None? || IsDigest(f.descriptor.value)))
              && ((item.route == "partitioned_dense"
                   && (f.range.None? || f.sinkRows <= f.range.value.0 < f.range.value.1 <= f.kvRows
                       || (f.range.value.0 == 0 && f.sinkRows < f.range.value.1 <= f.kvRows))
                   && (((f.mode == "dense_forced" || f.mode == "dense_warmup") && f.contract.None?)
                       || ((f.mode == "dense_sm120_forced" || f.mode == "dense_sm120_warmup")
                           && f.contract == Some("sm120-weighted-all-selected-v1") && f.range.Some? && f.measure < 0.0)))
                  || ((item.route == "partitioned_sol" || item.route == "partitioned_sol_mapped")
                      && (f.range.None? || f.sinkRows == f.range.value.0 < f.range.value.1 <= f.kvRows)
                      && f.contract.Some? && f.contract.value != ""
                      && (if item.route == "partitioned_sol" then f.mode == "sm120_union" && f.descriptor.None?
                          else f.mode == "sm120_mapped" && f.map_.Some? && f.descriptor.Some?)))
  {
  }
}
