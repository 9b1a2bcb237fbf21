/**
 * The per-selection bag the combination search carries
 * (`get_empty_metadata`, `add_train_to_routes_metadata`), and the two
 * tests it feeds (`estimate_revenue`, `is_worth_adding_trains`).
 */
module Metadata {
  import opened Bitfields
  import opened Routes

  /** Summed estimate, merged bitfield, and whether two selected routes share a hexside. */
  datatype RoutesMetadata = RoutesMetadata(estimateRevenue: int, bitfield: seq<Word>, overlap: bool)

  /** `get_empty_metadata`: nothing selected. */
  function EmptyMetadata(): (m: RoutesMetadata)
    ensures m.estimateRevenue == 0 && Bits(m.bitfield) == iset{} && !m.overlap
  {
    ZeroWordsAreEmpty([]);
    RoutesMetadata(0, [], false)
  }

  /**
   * `add_train_to_routes_metadata`: add the route's estimate, merge its
   * bitfield in, and raise the overlap flag if it was raised or the route
   * shares a hexside with those already selected.
   */
  function AddTrain(meta: RoutesMetadata, route: Route): (m: RoutesMetadata)
    ensures m.estimateRevenue == meta.estimateRevenue + route.revenue
    ensures Bits(m.bitfield) == Bits(route.bitfield) + Bits(meta.bitfield)
    ensures m.overlap <==> meta.overlap || Bits(route.bitfield) * Bits(meta.bitfield) != iset{}
    ensures meta.overlap ==> m.overlap
  {
    MergeIsUnion(route.bitfield, meta.bitfield);
    ConflictsIffSharedBit(route.bitfield, meta.bitfield);
    RoutesMetadata(
      meta.estimateRevenue + route.revenue,
      Merge(route.bitfield, meta.bitfield),
      meta.overlap || Conflicts(route.bitfield, meta.bitfield))
  }

  /** The metadata of a selection, built route by route from the empty one. */
  function MetadataOf(routes: seq<Route>): RoutesMetadata
  {
    if |routes| == 0 then EmptyMetadata()
    else AddTrain(MetadataOf(routes[..|routes| - 1]), routes[|routes| - 1])
  }

  /** The union of the bits of the routes' bitfields. */
  ghost function BitsOf(routes: seq<Route>): iset<Pos>
  {
    iset i, p | 0 <= i < |routes| && p in Bits(routes[i].bitfield) :: p
  }

  /** Some two distinct routes of the selection share a hexside bit. */
  ghost predicate PairwiseOverlap(routes: seq<Route>)
  {
    exists i, j :: 0 <= i < j < |routes| && Bits(routes[i].bitfield) * Bits(routes[j].bitfield) != iset{}
  }

  /**
   * What the folded metadata means: the estimate is the revenue sum, the
   * bitfield holds the union of the routes' bits, and the overlap flag is
   * raised exactly when two of the routes share a hexside.
   */
  lemma MetadataOfMeaning(routes: seq<Route>)
    ensures MetadataOf(routes).estimateRevenue == SumRevenue(routes)
    ensures Bits(MetadataOf(routes).bitfield) == BitsOf(routes)
    ensures MetadataOf(routes).overlap <==> PairwiseOverlap(routes)
  {
    MetadataOfEstimate(routes);
    MetadataOfOverlap(routes);
  }

  lemma {:induction false} MetadataOfEstimate(routes: seq<Route>)
    ensures MetadataOf(routes).estimateRevenue == SumRevenue(routes)
    decreases |routes|
  {
    if |routes| > 0 {
      MetadataOfEstimate(routes[..|routes| - 1]);
    }
  }

  lemma {:induction false} MetadataOfBits(routes: seq<Route>)
    ensures Bits(MetadataOf(routes).bitfield) == BitsOf(routes)
    decreases |routes|
  {
    if |routes| > 0 {
      var init := routes[..|routes| - 1];
      MetadataOfBits(init);
      BitsOfSnoc(init, routes[|routes| - 1]);
      assert routes == init + [routes[|routes| - 1]];
    }
  }

  lemma {:induction false} MetadataOfOverlap(routes: seq<Route>)
    ensures Bits(MetadataOf(routes).bitfield) == BitsOf(routes)
    ensures MetadataOf(routes).overlap <==> PairwiseOverlap(routes)
    decreases |routes|
  {
    MetadataOfBits(routes);
    if |routes| > 0 {
      var init := routes[..|routes| - 1];
      MetadataOfOverlap(init);
      assert routes == init + [routes[|routes| - 1]];
      PairwiseOverlapSnoc(init, routes[|routes| - 1]);
    }
  }

  lemma BitsOfSnoc(init: seq<Route>, last: Route)
    ensures BitsOf(init + [last]) == BitsOf(init) + Bits(last.bitfield)
  {
    var routes := init + [last];
    forall p | p in BitsOf(routes)
      ensures p in BitsOf(init) + Bits(last.bitfield)
    {
      var i :| 0 <= i < |routes| && p in Bits(routes[i].bitfield);
      if i < |init| {
        assert routes[i] == init[i];
      }
    }
    forall p | p in BitsOf(init)
      ensures p in BitsOf(routes)
    {
      var i :| 0 <= i < |init| && p in Bits(init[i].bitfield);
      assert routes[i] == init[i];
    }
    assert routes[|init|] == last;
  }

  lemma PairwiseOverlapSnoc(init: seq<Route>, last: Route)
    ensures PairwiseOverlap(init + [last]) <==>
      PairwiseOverlap(init) || Bits(last.bitfield) * BitsOf(init) != iset{}
  {
    var routes := init + [last];
    if PairwiseOverlap(routes) {
      var i, j :| 0 <= i < j < |routes| && Bits(routes[i].bitfield) * Bits(routes[j].bitfield) != iset{};
      if j < |init| {
        assert routes[i] == init[i] && routes[j] == init[j];
      } else {
        var p :| p in Bits(routes[i].bitfield) * Bits(routes[j].bitfield);
        assert routes[i] == init[i];
        assert p in Bits(last.bitfield) * BitsOf(init);
      }
    }
    if PairwiseOverlap(init) {
      var i, j :| 0 <= i < j < |init| && Bits(init[i].bitfield) * Bits(init[j].bitfield) != iset{};
      assert routes[i] == init[i] && routes[j] == init[j];
    }
    if Bits(last.bitfield) * BitsOf(init) != iset{} {
      var p :| p in Bits(last.bitfield) * BitsOf(init);
      var i :| 0 <= i < |init| && p in Bits(init[i].bitfield);
      assert routes[i] == init[i] && routes[|init|] == last;
      assert p in Bits(routes[i].bitfield) * Bits(routes[|init|].bitfield);
    }
  }

  /** Once two routes overlap, adding more routes keeps the flag raised. */
  lemma {:induction false} OverlapPersists(routes: seq<Route>, more: seq<Route>)
    requires MetadataOf(routes).overlap
    ensures MetadataOf(routes + more).overlap
    decreases |more|
  {
    if |more| == 0 {
      assert routes + more == routes;
    } else {
      assert (routes + more)[..|routes + more| - 1] == routes + more[..|more| - 1];
      OverlapPersists(routes, more[..|more| - 1]);
    }
  }

  // ---------------------------------------------------------------------
  // estimate_revenue and is_worth_adding_trains (auto_router.rb:516-547)
  // ---------------------------------------------------------------------

  /** The titles for which overlapping routes may still be scored (`opt_fails_overlap`). */
  predicate OptsOutOfOverlap(title: string)
  {
    title in {"1822", "1860", "1862", "18 Los Angeles 2"}
  }

  /** `estimate_revenue`: -1 for an overlapping selection unless the title opts out, else the summed estimate. */
  function EstimateRevenue(title: string, meta: RoutesMetadata): (e: int)
    ensures meta.overlap && !OptsOutOfOverlap(title) ==> e == -1
    ensures !meta.overlap || OptsOutOfOverlap(title) ==> e == meta.estimateRevenue
  {
    if !OptsOutOfOverlap(title) && meta.overlap then -1 else meta.estimateRevenue
  }

  /**
   * `is_worth_adding_trains`: the raw summed estimate (not the -1 of an
   * overlapping selection) plus the bound for the remaining trains beats
   * the best so far.
   */
  function IsWorthAddingTrains(bestRevenueSoFar: int, meta: RoutesMetadata, restBound: int): (worth: bool)
    ensures worth <==> meta.estimateRevenue + restBound > bestRevenueSoFar
  {
    meta.estimateRevenue + restBound > bestRevenueSoFar
  }

  /**
   * The estimate of a selection: for a title that scores overlaps, or a
   * selection whose routes share no hexside, it is the revenue sum;
   * otherwise it is -1, below every best the search records.
   */
  lemma EstimateOfSelection(title: string, routes: seq<Route>)
    ensures OptsOutOfOverlap(title) || !PairwiseOverlap(routes) ==>
      EstimateRevenue(title, MetadataOf(routes)) == SumRevenue(routes)
    ensures !OptsOutOfOverlap(title) && PairwiseOverlap(routes) ==>
      EstimateRevenue(title, MetadataOf(routes)) == -1
  {
    MetadataOfMeaning(routes);
  }
}
