/**
 * The branch-and-bound combination search (`new_autoroute`,
 * `find_best_combo`).  Trains are searched one layer at a time; a layer
 * (`next_routes`) holds one train's candidate routes and an upper bound on
 * what that train and all later ones can add.  For every route of the
 * layer the search scores the selection with that route, first searches the
 * later trains without it, and then searches them with it when the bound
 * says that can still beat the best found so far.
 *
 * The search is given twice: as pure functions (Explore, ExploreUpTo,
 * TryRoute) that say what the best becomes, and as the Router class whose
 * recursive method updates the router's fields as `auto_router.rb` does and is
 * proved to end in the state the functions describe.  The lemmas then say
 * what that state is worth: it never gets worse, it is a real selection
 * with its exact revenue, and, given the pruning assumption, no admissible
 * selection is better.
 */
module Search {
  import opened Wrappers
  import opened Bitfields
  import opened Routes
  import opened Metadata

  /** One layer of `next_routes`: a train's candidate routes and `max_possible_revenue_for_rest_of_trains`. */
  datatype Frame = Frame(routes: seq<Route>, bound: int)

  /** `best_revenue_so_far` with `best_routes`. */
  datatype Best = Best(revenue: int, routes: seq<Route>)

  /** What the search reads from the router besides the best: the game title and its exact revenue. */
  datatype Ctx = Ctx(title: string, routesRevenue: RevenueOracle)

  // ---------------------------------------------------------------------
  // The search as functions (auto_router.rb:619-687)
  // ---------------------------------------------------------------------

  /**
   * Scoring one selection (auto_router.rb:650-658): only when its estimate
   * beats the best is the exact revenue asked for, and only a strictly
   * better exact revenue replaces the best.
   */
  function Consider(c: Ctx, st: Best, routes: seq<Route>, meta: RoutesMetadata): (r: Best)
    ensures r.revenue >= st.revenue
    ensures r == st || (r.routes == routes && r.revenue == RealRevenue(c.routesRevenue, routes) && r.revenue > st.revenue)
    ensures r != st ==> EstimateRevenue(c.title, meta) > st.revenue
    ensures EstimateRevenue(c.title, meta) > st.revenue ==> r.revenue >= RealRevenue(c.routesRevenue, routes)
  {
    if EstimateRevenue(c.title, meta) > st.revenue then
      var revenue := RealRevenue(c.routesRevenue, routes);
      if revenue > st.revenue then Best(revenue, routes) else st
    else st
  }

  /** `find_best_combo(router, selected, meta, frames)`: all routes of the first layer, in order. */
  function Explore(c: Ctx, st: Best, selected: seq<Route>, meta: RoutesMetadata, frames: seq<Frame>): Best
    requires |frames| > 0
    decreases |frames|, |frames[0].routes| + 2
  {
    ExploreUpTo(c, st, selected, meta, frames, |frames[0].routes|)
  }

  /** The best after the first n routes of the first layer. */
  function ExploreUpTo(c: Ctx, st: Best, selected: seq<Route>, meta: RoutesMetadata, frames: seq<Frame>, n: nat): Best
    requires |frames| > 0 && n <= |frames[0].routes|
    decreases |frames|, n + 1
  {
    if n == 0 then st
    else TryRoute(c, ExploreUpTo(c, st, selected, meta, frames, n - 1), selected, meta, frames, frames[0].routes[n - 1])
  }

  /**
   * One iteration of the route loop: score the selection with the route,
   * then (if layers remain) search them without this train, and search them
   * with the route when `is_worth_adding_trains` says so.
   */
  function TryRoute(c: Ctx, st: Best, selected: seq<Route>, meta: RoutesMetadata, frames: seq<Frame>, route: Route): Best
    requires |frames| > 0
    decreases |frames|, 0
  {
    var current := AddTrain(meta, route);
    var currentRoutes := selected + [route];
    var st1 := Consider(c, st, currentRoutes, current);
    if |frames| == 1 then st1
    else
      var st2 := Explore(c, st1, selected, meta, frames[1..]);
      if IsWorthAddingTrains(st2.revenue, current, frames[1].bound) then
        Explore(c, st2, currentRoutes, current, frames[1..])
      else st2
  }

  // ---------------------------------------------------------------------
  // The best never gets worse
  // ---------------------------------------------------------------------

  lemma {:induction false} ExploreMonotone(c: Ctx, st: Best, selected: seq<Route>, meta: RoutesMetadata, frames: seq<Frame>)
    requires |frames| > 0
    ensures Explore(c, st, selected, meta, frames).revenue >= st.revenue
    decreases |frames|, |frames[0].routes| + 2
  {
    ExploreUpToMonotone(c, st, selected, meta, frames, |frames[0].routes|);
  }

  lemma {:induction false} ExploreUpToMonotone(c: Ctx, st: Best, selected: seq<Route>, meta: RoutesMetadata, frames: seq<Frame>, n: nat)
    requires |frames| > 0 && n <= |frames[0].routes|
    ensures ExploreUpTo(c, st, selected, meta, frames, n).revenue >= st.revenue
    decreases |frames|, n + 1
  {
    if n > 0 {
      ExploreUpToMonotone(c, st, selected, meta, frames, n - 1);
      TryRouteMonotone(c, ExploreUpTo(c, st, selected, meta, frames, n - 1), selected, meta, frames, frames[0].routes[n - 1]);
    }
  }

  lemma {:induction false} TryRouteMonotone(c: Ctx, st: Best, selected: seq<Route>, meta: RoutesMetadata, frames: seq<Frame>, route: Route)
    requires |frames| > 0
    ensures TryRoute(c, st, selected, meta, frames, route).revenue >= st.revenue
    decreases |frames|, 0
  {
    var current := AddTrain(meta, route);
    var st1 := Consider(c, st, selected + [route], current);
    if |frames| > 1 {
      ExploreMonotone(c, st1, selected, meta, frames[1..]);
      var st2 := Explore(c, st1, selected, meta, frames[1..]);
      ExploreMonotone(c, st2, selected + [route], current, frames[1..]);
    }
  }

  // ---------------------------------------------------------------------
  // The best is a real selection with its exact revenue
  // ---------------------------------------------------------------------

  /**
   * picks takes at most one route from each layer, in layer order: each
   * pick comes from a later layer than the one before it.
   */
  ghost predicate Drawn(picks: seq<Route>, frames: seq<Frame>)
    decreases |frames|
  {
    |picks| == 0 ||
    (|frames| > 0 &&
     ((picks[0] in frames[0].routes && Drawn(picks[1..], frames[1..])) || Drawn(picks, frames[1..])))
  }

  /** The best moved from st to r by selecting, after selected, a nonempty draw from the layers, at its exact revenue. */
  ghost predicate Improves(c: Ctx, st: Best, r: Best, selected: seq<Route>, frames: seq<Frame>)
  {
    r == st ||
    (&& r.revenue > st.revenue
     && r.revenue == RealRevenue(c.routesRevenue, r.routes)
     && |r.routes| > |selected|
     && r.routes[..|selected|] == selected
     && Drawn(r.routes[|selected|..], frames))
  }

  lemma ImprovesTrans(c: Ctx, st: Best, mid: Best, r: Best, selected: seq<Route>, frames: seq<Frame>)
    requires Improves(c, st, mid, selected, frames) && Improves(c, mid, r, selected, frames)
    requires mid.revenue >= st.revenue
    ensures Improves(c, st, r, selected, frames)
  {
  }

  /** A draw from the later layers is a draw from these layers. */
  lemma ImprovesSkip(c: Ctx, st: Best, r: Best, selected: seq<Route>, frames: seq<Frame>)
    requires |frames| > 0 && Improves(c, st, r, selected, frames[1..])
    ensures Improves(c, st, r, selected, frames)
  {
  }

  /** Selecting a route of the first layer, then a draw from the later layers, is a draw from these layers. */
  lemma ImprovesTake(c: Ctx, st: Best, r: Best, selected: seq<Route>, route: Route, frames: seq<Frame>)
    requires |frames| > 0 && route in frames[0].routes
    requires Improves(c, st, r, selected + [route], frames[1..])
    ensures Improves(c, st, r, selected, frames)
  {
    if r != st {
      var rest := r.routes[|selected|..];
      assert r.routes[..|selected| + 1] == selected + [route];
      assert rest[0] == route;
      assert rest[1..] == r.routes[|selected| + 1..];
    }
  }

  /** Scoring selected + [route] alone is a one-route draw. */
  lemma ImprovesConsider(c: Ctx, st: Best, selected: seq<Route>, route: Route, meta: RoutesMetadata, frames: seq<Frame>)
    requires |frames| > 0 && route in frames[0].routes
    ensures Improves(c, st, Consider(c, st, selected + [route], meta), selected, frames)
  {
    var r := Consider(c, st, selected + [route], meta);
    if r != st {
      assert r.routes[|selected|..] == [route];
      assert r.routes[..|selected|] == selected;
      assert Drawn([route][1..], frames[1..]);
    }
  }

  lemma {:induction false} ExploreSound(c: Ctx, st: Best, selected: seq<Route>, meta: RoutesMetadata, frames: seq<Frame>)
    requires |frames| > 0
    ensures Improves(c, st, Explore(c, st, selected, meta, frames), selected, frames)
    decreases |frames|, |frames[0].routes| + 2
  {
    ExploreUpToSound(c, st, selected, meta, frames, |frames[0].routes|);
  }

  lemma {:induction false} ExploreUpToSound(c: Ctx, st: Best, selected: seq<Route>, meta: RoutesMetadata, frames: seq<Frame>, n: nat)
    requires |frames| > 0 && n <= |frames[0].routes|
    ensures Improves(c, st, ExploreUpTo(c, st, selected, meta, frames, n), selected, frames)
    decreases |frames|, n + 1
  {
    if n > 0 {
      var mid := ExploreUpTo(c, st, selected, meta, frames, n - 1);
      ExploreUpToSound(c, st, selected, meta, frames, n - 1);
      ExploreUpToMonotone(c, st, selected, meta, frames, n - 1);
      TryRouteSound(c, mid, selected, meta, frames, frames[0].routes[n - 1]);
      ImprovesTrans(c, st, mid, ExploreUpTo(c, st, selected, meta, frames, n), selected, frames);
    }
  }

  lemma {:induction false} TryRouteSound(c: Ctx, st: Best, selected: seq<Route>, meta: RoutesMetadata, frames: seq<Frame>, route: Route)
    requires |frames| > 0 && route in frames[0].routes
    ensures Improves(c, st, TryRoute(c, st, selected, meta, frames, route), selected, frames)
    decreases |frames|, 0
  {
    var current := AddTrain(meta, route);
    var st1 := Consider(c, st, selected + [route], current);
    ImprovesConsider(c, st, selected, route, current, frames);
    if |frames| > 1 {
      var st2 := Explore(c, st1, selected, meta, frames[1..]);
      ExploreSound(c, st1, selected, meta, frames[1..]);
      ExploreMonotone(c, st1, selected, meta, frames[1..]);
      ImprovesSkip(c, st1, st2, selected, frames);
      ImprovesTrans(c, st, st1, st2, selected, frames);
      if IsWorthAddingTrains(st2.revenue, current, frames[1].bound) {
        var st3 := Explore(c, st2, selected + [route], current, frames[1..]);
        ExploreSound(c, st2, selected + [route], current, frames[1..]);
        ExploreMonotone(c, st2, selected + [route], current, frames[1..]);
        ImprovesTake(c, st2, st3, selected, route, frames);
        ImprovesTrans(c, st, st2, st3, selected, frames);
      }
    }
  }

  // ---------------------------------------------------------------------
  // No admissible selection is better
  // ---------------------------------------------------------------------

  /**
   * Layers as `new_autoroute` builds them from lists sorted best first: no
   * layer is empty, its first route is its best and earns at least 0, and
   * each bound is the first route's revenue plus the next layer's bound
   * (0 after the last layer).
   */
  ghost predicate FramesOk(frames: seq<Frame>)
  {
    forall i :: 0 <= i < |frames| ==> LayerOk(frames, i)
  }

  ghost predicate LayerOk(frames: seq<Frame>, i: nat)
    requires i < |frames|
  {
    && |frames[i].routes| > 0
    && frames[i].routes[0].revenue >= 0
    && (forall j :: 0 <= j < |frames[i].routes| ==> frames[i].routes[j].revenue <= frames[i].routes[0].revenue)
    && frames[i].bound == frames[i].routes[0].revenue + (if i + 1 < |frames| then frames[i + 1].bound else 0)
  }

  lemma FramesOkTail(frames: seq<Frame>)
    requires |frames| > 0 && FramesOk(frames)
    ensures FramesOk(frames[1..])
  {
    forall i | 0 <= i < |frames| - 1
      ensures LayerOk(frames[1..], i)
    {
      assert LayerOk(frames, i + 1);
      assert frames[1..][i] == frames[i + 1];
      if i + 1 < |frames| - 1 {
        assert frames[1..][i + 1] == frames[i + 2];
      }
    }
  }

  /** A bound is never negative. */
  lemma {:induction false} BoundNonNegative(frames: seq<Frame>)
    requires |frames| > 0 && FramesOk(frames)
    ensures frames[0].bound >= 0
    decreases |frames|
  {
    assert LayerOk(frames, 0);
    if |frames| > 1 {
      FramesOkTail(frames);
      BoundNonNegative(frames[1..]);
    }
  }

  /** The bound of the first layer covers the revenue sum of every draw from the layers. */
  lemma {:induction false} BoundCoversDraws(frames: seq<Frame>, picks: seq<Route>)
    requires |frames| > 0 && FramesOk(frames) && Drawn(picks, frames)
    ensures SumRevenue(picks) <= frames[0].bound
    decreases |frames|
  {
    BoundNonNegative(frames);
    assert LayerOk(frames, 0);
    if |picks| > 0 {
      var rest := frames[1..];
      if |rest| > 0 {
        FramesOkTail(frames);
        BoundNonNegative(rest);
      }
      SumRevenueAppend([picks[0]], picks[1..]);
      assert [picks[0]] + picks[1..] == picks;
      assert SumRevenue([picks[0]]) == picks[0].revenue;
      if picks[0] in frames[0].routes && Drawn(picks[1..], rest) {
        if |picks[1..]| > 0 {
          BoundCoversDraws(rest, picks[1..]);
        }
      } else {
        BoundCoversDraws(rest, picks);
      }
    }
  }

  /** The selection may be scored: the title scores overlaps, or its routes share no hexside. */
  ghost predicate Admissible(title: string, routes: seq<Route>)
  {
    OptsOutOfOverlap(title) || !MetadataOf(routes).overlap
  }

  lemma AdmissiblePrefix(title: string, routes: seq<Route>, more: seq<Route>)
    requires Admissible(title, routes + more)
    ensures Admissible(title, routes)
  {
    if MetadataOf(routes).overlap {
      OverlapPersists(routes, more);
    }
  }

  /** Folding one more route into the metadata of a selection gives the metadata of the longer selection. */
  lemma MetadataSnoc(selected: seq<Route>, route: Route)
    ensures AddTrain(MetadataOf(selected), route) == MetadataOf(selected + [route])
  {
    assert (selected + [route])[..|selected|] == selected;
  }

  /**
   * No admissible selection beats the search: the best it ends with is at
   * least the exact revenue of every nonempty admissible draw from the
   * layers, provided the layers are as built from sorted lists and exact
   * revenue never exceeds the summed route revenues.
   */
  lemma {:induction false} ExploreOptimal(c: Ctx, st: Best, selected: seq<Route>, frames: seq<Frame>, picks: seq<Route>)
    requires |frames| > 0 && FramesOk(frames) && RevenueSubadditive(c.routesRevenue)
    requires |picks| > 0 && Drawn(picks, frames) && Admissible(c.title, selected + picks)
    ensures Explore(c, st, selected, MetadataOf(selected), frames).revenue >= RealRevenue(c.routesRevenue, selected + picks)
    decreases |frames|, |frames[0].routes| + 2
  {
    var routes := frames[0].routes;
    assert LayerOk(frames, 0);
    if picks[0] in routes && Drawn(picks[1..], frames[1..]) {
      var j :| 0 <= j < |routes| && routes[j] == picks[0];
      ExploreUpToOptimal(c, st, selected, frames, |routes|, j, picks);
    } else {
      ExploreUpToOptimal(c, st, selected, frames, |routes|, 0, picks);
    }
  }

  /**
   * After n routes of the first layer the best covers every admissible
   * draw that starts with one of those n routes, and (once a route was
   * tried) every draw from the later layers.
   */
  lemma {:induction false} ExploreUpToOptimal(c: Ctx, st: Best, selected: seq<Route>, frames: seq<Frame>, n: nat, j: nat,
                                              picks: seq<Route>)
    requires |frames| > 0 && FramesOk(frames) && RevenueSubadditive(c.routesRevenue)
    requires j < n <= |frames[0].routes|
    requires |picks| > 0 && Admissible(c.title, selected + picks)
    requires (picks[0] == frames[0].routes[j] && Drawn(picks[1..], frames[1..])) || Drawn(picks, frames[1..])
    ensures ExploreUpTo(c, st, selected, MetadataOf(selected), frames, n).revenue >= RealRevenue(c.routesRevenue, selected + picks)
    decreases |frames|, n + 1
  {
    var meta := MetadataOf(selected);
    var mid := ExploreUpTo(c, st, selected, meta, frames, n - 1);
    var route := frames[0].routes[n - 1];
    if j < n - 1 {
      ExploreUpToOptimal(c, st, selected, frames, n - 1, j, picks);
      TryRouteMonotone(c, mid, selected, meta, frames, route);
    } else if picks[0] == route && Drawn(picks[1..], frames[1..]) {
      TryRouteOptimal(c, mid, selected, frames, route, picks);
    } else {
      // j == n - 1 and picks is not a draw with this route first
      assert Drawn(picks, frames[1..]);
      TryRouteOptimal(c, mid, selected, frames, route, picks);
    }
  }

  lemma {:induction false} TryRouteOptimal(c: Ctx, st: Best, selected: seq<Route>, frames: seq<Frame>, route: Route, picks: seq<Route>)
    requires |frames| > 0 && FramesOk(frames) && RevenueSubadditive(c.routesRevenue)
    requires route in frames[0].routes
    requires |picks| > 0 && Admissible(c.title, selected + picks)
    requires (picks[0] == route && Drawn(picks[1..], frames[1..])) || Drawn(picks, frames[1..])
    ensures TryRoute(c, st, selected, MetadataOf(selected), frames, route).revenue >= RealRevenue(c.routesRevenue, selected + picks)
    decreases |frames|, 0
  {
    var meta := MetadataOf(selected);
    var current := AddTrain(meta, route);
    var currentRoutes := selected + [route];
    MetadataSnoc(selected, route);
    var st1 := Consider(c, st, currentRoutes, current);
    var result := TryRoute(c, st, selected, meta, frames, route);
    if |frames| == 1 {
      // no later layer: picks is [route]
      assert !Drawn(picks, frames[1..]);
      assert picks == [route];
      ConsideredCovers(c, st, selected, route);
    } else {
      var rest := frames[1..];
      FramesOkTail(frames);
      var st2 := Explore(c, st1, selected, meta, rest);
      ExploreMonotone(c, st1, selected, meta, rest);
      if IsWorthAddingTrains(st2.revenue, current, frames[1].bound) {
        ExploreMonotone(c, st2, currentRoutes, current, rest);
      }
      assert result.revenue >= st2.revenue;
      if picks[0] == route && Drawn(picks[1..], rest) {
        if |picks| == 1 {
          assert picks == [route];
          ConsideredCovers(c, st, selected, route);
        } else {
          assert currentRoutes + picks[1..] == selected + picks;
          if IsWorthAddingTrains(st2.revenue, current, frames[1].bound) {
            ExploreOptimal(c, st2, currentRoutes, rest, picks[1..]);
          } else {
            PrunedCovered(c, currentRoutes, rest, picks[1..]);
          }
        }
      } else {
        ExploreOptimal(c, st1, selected, rest, picks);
      }
    }
  }

  /** Scoring selected + [route] leaves a best at least its exact revenue, when it is admissible. */
  lemma ConsideredCovers(c: Ctx, st: Best, selected: seq<Route>, route: Route)
    requires RevenueSubadditive(c.routesRevenue) && Admissible(c.title, selected + [route])
    ensures Consider(c, st, selected + [route], MetadataOf(selected + [route])).revenue
      >= RealRevenue(c.routesRevenue, selected + [route])
  {
    var routes := selected + [route];
    MetadataOfMeaning(routes);
    assert RealRevenue(c.routesRevenue, routes) <= SumRevenue(routes);
  }

  /** A pruned branch holds nothing above the best: its estimate plus the later bound was no more than the best. */
  lemma PrunedCovered(c: Ctx, current: seq<Route>, rest: seq<Frame>, tail: seq<Route>)
    requires |rest| > 0 && FramesOk(rest) && RevenueSubadditive(c.routesRevenue)
    requires Drawn(tail, rest)
    ensures RealRevenue(c.routesRevenue, current + tail) <= MetadataOf(current).estimateRevenue + rest[0].bound
  {
    BoundCoversDraws(rest, tail);
    MetadataOfEstimate(current);
    SumRevenueAppend(current, tail);
    assert RealRevenue(c.routesRevenue, current + tail) <= SumRevenue(current + tail);
  }

  // ---------------------------------------------------------------------
  // Layers built from the train lists (auto_router.rb:591-607)
  // ---------------------------------------------------------------------

  /** Every train has at least one candidate route. */
  predicate AllNonEmpty(lists: seq<seq<Route>>)
  {
    forall i :: 0 <= i < |lists| ==> |lists[i]| > 0
  }

  /**
   * The `next_routes` chain `new_autoroute` builds: each list in turn is put
   * in front of the chain, so the first layer holds the last train's routes,
   * and its bound adds that list's first revenue to the bound of the chain
   * so far.
   */
  function BuildFrames(lists: seq<seq<Route>>): seq<Frame>
    requires AllNonEmpty(lists)
  {
    if |lists| == 0 then []
    else
      var rest := BuildFrames(lists[..|lists| - 1]);
      var routes := lists[|lists| - 1];
      [Frame(routes, (if |rest| == 0 then 0 else rest[0].bound) + routes[0].revenue)] + rest
  }

  /** The sum of the first revenues of the lists. */
  function SumOfFirsts(lists: seq<seq<Route>>): int
    requires AllNonEmpty(lists)
  {
    if |lists| == 0 then 0 else SumOfFirsts(lists[..|lists| - 1]) + lists[|lists| - 1][0].revenue
  }

  lemma AllNonEmptyPrefix(lists: seq<seq<Route>>, n: nat)
    requires AllNonEmpty(lists) && n <= |lists|
    ensures AllNonEmpty(lists[..n])
  {
    forall i | 0 <= i < n
      ensures |lists[..n][i]| > 0
    {
      assert lists[..n][i] == lists[i];
    }
  }

  /**
   * The layers in reversed train order: layer i holds list |lists|-1-i, and
   * its bound is the sum of the first revenues of that list and all the
   * lists before it, which are the layers after it.
   */
  lemma {:induction false} BuildFramesLayers(lists: seq<seq<Route>>)
    requires AllNonEmpty(lists)
    ensures |BuildFrames(lists)| == |lists|
    ensures forall i :: 0 <= i < |lists| ==> BuildFrames(lists)[i].routes == lists[|lists| - 1 - i]
    ensures forall i :: 0 <= i < |lists| ==> BuildFrames(lists)[i].bound == SumOfFirsts(lists[..|lists| - i])
    decreases |lists|
  {
    if |lists| > 0 {
      var init := lists[..|lists| - 1];
      AllNonEmptyPrefix(lists, |lists| - 1);
      BuildFramesLayers(init);
      var frames := BuildFrames(lists);
      var rest := BuildFrames(init);
      assert frames == [frames[0]] + rest;
      assert lists[..|lists|] == lists;
      forall i | 0 < i < |lists|
        ensures frames[i].routes == lists[|lists| - 1 - i]
        ensures frames[i].bound == SumOfFirsts(lists[..|lists| - i])
      {
        assert frames[i] == rest[i - 1];
        assert init[..|init| - (i - 1)] == lists[..|lists| - i];
        assert init[|init| - 1 - (i - 1)] == lists[|lists| - 1 - i];
      }
      if |rest| > 0 {
        assert init[..|init|] == init;
      }
    }
  }

  /** Layer i holds list |lists|-1-i. */
  lemma {:induction false} BuildFramesRoutes(lists: seq<seq<Route>>)
    requires AllNonEmpty(lists)
    ensures |BuildFrames(lists)| == |lists|
    ensures forall i :: 0 <= i < |lists| ==> BuildFrames(lists)[i].routes == lists[|lists| - 1 - i]
    decreases |lists|
  {
    if |lists| > 0 {
      var init := lists[..|lists| - 1];
      AllNonEmptyPrefix(lists, |lists| - 1);
      BuildFramesRoutes(init);
      var frames := BuildFrames(lists);
      var rest := BuildFrames(init);
      forall i | 0 < i < |lists|
        ensures frames[i].routes == lists[|lists| - 1 - i]
      {
        assert frames[i] == rest[i - 1];
        assert init[|init| - 1 - (i - 1)] == lists[|lists| - 1 - i];
      }
    }
  }

  /** Layer i is nonempty and its bound is its first revenue plus the next layer's bound, or 0 after the last. */
  predicate ChainedAt(frames: seq<Frame>, i: nat)
    requires i < |frames|
  {
    && |frames[i].routes| > 0
    && frames[i].bound == frames[i].routes[0].revenue + (if i + 1 < |frames| then frames[i + 1].bound else 0)
  }

  /** Each layer's bound is its first revenue plus the next layer's bound, or 0 after the last. */
  lemma {:induction false} BuildFramesChain(lists: seq<seq<Route>>)
    requires AllNonEmpty(lists)
    ensures |BuildFrames(lists)| == |lists|
    ensures forall i :: 0 <= i < |lists| ==> ChainedAt(BuildFrames(lists), i)
    decreases |lists|
  {
    if |lists| > 0 {
      var init := lists[..|lists| - 1];
      AllNonEmptyPrefix(lists, |lists| - 1);
      BuildFramesChain(init);
      var frames := BuildFrames(lists);
      var rest := BuildFrames(init);
      assert frames == [frames[0]] + rest;
      forall i | 0 <= i < |lists|
        ensures ChainedAt(frames, i)
      {
        if i > 0 {
          assert frames[i] == rest[i - 1];
          assert ChainedAt(rest, i - 1);
          if i + 1 < |lists| {
            assert frames[i + 1] == rest[i];
          }
        }
      }
    }
  }

  /** Lists whose first route is their best and earns at least 0 build layers as the search expects them. */
  lemma BuildFramesOk(lists: seq<seq<Route>>)
    requires AllNonEmpty(lists)
    requires forall i :: 0 <= i < |lists| ==> BestFirst(lists[i])
    ensures FramesOk(BuildFrames(lists))
  {
    var frames := BuildFrames(lists);
    BuildFramesRoutes(lists);
    BuildFramesChain(lists);
    forall i | 0 <= i < |frames|
      ensures LayerOk(frames, i)
    {
      var routes := frames[i].routes;
      assert routes == lists[|lists| - 1 - i];
      assert BestFirst(routes);
      assert ChainedAt(frames, i);
      assert frames[i].bound == routes[0].revenue + (if i + 1 < |frames| then frames[i + 1].bound else 0);
    }
  }

  /** A train's list is sorted best first: no route earns more than its first, and its first earns at least 0. */
  predicate BestFirst(routes: seq<Route>)
  {
    && |routes| > 0
    && routes[0].revenue >= 0
    && (forall j :: 0 <= j < |routes| ==> routes[j].revenue <= routes[0].revenue)
  }

  // ---------------------------------------------------------------------
  // The router (auto_router.rb:585-687)
  // ---------------------------------------------------------------------

  /** The router fields the search reads and writes. */
  class Router {
    const routesRevenue: RevenueOracle
    var title: string
    var bestRevenueSoFar: int
    var bestRoutes: seq<Route>

    constructor (title: string, routesRevenue: RevenueOracle)
      ensures this.title == title && this.routesRevenue == routesRevenue
      ensures bestRevenueSoFar == 0 && bestRoutes == []
    {
      this.title := title;
      this.routesRevenue := routesRevenue;
      bestRevenueSoFar := 0;
      bestRoutes := [];
    }

    function Context(): Ctx
      reads this
    {
      Ctx(title, routesRevenue)
    }

    function BestSoFar(): Best
      reads this
    {
      Best(bestRevenueSoFar, bestRoutes)
    }

    /**
     * `find_best_combo`: for each route of the first layer in order, score
     * the selection with that route, then search the later layers without
     * it and, when worth it, with it.  The best it ends with is what
     * Explore says.
     */
    method FindBestCombo(selectedRoutes: seq<Route>, selectedRoutesMetadata: RoutesMetadata, nextRoutes: seq<Frame>)
      requires |nextRoutes| > 0
      modifies this
      ensures title == old(title)
      ensures BestSoFar() == Explore(old(Context()), old(BestSoFar()), selectedRoutes, selectedRoutesMetadata, nextRoutes)
      decreases |nextRoutes|
    {
      ghost var st0 := BestSoFar();
      var routes := nextRoutes[0].routes;
      var i := 0;
      while i < |routes|
        invariant 0 <= i <= |routes|
        invariant title == old(title)
        invariant BestSoFar() == ExploreUpTo(Context(), st0, selectedRoutes, selectedRoutesMetadata, nextRoutes, i)
      {
        var route := routes[i];
        var currentRoutesMetadata := AddTrain(selectedRoutesMetadata, route);
        var currentRoutes := selectedRoutes + [route];
        ghost var before := BestSoFar();
        var estimate := EstimateRevenue(title, currentRoutesMetadata);
        if estimate > bestRevenueSoFar {
          var revenue := RealRevenue(routesRevenue, currentRoutes);
          if revenue > bestRevenueSoFar {
            bestRevenueSoFar := revenue;
            bestRoutes := currentRoutes;
          }
        }
        assert BestSoFar() == Consider(Context(), before, currentRoutes, currentRoutesMetadata);
        if |nextRoutes| > 1 {
          FindBestCombo(selectedRoutes, selectedRoutesMetadata, nextRoutes[1..]);
          if IsWorthAddingTrains(bestRevenueSoFar, currentRoutesMetadata, nextRoutes[1].bound) {
            FindBestCombo(currentRoutes, currentRoutesMetadata, nextRoutes[1..]);
          }
        }
        assert BestSoFar() == TryRoute(Context(), before, selectedRoutes, selectedRoutesMetadata, nextRoutes, route);
        i := i + 1;
      }
    }

    /**
     * `new_autoroute`: record the title, reset the best to 0 and no routes,
     * build the layers and search them.  None where the Ruby code's promise
     * is rejected: no trains at all, or a train with no candidate route.
     */
    method NewAutoroute(trainsToRoutes: seq<seq<Route>>, title: string) returns (result: Option<seq<Route>>)
      modifies this
      ensures this.title == title
      ensures result.None? <==> |trainsToRoutes| == 0 || !AllNonEmpty(trainsToRoutes)
      ensures result.None? ==> bestRevenueSoFar == 0 && bestRoutes == []
      ensures result.Some? ==>
        && AllNonEmpty(trainsToRoutes)
        && BestSoFar() == Explore(Ctx(title, routesRevenue), Best(0, []), [], EmptyMetadata(), BuildFrames(trainsToRoutes))
        && result.value == bestRoutes
    {
      this.title := title;
      bestRevenueSoFar := 0;
      bestRoutes := [];
      var nextRoutes: seq<Frame> := [];
      for i := 0 to |trainsToRoutes|
        invariant AllNonEmpty(trainsToRoutes[..i])
        invariant nextRoutes == BuildFrames(trainsToRoutes[..i])
      {
        var routes := trainsToRoutes[i];
        if |routes| == 0 {
          return None;
        }
        var r := if |nextRoutes| == 0 then 0 else nextRoutes[0].bound;
        r := r + routes[0].revenue;
        nextRoutes := [Frame(routes, r)] + nextRoutes;
        assert trainsToRoutes[..i + 1][..i] == trainsToRoutes[..i];
      }
      assert trainsToRoutes[..|trainsToRoutes|] == trainsToRoutes;
      if |nextRoutes| == 0 {
        return None;
      }
      FindBestCombo([], EmptyMetadata(), nextRoutes);
      result := Some(bestRoutes);
    }

    /**
     * `new_route`: the routes the search settles on, or no routes when it
     * fails.
     */
    method NewRoute(trainsToRoutes: seq<seq<Route>>, title: string) returns (routes: seq<Route>)
      modifies this
      ensures |trainsToRoutes| == 0 || !AllNonEmpty(trainsToRoutes) ==> routes == []
      ensures |trainsToRoutes| > 0 && AllNonEmpty(trainsToRoutes) ==>
        routes == Explore(Ctx(title, routesRevenue), Best(0, []), [], EmptyMetadata(), BuildFrames(trainsToRoutes)).routes
    {
      var result := NewAutoroute(trainsToRoutes, title);
      match result
      case None =>
        routes := [];
      case Some(rs) =>
        routes := rs;
    }
  }

  // ---------------------------------------------------------------------
  // What the search finds
  // ---------------------------------------------------------------------

  /**
   * The routes the search settles on: none (revenue 0), or a nonempty
   * selection of at most one route per train, taken from the layers, whose
   * exact revenue is the recorded best and above 0.
   */
  lemma AutorouteSound(c: Ctx, lists: seq<seq<Route>>)
    requires |lists| > 0 && AllNonEmpty(lists)
    ensures var r := Explore(c, Best(0, []), [], EmptyMetadata(), BuildFrames(lists));
      || r == Best(0, [])
      || (&& r.revenue > 0
          && r.revenue == RealRevenue(c.routesRevenue, r.routes)
          && |r.routes| > 0
          && Drawn(r.routes, BuildFrames(lists)))
  {
    BuildFramesLayers(lists);
    var frames := BuildFrames(lists);
    var r := Explore(c, Best(0, []), [], EmptyMetadata(), frames);
    ExploreSound(c, Best(0, []), [], EmptyMetadata(), frames);
    assert r.routes[0..] == r.routes;
  }

  /**
   * The search is optimal: when every list is sorted best first with a
   * first revenue of at least 0 and exact revenue never exceeds the summed
   * route revenues, no nonempty selection drawn from the layers whose
   * routes may be scored together earns more than the best found.
   */
  lemma AutorouteOptimal(c: Ctx, lists: seq<seq<Route>>, picks: seq<Route>)
    requires AllNonEmpty(lists)
    requires forall i :: 0 <= i < |lists| ==> BestFirst(lists[i])
    requires RevenueSubadditive(c.routesRevenue)
    requires |picks| > 0 && Drawn(picks, BuildFrames(lists))
    requires OptsOutOfOverlap(c.title) || !PairwiseOverlap(picks)
    ensures |lists| > 0
    ensures Explore(c, Best(0, []), [], EmptyMetadata(), BuildFrames(lists)).revenue >= RealRevenue(c.routesRevenue, picks)
  {
    BuildFramesLayers(lists);
    BuildFramesOk(lists);
    MetadataOfMeaning(picks);
    assert [] + picks == picks;
    assert MetadataOf([]) == EmptyMetadata();
    ExploreOptimal(c, Best(0, []), [], BuildFrames(lists), picks);
  }
}
