/**
 * The older exhaustive combination builder (`js_evaluate_combos`).  Combos
 * start from each route of the first train; every later train extends each
 * combo built so far with each of its routes that conflicts with none of
 * the combo's routes.  Every combo built is offered to the game's combo
 * check, and those that pass are kept when they earn the most seen so far.
 *
 * The combos are given as a function (AllCombos) that the method is proved
 * to follow, and the lemmas say what that means: every combo is a
 * conflict-free draw of one route per train from increasing trains starting
 * with the first, every such draw is built, and the kept combos are exactly
 * the checked ones at the maximum revenue.
 */
module Combos {
  import opened Bitfields
  import opened Routes

  /** A combo: its running revenue and its routes, in train order. */
  datatype Combo = Combo(revenue: int, routes: seq<Route>)

  /** `max_revenue` with `possibilities`. */
  datatype Tally = Tally(maxRevenue: int, possibilities: seq<Combo>)

  /** The game's combo check (`is_valid_combo`, which runs `check_other!` on every route). */
  type ComboCheck = seq<Route> -> bool

  // ---------------------------------------------------------------------
  // Conflict with a combo (auto_router.rb:502-514)
  // ---------------------------------------------------------------------

  /** Some route of the combo shares a hexside word bit with the test route. */
  predicate AnyConflict(routes: seq<Route>, testRoute: Route)
  {
    exists k :: 0 <= k < |routes| && Conflicts(routes[k].bitfield, testRoute.bitfield)
  }

  /**
   * `js_route_bitfield_conflicts`: the bitfield test against each route of
   * the combo in turn, stopping at the first conflict.
   */
  method ComboConflicts(combo: Combo, testRoute: Route) returns (conflict: bool)
    ensures conflict == AnyConflict(combo.routes, testRoute)
    ensures conflict <==>
      exists k :: 0 <= k < |combo.routes| && Bits(combo.routes[k].bitfield) * Bits(testRoute.bitfield) != iset{}
  {
    for k := 0 to |combo.routes|
      invariant forall i :: 0 <= i < k ==> !Conflicts(combo.routes[i].bitfield, testRoute.bitfield)
    {
      conflict := BitfieldsConflict(combo.routes[k].bitfield, testRoute.bitfield);
      if conflict {
        AnyConflictMeaning(combo.routes, testRoute);
        return;
      }
    }
    conflict := false;
    AnyConflictMeaning(combo.routes, testRoute);
  }

  lemma AnyConflictMeaning(routes: seq<Route>, testRoute: Route)
    ensures AnyConflict(routes, testRoute) <==>
      exists k :: 0 <= k < |routes| && Bits(routes[k].bitfield) * Bits(testRoute.bitfield) != iset{}
  {
    forall k | 0 <= k < |routes|
      ensures Conflicts(routes[k].bitfield, testRoute.bitfield) <==> Bits(routes[k].bitfield) * Bits(testRoute.bitfield) != iset{}
    {
      ConflictsIffSharedBit(routes[k].bitfield, testRoute.bitfield);
    }
  }

  // ---------------------------------------------------------------------
  // The combos, in the order they are built (auto_router.rb:382-457)
  // ---------------------------------------------------------------------

  /** One combo per route of the first train. */
  function Seeds(routes: seq<Route>): (cs: seq<Combo>)
    ensures |cs| == |routes|
    ensures forall i :: 0 <= i < |routes| ==> cs[i] == Combo(routes[i].revenue, [routes[i]])
  {
    if |routes| == 0 then []
    else Seeds(routes[..|routes| - 1]) + [Combo(routes[|routes| - 1].revenue, [routes[|routes| - 1]])]
  }

  /** The combo extended by one route. */
  function Extended(combo: Combo, route: Route): Combo
  {
    Combo(combo.revenue + route.revenue, combo.routes + [route])
  }

  /** The conflict-free extensions of the combos, in order, by one route. */
  function ExtendOne(combos: seq<Combo>, route: Route): seq<Combo>
  {
    if |combos| == 0 then []
    else
      var init := ExtendOne(combos[..|combos| - 1], route);
      var combo := combos[|combos| - 1];
      if AnyConflict(combo.routes, route) then init else init + [Extended(combo, route)]
  }

  /** `new_combos` for one train: route by route, each combo in turn. */
  function ExtendAll(combos: seq<Combo>, routes: seq<Route>): seq<Combo>
  {
    if |routes| == 0 then []
    else ExtendAll(combos, routes[..|routes| - 1]) + ExtendOne(combos, routes[|routes| - 1])
  }

  /** `combos` once the first t trains are done. */
  function Generated(lists: seq<seq<Route>>, t: nat): seq<Combo>
    requires 1 <= t <= |lists|
  {
    if t == 1 then Seeds(lists[0])
    else
      var g := Generated(lists, t - 1);
      g + ExtendAll(g, lists[t - 1])
  }

  /** Every combo built, in order. */
  function AllCombos(lists: seq<seq<Route>>): seq<Combo>
    requires |lists| > 0
  {
    Generated(lists, |lists|)
  }

  // ---------------------------------------------------------------------
  // Keeping the best (auto_router.rb:392-401, 444-453)
  // ---------------------------------------------------------------------

  /** A combo that passes the check and earns at least the best restarts or joins the kept list. */
  function TallyStep(check: ComboCheck, t: Tally, c: Combo): Tally
  {
    if check(c.routes) && c.revenue >= t.maxRevenue then
      if c.revenue > t.maxRevenue then Tally(c.revenue, [c]) else Tally(t.maxRevenue, t.possibilities + [c])
    else t
  }

  /** The tally after the combos, starting from 0 and nothing kept. */
  function Tallied(check: ComboCheck, cs: seq<Combo>): Tally
  {
    if |cs| == 0 then Tally(0, []) else TallyStep(check, Tallied(check, cs[..|cs| - 1]), cs[|cs| - 1])
  }

  lemma TalliedSnoc(check: ComboCheck, cs: seq<Combo>, c: Combo)
    ensures Tallied(check, cs + [c]) == TallyStep(check, Tallied(check, cs), c)
  {
    assert (cs + [c])[..|cs|] == cs;
  }

  /** The largest revenue among the combos that pass the check, or 0 if none earns more. */
  function MaxChecked(check: ComboCheck, cs: seq<Combo>): (m: int)
    ensures m >= 0
  {
    if |cs| == 0 then 0
    else
      var m := MaxChecked(check, cs[..|cs| - 1]);
      var c := cs[|cs| - 1];
      if check(c.routes) && c.revenue > m then c.revenue else m
  }

  /** The combos that pass the check and earn exactly m, in order. */
  function CheckedAt(check: ComboCheck, cs: seq<Combo>, m: int): seq<Combo>
  {
    if |cs| == 0 then []
    else
      var init := CheckedAt(check, cs[..|cs| - 1], m);
      var c := cs[|cs| - 1];
      if check(c.routes) && c.revenue == m then init + [c] else init
  }

  /** MaxChecked bounds every checked revenue, and is 0 or the revenue of a checked combo. */
  lemma {:induction false} MaxCheckedIsMax(check: ComboCheck, cs: seq<Combo>)
    ensures forall i :: 0 <= i < |cs| && check(cs[i].routes) ==> cs[i].revenue <= MaxChecked(check, cs)
    ensures MaxChecked(check, cs) == 0 ||
      exists i :: 0 <= i < |cs| && check(cs[i].routes) && cs[i].revenue == MaxChecked(check, cs)
    decreases |cs|
  {
    if |cs| > 0 {
      var init := cs[..|cs| - 1];
      MaxCheckedIsMax(check, init);
      forall i | 0 <= i < |init|
        ensures cs[i] == init[i]
      {
      }
    }
  }

  /** Nothing passes at a revenue above every checked revenue. */
  lemma {:induction false} CheckedAtAboveMax(check: ComboCheck, cs: seq<Combo>, m: int)
    requires forall i :: 0 <= i < |cs| && check(cs[i].routes) ==> cs[i].revenue < m
    ensures CheckedAt(check, cs, m) == []
    decreases |cs|
  {
    if |cs| > 0 {
      var init := cs[..|cs| - 1];
      forall i | 0 <= i < |init| && check(init[i].routes)
        ensures init[i].revenue < m
      {
        assert init[i] == cs[i];
      }
      CheckedAtAboveMax(check, init, m);
    }
  }

  /**
   * The tally is an independent reading of the combos: its maximum is the
   * largest checked revenue (0 if none is larger), and it keeps exactly the
   * checked combos at that revenue, in the order they were built.
   */
  lemma {:induction false} TalliedMeaning(check: ComboCheck, cs: seq<Combo>)
    ensures Tallied(check, cs).maxRevenue == MaxChecked(check, cs)
    ensures Tallied(check, cs).possibilities == CheckedAt(check, cs, MaxChecked(check, cs))
    decreases |cs|
  {
    if |cs| > 0 {
      var init := cs[..|cs| - 1];
      var c := cs[|cs| - 1];
      TalliedMeaning(check, init);
      var m := MaxChecked(check, init);
      if check(c.routes) && c.revenue > m {
        MaxCheckedIsMax(check, init);
        CheckedAtAboveMax(check, init, c.revenue);
      }
    }
  }

  /** A combo is kept at m exactly when it is one of the combos, passes the check and earns m. */
  lemma {:induction false} CheckedAtMembers(check: ComboCheck, cs: seq<Combo>, m: int, x: Combo)
    ensures x in CheckedAt(check, cs, m) <==> x in cs && check(x.routes) && x.revenue == m
    decreases |cs|
  {
    if |cs| > 0 {
      var init := cs[..|cs| - 1];
      CheckedAtMembers(check, init, m, x);
      assert cs == init + [cs[|cs| - 1]];
    }
  }

  // ---------------------------------------------------------------------
  // What the combos are
  // ---------------------------------------------------------------------

  /**
   * idx names, for each route, the train it was drawn from: train 0 first,
   * strictly increasing, all among the first t trains.
   */
  predicate Indexes(routes: seq<Route>, lists: seq<seq<Route>>, idx: seq<nat>, t: nat)
  {
    && t <= |lists|
    && |idx| == |routes| > 0
    && idx[0] == 0
    && (forall k, l :: 0 <= k < l < |idx| ==> idx[k] < idx[l])
    && (forall k :: 0 <= k < |idx| ==> idx[k] < t && routes[k] in lists[idx[k]])
  }

  /** The routes are one route each from increasing trains among the first t, starting with train 0. */
  ghost predicate DrawnFrom(routes: seq<Route>, lists: seq<seq<Route>>, t: nat)
  {
    exists idx :: Indexes(routes, lists, idx, t)
  }

  /** No two routes share a hexside word bit. */
  ghost predicate ConflictFree(routes: seq<Route>)
  {
    forall i, j :: 0 <= i < j < |routes| ==> !Conflicts(routes[i].bitfield, routes[j].bitfield)
  }

  /** What every combo built is: its revenue is its routes' sum, its routes are conflict-free and drawn as above. */
  ghost predicate WellBuilt(c: Combo, lists: seq<seq<Route>>, t: nat)
  {
    && c.revenue == SumRevenue(c.routes)
    && ConflictFree(c.routes)
    && DrawnFrom(c.routes, lists, t)
  }

  /** x is the conflict-free extension of c by r. */
  predicate Extends(c: Combo, r: Route, x: Combo)
  {
    !AnyConflict(c.routes, r) && x == Extended(c, r)
  }

  /** Each extension comes from some combo. */
  lemma {:induction false} ExtendOneSound(combos: seq<Combo>, route: Route, x: Combo) returns (i: nat)
    requires x in ExtendOne(combos, route)
    ensures i < |combos| && Extends(combos[i], route, x)
    decreases |combos|
  {
    var init := combos[..|combos| - 1];
    if x in ExtendOne(init, route) {
      i := ExtendOneSound(init, route, x);
      assert combos[i] == init[i];
    } else {
      i := |combos| - 1;
    }
  }

  /** Each conflict-free combo is extended. */
  lemma {:induction false} ExtendOneComplete(combos: seq<Combo>, route: Route, i: nat, x: Combo)
    requires i < |combos| && Extends(combos[i], route, x)
    ensures x in ExtendOne(combos, route)
    decreases |combos|
  {
    var init := combos[..|combos| - 1];
    if i < |init| {
      assert combos[i] == init[i];
      ExtendOneComplete(init, route, i, x);
    }
  }

  /** Each new combo of a train is the conflict-free extension of an old combo by one of its routes. */
  lemma {:induction false} ExtendAllSound(combos: seq<Combo>, routes: seq<Route>, x: Combo) returns (i: nat, j: nat)
    requires x in ExtendAll(combos, routes)
    ensures i < |combos| && j < |routes| && Extends(combos[i], routes[j], x)
    decreases |routes|
  {
    var init := routes[..|routes| - 1];
    var last := routes[|routes| - 1];
    if x in ExtendAll(combos, init) {
      i, j := ExtendAllSound(combos, init, x);
      assert routes[j] == init[j];
    } else {
      i := ExtendOneSound(combos, last, x);
      j := |routes| - 1;
    }
  }

  /** Each conflict-free extension of an old combo by one of the train's routes is a new combo. */
  lemma {:induction false} ExtendAllComplete(combos: seq<Combo>, routes: seq<Route>, i: nat, j: nat, x: Combo)
    requires i < |combos| && j < |routes| && Extends(combos[i], routes[j], x)
    ensures x in ExtendAll(combos, routes)
    decreases |routes|
  {
    var init := routes[..|routes| - 1];
    var last := routes[|routes| - 1];
    assert ExtendAll(combos, routes) == ExtendAll(combos, init) + ExtendOne(combos, last);
    if j < |init| {
      assert routes[j] == init[j];
      ExtendAllComplete(combos, init, i, j, x);
    } else {
      ExtendOneComplete(combos, last, i, x);
    }
  }

  lemma WellBuiltLater(c: Combo, lists: seq<seq<Route>>, t: nat, u: nat)
    requires WellBuilt(c, lists, t) && t <= u <= |lists|
    ensures WellBuilt(c, lists, u)
  {
    var idx :| Indexes(c.routes, lists, idx, t);
    assert Indexes(c.routes, lists, idx, u);
  }

  lemma SumRevenueSnoc(routes: seq<Route>, route: Route)
    ensures SumRevenue(routes + [route]) == SumRevenue(routes) + route.revenue
  {
    assert (routes + [route])[..|routes|] == routes;
  }

  /** A conflict-free extension by a route of train t of a combo built from the first t trains is well built. */
  lemma ExtendedWellBuilt(c: Combo, route: Route, lists: seq<seq<Route>>, t: nat)
    requires WellBuilt(c, lists, t) && t < |lists| && route in lists[t] && !AnyConflict(c.routes, route)
    ensures WellBuilt(Extended(c, route), lists, t + 1)
  {
    var routes := c.routes + [route];
    SumRevenueSnoc(c.routes, route);
    var idx :| Indexes(c.routes, lists, idx, t);
    var idx' := idx + [t];
    assert Indexes(routes, lists, idx', t + 1) by {
      forall k | 0 <= k < |idx'|
        ensures idx'[k] < t + 1 && routes[k] in lists[idx'[k]]
      {
        if k < |idx| {
          assert routes[k] == c.routes[k] && idx'[k] == idx[k];
        }
      }
    }
    forall i, j | 0 <= i < j < |routes|
      ensures !Conflicts(routes[i].bitfield, routes[j].bitfield)
    {
      if j < |c.routes| {
        assert routes[i] == c.routes[i] && routes[j] == c.routes[j];
      } else {
        assert routes[i] == c.routes[i] && routes[j] == route;
      }
    }
  }

  /** The first train's combos are well built. */
  lemma SeedWellBuilt(lists: seq<seq<Route>>, i: nat)
    requires |lists| > 0 && i < |lists[0]|
    ensures WellBuilt(Seeds(lists[0])[i], lists, 1)
  {
    var r := lists[0][i];
    SumRevenueSnoc([], r);
    assert [] + [r] == [r];
    assert Indexes([r], lists, [0], 1);
  }

  /** Every combo built from the first t trains is well built. */
  lemma {:induction false} GeneratedWellBuilt(lists: seq<seq<Route>>, t: nat, x: Combo)
    requires 1 <= t <= |lists| && x in Generated(lists, t)
    ensures WellBuilt(x, lists, t)
    decreases t, 1
  {
    if t == 1 {
      var i :| 0 <= i < |lists[0]| && x == Seeds(lists[0])[i];
      SeedWellBuilt(lists, i);
    } else {
      var g := Generated(lists, t - 1);
      assert Generated(lists, t) == g + ExtendAll(g, lists[t - 1]);
      if x in g {
        GeneratedWellBuilt(lists, t - 1, x);
        WellBuiltLater(x, lists, t - 1, t);
      } else {
        NewComboWellBuilt(lists, t, x);
      }
    }
  }

  /** The combos a train adds are well built. */
  lemma {:induction false} NewComboWellBuilt(lists: seq<seq<Route>>, t: nat, x: Combo)
    requires 2 <= t <= |lists| && x in ExtendAll(Generated(lists, t - 1), lists[t - 1])
    ensures WellBuilt(x, lists, t)
    decreases t, 0
  {
    var g := Generated(lists, t - 1);
    var i, j := ExtendAllSound(g, lists[t - 1], x);
    var c, r := g[i], lists[t - 1][j];
    assert x == Extended(c, r) && !AnyConflict(c.routes, r);
    GeneratedWellBuilt(lists, t - 1, c);
    ExtendedWellBuilt(c, r, lists, t - 1);
  }

  /** A draw whose last route comes from train t - 1: its prefix is a conflict-free draw from the first t - 1 trains. */
  lemma DrawnPrefix(lists: seq<seq<Route>>, t: nat, routes: seq<Route>, idx: seq<nat>)
    requires Indexes(routes, lists, idx, t) && ConflictFree(routes)
    requires |routes| > 1 && idx[|routes| - 1] == t - 1
    ensures 1 <= t - 1
    ensures Indexes(routes[..|routes| - 1], lists, idx[..|routes| - 1], t - 1)
    ensures ConflictFree(routes[..|routes| - 1])
    ensures !AnyConflict(routes[..|routes| - 1], routes[|routes| - 1])
    ensures routes[|routes| - 1] in lists[t - 1]
  {
    var n := |routes|;
    var prefix := routes[..n - 1];
    var r := routes[n - 1];
    assert idx[0] < idx[n - 1];
    assert Indexes(prefix, lists, idx[..n - 1], t - 1) by {
      forall k | 0 <= k < n - 1
        ensures idx[..n - 1][k] < t - 1 && prefix[k] in lists[idx[..n - 1][k]]
      {
        assert idx[k] < idx[n - 1];
      }
    }
    assert ConflictFree(prefix) by {
      forall i, j | 0 <= i < j < |prefix|
        ensures !Conflicts(prefix[i].bitfield, prefix[j].bitfield)
      {
        assert prefix[i] == routes[i] && prefix[j] == routes[j];
      }
    }
    assert !AnyConflict(prefix, r) by {
      forall k | 0 <= k < |prefix|
        ensures !Conflicts(prefix[k].bitfield, r.bitfield)
      {
        assert prefix[k] == routes[k];
      }
    }
  }

  /** Every conflict-free draw from the first t trains is built, with its routes' sum as revenue. */
  lemma {:induction false} GeneratedComplete(lists: seq<seq<Route>>, t: nat, routes: seq<Route>, idx: seq<nat>)
    requires 1 <= t && Indexes(routes, lists, idx, t) && ConflictFree(routes)
    ensures Combo(SumRevenue(routes), routes) in Generated(lists, t)
    decreases t
  {
    var n := |routes|;
    if idx[n - 1] < t - 1 {
      assert Indexes(routes, lists, idx, t - 1);
      GeneratedComplete(lists, t - 1, routes, idx);
      var g := Generated(lists, t - 1);
      assert Generated(lists, t) == g + ExtendAll(g, lists[t - 1]);
    } else if n == 1 {
      SeedComplete(lists, t, routes, idx);
    } else {
      var prefix := routes[..n - 1];
      var r := routes[n - 1];
      DrawnPrefix(lists, t, routes, idx);
      GeneratedComplete(lists, t - 1, prefix, idx[..n - 1]);
      ExtendComplete(lists, t, prefix, r);
      assert prefix + [r] == routes;
    }
  }

  /** A one-route draw is a seed. */
  lemma SeedComplete(lists: seq<seq<Route>>, t: nat, routes: seq<Route>, idx: seq<nat>)
    requires 1 <= t && Indexes(routes, lists, idx, t) && |routes| == 1 && idx[0] == t - 1
    ensures Combo(SumRevenue(routes), routes) in Generated(lists, t)
  {
    var r := routes[0];
    var j :| 0 <= j < |lists[0]| && lists[0][j] == r;
    assert Seeds(lists[0])[j] == Combo(r.revenue, [r]);
    SumRevenueSnoc([], r);
    assert [] + [r] == [r] == routes;
  }

  /** A built combo extended, without conflict, by a route of train t - 1 is built. */
  lemma ExtendComplete(lists: seq<seq<Route>>, t: nat, prefix: seq<Route>, r: Route)
    requires 2 <= t <= |lists| && Combo(SumRevenue(prefix), prefix) in Generated(lists, t - 1)
    requires !AnyConflict(prefix, r) && r in lists[t - 1]
    ensures Combo(SumRevenue(prefix + [r]), prefix + [r]) in Generated(lists, t)
  {
    var g := Generated(lists, t - 1);
    assert Generated(lists, t) == g + ExtendAll(g, lists[t - 1]);
    var c := Combo(SumRevenue(prefix), prefix);
    var i :| 0 <= i < |g| && g[i] == c;
    var j :| 0 <= j < |lists[t - 1]| && lists[t - 1][j] == r;
    SumRevenueSnoc(prefix, r);
    var x := Extended(c, r);
    assert x == Combo(SumRevenue(prefix + [r]), prefix + [r]);
    ExtendAllComplete(g, lists[t - 1], i, j, x);
    assert x in g + ExtendAll(g, lists[t - 1]);
  }

  /**
   * What `js_evaluate_combos` finds: every kept combo is a conflict-free
   * draw of one route per train (train 0 first, increasing trains) that
   * passes the check and earns the maximum; no conflict-free draw that
   * passes the check earns more; and every one that earns the maximum is
   * kept.
   */
  lemma CombosOptimal(check: ComboCheck, lists: seq<seq<Route>>)
    requires |lists| > 0
    ensures var tally := Tallied(check, AllCombos(lists));
      && tally.maxRevenue >= 0
      && (forall c :: c in tally.possibilities ==>
            WellBuilt(c, lists, |lists|) && check(c.routes) && c.revenue == tally.maxRevenue)
      && (forall routes, idx :: Indexes(routes, lists, idx, |lists|) && ConflictFree(routes) && check(routes) ==>
            && SumRevenue(routes) <= tally.maxRevenue
            && (SumRevenue(routes) == tally.maxRevenue ==> Combo(SumRevenue(routes), routes) in tally.possibilities))
  {
    var cs := AllCombos(lists);
    var tally := Tallied(check, cs);
    TalliedMeaning(check, cs);
    MaxCheckedIsMax(check, cs);
    forall c | c in tally.possibilities
      ensures WellBuilt(c, lists, |lists|) && check(c.routes) && c.revenue == tally.maxRevenue
    {
      CheckedAtMembers(check, cs, tally.maxRevenue, c);
      GeneratedWellBuilt(lists, |lists|, c);
    }
    forall routes, idx | Indexes(routes, lists, idx, |lists|) && ConflictFree(routes) && check(routes)
      ensures SumRevenue(routes) <= tally.maxRevenue
      ensures SumRevenue(routes) == tally.maxRevenue ==> Combo(SumRevenue(routes), routes) in tally.possibilities
    {
      GeneratedComplete(lists, |lists|, routes, idx);
      CheckedAtMembers(check, cs, tally.maxRevenue, Combo(SumRevenue(routes), routes));
    }
  }

  // ---------------------------------------------------------------------
  // js_evaluate_combos (auto_router.rb:354-476)
  // ---------------------------------------------------------------------

  /** The routes of each combo, in order. */
  function RoutesOf(cs: seq<Combo>): (rs: seq<seq<Route>>)
    ensures |rs| == |cs|
    ensures forall i :: 0 <= i < |cs| ==> rs[i] == cs[i].routes
  {
    if |cs| == 0 then [] else RoutesOf(cs[..|cs| - 1]) + [cs[|cs| - 1].routes]
  }

  /**
   * `js_evaluate_combos`: build the combos train by train, tally each one as
   * it is built, and return the routes of the kept ones.  An empty train
   * list is not accepted (`js_evaluate_combos` in `auto_router.rb` reads the first train's routes).
   */
  method EvaluateCombos(sortedRoutes: seq<seq<Route>>, check: ComboCheck) returns (possibilities: seq<seq<Route>>)
    requires |sortedRoutes| > 0
    ensures possibilities == RoutesOf(Tallied(check, AllCombos(sortedRoutes)).possibilities)
  {
    var combos, maxRevenue, kept := SeedCombos(sortedRoutes[0], check);
    for train := 1 to |sortedRoutes|
      invariant combos == Generated(sortedRoutes, train)
      invariant Tally(maxRevenue, kept) == Tallied(check, combos)
    {
      var newCombos: seq<Combo>;
      newCombos, maxRevenue, kept := ExtendTrain(combos, sortedRoutes[train], check, maxRevenue, kept);
      combos := combos + newCombos;
    }
    possibilities := [];
    for p := 0 to |kept|
      invariant possibilities == RoutesOf(kept[..p])
    {
      assert kept[..p + 1][..p] == kept[..p];
      possibilities := possibilities + [kept[p].routes];
    }
    assert kept[..|kept|] == kept;
  }

  /** The first train's loop: one combo per route, tallied as built. */
  method SeedCombos(first: seq<Route>, check: ComboCheck) returns (combos: seq<Combo>, maxRevenue: int, kept: seq<Combo>)
    ensures combos == Seeds(first)
    ensures Tally(maxRevenue, kept) == Tallied(check, combos)
  {
    combos, maxRevenue, kept := [], 0, [];
    for r := 0 to |first|
      invariant combos == Seeds(first[..r])
      invariant Tally(maxRevenue, kept) == Tallied(check, combos)
    {
      var route := first[r];
      var combo := Combo(route.revenue, [route]);
      TalliedSnoc(check, combos, combo);
      assert first[..r + 1][..r] == first[..r];
      combos := combos + [combo];
      maxRevenue, kept := Keep(check, maxRevenue, kept, combo);
    }
    assert first[..|first|] == first;
  }

  /** The accumulate step: keep, restart at a larger revenue, or leave unchanged. */
  method Keep(check: ComboCheck, maxRevenue: int, kept: seq<Combo>, combo: Combo) returns (maxRevenue': int, kept': seq<Combo>)
    ensures Tally(maxRevenue', kept') == TallyStep(check, Tally(maxRevenue, kept), combo)
  {
    maxRevenue', kept' := maxRevenue, kept;
    if check(combo.routes) {
      if combo.revenue >= maxRevenue {
        if combo.revenue > maxRevenue {
          kept' := [];
          maxRevenue' := combo.revenue;
        }
        kept' := kept' + [combo];
      }
    }
  }

  /** One pass of the train loop: the new combos route by route, each combo in turn, tallied as built. */
  method ExtendTrain(combos: seq<Combo>, routes: seq<Route>, check: ComboCheck, maxRevenue: int, kept: seq<Combo>)
    returns (newCombos: seq<Combo>, maxRevenue': int, kept': seq<Combo>)
    requires Tally(maxRevenue, kept) == Tallied(check, combos)
    ensures newCombos == ExtendAll(combos, routes)
    ensures Tally(maxRevenue', kept') == Tallied(check, combos + newCombos)
  {
    newCombos, maxRevenue', kept' := [], maxRevenue, kept;
    assert combos + newCombos == combos;
    for rt := 0 to |routes|
      invariant newCombos == ExtendAll(combos, routes[..rt])
      invariant Tally(maxRevenue', kept') == Tallied(check, combos + newCombos)
    {
      assert routes[..rt + 1][..rt] == routes[..rt];
      newCombos, maxRevenue', kept' := ExtendRoute(combos, routes[rt], check, newCombos, maxRevenue', kept');
    }
    assert routes[..|routes|] == routes;
  }

  /** The inner loop: each combo in turn, extended by the route unless they conflict. */
  method ExtendRoute(combos: seq<Combo>, route: Route, check: ComboCheck, before: seq<Combo>, maxRevenue: int, kept: seq<Combo>)
    returns (newCombos: seq<Combo>, maxRevenue': int, kept': seq<Combo>)
    requires Tally(maxRevenue, kept) == Tallied(check, combos + before)
    ensures newCombos == before + ExtendOne(combos, route)
    ensures Tally(maxRevenue', kept') == Tallied(check, combos + newCombos)
  {
    newCombos, maxRevenue', kept' := before, maxRevenue, kept;
    assert before + ExtendOne(combos[..0], route) == before;
    for c := 0 to |combos|
      invariant newCombos == before + ExtendOne(combos[..c], route)
      invariant Tally(maxRevenue', kept') == Tallied(check, combos + newCombos)
    {
      var combo := combos[c];
      assert combos[..c + 1][..c] == combos[..c];
      var conflict := ComboConflicts(combo, route);
      if !conflict {
        var newCombo := Combo(combo.revenue + route.revenue, combo.routes + [route]);
        TalliedSnoc(check, combos + newCombos, newCombo);
        assert combos + (newCombos + [newCombo]) == (combos + newCombos) + [newCombo];
        newCombos := newCombos + [newCombo];
        maxRevenue', kept' := Keep(check, maxRevenue', kept', newCombo);
      }
    }
    assert combos[..|combos|] == combos;
  }
}
