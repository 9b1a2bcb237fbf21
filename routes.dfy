/**
 * Trains and candidate routes as the router sees them, and the router's
 * exact-revenue call with its error fallback (`real_revenue`).  The
 * revenue rules belong to the game: the exact revenue of a set of routes
 * is an oracle that either answers or raises.
 */
module Routes {
  import opened Wrappers
  import opened Bitfields
  import opened Tracks

  /** A train: its name (used by train groups), its price (used for ordering) and an identity. */
  datatype Train = Train(name: string, price: int, id: nat)

  /**
   * A candidate route: the train running it, the connection it follows, the
   * revenue the game computed for it alone, and its hexside bitfield.  The
   * search uses the revenue as the route's estimate (auto_router.rb:594-598).
   */
  datatype Route = Route(train: Train, connection: seq<Link>, revenue: int, bitfield: seq<Word>)

  /** The game's exact revenue of a set of routes; None when the game raises. */
  type RevenueOracle = seq<Route> -> Option<int>

  /** `real_revenue`: the game's answer, or -1 when it raises. */
  function RealRevenue(routesRevenue: RevenueOracle, routes: seq<Route>): (r: int)
    ensures routesRevenue(routes).None? ==> r == -1
    ensures routesRevenue(routes).Some? ==> r == routesRevenue(routes).value
  {
    match routesRevenue(routes)
    case None => -1
    case Some(v) => v
  }

  /** The sum of the routes' own revenues. */
  function SumRevenue(routes: seq<Route>): int
  {
    if |routes| == 0 then 0 else SumRevenue(routes[..|routes| - 1]) + routes[|routes| - 1].revenue
  }

  /** Sums split over concatenation. */
  lemma {:induction false} SumRevenueAppend(a: seq<Route>, b: seq<Route>)
    ensures SumRevenue(a + b) == SumRevenue(a) + SumRevenue(b)
    decreases |b|
  {
    if |b| == 0 {
      assert a + b == a;
    } else {
      assert (a + b)[..|a + b| - 1] == a + b[..|b| - 1];
      SumRevenueAppend(a, b[..|b| - 1]);
    }
  }

  /**
   * The assumption the search's pruning rests on, noted as an open question
   * next to `is_worth_adding_trains` (auto_router.rb:540-541): routes run
   * together never earn more than the sum of what each earns alone.
   */
  ghost predicate RevenueSubadditive(routesRevenue: RevenueOracle)
  {
    forall routes: seq<Route> {:trigger RealRevenue(routesRevenue, routes)} :: RealRevenue(routesRevenue, routes) <= SumRevenue(routes)
  }
}
