/**
 * The router's bookkeeping around the path walk (`path`): for each set of
 * paths the walk reaches, assemble them into a connection of node-to-node
 * chains, skip connections already seen, build one candidate route per
 * train and let the trains vote on whether to walk further; at the end,
 * keep each train's best routes.  The walk itself, the routes' revenue and
 * the game's rule checks are outside the model.
 */
module PathWalk {
  import opened Wrappers
  import opened Bitfields
  import opened Tracks
  import opened Hexsides
  import opened Routes

  // ---------------------------------------------------------------------
  // Chain assembly (auto_router.rb:127-165)
  // ---------------------------------------------------------------------

  /** `a` of `a, b = path.nodes`. */
  function FirstNode(p: Path): Option<NodeId>
  {
    if |p.nodes| >= 1 then Some(p.nodes[0]) else None
  }

  /** `b` of `a, b = path.nodes`. */
  function SecondNode(p: Path): Option<NodeId>
  {
    if |p.nodes| >= 2 then Some(p.nodes[1]) else None
  }

  /** No path of the segment touches a node. */
  ghost predicate Quiet(seg: seq<Path>)
  {
    forall k :: 0 <= k < |seg| ==> |seg[k].nodes| == 0
  }

  /** Path j is the only path of the segment that touches a node, and it touches exactly one. */
  ghost predicate LoneNode(seg: seq<Path>, j: int)
  {
    && 0 <= j < |seg|
    && |seg[j].nodes| == 1
    && (forall k :: 0 <= k < |seg| && k != j ==> |seg[k].nodes| == 0)
  }

  /** Exactly one path of the segment touches a node, and that path touches only `left`. */
  ghost predicate LeftFrom(seg: seq<Path>, left: Option<NodeId>)
  {
    exists j :: LoneNode(seg, j) && FirstNode(seg[j]) == left
  }

  /** Exactly one path of the segment touches a node, and it touches one. */
  ghost predicate HasLone(seg: seq<Path>)
  {
    exists j :: LoneNode(seg, j)
  }

  /** The paths not yet closed into a chain, with `left` the one node they touch (if any). */
  ghost predicate Pending(seg: seq<Path>, left: Option<NodeId>)
  {
    if left.None? then Quiet(seg) else LeftFrom(seg, left)
  }

  /**
   * A closed chain, given the ends of the chain before it.  It closes at
   * its last path, which either touches two nodes (the chain's ends, swapped
   * when the first meets the previous left end or the second the previous
   * right end; an earlier lone node is dropped), or touches one node (the
   * right end) after exactly one earlier path touched one node (the left
   * end).
   */
  ghost predicate ChainOk(c: Link, lastLeft: Option<NodeId>, lastRight: Option<NodeId>)
  {
    && |c.paths| >= 1
    && var n := |c.paths|;
       var last := c.paths[n - 1];
       var a, b := FirstNode(last), SecondNode(last);
       if |last.nodes| >= 2 then
         && (Quiet(c.paths[..n - 1]) || HasLone(c.paths[..n - 1]))
         && (if a == lastLeft || b == lastRight then c.left == b && c.right == a else c.left == a && c.right == b)
       else
         && |last.nodes| == 1
         && c.right == a
         && LeftFrom(c.paths[..n - 1], c.left)
  }

  /** The ends of the chain before chain i (none before the first). */
  function PrevLeft(chains: seq<Link>, i: nat): Option<NodeId>
    requires i <= |chains|
  {
    if i == 0 then None else chains[i - 1].left
  }

  function PrevRight(chains: seq<Link>, i: nat): Option<NodeId>
    requires i <= |chains|
  {
    if i == 0 then None else chains[i - 1].right
  }

  ghost predicate ChainsOk(chains: seq<Link>)
  {
    forall i :: 0 <= i < |chains| ==> ChainAt(chains, i)
  }

  /** Chain i is closed as ChainOk says, given the chain before it. */
  ghost predicate ChainAt(chains: seq<Link>, i: nat)
    requires i < |chains|
  {
    ChainOk(chains[i], PrevLeft(chains, i), PrevRight(chains, i))
  }

  /** The paths of the chains, in order. */
  function Flatten(chains: seq<Link>): seq<Path>
  {
    if |chains| == 0 then [] else Flatten(chains[..|chains| - 1]) + chains[|chains| - 1].paths
  }

  lemma FlattenSnoc(chains: seq<Link>, c: Link)
    ensures Flatten(chains + [c]) == Flatten(chains) + c.paths
  {
    assert (chains + [c])[..|chains|] == chains;
  }

  /** Appending a path to the open chain extends the consumed prefix by that path. */
  lemma ExtendOpen(flat: seq<Path>, open: seq<Path>, path: Path, prefix: seq<Path>, next: seq<Path>)
    requires flat + open == prefix && next == prefix + [path]
    ensures flat + (open + [path]) == next
  {
  }

  /** Closing the open chain moves its paths from the open chain into the flattened chains. */
  lemma CloseOpen(chains: seq<Link>, c: Link, done: seq<Path>)
    requires Flatten(chains) + c.paths == done
    ensures Flatten(chains + [c]) + [] == done
  {
    FlattenSnoc(chains, c);
  }

  lemma ChainsOkSnoc(chains: seq<Link>, c: Link)
    requires ChainsOk(chains) && ChainOk(c, PrevLeft(chains, |chains|), PrevRight(chains, |chains|))
    ensures ChainsOk(chains + [c])
  {
    var cs := chains + [c];
    forall i | 0 <= i < |cs|
      ensures ChainAt(cs, i)
    {
      if i < |chains| {
        assert ChainAt(chains, i);
        assert cs[i] == chains[i];
        assert PrevLeft(cs, i) == PrevLeft(chains, i) && PrevRight(cs, i) == PrevRight(chains, i);
      } else {
        assert cs[i] == c;
        assert PrevLeft(cs, i) == PrevLeft(chains, i) && PrevRight(cs, i) == PrevRight(chains, i);
      }
    }
  }

  /**
   * The `assign`/`complete` loop: every path joins the open chain; a path
   * with two nodes closes it, a path with one node opens its left end or,
   * if that is open, closes it.  Afterwards the closed chains followed by
   * the paths still open are the paths in order.
   */
  method AssembleChains(paths: seq<Path>) returns (chains: seq<Link>, left: Option<NodeId>)
    ensures ChainsOk(chains)
    ensures |Flatten(chains)| <= |paths| && paths[..|Flatten(chains)|] == Flatten(chains)
    ensures Pending(paths[|Flatten(chains)|..], left)
  {
    chains := [];
    var chain: seq<Path> := [];
    left := None;
    var right: Option<NodeId> := None;
    var lastLeft: Option<NodeId> := None;
    var lastRight: Option<NodeId> := None;
    for i := 0 to |paths|
      invariant Flatten(chains) + chain == paths[..i]
      invariant right.None?
      invariant Pending(chain, left)
      invariant ChainsOk(chains)
      invariant lastLeft == PrevLeft(chains, |chains|) && lastRight == PrevRight(chains, |chains|)
    {
      var path := paths[i];
      ghost var open := chain;
      chain := chain + [path];
      assert paths[..i + 1] == paths[..i] + [path];
      ExtendOpen(Flatten(chains), open, path, paths[..i], paths[..i + 1]);
      var a, b := FirstNode(path), SecondNode(path);
      if a.Some? || b.Some? {
        if a.Some? && b.Some? {
          if a == lastLeft || b == lastRight {
            left, right := b, a;
          } else {
            left, right := a, b;
          }
          assert Quiet(open) || HasLone(open);
          ClosedByPair(open, path, left, right, lastLeft, lastRight);
          CloseOpen(chains, Link(left, right, chain), paths[..i + 1]);
          ChainsOkSnoc(chains, Link(left, right, chain));
          chains := chains + [Link(left, right, chain)];
          lastLeft, lastRight := left, right;
          left, right := None, None;
          chain := [];
        } else if left.None? {
          left := if a.Some? then a else b;
          OpenedLeft(open, path);
        } else if right.None? {
          right := if a.Some? then a else b;
          ClosedBySingle(open, path, left, lastLeft, lastRight);
          CloseOpen(chains, Link(left, right, chain), paths[..i + 1]);
          ChainsOkSnoc(chains, Link(left, right, chain));
          chains := chains + [Link(left, right, chain)];
          lastLeft, lastRight := left, right;
          left, right := None, None;
          chain := [];
        }
      } else {
        StillPending(open, path, left);
      }
    }
    assert paths[..|paths|] == paths;
    assert paths[|Flatten(chains)|..] == chain;
  }

  /** A path with no node keeps the open chain open. */
  lemma StillPending(open: seq<Path>, path: Path, left: Option<NodeId>)
    requires Pending(open, left) && |path.nodes| == 0
    ensures Pending(open + [path], left)
  {
    var seg := open + [path];
    if left.Some? {
      var j :| LoneNode(open, j) && FirstNode(open[j]) == left;
      assert seg[j] == open[j];
      assert LoneNode(seg, j) by {
        forall k | 0 <= k < |seg| && k != j
          ensures |seg[k].nodes| == 0
        {
          if k < |open| {
            assert seg[k] == open[k];
          }
        }
      }
    } else {
      assert Quiet(seg) by {
        forall k | 0 <= k < |seg|
          ensures |seg[k].nodes| == 0
        {
          if k < |open| {
            assert seg[k] == open[k];
          }
        }
      }
    }
  }

  /** A path with one node opens the left end of a chain with no node yet. */
  lemma OpenedLeft(open: seq<Path>, path: Path)
    requires Pending(open, None) && |path.nodes| == 1
    ensures Pending(open + [path], FirstNode(path))
  {
    var seg := open + [path];
    assert seg[|open|] == path;
    assert LoneNode(seg, |open|) by {
      forall k | 0 <= k < |seg| && k != |open|
        ensures |seg[k].nodes| == 0
      {
        assert seg[k] == open[k];
      }
    }
  }

  /** A path with two nodes closes the chain with those ends. */
  lemma ClosedByPair(open: seq<Path>, path: Path, left: Option<NodeId>, right: Option<NodeId>,
                     lastLeft: Option<NodeId>, lastRight: Option<NodeId>)
    requires Quiet(open) || HasLone(open)
    requires |path.nodes| >= 2
    requires var a, b := FirstNode(path), SecondNode(path);
      if a == lastLeft || b == lastRight then left == b && right == a else left == a && right == b
    ensures ChainOk(Link(left, right, open + [path]), lastLeft, lastRight)
  {
    var seg := open + [path];
    assert seg[..|seg| - 1] == open;
    assert seg[|seg| - 1] == path;
  }

  /** A path with one node closes a chain whose left end is open. */
  lemma ClosedBySingle(open: seq<Path>, path: Path, left: Option<NodeId>, lastLeft: Option<NodeId>, lastRight: Option<NodeId>)
    requires left.Some? && Pending(open, left)
    requires |path.nodes| == 1
    ensures ChainOk(Link(left, FirstNode(path), open + [path]), lastLeft, lastRight)
  {
    var seg := open + [path];
    assert seg[..|seg| - 1] == open;
    assert seg[|seg| - 1] == path;
    assert LeftFrom(seg[..|seg| - 1], left);
  }

  // ---------------------------------------------------------------------
  // Shape of the assembled connection
  // ---------------------------------------------------------------------

  /**
   * A walk in which every path with one or two edges that is not the last
   * is followed by a path with an edge.  This is enough for the encoder
   * (AssembledShaped) but more than it needs: it reads joins only inside a
   * chain, so a path may end a chain and be followed by a path with no
   * edge.
   */
  predicate WalkShaped(paths: seq<Path>)
  {
    forall i :: 0 <= i < |paths| - 1 ==> JoinShaped(paths, i)
  }

  lemma WalkShapedSplit(x: seq<Path>, y: seq<Path>)
    requires WalkShaped(x + y)
    ensures WalkShaped(x) && WalkShaped(y)
  {
    var xy := x + y;
    forall i | 0 <= i < |x| - 1
      ensures JoinShaped(x, i)
    {
      assert JoinShaped(xy, i);
      assert xy[i] == x[i] && xy[i + 1] == x[i + 1];
    }
    forall i | 0 <= i < |y| - 1
      ensures JoinShaped(y, i)
    {
      assert JoinShaped(xy, |x| + i);
      assert xy[|x| + i] == y[i] && xy[|x| + i + 1] == y[i + 1];
    }
  }

  lemma ChainOkEndsAtNode(c: Link, lastLeft: Option<NodeId>, lastRight: Option<NodeId>)
    requires ChainOk(c, lastLeft, lastRight)
    ensures |c.paths| >= 1 && |c.paths[|c.paths| - 1].nodes| >= 1
  {
  }

  /** Chains closed from a well-shaped walk can be encoded. */
  lemma {:induction false} FlattenShaped(chains: seq<Link>)
    requires WalkShaped(Flatten(chains))
    requires forall i :: 0 <= i < |chains| ==> |chains[i].paths| >= 1 && |chains[i].paths[|chains[i].paths| - 1].nodes| >= 1
    ensures ConnectionShaped(chains)
    decreases |chains|
  {
    if |chains| > 0 {
      var init := chains[..|chains| - 1];
      var last := chains[|chains| - 1];
      WalkShapedSplit(Flatten(init), last.paths);
      forall i | 0 <= i < |init|
        ensures init[i] == chains[i]
      {
      }
      FlattenShaped(init);
      forall i | 0 <= i < |chains|
        ensures ChainShaped(chains[i].paths)
      {
        if i < |init| {
          assert ChainShaped(init[i].paths);
        }
      }
    }
  }

  /** The chains and open left end AssembleChains returns for the paths. */
  ghost predicate Assembled(paths: seq<Path>, chains: seq<Link>, left: Option<NodeId>)
  {
    && ChainsOk(chains)
    && |Flatten(chains)| <= |paths| && paths[..|Flatten(chains)|] == Flatten(chains)
    && Pending(paths[|Flatten(chains)|..], left)
  }

  /**
   * What `bitfield_from_connection` needs of the walk: the chains the paths
   * assemble into can be encoded, that is, inside each chain a path with
   * one or two edges is followed by a path with an edge.
   */
  ghost predicate Encodable(paths: seq<Path>)
  {
    forall chains, left :: Assembled(paths, chains, left) ==> ConnectionShaped(chains)
  }

  /** A well-shaped walk is encodable. */
  lemma AssembledShaped(paths: seq<Path>)
    requires WalkShaped(paths)
    ensures Encodable(paths)
  {
    forall chains, left | Assembled(paths, chains, left)
      ensures ConnectionShaped(chains)
    {
      WalkAssembledShaped(paths, chains, left);
    }
  }

  lemma WalkAssembledShaped(paths: seq<Path>, chains: seq<Link>, left: Option<NodeId>)
    requires WalkShaped(paths) && Assembled(paths, chains, left)
    ensures ConnectionShaped(chains)
  {
    var f := Flatten(chains);
    assert paths == f + paths[|f|..];
    WalkShapedSplit(f, paths[|f|..]);
    forall i | 0 <= i < |chains|
      ensures |chains[i].paths| >= 1 && |chains[i].paths[|chains[i].paths| - 1].nodes| >= 1
    {
      assert ChainAt(chains, i);
      ChainOkEndsAtNode(chains[i], PrevLeft(chains, i), PrevRight(chains, i));
    }
    FlattenShaped(chains);
  }

  // ---------------------------------------------------------------------
  // The assembly is determined by the paths
  // ---------------------------------------------------------------------

  /** Chain i is closed as ChainOk says, the chain before the first having ends pl and pr. */
  ghost predicate ChainFrom(chains: seq<Link>, i: nat, pl: Option<NodeId>, pr: Option<NodeId>)
    requires i < |chains|
  {
    if i == 0 then ChainOk(chains[0], pl, pr) else ChainOk(chains[i], chains[i - 1].left, chains[i - 1].right)
  }

  ghost predicate ChainsFrom(chains: seq<Link>, pl: Option<NodeId>, pr: Option<NodeId>)
  {
    forall i :: 0 <= i < |chains| ==> ChainFrom(chains, i, pl, pr)
  }

  lemma ChainsOkFrom(chains: seq<Link>)
    requires ChainsOk(chains)
    ensures ChainsFrom(chains, None, None)
  {
    forall i | 0 <= i < |chains|
      ensures ChainFrom(chains, i, None, None)
    {
      assert ChainAt(chains, i);
    }
  }

  /** Without its first chain, the rest is closed from the first chain's ends. */
  lemma ChainsFromTail(chains: seq<Link>, pl: Option<NodeId>, pr: Option<NodeId>)
    requires ChainsFrom(chains, pl, pr) && |chains| > 0
    ensures ChainOk(chains[0], pl, pr)
    ensures ChainsFrom(chains[1..], chains[0].left, chains[0].right)
  {
    assert ChainFrom(chains, 0, pl, pr);
    var tail := chains[1..];
    forall i | 0 <= i < |tail|
      ensures ChainFrom(tail, i, chains[0].left, chains[0].right)
    {
      assert ChainFrom(chains, i + 1, pl, pr);
      assert tail[i] == chains[i + 1];
      if i > 0 {
        assert tail[i - 1] == chains[i];
      }
    }
  }

  lemma {:induction false} FlattenCons(chains: seq<Link>)
    requires |chains| > 0
    ensures Flatten(chains) == chains[0].paths + Flatten(chains[1..])
    decreases |chains|
  {
    if |chains| == 1 {
      assert chains[..0] == [] && chains[1..] == [];
    } else {
      var init := chains[..|chains| - 1];
      FlattenCons(init);
      assert init[0] == chains[0];
      assert init[1..] == chains[1..][..|chains[1..]| - 1];
      assert chains[1..][|chains[1..]| - 1] == chains[|chains| - 1];
    }
  }

  /** A segment has at most one lone node, so the open left end it gives is determined. */
  lemma PendingUnique(seg: seq<Path>, l1: Option<NodeId>, l2: Option<NodeId>)
    requires Pending(seg, l1) && Pending(seg, l2)
    ensures l1 == l2
  {
    if l1.Some? {
      var j :| LoneNode(seg, j) && FirstNode(seg[j]) == l1;
      assert |seg[j].nodes| == 1;
    }
    if l2.Some? {
      var j :| LoneNode(seg, j) && FirstNode(seg[j]) == l2;
      assert |seg[j].nodes| == 1;
    }
  }

  /** Paths still pending close no chain: a chain over a prefix of them is not ChainOk. */
  lemma PendingNoChain(seg: seq<Path>, left: Option<NodeId>, c: Link, pl: Option<NodeId>, pr: Option<NodeId>)
    requires Pending(seg, left)
    requires |c.paths| <= |seg| && c.paths == seg[..|c.paths|]
    ensures !ChainOk(c, pl, pr)
  {
    var n := |c.paths|;
    assert forall k :: 0 <= k < n ==> c.paths[k] == seg[k];
    if n >= 1 {
      assert forall k :: 0 <= k < n - 1 ==> c.paths[..n - 1][k] == seg[k];
    }
  }

  /** A chain over a prefix of the paths does not close after another one does: d's open paths close nothing. */
  lemma NoLaterClose(paths: seq<Path>, c: Link, d: Link, pl: Option<NodeId>, pr: Option<NodeId>,
                     ql: Option<NodeId>, qr: Option<NodeId>)
    requires ChainOk(c, pl, pr) && ChainOk(d, ql, qr)
    requires |c.paths| <= |paths| && c.paths == paths[..|c.paths|]
    requires |d.paths| <= |paths| && d.paths == paths[..|d.paths|]
    ensures |d.paths| <= |c.paths|
  {
    var n, m := |c.paths|, |d.paths|;
    assert c.paths[n - 1] == paths[n - 1];
    assert forall k :: 0 <= k < n - 1 ==> c.paths[..n - 1][k] == paths[k];
    assert forall k :: 0 <= k < m - 1 ==> d.paths[..m - 1][k] == paths[k];
  }

  /** Two chains over prefixes of the same paths close at the same path. */
  lemma FirstChainSame(paths: seq<Path>, c: Link, d: Link, pl: Option<NodeId>, pr: Option<NodeId>,
                       ql: Option<NodeId>, qr: Option<NodeId>)
    requires ChainOk(c, pl, pr) && ChainOk(d, ql, qr)
    requires |c.paths| <= |paths| && c.paths == paths[..|c.paths|]
    requires |d.paths| <= |paths| && d.paths == paths[..|d.paths|]
    ensures c.paths == d.paths
  {
    NoLaterClose(paths, c, d, pl, pr, ql, qr);
    NoLaterClose(paths, d, c, ql, qr, pl, pr);
  }

  /** Over the same paths and after the same ends, a chain's own ends are determined. */
  lemma ChainOkUnique(c: Link, d: Link, pl: Option<NodeId>, pr: Option<NodeId>)
    requires ChainOk(c, pl, pr) && ChainOk(d, pl, pr) && c.paths == d.paths
    ensures c == d
  {
    var n := |c.paths|;
    if |c.paths[n - 1].nodes| == 1 {
      var prefix := c.paths[..n - 1];
      var j :| LoneNode(prefix, j) && FirstNode(prefix[j]) == c.left;
      var k :| LoneNode(prefix, k) && FirstNode(prefix[k]) == d.left;
      assert |prefix[k].nodes| == 1;
    }
  }

  /** The paths closed into chains start with the first chain's paths and go on with the rest's. */
  lemma FlattenPrefix(paths: seq<Path>, chains: seq<Link>)
    requires |chains| > 0 && |Flatten(chains)| <= |paths| && paths[..|Flatten(chains)|] == Flatten(chains)
    ensures var n, tail := |chains[0].paths|, Flatten(chains[1..]);
      && n + |tail| == |Flatten(chains)|
      && paths[..n] == chains[0].paths
      && paths[n..][..|tail|] == tail
      && paths[n..][|tail|..] == paths[|Flatten(chains)|..]
  {
    FlattenCons(chains);
    var f, n := Flatten(chains), |chains[0].paths|;
    assert paths[..|f|][..n] == paths[..n];
    assert paths[..|f|][n..] == paths[n..][..|f| - n];
  }

  /** Chains closed over paths that are all still pending are none. */
  lemma ClosedNone(paths: seq<Path>, pl: Option<NodeId>, pr: Option<NodeId>, c: seq<Link>, l: Option<NodeId>, left: Option<NodeId>)
    requires ChainsFrom(c, pl, pr) && |Flatten(c)| <= |paths| && paths[..|Flatten(c)|] == Flatten(c)
    requires Pending(paths[|Flatten(c)|..], l)
    requires Pending(paths, left)
    ensures c == [] && l == left
  {
    if |c| == 0 {
      assert paths[|Flatten(c)|..] == paths;
      PendingUnique(paths, l, left);
    } else {
      ChainsFromTail(c, pl, pr);
      FlattenPrefix(paths, c);
      PendingNoChain(paths, left, c[0], pl, pr);
    }
  }

  /** Two assemblies with a chain each start with the same chain, and their rests assemble the same paths. */
  lemma HeadsAgree(paths: seq<Path>, pl: Option<NodeId>, pr: Option<NodeId>, c1: seq<Link>, c2: seq<Link>)
    requires |c1| > 0 && ChainsFrom(c1, pl, pr) && |Flatten(c1)| <= |paths| && paths[..|Flatten(c1)|] == Flatten(c1)
    requires |c2| > 0 && ChainsFrom(c2, pl, pr) && |Flatten(c2)| <= |paths| && paths[..|Flatten(c2)|] == Flatten(c2)
    ensures c1[0] == c2[0] && |c1[0].paths| <= |paths|
    ensures var rest, t1, t2 := paths[|c1[0].paths|..], Flatten(c1[1..]), Flatten(c2[1..]);
      && ChainsFrom(c1[1..], c1[0].left, c1[0].right) && |t1| <= |rest| && rest[..|t1|] == t1
      && rest[|t1|..] == paths[|Flatten(c1)|..]
      && ChainsFrom(c2[1..], c1[0].left, c1[0].right) && |t2| <= |rest| && rest[..|t2|] == t2
      && rest[|t2|..] == paths[|Flatten(c2)|..]
  {
    ChainsFromTail(c1, pl, pr);
    ChainsFromTail(c2, pl, pr);
    FlattenPrefix(paths, c1);
    FlattenPrefix(paths, c2);
    FirstChainSame(paths, c1[0], c2[0], pl, pr, pl, pr);
    ChainOkUnique(c1[0], c2[0], pl, pr);
  }

  lemma {:induction false} AssembledFromUnique(paths: seq<Path>, pl: Option<NodeId>, pr: Option<NodeId>,
                                               c1: seq<Link>, l1: Option<NodeId>, c2: seq<Link>, l2: Option<NodeId>)
    requires ChainsFrom(c1, pl, pr) && |Flatten(c1)| <= |paths| && paths[..|Flatten(c1)|] == Flatten(c1)
    requires Pending(paths[|Flatten(c1)|..], l1)
    requires ChainsFrom(c2, pl, pr) && |Flatten(c2)| <= |paths| && paths[..|Flatten(c2)|] == Flatten(c2)
    requires Pending(paths[|Flatten(c2)|..], l2)
    ensures c1 == c2 && l1 == l2
    decreases |c1|
  {
    if |c1| == 0 {
      assert paths[|Flatten(c1)|..] == paths;
      ClosedNone(paths, pl, pr, c2, l2, l1);
    } else if |c2| == 0 {
      assert paths[|Flatten(c2)|..] == paths;
      ClosedNone(paths, pl, pr, c1, l1, l2);
    } else {
      HeadsAgree(paths, pl, pr, c1, c2);
      AssembledFromUnique(paths[|c1[0].paths|..], c1[0].left, c1[0].right, c1[1..], l1, c2[1..], l2);
      assert c1 == [c1[0]] + c1[1..] && c2 == [c2[0]] + c2[1..];
    }
  }

  /** The paths determine their assembly: each chain closes at the first path that can close it. */
  lemma AssembledUnique(paths: seq<Path>, c1: seq<Link>, l1: Option<NodeId>, c2: seq<Link>, l2: Option<NodeId>)
    requires Assembled(paths, c1, l1) && Assembled(paths, c2, l2)
    ensures c1 == c2 && l1 == l2
  {
    ChainsOkFrom(c1);
    ChainsOkFrom(c2);
    AssembledFromUnique(paths, None, None, c1, l1, c2, l2);
  }

  /** So Visit's precondition asks exactly that the chains AssembleChains returns can be encoded. */
  lemma EncodableExactly(paths: seq<Path>, chains: seq<Link>, left: Option<NodeId>)
    requires Assembled(paths, chains, left)
    ensures Encodable(paths) <==> ConnectionShaped(chains)
  {
    forall c, l | Assembled(paths, c, l)
      ensures c == chains
    {
      AssembledUnique(paths, c, l, chains, left);
    }
  }

  /**
   * Two towns joined by one-edge paths, then a path with no edge between
   * two cities of one tile: encodable, though not a well-shaped walk.
   */
  lemma SameTileJoinEncodable()
    ensures var walk := [Path(["X"], ["e1"]), Path(["Y"], ["e2"]), Path(["Y", "Z"], [])];
      Encodable(walk) && !WalkShaped(walk)
  {
    var p0, p1, p2 := Path(["X"], ["e1"]), Path(["Y"], ["e2"]), Path(["Y", "Z"], []);
    var walk := [p0, p1, p2];
    var first, second := Link(Some("X"), Some("Y"), [p0, p1]), Link(Some("Y"), Some("Z"), [p2]);
    var chains := [first, second];
    assert LoneNode([p0, p1][..1], 0);
    assert ChainAt(chains, 0);
    assert ChainAt(chains, 1) by {
      assert Quiet(second.paths[..0]);
    }
    assert Flatten(chains) == walk by {
      assert chains[..1] == [first];
      assert Flatten([first]) == [p0, p1] by {
        assert [first][..0] == [];
      }
    }
    assert Pending(walk[3..], None);
    assert ChainShaped(first.paths) by {
      assert JoinShaped(first.paths, 0);
    }
    assert ChainShaped(second.paths);
    EncodableExactly(walk, chains, None);
    assert !JoinShaped(walk, 1);
  }

  // ---------------------------------------------------------------------
  // The connection and its key (auto_router.rb:167-187)
  // ---------------------------------------------------------------------

  /**
   * The key of `connections`: a local train's one city, or the chains'
   * paths.  The source sorts the paths into an array; as a key that array
   * stands for the multiset of the paths.
   */
  datatype ConnKey = LocalKey(node: NodeId) | PathsKey(paths: multiset<Path>)

  /**
   * The connection built from the assembled chains and its key: with no
   * chain, nothing when no node was met, else one link from that node alone.
   */
  function ConnectionOf(chains: seq<Link>, left: Option<NodeId>): Option<(ConnKey, seq<Link>)>
  {
    if |chains| == 0 then
      if left.None? then None else Some((LocalKey(left.value), [Link(left, None, [])]))
    else Some((PathsKey(multiset(Flatten(chains))), chains))
  }

  /** A connection built from an encodable walk, the one-city local connection included, can be encoded. */
  lemma ConnectionOfShaped(paths: seq<Path>, chains: seq<Link>, left: Option<NodeId>)
    requires Encodable(paths) && Assembled(paths, chains, left) && ConnectionOf(chains, left).Some?
    ensures ConnectionShaped(ConnectionOf(chains, left).value.1)
  {
    if |chains| > 0 {
      assert ConnectionShaped(chains);
    } else {
      assert ChainShaped([Link(left, None, [])][0].paths);
    }
  }

  /**
   * Two walks share a key exactly when both met no chain and the same lone
   * node, or both closed chains over the same paths, counted with
   * multiplicity.
   */
  lemma SameKey(c1: seq<Link>, l1: Option<NodeId>, c2: seq<Link>, l2: Option<NodeId>)
    requires ConnectionOf(c1, l1).Some? && ConnectionOf(c2, l2).Some?
    ensures ConnectionOf(c1, l1).value.0 == ConnectionOf(c2, l2).value.0 <==>
      (|c1| == 0 && |c2| == 0 && l1 == l2) ||
      (|c1| > 0 && |c2| > 0 && multiset(Flatten(c1)) == multiset(Flatten(c2)))
  {
  }

  // ---------------------------------------------------------------------
  // One candidate route per train, and the vote (auto_router.rb:189-217)
  // ---------------------------------------------------------------------

  /** What pricing a train's route on the connection gives: its revenue, or the error the router tells apart. */
  datatype Priced = Revenue(revenue: int) | RouteTooLong | ReusesCity | Rejected

  /** The game's pricing of a train's route over a connection (`route.revenue`, without the combo checks). */
  type TrainCheck = (Train, seq<Link>) -> Priced

  /**
   * `path_abort` ends empty: a train's route reuses a city, or every
   * train's route is too long (so also when there are no trains).
   */
  predicate Aborts(trains: seq<Train>, connection: seq<Link>, check: TrainCheck)
  {
    || (exists i :: 0 <= i < |trains| && check(trains[i], connection).ReusesCity?)
    || (forall i :: 0 <= i < |trains| ==> check(trains[i], connection).RouteTooLong?)
  }

  /** `path_abort` after the first j trains. */
  function AbortSet(trains: seq<Train>, j: nat, connection: seq<Link>, check: TrainCheck): set<Train>
    requires j <= |trains|
  {
    if exists k :: 0 <= k < j && check(trains[k], connection).ReusesCity? then {}
    else set t | t in trains && !(t in trains[..j] && check(t, connection).RouteTooLong?)
  }

  /** The trains whose route priced, with the revenue, in order. */
  function PricedTrains(trains: seq<Train>, connection: seq<Link>, check: TrainCheck): seq<(Train, int)>
  {
    if |trains| == 0 then []
    else
      var init := PricedTrains(trains[..|trains| - 1], connection, check);
      var t := trains[|trains| - 1];
      match check(t, connection)
      case Revenue(v) => init + [(t, v)]
      case _ => init
  }

  /** A train's routes so far, none before its first. */
  function RoutesFor(trainRoutes: map<Train, seq<Route>>, t: Train): seq<Route>
  {
    if t in trainRoutes then trainRoutes[t] else []
  }

  /** Each route appended, in order, to its train's list. */
  function Recorded(trainRoutes: map<Train, seq<Route>>, routes: seq<Route>): map<Train, seq<Route>>
  {
    if |routes| == 0 then trainRoutes
    else
      var m := Recorded(trainRoutes, routes[..|routes| - 1]);
      var r := routes[|routes| - 1];
      m[r.train := RoutesFor(m, r.train) + [r]]
  }

  lemma RecordedSnoc(trainRoutes: map<Train, seq<Route>>, routes: seq<Route>, r: Route)
    ensures Recorded(trainRoutes, routes + [r]) ==
      Recorded(trainRoutes, routes)[r.train := RoutesFor(Recorded(trainRoutes, routes), r.train) + [r]]
  {
    assert (routes + [r])[..|routes|] == routes;
  }

  /**
   * The routes built for the connection: one per train that priced, in
   * train order, with that train, the connection, the revenue, and a
   * bitfield holding exactly the connection's hexside bits in the table.
   */
  ghost predicate BuiltFor(built: seq<Route>, trains: seq<Train>, connection: seq<Link>, check: TrainCheck,
                           bits: map<HexsideId, nat>)
    requires ConnectionShaped(connection)
  {
    var priced := PricedTrains(trains, connection, check);
    && (forall k :: k in ConnectionKeys(connection) ==> k in bits)
    && |built| == |priced|
    && (forall k :: 0 <= k < |built| ==>
          && built[k].train == priced[k].0
          && built[k].connection == connection
          && built[k].revenue == priced[k].1
          && Bits(built[k].bitfield) == KeyPositions(bits, ConnectionKeys(connection)))
  }

  /** Numbering hexsides that are all numbered already changes nothing. */
  lemma {:induction false} NumberedKnown(t: Table, ks: seq<HexsideId>)
    requires forall k :: k in ks ==> k in t.bits
    ensures Numbered(t, ks) == t
    decreases |ks|
  {
    if |ks| > 0 {
      var init := ks[..|ks| - 1];
      assert forall k :: k in init ==> k in ks;
      NumberedKnown(t, init);
      assert ks[|ks| - 1] in ks;
    }
  }

  /** Numbering the same hexsides twice is numbering them once. */
  lemma NumberedTwice(t: Table, ks: seq<HexsideId>)
    ensures Numbered(Numbered(t, ks), ks) == Numbered(t, ks)
  {
    NumberedExtends(t, ks);
    NumberedKnown(Numbered(t, ks), ks);
  }

  // ---------------------------------------------------------------------
  // The router's state during one path search (auto_router.rb:105-237)
  // ---------------------------------------------------------------------

  /** `connections`, `train_routes` and the hexside table of one `path` call. */
  class PathWalker {
    var connections: map<ConnKey, seq<Link>>
    var trainRoutes: map<Train, seq<Route>>
    const hexsides: HexsideNumbering

    ghost predicate Valid()
      reads hexsides
    {
      hexsides.Valid()
    }

    /** A search starts with no connection, no route and a fresh hexside table (auto_router.rb:110-115). */
    constructor ()
      ensures Valid() && fresh(hexsides)
      ensures connections == map[] && trainRoutes == map[]
      ensures hexsides.bits == map[] && hexsides.nextBit == 0
    {
      connections := map[];
      trainRoutes := map[];
      hexsides := new HexsideNumbering();
    }

    /**
     * The walk's callback for one set of paths: assemble the chains, stop
     * (without aborting) when there is no connection or its key was seen,
     * else record the connection, build each train's route and return the
     * trains' vote.
     */
    method Visit(paths: seq<Path>, trains: seq<Train>, check: TrainCheck)
      returns (abort: bool, chains: seq<Link>, left: Option<NodeId>, ghost built: seq<Route>)
      requires Valid() && Encodable(paths)
      modifies this, hexsides
      ensures Valid()
      ensures Assembled(paths, chains, left)
      ensures Extends(hexsides.Current(), old(hexsides.Current()))
      ensures var conn := ConnectionOf(chains, left);
        conn.None? || conn.value.0 in old(connections) ==>
          && !abort && built == []
          && connections == old(connections) && trainRoutes == old(trainRoutes)
          && hexsides.Current() == old(hexsides.Current())
      ensures var conn := ConnectionOf(chains, left);
        conn.Some? && conn.value.0 !in old(connections) ==>
          && ConnectionShaped(conn.value.1)
          && connections == old(connections)[conn.value.0 := conn.value.1]
          && abort == Aborts(trains, conn.value.1, check)
          && trainRoutes == Recorded(old(trainRoutes), built)
          && (|trains| > 0 ==> BuiltFor(built, trains, conn.value.1, check, hexsides.bits))
          && (|trains| == 0 ==> built == [])
          && hexsides.Current() ==
               (if |trains| > 0 then Numbered(old(hexsides.Current()), ConnectionKeys(conn.value.1))
                else old(hexsides.Current()))
    {
      chains, left := AssembleChains(paths);
      built := [];
      var conn := ConnectionOf(chains, left);
      if conn.None? {
        return false, chains, left, built;
      }
      var (id, connection) := conn.value;
      if id in connections {
        return false, chains, left, built;
      }
      connections := connections[id := connection];
      ConnectionOfShaped(paths, chains, left);
      ghost var t0 := hexsides.Current();
      abort, built := BuildRoutes(trains, connection, check);
      NumberedExtends(t0, ConnectionKeys(connection));
    }

    /**
     * The trains loop: for each train, encode the connection's hexsides and
     * price the train's route; keep a priced route, drop the train from the
     * vote when its route is too long, and clear the vote when it reuses a
     * city.  The branch is aborted when no train is left in the vote.
     */
    method BuildRoutes(trains: seq<Train>, connection: seq<Link>, check: TrainCheck)
      returns (abort: bool, ghost built: seq<Route>)
      requires Valid() && ConnectionShaped(connection)
      modifies this, hexsides
      ensures Valid() && connections == old(connections)
      ensures abort == Aborts(trains, connection, check)
      ensures trainRoutes == Recorded(old(trainRoutes), built)
      ensures |trains| > 0 ==> BuiltFor(built, trains, connection, check, hexsides.bits)
      ensures |trains| > 0 ==> hexsides.Current() == Numbered(old(hexsides.Current()), ConnectionKeys(connection))
      ensures |trains| == 0 ==> built == [] && hexsides.Current() == old(hexsides.Current())
    {
      ghost var t0 := hexsides.Current();
      ghost var start := trainRoutes;
      var pathAbort := set t | t in trains;
      AbortSetStart(trains, connection, check);
      built := [];
      for j := 0 to |trains|
        invariant Valid() && connections == old(connections)
        invariant Voted(trains, j, connection, check, pathAbort, built, t0, start, trainRoutes, hexsides.Current())
      {
        pathAbort, built := VoteStep(trains, j, connection, check, pathAbort, built, t0, start);
      }
      abort := pathAbort == {};
      AbortSetEmpty(trains, connection, check);
      BuiltForAll(built, trains, connection, check, hexsides.bits);
    }

    /** One round of the trains loop, for train j. */
    method VoteStep(trains: seq<Train>, j: nat, connection: seq<Link>, check: TrainCheck,
                    pathAbort: set<Train>, ghost built: seq<Route>, ghost t0: Table, ghost start: map<Train, seq<Route>>)
      returns (pathAbort': set<Train>, ghost built': seq<Route>)
      requires j < |trains| && Valid() && ConnectionShaped(connection)
      requires Voted(trains, j, connection, check, pathAbort, built, t0, start, trainRoutes, hexsides.Current())
      modifies this, hexsides
      ensures Valid() && connections == old(connections)
      ensures Voted(trains, j + 1, connection, check, pathAbort', built', t0, start, trainRoutes, hexsides.Current())
    {
      ghost var keys := ConnectionKeys(connection);
      var train := trains[j];
      var bitfield := hexsides.BitfieldFromConnection(connection);
      if j > 0 {
        NumberedTwice(t0, keys);
      }
      AbortSetStep(trains, j, connection, check);
      BuiltForStep(built, trains, j, connection, check, hexsides.bits, bitfield);
      pathAbort' := pathAbort;
      built' := built;
      match check(train, connection) {
        case Revenue(revenue) =>
          var route := Route(train, connection, revenue, bitfield);
          Record(route, start, built);
          built' := built + [route];
        case RouteTooLong =>
          pathAbort' := pathAbort - {train};
        case ReusesCity =>
          pathAbort' := {};
        case Rejected =>
      }
    }

    /** `train_routes[route.train] << route`. */
    method Record(route: Route, ghost start: map<Train, seq<Route>>, ghost built: seq<Route>)
      requires trainRoutes == Recorded(start, built)
      modifies this
      ensures trainRoutes == Recorded(start, built + [route])
      ensures connections == old(connections)
    {
      RecordedSnoc(start, built, route);
      trainRoutes := trainRoutes[route.train := RoutesFor(trainRoutes, route.train) + [route]];
    }

    /**
     * The last step of `path`: each train keeps its best `route_limit`
     * routes, highest revenue first.
     */
    method KeepBest(routeLimit: nat)
      modifies this
      ensures connections == old(connections)
      ensures trainRoutes.Keys == old(trainRoutes).Keys
      ensures forall t :: t in trainRoutes ==> trainRoutes[t] == TopRoutes(old(trainRoutes)[t], routeLimit)
    {
      trainRoutes := map t | t in trainRoutes :: TopRoutes(trainRoutes[t], routeLimit);
    }
  }

  /** One more train in the vote: a reused city clears it, a too-long route drops that train. */
  lemma AbortSetStep(trains: seq<Train>, j: nat, connection: seq<Link>, check: TrainCheck)
    requires j < |trains|
    ensures check(trains[j], connection).ReusesCity? ==> AbortSet(trains, j + 1, connection, check) == {}
    ensures check(trains[j], connection).RouteTooLong? ==>
      AbortSet(trains, j + 1, connection, check) == AbortSet(trains, j, connection, check) - {trains[j]}
    ensures !check(trains[j], connection).ReusesCity? && !check(trains[j], connection).RouteTooLong? ==>
      AbortSet(trains, j + 1, connection, check) == AbortSet(trains, j, connection, check)
  {
    assert trains[..j + 1] == trains[..j] + [trains[j]];
    assert forall t :: t in trains[..j + 1] <==> t in trains[..j] || t == trains[j];
  }

  /** The priced trains among the first j + 1: those among the first j, and train j if it priced. */
  lemma PricedTrainsStep(trains: seq<Train>, j: nat, connection: seq<Link>, check: TrainCheck)
    requires j < |trains|
    ensures check(trains[j], connection).Revenue? ==>
      PricedTrains(trains[..j + 1], connection, check) ==
        PricedTrains(trains[..j], connection, check) + [(trains[j], check(trains[j], connection).revenue)]
    ensures !check(trains[j], connection).Revenue? ==>
      PricedTrains(trains[..j + 1], connection, check) == PricedTrains(trains[..j], connection, check)
  {
    assert trains[..j + 1][..j] == trains[..j];
  }

  /** The routes of the first j + 1 trains: those of the first j, and train j's if it priced. */
  lemma BuiltForStep(built: seq<Route>, trains: seq<Train>, j: nat, connection: seq<Link>, check: TrainCheck,
                     bits: map<HexsideId, nat>, bitfield: seq<Word>)
    requires j < |trains| && ConnectionShaped(connection)
    requires forall k :: k in ConnectionKeys(connection) ==> k in bits
    requires Bits(bitfield) == KeyPositions(bits, ConnectionKeys(connection))
    requires j == 0 ==> built == []
    requires j > 0 ==> BuiltFor(built, trains[..j], connection, check, bits)
    ensures check(trains[j], connection).Revenue? ==>
      BuiltFor(built + [Route(trains[j], connection, check(trains[j], connection).revenue, bitfield)],
               trains[..j + 1], connection, check, bits)
    ensures !check(trains[j], connection).Revenue? ==> BuiltFor(built, trains[..j + 1], connection, check, bits)
  {
    PricedTrainsStep(trains, j, connection, check);
    if j == 0 {
      assert trains[..0] == [];
    }
  }

  /**
   * The state of the trains loop after the first j trains: the trains
   * still voting against the abort, the routes recorded and built so far,
   * and the hexside table (numbered for the connection once a train has
   * been priced).
   */
  ghost predicate Voted(trains: seq<Train>, j: nat, connection: seq<Link>, check: TrainCheck,
                        pathAbort: set<Train>, built: seq<Route>, t0: Table, start: map<Train, seq<Route>>,
                        routes: map<Train, seq<Route>>, current: Table)
    requires ConnectionShaped(connection)
  {
    && j <= |trains|
    && pathAbort == AbortSet(trains, j, connection, check)
    && routes == Recorded(start, built)
    && (j == 0 ==> built == [] && current == t0)
    && (j > 0 ==>
          && current == Numbered(t0, ConnectionKeys(connection))
          && BuiltFor(built, trains[..j], connection, check, current.bits))
  }

  /** Routes built for every train of the prefix that is the whole list. */
  lemma BuiltForAll(built: seq<Route>, trains: seq<Train>, connection: seq<Link>, check: TrainCheck,
                    bits: map<HexsideId, nat>)
    requires ConnectionShaped(connection)
    ensures BuiltFor(built, trains[..|trains|], connection, check, bits) == BuiltFor(built, trains, connection, check, bits)
  {
    assert trains[..|trains|] == trains;
  }

  /** Before any train is priced every train still votes against aborting. */
  lemma AbortSetStart(trains: seq<Train>, connection: seq<Link>, check: TrainCheck)
    ensures AbortSet(trains, 0, connection, check) == set t | t in trains
  {
    assert trains[..0] == [];
  }

  /** The vote at the end is empty exactly when Aborts says so. */
  lemma AbortSetEmpty(trains: seq<Train>, connection: seq<Link>, check: TrainCheck)
    ensures AbortSet(trains, |trains|, connection, check) == {} <==> Aborts(trains, connection, check)
  {
    assert trains[..|trains|] == trains;
    if !(exists k :: 0 <= k < |trains| && check(trains[k], connection).ReusesCity?) {
      var left := set t | t in trains && !check(t, connection).RouteTooLong?;
      assert AbortSet(trains, |trains|, connection, check) == left;
      if forall t :: t in trains ==> check(t, connection).RouteTooLong? {
        assert forall t :: t !in left;
      } else {
        var t :| t in trains && !check(t, connection).RouteTooLong?;
        assert t in left;
      }
      assert (forall i :: 0 <= i < |trains| ==> check(trains[i], connection).RouteTooLong?) <==>
             (forall t :: t in trains ==> check(t, connection).RouteTooLong?);
    }
  }

  // ---------------------------------------------------------------------
  // Keeping each train's best routes (auto_router.rb:233-235)
  // ---------------------------------------------------------------------

  /** Highest revenue first. */
  predicate Descending(routes: seq<Route>)
  {
    forall i, j :: 0 <= i < j < |routes| ==> routes[i].revenue >= routes[j].revenue
  }

  /** Put a route in front of the first route that earns no more than it. */
  function Insert(r: Route, sorted: seq<Route>): seq<Route>
  {
    if |sorted| == 0 || sorted[0].revenue <= r.revenue then [r] + sorted
    else [sorted[0]] + Insert(r, sorted[1..])
  }

  /** `sort_by(&:revenue).reverse`: by revenue, highest first. */
  function SortDescending(routes: seq<Route>): seq<Route>
  {
    if |routes| == 0 then [] else Insert(routes[0], SortDescending(routes[1..]))
  }

  /** `.take(route_limit)` of the sorted routes. */
  function TopRoutes(routes: seq<Route>, limit: nat): seq<Route>
  {
    var sorted := SortDescending(routes);
    if |sorted| <= limit then sorted else sorted[..limit]
  }

  /** A route heads a descending sequence when it earns at least every later route. */
  lemma DescendingCons(x: Route, s: seq<Route>)
    ensures Descending([x] + s) <==> Descending(s) && forall y :: y in s ==> y.revenue <= x.revenue
  {
    var xs := [x] + s;
    if Descending(xs) {
      forall i, j | 0 <= i < j < |s|
        ensures s[i].revenue >= s[j].revenue
      {
        assert xs[i + 1] == s[i] && xs[j + 1] == s[j];
      }
      forall y | y in s
        ensures y.revenue <= x.revenue
      {
        var k :| 0 <= k < |s| && s[k] == y;
        assert xs[0] == x && xs[k + 1] == y;
        assert xs[0].revenue >= xs[k + 1].revenue;
      }
    }
    if Descending(s) && forall y :: y in s ==> y.revenue <= x.revenue {
      forall i, j | 0 <= i < j < |xs|
        ensures xs[i].revenue >= xs[j].revenue
      {
        assert xs[j] == s[j - 1] && xs[j] in s;
        if i > 0 {
          assert xs[i] == s[i - 1];
        }
      }
    }
  }

  lemma {:induction false} InsertKeeps(r: Route, sorted: seq<Route>)
    requires Descending(sorted)
    ensures Descending(Insert(r, sorted))
    ensures multiset(Insert(r, sorted)) == multiset(sorted) + multiset{r}
    ensures |Insert(r, sorted)| == |sorted| + 1
  {
    InsertCounts(r, sorted);
    InsertOrders(r, sorted);
  }

  /** Inserting adds exactly the one route. */
  lemma {:induction false} InsertCounts(r: Route, sorted: seq<Route>)
    ensures multiset(Insert(r, sorted)) == multiset(sorted) + multiset{r}
    ensures |Insert(r, sorted)| == |sorted| + 1
    decreases |sorted|
  {
    if |sorted| > 0 && sorted[0].revenue > r.revenue {
      var tail := sorted[1..];
      InsertCounts(r, tail);
      assert sorted == [sorted[0]] + tail;
      assert multiset(sorted) == multiset{sorted[0]} + multiset(tail);
      assert multiset(Insert(r, sorted)) == multiset{sorted[0]} + multiset(Insert(r, tail));
    }
  }

  /** Inserting into a descending sequence keeps it descending. */
  lemma {:induction false} InsertOrders(r: Route, sorted: seq<Route>)
    requires Descending(sorted)
    ensures Descending(Insert(r, sorted))
    decreases |sorted|
  {
    if |sorted| > 0 && sorted[0].revenue > r.revenue {
      var head := sorted[0];
      var tail := sorted[1..];
      assert sorted == [head] + tail;
      DescendingCons(head, tail);
      InsertOrders(r, tail);
      var ins := Insert(r, tail);
      InsertCounts(r, tail);
      forall y | y in ins
        ensures y.revenue <= head.revenue
      {
        assert y in multiset(ins);
      }
      DescendingCons(head, ins);
    } else {
      if |sorted| > 0 {
        DescendingCons(sorted[0], sorted[1..]);
        assert sorted == [sorted[0]] + sorted[1..];
      }
      DescendingCons(r, sorted);
    }
  }

  /** Sorting orders the routes highest revenue first and keeps every route. */
  lemma {:induction false} SortDescendingSorts(routes: seq<Route>)
    ensures Descending(SortDescending(routes))
    ensures multiset(SortDescending(routes)) == multiset(routes)
    ensures |SortDescending(routes)| == |routes|
    decreases |routes|
  {
    if |routes| > 0 {
      SortDescendingSorts(routes[1..]);
      InsertKeeps(routes[0], SortDescending(routes[1..]));
      assert routes == [routes[0]] + routes[1..];
    }
  }

  /**
   * The kept routes: highest revenue first, min(limit, n) of them, taken
   * from the train's routes, and no route left out earns more than a kept
   * one.
   */
  lemma TopRoutesBest(routes: seq<Route>, limit: nat)
    ensures var top := TopRoutes(routes, limit);
      && Descending(top)
      && |top| == (if |routes| <= limit then |routes| else limit)
      && multiset(top) <= multiset(routes)
      && forall x, i :: x in multiset(routes) - multiset(top) && 0 <= i < |top| ==> x.revenue <= top[i].revenue
  {
    SortDescendingSorts(routes);
    var sorted := SortDescending(routes);
    var top := TopRoutes(routes, limit);
    PrefixOfDescending(sorted, |top|);
  }

  /** A prefix of a descending sequence is descending, and earns at least everything after it. */
  lemma PrefixOfDescending(sorted: seq<Route>, n: nat)
    requires Descending(sorted) && n <= |sorted|
    ensures Descending(sorted[..n])
    ensures multiset(sorted[..n]) <= multiset(sorted)
    ensures forall x, i :: x in multiset(sorted) - multiset(sorted[..n]) && 0 <= i < n ==> x.revenue <= sorted[i].revenue
  {
    var top := sorted[..n];
    var rest := sorted[n..];
    assert sorted == top + rest;
    assert multiset(sorted) == multiset(top) + multiset(rest);
    forall x, i | x in multiset(sorted) - multiset(top) && 0 <= i < n
      ensures x.revenue <= sorted[i].revenue
    {
      assert x in multiset(rest);
      var k :| 0 <= k < |rest| && rest[k] == x;
      assert sorted[n + k] == x;
    }
  }
}
