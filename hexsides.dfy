/**
 * The hexside bit table and the bitfield encoder of a connection
 * (`check_edge_and_set`, `check_and_set` and `bitfield_from_connection`).
 * During one path search every hexside id (an edge id, or a node id for a
 * one-path chain) receives a bit number the first time it is seen, counting
 * up from 0; a route's bitfield is the set of the bits of the hexsides it
 * uses, so two routes conflict exactly when they share a hexside.
 */
module Hexsides {
  import opened Wrappers
  import opened Bitfields
  import opened Tracks

  type HexsideId = string

  /** The hexside table as a value: the id-to-bit map and the next unused bit number. */
  datatype Table = Table(bits: map<HexsideId, nat>, next: nat)

  /** Bit numbers are distinct, all below the counter, and exactly the counter many are in use. */
  predicate WellNumbered(t: Table)
  {
    && (forall k :: k in t.bits ==> t.bits[k] < t.next)
    && (forall k, k' :: k in t.bits && k' in t.bits && t.bits[k] == t.bits[k'] ==> k == k')
    && |t.bits| == t.next
  }

  /** The table after one `check_edge_and_set` of hexside k. */
  function Step(t: Table, k: HexsideId): Table
  {
    if k in t.bits then t else Table(t.bits[k := t.next], t.next + 1)
  }

  /** The table after numbering the hexsides of keys in order. */
  function Numbered(t: Table, keys: seq<HexsideId>): Table
  {
    if |keys| == 0 then t else Step(Numbered(t, keys[..|keys| - 1]), keys[|keys| - 1])
  }

  /** Table u keeps every number table t gave out. */
  predicate Extends(u: Table, t: Table)
  {
    forall k :: k in t.bits ==> k in u.bits && u.bits[k] == t.bits[k]
  }

  /** One step keeps old numbers and numbers k: with its old number if it had one, else with the counter. */
  lemma StepExtends(t: Table, k: HexsideId)
    ensures Extends(Step(t, k), t)
    ensures k in Step(t, k).bits
    ensures k in t.bits ==> Step(t, k) == t
    ensures k !in t.bits ==> Step(t, k).bits[k] == t.next && Step(t, k).next == t.next + 1
  {
  }

  /** One step keeps a table well numbered. */
  lemma StepNumbers(t: Table, k: HexsideId)
    requires WellNumbered(t)
    ensures WellNumbered(Step(t, k))
  {
  }

  /** Numbering a key sequence keeps a table well numbered. */
  lemma {:induction false} NumberedNumbers(t: Table, keys: seq<HexsideId>)
    requires WellNumbered(t)
    ensures WellNumbered(Numbered(t, keys))
    decreases |keys|
  {
    if |keys| > 0 {
      NumberedNumbers(t, keys[..|keys| - 1]);
      StepNumbers(Numbered(t, keys[..|keys| - 1]), keys[|keys| - 1]);
    }
  }

  /** Numbering a key sequence keeps old numbers, numbers every key, and uses at most one new number per key. */
  lemma {:induction false} NumberedExtends(t: Table, keys: seq<HexsideId>)
    ensures Extends(Numbered(t, keys), t)
    ensures forall k :: k in keys ==> k in Numbered(t, keys).bits
    ensures t.next <= Numbered(t, keys).next <= t.next + |keys|
    decreases |keys|
  {
    if |keys| > 0 {
      var init := keys[..|keys| - 1];
      NumberedExtends(t, init);
      StepExtends(Numbered(t, init), keys[|keys| - 1]);
      assert keys == init + [keys[|keys| - 1]];
    }
  }

  /** Numbering a then b is numbering a + b. */
  lemma {:induction false} NumberedAppend(t: Table, a: seq<HexsideId>, b: seq<HexsideId>)
    ensures Numbered(t, a + b) == Numbered(Numbered(t, a), b)
    decreases |b|
  {
    if |b| == 0 {
      assert a + b == a;
    } else {
      assert (a + b)[..|a + b| - 1] == a + b[..|b| - 1];
      NumberedAppend(t, a, b[..|b| - 1]);
    }
  }

  /** Numbering one more key is one more step. */
  lemma NumberedSnoc(t: Table, keys: seq<HexsideId>, k: HexsideId)
    ensures Numbered(t, keys + [k]) == Step(Numbered(t, keys), k)
  {
    assert (keys + [k])[..|keys|] == keys;
  }

  /** The bit positions of the hexsides in ks under the table's numbering. */
  ghost function KeyPositions(bits: map<HexsideId, nat>, ks: seq<HexsideId>): iset<Pos>
    requires forall k :: k in ks ==> k in bits
  {
    iset k | k in ks :: PosOf(bits[k])
  }

  lemma KeyPositionsSnoc(bits: map<HexsideId, nat>, ks: seq<HexsideId>, k: HexsideId)
    requires forall k' :: k' in ks + [k] ==> k' in bits
    ensures KeyPositions(bits, ks + [k]) == KeyPositions(bits, ks) + iset{PosOf(bits[k])}
  {
    assert forall k' :: k' in ks + [k] <==> k' in ks || k' == k;
  }

  /** Hexside bitfields conflict exactly when the routes share a hexside. */
  lemma ConflictIffSharedHexside(t: Table, ks1: seq<HexsideId>, ks2: seq<HexsideId>, a: seq<Word>, b: seq<Word>)
    requires WellNumbered(t)
    requires forall k :: k in ks1 ==> k in t.bits
    requires forall k :: k in ks2 ==> k in t.bits
    requires Bits(a) == KeyPositions(t.bits, ks1) && Bits(b) == KeyPositions(t.bits, ks2)
    ensures Conflicts(a, b) <==> exists k :: k in ks1 && k in ks2
  {
    ConflictsIffSharedBit(a, b);
    if Conflicts(a, b) {
      var p :| p in Bits(a) * Bits(b);
      var k1 :| k1 in ks1 && p == PosOf(t.bits[k1]);
      var k2 :| k2 in ks2 && p == PosOf(t.bits[k2]);
      PosOfInjective(t.bits[k1], t.bits[k2]);
      assert k1 in ks1 && k1 in ks2;
    }
    if exists k :: k in ks1 && k in ks2 {
      var k :| k in ks1 && k in ks2;
      assert PosOf(t.bits[k]) in Bits(a) * Bits(b);
    }
  }

  /** Numbering later hexsides does not change what an earlier bitfield stands for. */
  lemma KeyPositionsStable(t: Table, u: Table, ks: seq<HexsideId>)
    requires forall k :: k in ks ==> k in t.bits
    requires Extends(u, t)
    ensures forall k :: k in ks ==> k in u.bits
    ensures KeyPositions(u.bits, ks) == KeyPositions(t.bits, ks)
  {
  }

  // ---------------------------------------------------------------------
  // The keys bitfield_from_connection visits (auto_router.rb:285-323)
  // ---------------------------------------------------------------------

  /** The shape bitfield_from_connection relies on: it reads these nodes and edges without a nil check. */
  predicate ChainShaped(paths: seq<Path>)
  {
    && (|paths| == 1 ==> |paths[0].nodes| >= 1)
    && (forall i :: 0 <= i < |paths| - 1 ==> JoinShaped(paths, i))
  }

  /** A path joined by one or two edges is followed by a path with an edge. */
  predicate JoinShaped(paths: seq<Path>, i: nat)
    requires i + 1 < |paths|
  {
    1 <= |paths[i].edges| <= 2 ==> |paths[i + 1].edges| >= 1
  }

  predicate ConnectionShaped(connection: seq<Link>)
  {
    forall i :: 0 <= i < |connection| ==> ChainShaped(connection[i].paths)
  }

  /** The hexsides one step from path index to path index + 1 visits, by the edge count of the first path. */
  function JoinKeys(paths: seq<Path>, index: nat): seq<HexsideId>
    requires index + 1 < |paths| && ChainShaped(paths)
  {
    var node1 := paths[index];
    var node2 := paths[index + 1];
    assert JoinShaped(paths, index);
    if |node1.edges| == 1 then [node1.edges[0], node2.edges[0]]
    else if |node1.edges| == 2 then [node1.edges[0], node1.edges[1], node1.edges[1], node2.edges[0]]
    else []
  }

  /** The hexsides of the first n steps of a chain of several paths. */
  function JoinsKeys(paths: seq<Path>, n: nat): seq<HexsideId>
    requires (n == 0 || n < |paths|) && ChainShaped(paths)
  {
    if n == 0 then [] else JoinsKeys(paths, n - 1) + JoinKeys(paths, n - 1)
  }

  /**
   * The hexsides of one chain: a single path contributes its node ids (the
   * intra-tile special case), a longer chain its joins' edge ids.
   */
  function ChainKeys(paths: seq<Path>): seq<HexsideId>
    requires ChainShaped(paths)
  {
    if |paths| == 1 then
      [paths[0].nodes[0]] + (if |paths[0].nodes| > 1 then [paths[0].nodes[1]] else [])
    else if |paths| == 0 then []
    else JoinsKeys(paths, |paths| - 1)
  }

  /** No join yet: no hexsides after the earlier ones. */
  lemma JoinsKeysNone(before: seq<HexsideId>, paths: seq<Path>)
    requires ChainShaped(paths)
    ensures before + JoinsKeys(paths, 0) == before
  {
    assert JoinsKeys(paths, 0) == [];
  }

  /** One join more: its hexsides follow those of the joins before it. */
  lemma JoinsKeysSnoc(before: seq<HexsideId>, paths: seq<Path>, n: nat)
    requires 0 < n < |paths| && ChainShaped(paths)
    ensures before + JoinsKeys(paths, n) == (before + JoinsKeys(paths, n - 1)) + JoinKeys(paths, n - 1)
  {
  }

  /** All the joins of a chain of several paths are the chain's hexsides. */
  lemma JoinsKeysAll(paths: seq<Path>)
    requires 2 <= |paths| && ChainShaped(paths)
    ensures JoinsKeys(paths, |paths| - 1) == ChainKeys(paths)
  {
  }

  lemma ShapedPrefix(connection: seq<Link>, n: nat)
    requires ConnectionShaped(connection) && n <= |connection|
    ensures ConnectionShaped(connection[..n])
  {
    assert forall i :: 0 <= i < n ==> connection[..n][i] == connection[i];
  }

  lemma ConnectionKeysSnoc(connection: seq<Link>, c: nat)
    requires ConnectionShaped(connection) && c < |connection|
    ensures ConnectionShaped(connection[..c]) && ChainShaped(connection[c].paths)
    ensures ConnectionKeys(connection[..c + 1]) == ConnectionKeys(connection[..c]) + ChainKeys(connection[c].paths)
  {
    ShapedPrefix(connection, c + 1);
    ShapedPrefix(connection, c);
    assert connection[..c + 1][..c] == connection[..c];
    assert connection[..c + 1][c] == connection[c];
  }

  /** The hexsides of a whole connection, chain by chain. */
  function ConnectionKeys(connection: seq<Link>): seq<HexsideId>
    requires ConnectionShaped(connection)
  {
    if |connection| == 0 then []
    else ConnectionKeys(connection[..|connection| - 1]) + ChainKeys(connection[|connection| - 1].paths)
  }

  /** Every hexside ConnectionKeys lists is a node or edge id of some path of the connection. */
  lemma {:induction false} ConnectionKeysFromPaths(connection: seq<Link>, k: HexsideId)
    requires ConnectionShaped(connection)
    requires k in ConnectionKeys(connection)
    ensures exists i, j ::
      && 0 <= i < |connection| && 0 <= j < |connection[i].paths|
      && (k in connection[i].paths[j].nodes || k in connection[i].paths[j].edges)
    decreases |connection|
  {
    var last := |connection| - 1;
    var init := connection[..last];
    ShapedPrefix(connection, last);
    if k in ConnectionKeys(init) {
      ConnectionKeysFromPaths(init, k);
      var i, j :|
        && 0 <= i < |init| && 0 <= j < |init[i].paths|
        && (k in init[i].paths[j].nodes || k in init[i].paths[j].edges);
      assert init[i] == connection[i];
    } else {
      var j := ChainKeyFromPath(connection[last].paths, k);
    }
  }

  lemma ChainKeyFromPath(paths: seq<Path>, k: HexsideId) returns (j: nat)
    requires ChainShaped(paths) && k in ChainKeys(paths)
    ensures j < |paths| && (k in paths[j].nodes || k in paths[j].edges)
  {
    if |paths| == 1 {
      j := 0;
    } else {
      j := JoinKeyFromPath(paths, |paths| - 1, k);
    }
  }

  lemma {:induction false} JoinKeyFromPath(paths: seq<Path>, n: nat, k: HexsideId) returns (j: nat)
    requires n < |paths| && ChainShaped(paths) && k in JoinsKeys(paths, n)
    ensures j < |paths| && (k in paths[j].nodes || k in paths[j].edges)
    decreases n
  {
    assert JoinShaped(paths, n - 1);
    if k in JoinsKeys(paths, n - 1) {
      j := JoinKeyFromPath(paths, n - 1, k);
    } else if k in paths[n - 1].edges {
      j := n - 1;
    } else {
      j := n;
    }
  }

  /**
   * What one `check_edge_and_set` does to the table and the bitfield, told
   * against the hexsides visited since the table was t0.
   */
  lemma VisitStep(t0: Table, before: seq<HexsideId>, edge: HexsideId, t: Table, a: seq<Word>, r: seq<Word>)
    requires t == Numbered(t0, before)
    requires forall k :: k in before ==> k in t.bits
    requires Bits(a) == KeyPositions(t.bits, before)
    requires Bits(r) == Bits(a) + iset{PosOf(Step(t, edge).bits[edge])}
    ensures Step(t, edge) == Numbered(t0, before + [edge])
    ensures forall k :: k in before + [edge] ==> k in Step(t, edge).bits
    ensures Bits(r) == KeyPositions(Step(t, edge).bits, before + [edge])
  {
    StepExtends(t, edge);
    KeyPositionsStable(t, Step(t, edge), before);
    NumberedSnoc(t0, before, edge);
    KeyPositionsSnoc(Step(t, edge).bits, before, edge);
  }

  // ---------------------------------------------------------------------
  // The table object (auto_router.rb:123-124, 325-338)
  // ---------------------------------------------------------------------

  /**
   * The `hexside_bits` hash of one path search together with the router's
   * `@next_hexside_bit` counter, both reset when a search starts.
   */
  class HexsideNumbering {
    var bits: map<HexsideId, nat>
    var nextBit: nat

    ghost predicate Valid()
      reads this
    {
      WellNumbered(Table(bits, nextBit))
    }

    function Current(): Table
      reads this
    {
      Table(bits, nextBit)
    }

    /**
     * The table is t0 after numbering the hexsides visited, in order, and
     * the bitfield holds exactly their bits.
     */
    ghost predicate Encodes(bitfield: seq<Word>, t0: Table, visited: seq<HexsideId>)
      reads this
    {
      && Current() == Numbered(t0, visited)
      && (forall k :: k in visited ==> k in bits)
      && Bits(bitfield) == KeyPositions(bits, visited)
    }

    /** A fresh search: an empty table and the counter at 0. */
    constructor()
      ensures Valid() && bits == map[] && nextBit == 0
    {
      bits := map[];
      nextBit := 0;
    }

    /**
     * `check_edge_and_set`: a known hexside keeps its bit, a new one takes
     * the counter's value and the counter moves on; the hexside's bit is
     * then set in the bitfield.  Told against the hexsides visited since the
     * table was t0, the bitfield stands for exactly those hexsides, edge
     * included.
     */
    method CheckEdgeAndSet(bitfield: seq<Word>, edge: HexsideId, ghost t0: Table, ghost before: seq<HexsideId>)
      returns (r: seq<Word>)
      requires Encodes(bitfield, t0, before)
      modifies this
      ensures Current() == Step(old(Current()), edge)
      ensures Encodes(r, t0, before + [edge])
    {
      ghost var t := Current();
      StepExtends(t, edge);
      if edge in bits {
        r := SetBit(bitfield, bits[edge]);
      } else {
        bits := bits[edge := nextBit];
        r := SetBit(bitfield, nextBit);
        nextBit := nextBit + 1;
      }
      VisitStep(t0, before, edge, t, bitfield, r);
    }

    /** `check_and_set`: both hexsides of a join, left first. */
    method CheckAndSet(bitfield: seq<Word>, left: HexsideId, right: HexsideId, ghost t0: Table, ghost before: seq<HexsideId>)
      returns (r: seq<Word>)
      requires Encodes(bitfield, t0, before)
      modifies this
      ensures Encodes(r, t0, before + [left, right])
    {
      r := CheckEdgeAndSet(bitfield, left, t0, before);
      r := CheckEdgeAndSet(r, right, t0, before + [left]);
      assert before + [left] + [right] == before + [left, right];
    }

    /**
     * `bitfield_from_connection`: start from [0] and set the bit of every
     * hexside the connection's chains visit, numbering new hexsides as they
     * come.  The result stands for exactly the connection's hexsides.
     */
    method BitfieldFromConnection(connection: seq<Link>) returns (bitfield: seq<Word>)
      requires Valid() && ConnectionShaped(connection)
      modifies this
      ensures Valid()
      ensures Current() == Numbered(old(Current()), ConnectionKeys(connection))
      ensures forall k :: k in ConnectionKeys(connection) ==> k in bits
      ensures Bits(bitfield) == KeyPositions(bits, ConnectionKeys(connection))
    {
      bitfield := [0];
      ZeroWordsAreEmpty(bitfield);
      ghost var t0 := Current();
      var c := 0;
      while c < |connection|
        invariant c <= |connection|
        invariant Encodes(bitfield, t0, ConnectionKeys(connection[..c]))
      {
        ConnectionKeysSnoc(connection, c);
        bitfield := ChainBitfield(bitfield, connection[c].paths, t0, ConnectionKeys(connection[..c]));
        c := c + 1;
      }
      assert connection[..c] == connection;
      NumberedNumbers(t0, ConnectionKeys(connection));
    }

    /** The bits of one chain of the connection. */
    method ChainBitfield(bitfield: seq<Word>, paths: seq<Path>, ghost t0: Table, ghost before: seq<HexsideId>)
      returns (r: seq<Word>)
      requires ChainShaped(paths)
      requires Encodes(bitfield, t0, before)
      modifies this
      ensures Encodes(r, t0, before + ChainKeys(paths))
    {
      if |paths| == 1 {
        r := SinglePathBitfield(bitfield, paths[0], t0, before);
        assert [paths[0]] == paths;
      } else if |paths| == 0 {
        // (paths.size - 1).times runs no iteration: a local train's chain adds nothing
        r := bitfield;
        assert before + ChainKeys(paths) == before;
      } else {
        r := JoinsBitfield(bitfield, paths, t0, before);
      }
    }

    /** The tiny intra-tile chain of one path: its first node id and, when present, its second. */
    method SinglePathBitfield(bitfield: seq<Word>, path: Path, ghost t0: Table, ghost before: seq<HexsideId>)
      returns (r: seq<Word>)
      requires |path.nodes| >= 1
      requires Encodes(bitfield, t0, before)
      modifies this
      ensures Encodes(r, t0, before + ChainKeys([path]))
    {
      var hexsideLeft := path.nodes[0];
      r := CheckEdgeAndSet(bitfield, hexsideLeft, t0, before);
      if |path.nodes| > 1 {
        var hexsideRight := path.nodes[1];
        r := CheckEdgeAndSet(r, hexsideRight, t0, before + [hexsideLeft]);
        assert before + [hexsideLeft] + [hexsideRight] == before + ChainKeys([path]);
      }
    }

    /** A chain of several paths: the hexsides of each join from path index to index + 1. */
    method JoinsBitfield(bitfield: seq<Word>, paths: seq<Path>, ghost t0: Table, ghost before: seq<HexsideId>)
      returns (r: seq<Word>)
      requires ChainShaped(paths) && |paths| >= 2
      requires Encodes(bitfield, t0, before)
      modifies this
      ensures Encodes(r, t0, before + ChainKeys(paths))
    {
      r := JoinsUpTo(bitfield, paths, t0, before);
      JoinsKeysAll(paths);
    }

    /** The joins loop: after it every join of the chain has been encoded. */
    method JoinsUpTo(bitfield: seq<Word>, paths: seq<Path>, ghost t0: Table, ghost before: seq<HexsideId>)
      returns (r: seq<Word>)
      requires ChainShaped(paths) && |paths| >= 1
      requires Encodes(bitfield, t0, before)
      modifies this
      ensures Encodes(r, t0, before + JoinsKeys(paths, |paths| - 1))
    {
      r := bitfield;
      var index := 0;
      ghost var visited := before;
      JoinsKeysNone(before, paths);
      while index < |paths| - 1
        invariant index <= |paths| - 1
        invariant visited == before + JoinsKeys(paths, index)
        invariant Encodes(r, t0, visited)
      {
        r := JoinBitfield(r, paths, index, t0, visited);
        JoinsKeysSnoc(before, paths, index + 1);
        visited := visited + JoinKeys(paths, index);
        index := index + 1;
      }
    }

    /** One join: by the edge count of path index, the hexsides it shares with path index + 1. */
    method JoinBitfield(bitfield: seq<Word>, paths: seq<Path>, index: nat, ghost t0: Table, ghost done: seq<HexsideId>)
      returns (r: seq<Word>)
      requires ChainShaped(paths) && index + 1 < |paths|
      requires Encodes(bitfield, t0, done)
      modifies this
      ensures Encodes(r, t0, done + JoinKeys(paths, index))
    {
      var node1 := paths[index];
      var node2 := paths[index + 1];
      assert JoinShaped(paths, index);
      if |node1.edges| == 1 {
        var hexsideLeft := node1.edges[0];
        var hexsideRight := node2.edges[0];
        r := CheckAndSet(bitfield, hexsideLeft, hexsideRight, t0, done);
      } else if |node1.edges| == 2 {
        var hexsideLeft := node1.edges[0];
        var hexsideRight := node1.edges[1];
        r := CheckAndSet(bitfield, hexsideLeft, hexsideRight, t0, done);
        hexsideLeft := hexsideRight;
        hexsideRight := node2.edges[0];
        r := CheckAndSet(r, hexsideLeft, hexsideRight, t0, done + [node1.edges[0], node1.edges[1]]);
        assert done + [node1.edges[0], node1.edges[1]] + [node1.edges[1], node2.edges[0]]
          == done + JoinKeys(paths, index);
      } else {
        r := bitfield;
        assert done + JoinKeys(paths, index) == done;
      }
    }
  }
}
