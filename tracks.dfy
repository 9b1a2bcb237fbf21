/**
 * The track pieces a path walk hands to the router.  A path joins up to two
 * revenue nodes and crosses up to two hex edges; the router only reads the
 * ids of those nodes and edges.  Node ids and edge ids share one namespace,
 * because both are used as keys of the same hexside table.
 */
module Tracks {
  import opened Wrappers

  type NodeId = string

  type EdgeId = string

  /** A track path: its nodes (at most two in practice) and the ids of the hex edges it touches. */
  datatype Path = Path(nodes: seq<NodeId>, edges: seq<EdgeId>)

  /**
   * One element of a connection: the chain of paths between a left and a
   * right node.  A local (one-city) train's connection has a single link
   * with no right node and no paths.
   */
  datatype Link = Link(left: Option<NodeId>, right: Option<NodeId>, paths: seq<Path>)
}
