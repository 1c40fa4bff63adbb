/**
 * Intra-tile paths: the node names visited from a tile's entrance node to
 * its exit node, with the hop count as cost. The exit node stays last while
 * the search inserts buffer nodes in front of it.
 */
module TilePaths {
  import opened Wrappers
  import opened Elements

  datatype TilePath = TilePath(nodes: seq<string>, cost: int)

  /** The one-hop path straight from the entrance node to the exit node. */
  function Between(entrance: Junction, exit: Junction): TilePath
  {
    TilePath([entrance.node, exit.node], 1)
  }

  /** No node repeats, except that the entrance node may equal the exit node. */
  predicate Simple(nodes: seq<string>)
  {
    forall i, j :: 0 <= i < j < |nodes| && nodes[i] == nodes[j] ==> i == 0 && j == |nodes| - 1
  }

  /** The node at index `i`, negative indices counting back from the exit. */
  function NodeName(p: TilePath, i: int): (n: string)
    requires -|p.nodes| <= i < |p.nodes|
    ensures n in p.nodes
    ensures i == -1 ==> n == p.nodes[|p.nodes| - 1]
    ensures i == -2 ==> n == p.nodes[|p.nodes| - 2]
  {
    p.nodes[FromEnd(i, |p.nodes|)]
  }

  /**
   * Inserts `n` just before the exit node, one more hop of cost; refused
   * (None) when `n` is already on the path.
   */
  function AddNode(p: TilePath, n: string): (r: Option<TilePath>)
    requires |p.nodes| >= 2
    ensures r.Some? <==> n !in p.nodes
    ensures r.Some? ==>
      && |r.value.nodes| == |p.nodes| + 1
      && r.value.cost == p.cost + 1
      && r.value.nodes[..|p.nodes| - 1] == p.nodes[..|p.nodes| - 1]
      && r.value.nodes[|p.nodes| - 1] == n
      && r.value.nodes[|p.nodes|] == p.nodes[|p.nodes| - 1]
  {
    if n in p.nodes then None
    else Some(TilePath(p.nodes[..|p.nodes| - 1] + [n, p.nodes[|p.nodes| - 1]], p.cost + 1))
  }

  /** Adding a node never creates a repeat: paths built by AddNode stay simple. */
  lemma AddNodeKeepsSimple(p: TilePath, n: string)
    requires |p.nodes| >= 2 && Simple(p.nodes)
    ensures AddNode(p, n).Some? ==> Simple(AddNode(p, n).value.nodes)
  {
  }
}
