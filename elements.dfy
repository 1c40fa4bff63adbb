/**
 * The routing elements shared by the search components: wire directions,
 * wire junctions, programmable interconnect points (PIPs) and the device
 * queries that the router treats as black boxes.
 */
module Elements {
  import opened Wrappers

  /** Compass direction of a wire; `Self` is the direction of local wires. */
  datatype Direction = North | East | South | West | Self

  /**
   * An entry or exit point of a tile's switch fabric. `tilePathCost` is the
   * optional precomputed approach cost, with -1 meaning "not set".
   */
  datatype Junction = Junction(
    tile: string,
    wire: string,
    node: string,
    dir: Direction,
    length: int,
    tilePathCost: int)

  /** Junction equality as the router uses it: same tile and same wire. */
  predicate SameJunction(a: Junction, b: Junction)
  {
    a.tile == b.tile && a.wire == b.wire
  }

  /** A directed programmable edge from one node (and wire) to another. */
  datatype Pip = Pip(startNode: string, startWire: string, endNode: string, endWire: string)

  /**
   * Device and utility queries whose implementation lies outside the core:
   * tile coordinates, the source junction that feeds an entrance junction,
   * the translated copy of a junction, and the direction classifiers.
   */
  datatype Device = Device(
    tileX: string -> int,
    tileY: string -> int,
    srcJunction: Junction -> Junction,
    offset: (Junction, int, int) -> Junction,
    reverse: Direction -> Direction,
    isOrthogonal: (Direction, Option<Direction>) -> bool)

  /**
   * The list index addressed by `i` in a list of length `n`, where a
   * negative `i` counts back from the end.
   */
  function FromEnd(i: int, n: nat): (k: nat)
    requires -(n as int) <= i < n
    ensures k < n && (k - i) % n == 0
  {
    if i < 0 then i + n else i
  }
}
