// HexCell as a node of an arena: the grid's cell array owns every cell, and a
// neighbour slot holds the index of another cell (None for a null slot).
module HexCells {
  import opened Wrappers
  import opened Vectors
  import opened HexDirections
  import opened HexCoords

  datatype HexCell = HexCell(
    coordinates: HexCoordinates,
    color: Color,
    elevation: int,
    position: Vector3,
    neighbors: seq<Option<nat>>)

  /** Every cell of an arena has its six neighbour slots. */
  ghost predicate SixSlots(cells: seq<HexCell>) {
    forall k :: 0 <= k < |cells| ==> |cells[k].neighbors| == 6
  }

  /** The neighbour in direction d: the index slot d holds, or None for a null slot. */
  function GetNeighbor(cell: HexCell, d: Direction): (r: Option<nat>)
    requires |cell.neighbors| == 6
    ensures r == cell.neighbors[d]
    ensures r.None? <==> cell.neighbors[d] == None
  {
    cell.neighbors[d]
  }

  /** The arena after SetNeighbor: cell i points to j in direction d, then cell j points
      back to i in the opposite direction; nothing else changes. */
  function Linked(cells: seq<HexCell>, i: nat, d: Direction, j: nat): (r: seq<HexCell>)
    requires i < |cells| && j < |cells|
    requires |cells[i].neighbors| == 6 && |cells[j].neighbors| == 6
    ensures |r| == |cells|
    ensures forall k :: 0 <= k < |r| ==>
      r[k] == cells[k].(neighbors := r[k].neighbors) && |r[k].neighbors| == |cells[k].neighbors|
    ensures forall k, e :: 0 <= k < |r| && 0 <= e < |r[k].neighbors| ==>
      r[k].neighbors[e] ==
        if k == j && e == Opposite(d) then Some(i)
        else if k == i && e == d then Some(j)
        else cells[k].neighbors[e]
  {
    var a := cells[i := cells[i].(neighbors := cells[i].neighbors[d := Some(j)])];
    a[j := a[j].(neighbors := a[j].neighbors[Opposite(d) := Some(i)])]
  }

  /** After SetNeighbor(d, c), GetNeighbor(d) is c and c's opposite slot is this cell. */
  lemma SetNeighborLinksBothWays(cells: seq<HexCell>, i: nat, d: Direction, j: nat)
    requires i < |cells| && j < |cells|
    requires |cells[i].neighbors| == 6 && |cells[j].neighbors| == 6
    ensures GetNeighbor(Linked(cells, i, d, j)[i], d) == Some(j)
    ensures GetNeighbor(Linked(cells, i, d, j)[j], Opposite(d)) == Some(i)
  {
  }

  /** SetNeighbor on the arena: writes this cell's slot d, then the other cell's opposite slot. */
  method SetNeighbor(cells: array<HexCell>, i: nat, d: Direction, j: nat)
    requires i < cells.Length && j < cells.Length
    requires |cells[i].neighbors| == 6 && |cells[j].neighbors| == 6
    modifies cells
    ensures cells[..] == Linked(old(cells[..]), i, d, j)
  {
    cells[i] := cells[i].(neighbors := cells[i].neighbors[d := Some(j)]);
    cells[j] := cells[j].(neighbors := cells[j].neighbors[Opposite(d) := Some(i)]);
  }

  /** The Color property setter. */
  method SetColor(cells: array<HexCell>, i: nat, c: Color)
    requires i < cells.Length
    modifies cells
    ensures cells[..] == old(cells[..])[i := old(cells[i]).(color := c)]
    ensures cells[i].color == c
  {
    cells[i] := cells[i].(color := c);
  }

  /** The Coordinates property setter. */
  method SetCoordinates(cells: array<HexCell>, i: nat, c: HexCoordinates)
    requires i < cells.Length
    modifies cells
    ensures cells[..] == old(cells[..])[i := old(cells[i]).(coordinates := c)]
    ensures cells[i].coordinates == c
  {
    cells[i] := cells[i].(coordinates := c);
  }
}
