// The map generator's HexGrid: a row-major arena of cellCountX * cellCountZ
// cells, each linked to its six neighbours while the grid is built.
module HexGrids {
  import opened Wrappers
  import opened CSharpNumerics
  import opened Vectors
  import opened HexDirections
  import opened HexCoords
  import opened HexCells
  import M = HexMetrics

  // ---- Row-major layout: index i holds the cell at column i % w, row i / w ----

  /** The only multiple of w strictly between -w and w is zero. */
  lemma ZeroMultiple(a: int, w: int)
    requires w > 0 && -w < a * w < w
    ensures a == 0
  {
  }

  /** Column and row are recovered from an index of the form x + z * w. */
  lemma DivModUnique(w: int, x: int, z: int)
    requires w > 0 && 0 <= x < w
    ensures (x + z * w) / w == z && (x + z * w) % w == x
  {
    var n := x + z * w;
    var q, r := n / w, n % w;
    assert q * w + r == n;
    assert (q - z) * w == x - r;
    ZeroMultiple(q - z, w);
  }

  /** An index inside a w-by-h grid lies in a row below h. */
  lemma RowBelowHeight(w: nat, h: nat, i: nat)
    requires i < w * h
    ensures w > 0 && i / w < h
  {
  }

  /** The coordinates CreateCell gives the cell stored at index i. */
  function Coordinates(w: nat, h: nat, i: nat): (c: HexCoordinates)
    requires i < w * h
    ensures 0 <= c.z < h && 0 <= OffsetColumn(c) < w
  {
    RowBelowHeight(w, h, i);
    var x, z := i % w, i / w;
    assert 0 <= x < w && 0 <= z < h;
    CsDivNonNegative(z, 2);
    FromOffsetCoordinates(x, z)
  }

  /** The local position CreateCell gives the cell in column x of row z: odd rows are
      shifted half a cell to the right. */
  function CellPosition(x: int, z: nat): Vector3 {
    Vector3((x as real + RowShift(z)) * (M.InnerRadius * 2.0),
            0.0,
            z as real * (M.OuterRadius * 1.5))
  }

  /** `z * 0.5f - z / 2` of CreateCell: half a column on odd rows, none on even ones. */
  function RowShift(z: nat): (r: real)
    ensures r == if z % 2 == 0 then 0.0 else 0.5
  {
    z as real * 0.5 - (z / 2) as real
  }

  /** HexGrid.GetCell(HexCoordinates): the index of the cell with those coordinates,
      or None (null) when they fall outside the grid. */
  function CellAt(w: nat, h: nat, c: HexCoordinates): (r: Option<nat>)
    ensures r.Some? <==> 0 <= c.z < h && 0 <= OffsetColumn(c) < w
  {
    var z := c.z;
    if z < 0 || z >= h then None
    else
      var x := c.x + CsDiv(z, 2);
      if x < 0 || x >= w then None
      else Some(x + z * w)
  }

  /** A column and row inside the grid give an index inside the grid. */
  lemma IndexInGrid(w: nat, h: nat, x: nat, z: nat)
    requires x < w && z < h
    ensures x + z * w < w * h
  {
    var k: nat := h - z - 1;
    assert h * w == x + z * w + (w - x) + k * w;
  }

  /** A cell GetCell returns carries the coordinates it was asked for. */
  lemma CellAtSound(w: nat, h: nat, c: HexCoordinates)
    requires CellAt(w, h, c).Some?
    ensures CellAt(w, h, c).value < w * h
    ensures Coordinates(w, h, CellAt(w, h, c).value) == c
  {
    var x, z := OffsetColumn(c), c.z;
    assert CellAt(w, h, c) == Some(x + z * w);
    IndexInGrid(w, h, x, z);
    DivModUnique(w, x, z);
    OffsetRoundTrip(x, z, c);
  }

  /** Every cell is found again from its coordinates. */
  lemma CellAtOwnCoordinates(w: nat, h: nat, i: nat)
    requires i < w * h
    ensures CellAt(w, h, Coordinates(w, h, i)) == Some(i)
  {
    RowBelowHeight(w, h, i);
    var x, z := i % w, i / w;
    assert i == x + z * w;
    var c := Coordinates(w, h, i);
    assert c == FromOffsetCoordinates(x, z);
    assert c.z == z && OffsetColumn(c) == x;
  }

  /** GetCell finds a cell exactly when the coordinates are that cell's own. */
  lemma CellAtInverse(w: nat, h: nat, c: HexCoordinates, j: nat)
    ensures CellAt(w, h, c) == Some(j) <==> j < w * h && Coordinates(w, h, j) == c
  {
    if CellAt(w, h, c) == Some(j) {
      CellAtSound(w, h, c);
    }
    if j < w * h && Coordinates(w, h, j) == c {
      CellAtOwnCoordinates(w, h, j);
    }
  }

  // ---- Neighbours ----

  /** The neighbour a finished grid links in direction d: the cell that is one cube step
      away, or None on the border. */
  function NeighborIndex(w: nat, h: nat, i: nat, d: Direction): Option<nat>
    requires i < w * h
  {
    CellAt(w, h, Step(Coordinates(w, h, i), d))
  }

  /** Neighbourhood is symmetric: if j is i's neighbour in direction d, then i is j's
      neighbour in the opposite direction. */
  lemma NeighborSymmetric(w: nat, h: nat, i: nat, d: Direction, j: nat)
    requires i < w * h
    ensures NeighborIndex(w, h, i, d) == Some(j) <==>
            j < w * h && NeighborIndex(w, h, j, Opposite(d)) == Some(i)
  {
    var ci := Coordinates(w, h, i);
    CellAtInverse(w, h, Step(ci, d), j);
    if NeighborIndex(w, h, i, d) == Some(j) {
      StepOpposite(ci, d);
      CellAtOwnCoordinates(w, h, i);
    }
    if j < w * h && NeighborIndex(w, h, j, Opposite(d)) == Some(i) {
      var cj := Coordinates(w, h, j);
      CellAtInverse(w, h, Step(cj, Opposite(d)), i);
      StepOpposite(cj, Opposite(d));
      OppositeInvolution(d);
      CellAtOwnCoordinates(w, h, j);
    }
  }

  /** The offset-coordinate neighbour rule: even and odd rows differ in which columns
      of the adjacent rows touch a cell. */
  function OffsetNeighbor(x: int, z: int, d: Direction): (int, int) {
    var even := z % 2 == 0;
    match d
    case 0 => if even then (x, z + 1) else (x + 1, z + 1)
    case 1 => (x + 1, z)
    case 2 => if even then (x, z - 1) else (x + 1, z - 1)
    case 3 => if even then (x - 1, z - 1) else (x, z - 1)
    case 4 => (x - 1, z)
    case 5 => if even then (x - 1, z + 1) else (x, z + 1)
  }

  /** A cube step from offset (x, z) lands on the offset neighbour. */
  lemma StepIsOffsetNeighbor(x: int, z: nat, d: Direction)
    ensures var s := Step(FromOffsetCoordinates(x, z), d);
            s.z == OffsetNeighbor(x, z, d).1 &&
            (s.z >= 0 ==> OffsetColumn(s) == OffsetNeighbor(x, z, d).0)
  {
    CsDivNonNegative(z, 2);
    CsDivNonNegative(z + 1, 2);
    if z > 0 {
      CsDivNonNegative(z - 1, 2);
    }
  }

  /** NeighborIndex read off the offset rule. */
  lemma NeighborInOffset(w: nat, h: nat, x: nat, z: nat, d: Direction)
    requires x < w && z < h
    ensures x + z * w < w * h
    ensures var (nx, nz) := OffsetNeighbor(x, z, d);
            NeighborIndex(w, h, x + z * w, d) ==
              if 0 <= nz < h && 0 <= nx < w then Some(nx + nz * w) else None
  {
    IndexInGrid(w, h, x, z);
    DivModUnique(w, x, z);
    StepIsOffsetNeighbor(x, z, d);
  }

  /** Neighbour centres sit one NeighborCenterOffset apart, so the bridges of
      HexMetrics meet the neighbouring cell. */
  lemma NeighborPosition(x: int, z: nat, d: Direction)
    ensures var (nx, nz) := OffsetNeighbor(x, z, d);
            nz >= 0 ==> CellPosition(nx, nz) == Add(CellPosition(x, z), M.NeighborCenterOffset(d))
  {
    var (nx, nz) := OffsetNeighbor(x, z, d);
    if nz >= 0 {
      assert (nz % 2 == 0) == if nz == z then z % 2 == 0 else z % 2 != 0;
      if d == 0 {
      } else if d == 1 {
      } else if d == 2 {
      } else if d == 3 {
      } else if d == 4 {
      } else {
      }
    }
  }

  // ---- Building the grid (CreateCells / CreateCell) ----

  /** The local position of the cell stored at index i. */
  function Position(w: nat, h: nat, i: nat): Vector3
    requires i < w * h
  {
    RowBelowHeight(w, h, i);
    CellPosition(i % w, i / w)
  }

  /** A freshly instantiated cell: placed, labelled with its coordinates, elevation 0,
      the prefab's colour and six empty neighbour slots. */
  function NewCell(w: nat, h: nat, i: nat, color: Color): HexCell
    requires i < w * h
  {
    HexCell(Coordinates(w, h, i), color, 0, Position(w, h, i), [None, None, None, None, None, None])
  }

  /** A neighbour slot of cell m once cells 0 .. k-1 exist: the finished link if it
      points to one of them, still empty otherwise. */
  function Partial(w: nat, h: nat, k: nat, m: nat, d: Direction): Option<nat>
    requires m < w * h
  {
    match NeighborIndex(w, h, m, d)
    case Some(j) => if j < k then Some(j) else None
    case None => None
  }

  ghost predicate Built(c: HexCell, w: nat, h: nat, k: nat, m: nat, color: Color)
    requires m < w * h
  {
    c.coordinates == Coordinates(w, h, m) && c.color == color && c.elevation == 0 &&
    c.position == Position(w, h, m) && |c.neighbors| == 6 &&
    forall d :: 0 <= d < 6 ==> c.neighbors[d] == Partial(w, h, k, m, d)
  }

  /** The arena after CreateCell has run for indices 0 .. k-1. */
  ghost predicate BuiltUpTo(cells: seq<HexCell>, w: nat, h: nat, k: nat, color: Color) {
    k <= |cells| == w * h &&
    forall m :: 0 <= m < k ==> Built(cells[m], w, h, k, m, color)
  }

  /** A finished grid: every cell has its own coordinates and its neighbour in each
      direction is exactly the cell GetCell finds one cube step away (null at the border). */
  ghost predicate Wired(cells: seq<HexCell>, w: nat, h: nat) {
    |cells| == w * h &&
    forall i :: 0 <= i < |cells| ==>
      cells[i].coordinates == Coordinates(w, h, i) && |cells[i].neighbors| == 6 &&
      forall d :: 0 <= d < 6 ==> cells[i].neighbors[d] == CellAt(w, h, Step(cells[i].coordinates, d))
  }

  /** A row above the first starts w indices or more into the arena. */
  lemma RowStart(w: nat, z: nat)
    requires z > 0
    ensures z * w >= w
  {
    var k: nat := z - 1;
    assert z * w == w + k * w;
  }

  /** Cells 0 .. i have their six neighbour slots. */
  ghost predicate SlotsUpTo(cells: seq<HexCell>, i: nat) {
    i < |cells| && forall m :: 0 <= m <= i ==> |cells[m].neighbors| == 6
  }

  /** A cell of the first row has no row below to link to. */
  lemma FirstRowUnlinked(w: nat, x: nat)
    requires x < w
    ensures NewLink(w, x, 0, SE) == None && NewLink(w, x, 0, SW) == None
  {
  }

  /** The links CreateCell makes to the row below, as SetNeighbor leaves them: the new
      cell i gains its south-east and south-west links, and each cell they reach gains
      the link back to i. */
  ghost function BelowLinked(cells: seq<HexCell>, w: nat, x: nat, z: nat): (r: seq<HexCell>)
    requires x < w && SlotsUpTo(cells, x + z * w)
    ensures SlotsUpTo(r, x + z * w) && |r| == |cells|
    ensures forall k :: 0 <= k < |r| ==>
      r[k] == cells[k].(neighbors := r[k].neighbors) && |r[k].neighbors| == |cells[k].neighbors|
    ensures forall e :: 0 <= e < 6 ==>
      r[x + z * w].neighbors[e] ==
        if (e == SE || e == SW) && NewLink(w, x, z, e).Some? then NewLink(w, x, z, e)
        else cells[x + z * w].neighbors[e]
    ensures forall k, e :: 0 <= k < x + z * w && 0 <= e < |r[k].neighbors| ==>
      r[k].neighbors[e] ==
        if (e == NW || e == NE) && NewLink(w, x, z, Opposite(e)) == Some(k) then Some(x + z * w)
        else cells[k].neighbors[e]
  {
    if z == 0 then FirstRowUnlinked(w, x); cells
    else if z % 2 == 0 then EvenRowLinked(cells, w, x, z)
    else OddRowLinked(cells, w, x, z)
  }

  /** On an even row: south-east to the same column below, south-west to the column before. */
  ghost function EvenRowLinked(cells: seq<HexCell>, w: nat, x: nat, z: nat): (r: seq<HexCell>)
    requires x < w && z > 0 && z % 2 == 0 && SlotsUpTo(cells, x + z * w)
    ensures SlotsUpTo(r, x + z * w) && |r| == |cells|
    ensures forall k :: 0 <= k < |r| ==>
      r[k] == cells[k].(neighbors := r[k].neighbors) && |r[k].neighbors| == |cells[k].neighbors|
    ensures forall e :: 0 <= e < 6 ==>
      r[x + z * w].neighbors[e] ==
        if (e == SE || e == SW) && NewLink(w, x, z, e).Some? then NewLink(w, x, z, e)
        else cells[x + z * w].neighbors[e]
    ensures forall k, e :: 0 <= k < x + z * w && 0 <= e < |r[k].neighbors| ==>
      r[k].neighbors[e] ==
        if (e == NW || e == NE) && NewLink(w, x, z, Opposite(e)) == Some(k) then Some(x + z * w)
        else cells[k].neighbors[e]
  {
    var i := x + z * w;
    RowStart(w, z);
    assert NewLink(w, x, z, SE) == Some(i - w);
    assert NewLink(w, x, z, SW) == if x > 0 then Some(i - w - 1) else None;
    assert Opposite(NW) == SE && Opposite(NE) == SW;
    var c := Linked(cells, i, SE, i - w);
    assert SlotsUpTo(c, i);
    if x > 0 then Linked(c, i, SW, i - w - 1) else c
  }

  /** On an odd row: south-west to the same column below, south-east to the column after. */
  ghost function OddRowLinked(cells: seq<HexCell>, w: nat, x: nat, z: nat): (r: seq<HexCell>)
    requires x < w && z % 2 == 1 && SlotsUpTo(cells, x + z * w)
    ensures SlotsUpTo(r, x + z * w) && |r| == |cells|
    ensures forall k :: 0 <= k < |r| ==>
      r[k] == cells[k].(neighbors := r[k].neighbors) && |r[k].neighbors| == |cells[k].neighbors|
    ensures forall e :: 0 <= e < 6 ==>
      r[x + z * w].neighbors[e] ==
        if (e == SE || e == SW) && NewLink(w, x, z, e).Some? then NewLink(w, x, z, e)
        else cells[x + z * w].neighbors[e]
    ensures forall k, e :: 0 <= k < x + z * w && 0 <= e < |r[k].neighbors| ==>
      r[k].neighbors[e] ==
        if (e == NW || e == NE) && NewLink(w, x, z, Opposite(e)) == Some(k) then Some(x + z * w)
        else cells[k].neighbors[e]
  {
    var i := x + z * w;
    RowStart(w, z);
    assert NewLink(w, x, z, SW) == Some(i - w);
    assert NewLink(w, x, z, SE) == if x < w - 1 then Some(i - w + 1) else None;
    assert Opposite(NW) == SE && Opposite(NE) == SW;
    var c := Linked(cells, i, SW, i - w);
    assert SlotsUpTo(c, i);
    if x < w - 1 then Linked(c, i, SE, i - w + 1) else c
  }

  /** The arena CreateCell(x, z, i) leaves behind, step by step as the method writes it. */
  ghost function Placed(cells: seq<HexCell>, w: nat, h: nat, x: nat, z: nat, color: Color): seq<HexCell>
    requires x < w && z < h && BuiltUpTo(cells, w, h, x + z * w, color)
  {
    IndexInGrid(w, h, x, z);
    var i := x + z * w;
    var c1 := cells[i := NewCell(w, h, i, color)];
    assert SlotsUpTo(c1, i) by {
      forall m | 0 <= m < i ensures |c1[m].neighbors| == 6 {
        assert Built(cells[m], w, h, i, m, color);
      }
    }
    var c2 := if x > 0 then Linked(c1, i, W, i - 1) else c1;
    BelowLinked(c2, w, x, z)
  }

  /** The link CreateCell(x, z) gives the new cell in direction d: west to the previous
      cell, and on rows above the first south-east and south-west to the row below, whose
      columns depend on whether the row is even or odd. */
  function NewLink(w: nat, x: nat, z: nat, d: Direction): Option<nat>
    requires x < w
  {
    var i := x + z * w;
    if d == W then (if x > 0 then Some(i - 1) else None)
    else if z == 0 || (d != SE && d != SW) then None
    else
      RowStart(w, z);
      if z % 2 == 0 then
        if d == SE then Some(i - w) else if x > 0 then Some(i - w - 1) else None
      else
        if d == SW then Some(i - w) else if x < w - 1 then Some(i - w + 1) else None
  }

  /** The links CreateCell(x, z) makes are exactly the grid's links from the new cell
      that reach cells created before it. */
  lemma NewLinkIsPartial(w: nat, h: nat, x: nat, z: nat, d: Direction)
    requires x < w && z < h
    ensures x + z * w < w * h
    ensures NewLink(w, x, z, d) == Partial(w, h, x + z * w + 1, x + z * w, d)
    ensures NewLink(w, x, z, d).Some? ==> NewLink(w, x, z, d).value < x + z * w
  {
    NeighborInOffset(w, h, x, z, d);
    assert (z - 1) * w == z * w - w;
    assert (z + 1) * w == z * w + w;
  }

  /** An earlier cell gains a link to the new cell exactly where CreateCell links the
      new cell back to it. */
  lemma OldSlotIsPartial(w: nat, h: nat, x: nat, z: nat, m: nat, d: Direction)
    requires x < w && z < h && m < x + z * w
    ensures x + z * w < w * h
    ensures Partial(w, h, x + z * w + 1, m, d) ==
      if NewLink(w, x, z, Opposite(d)) == Some(m) then Some(x + z * w) else Partial(w, h, x + z * w, m, d)
  {
    IndexInGrid(w, h, x, z);
    NeighborSymmetric(w, h, m, d, x + z * w);
    NewLinkIsPartial(w, h, x, z, Opposite(d));
    OppositeInvolution(d);
  }

  /** The arena after CreateCell(x, z) keeps its length and changes no cell other than
      the new one except in its neighbour slots. */
  lemma PlacedFrame(cells: seq<HexCell>, w: nat, h: nat, x: nat, z: nat, color: Color, m: nat)
    requires x < w && z < h && BuiltUpTo(cells, w, h, x + z * w, color)
    requires m <= x + z * w
    ensures x + z * w < w * h
    ensures var r := Placed(cells, w, h, x, z, color);
      var before := if m == x + z * w then NewCell(w, h, m, color) else cells[m];
      && |r| == |cells|
      && r[m] == before.(neighbors := r[m].neighbors)
      && |r[m].neighbors| == 6
  {
    IndexInGrid(w, h, x, z);
    if m < x + z * w {
      assert Built(cells[m], w, h, x + z * w, m, color);
    }
  }

  /** The new cell's slots after CreateCell(x, z). */
  lemma PlacedNewSlot(cells: seq<HexCell>, w: nat, h: nat, x: nat, z: nat, color: Color, d: Direction)
    requires x < w && z < h && BuiltUpTo(cells, w, h, x + z * w, color)
    ensures x + z * w < w * h
    ensures var r := Placed(cells, w, h, x, z, color);
      x + z * w < |r| && |r[x + z * w].neighbors| == 6 &&
      r[x + z * w].neighbors[d] == NewLink(w, x, z, d)
  {
    IndexInGrid(w, h, x, z);
  }

  /** An earlier cell's slots after CreateCell(x, z). */
  lemma PlacedOldSlot(cells: seq<HexCell>, w: nat, h: nat, x: nat, z: nat, color: Color, m: nat, d: Direction)
    requires x < w && z < h && BuiltUpTo(cells, w, h, x + z * w, color)
    requires m < x + z * w
    ensures x + z * w < w * h
    ensures var r := Placed(cells, w, h, x, z, color);
      m < |r| && |cells[m].neighbors| == 6 && |r[m].neighbors| == 6 &&
      r[m].neighbors[d] ==
        if NewLink(w, x, z, Opposite(d)) == Some(m) then Some(x + z * w) else cells[m].neighbors[d]
  {
    IndexInGrid(w, h, x, z);
    assert Built(cells[m], w, h, x + z * w, m, color);
  }

  /** CreateCell(x, z) extends a grid built up to index x + z * w by one cell. */
  lemma PlacedBuilds(cells: seq<HexCell>, w: nat, h: nat, x: nat, z: nat, color: Color)
    requires x < w && z < h && BuiltUpTo(cells, w, h, x + z * w, color)
    ensures BuiltUpTo(Placed(cells, w, h, x, z, color), w, h, x + z * w + 1, color)
  {
    IndexInGrid(w, h, x, z);
    var i := x + z * w;
    var r := Placed(cells, w, h, x, z, color);
    forall m | 0 <= m < i + 1
      ensures Built(r[m], w, h, i + 1, m, color)
    {
      PlacedFrame(cells, w, h, x, z, color, m);
      forall d | 0 <= d < 6
        ensures r[m].neighbors[d] == Partial(w, h, i + 1, m, d)
      {
        if m == i {
          PlacedNewSlot(cells, w, h, x, z, color, d);
          NewLinkIsPartial(w, h, x, z, d);
        } else {
          PlacedOldSlot(cells, w, h, x, z, color, m, d);
          OldSlotIsPartial(w, h, x, z, m, d);
          assert Built(cells[m], w, h, i, m, color);
        }
      }
    }
  }

  /** CreateCell: instantiates cell i at column x, row z and links it to the cells to
      its west and, on rows above the first, to the row below (which columns depends on
      whether the row is even or odd). */
  method CreateCell(cells: array<HexCell>, w: nat, h: nat, x: nat, z: nat, i: nat, color: Color)
    requires x < w && z < h && i == x + z * w
    requires BuiltUpTo(cells[..], w, h, i, color)
    modifies cells
    ensures BuiltUpTo(cells[..], w, h, i + 1, color)
  {
    ghost var before := cells[..];
    IndexInGrid(w, h, x, z);
    cells[i] := NewCell(w, h, i, color);
    assert SlotsUpTo(cells[..], i) by {
      forall m | 0 <= m < i ensures |cells[m].neighbors| == 6 {
        assert Built(before[m], w, h, i, m, color);
      }
    }
    ghost var c1 := cells[..];
    if x > 0 {
      SetNeighbor(cells, i, W, i - 1);
    }
    assert cells[..] == if x > 0 then Linked(c1, i, W, i - 1) else c1;
    assert SlotsUpTo(cells[..], i);
    LinkRowBelow(cells, w, x, z, i);
    PlacedBuilds(before, w, h, x, z, color);
  }

  /** The second half of CreateCell: links to the row below. */
  method LinkRowBelow(cells: array<HexCell>, w: nat, x: nat, z: nat, i: nat)
    requires x < w && i == x + z * w && SlotsUpTo(cells[..], i)
    modifies cells
    ensures cells[..] == BelowLinked(old(cells[..]), w, x, z)
  {
    if z > 0 {
      RowStart(w, z);
      if z % 2 == 0 {
        LinkEvenRow(cells, w, x, z, i);
      } else {
        LinkOddRow(cells, w, x, z, i);
      }
    }
  }

  method LinkEvenRow(cells: array<HexCell>, w: nat, x: nat, z: nat, i: nat)
    requires x < w && z > 0 && z % 2 == 0 && i == x + z * w && SlotsUpTo(cells[..], i)
    modifies cells
    ensures cells[..] == EvenRowLinked(old(cells[..]), w, x, z)
  {
    RowStart(w, z);
    ghost var c0 := cells[..];
    SetNeighbor(cells, i, SE, i - w);
    ghost var c := Linked(c0, i, SE, i - w);
    assert cells[..] == c;
    if x > 0 {
      assert |c[i].neighbors| == 6 && |c[i - w - 1].neighbors| == 6;
      SetNeighbor(cells, i, SW, i - w - 1);
      assert cells[..] == Linked(c, i, SW, i - w - 1);
    }
  }

  method LinkOddRow(cells: array<HexCell>, w: nat, x: nat, z: nat, i: nat)
    requires x < w && z % 2 == 1 && i == x + z * w && SlotsUpTo(cells[..], i)
    modifies cells
    ensures cells[..] == OddRowLinked(old(cells[..]), w, x, z)
  {
    RowStart(w, z);
    ghost var c0 := cells[..];
    SetNeighbor(cells, i, SW, i - w);
    ghost var c := Linked(c0, i, SW, i - w);
    assert cells[..] == c;
    if x < w - 1 {
      assert |c[i].neighbors| == 6 && |c[i - w + 1].neighbors| == 6;
      SetNeighbor(cells, i, SE, i - w + 1);
      assert cells[..] == Linked(c, i, SE, i - w + 1);
    }
  }

  /** Once every cell exists, every link is in place. */
  lemma BuiltIsWired(cells: seq<HexCell>, w: nat, h: nat, color: Color)
    requires BuiltUpTo(cells, w, h, w * h, color)
    ensures Wired(cells, w, h)
  {
    forall i, d | 0 <= i < |cells| && 0 <= d < 6
      ensures cells[i].neighbors[d] == CellAt(w, h, Step(cells[i].coordinates, d))
    {
      var c := Step(cells[i].coordinates, d);
      if CellAt(w, h, c).Some? {
        CellAtSound(w, h, c);
      }
    }
  }

  /** CreateCells: fills a cellCountX-by-cellCountZ arena row by row. */
  method CreateCells(w: nat, h: nat, color: Color) returns (cells: array<HexCell>)
    ensures fresh(cells) && Wired(cells[..], w, h)
    ensures forall i :: 0 <= i < cells.Length ==>
      cells[i].color == color && cells[i].elevation == 0 && cells[i].position == Position(w, h, i)
  {
    cells := new HexCell[w * h](_ => HexCell(HexCoordinates(0, 0), color, 0, Zero, []));
    var z, i := 0, 0;
    while z < h
      invariant z <= h && i == z * w
      invariant BuiltUpTo(cells[..], w, h, i, color)
    {
      var x := 0;
      while x < w
        invariant x <= w && i == x + z * w
        invariant BuiltUpTo(cells[..], w, h, i, color)
      {
        CreateCell(cells, w, h, x, z, i, color);
        x, i := x + 1, i + 1;
      }
      assert i == (z + 1) * w;
      z := z + 1;
    }
    assert i == w * h;
    ghost var built := cells[..];
    BuiltIsWired(built, w, h, color);
    forall m | 0 <= m < |built|
      ensures built[m].color == color && built[m].elevation == 0 && built[m].position == Position(w, h, m)
    {
      assert Built(built[m], w, h, i, m, color);
    }
  }

  // ---- Chunks (AddCellToChunk) ----

  /** AddCellToChunk: the chunk holding column x, row z and the cell's slot in it. */
  function ChunkSlot(chunkCountX: nat, x: nat, z: nat): (r: (nat, nat)) {
    var chunkX := x / M.ChunkSizeX;
    var chunkZ := z / M.ChunkSizeZ;
    var localX := x - chunkX * M.ChunkSizeX;
    var localZ := z - chunkZ * M.ChunkSizeZ;
    (chunkX + chunkZ * chunkCountX, localX + localZ * M.ChunkSizeX)
  }

  /** Every cell of the grid lands in an existing chunk, in one of its 25 slots. */
  lemma ChunkSlotInRange(chunkCountX: nat, chunkCountZ: nat, x: nat, z: nat)
    requires x < chunkCountX * M.ChunkSizeX && z < chunkCountZ * M.ChunkSizeZ
    ensures ChunkSlot(chunkCountX, x, z).0 < chunkCountX * chunkCountZ
    ensures ChunkSlot(chunkCountX, x, z).1 < M.ChunkSizeX * M.ChunkSizeZ
  {
    IndexInGrid(chunkCountX, chunkCountZ, x / 5, z / 5);
    IndexInGrid(5, 5, x % 5, z % 5);
  }

  /** No two cells of the grid share a chunk slot. */
  lemma ChunkSlotInjective(chunkCountX: nat, x1: nat, z1: nat, x2: nat, z2: nat)
    requires x1 < chunkCountX * M.ChunkSizeX && x2 < chunkCountX * M.ChunkSizeX
    requires ChunkSlot(chunkCountX, x1, z1) == ChunkSlot(chunkCountX, x2, z2)
    ensures x1 == x2 && z1 == z2
  {
    RowBelowHeight(5, chunkCountX, x1);
    RowBelowHeight(5, chunkCountX, x2);
    DivModUnique(chunkCountX, x1 / 5, z1 / 5);
    DivModUnique(chunkCountX, x2 / 5, z2 / 5);
    DivModUnique(5, x1 % 5, z1 % 5);
    DivModUnique(5, x2 % 5, z2 % 5);
  }

  // ---- Saving and loading (Save / Load) ----

  /** HexCell.Save, which is not part of this model: what a cell writes. */
  type CellWriter = HexCell -> seq<bv8>
  /** HexCell.Load, which is not part of this model: reads a cell's data from the front of
      the stream into the cell and returns the rest of the stream. */
  type CellReader = (HexCell, seq<bv8>) -> (HexCell, seq<bv8>)

  /** The stream Save writes: every cell in index order. */
  function Saved(cells: seq<HexCell>, write: CellWriter): seq<bv8> {
    if cells == [] then [] else write(cells[0]) + Saved(cells[1..], write)
  }

  lemma {:induction false} SavedSnoc(cells: seq<HexCell>, c: HexCell, write: CellWriter)
    ensures Saved(cells + [c], write) == Saved(cells, write) + write(c)
  {
    if cells != [] {
      assert (cells + [c])[1..] == cells[1..] + [c];
      SavedSnoc(cells[1..], c, write);
    }
  }

  /** The arena and the rest of the stream after Load has read cells k .. end in order. */
  function LoadFrom(cells: seq<HexCell>, stream: seq<bv8>, read: CellReader, k: nat): (seq<HexCell>, seq<bv8>)
    decreases |cells| - k
  {
    if k >= |cells| then (cells, stream)
    else
      var (c, rest) := read(cells[k], stream);
      LoadFrom(cells[k := c], rest, read, k + 1)
  }

  /** A reader undoes a writer when reading what the writer wrote for c into any cell t
      gives restore(t, c) and leaves the rest of the stream. */
  ghost predicate ReadsBack(read: CellReader, write: CellWriter, restore: (HexCell, HexCell) -> HexCell) {
    forall t, c, rest :: read(t, write(c) + rest) == (restore(t, c), rest)
  }

  /** Each loaded cell of target, from index k on, restored from the cell at the same
      index of source. */
  function RestoredFrom(target: seq<HexCell>, source: seq<HexCell>, restore: (HexCell, HexCell) -> HexCell, k: nat): (r: seq<HexCell>)
    requires |target| == |source| && k <= |target|
    ensures |r| == |target|
  {
    target[..k] + seq(|target| - k, m requires 0 <= m < |target| - k => restore(target[k + m], source[k + m]))
  }

  /** Loading what Save wrote restores every cell, in order, and consumes exactly the
      saved part of the stream. */
  lemma {:induction false} LoadSavedFrom(target: seq<HexCell>, source: seq<HexCell>, rest: seq<bv8>,
                                        read: CellReader, write: CellWriter,
                                        restore: (HexCell, HexCell) -> HexCell, k: nat)
    requires |target| == |source| && k <= |target|
    requires ReadsBack(read, write, restore)
    ensures LoadFrom(target, Saved(source[k..], write) + rest, read, k) == (RestoredFrom(target, source, restore, k), rest)
    decreases |target| - k
  {
    if k < |target| {
      var s := Saved(source[k..], write) + rest;
      assert source[k..][1..] == source[k + 1..];
      assert s == write(source[k]) + (Saved(source[k + 1..], write) + rest);
      var t1 := target[k := restore(target[k], source[k])];
      LoadSavedFrom(t1, source, rest, read, write, restore, k + 1);
      assert RestoredFrom(t1, source, restore, k + 1) == RestoredFrom(target, source, restore, k);
    } else {
      assert source[k..] == [];
      assert Saved(source[k..], write) + rest == rest;
      assert RestoredFrom(target, source, restore, k) == target;
    }
  }

  /** Save followed by Load restores every cell from the saved one. */
  lemma SaveLoadRoundTrip(target: seq<HexCell>, source: seq<HexCell>, rest: seq<bv8>,
                          read: CellReader, write: CellWriter, restore: (HexCell, HexCell) -> HexCell)
    requires |target| == |source| && ReadsBack(read, write, restore)
    ensures var (loaded, left) := LoadFrom(target, Saved(source, write) + rest, read, 0);
      left == rest && |loaded| == |source| &&
      forall m :: 0 <= m < |loaded| ==> loaded[m] == restore(target[m], source[m])
  {
    assert source[0..] == source;
    LoadSavedFrom(target, source, rest, read, write, restore, 0);
  }

  // ---- The grid object ----

  class HexGrid {
    const chunkCountX: nat
    const chunkCountZ: nat
    const cellCountX: nat
    const cellCountZ: nat
    var cells: array<HexCell>

    ghost predicate Valid()
      reads this, cells
    {
      cellCountX == chunkCountX * M.ChunkSizeX && cellCountZ == chunkCountZ * M.ChunkSizeZ &&
      Wired(cells[..], cellCountX, cellCountZ)
    }

    /** Awake: cell counts from the chunk counts, then CreateCells. */
    constructor (chunkCountX: nat, chunkCountZ: nat, prefabColor: Color)
      ensures this.chunkCountX == chunkCountX && this.chunkCountZ == chunkCountZ
      ensures cellCountX == chunkCountX * M.ChunkSizeX && cellCountZ == chunkCountZ * M.ChunkSizeZ
      ensures Valid() && fresh(cells)
      ensures forall i :: 0 <= i < cells.Length ==>
        cells[i].color == prefabColor && cells[i].elevation == 0 &&
        cells[i].position == Position(cellCountX, cellCountZ, i)
    {
      this.chunkCountX := chunkCountX;
      this.chunkCountZ := chunkCountZ;
      cellCountX := chunkCountX * M.ChunkSizeX;
      cellCountZ := chunkCountZ * M.ChunkSizeZ;
      var created := CreateCells(chunkCountX * M.ChunkSizeX, chunkCountZ * M.ChunkSizeZ, prefabColor);
      cells := created;
    }

    /** GetCell(HexCoordinates): the cell with those coordinates, or null. */
    function GetCell(c: HexCoordinates): Option<nat> {
      CellAt(cellCountX, cellCountZ, c)
    }

    /** Save: every cell writes itself, in index order. */
    method Save(write: CellWriter) returns (stream: seq<bv8>)
      ensures stream == Saved(cells[..], write)
    {
      stream := [];
      var i := 0;
      while i < cells.Length
        invariant i <= cells.Length
        invariant stream == Saved(cells[..i], write)
      {
        SavedSnoc(cells[..i], cells[i], write);
        assert cells[..i + 1] == cells[..i] + [cells[i]];
        stream := stream + write(cells[i]);
        i := i + 1;
      }
      assert cells[..i] == cells[..];
    }

    /** Load: every cell reads itself back, in index order. */
    method Load(stream: seq<bv8>, read: CellReader) returns (rest: seq<bv8>)
      modifies cells
      ensures (cells[..], rest) == LoadFrom(old(cells[..]), stream, read, 0)
    {
      rest := stream;
      var i := 0;
      while i < cells.Length
        invariant i <= cells.Length
        invariant LoadFrom(cells[..], rest, read, i) == LoadFrom(old(cells[..]), stream, read, 0)
      {
        var (c, r) := read(cells[i], rest);
        cells[i] := c;
        rest := r;
        i := i + 1;
      }
    }
  }
}
