// HexMapEditor: the active colour, elevation and brush of the map editor, and
// the edit of every cell under the brush.
module HexMapEditors {
  import opened Wrappers
  import opened CSharpNumerics
  import opened Vectors
  import opened HexCoords
  import opened HexCells
  import opened HexGrids

  // ---- The brush region ----

  /** The coordinates (lo, z) .. (hi, z) of one row, left to right. */
  function Row(lo: int, hi: int, z: int): (r: seq<HexCoordinates>)
    ensures |r| == if lo <= hi then hi - lo + 1 else 0
    ensures forall k :: 0 <= k < |r| ==> r[k] == HexCoordinates(lo + k, z)
  {
    seq(if lo <= hi then hi - lo + 1 else 0, k => HexCoordinates(lo + k, z))
  }

  lemma RowMembership(lo: int, hi: int, z: int, q: HexCoordinates)
    ensures q in Row(lo, hi, z) <==> q.z == z && lo <= q.x <= hi
  {
    if q.z == z && lo <= q.x <= hi {
      assert Row(lo, hi, z)[q.x - lo] == q;
    }
  }

  /** The first loop's rows: row r (r = 0, 1, ...) is b - r rows below the centre and
      runs from r columns left of the centre to b columns right of it. */
  function LowerRows(center: HexCoordinates, b: int, rows: nat): (s: seq<HexCoordinates>)
  {
    if rows == 0 then []
    else LowerRows(center, b, rows - 1) + Row(center.x - (rows - 1), center.x + b, center.z - b + (rows - 1))
  }

  /** The second loop's rows: row r is b - r rows above the centre and runs from b
      columns left of the centre to r columns right of it. */
  function UpperRows(center: HexCoordinates, b: int, rows: nat): (s: seq<HexCoordinates>)
  {
    if rows == 0 then []
    else UpperRows(center, b, rows - 1) + Row(center.x - b, center.x + (rows - 1), center.z + b - (rows - 1))
  }

  /** The number of rows each loop runs for a brush size. */
  function LowerRowCount(b: int): nat {
    if b >= 0 then b + 1 else 0
  }

  function UpperRowCount(b: int): nat {
    if b >= 0 then b else 0
  }

  /** Every coordinate EditCells hands to GetCell, in visiting order. */
  function BrushCoordinates(center: HexCoordinates, b: int): seq<HexCoordinates> {
    LowerRows(center, b, LowerRowCount(b)) + UpperRows(center, b, UpperRowCount(b))
  }

  /** The hex disk of radius b around the centre (empty for a negative b). */
  predicate InBrush(center: HexCoordinates, b: int, q: HexCoordinates) {
    b >= 0 && Distance(q, center) <= b
  }

  lemma {:induction false} LowerRowsMembership(center: HexCoordinates, b: int, rows: nat, q: HexCoordinates)
    ensures q in LowerRows(center, b, rows) <==>
      center.z - b <= q.z < center.z - b + rows &&
      center.x - (q.z - (center.z - b)) <= q.x <= center.x + b
  {
    if rows > 0 {
      LowerRowsMembership(center, b, rows - 1, q);
      RowMembership(center.x - (rows - 1), center.x + b, center.z - b + (rows - 1), q);
    }
  }

  lemma {:induction false} UpperRowsMembership(center: HexCoordinates, b: int, rows: nat, q: HexCoordinates)
    ensures q in UpperRows(center, b, rows) <==>
      center.z + b - rows < q.z <= center.z + b &&
      center.x - b <= q.x <= center.x + (center.z + b - q.z)
  {
    if rows > 0 {
      UpperRowsMembership(center, b, rows - 1, q);
      RowMembership(center.x - b, center.x + (rows - 1), center.z + b - (rows - 1), q);
    }
  }

  /** EditCells reaches exactly the cells within hex distance b of the centre. */
  lemma BrushIsDisk(center: HexCoordinates, b: int, q: HexCoordinates)
    ensures q in BrushCoordinates(center, b) <==> InBrush(center, b, q)
  {
    LowerRowsMembership(center, b, LowerRowCount(b), q);
    UpperRowsMembership(center, b, UpperRowCount(b), q);
    var dx, dz := q.x - center.x, q.z - center.z;
    assert q.Y() - center.Y() == -dx - dz;
  }

  /** No coordinate appears twice in s. */
  ghost predicate Distinct<T>(s: seq<T>) {
    forall i, j :: 0 <= i < j < |s| ==> s[i] != s[j]
  }

  lemma DistinctAppend<T>(a: seq<T>, b: seq<T>)
    requires Distinct(a) && Distinct(b)
    requires forall x :: x in a ==> x !in b
    ensures Distinct(a + b)
  {
    forall i, j | 0 <= i < j < |a + b|
      ensures (a + b)[i] != (a + b)[j]
    {
      if j >= |a| && i < |a| {
        assert (a + b)[i] in a && (a + b)[j] in b;
      }
    }
  }

  lemma {:induction false} LowerRowsDistinct(center: HexCoordinates, b: int, rows: nat)
    ensures Distinct(LowerRows(center, b, rows))
  {
    if rows > 0 {
      LowerRowsDistinct(center, b, rows - 1);
      var z := center.z - b + (rows - 1);
      var row := Row(center.x - (rows - 1), center.x + b, z);
      forall q | q in LowerRows(center, b, rows - 1)
        ensures q !in row
      {
        LowerRowsMembership(center, b, rows - 1, q);
        RowMembership(center.x - (rows - 1), center.x + b, z, q);
      }
      DistinctAppend(LowerRows(center, b, rows - 1), row);
    }
  }

  lemma {:induction false} UpperRowsDistinct(center: HexCoordinates, b: int, rows: nat)
    ensures Distinct(UpperRows(center, b, rows))
  {
    if rows > 0 {
      UpperRowsDistinct(center, b, rows - 1);
      var z := center.z + b - (rows - 1);
      var row := Row(center.x - b, center.x + (rows - 1), z);
      forall q | q in UpperRows(center, b, rows - 1)
        ensures q !in row
      {
        UpperRowsMembership(center, b, rows - 1, q);
        RowMembership(center.x - b, center.x + (rows - 1), z, q);
      }
      DistinctAppend(UpperRows(center, b, rows - 1), row);
    }
  }

  /** EditCells visits each coordinate of the brush once. */
  lemma BrushVisitsOnce(center: HexCoordinates, b: int)
    ensures Distinct(BrushCoordinates(center, b))
  {
    var lower, upper := LowerRows(center, b, LowerRowCount(b)), UpperRows(center, b, UpperRowCount(b));
    LowerRowsDistinct(center, b, LowerRowCount(b));
    UpperRowsDistinct(center, b, UpperRowCount(b));
    forall q | q in lower
      ensures q !in upper
    {
      LowerRowsMembership(center, b, LowerRowCount(b), q);
      UpperRowsMembership(center, b, UpperRowCount(b), q);
    }
    DistinctAppend(lower, upper);
  }

  /** Row r of either loop holds b + r + 1 coordinates, so the first rows rows hold
      rows * (b + 1) + rows * (rows - 1) / 2 of them (stated doubled). */
  lemma {:induction false} LowerRowsLength(center: HexCoordinates, b: int, rows: nat)
    requires b >= 0
    ensures 2 * |LowerRows(center, b, rows)| == 2 * rows * (b + 1) + rows * (rows - 1)
  {
    if rows > 0 {
      LowerRowsLength(center, b, rows - 1);
      var r := rows - 1;
      assert 2 * rows * (b + 1) == 2 * r * (b + 1) + 2 * (b + 1);
      assert rows * (rows - 1) == r * (r - 1) + 2 * r;
    }
  }

  lemma {:induction false} UpperRowsLength(center: HexCoordinates, b: int, rows: nat)
    requires b >= 0
    ensures 2 * |UpperRows(center, b, rows)| == 2 * rows * (b + 1) + rows * (rows - 1)
  {
    if rows > 0 {
      UpperRowsLength(center, b, rows - 1);
      var r := rows - 1;
      assert 2 * rows * (b + 1) == 2 * r * (b + 1) + 2 * (b + 1);
      assert rows * (rows - 1) == r * (r - 1) + 2 * r;
    }
  }

  /** A brush of size b >= 0 covers 3b(b + 1) + 1 cells' coordinates; a negative size
      covers none. */
  lemma BrushSize(center: HexCoordinates, b: int)
    ensures b >= 0 ==> |BrushCoordinates(center, b)| == 3 * b * (b + 1) + 1
    ensures b < 0 ==> BrushCoordinates(center, b) == []
  {
    if b >= 0 {
      LowerRowsLength(center, b, b + 1);
      UpperRowsLength(center, b, b);
      assert 2 * (b + 1) * (b + 1) + (b + 1) * b + 2 * b * (b + 1) + b * (b - 1) == 2 * (3 * b * (b + 1) + 1);
    }
  }

  // ---- The editor ----

  /** Wired depends only on the cells' coordinates and neighbour slots. */
  lemma WiredKeptByEdits(before: seq<HexCell>, after: seq<HexCell>, w: nat, h: nat)
    requires Wired(before, w, h) && |after| == |before|
    requires forall m :: 0 <= m < |after| ==>
      after[m].coordinates == before[m].coordinates && after[m].neighbors == before[m].neighbors
    ensures Wired(after, w, h)
  {
  }

  /** In a wired arena, GetCell(q) finds exactly the cell whose coordinates are q. */
  lemma GetCellFinds(cells: seq<HexCell>, w: nat, h: nat, q: HexCoordinates, m: nat)
    requires Wired(cells, w, h) && m < |cells|
    ensures cells[m].coordinates == q <==> CellAt(w, h, q) == Some(m)
  {
    CellAtInverse(w, h, q, m);
  }

  class HexMapEditor {
    const colors: seq<Color>
    const grid: HexGrid
    var activeColor: Color
    var activeElevation: int
    var canApplyColor: bool
    var canApplyElevation: bool
    var brushSize: int

    ghost predicate Valid()
      reads this, grid, grid.cells
    {
      grid.Valid()
    }

    /** Awake: the editor works on the given grid and selects the first colour; the
        colour starts as C#'s default (transparent black) and stays so when there is
        no first colour to select. */
    constructor (colors: seq<Color>, grid: HexGrid)
      requires grid.Valid()
      ensures Valid() && this.colors == colors && this.grid == grid
      ensures canApplyColor
      ensures activeColor == if |colors| > 0 then colors[0] else Color(0.0, 0.0, 0.0, 0.0)
      ensures canApplyElevation && activeElevation == 0 && brushSize == 0
    {
      this.colors := colors;
      this.grid := grid;
      activeColor := Color(0.0, 0.0, 0.0, 0.0);
      activeElevation := 0;
      canApplyElevation := true;
      brushSize := 0;
      new;
      var _ := SelectColor(0);
    }

    /** The cell after an edit: the active colour and elevation where they may be applied;
        position, coordinates and neighbours untouched. */
    function Edited(cell: HexCell): (r: HexCell)
      reads this`activeColor, this`canApplyColor, this`activeElevation, this`canApplyElevation
      ensures r.coordinates == cell.coordinates && r.neighbors == cell.neighbors && r.position == cell.position
    {
      cell.(color := if canApplyColor then activeColor else cell.color,
            elevation := if canApplyElevation then activeElevation else cell.elevation)
    }

    /** Editing a cell twice is editing it once. */
    lemma EditedIdempotent(cell: HexCell)
      ensures Edited(Edited(cell)) == Edited(cell)
    {
    }

    /** SelectColor: a negative index switches colour editing off; any other index
        switches it on and reads that colour. An index past the end of the palette
        still switches editing on, and then the read fails (ok is false) and the
        active colour stays as it was. */
    method SelectColor(index: int) returns (ok: bool)
      modifies this`canApplyColor, this`activeColor
      ensures canApplyColor == (index >= 0)
      ensures ok == (index < |colors|)
      ensures 0 <= index < |colors| ==> activeColor == colors[index]
      ensures !(0 <= index < |colors|) ==> activeColor == old(activeColor)
    {
      canApplyColor := index >= 0;
      if canApplyColor {
        if index >= |colors| {
          return false;
        }
        activeColor := colors[index];
      }
      return true;
    }

    /** SetElevation: the slider value truncated to an integer. */
    method SetElevation(elevation: real)
      modifies this`activeElevation
      ensures activeElevation == Trunc(elevation)
    {
      activeElevation := Trunc(elevation);
    }

    method SetCanApplyElevation(can: bool)
      modifies this`canApplyElevation
      ensures canApplyElevation == can
    {
      canApplyElevation := can;
    }

    /** SetBrushSize: the slider value truncated to an integer. */
    method SetBrushSize(size: real)
      modifies this`brushSize
      ensures brushSize == Trunc(size)
    {
      brushSize := Trunc(size);
    }

    /** EditCell: nothing for a null cell; otherwise that cell takes the active colour
        and elevation, each only where it may be applied. */
    method EditCell(cell: Option<nat>)
      requires cell.Some? ==> cell.value < grid.cells.Length
      modifies grid.cells
      ensures cell.None? ==> grid.cells[..] == old(grid.cells[..])
      ensures cell.Some? ==> grid.cells[..] == old(grid.cells[..])[cell.value := Edited(old(grid.cells[cell.value]))]
    {
      if cell.Some? {
        var i := cell.value;
        grid.cells[i] := Edited(grid.cells[i]);
      }
    }

    /** The arena after editing every cell whose coordinates are in visited. */
    ghost predicate EditedWhere(before: seq<HexCell>, after: seq<HexCell>, visited: seq<HexCoordinates>)
      reads this`activeColor, this`canApplyColor, this`activeElevation, this`canApplyElevation
    {
      |after| == |before| &&
      forall m :: 0 <= m < |after| ==>
        after[m] == if before[m].coordinates in visited then Edited(before[m]) else before[m]
    }

    /** EditCell(GetCell(q)) extends the edited region by q. */
    method EditAt(q: HexCoordinates, ghost before: seq<HexCell>, ghost visited: seq<HexCoordinates>)
      requires Wired(before, grid.cellCountX, grid.cellCountZ) && EditedWhere(before, grid.cells[..], visited)
      modifies grid.cells
      ensures EditedWhere(before, grid.cells[..], visited + [q])
    {
      var cell := grid.GetCell(q);
      if cell.Some? {
        CellAtSound(grid.cellCountX, grid.cellCountZ, q);
      }
      EditCell(cell);
      forall m | 0 <= m < grid.cells.Length
        ensures grid.cells[m] == if before[m].coordinates in visited + [q] then Edited(before[m]) else before[m]
      {
        GetCellFinds(before, grid.cellCountX, grid.cellCountZ, q, m);
      }
    }

    /** One pass of an inner loop: EditCell(GetCell(x, z)) for x = lo .. hi. */
    method EditRow(lo: int, hi: int, z: int, ghost before: seq<HexCell>, ghost visited: seq<HexCoordinates>)
      requires Wired(before, grid.cellCountX, grid.cellCountZ) && EditedWhere(before, grid.cells[..], visited)
      requires lo <= hi + 1
      modifies grid.cells
      ensures EditedWhere(before, grid.cells[..], visited + Row(lo, hi, z))
    {
      ghost var row := Row(lo, hi, z);
      var x := lo;
      while x <= hi
        invariant lo <= x <= hi + 1
        invariant EditedWhere(before, grid.cells[..], visited + row[..x - lo])
        decreases hi - x
      {
        ghost var done := visited + row[..x - lo];
        assert row[..x - lo + 1] == row[..x - lo] + [HexCoordinates(x, z)];
        EditAt(HexCoordinates(x, z), before, done);
        x := x + 1;
      }
      assert row[..x - lo] == row;
    }

    /** The first loop of EditCells: rows from the bottom of the disk up to the centre row. */
    method EditLowerRows(c: HexCoordinates, ghost before: seq<HexCell>) returns (ghost visited: seq<HexCoordinates>)
      requires Wired(before, grid.cellCountX, grid.cellCountZ) && EditedWhere(before, grid.cells[..], [])
      modifies grid.cells
      ensures visited == LowerRows(c, brushSize, LowerRowCount(brushSize))
      ensures EditedWhere(before, grid.cells[..], visited)
    {
      var centerX, centerZ := c.x, c.z;
      visited := [];
      var r, z := 0, centerZ - brushSize;
      while z <= centerZ
        invariant r >= 0 && z == centerZ - brushSize + r
        invariant r <= LowerRowCount(brushSize)
        invariant visited == LowerRows(c, brushSize, r)
        invariant EditedWhere(before, grid.cells[..], visited)
        decreases centerZ - z
      {
        ghost var row := Row(centerX - r, centerX + brushSize, z);
        assert LowerRows(c, brushSize, r + 1) == visited + row;
        EditRow(centerX - r, centerX + brushSize, z, before, visited);
        visited := visited + row;
        z, r := z + 1, r + 1;
      }
    }

    /** The second loop of EditCells: rows from the top of the disk down to just above
        the centre row. */
    method EditUpperRows(c: HexCoordinates, ghost before: seq<HexCell>, ghost lower: seq<HexCoordinates>)
      returns (ghost visited: seq<HexCoordinates>)
      requires Wired(before, grid.cellCountX, grid.cellCountZ) && EditedWhere(before, grid.cells[..], lower)
      modifies grid.cells
      ensures visited == lower + UpperRows(c, brushSize, UpperRowCount(brushSize))
      ensures EditedWhere(before, grid.cells[..], visited)
    {
      var centerX, centerZ := c.x, c.z;
      visited := lower;
      var r, z := 0, centerZ + brushSize;
      while z > centerZ
        invariant r >= 0 && z == centerZ + brushSize - r
        invariant r <= UpperRowCount(brushSize)
        invariant visited == lower + UpperRows(c, brushSize, r)
        invariant EditedWhere(before, grid.cells[..], visited)
        decreases z - centerZ
      {
        ghost var row := Row(centerX - brushSize, centerX + r, z);
        assert UpperRows(c, brushSize, r + 1) == UpperRows(c, brushSize, r) + row;
        EditRow(centerX - brushSize, centerX + r, z, before, visited);
        assert lower + UpperRows(c, brushSize, r + 1) == visited + row;
        visited := visited + row;
        z, r := z - 1, r + 1;
      }
    }

    /** EditCells: edits every cell within brush-size distance of the centre cell, visiting
        the lower half of the disk row by row upwards, then the upper half downwards. */
    method EditCells(center: nat) returns (ghost visited: seq<HexCoordinates>)
      requires Valid() && center < grid.cells.Length
      modifies grid.cells
      ensures Valid()
      ensures visited == BrushCoordinates(old(grid.cells[center].coordinates), brushSize)
      ensures forall m :: 0 <= m < grid.cells.Length ==>
        grid.cells[m] ==
          if InBrush(old(grid.cells[center].coordinates), brushSize, old(grid.cells[m].coordinates))
          then Edited(old(grid.cells[m])) else old(grid.cells[m])
    {
      ghost var before := grid.cells[..];
      var c := grid.cells[center].coordinates;
      visited := EditLowerRows(c, before);
      visited := EditUpperRows(c, before, visited);
      forall m | 0 <= m < grid.cells.Length
        ensures grid.cells[m] ==
          if InBrush(c, brushSize, before[m].coordinates) then Edited(before[m]) else before[m]
      {
        BrushIsDisk(c, brushSize, before[m].coordinates);
      }
      WiredKeptByEdits(before, grid.cells[..], grid.cellCountX, grid.cellCountZ);
    }
  }
}
