// The flat-colour HexMesh of the earlier map: every cell becomes a fan of six
// triangles around its centre, each vertex coloured with the cell's colour.
module ColorHexMeshes {
  import opened Vectors
  import opened HexDirections
  import opened HexCells
  import B = HexMetricsBasic

  /** The first n triangles of a cell's fan: triangle i runs from the centre to
      corner i and on to corner i + 1. */
  function FanUpTo(center: Vector3, n: nat): (r: seq<Vector3>)
    requires n <= 6
    ensures |r| == 3 * n
  {
    if n == 0 then []
    else FanUpTo(center, n - 1) + [center, Add(center, B.GetFirstCorner(n - 1)), Add(center, B.GetSecondCorner(n - 1))]
  }

  /** The eighteen vertices of one cell's fan. */
  function CellFan(center: Vector3): seq<Vector3> {
    FanUpTo(center, 6)
  }

  /** The vertices Triangulate lays down for a sequence of cells, cell by cell. */
  function FanVertices(cells: seq<HexCell>): (r: seq<Vector3>)
    ensures |r| == 18 * |cells|
  {
    if |cells| == 0 then [] else FanVertices(cells[..|cells| - 1]) + CellFan(cells[|cells| - 1].position)
  }

  function Repeat(c: Color, n: nat): (r: seq<Color>)
    ensures |r| == n && forall k :: 0 <= k < n ==> r[k] == c
  {
    if n == 0 then [] else Repeat(c, n - 1) + [c]
  }

  /** The colours Triangulate lays down: eighteen copies of each cell's colour. */
  function FanColors(cells: seq<HexCell>): (r: seq<Color>)
    ensures |r| == 18 * |cells|
  {
    if |cells| == 0 then [] else FanColors(cells[..|cells| - 1]) + Repeat(cells[|cells| - 1].color, 18)
  }

  /** Triangle i of a fan is (centre, corner i, corner i + 1) offset by the centre. */
  lemma {:induction false} FanTriangle(center: Vector3, n: nat, i: nat)
    requires i < n <= 6
    ensures FanUpTo(center, n)[3 * i..3 * i + 3]
         == [center, Add(center, B.GetFirstCorner(i)), Add(center, B.GetSecondCorner(i))]
  {
    if i < n - 1 {
      FanTriangle(center, n - 1, i);
      assert FanUpTo(center, n)[..3 * (n - 1)] == FanUpTo(center, n - 1);
    }
  }

  /** Triangulating a + b lays down a's vertices, then b's. */
  lemma {:induction false} FanVerticesAppend(a: seq<HexCell>, b: seq<HexCell>)
    ensures FanVertices(a + b) == FanVertices(a) + FanVertices(b)
    decreases |b|
  {
    if |b| > 0 {
      var b' := b[..|b| - 1];
      assert (a + b)[..|a + b| - 1] == a + b';
      FanVerticesAppend(a, b');
    } else {
      assert a + b == a;
    }
  }

  lemma {:induction false} FanColorsAppend(a: seq<HexCell>, b: seq<HexCell>)
    ensures FanColors(a + b) == FanColors(a) + FanColors(b)
    decreases |b|
  {
    if |b| > 0 {
      var b' := b[..|b| - 1];
      assert (a + b)[..|a + b| - 1] == a + b';
      FanColorsAppend(a, b');
    } else {
      assert a + b == a;
    }
  }

  /** The k-th cell owns vertices 18k .. 18k + 17: its own fan. */
  lemma CellOwnsFan(cells: seq<HexCell>, k: nat)
    requires k < |cells|
    ensures 18 * k + 18 <= |FanVertices(cells)|
    ensures FanVertices(cells)[18 * k..18 * k + 18] == CellFan(cells[k].position)
  {
    var before, one, rest := cells[..k], [cells[k]], cells[k + 1..];
    SplitAround(cells, k);
    FanVerticesAppend(before + one, rest);
    FanVerticesAppend(before, one);
    assert one[..0] == [];
    var own := CellFan(cells[k].position);
    assert FanVertices(one) == own;
    var all := FanVertices(before) + own + FanVertices(rest);
    assert all[18 * k..18 * k + 18] == own;
  }

  /** The k-th cell's eighteen colours are all the cell's colour. */
  lemma CellOwnsColors(cells: seq<HexCell>, k: nat)
    requires k < |cells|
    ensures FanColors(cells)[18 * k..18 * k + 18] == Repeat(cells[k].color, 18)
  {
    var before, one, rest := cells[..k], [cells[k]], cells[k + 1..];
    SplitAround(cells, k);
    FanColorsAppend(before + one, rest);
    FanColorsAppend(before, one);
    assert one[..0] == [];
    var own := Repeat(cells[k].color, 18);
    assert FanColors(one) == own;
    var all := FanColors(before) + own + FanColors(rest);
    assert all[18 * k..18 * k + 18] == own;
  }

  /** Triangle i of the k-th cell is (centre, centre + corner i, centre + corner i + 1). */
  lemma CellTriangle(cells: seq<HexCell>, k: nat, i: nat)
    requires k < |cells| && i < 6
    ensures 18 * k + 3 * i + 3 <= |FanVertices(cells)|
    ensures FanVertices(cells)[18 * k + 3 * i..18 * k + 3 * i + 3]
         == [cells[k].position, Add(cells[k].position, B.GetFirstCorner(i)),
             Add(cells[k].position, B.GetSecondCorner(i))]
  {
    var fan, own := FanVertices(cells), CellFan(cells[k].position);
    CellOwnsFan(cells, k);
    assert fan[18 * k..18 * k + 18] == own;
    FanTriangle(cells[k].position, 6, i);
    assert own[3 * i..3 * i + 3] == [cells[k].position, Add(cells[k].position, B.GetFirstCorner(i)),
                                     Add(cells[k].position, B.GetSecondCorner(i))];
    SliceOfSlice(fan, 18 * k, 18, 3 * i, 3 * i + 3);
  }

  /** A sequence is its prefix, the element at k and its suffix. */
  lemma SplitAround<T>(s: seq<T>, k: nat)
    requires k < |s|
    ensures s == s[..k] + [s[k]] + s[k + 1..]
  {
  }

  lemma SliceOfSlice<T>(a: seq<T>, s: nat, n: nat, lo: nat, hi: nat)
    requires s + n <= |a| && lo <= hi <= n
    ensures a[s + lo..s + hi] == a[s..s + n][lo..hi]
  {
    var inner, outer := a[s + lo..s + hi], a[s..s + n][lo..hi];
    assert |inner| == |outer|;
    forall j | 0 <= j < |inner|
      ensures inner[j] == outer[j]
    {
    }
  }

  /** Every index names the vertex at its own position: triangles are consecutive. */
  ghost predicate Consecutive(triangles: seq<int>) {
    forall k :: 0 <= k < |triangles| ==> triangles[k] == k
  }

  class HexMesh {
    var vertices: seq<Vector3>
    var triangles: seq<int>
    var colors: seq<Color>

    /** One index per vertex, each naming its own vertex. */
    ghost predicate Valid()
      reads this
    {
      |triangles| == |vertices| && Consecutive(triangles)
    }

    /** Awake: empty lists. */
    constructor ()
      ensures Valid() && vertices == [] && triangles == [] && colors == []
    {
      vertices, triangles, colors := [], [], [];
    }

    method AddTriangle(v1: Vector3, v2: Vector3, v3: Vector3)
      requires Valid()
      modifies this`vertices, this`triangles
      ensures Valid()
      ensures vertices == old(vertices) + [v1, v2, v3]
      ensures triangles == old(triangles) + [|old(vertices)|, |old(vertices)| + 1, |old(vertices)| + 2]
    {
      var vertexIndex := |vertices|;
      vertices := vertices + [v1, v2, v3];
      triangles := triangles + [vertexIndex, vertexIndex + 1, vertexIndex + 2];
    }

    method AddTriangleColor(color: Color)
      modifies this`colors
      ensures colors == old(colors) + [color, color, color]
    {
      colors := colors + [color, color, color];
    }

    /** Triangulate(HexCell): the cell's six-triangle fan, one colour throughout; vertex
        and colour lists grow together. */
    method TriangulateCell(cell: HexCell)
      requires Valid()
      modifies this`vertices, this`triangles, this`colors
      ensures Valid()
      ensures vertices == old(vertices) + CellFan(cell.position)
      ensures colors == old(colors) + Repeat(cell.color, 18)
    {
      var center := cell.position;
      var i := 0;
      while i < 6
        invariant 0 <= i <= 6 && Valid()
        invariant vertices == old(vertices) + FanUpTo(center, i)
        invariant colors == old(colors) + Repeat(cell.color, 3 * i)
      {
        ghost var triangle := [center, Add(center, B.GetFirstCorner(i)), Add(center, B.GetSecondCorner(i))];
        assert FanUpTo(center, i + 1) == FanUpTo(center, i) + triangle;
        AddTriangle(center, Add(center, B.M.Corners[i]), Add(center, B.M.Corners[i + 1]));
        assert vertices == old(vertices) + FanUpTo(center, i) + triangle;
        AddTriangleColor(cell.color);
        assert Repeat(cell.color, 3 * (i + 1)) == Repeat(cell.color, 3 * i) + [cell.color, cell.color, cell.color];
        i := i + 1;
      }
    }

    /** Triangulate(HexCell[]): clears the lists, then lays down every cell's fan in
        array order. */
    method Triangulate(cells: seq<HexCell>)
      modifies this`vertices, this`triangles, this`colors
      ensures Valid()
      ensures vertices == FanVertices(cells) && colors == FanColors(cells)
      ensures |vertices| == |triangles| == |colors| == 18 * |cells|
    {
      vertices, triangles, colors := [], [], [];
      var i := 0;
      while i < |cells|
        invariant 0 <= i <= |cells| && Valid()
        invariant vertices == FanVertices(cells[..i]) && colors == FanColors(cells[..i])
      {
        TriangulateCell(cells[i]);
        assert cells[..i + 1][..i] == cells[..i];
        i := i + 1;
      }
      assert cells[..i] == cells;
    }
  }
}
