// The earlier, smaller HexMetrics used by the flat-colour mesh: the same
// corner table, a solid factor of 0.75, and a bridge that spans only this
// cell's half of the blend region.
module HexMetricsBasic {
  import opened Vectors
  import opened HexDirections
  import M = HexMetrics

  const SolidFactor: real := 0.75
  const BlendFactor: real := 1.0 - SolidFactor

  function GetFirstCorner(d: Direction): (r: Vector3)
    ensures r.y == 0.0
    ensures r == M.Corners[d]
  {
    M.Corners[d]
  }

  function GetSecondCorner(d: Direction): (r: Vector3)
    ensures r.y == 0.0
    ensures r == GetFirstCorner(Next(d))
  {
    M.Corners[d + 1]
  }

  function GetFirstSolidCorner(d: Direction): (r: Vector3)
    ensures r == Scale(GetFirstCorner(d), SolidFactor)
  {
    Scale(M.Corners[d], SolidFactor)
  }

  function GetSecondSolidCorner(d: Direction): (r: Vector3)
    ensures r == GetFirstSolidCorner(Next(d))
  {
    Scale(M.Corners[d + 1], SolidFactor)
  }

  /** Half of the blend region between this cell's solid edge and its neighbour's. */
  function GetBridge(d: Direction): (r: Vector3)
    ensures r.y == 0.0
    ensures r == Scale(Add(GetFirstCorner(d), GetSecondCorner(d)), 0.5 * BlendFactor)
  {
    Scale(Scale(Add(M.Corners[d], M.Corners[d + 1]), 0.5), BlendFactor)
  }

  lemma SolidAndBlendSumToOne()
    ensures SolidFactor + BlendFactor == 1.0
  {
  }

  /** The vector identity behind the two-bridge rule, for corners a and b. */
  lemma BridgeAlgebra(a: Vector3, b: Vector3)
    ensures Add(Scale(a, SolidFactor), Scale(Scale(Scale(Add(a, b), 0.5), BlendFactor), 2.0))
         == Add(Add(a, b), Scale(Scale(b, -1.0), SolidFactor))
  {
  }

  /** Two bridges reach from a solid corner to the neighbour's facing solid corner. */
  lemma TwoBridgesMeetNeighbour(d: Direction)
    ensures Add(GetFirstSolidCorner(d), Scale(GetBridge(d), 2.0))
         == Add(M.NeighborCenterOffset(d), GetSecondSolidCorner(Opposite(d)))
  {
    M.OppositeNextCorner(d);
    BridgeAlgebra(M.Corners[d], M.Corners[d + 1]);
  }
}
