// HexMetrics of the map generator: geometric constants, the corner table,
// terrace interpolation, edge classification, noise perturbation, the hash
// grid and the wall helpers.
module HexMetrics {
  import opened CSharpNumerics
  import opened Vectors
  import opened HexDirections

  const OuterRadius: real := 10.0
  const OuterToInner: real := 0.866025404
  const InnerRadius: real := OuterRadius * OuterToInner

  const ElevationStep: real := 3.0
  const TerracesPerSlope: int := 2
  const TerraceSteps: int := TerracesPerSlope * 2 + 1
  const HorizontalTerraceStepSize: real := 1.0 / TerraceSteps as real
  const VerticalTerraceStepSize: real := 1.0 / (TerracesPerSlope + 1) as real

  const SolidFactor: real := 0.82
  const BlendFactor: real := 1.0 - SolidFactor
  const WaterFactor: real := 0.6
  const WaterBlendFactor: real := 1.0 - WaterFactor

  const CellPerturbStrength: real := 4.0
  const NoiseScale: real := 0.003

  const WallHeight: real := 3.0
  const WallThickness: real := 0.75
  const WallElevationOffset: real := VerticalTerraceStepSize

  const ChunkSizeX: int := 5
  const ChunkSizeZ: int := 5

  const HashGridSize: int := 256
  const HashGridScale: real := 0.25

  /** The six outer corners of a hex, clockwise from north; entry 6 repeats entry 0. */
  const Corners: seq<Vector3> := [
    Vector3(0.0, 0.0, OuterRadius),
    Vector3(InnerRadius, 0.0, 0.5 * OuterRadius),
    Vector3(InnerRadius, 0.0, -0.5 * OuterRadius),
    Vector3(0.0, 0.0, -OuterRadius),
    Vector3(-InnerRadius, 0.0, -0.5 * OuterRadius),
    Vector3(-InnerRadius, 0.0, 0.5 * OuterRadius),
    Vector3(0.0, 0.0, OuterRadius)
  ]

  function GetFirstCorner(d: Direction): (r: Vector3)
    ensures r.y == 0.0
    ensures r == Corners[d]
  {
    Corners[d]
  }

  /** Because entry 6 repeats entry 0, the second corner of d is the first corner of Next(d). */
  function GetSecondCorner(d: Direction): (r: Vector3)
    ensures r.y == 0.0
    ensures r == GetFirstCorner(Next(d))
  {
    Corners[d + 1]
  }

  function GetFirstSolidCorner(d: Direction): (r: Vector3)
    ensures r == Scale(GetFirstCorner(d), SolidFactor)
  {
    Scale(Corners[d], SolidFactor)
  }

  function GetSecondSolidCorner(d: Direction): (r: Vector3)
    ensures r == GetFirstSolidCorner(Next(d))
  {
    Scale(Corners[d + 1], SolidFactor)
  }

  function GetFirstWaterCorner(d: Direction): (r: Vector3)
    ensures r == Scale(GetFirstCorner(d), WaterFactor)
  {
    Scale(Corners[d], WaterFactor)
  }

  function GetSecondWaterCorner(d: Direction): (r: Vector3)
    ensures r == GetFirstWaterCorner(Next(d))
  {
    Scale(Corners[d + 1], WaterFactor)
  }

  /** Offset from a cell's solid edge across both blend regions to the neighbour's solid edge. */
  function GetBridge(d: Direction): (r: Vector3)
    ensures r.y == 0.0
  {
    Scale(Add(Corners[d], Corners[d + 1]), BlendFactor)
  }

  function GetWaterBridge(d: Direction): (r: Vector3)
    ensures r.y == 0.0
  {
    Scale(Add(Corners[d], Corners[d + 1]), WaterBlendFactor)
  }

  function GetSolidEdgeMiddle(d: Direction): (r: Vector3)
    ensures r == Scale(Add(GetFirstSolidCorner(d), GetSecondSolidCorner(d)), 0.5)
  {
    Scale(Add(Corners[d], Corners[d + 1]), 0.5 * SolidFactor)
  }

  /** Offset from a cell's centre to the centre of its neighbour in direction d. */
  function NeighborCenterOffset(d: Direction): Vector3 {
    Add(Corners[d], Corners[d + 1])
  }

  /** Opposite corners are reflections of each other through the centre. */
  lemma CornersPointSymmetric(d: Direction)
    ensures GetFirstCorner(Opposite(d)) == Scale(GetFirstCorner(d), -1.0)
  {
  }

  /** A solid corner plus the bridge lands exactly on the neighbour's facing solid corner,
      so the connection strips leave no crack. */
  lemma BridgeMeetsNeighbour(d: Direction)
    ensures Add(GetFirstSolidCorner(d), GetBridge(d))
         == Add(NeighborCenterOffset(d), GetSecondSolidCorner(Opposite(d)))
    ensures Add(GetSecondSolidCorner(d), GetBridge(d))
         == Add(NeighborCenterOffset(d), GetFirstSolidCorner(Opposite(d)))
  {
    if d == 0 {
    } else if d == 1 {
    } else if d == 2 {
    } else if d == 3 {
    } else if d == 4 {
    } else {
    }
  }

  /** The corner after the opposite direction's first corner is the reflection of the
      corner after this direction's first corner. */
  lemma OppositeNextCorner(d: Direction)
    ensures Corners[Opposite(d) + 1] == Scale(Corners[d + 1], -1.0)
  {
    if d == 0 {
    } else if d == 1 {
    } else if d == 2 {
    } else if d == 3 {
    } else if d == 4 {
    } else {
    }
  }

  /** The vector identities behind the water bridge, for the corners a and b of an edge. */
  lemma WaterBridgeAlgebra(a: Vector3, b: Vector3)
    ensures Add(Scale(a, WaterFactor), Scale(Add(a, b), WaterBlendFactor))
         == Add(Add(a, b), Scale(Scale(b, -1.0), WaterFactor))
    ensures Add(Scale(b, WaterFactor), Scale(Add(a, b), WaterBlendFactor))
         == Add(Add(a, b), Scale(Scale(a, -1.0), WaterFactor))
  {
  }

  /** A water corner plus the water bridge lands exactly on the neighbour's facing water
      corner, at both ends of the shared edge. */
  lemma WaterBridgeMeetsNeighbour(d: Direction)
    ensures Add(GetFirstWaterCorner(d), GetWaterBridge(d))
         == Add(NeighborCenterOffset(d), GetSecondWaterCorner(Opposite(d)))
    ensures Add(GetSecondWaterCorner(d), GetWaterBridge(d))
         == Add(NeighborCenterOffset(d), GetFirstWaterCorner(Opposite(d)))
  {
    OppositeNextCorner(d);
    CornersPointSymmetric(d);
    WaterBridgeAlgebra(Corners[d], Corners[d + 1]);
  }

  lemma SolidAndBlendSumToOne()
    ensures SolidFactor + BlendFactor == 1.0
    ensures WaterFactor + WaterBlendFactor == 1.0
  {
  }

  // ---- Terraces ----

  /** The horizontal terrace fraction: one fifth per step. */
  function HorizontalFactor(step: int): real {
    step as real * HorizontalTerraceStepSize
  }

  /** The vertical terrace fraction: rises by a third on every odd step (C#'s truncating division). */
  function VerticalFactor(step: int): real {
    CsDiv(step + 1, 2) as real * VerticalTerraceStepSize
  }

  function TerraceLerp(a: Vector3, b: Vector3, step: int): (r: Vector3)
    ensures step == 0 ==> r == a
    ensures step == TerraceSteps ==> r == b
  {
    var h := HorizontalFactor(step);
    var v := VerticalFactor(step);
    Vector3(a.x + (b.x - a.x) * h, a.y + (b.y - a.y) * v, a.z + (b.z - a.z) * h)
  }

  function TerraceLerpColor(a: Color, b: Color, step: int): (r: Color)
    ensures step <= 0 ==> r == a
    ensures step >= TerraceSteps ==> r == b
  {
    LerpColor(a, b, HorizontalFactor(step))
  }

  /** Between the two ends a terrace step moves a point along the segment:
      the horizontal part strictly, the height only on odd steps. */
  lemma TerraceStepFactors(a: Vector3, b: Vector3, step: int)
    requires 0 <= step < TerraceSteps
    ensures HorizontalFactor(step) < HorizontalFactor(step + 1)
    ensures step % 2 == 1 ==> TerraceLerp(a, b, step).y == TerraceLerp(a, b, step + 1).y
    ensures step % 2 == 0 ==> VerticalFactor(step) + VerticalTerraceStepSize == VerticalFactor(step + 1)
    ensures 0.0 <= VerticalFactor(step) <= 1.0 && 0.0 <= HorizontalFactor(step) <= 1.0
  {
    assert CsDiv(step + 1, 2) == (step + 1) / 2;
    assert CsDiv(step + 2, 2) == (step + 2) / 2;
  }

  // ---- Edge classification ----

  datatype EdgeType = Flat | Slope | Cliff

  function GetEdgeType(elevation1: int, elevation2: int): (r: EdgeType)
    ensures r == Flat <==> elevation1 == elevation2
    ensures r == Slope <==> Abs(elevation1 - elevation2) == 1
    ensures r == Cliff <==> Abs(elevation1 - elevation2) > 1
  {
    if elevation1 == elevation2 then Flat
    else
      var delta := elevation1 - elevation2;
      if delta == -1 || delta == 1 then Slope else Cliff
  }

  lemma EdgeTypeSymmetric(e1: int, e2: int)
    ensures GetEdgeType(e1, e2) == GetEdgeType(e2, e1)
  {
  }

  // ---- Noise ----

  /** The noise texture's bilinear sample at texture coordinates (u, v). */
  type NoiseSource = (real, real) -> Vector4

  function SampleNoise(noise: NoiseSource, p: Vector3): Vector4 {
    noise(p.x * NoiseScale, p.z * NoiseScale)
  }

  /** Jitters x and z by the noise sample; y is never touched. */
  function Perturb(noise: NoiseSource, p: Vector3): (r: Vector3)
    ensures r.y == p.y
  {
    var sample := SampleNoise(noise, p);
    Vector3(p.x + (sample.x * 2.0 - 1.0) * CellPerturbStrength, p.y,
            p.z + (sample.z * 2.0 - 1.0) * CellPerturbStrength)
  }

  /** A texture sample in [0, 1] moves x and z by at most the perturb strength. */
  lemma PerturbBounded(noise: NoiseSource, p: Vector3)
    ensures 0.0 <= SampleNoise(noise, p).x <= 1.0 ==> -CellPerturbStrength <= Perturb(noise, p).x - p.x <= CellPerturbStrength
    ensures 0.0 <= SampleNoise(noise, p).z <= 1.0 ==> -CellPerturbStrength <= Perturb(noise, p).z - p.z <= CellPerturbStrength
  {
  }

  // ---- Hash grid ----

  /** One entry of the hash grid: five values drawn from the seeded generator. */
  datatype HexHash = HexHash(a: real, b: real, c: real, d: real, e: real)

  /** The i-th hash drawn from the engine's random generator after seeding it with seed. */
  type HashSource = (int, nat) -> HexHash

  const HashGridLength: nat := 256 * 256

  /** The grid InitializeHashGrid builds for a seed. */
  function HashGridOf(seed: int, source: HashSource): (g: seq<HexHash>)
    ensures |g| == HashGridLength
  {
    seq(HashGridLength, i requires 0 <= i => source(seed, i))
  }

  /** Allocates the 256 x 256 grid and fills it in index order from the seeded generator. */
  method InitializeHashGrid(seed: int, source: HashSource) returns (grid: array<HexHash>)
    ensures fresh(grid)
    ensures grid.Length == HashGridSize * HashGridSize
    ensures grid[..] == HashGridOf(seed, source)
  {
    grid := new HexHash[HashGridSize * HashGridSize](_ => HexHash(0.0, 0.0, 0.0, 0.0, 0.0));
    var i := 0;
    while i < grid.Length
      invariant 0 <= i <= grid.Length
      invariant forall k :: 0 <= k < i ==> grid[k] == source(seed, k)
    {
      grid[i] := source(seed, i);
      i := i + 1;
    }
  }

  /** One axis of SampleHashGrid: scale, truncate, C# remainder, then lift negatives by 256. */
  function HashAxis(v: real): (r: int)
    ensures 0 <= r < HashGridSize
    ensures r == Trunc(v * HashGridScale) % HashGridSize
  {
    var t := Trunc(v * HashGridScale);
    var x := CsMod(t, HashGridSize);
    assert x == t - CsDiv(t, HashGridSize) * HashGridSize;
    if x < 0 then x + HashGridSize else x
  }

  function HashIndex(p: Vector3): (i: nat)
    ensures i < HashGridLength
    ensures i % HashGridSize == HashAxis(p.x) && i / HashGridSize == HashAxis(p.z)
  {
    HashAxis(p.x) + HashAxis(p.z) * HashGridSize
  }

  function SampleHashGrid(grid: seq<HexHash>, p: Vector3): (h: HexHash)
    requires |grid| == HashGridLength
    ensures h in grid
  {
    grid[HashIndex(p)]
  }

  // ---- Feature thresholds ----

  const FeatureThresholds: seq<seq<real>> := [
    [0.0, 0.0, 0.4],
    [0.0, 0.4, 0.6],
    [0.4, 0.6, 0.8]
  ]

  function GetFeatureThresholds(level: int): (r: seq<real>)
    requires 0 <= level < |FeatureThresholds|
    ensures |r| == 3
    ensures forall i :: 0 <= i < |r| ==> 0.0 <= r[i] < 1.0
    ensures forall i, j :: 0 <= i <= j < |r| ==> r[i] <= r[j]
  {
    FeatureThresholds[level]
  }

  /** A higher density level never lowers a threshold. */
  lemma FeatureThresholdsGrowWithLevel(l1: int, l2: int, i: int)
    requires 0 <= l1 <= l2 < |FeatureThresholds| && 0 <= i < 3
    ensures GetFeatureThresholds(l1)[i] <= GetFeatureThresholds(l2)[i]
  {
  }

  // ---- Walls ----

  /** The length of a vector: a square root, supplied by the engine. */
  type Magnitude = Vector3 -> real

  /** wallThicknessOffset: half the wall thickness along the horizontal direction near -> far;
      Unity's `normalized` yields the zero vector for lengths at most 1e-5. */
  function WallThicknessOffset(near: Vector3, far: Vector3, magnitude: Magnitude): (r: Vector3)
    ensures r.y == 0.0
    ensures r.x * (far.z - near.z) == r.z * (far.x - near.x)
    ensures r.x * (far.x - near.x) + r.z * (far.z - near.z) >= 0.0
    ensures magnitude(Vector3(far.x - near.x, 0.0, far.z - near.z)) <= 0.00001 ==> r == Zero
  {
    var offset := Vector3(far.x - near.x, 0.0, far.z - near.z);
    var m := magnitude(offset);
    if m > 0.00001 then
      var k := (WallThickness * 0.5) / m;
      ScaledAlong(offset.x, offset.z, k);
      Scale(offset, k)
    else Zero
  }

  /** A non-negative multiple of (dx, dz) is parallel to it and does not point against it. */
  lemma ScaledAlong(dx: real, dz: real, k: real)
    requires k >= 0.0
    ensures (dx * k) * dz == (dz * k) * dx
    ensures (dx * k) * dx + (dz * k) * dz >= 0.0
  {
    assert (dx * k) * dx + (dz * k) * dz == k * (dx * dx + dz * dz);
    assert dx * dx + dz * dz >= 0.0;
  }

  /** WallLerp: the horizontal midpoint, raised a third of the way from the lower end. */
  function WallLerp(near: Vector3, far: Vector3): (r: Vector3)
    ensures r.x == (near.x + far.x) / 2.0 && r.z == (near.z + far.z) / 2.0
    ensures near.y <= far.y ==> r.y == near.y + (far.y - near.y) / 3.0
    ensures far.y <= near.y ==> r.y == far.y + (near.y - far.y) / 3.0
  {
    var v := if near.y < far.y then WallElevationOffset else 1.0 - WallElevationOffset;
    Vector3(near.x + (far.x - near.x) * 0.5, near.y + (far.y - near.y) * v, near.z + (far.z - near.z) * 0.5)
  }

  /** The wall's foot does not depend on which side is called near. */
  lemma WallLerpSymmetric(a: Vector3, b: Vector3)
    ensures WallLerp(a, b) == WallLerp(b, a)
  {
  }
}
