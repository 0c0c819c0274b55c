# HexMap core in Dafny

A verified model of the core of HexMap, a Unity hex-grid map editor and
generator written in C#. The model covers:

- the six hex directions and their cyclic arithmetic;
- cube coordinates of a cell and their two string renderings;
- both `HexMetrics` tables: the small one used by the flat-colour mesh, and the generator's
  one with terraces, noise perturbation, the hash grid, feature thresholds and wall helpers;
- the five-point `EdgeVertices` of a cell edge;
- cells as nodes of an arena, linked to their neighbours;
- the generator's `HexGrid`: building, addressing, chunk slots, save and load;
- `ListPool`;
- both `HexMesh` classes: the generator's buffer mesh and the earlier flat-colour mesh;
- `HexFeatureCollection.Pick`;
- `HexFeatureManager`: feature choice, placement and wall segments;
- `HexMapEditor`: colour, elevation, brush and the edit of every cell under the brush.

How the C# is represented:

- Floats are idealised as `real`.
- C#'s truncating integer `/` and `%` and its truncating `(int)` cast are written out in
  `CSharpNumerics`.
- Engine services become parameters:
  - the noise texture is a function `(u, v) -> Vector4`;
  - vector length (a square root) is a function;
  - the seeded random generator is a function `(seed, i) -> HexHash`;
  - a prefab's height is a function;
  - the per-cell `Save`/`Load` are a writer and a reader function.
- Cells live in the grid's `array<HexCell>`. A neighbour slot holds the index of another
  cell, or `None` for C#'s `null`. `GetCell` returns an index.
- Where the C# would throw `IndexOutOfRangeException`, the model returns an explicit
  failure: `Indexed.IndexOutOfRange` or `ok == false`.
- Mutable objects are classes:
  - `HexMesh`, with its lists as `seq` fields the methods reassign;
  - `HexGrid`, with its cell array;
  - `HexFeatureManager`, `HexMapEditor` and `ListPool`.
- Code that only computes a value is written as functions and lemmas.

Points where the C# behaves other than its names suggest; the model follows the code:

- `HexFeatureCollection.Pick` reads index `(int)(choice * length)`. With truncation toward
  zero, that read is in bounds exactly when `-1 < choice * length < length`, not only for
  `0 <= choice < 1`.
- The generator's `HexMesh.Clear` fetches a fresh colour, UV, UV2 or terrain-type list only
  when the matching `_isUsing…` flag is set. An unused list keeps its old contents.
- `(p_z & 1) == 0` in `CreateCell` is the parity test `z % 2 == 0` on the non-negative
  row index.
- Some members name other classes:
  - `HexMapEditor` uses `HexGrid.GetCell(HexCoordinates)` and `HexCell.Elevation`;
  - `HexFeatureManager` uses `AddQuad`/`Clear` on its walls mesh and
    `HexMetrics.GetFeatureThresholds`/`Perturb`.
  `GetCell(HexCoordinates)`, `AddQuad`, `Clear`, `GetFeatureThresholds` and `Perturb`
  exist only in the generator's `HexGrid`, `HexMesh` and `HexMetrics`, so those are the
  definitions the model uses. `Elevation` is a property of the generator's `HexCell`
  (written, for example, by the generator's `HexGrid.CreateCell`); the model stores it as
  a field of the cell.
- The cell fields `UrbanLevel`, `FarmLevel`, `PlantLevel` and `Walled` are not fields of
  `Scripts/HexMap/HexCell.cs`. They are passed to the operations as parameters.

## Model

| member | source | states |
|---|---|---|
| HexDirections.Opposite | HexMap/Assets/Scripts/Parameters/HexDirectionExtensions.cs:7-9 | the opposite direction is a half turn (three sixths), never the same direction, and swaps the halves NE..SE and SW..NW |
| HexDirections.Previous | HexMap/Assets/HexMapToolGenerator/Scripts/Parameters/HexDirectionExtensions.cs:13-15 | one sixth turn counter-clockwise, NE wrapping to NW |
| HexDirections.Next | HexMap/Assets/HexMapToolGenerator/Scripts/Parameters/HexDirectionExtensions.cs:17-19 | one sixth turn clockwise, NW wrapping to NE |
| HexDirections.Previous2 | HexMap/Assets/HexMapToolGenerator/Scripts/Parameters/HexDirectionExtensions.cs:21-24 | two sixths counter-clockwise |
| HexDirections.Next2 | HexMap/Assets/HexMapToolGenerator/Scripts/Parameters/HexDirectionExtensions.cs:26-29 | two sixths clockwise |
| HexDirections.OppositeInvolution | HexMap/Assets/Scripts/Parameters/enums.cs:7-9 | the opposite of the opposite is the direction itself |
| HexDirections.NextPreviousInverse | HexMap/Assets/Scripts/Parameters/HexDirectionExtensions.cs:11-17 | Next and Previous undo each other |
| HexDirections.WrapAround | HexMap/Assets/Scripts/Parameters/HexDirectionExtensions.cs:11-17 | Next(NW) is NE and Previous(NE) is NW |
| HexDirections.Next2IsNextTwice | HexMap/Assets/HexMapToolGenerator/Scripts/Parameters/HexDirectionExtensions.cs:13-29 | Next2 is Next applied twice, Previous2 is Previous applied twice |
| HexDirections.Next2Previous2Inverse | HexMap/Assets/HexMapToolGenerator/Scripts/Parameters/HexDirectionExtensions.cs:21-29 | Next2 and Previous2 undo each other |
| HexDirections.OppositeIsThreeSteps | HexMap/Assets/HexMapToolGenerator/Scripts/Parameters/HexDirectionExtensions.cs:9-19 | the opposite is three Next steps, and three Previous steps |
| HexCoords.HexCoordinates.Y | HexMap/Assets/Scripts/HexMap/HexCoordinates.cs:19-21 | the derived cube coordinate makes X + Y + Z zero |
| HexCoords.FromOffsetCoordinates | HexMap/Assets/Scripts/HexMap/HexCoordinates.cs:28-30 | row kept; the column is recovered by adding back the C#-truncated half row |
| HexCoords.OffsetRoundTrip | HexMap/Assets/Scripts/HexMap/HexCoordinates.cs:28-30 | offset to cube and back is the identity, both ways round |
| HexCoords.ToString | HexMap/Assets/Scripts/HexMap/HexCoordinates.cs:32-35 | parentheses around three comma-separated fields: X, then Y and Z each led by a space |
| HexCoords.ToStringOnSeparateLines | HexMap/Assets/Scripts/HexMap/HexCoordinates.cs:37-40 | exactly three lines, X, Y and Z |
| HexCoords.ToStringRoundTrip | HexMap/Assets/Scripts/HexMap/HexCoordinates.cs:32-35 | "(X, Y, Z)" parses back to the same coordinates |
| HexCoords.SeparateLinesRoundTrip | HexMap/Assets/Scripts/HexMap/HexCoordinates.cs:37-40 | the three lines X, Y, Z parse back to the same coordinates |
| EdgeVertices.FromCorners | HexMap/Assets/Scripts/HexMap/EdgeVertices.cs:6-12 | ends at the corners, middle at the midpoint, v2 and v4 at a quarter and three quarters of the edge |
| EdgeVertices.WithOuterStep | HexMap/Assets/Scripts/HexMap/EdgeVertices.cs:14-20 | ends at the corners, middle at the midpoint, v2 and v4 symmetric about it (outerStep from either end when it lies in [0, 1]) |
| EdgeVertices.DefaultIsQuarterStep | HexMap/Assets/Scripts/HexMap/EdgeVertices.cs:6-20 | the two-argument constructor is the outer-step constructor with step 1/4 |
| EdgeVertices.TerraceLerp | HexMap/Assets/Scripts/HexMap/EdgeVertices.cs:22-32 | step 0 gives the first edge, the last terrace step gives the second |
| EdgeVertices.TerraceKeepsEvenSplit | HexMap/Assets/Scripts/HexMap/EdgeVertices.cs:22-32 | terracing two evenly split edges gives the evenly split edge between the terraced corners |
| HexMetricsBasic.GetFirstCorner | HexMap/Assets/Scripts/Parameters/HexMetrics.cs:22-24 | a corner on the ground plane, from the shared corner table |
| HexMetricsBasic.GetSecondCorner | HexMap/Assets/Scripts/Parameters/HexMetrics.cs:26-28 | the second corner of d is the first corner of Next(d) |
| HexMetricsBasic.GetFirstSolidCorner | HexMap/Assets/Scripts/Parameters/HexMetrics.cs:30-32 | the corner scaled by the solid factor 0.75 |
| HexMetricsBasic.GetSecondSolidCorner | HexMap/Assets/Scripts/Parameters/HexMetrics.cs:34-36 | the second solid corner of d is the first solid corner of Next(d) |
| HexMetricsBasic.GetBridge | HexMap/Assets/Scripts/Parameters/HexMetrics.cs:38-40 | half the blend factor times the sum of the edge's corners, on the ground plane |
| HexMetricsBasic.SolidAndBlendSumToOne | HexMap/Assets/Scripts/Parameters/HexMetrics.cs:9-10 | solid and blend factors add up to one |
| HexMetricsBasic.TwoBridgesMeetNeighbour | HexMap/Assets/Scripts/Parameters/HexMetrics.cs:12-40 | two of these half bridges lead from a solid corner to the neighbour's facing solid corner |
| HexMetrics.GetFirstCorner | HexMap/Assets/HexMapToolGenerator/Scripts/Parameters/HexMetrics.cs:74-76 | corner d of the table, on the ground plane |
| HexMetrics.GetSecondCorner | HexMap/Assets/HexMapToolGenerator/Scripts/Parameters/HexMetrics.cs:78-80 | the second corner of d is the first corner of Next(d) |
| HexMetrics.GetFirstSolidCorner | HexMap/Assets/HexMapToolGenerator/Scripts/Parameters/HexMetrics.cs:82-84 | the corner scaled by the solid factor |
| HexMetrics.GetSecondSolidCorner | HexMap/Assets/HexMapToolGenerator/Scripts/Parameters/HexMetrics.cs:86-88 | the second solid corner of d is the first solid corner of Next(d) |
| HexMetrics.GetFirstWaterCorner | HexMap/Assets/HexMapToolGenerator/Scripts/Parameters/HexMetrics.cs:90-92 | the corner scaled by the water factor |
| HexMetrics.GetSecondWaterCorner | HexMap/Assets/HexMapToolGenerator/Scripts/Parameters/HexMetrics.cs:93-95 | the second water corner of d is the first water corner of Next(d) |
| HexMetrics.GetBridge | HexMap/Assets/HexMapToolGenerator/Scripts/Parameters/HexMetrics.cs:97-99 | the bridge lies on the ground plane |
| HexMetrics.GetWaterBridge | HexMap/Assets/HexMapToolGenerator/Scripts/Parameters/HexMetrics.cs:101-103 | the water bridge lies on the ground plane |
| HexMetrics.WaterBridgeMeetsNeighbour | HexMap/Assets/HexMapToolGenerator/Scripts/Parameters/HexMetrics.cs:90-103 | a water corner plus the water bridge lands on the neighbour's facing water corner, at both ends of the edge |
| HexMetrics.GetSolidEdgeMiddle | HexMap/Assets/HexMapToolGenerator/Scripts/Parameters/HexMetrics.cs:138-142 | the midpoint of the two solid corners of the edge |
| HexMetrics.CornersPointSymmetric | HexMap/Assets/HexMapToolGenerator/Scripts/Parameters/HexMetrics.cs:58-66 | the corner of the opposite direction is the corner reflected through the centre |
| HexMetrics.BridgeMeetsNeighbour | HexMap/Assets/HexMapToolGenerator/Scripts/Parameters/HexMetrics.cs:82-99 | a solid corner plus the bridge lands on the neighbour's facing solid corner, at both ends of the edge |
| HexMetrics.SolidAndBlendSumToOne | HexMap/Assets/HexMapToolGenerator/Scripts/Parameters/HexMetrics.cs:25-29 | solid plus blend and water plus water blend are both one |
| HexMetrics.TerraceLerp | HexMap/Assets/HexMapToolGenerator/Scripts/Parameters/HexMetrics.cs:105-114 | step 0 is the start, the last step (5) is the end |
| HexMetrics.TerraceLerpColor | HexMap/Assets/HexMapToolGenerator/Scripts/Parameters/HexMetrics.cs:116-119 | no step gives the first colour, the last step or beyond gives the second |
| HexMetrics.TerraceStepFactors | HexMap/Assets/HexMapToolGenerator/Scripts/Parameters/HexMetrics.cs:105-114 | each step moves strictly further horizontally; the height rises a third on even-to-odd steps and stays on odd-to-even steps; both fractions stay in [0, 1] |
| HexMetrics.GetEdgeType | HexMap/Assets/HexMapToolGenerator/Scripts/Parameters/HexMetrics.cs:121-132 | Flat iff equal elevations, Slope iff they differ by one, Cliff iff by more |
| HexMetrics.EdgeTypeSymmetric | HexMap/Assets/HexMapToolGenerator/Scripts/Parameters/HexMetrics.cs:121-132 | the edge type does not depend on the order of the two cells |
| HexMetrics.Perturb | HexMap/Assets/HexMapToolGenerator/Scripts/Parameters/HexMetrics.cs:144-149 | perturbation never changes the height |
| HexMetrics.PerturbBounded | HexMap/Assets/HexMapToolGenerator/Scripts/Parameters/HexMetrics.cs:144-149 | with a texture sample in [0, 1], x and z move by at most the perturb strength 4 |
| HexMetrics.HashGridOf | HexMap/Assets/HexMapToolGenerator/Scripts/Parameters/HexMetrics.cs:151-161 | the hash grid has 256 * 256 entries |
| HexMetrics.InitializeHashGrid | HexMap/Assets/HexMapToolGenerator/Scripts/Parameters/HexMetrics.cs:151-161 | a fresh 256 * 256 array holding the seeded generator's hashes in index order |
| HexMetrics.HashAxis | HexMap/Assets/HexMapToolGenerator/Scripts/Parameters/HexMetrics.cs:163-175 | C#'s signed remainder lifted by 256 is the non-negative remainder of the truncated scaled coordinate, in [0, 256) |
| HexMetrics.HashIndex | HexMap/Assets/HexMapToolGenerator/Scripts/Parameters/HexMetrics.cs:163-175 | the index lies in the grid, its column is the x axis value and its row the z axis value |
| HexMetrics.SampleHashGrid | HexMap/Assets/HexMapToolGenerator/Scripts/Parameters/HexMetrics.cs:163-175 | every position samples an entry of the grid (never out of range) |
| HexMetrics.GetFeatureThresholds | HexMap/Assets/HexMapToolGenerator/Scripts/Parameters/HexMetrics.cs:177-179 | three thresholds in [0, 1), non-decreasing |
| HexMetrics.FeatureThresholdsGrowWithLevel | HexMap/Assets/HexMapToolGenerator/Scripts/Parameters/HexMetrics.cs:52-56 | a higher level never lowers a threshold |
| HexMetrics.WallThicknessOffset | HexMap/Assets/HexMapToolGenerator/Scripts/Parameters/HexMetrics.cs:181-187 | the offset is horizontal, parallel to the horizontal near-to-far vector and not pointing against it, and zero when that vector's magnitude is at most 0.00001 |
| HexMetrics.WallLerp | HexMap/Assets/HexMapToolGenerator/Scripts/Parameters/HexMetrics.cs:189-197 | the horizontal midpoint, a third of the way up from the lower end |
| HexMetrics.WallLerpSymmetric | HexMap/Assets/HexMapToolGenerator/Scripts/Parameters/HexMetrics.cs:189-197 | swapping near and far gives the same point |
| HexCells.GetNeighbor | HexMap/Assets/Scripts/HexMap/HexCell.cs:32-34 | the index held in slot d, None exactly when the slot is null |
| HexCells.Linked | HexMap/Assets/Scripts/HexMap/HexCell.cs:36-39 | slot d of this cell and the opposite slot of the other cell are set, every other slot and field is unchanged |
| HexCells.SetNeighborLinksBothWays | HexMap/Assets/Scripts/HexMap/HexCell.cs:32-39 | after SetNeighbor, GetNeighbor(d) is the other cell and its GetNeighbor(Opposite(d)) is this cell |
| HexCells.SetNeighbor | HexMap/Assets/Scripts/HexMap/HexCell.cs:36-39 | the arena after the two slot writes is Linked of the old arena |
| HexCells.SetColor | HexMap/Assets/Scripts/HexMap/HexCell.cs:23-26 | only that cell's colour changes |
| HexCells.SetCoordinates | HexMap/Assets/Scripts/HexMap/HexCell.cs:18-21 | only that cell's coordinates change |
| HexGrids.Coordinates | HexMap/Assets/HexMapToolGenerator/Scripts/HexMap/HexGrid.cs:90-129 | the cell at index i has a row and column inside the grid |
| HexGrids.RowShift | HexMap/Assets/HexMapToolGenerator/Scripts/HexMap/HexGrid.cs:123 | odd rows are shifted half a column, even rows not at all |
| HexGrids.CellAt | HexMap/Assets/HexMapToolGenerator/Scripts/HexMap/HexGrid.cs:107-119 | a cell is found iff the row and the recovered column lie inside the grid |
| HexGrids.CellAtSound | HexMap/Assets/HexMapToolGenerator/Scripts/HexMap/HexGrid.cs:107-119 | a found index is inside the arena and holds the asked-for coordinates |
| HexGrids.CellAtOwnCoordinates | HexMap/Assets/HexMapToolGenerator/Scripts/HexMap/HexGrid.cs:90-129 | every cell is found again from its own coordinates |
| HexGrids.CellAtInverse | HexMap/Assets/HexMapToolGenerator/Scripts/HexMap/HexGrid.cs:107-129 | GetCell(c) is j iff cell j was created with coordinates c |
| HexGrids.NeighborSymmetric | HexMap/Assets/HexMapToolGenerator/Scripts/HexMap/HexGrid.cs:131-150 | j is i's neighbour in direction d iff i is j's neighbour in the opposite direction |
| HexGrids.StepIsOffsetNeighbor | HexMap/Assets/HexMapToolGenerator/Scripts/HexMap/HexGrid.cs:132-150 | the even/odd-row offset rule of CreateCell is one cube step |
| HexGrids.NeighborInOffset | HexMap/Assets/HexMapToolGenerator/Scripts/HexMap/HexGrid.cs:132-150 | the neighbour index is the offset-rule cell when it is inside the grid, null otherwise |
| HexGrids.NeighborPosition | HexMap/Assets/HexMapToolGenerator/Scripts/HexMap/HexGrid.cs:121-125 | neighbouring cells' positions differ by the sum of the shared edge's corners |
| HexGrids.CreateCell | HexMap/Assets/HexMapToolGenerator/Scripts/HexMap/HexGrid.cs:121-161 | after creating cell i, cells 0..i are placed with their coordinates and elevation 0, and every link between them is in place |
| HexGrids.LinkRowBelow | HexMap/Assets/HexMapToolGenerator/Scripts/HexMap/HexGrid.cs:136-150 | the links to the row below, as SetNeighbor leaves them |
| HexGrids.LinkEvenRow | HexMap/Assets/HexMapToolGenerator/Scripts/HexMap/HexGrid.cs:137-142 | on even rows: SE to the cell below, SW to the one below-left when there is one |
| HexGrids.LinkOddRow | HexMap/Assets/HexMapToolGenerator/Scripts/HexMap/HexGrid.cs:143-149 | on odd rows: SW to the cell below, SE to the one below-right when there is one |
| HexGrids.BuiltIsWired | HexMap/Assets/HexMapToolGenerator/Scripts/HexMap/HexGrid.cs:90-98 | once every cell exists, each neighbour slot holds exactly the cell one cube step away, null at the border |
| HexGrids.CreateCells | HexMap/Assets/HexMapToolGenerator/Scripts/HexMap/HexGrid.cs:90-98 | a fresh arena of w * h cells, fully wired, with the prefab colour, elevation 0 and their positions |
| HexGrids.ChunkSlotInRange | HexMap/Assets/HexMapToolGenerator/Scripts/HexMap/HexGrid.cs:163-171 | every cell of the grid goes to an existing chunk and a slot below 25 |
| HexGrids.ChunkSlotInjective | HexMap/Assets/HexMapToolGenerator/Scripts/HexMap/HexGrid.cs:163-171 | no two cells share a chunk slot |
| HexGrids.SavedSnoc | HexMap/Assets/HexMapToolGenerator/Scripts/HexMap/HexGrid.cs:179-183 | saving one more cell appends what it writes |
| HexGrids.LoadSavedFrom | HexMap/Assets/HexMapToolGenerator/Scripts/HexMap/HexGrid.cs:185-189 | loading from index k what Save wrote restores cells k.. and leaves the rest of the stream |
| HexGrids.SaveLoadRoundTrip | HexMap/Assets/HexMapToolGenerator/Scripts/HexMap/HexGrid.cs:179-189 | Load after Save restores every cell from its saved counterpart and consumes exactly the saved bytes |
| HexGrids.HexGrid.constructor | HexMap/Assets/HexMapToolGenerator/Scripts/HexMap/HexGrid.cs:58-67 | cell counts are the chunk counts times 5, the arena is fresh and wired, with elevation 0 |
| HexGrids.HexGrid.Save | HexMap/Assets/HexMapToolGenerator/Scripts/HexMap/HexGrid.cs:179-183 | the stream is every cell's data in index order |
| HexGrids.HexGrid.Load | HexMap/Assets/HexMapToolGenerator/Scripts/HexMap/HexGrid.cs:185-189 | the arena and the rest of the stream after reading every cell in index order |
| ListPools.ListPool.constructor | HexMap/Assets/Scripts/Architectures/ListPool.cs:8 | the pool starts with an empty stack |
| ListPools.ListPool.Get | HexMap/Assets/Scripts/Architectures/ListPool.cs:14-20 | pops the top list, or makes a fresh one when the stack is empty; the caller always receives an empty list |
| ListPools.ListPool.Add | HexMap/Assets/Scripts/Architectures/ListPool.cs:22-25 | clears the list and pushes it; every pooled list stays empty |
| ListPools.AddThenGet | HexMap/Assets/Scripts/Architectures/ListPool.cs:14-25 | Add then Get hands back the same, now empty, list and leaves the pool as it was |
| HexMeshes.TriangleIndices | HexMap/Assets/HexMapToolGenerator/Scripts/HexMap/HexMesh.cs:116-124 | three distinct indices, all among the three new vertices |
| HexMeshes.QuadIndices | HexMap/Assets/HexMapToolGenerator/Scripts/HexMap/HexMesh.cs:154-166 | six indices, all among the four new vertices, each of which is used |
| HexMeshes.QuadSharesDiagonal | HexMap/Assets/HexMapToolGenerator/Scripts/HexMap/HexMesh.cs:160-165 | the quad's two triangles share the diagonal of its second and third vertices, and each has one vertex of its own |
| HexMeshes.RectCorners | HexMap/Assets/HexMapToolGenerator/Scripts/HexMap/HexMesh.cs:223-228 | the rectangle's corners in quad vertex order: bottom edge first, left before right |
| HexMeshes.HexMesh.constructor | HexMap/Assets/HexMapToolGenerator/Scripts/HexMap/HexMesh.cs:11-31 | the configured flags and empty buffers |
| HexMeshes.HexMesh.SetIsUsingCollider | HexMap/Assets/HexMapToolGenerator/Scripts/HexMap/HexMesh.cs:37-40 | the collider flag takes the value |
| HexMeshes.HexMesh.Clear | HexMap/Assets/HexMapToolGenerator/Scripts/HexMap/HexMesh.cs:60-81 | vertices and triangles empty; each attribute list is empty when its flag is set and untouched otherwise |
| HexMeshes.HexMesh.AddTriangle | HexMap/Assets/HexMapToolGenerator/Scripts/HexMap/HexMesh.cs:116-124 | three perturbed vertices appended and one triangle over them; every index stays within the vertices |
| HexMeshes.HexMesh.AddTriangleUnperturbed | HexMap/Assets/HexMapToolGenerator/Scripts/HexMap/HexMesh.cs:132-140 | the same, with the vertices as given |
| HexMeshes.HexMesh.AddQuad | HexMap/Assets/HexMapToolGenerator/Scripts/HexMap/HexMesh.cs:154-166 | four perturbed vertices appended and two triangles over them; every index stays within the vertices |
| HexMeshes.HexMesh.AddQuadUnperturbed | HexMap/Assets/HexMapToolGenerator/Scripts/HexMap/HexMesh.cs:175-187 | the same, with the vertices as given |
| HexMeshes.HexMesh.AddTriangleTerrainTypes | HexMap/Assets/HexMapToolGenerator/Scripts/HexMap/HexMesh.cs:126-130 | the terrain types appended once per triangle vertex |
| HexMeshes.HexMesh.AddQuadTerrainTypes | HexMap/Assets/HexMapToolGenerator/Scripts/HexMap/HexMesh.cs:168-173 | the terrain types appended once per quad vertex |
| HexMeshes.HexMesh.AddTriangleColor | HexMap/Assets/HexMapToolGenerator/Scripts/HexMap/HexMesh.cs:142-146 | the colour appended once per triangle vertex |
| HexMeshes.HexMesh.AddTriangleColors | HexMap/Assets/HexMapToolGenerator/Scripts/HexMap/HexMesh.cs:148-152 | the three colours appended in vertex order |
| HexMeshes.HexMesh.AddQuadColor | HexMap/Assets/HexMapToolGenerator/Scripts/HexMap/HexMesh.cs:189-194 | the colour appended once per quad vertex |
| HexMeshes.HexMesh.AddQuadColorPair | HexMap/Assets/HexMapToolGenerator/Scripts/HexMap/HexMesh.cs:196-201 | the first edge's two vertices in c1, the second edge's in c2 |
| HexMeshes.HexMesh.AddQuadColors | HexMap/Assets/HexMapToolGenerator/Scripts/HexMap/HexMesh.cs:203-208 | the four colours appended in vertex order |
| HexMeshes.HexMesh.AddTriangleUV | HexMap/Assets/HexMapToolGenerator/Scripts/HexMap/HexMesh.cs:210-214 | the three UVs appended in order |
| HexMeshes.HexMesh.AddQuadUV | HexMap/Assets/HexMapToolGenerator/Scripts/HexMap/HexMesh.cs:216-221 | the four UVs appended in order |
| HexMeshes.HexMesh.AddQuadUVRect | HexMap/Assets/HexMapToolGenerator/Scripts/HexMap/HexMesh.cs:223-228 | the UV rectangle's corners appended in quad vertex order |
| HexMeshes.HexMesh.AddTriangleUV2 | HexMap/Assets/HexMapToolGenerator/Scripts/HexMap/HexMesh.cs:230-234 | the three second-channel UVs appended in order |
| HexMeshes.HexMesh.AddQuadUV2 | HexMap/Assets/HexMapToolGenerator/Scripts/HexMap/HexMesh.cs:236-241 | the four second-channel UVs appended in order |
| HexMeshes.HexMesh.AddQuadUV2Rect | HexMap/Assets/HexMapToolGenerator/Scripts/HexMap/HexMesh.cs:243-248 | the rectangle's corners appended to the second channel in quad vertex order |
| ColorHexMeshes.FanUpTo | HexMap/Assets/Scripts/HexMap/HexMesh.cs:51-62 | the first n fan triangles hold 3n vertices |
| ColorHexMeshes.FanVertices | HexMap/Assets/Scripts/HexMap/HexMesh.cs:34-42 | eighteen vertices per cell |
| ColorHexMeshes.FanColors | HexMap/Assets/Scripts/HexMap/HexMesh.cs:34-42 | eighteen colours per cell |
| ColorHexMeshes.FanTriangle | HexMap/Assets/Scripts/HexMap/HexMesh.cs:53-58 | triangle i of a fan is the centre, corner i and corner i + 1, offset by the centre |
| ColorHexMeshes.FanVerticesAppend | HexMap/Assets/Scripts/HexMap/HexMesh.cs:40-42 | triangulating a + b lays down a's vertices, then b's |
| ColorHexMeshes.FanColorsAppend | HexMap/Assets/Scripts/HexMap/HexMesh.cs:40-42 | triangulating a + b lays down a's colours, then b's |
| ColorHexMeshes.CellOwnsFan | HexMap/Assets/Scripts/HexMap/HexMesh.cs:40-58 | vertices 18k .. 18k + 17 are the k-th cell's own fan |
| ColorHexMeshes.CellOwnsColors | HexMap/Assets/Scripts/HexMap/HexMesh.cs:40-60 | colours 18k .. 18k + 17 are all the k-th cell's colour |
| ColorHexMeshes.CellTriangle | HexMap/Assets/Scripts/HexMap/HexMesh.cs:40-58 | triangle i of cell k is its centre and its corners i and i + 1 |
| ColorHexMeshes.HexMesh.constructor | HexMap/Assets/Scripts/HexMap/HexMesh.cs:20-28 | three empty lists |
| ColorHexMeshes.HexMesh.AddTriangle | HexMap/Assets/Scripts/HexMap/HexMesh.cs:73-81 | three vertices appended, each index naming its own vertex |
| ColorHexMeshes.HexMesh.AddTriangleColor | HexMap/Assets/Scripts/HexMap/HexMesh.cs:67-71 | the colour appended once per triangle vertex |
| ColorHexMeshes.HexMesh.TriangulateCell | HexMap/Assets/Scripts/HexMap/HexMesh.cs:51-65 | the cell's six-triangle fan appended, and its colour eighteen times |
| ColorHexMeshes.HexMesh.Triangulate | HexMap/Assets/Scripts/HexMap/HexMesh.cs:34-49 | the lists hold exactly every cell's fan and colours in array order, 18 per cell, with consecutive indices |
| FeatureCollections.Pick | HexMap/Assets/HexMapToolGenerator/Scripts/Parameters/HexFeatureCollection.cs:7-9 | the read is in bounds iff -1 < choice * length < length, and then returns the entry at the truncated product |
| FeatureCollections.PickInBounds | HexMap/Assets/HexMapToolGenerator/Scripts/Parameters/HexFeatureCollection.cs:7-9 | a choice in [0, 1) always picks from a non-empty collection |
| FeatureCollections.PickAtOneFails | HexMap/Assets/HexMapToolGenerator/Scripts/Parameters/HexFeatureCollection.cs:7-9 | a choice of 1, or an empty collection, reads out of range |
| FeatureCollections.PickIndexMonotone | HexMap/Assets/HexMapToolGenerator/Scripts/Parameters/HexFeatureCollection.cs:7-9 | a larger choice never picks an earlier variant |
| HexFeatureManagers.FirstBelow | HexMap/Assets/Scripts/HexMap/HexFeatureManager.cs:45-49 | the first position whose threshold exceeds the hash; none iff the hash reaches every threshold |
| HexFeatureManagers.FirstBelowMonotone | HexMap/Assets/Scripts/HexMap/HexFeatureManager.cs:43-50 | with non-decreasing thresholds a smaller hash stops no later |
| HexFeatureManagers.PickPrefab | HexMap/Assets/Scripts/HexMap/HexFeatureManager.cs:39-52 | null below level 1; out of range past level 3; otherwise the pick from the collection at the first threshold above the hash, or null |
| HexFeatureManagers.ChooseNothing | HexMap/Assets/Scripts/HexMap/HexFeatureManager.cs:62-86 | the choice among the three offers is empty iff no category offers a prefab |
| HexFeatureManagers.ChooseIsMinimum | HexMap/Assets/Scripts/HexMap/HexFeatureManager.cs:62-83 | a non-empty choice is an offered prefab whose category's hash is strictly below every earlier offering category's and at most every later one's |
| HexFeatureManagers.SelectFeatureFails | HexMap/Assets/Scripts/HexMap/HexFeatureManager.cs:54-87 | AddFeature fails iff one of the three category picks reads out of range |
| HexFeatureManagers.SelectFeatureNothing | HexMap/Assets/Scripts/HexMap/HexFeatureManager.cs:63-86 | nothing is placed iff no category offers a prefab |
| HexFeatureManagers.SelectFeatureIsMinimum | HexMap/Assets/Scripts/HexMap/HexFeatureManager.cs:54-91 | the placed prefab is the offer of the category with the smallest hash, an earlier category winning ties, turned by 360 * hash.e degrees |
| HexFeatureManagers.WallSegmentVertices | HexMap/Assets/Scripts/HexMap/HexFeatureManager.cs:123-149 | a wall segment is twelve vertices, three quads |
| HexFeatureManagers.WallQuads | HexMap/Assets/Scripts/HexMap/HexFeatureManager.cs:134-148 | twelve vertices: near face, far face, top |
| HexFeatureManagers.WallSegmentShape | HexMap/Assets/Scripts/HexMap/HexFeatureManager.cs:123-149 | the two faces stand symmetric about the edge midpoints at their heights, rise by the wall height, and the top joins their upper edges |
| HexFeatureManagers.WallPivot | HexMap/Assets/Scripts/HexMap/HexFeatureManager.cs:101-121 | no pivot iff all three walled flags agree; otherwise the pivot is the odd cell out, followed cyclically by left and right |
| HexFeatureManagers.HexFeatureManager.constructor | HexMap/Assets/Scripts/HexMap/HexFeatureManager.cs:7-19 | the collections, walls mesh and engine services it is given; no instances |
| HexFeatureManagers.HexFeatureManager.Clear | HexMap/Assets/Scripts/HexMap/HexFeatureManager.cs:25-33 | no instances; the walls mesh's vertices and triangles empty, and each attribute list empty when its flag is set and untouched otherwise |
| HexFeatureManagers.HexFeatureManager.AddFeature | HexMap/Assets/Scripts/HexMap/HexFeatureManager.cs:54-93 | fails iff the selection reads out of range; otherwise appends one instance of the selected prefab, raised by half its height, perturbed and rotated, or nothing when none is selected |
| HexFeatureManagers.HexFeatureManager.AddWallSegment | HexMap/Assets/Scripts/HexMap/HexFeatureManager.cs:123-149 | the walls mesh gains the segment's twelve perturbed vertices and three quads of indices |
| HexFeatureManagers.HexFeatureManager.AddWallQuads | HexMap/Assets/Scripts/HexMap/HexFeatureManager.cs:134-148 | the three quads laid in order |
| HexFeatureManagers.HexFeatureManager.AddEdgeWall | HexMap/Assets/Scripts/HexMap/HexFeatureManager.cs:95-99 | a segment between the edges' ends iff exactly one cell is walled, with its vertices and its three quads' triangle indices appended; nothing otherwise |
| HexFeatureManagers.HexFeatureManager.AddPivotWallSegment | HexMap/Assets/Scripts/HexMap/HexFeatureManager.cs:151-153 | the segment from the pivot towards left and right: its perturbed vertices and its three quads' triangle indices appended |
| HexFeatureManagers.HexFeatureManager.AddCornerWall | HexMap/Assets/Scripts/HexMap/HexFeatureManager.cs:101-121 | nothing when the three cells agree; otherwise the pivot segment around the odd cell out, vertices and triangle indices both appended |
| HexMapEditors.Row | HexMap/Assets/Scripts/HexMap/HexMapEditor.cs:63 | the inner loop's coordinates, left to right |
| HexMapEditors.RowMembership | HexMap/Assets/Scripts/HexMap/HexMapEditor.cs:63-64 | a row holds exactly the coordinates of that row between its bounds |
| HexMapEditors.LowerRowsMembership | HexMap/Assets/Scripts/HexMap/HexMapEditor.cs:62-66 | the first loop's rows hold exactly the trapezoid below and on the centre row |
| HexMapEditors.UpperRowsMembership | HexMap/Assets/Scripts/HexMap/HexMapEditor.cs:68-72 | the second loop's rows hold exactly the trapezoid above the centre row |
| HexMapEditors.BrushIsDisk | HexMap/Assets/Scripts/HexMap/HexMapEditor.cs:58-73 | EditCells reaches a coordinate iff it lies within hex distance brushSize of the centre |
| HexMapEditors.LowerRowsDistinct | HexMap/Assets/Scripts/HexMap/HexMapEditor.cs:62-66 | the first loop never repeats a coordinate |
| HexMapEditors.UpperRowsDistinct | HexMap/Assets/Scripts/HexMap/HexMapEditor.cs:68-72 | the second loop never repeats a coordinate |
| HexMapEditors.BrushVisitsOnce | HexMap/Assets/Scripts/HexMap/HexMapEditor.cs:58-73 | EditCells visits each coordinate once |
| HexMapEditors.LowerRowsLength | HexMap/Assets/Scripts/HexMap/HexMapEditor.cs:62-66 | row r of the first loop holds b + r + 1 coordinates |
| HexMapEditors.UpperRowsLength | HexMap/Assets/Scripts/HexMap/HexMapEditor.cs:68-72 | row r of the second loop holds b + r + 1 coordinates |
| HexMapEditors.BrushSize | HexMap/Assets/Scripts/HexMap/HexMapEditor.cs:58-73 | a brush of size b >= 0 visits 3b(b + 1) + 1 coordinates, a negative size none |
| HexMapEditors.WiredKeptByEdits | HexMap/Assets/Scripts/HexMap/HexMapEditor.cs:46-56 | edits that keep coordinates and neighbours keep the grid wired |
| HexMapEditors.GetCellFinds | HexMap/Assets/HexMapToolGenerator/Scripts/HexMap/HexGrid.cs:107-119 | in a wired grid GetCell(q) is cell m iff cell m has coordinates q |
| HexMapEditors.HexMapEditor.constructor | HexMap/Assets/Scripts/HexMap/HexMapEditor.cs:11-26 | colour editing on with the first colour, elevation editing on, elevation 0, brush size 0 |
| HexMapEditors.HexMapEditor.Edited | HexMap/Assets/Scripts/HexMap/HexMapEditor.cs:46-56 | an edit leaves coordinates, neighbours and position alone |
| HexMapEditors.HexMapEditor.EditedIdempotent | HexMap/Assets/Scripts/HexMap/HexMapEditor.cs:46-56 | editing a cell twice is editing it once |
| HexMapEditors.HexMapEditor.SelectColor | HexMap/Assets/Scripts/HexMap/HexMapEditor.cs:75-80 | colour editing on iff index >= 0; the colour at that index when it exists; an index past the end fails and leaves the colour |
| HexMapEditors.HexMapEditor.SetElevation | HexMap/Assets/Scripts/HexMap/HexMapEditor.cs:82-84 | the slider value truncated toward zero |
| HexMapEditors.HexMapEditor.SetCanApplyElevation | HexMap/Assets/Scripts/HexMap/HexMapEditor.cs:86-88 | the flag takes the value |
| HexMapEditors.HexMapEditor.SetBrushSize | HexMap/Assets/Scripts/HexMap/HexMapEditor.cs:90-92 | the slider value truncated toward zero |
| HexMapEditors.HexMapEditor.EditCell | HexMap/Assets/Scripts/HexMap/HexMapEditor.cs:46-56 | nothing for null; otherwise only that cell changes, to its edited form |
| HexMapEditors.HexMapEditor.EditAt | HexMap/Assets/Scripts/HexMap/HexMapEditor.cs:64 | EditCell(GetCell(q)) adds q to the edited region |
| HexMapEditors.HexMapEditor.EditRow | HexMap/Assets/Scripts/HexMap/HexMapEditor.cs:63-65 | the inner loop adds one row to the edited region |
| HexMapEditors.HexMapEditor.EditLowerRows | HexMap/Assets/Scripts/HexMap/HexMapEditor.cs:62-66 | the first loop edits exactly the rows from the bottom of the disk to the centre row |
| HexMapEditors.HexMapEditor.EditUpperRows | HexMap/Assets/Scripts/HexMap/HexMapEditor.cs:68-72 | the second loop adds exactly the rows from the top of the disk down to the centre row |
| HexMapEditors.HexMapEditor.EditCells | HexMap/Assets/Scripts/HexMap/HexMapEditor.cs:58-73 | every cell within brush-size hex distance of the centre is edited, every other cell is unchanged, and the grid stays wired |

## Left out

- Rendering and engine calls are not modelled. This covers `HexMesh.Apply`, `Mesh` and
  `MeshCollider` updates, `RecalculateNormals`, `Awake`'s component setup, `Instantiate`,
  `SetParent`, `Destroy`, labels and `ShowUI`. They only hand finished data to the engine.
- The generator's `HexMesh.Apply` is not modelled. This includes returning its lists to
  `ListPool` and uploading UV2 to channel 0. The mesh buffers are plain sequences. Clear
  models only the lists becoming empty, not their reuse through the pool.
- `ListPool` is a static class in C#. Here it is one pool object, with one instance per
  element type the caller chooses.
- The noise texture, the seeded `Random`/`HexHash.Create`, the square root behind
  `normalized`, a prefab's `localScale.y`, and `HexCell.Save`/`Load` are not modelled.
  These are engine or out-of-model code, so they are function parameters.
- Floating point is idealised as real arithmetic. The model has no float rounding, and
  Unity's 1e-5 cut-off in `normalized` is kept as an exact comparison.
- Integers are unbounded. 32-bit overflow of cell indices, elevations and hash-grid
  arithmetic is not modelled.
- `HexGrid.GetCell(Vector3)` and `HexMapEditor.HandleInput`/`Update` are not modelled.
  They need the camera ray, the physics raycast and `HexCoordinates.FromPosition`, which is
  not part of this model.
- `HexGrid.CreateChunks`, `AddCellToChunk`'s call into `HexGridChunk`, `HexGrid.OnEnable`
  and the label text are not modelled. Only the chunk slot arithmetic is modelled. The chunk
  objects live in the engine.
- The setter of `HexCell.Elevation` is modelled as a field write. Its side effects on the
  cell's transform and label belong to the generator's `HexCell`, which is not modelled.
- The triangulation of rivers, roads, water and terrain textures is not modelled; of
  these, only the water corner and water bridge metrics are.
- HexMetrics.InitializeHashGrid does not model saving `Random.state` before seeding and
  restoring it afterwards: the global generator is not part of the model, so the method
  draws from an injected, seeded source and leaves no global state behind to restore.
- HexMeshes.HexMesh.constructor starts every buffer as an empty sequence. In C# the lists
  are null until `Clear` takes them from `ListPool`, so an append before `Clear` throws;
  the model does not capture that failure.
- HexFeatureManagers.HexFeatureManager.AddFeature keeps an instance's rotation as degrees
  about y, not as a `Quaternion`. Its scale is not modelled.
- The `Scripts` `HexGrid` is an empty scaffold and is not modelled. The editor uses the
  generator's grid.
- HexMetrics.GetFeatureThresholds requires a level inside the table. `PickPrefab`
  models the out-of-range read as `IndexOutOfRange` before calling it.
- HexGrids.HexGrid.Load states the arena after reading in terms of the injected reader. Its
  round trip with Save is proved separately, as SaveLoadRoundTrip, for a reader that undoes
  the writer.
