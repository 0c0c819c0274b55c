// The map generator's HexMesh: append-only buffers of vertices, triangle
// indices and per-vertex attributes, from which the engine mesh is built.
module HexMeshes {
  import opened Vectors
  import M = HexMetrics

  /** The indices AddTriangle appends when the mesh already holds n vertices. */
  function TriangleIndices(n: int): (r: seq<int>)
    ensures |r| == 3 && r[0] != r[1] && r[1] != r[2] && r[0] != r[2]
    ensures forall k :: 0 <= k < 3 ==> n <= r[k] < n + 3
  {
    [n, n + 1, n + 2]
  }

  /** The indices AddQuad appends: two triangles over four new vertices. */
  function QuadIndices(n: int): (r: seq<int>)
    ensures |r| == 6
    ensures forall k :: 0 <= k < 6 ==> n <= r[k] < n + 4
    ensures forall v :: n <= v < n + 4 ==> v in r
  {
    [n, n + 2, n + 1, n + 1, n + 2, n + 3]
  }

  /** The two triangles of a quad have the same winding and meet along the diagonal
      from the second to the third vertex: the first runs n+1 -> n+2 along it, the
      second runs n+2 -> n+1 (as seen from the other triangle's side). */
  lemma QuadSharesDiagonal(n: int)
    ensures var r := QuadIndices(n);
      r[2] == r[3] && r[1] == r[4] &&
      r[0] !in r[3..] && r[5] !in r[..3]
  {
  }

  /** Every index is one of the vertices stored so far, in whole triangles. */
  ghost predicate IndicesWithin(triangles: seq<int>, vertexCount: int) {
    |triangles| % 3 == 0 && forall k :: 0 <= k < |triangles| ==> 0 <= triangles[k] < vertexCount
  }

  class HexMesh {
    var isUsingCollider: bool
    const isUsingColors: bool
    const isUsingUVCoordinates: bool
    const isUsingUV2Coordinates: bool
    const isUsingTerrainTypes: bool
    /** HexMetrics' noise texture, which Perturb samples. */
    const noise: M.NoiseSource

    var vertices: seq<Vector3>
    var terrainTypes: seq<Vector3>
    var colors: seq<Color>
    var uvs: seq<Vector2>
    var uvs2: seq<Vector2>
    var triangles: seq<int>

    ghost predicate Valid()
      reads this
    {
      IndicesWithin(triangles, |vertices|)
    }

    constructor (isUsingCollider: bool, isUsingColors: bool, isUsingUVCoordinates: bool,
                 isUsingUV2Coordinates: bool, isUsingTerrainTypes: bool, noise: M.NoiseSource)
      ensures Valid()
      ensures this.isUsingCollider == isUsingCollider && this.isUsingColors == isUsingColors
      ensures this.isUsingUVCoordinates == isUsingUVCoordinates
      ensures this.isUsingUV2Coordinates == isUsingUV2Coordinates
      ensures this.isUsingTerrainTypes == isUsingTerrainTypes && this.noise == noise
      ensures vertices == [] && triangles == [] && colors == [] && uvs == [] && uvs2 == [] && terrainTypes == []
    {
      this.isUsingCollider := isUsingCollider;
      this.isUsingColors := isUsingColors;
      this.isUsingUVCoordinates := isUsingUVCoordinates;
      this.isUsingUV2Coordinates := isUsingUV2Coordinates;
      this.isUsingTerrainTypes := isUsingTerrainTypes;
      this.noise := noise;
      vertices, terrainTypes, colors, uvs, uvs2, triangles := [], [], [], [], [], [];
    }

    /** The IsUsingCollider property setter. */
    method SetIsUsingCollider(value: bool)
      modifies this`isUsingCollider
      ensures isUsingCollider == value
    {
      isUsingCollider := value;
    }

    /** Clear: fresh (empty) vertex and index lists, and fresh attribute lists for the
        attributes this mesh uses; an unused attribute list is left as it was. */
    method Clear()
      modifies this`vertices, this`triangles, this`colors, this`uvs, this`uvs2, this`terrainTypes
      ensures Valid()
      ensures vertices == [] && triangles == []
      ensures colors == if isUsingColors then [] else old(colors)
      ensures uvs == if isUsingUVCoordinates then [] else old(uvs)
      ensures uvs2 == if isUsingUV2Coordinates then [] else old(uvs2)
      ensures terrainTypes == if isUsingTerrainTypes then [] else old(terrainTypes)
    {
      vertices := [];
      if isUsingColors {
        colors := [];
      }
      if isUsingUVCoordinates {
        uvs := [];
      }
      if isUsingUV2Coordinates {
        uvs2 := [];
      }
      if isUsingTerrainTypes {
        terrainTypes := [];
      }
      triangles := [];
    }

    /** AddTriangle: three perturbed vertices and the triangle over them. */
    method AddTriangle(v1: Vector3, v2: Vector3, v3: Vector3)
      requires Valid()
      modifies this`vertices, this`triangles
      ensures Valid()
      ensures vertices == old(vertices) + [M.Perturb(noise, v1), M.Perturb(noise, v2), M.Perturb(noise, v3)]
      ensures triangles == old(triangles) + TriangleIndices(old(|vertices|))
    {
      var vertexIndex := |vertices|;
      vertices := vertices + [M.Perturb(noise, v1)];
      vertices := vertices + [M.Perturb(noise, v2)];
      vertices := vertices + [M.Perturb(noise, v3)];
      triangles := triangles + [vertexIndex];
      triangles := triangles + [vertexIndex + 1];
      triangles := triangles + [vertexIndex + 2];
    }

    /** AddTriangleUnperturbed: the same, with the vertices stored as given. */
    method AddTriangleUnperturbed(v1: Vector3, v2: Vector3, v3: Vector3)
      requires Valid()
      modifies this`vertices, this`triangles
      ensures Valid()
      ensures vertices == old(vertices) + [v1, v2, v3]
      ensures triangles == old(triangles) + TriangleIndices(old(|vertices|))
    {
      var vertexIndex := |vertices|;
      vertices := vertices + [v1, v2, v3];
      triangles := triangles + [vertexIndex, vertexIndex + 1, vertexIndex + 2];
    }

    /** AddQuad: four perturbed vertices and the two triangles over them. */
    method AddQuad(v1: Vector3, v2: Vector3, v3: Vector3, v4: Vector3)
      requires Valid()
      modifies this`vertices, this`triangles
      ensures Valid()
      ensures vertices == old(vertices) +
        [M.Perturb(noise, v1), M.Perturb(noise, v2), M.Perturb(noise, v3), M.Perturb(noise, v4)]
      ensures triangles == old(triangles) + QuadIndices(old(|vertices|))
    {
      var vertexIndex := |vertices|;
      vertices := vertices + [M.Perturb(noise, v1), M.Perturb(noise, v2), M.Perturb(noise, v3), M.Perturb(noise, v4)];
      triangles := triangles + [vertexIndex, vertexIndex + 2, vertexIndex + 1];
      triangles := triangles + [vertexIndex + 1, vertexIndex + 2, vertexIndex + 3];
    }

    /** AddQuadUnperturbed: the same, with the vertices stored as given. */
    method AddQuadUnperturbed(v1: Vector3, v2: Vector3, v3: Vector3, v4: Vector3)
      requires Valid()
      modifies this`vertices, this`triangles
      ensures Valid()
      ensures vertices == old(vertices) + [v1, v2, v3, v4]
      ensures triangles == old(triangles) + QuadIndices(old(|vertices|))
    {
      var vertexIndex := |vertices|;
      vertices := vertices + [v1, v2, v3, v4];
      triangles := triangles + [vertexIndex, vertexIndex + 2, vertexIndex + 1];
      triangles := triangles + [vertexIndex + 1, vertexIndex + 2, vertexIndex + 3];
    }

    /** AddTriangleTerrainTypes: one terrain-type triple per triangle vertex. */
    method AddTriangleTerrainTypes(types: Vector3)
      modifies this`terrainTypes
      ensures terrainTypes == old(terrainTypes) + [types, types, types]
    {
      terrainTypes := terrainTypes + [types, types, types];
    }

    /** AddQuadTerrainTypes: one terrain-type triple per quad vertex. */
    method AddQuadTerrainTypes(types: Vector3)
      modifies this`terrainTypes
      ensures terrainTypes == old(terrainTypes) + [types, types, types, types]
    {
      terrainTypes := terrainTypes + [types, types, types, types];
    }

    /** AddTriangleColor(color): one colour for the whole triangle. */
    method AddTriangleColor(color: Color)
      modifies this`colors
      ensures colors == old(colors) + [color, color, color]
    {
      colors := colors + [color, color, color];
    }

    /** AddTriangleColor(c1, c2, c3): one colour per vertex. */
    method AddTriangleColors(c1: Color, c2: Color, c3: Color)
      modifies this`colors
      ensures colors == old(colors) + [c1, c2, c3]
    {
      colors := colors + [c1, c2, c3];
    }

    /** AddQuadColor(color): one colour for the whole quad. */
    method AddQuadColor(color: Color)
      modifies this`colors
      ensures colors == old(colors) + [color, color, color, color]
    {
      colors := colors + [color, color, color, color];
    }

    /** AddQuadColor(c1, c2): the first edge in c1, the second in c2. */
    method AddQuadColorPair(c1: Color, c2: Color)
      modifies this`colors
      ensures colors == old(colors) + [c1, c1, c2, c2]
    {
      colors := colors + [c1, c1, c2, c2];
    }

    /** AddQuadColor(c1, c2, c3, c4): one colour per vertex. */
    method AddQuadColors(c1: Color, c2: Color, c3: Color, c4: Color)
      modifies this`colors
      ensures colors == old(colors) + [c1, c2, c3, c4]
    {
      colors := colors + [c1, c2, c3, c4];
    }

    method AddTriangleUV(uv1: Vector2, uv2: Vector2, uv3: Vector2)
      modifies this`uvs
      ensures uvs == old(uvs) + [uv1, uv2, uv3]
    {
      uvs := uvs + [uv1, uv2, uv3];
    }

    method AddQuadUV(uv1: Vector2, uv2: Vector2, uv3: Vector2, uv4: Vector2)
      modifies this`uvs
      ensures uvs == old(uvs) + [uv1, uv2, uv3, uv4]
    {
      uvs := uvs + [uv1, uv2, uv3, uv4];
    }

    /** AddQuadUV(uMin, uMax, vMin, vMax): the rectangle's corners in quad vertex order. */
    method AddQuadUVRect(uMin: real, uMax: real, vMin: real, vMax: real)
      modifies this`uvs
      ensures uvs == old(uvs) + RectCorners(uMin, uMax, vMin, vMax)
    {
      uvs := uvs + [Vector2(uMin, vMin), Vector2(uMax, vMin), Vector2(uMin, vMax), Vector2(uMax, vMax)];
    }

    method AddTriangleUV2(uv1: Vector2, uv2: Vector2, uv3: Vector2)
      modifies this`uvs2
      ensures uvs2 == old(uvs2) + [uv1, uv2, uv3]
    {
      uvs2 := uvs2 + [uv1, uv2, uv3];
    }

    method AddQuadUV2(uv1: Vector2, uv2: Vector2, uv3: Vector2, uv4: Vector2)
      modifies this`uvs2
      ensures uvs2 == old(uvs2) + [uv1, uv2, uv3, uv4]
    {
      uvs2 := uvs2 + [uv1, uv2, uv3, uv4];
    }

    /** AddQuadUV2(uMin, uMax, vMin, vMax). */
    method AddQuadUV2Rect(uMin: real, uMax: real, vMin: real, vMax: real)
      modifies this`uvs2
      ensures uvs2 == old(uvs2) + RectCorners(uMin, uMax, vMin, vMax)
    {
      uvs2 := uvs2 + [Vector2(uMin, vMin), Vector2(uMax, vMin), Vector2(uMin, vMax), Vector2(uMax, vMax)];
    }
  }

  /** The UV rectangle's corners in the order AddQuad lays out its vertices: the first
      two share the bottom edge and the last two the top, left before right. */
  function RectCorners(uMin: real, uMax: real, vMin: real, vMax: real): (r: seq<Vector2>)
    ensures |r| == 4
    ensures r[0].y == r[1].y == vMin && r[2].y == r[3].y == vMax
    ensures r[0].x == r[2].x == uMin && r[1].x == r[3].x == uMax
  {
    [Vector2(uMin, vMin), Vector2(uMax, vMin), Vector2(uMin, vMax), Vector2(uMax, vMax)]
  }
}
