// EdgeVertices: five points along one edge of a hex, from corner to corner.
module EdgeVertices {
  import opened Vectors
  import M = HexMetrics

  datatype EdgeVertices = EdgeVertices(v1: Vector3, v2: Vector3, v3: Vector3, v4: Vector3, v5: Vector3)

  function Midpoint(a: Vector3, b: Vector3): Vector3 {
    Vector3((a.x + b.x) / 2.0, (a.y + b.y) / 2.0, (a.z + b.z) / 2.0)
  }

  /** The point a fraction t of the way from a to b (no clamping). */
  function Along(a: Vector3, b: Vector3, t: real): Vector3 {
    Vector3(Mix(a.x, b.x, t), Mix(a.y, b.y, t), Mix(a.z, b.z, t))
  }

  function Mix(p: real, q: real, t: real): real {
    p + (q - p) * t
  }

  /** The default constructor: the edge split into four equal parts. */
  function FromCorners(corner1: Vector3, corner2: Vector3): (e: EdgeVertices)
    ensures e.v1 == corner1 && e.v5 == corner2
    ensures e.v3 == Midpoint(corner1, corner2)
    ensures e.v2 == Along(corner1, corner2, 0.25) && e.v4 == Along(corner1, corner2, 0.75)
  {
    EdgeVertices(corner1, Lerp(corner1, corner2, 1.0 / 4.0), Lerp(corner1, corner2, 2.0 / 4.0),
                 Lerp(corner1, corner2, 3.0 / 4.0), corner2)
  }

  /** The constructor with an outer step: v2 and v4 sit outerStep from either end
      (Vector3.Lerp clamps the step into [0, 1]). */
  function WithOuterStep(corner1: Vector3, corner2: Vector3, outerStep: real): (e: EdgeVertices)
    ensures e.v1 == corner1 && e.v5 == corner2
    ensures e.v3 == Midpoint(corner1, corner2)
    ensures 0.0 <= outerStep <= 1.0 ==>
      e.v2 == Along(corner1, corner2, outerStep) && e.v4 == Along(corner1, corner2, 1.0 - outerStep)
    ensures Add(e.v2, e.v4) == Add(corner1, corner2)
  {
    var inner := 1.0 - outerStep;
    assert 0.0 <= outerStep <= 1.0 ==> Lerp(corner1, corner2, inner) == Along(corner1, corner2, inner);
    EdgeVertices(corner1, Lerp(corner1, corner2, outerStep), Lerp(corner1, corner2, 2.0 / 4.0),
                 Lerp(corner1, corner2, inner), corner2)
  }

  lemma DefaultIsQuarterStep(corner1: Vector3, corner2: Vector3)
    ensures FromCorners(corner1, corner2) == WithOuterStep(corner1, corner2, 0.25)
  {
  }

  /** Applies the point terrace interpolation to each of the five vertices. */
  function TerraceLerp(a: EdgeVertices, b: EdgeVertices, step: int): (r: EdgeVertices)
    ensures step == 0 ==> r == a
    ensures step == M.TerraceSteps ==> r == b
  {
    EdgeVertices(M.TerraceLerp(a.v1, b.v1, step), M.TerraceLerp(a.v2, b.v2, step),
                 M.TerraceLerp(a.v3, b.v3, step), M.TerraceLerp(a.v4, b.v4, step),
                 M.TerraceLerp(a.v5, b.v5, step))
  }

  /** Interpolating along an edge and then between edges equals interpolating between
      the edges' ends and then along the result: both are the same bilinear blend. */
  lemma BilinearCommutes(p1: real, p2: real, q1: real, q2: real, t: real, f: real)
    ensures Mix(Mix(p1, q1, t), Mix(p2, q2, t), f) == Mix(Mix(p1, p2, f), Mix(q1, q2, f), t)
  {
    calc {
      Mix(Mix(p1, q1, t), Mix(p2, q2, t), f);
      p1 + q1 * t - p1 * t + p2 * f + q2 * t * f - p2 * t * f - p1 * f - q1 * t * f + p1 * t * f;
      Mix(Mix(p1, p2, f), Mix(q1, q2, f), t);
    }
  }

  /** The generator's point terrace step, written with Mix. */
  lemma TerraceLerpIsMix(a: Vector3, b: Vector3, step: int)
    ensures M.TerraceLerp(a, b, step)
         == Vector3(Mix(a.x, b.x, M.HorizontalFactor(step)), Mix(a.y, b.y, M.VerticalFactor(step)),
                    Mix(a.z, b.z, M.HorizontalFactor(step)))
  {
  }

  /** Moving one point of an evenly split edge by a terrace step. */
  lemma TerraceOfAlong(a1: Vector3, a2: Vector3, b1: Vector3, b2: Vector3, step: int, t: real)
    ensures M.TerraceLerp(Along(a1, a2, t), Along(b1, b2, t), step)
         == Along(M.TerraceLerp(a1, b1, step), M.TerraceLerp(a2, b2, step), t)
  {
    var h, v := M.HorizontalFactor(step), M.VerticalFactor(step);
    TerraceLerpIsMix(Along(a1, a2, t), Along(b1, b2, t), step);
    TerraceLerpIsMix(a1, b1, step);
    TerraceLerpIsMix(a2, b2, step);
    BilinearCommutes(a1.x, b1.x, a2.x, b2.x, t, h);
    BilinearCommutes(a1.y, b1.y, a2.y, b2.y, t, v);
    BilinearCommutes(a1.z, b1.z, a2.z, b2.z, t, h);
  }

  /** Terracing between two evenly split edges gives an evenly split edge between the
      terraced corners, so consecutive terrace strips share their vertices. */
  lemma TerraceKeepsEvenSplit(a1: Vector3, a2: Vector3, b1: Vector3, b2: Vector3, step: int)
    ensures TerraceLerp(FromCorners(a1, a2), FromCorners(b1, b2), step)
         == FromCorners(M.TerraceLerp(a1, b1, step), M.TerraceLerp(a2, b2, step))
  {
    var ta, tb := M.TerraceLerp(a1, b1, step), M.TerraceLerp(a2, b2, step);
    TerraceOfAlong(a1, a2, b1, b2, step, 0.25);
    TerraceOfAlong(a1, a2, b1, b2, step, 0.75);
    assert FromCorners(ta, tb).v3 == Along(ta, tb, 0.5);
    assert FromCorners(a1, a2).v3 == Along(a1, a2, 0.5);
    assert FromCorners(b1, b2).v3 == Along(b1, b2, 0.5);
    TerraceOfAlong(a1, a2, b1, b2, step, 0.5);
  }
}
