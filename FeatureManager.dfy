// HexFeatureManager: chooses which decoration (if any) stands at a point of a
// cell, and lays wall segments into its walls mesh.
module HexFeatureManagers {
  import opened Wrappers
  import opened Vectors
  import opened FeatureCollections
  import opened EdgeVertices
  import M = HexMetrics
  import HexMeshes

  // ---- Prefab pick ----

  /** The first position whose threshold lies above hash (the loop's early return). */
  function FirstBelow(thresholds: seq<real>, hash: real): (r: Option<nat>)
    ensures r.Some? ==> r.value < |thresholds| && hash < thresholds[r.value]
    ensures r.Some? ==> forall j :: 0 <= j < r.value ==> thresholds[j] <= hash
    ensures r.None? <==> forall j :: 0 <= j < |thresholds| ==> thresholds[j] <= hash
  {
    if |thresholds| == 0 then None
    else if hash < thresholds[0] then Some(0)
    else match FirstBelow(thresholds[1..], hash)
      case None => None
      case Some(i) => Some(i + 1)
  }

  /** With non-decreasing thresholds, a smaller hash never passes a later level. */
  lemma FirstBelowMonotone(thresholds: seq<real>, h1: real, h2: real)
    requires forall i, j :: 0 <= i <= j < |thresholds| ==> thresholds[i] <= thresholds[j]
    requires h1 <= h2 && FirstBelow(thresholds, h2).Some?
    ensures FirstBelow(thresholds, h1).Some?
    ensures FirstBelow(thresholds, h1).value <= FirstBelow(thresholds, h2).value
  {
    var i2 := FirstBelow(thresholds, h2).value;
    assert h1 < thresholds[i2];
  }

  /** PickPrefab: no prefab below density level 1; otherwise the collection entry at the
      first threshold the hash falls under, picked with choice, or no prefab when the hash
      clears every threshold. Levels past the table and entries past the end of
      collection are the runtime's out-of-range failures. */
  function PickPrefab(collection: seq<seq<Prefab>>, level: int, hash: real, choice: real): (r: Indexed<Option<Prefab>>)
    ensures level <= 0 ==> r == Ok(None)
    ensures level > |M.FeatureThresholds| ==> r == IndexOutOfRange
    ensures 0 < level <= |M.FeatureThresholds| ==>
      var t := M.GetFeatureThresholds(level - 1);
      match FirstBelow(t, hash)
        case None => r == Ok(None)
        case Some(i) =>
          if i < |collection| then
            (r.Ok? <==> Pick(collection[i], choice).Ok?) &&
            (r.Ok? ==> r.value == Some(Pick(collection[i], choice).value))
          else r == IndexOutOfRange
  {
    if level <= 0 then Ok(None)
    else if level - 1 >= |M.FeatureThresholds| then IndexOutOfRange
    else
      match FirstBelow(M.GetFeatureThresholds(level - 1), hash)
        case None => Ok(None)
        case Some(i) =>
          if i >= |collection| then IndexOutOfRange
          else match Pick(collection[i], choice)
            case Ok(p) => Ok(Some(p))
            case IndexOutOfRange => IndexOutOfRange
  }

  // ---- Feature selection ----

  datatype Category = Urban | Farm | Plant

  /** The order in which AddFeature considers the categories. */
  function Rank(c: Category): nat {
    match c
    case Urban => 0
    case Farm => 1
    case Plant => 2
  }

  /** The hash channel each category is tested against. */
  function CategoryHash(h: M.HexHash, c: Category): real {
    match c
    case Urban => h.a
    case Farm => h.b
    case Plant => h.c
  }

  /** A cell's density level in each category. */
  datatype FeatureLevels = FeatureLevels(urban: int, farm: int, plant: int)

  function LevelOf(levels: FeatureLevels, c: Category): int {
    match c
    case Urban => levels.urban
    case Farm => levels.farm
    case Plant => levels.plant
  }

  /** The three categories' collections of prefab variants, indexed by threshold position. */
  datatype Collections = Collections(urban: seq<seq<Prefab>>, farm: seq<seq<Prefab>>, plant: seq<seq<Prefab>>)

  function CollectionOf(cs: Collections, c: Category): seq<seq<Prefab>> {
    match c
    case Urban => cs.urban
    case Farm => cs.farm
    case Plant => cs.plant
  }

  /** The prefab each category offers at this hash: every category picks its variant
      with the same channel d. */
  function Offer(cs: Collections, levels: FeatureLevels, h: M.HexHash, c: Category): Indexed<Option<Prefab>> {
    PickPrefab(CollectionOf(cs, c), LevelOf(levels, c), CategoryHash(h, c), h.d)
  }

  /** What AddFeature places: the winning category, its prefab and the rotation about y
      in degrees. */
  datatype Selection = Selection(category: Category, prefab: Prefab, rotation: real)

  /** The selection logic of AddFeature, as written, over the three offers: urban first,
      farm replaces it on a strictly smaller hash, plant replaces the survivor on a
      strictly smaller hash. */
  function Choose(urban: Option<Prefab>, farm: Option<Prefab>, plant: Option<Prefab>, h: M.HexHash)
    : Option<(Category, Prefab)>
  {
    var first: Option<(Category, Prefab)> :=
      if urban.Some? then
        if farm.Some? && h.b < h.a then Some((Farm, farm.value)) else Some((Urban, urban.value))
      else if farm.Some? then Some((Farm, farm.value))
      else None;
    var usedHash := if first.Some? && first.value.0 == Farm then h.b else h.a;
    if first.Some? then
      if plant.Some? && h.c < usedHash then Some((Plant, plant.value)) else first
    else if plant.Some? then Some((Plant, plant.value))
    else None
  }

  /** The offer among three that belongs to category c. */
  function Among(urban: Option<Prefab>, farm: Option<Prefab>, plant: Option<Prefab>, c: Category): Option<Prefab> {
    match c
    case Urban => urban
    case Farm => farm
    case Plant => plant
  }

  /** AddFeature: fails when any pick reads out of range; otherwise places the chosen
      prefab, if any, turned by 360 degrees times channel e. */
  function SelectFeature(cs: Collections, levels: FeatureLevels, h: M.HexHash): (r: Indexed<Option<Selection>>)
  {
    match (Offer(cs, levels, h, Urban), Offer(cs, levels, h, Farm), Offer(cs, levels, h, Plant))
      case (Ok(urban), Ok(farm), Ok(plant)) =>
        Ok(match Choose(urban, farm, plant, h)
           case None => None
           case Some((c, p)) => Some(Selection(c, p, 360.0 * h.e)))
      case _ => IndexOutOfRange
  }

  /** A category competes when its pick succeeded with a prefab. */
  predicate Offers(cs: Collections, levels: FeatureLevels, h: M.HexHash, c: Category) {
    Offer(cs, levels, h, c).Ok? && Offer(cs, levels, h, c).value.Some?
  }

  /** Every category, for quantifier instantiation. */
  lemma Categories(c: Category)
    ensures c == Urban || c == Farm || c == Plant
  {
  }

  /** AddFeature fails exactly when one of the three picks reads out of range. */
  lemma SelectFeatureFails(cs: Collections, levels: FeatureLevels, h: M.HexHash)
    ensures SelectFeature(cs, levels, h).Ok? <==> forall c :: Offer(cs, levels, h, c).Ok?
  {
    if Offer(cs, levels, h, Urban).Ok? && Offer(cs, levels, h, Farm).Ok? && Offer(cs, levels, h, Plant).Ok? {
      forall c ensures Offer(cs, levels, h, c).Ok? {
        Categories(c);
      }
    }
  }

  /** The choice is empty exactly when no category offers a prefab. */
  lemma ChooseNothing(urban: Option<Prefab>, farm: Option<Prefab>, plant: Option<Prefab>, h: M.HexHash)
    ensures Choose(urban, farm, plant, h).None? <==> forall c :: Among(urban, farm, plant, c).None?
  {
    if urban.None? && farm.None? && plant.None? {
      forall c ensures Among(urban, farm, plant, c).None? {
        Categories(c);
      }
    } else {
      assert Among(urban, farm, plant, Urban).Some? || Among(urban, farm, plant, Farm).Some?
          || Among(urban, farm, plant, Plant).Some?;
    }
  }

  /** A non-empty choice is an offered prefab whose category has the smallest hash among
      the offering categories, the earlier category winning a tie. */
  lemma ChooseIsMinimum(urban: Option<Prefab>, farm: Option<Prefab>, plant: Option<Prefab>, h: M.HexHash)
    requires Choose(urban, farm, plant, h).Some?
    ensures var (k, p) := Choose(urban, farm, plant, h).value;
      Among(urban, farm, plant, k) == Some(p) &&
      forall c :: Among(urban, farm, plant, c).Some? ==>
        (Rank(c) < Rank(k) ==> CategoryHash(h, k) < CategoryHash(h, c)) &&
        (Rank(k) < Rank(c) ==> CategoryHash(h, k) <= CategoryHash(h, c))
  {
    var (k, p) := Choose(urban, farm, plant, h).value;
    forall c | Among(urban, farm, plant, c).Some?
      ensures Rank(c) < Rank(k) ==> CategoryHash(h, k) < CategoryHash(h, c)
      ensures Rank(k) < Rank(c) ==> CategoryHash(h, k) <= CategoryHash(h, c)
    {
      Categories(c);
    }
  }

  /** The three picks, when all of them succeed, are the offers the choice is made from. */
  lemma OffersAmong(cs: Collections, levels: FeatureLevels, h: M.HexHash)
    requires SelectFeature(cs, levels, h).Ok?
    ensures var u, f, p := Offer(cs, levels, h, Urban).value, Offer(cs, levels, h, Farm).value,
                           Offer(cs, levels, h, Plant).value;
      forall c :: Offer(cs, levels, h, c) == Ok(Among(u, f, p, c))
  {
    SelectFeatureFails(cs, levels, h);
    var u, f, p := Offer(cs, levels, h, Urban).value, Offer(cs, levels, h, Farm).value,
                   Offer(cs, levels, h, Plant).value;
    forall c ensures Offer(cs, levels, h, c) == Ok(Among(u, f, p, c)) {
      Categories(c);
    }
  }

  /** AddFeature places nothing exactly when no category offers a prefab. */
  lemma SelectFeatureNothing(cs: Collections, levels: FeatureLevels, h: M.HexHash)
    requires SelectFeature(cs, levels, h).Ok?
    ensures SelectFeature(cs, levels, h).value.None? <==> forall c :: !Offers(cs, levels, h, c)
  {
    var u, f, p := Offer(cs, levels, h, Urban).value, Offer(cs, levels, h, Farm).value,
                   Offer(cs, levels, h, Plant).value;
    OffersAmong(cs, levels, h);
    ChooseNothing(u, f, p, h);
    assert SelectFeature(cs, levels, h).value.None? <==> Choose(u, f, p, h).None?;
    assert forall c :: Offers(cs, levels, h, c) <==> Among(u, f, p, c).Some?;
  }

  /** Otherwise it places the offered prefab of the category with the smallest hash,
      the earlier category winning a tie, turned by 360 degrees times channel e. */
  lemma SelectFeatureIsMinimum(cs: Collections, levels: FeatureLevels, h: M.HexHash)
    requires SelectFeature(cs, levels, h).Ok? && SelectFeature(cs, levels, h).value.Some?
    ensures var s := SelectFeature(cs, levels, h).value.value;
      Offers(cs, levels, h, s.category) &&
      s.prefab == Offer(cs, levels, h, s.category).value.value &&
      s.rotation == 360.0 * h.e &&
      forall c :: Offers(cs, levels, h, c) ==>
        (Rank(c) < Rank(s.category) ==> CategoryHash(h, s.category) < CategoryHash(h, c)) &&
        (Rank(s.category) < Rank(c) ==> CategoryHash(h, s.category) <= CategoryHash(h, c))
  {
    var u, f, p := Offer(cs, levels, h, Urban).value, Offer(cs, levels, h, Farm).value,
                   Offer(cs, levels, h, Plant).value;
    OffersAmong(cs, levels, h);
    var s := SelectFeature(cs, levels, h).value.value;
    assert Choose(u, f, p, h) == Some((s.category, s.prefab));
    ChooseIsMinimum(u, f, p, h);
    assert forall c :: Offers(cs, levels, h, c) <==> Among(u, f, p, c).Some?;
  }

  // ---- Walls ----

  /** The twelve vertices of a wall segment, as three quads in AddQuad order: the face on
      the near-minus-offset side, the opposite face (wound the other way), and the top
      joining the two. */
  function WallSegmentVertices(nearLeft: Vector3, farLeft: Vector3, nearRight: Vector3, farRight: Vector3,
                               magnitude: M.Magnitude): (r: seq<Vector3>)
    ensures |r| == 12
  {
    var left := Lerp(nearLeft, farLeft, 0.5);
    var right := Lerp(nearRight, farRight, 0.5);
    WallQuads(left, right, M.WallThicknessOffset(nearLeft, farLeft, magnitude),
              M.WallThicknessOffset(nearRight, farRight, magnitude),
              left.y + M.WallHeight, right.y + M.WallHeight)
  }

  /** The three quads around the centre line from left to right, the faces offset to
      either side and raised to the given tops. */
  function WallQuads(left: Vector3, right: Vector3, leftOffset: Vector3, rightOffset: Vector3,
                     leftTop: real, rightTop: real): (r: seq<Vector3>)
    ensures |r| == 12
  {
    var a1, a2 := Sub(left, leftOffset), Sub(right, rightOffset);
    var a3, a4 := a1.(y := leftTop), a2.(y := rightTop);
    var b1, b2 := Add(left, leftOffset), Add(right, rightOffset);
    var b3, b4 := b1.(y := leftTop), b2.(y := rightTop);
    [a1, a2, a3, a4] + [b2, b1, b4, b3] + [a3, a4, b3, b4]
  }

  /** The shape of a wall segment: the two faces stand symmetrically about the line
      through the two edge midpoints, their feet at the midpoints' heights; each face
      rises vertically by the wall height; the top joins the faces' upper edges. */
  lemma WallSegmentShape(nearLeft: Vector3, farLeft: Vector3, nearRight: Vector3, farRight: Vector3,
                         magnitude: M.Magnitude)
    ensures var r := WallSegmentVertices(nearLeft, farLeft, nearRight, farRight, magnitude);
      Scale(Add(r[0], r[5]), 0.5) == Lerp(nearLeft, farLeft, 0.5) &&
      Scale(Add(r[1], r[4]), 0.5) == Lerp(nearRight, farRight, 0.5) &&
      r[0].y == (nearLeft.y + farLeft.y) / 2.0 && r[1].y == (nearRight.y + farRight.y) / 2.0 &&
      r[2] == r[0].(y := r[0].y + M.WallHeight) && r[3] == r[1].(y := r[1].y + M.WallHeight) &&
      r[7] == r[5].(y := r[5].y + M.WallHeight) && r[6] == r[4].(y := r[4].y + M.WallHeight) &&
      r[8..] == [r[2], r[3], r[7], r[6]]
  {
  }

  /** Each vertex moved by the noise, as AddQuad stores it. */
  function PerturbAll(noise: M.NoiseSource, vs: seq<Vector3>): (r: seq<Vector3>)
    ensures |r| == |vs| && forall k :: 0 <= k < |vs| ==> r[k] == M.Perturb(noise, vs[k])
  {
    seq(|vs|, k requires 0 <= k < |vs| => M.Perturb(noise, vs[k]))
  }

  lemma PerturbAllAppend(noise: M.NoiseSource, a: seq<Vector3>, b: seq<Vector3>)
    ensures PerturbAll(noise, a + b) == PerturbAll(noise, a) + PerturbAll(noise, b)
  {
  }

  lemma PerturbQuad(noise: M.NoiseSource, v1: Vector3, v2: Vector3, v3: Vector3, v4: Vector3)
    ensures PerturbAll(noise, [v1, v2, v3, v4])
         == [M.Perturb(noise, v1), M.Perturb(noise, v2), M.Perturb(noise, v3), M.Perturb(noise, v4)]
  {
  }

  /** The corner arrangement of the three-cell AddWall: which corner is the pivot (the one
      cell whose walled flag differs from the other two), and which follow it as left and
      right, in cyclic order; none when all three agree. */
  function WallPivot(walled1: bool, walled2: bool, walled3: bool): (r: Option<(nat, nat, nat)>)
    ensures r.None? <==> walled1 == walled2 == walled3
    ensures r.Some? ==> var (p, l, rt) := r.value;
      p < 3 && l == (p + 1) % 3 && rt == (p + 2) % 3 &&
      var w := [walled1, walled2, walled3];
      w[l] == w[rt] && w[p] != w[l]
  {
    if walled1 then
      if walled2 then
        if !walled3 then Some((2, 0, 1)) else None
      else if walled3 then Some((1, 2, 0))
      else Some((0, 1, 2))
    else if walled2 then
      if walled3 then Some((0, 1, 2)) else Some((1, 2, 0))
    else if walled3 then Some((2, 0, 1))
    else None
  }

  /** An engine object placed under the features container. */
  datatype Instance = Instance(prefab: Prefab, position: Vector3, rotation: real)

  class HexFeatureManager {
    const collections: Collections
    const walls: HexMeshes.HexMesh
    /** HexMetrics' hash grid and noise texture. */
    const hashGrid: seq<M.HexHash>
    const noise: M.NoiseSource
    const magnitude: M.Magnitude
    /** Each prefab's localScale.y. */
    const prefabHeight: Prefab -> real
    /** The children of the features container, in creation order. */
    var instances: seq<Instance>

    ghost predicate Valid()
      reads this, walls
    {
      walls.Valid() && walls.noise == noise && |hashGrid| == M.HashGridLength
    }

    constructor (collections: Collections, walls: HexMeshes.HexMesh, hashGrid: seq<M.HexHash>,
                 magnitude: M.Magnitude, prefabHeight: Prefab -> real)
      requires walls.Valid() && |hashGrid| == M.HashGridLength
      ensures Valid() && instances == []
      ensures this.collections == collections && this.walls == walls && this.hashGrid == hashGrid
      ensures this.magnitude == magnitude && this.prefabHeight == prefabHeight
    {
      this.collections := collections;
      this.walls := walls;
      this.hashGrid := hashGrid;
      this.noise := walls.noise;
      this.magnitude := magnitude;
      this.prefabHeight := prefabHeight;
      instances := [];
    }

    /** Clear: a new, empty container and an empty walls mesh. */
    method Clear()
      requires Valid()
      modifies this`instances, walls`vertices, walls`triangles, walls`colors, walls`uvs, walls`uvs2, walls`terrainTypes
      ensures Valid() && instances == [] && walls.vertices == [] && walls.triangles == []
      ensures walls.colors == if walls.isUsingColors then [] else old(walls.colors)
      ensures walls.uvs == if walls.isUsingUVCoordinates then [] else old(walls.uvs)
      ensures walls.uvs2 == if walls.isUsingUV2Coordinates then [] else old(walls.uvs2)
      ensures walls.terrainTypes == if walls.isUsingTerrainTypes then [] else old(walls.terrainTypes)
    {
      instances := [];
      walls.Clear();
    }

    /** AddFeature: samples the hash grid at position, selects a prefab and, when there
        is one, places an instance of it raised by half its height, perturbed, and turned
        about y. ok is false where the selection reads out of range (the runtime throws);
        nothing is placed then. */
    method AddFeature(levels: FeatureLevels, position: Vector3) returns (ok: bool)
      requires Valid()
      modifies this`instances
      ensures var h := M.SampleHashGrid(hashGrid, position);
        var r := SelectFeature(collections, levels, h);
        ok == r.Ok? &&
        instances == old(instances) +
          if r.Ok? && r.value.Some? then
            var s := r.value.value;
            [Instance(s.prefab, M.Perturb(noise, position.(y := position.y + prefabHeight(s.prefab) * 0.5)), s.rotation)]
          else []
    {
      var h := M.SampleHashGrid(hashGrid, position);
      var r := SelectFeature(collections, levels, h);
      if r.IndexOutOfRange? {
        return false;
      }
      if r.value.None? {
        return true;
      }
      var s := r.value.value;
      var raised := position.(y := position.y + prefabHeight(s.prefab) * 0.5);
      instances := instances + [Instance(s.prefab, M.Perturb(noise, raised), s.rotation)];
      return true;
    }

    /** AddWallSegment(nearLeft, farLeft, nearRight, farRight): three quads into walls. */
    method AddWallSegment(nearLeft: Vector3, farLeft: Vector3, nearRight: Vector3, farRight: Vector3)
      requires Valid()
      modifies walls`vertices, walls`triangles
      ensures Valid()
      ensures walls.vertices == old(walls.vertices) +
        PerturbAll(noise, WallSegmentVertices(nearLeft, farLeft, nearRight, farRight, magnitude))
      ensures var n := |old(walls.vertices)|;
        walls.triangles == old(walls.triangles) +
          HexMeshes.QuadIndices(n) + HexMeshes.QuadIndices(n + 4) + HexMeshes.QuadIndices(n + 8)
    {
      var left := Lerp(nearLeft, farLeft, 0.5);
      var right := Lerp(nearRight, farRight, 0.5);
      var leftThicknessOffset := M.WallThicknessOffset(nearLeft, farLeft, magnitude);
      var rightThicknessOffset := M.WallThicknessOffset(nearRight, farRight, magnitude);
      var leftTop := left.y + M.WallHeight;
      var rightTop := right.y + M.WallHeight;
      AddWallQuads(left, right, leftThicknessOffset, rightThicknessOffset, leftTop, rightTop);
    }

    /** The quad-laying half of AddWallSegment: the near face, the far face (wound the
        other way) and the top between their upper edges. */
    method AddWallQuads(left: Vector3, right: Vector3, leftThicknessOffset: Vector3, rightThicknessOffset: Vector3,
                        leftTop: real, rightTop: real)
      requires Valid()
      modifies walls`vertices, walls`triangles
      ensures Valid()
      ensures walls.vertices == old(walls.vertices) +
        PerturbAll(noise, WallQuads(left, right, leftThicknessOffset, rightThicknessOffset, leftTop, rightTop))
      ensures var n := |old(walls.vertices)|;
        walls.triangles == old(walls.triangles) +
          HexMeshes.QuadIndices(n) + HexMeshes.QuadIndices(n + 4) + HexMeshes.QuadIndices(n + 8)
    {
      ghost var start, n, indices := walls.vertices, |walls.vertices|, walls.triangles;
      var v1 := Sub(left, leftThicknessOffset);
      var v2 := Sub(right, rightThicknessOffset);
      var v3 := v1.(y := leftTop);
      var v4 := v2.(y := rightTop);
      ghost var face := [v1, v2, v3, v4];
      PerturbQuad(noise, v1, v2, v3, v4);
      walls.AddQuad(v1, v2, v3, v4);
      assert walls.vertices == start + PerturbAll(noise, face) && |walls.vertices| == n + 4;
      assert walls.triangles == indices + HexMeshes.QuadIndices(n);

      var t1, t2 := v3, v4;

      v1 := Add(left, leftThicknessOffset);
      v2 := Add(right, rightThicknessOffset);
      v3 := v1.(y := leftTop);
      v4 := v2.(y := rightTop);
      ghost var back := [v2, v1, v4, v3];
      PerturbQuad(noise, v2, v1, v4, v3);
      walls.AddQuad(v2, v1, v4, v3);
      assert walls.vertices == start + PerturbAll(noise, face) + PerturbAll(noise, back) && |walls.vertices| == n + 8;
      assert walls.triangles == indices + HexMeshes.QuadIndices(n) + HexMeshes.QuadIndices(n + 4);

      ghost var top := [t1, t2, v3, v4];
      PerturbQuad(noise, t1, t2, v3, v4);
      walls.AddQuad(t1, t2, v3, v4);
      assert walls.vertices == start + PerturbAll(noise, face) + PerturbAll(noise, back) + PerturbAll(noise, top);
      assert face + back + top == WallQuads(left, right, leftThicknessOffset, rightThicknessOffset, leftTop, rightTop);
      PerturbAllAppend(noise, face + back, top);
      PerturbAllAppend(noise, face, back);
    }

    /** AddWall between two edges: a segment from the near edge's ends to the far edge's
        ends exactly when one cell is walled and the other is not. */
    method AddEdgeWall(near: EdgeVertices, nearWalled: bool, far: EdgeVertices, farWalled: bool)
      requires Valid()
      modifies walls`vertices, walls`triangles
      ensures Valid()
      ensures nearWalled == farWalled ==> walls.vertices == old(walls.vertices) && walls.triangles == old(walls.triangles)
      ensures nearWalled != farWalled ==>
        walls.vertices == old(walls.vertices) +
          PerturbAll(noise, WallSegmentVertices(near.v1, far.v1, near.v5, far.v5, magnitude))
      ensures nearWalled != farWalled ==> var n := |old(walls.vertices)|;
        walls.triangles == old(walls.triangles) +
          HexMeshes.QuadIndices(n) + HexMeshes.QuadIndices(n + 4) + HexMeshes.QuadIndices(n + 8)
    {
      if nearWalled != farWalled {
        AddWallSegment(near.v1, far.v1, near.v5, far.v5);
      }
    }

    /** AddWallSegment(pivot, left, right): the wall from the pivot corner towards the
        left corner and from the pivot towards the right corner. */
    method AddPivotWallSegment(pivot: Vector3, left: Vector3, right: Vector3)
      requires Valid()
      modifies walls`vertices, walls`triangles
      ensures Valid()
      ensures walls.vertices == old(walls.vertices) +
        PerturbAll(noise, WallSegmentVertices(pivot, left, pivot, right, magnitude))
      ensures var n := |old(walls.vertices)|;
        walls.triangles == old(walls.triangles) +
          HexMeshes.QuadIndices(n) + HexMeshes.QuadIndices(n + 4) + HexMeshes.QuadIndices(n + 8)
    {
      AddWallSegment(pivot, left, pivot, right);
    }

    /** AddWall at the corner of three cells: one segment around the odd cell out, none
        when all three agree. */
    method AddCornerWall(c1: Vector3, walled1: bool, c2: Vector3, walled2: bool, c3: Vector3, walled3: bool)
      requires Valid()
      modifies walls`vertices, walls`triangles
      ensures Valid()
      ensures walled1 == walled2 == walled3 ==>
        walls.vertices == old(walls.vertices) && walls.triangles == old(walls.triangles)
      ensures match WallPivot(walled1, walled2, walled3)
        case None => true
        case Some((p, l, r)) =>
          var corners := [c1, c2, c3];
          var n := |old(walls.vertices)|;
          walls.vertices == old(walls.vertices) +
            PerturbAll(noise, WallSegmentVertices(corners[p], corners[l], corners[p], corners[r], magnitude)) &&
          walls.triangles == old(walls.triangles) +
            HexMeshes.QuadIndices(n) + HexMeshes.QuadIndices(n + 4) + HexMeshes.QuadIndices(n + 8)
    {
      if walled1 {
        if walled2 {
          if !walled3 {
            AddPivotWallSegment(c3, c1, c2);
          }
        } else if walled3 {
          AddPivotWallSegment(c2, c3, c1);
        } else {
          AddPivotWallSegment(c1, c2, c3);
        }
      } else if walled2 {
        if walled3 {
          AddPivotWallSegment(c1, c2, c3);
        } else {
          AddPivotWallSegment(c2, c3, c1);
        }
      } else if walled3 {
        AddPivotWallSegment(c3, c1, c2);
      }
    }
  }
}
