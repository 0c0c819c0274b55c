// HexFeatureCollection: the prefab variants of one feature category at one
// density level, and the pick of a variant from a hash value in [0, 1).
module FeatureCollections {
  import opened CSharpNumerics

  /** An engine prefab (a Transform asset), known here only by its identity. */
  type Prefab = nat

  /** The outcome of an array access: the value, or the IndexOutOfRangeException
      the runtime throws. */
  datatype Indexed<T> = Ok(value: T) | IndexOutOfRange

  /** The float product `choice * prefabs.Length` that Pick casts to an index. */
  function Scaled(choice: real, length: nat): real {
    choice * length as real
  }

  /** The index Pick reads: the product truncated by the `(int)` cast. */
  function PickIndex(choice: real, length: nat): int {
    Trunc(Scaled(choice, length))
  }

  /** Pick: the variant at the truncated position of choice along the array. The read
      is in bounds exactly when the product lies strictly between -1 and the length
      (a small negative product truncates to 0). */
  function Pick(prefabs: seq<Prefab>, choice: real): (r: Indexed<Prefab>)
    ensures r.Ok? <==> -1.0 < Scaled(choice, |prefabs|) < |prefabs| as real
    ensures r.Ok? ==> 0 <= PickIndex(choice, |prefabs|) < |prefabs| && r.value == prefabs[PickIndex(choice, |prefabs|)]
  {
    var i := PickIndex(choice, |prefabs|);
    if |prefabs| > 0 then
      TruncInRange(Scaled(choice, |prefabs|), |prefabs|);
      if 0 <= i < |prefabs| then Ok(prefabs[i]) else IndexOutOfRange
    else
      assert Scaled(choice, 0) == 0.0;
      IndexOutOfRange
  }

  /** A choice in [0, 1) always reads a variant of a non-empty collection. */
  lemma PickInBounds(prefabs: seq<Prefab>, choice: real)
    requires |prefabs| > 0 && 0.0 <= choice < 1.0
    ensures Pick(prefabs, choice).Ok?
  {
    var n := |prefabs| as real;
    assert -1.0 < Scaled(choice, |prefabs|) < n by {
      assert (1.0 - choice) * n > 0.0;
      assert choice * n >= 0.0;
    }
  }

  /** A choice of exactly 1 reads one past the end; so does any choice on an empty
      collection. */
  lemma PickAtOneFails(prefabs: seq<Prefab>, choice: real)
    requires choice == 1.0 || |prefabs| == 0
    ensures Pick(prefabs, choice) == IndexOutOfRange
  {
  }

  /** A larger choice never picks an earlier variant. */
  lemma PickIndexMonotone(c1: real, c2: real, length: nat)
    requires c1 <= c2
    ensures PickIndex(c1, length) <= PickIndex(c2, length)
  {
    MulMonotone(c1, c2, length as real);
    TruncMonotone(Scaled(c1, length), Scaled(c2, length));
  }
}
