// C# integer and conversion semantics, stated over Dafny's unbounded
// integers and reals. C# `/` and `%` on int truncate toward zero, and an
// `(int)` cast of a float truncates toward zero; Dafny's `/` and `%` are
// Euclidean, so the C# operators are written out here.
module CSharpNumerics {

  function Abs(a: int): (r: nat)
    ensures r == a || r == -a
  {
    if a < 0 then -a else a
  }

  /** C# `a / b` for a positive divisor: the quotient rounded toward zero. */
  function CsDiv(a: int, b: int): (q: int)
    requires b > 0
    ensures a >= 0 ==> 0 <= a - q * b < b
    ensures a < 0 ==> -b < a - q * b <= 0
  {
    if a >= 0 then a / b else -((-a) / b)
  }

  /** C# `a % b` for a positive divisor: the remainder takes the dividend's sign. */
  function CsMod(a: int, b: int): (r: int)
    requires b > 0
    ensures r == a - CsDiv(a, b) * b
    ensures a >= 0 ==> 0 <= r < b
    ensures a < 0 ==> -b < r <= 0
  {
    a - CsDiv(a, b) * b
  }

  /** On non-negative dividends C# and Dafny division agree. */
  lemma CsDivNonNegative(a: int, b: int)
    requires a >= 0 && b > 0
    ensures CsDiv(a, b) == a / b
    ensures CsMod(a, b) == a % b
  {
  }

  /** C# `(int)r` for a float `r`: truncation toward zero. */
  function Trunc(r: real): (i: int)
    ensures r >= 0.0 ==> i as real <= r < i as real + 1.0 && i >= 0
    ensures r < 0.0 ==> i as real - 1.0 < r <= i as real && i <= 0
  {
    if r >= 0.0 then r.Floor else -((-r).Floor)
  }

  /** Truncation never decreases when its argument grows. */
  lemma TruncMonotone(a: real, b: real)
    requires a <= b
    ensures Trunc(a) <= Trunc(b)
  {
  }

  /** The truncation of x is an index below a positive n exactly when x lies strictly
      between -1 and n. */
  lemma TruncInRange(x: real, n: nat)
    requires n > 0
    ensures 0 <= Trunc(x) < n <==> -1.0 < x < n as real
  {
    var i := Trunc(x);
    if x >= 0.0 {
      assert 0 <= i && i as real <= x < i as real + 1.0;
      if i < n {
        assert i + 1 <= n;
        assert (i + 1) as real <= n as real;
      }
      if x < n as real {
        assert i as real < n as real;
      }
    } else {
      assert i <= 0 && i as real - 1.0 < x <= i as real;
      if i == 0 {
        assert -1.0 < x;
      } else {
        assert i <= -1;
        assert x <= -1.0;
      }
    }
  }

  /** Scaling by a non-negative factor keeps order. */
  lemma MulMonotone(a: real, b: real, n: real)
    requires a <= b && n >= 0.0
    ensures a * n <= b * n
  {
    assert b * n - a * n == (b - a) * n;
    assert (b - a) * n >= 0.0;
  }

  /** Mathf.Clamp01. */
  function Clamp01(t: real): (r: real)
    ensures 0.0 <= r <= 1.0
    ensures 0.0 <= t <= 1.0 ==> r == t
  {
    if t < 0.0 then 0.0 else if t > 1.0 then 1.0 else t
  }
}

// Unity's small value types, with float idealised as real.
module Vectors {
  import opened CSharpNumerics

  datatype Vector2 = Vector2(x: real, y: real)
  datatype Vector3 = Vector3(x: real, y: real, z: real)
  datatype Vector4 = Vector4(x: real, y: real, z: real, w: real)
  datatype Color = Color(r: real, g: real, b: real, a: real)

  const Zero: Vector3 := Vector3(0.0, 0.0, 0.0)

  function Add(a: Vector3, b: Vector3): Vector3 {
    Vector3(a.x + b.x, a.y + b.y, a.z + b.z)
  }

  function Sub(a: Vector3, b: Vector3): Vector3 {
    Vector3(a.x - b.x, a.y - b.y, a.z - b.z)
  }

  function Scale(a: Vector3, k: real): Vector3 {
    Vector3(a.x * k, a.y * k, a.z * k)
  }

  /** Vector3.Lerp: the parameter is clamped to [0, 1] before interpolating. */
  function Lerp(a: Vector3, b: Vector3, t: real): (r: Vector3)
    ensures t <= 0.0 ==> r == a
    ensures t >= 1.0 ==> r == b
  {
    var c := Clamp01(t);
    Vector3(a.x + (b.x - a.x) * c, a.y + (b.y - a.y) * c, a.z + (b.z - a.z) * c)
  }

  /** Color.Lerp: the parameter is clamped to [0, 1] before interpolating. */
  function LerpColor(a: Color, b: Color, t: real): (r: Color)
    ensures t <= 0.0 ==> r == a
    ensures t >= 1.0 ==> r == b
  {
    var c := Clamp01(t);
    Color(a.r + (b.r - a.r) * c, a.g + (b.g - a.g) * c, a.b + (b.b - a.b) * c, a.a + (b.a - a.a) * c)
  }
}
