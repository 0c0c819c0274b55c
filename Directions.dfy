// The six hex directions and their cyclic arithmetic (ENUM_HexDirection and
// its extension methods). The repository declares the enum three times with
// identical bodies; this one module stands for all three copies.
module HexDirections {

  /** ENUM_HexDirection: NE = 0, E, SE, SW, W, NW = 5. */
  type Direction = d: int | 0 <= d < 6

  const NE: Direction := 0
  const E: Direction := 1
  const SE: Direction := 2
  const SW: Direction := 3
  const W: Direction := 4
  const NW: Direction := 5

  /** Reference definition: turning by k sixths of a full circle. */
  function Rotate(d: Direction, k: int): Direction {
    (d + k) % 6
  }

  /** The direction pointing back across the same edge. */
  function Opposite(d: Direction): (r: Direction)
    ensures r == Rotate(d, 3)
    ensures r != d
    ensures (d < 3) == (r >= 3)
  {
    if d < 3 then d + 3 else d - 3
  }

  /** One step counter-clockwise, NE wrapping to NW. */
  function Previous(d: Direction): (r: Direction)
    ensures r == Rotate(d, -1)
  {
    if d == NE then NW else d - 1
  }

  /** One step clockwise, NW wrapping to NE. */
  function Next(d: Direction): (r: Direction)
    ensures r == Rotate(d, 1)
  {
    if d == NW then NE else d + 1
  }

  /** Two steps counter-clockwise: subtract two and add six when below NE. */
  function Previous2(d: Direction): (r: Direction)
    ensures r == Rotate(d, -2)
  {
    var p := d - 2;
    if p >= NE then p else p + 6
  }

  /** Two steps clockwise: add two and subtract six when past NW. */
  function Next2(d: Direction): (r: Direction)
    ensures r == Rotate(d, 2)
  {
    var n := d + 2;
    if n <= NW then n else n - 6
  }

  lemma OppositeInvolution(d: Direction)
    ensures Opposite(Opposite(d)) == d
  {
  }

  lemma NextPreviousInverse(d: Direction)
    ensures Previous(Next(d)) == d
    ensures Next(Previous(d)) == d
  {
  }

  lemma WrapAround()
    ensures Next(NW) == NE
    ensures Previous(NE) == NW
  {
  }

  lemma Next2IsNextTwice(d: Direction)
    ensures Next2(d) == Next(Next(d))
    ensures Previous2(d) == Previous(Previous(d))
  {
  }

  lemma Next2Previous2Inverse(d: Direction)
    ensures Previous2(Next2(d)) == d
    ensures Next2(Previous2(d)) == d
  {
  }

  lemma OppositeIsThreeSteps(d: Direction)
    ensures Opposite(d) == Next(Next(Next(d)))
    ensures Opposite(d) == Previous(Previous(Previous(d)))
  {
  }
}
