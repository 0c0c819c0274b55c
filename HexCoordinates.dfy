// Cube coordinates of a hex cell (HexCoordinates): X and Z are stored, Y is
// derived so that X + Y + Z == 0. Also the two string renderings, with
// parsers that recover the coordinates from them.
module HexCoords {
  import opened CSharpNumerics
  import opened HexDirections
  import opened Wrappers

  /** The struct's two stored fields; the constructor stores both unchanged. */
  datatype HexCoordinates = HexCoordinates(x: int, z: int) {
    /** The derived third cube coordinate. */
    function Y(): (y: int)
      ensures x + y + z == 0
    {
      -x - z
    }
  }

  /** Offset (column, row) to cube coordinates; the row halving is C#'s truncating division. */
  function FromOffsetCoordinates(x: int, z: int): (c: HexCoordinates)
    ensures c.z == z
    ensures c.x + CsDiv(z, 2) == x
    ensures z >= 0 ==> c.x + z / 2 == x
  {
    HexCoordinates(x - CsDiv(z, 2), z)
  }

  /** The column that HexGrid.GetCell recovers from cube coordinates. */
  function OffsetColumn(c: HexCoordinates): int {
    c.x + CsDiv(c.z, 2)
  }

  lemma OffsetRoundTrip(x: int, z: int, c: HexCoordinates)
    ensures OffsetColumn(FromOffsetCoordinates(x, z)) == x
    ensures FromOffsetCoordinates(OffsetColumn(c), c.z) == c
  {
  }

  /** Hex distance in cube coordinates. */
  function Distance(a: HexCoordinates, b: HexCoordinates): (d: nat)
    ensures d == Abs(a.x - b.x) || d == Abs(a.z - b.z) || d == Abs(a.Y() - b.Y())
    ensures Abs(a.x - b.x) <= d && Abs(a.z - b.z) <= d && Abs(a.Y() - b.Y()) <= d
  {
    var dx, dy, dz := Abs(a.x - b.x), Abs(a.Y() - b.Y()), Abs(a.z - b.z);
    if dx >= dy && dx >= dz then dx else if dy >= dz then dy else dz
  }

  /** The cube step taken by moving one cell in direction d. */
  function Step(c: HexCoordinates, d: Direction): (r: HexCoordinates)
    ensures Distance(c, r) == 1
  {
    match d
    case 0 => HexCoordinates(c.x, c.z + 1)
    case 1 => HexCoordinates(c.x + 1, c.z)
    case 2 => HexCoordinates(c.x + 1, c.z - 1)
    case 3 => HexCoordinates(c.x, c.z - 1)
    case 4 => HexCoordinates(c.x - 1, c.z)
    case 5 => HexCoordinates(c.x - 1, c.z + 1)
  }

  lemma StepOpposite(c: HexCoordinates, d: Direction)
    ensures Step(Step(c, d), Opposite(d)) == c
  {
  }

  // ---- Decimal rendering of int (Int32.ToString with a '-' sign) ----

  predicate IsDigit(ch: char) {
    '0' <= ch <= '9'
  }

  function DigitChar(n: nat): (ch: char)
    requires n < 10
    ensures IsDigit(ch) && (ch as int) - ('0' as int) == n
  {
    ((n + '0' as int) as char)
  }

  function NatToString(n: nat): (s: string)
    ensures |s| > 0
    ensures forall i :: 0 <= i < |s| ==> IsDigit(s[i])
    decreases n
  {
    if n < 10 then [DigitChar(n)] else NatToString(n / 10) + [DigitChar(n % 10)]
  }

  function IntToString(i: int): (s: string)
    ensures |s| > 0
    ensures forall k :: 0 < k < |s| ==> IsDigit(s[k])
    ensures IsDigit(s[0]) || (s[0] == '-' && |s| > 1)
  {
    if i < 0 then "-" + NatToString(-i) else NatToString(i)
  }

  function DigitValue(ch: char): (n: nat)
    requires IsDigit(ch)
    ensures n < 10
  {
    (ch as int) - ('0' as int)
  }

  function ParseNat(s: string): (n: nat)
    requires forall i :: 0 <= i < |s| ==> IsDigit(s[i])
    decreases |s|
  {
    if s == [] then 0 else ParseNat(s[..|s| - 1]) * 10 + DigitValue(s[|s| - 1])
  }

  predicate AllDigits(s: string) {
    forall i :: 0 <= i < |s| ==> IsDigit(s[i])
  }

  function ParseInt(s: string): Option<int> {
    if |s| > 1 && s[0] == '-' && AllDigits(s[1..]) then Some(0 - ParseNat(s[1..]))
    else if |s| > 0 && AllDigits(s) then Some(ParseNat(s))
    else None
  }

  lemma {:induction false} ParseNatToString(n: nat)
    ensures ParseNat(NatToString(n)) == n
    decreases n
  {
    var s := NatToString(n);
    if n >= 10 {
      ParseNatToString(n / 10);
      assert s[..|s| - 1] == NatToString(n / 10);
    }
  }

  lemma ParseIntToString(i: int)
    ensures ParseInt(IntToString(i)) == Some(i)
  {
    var s := IntToString(i);
    if i < 0 {
      assert s[1..] == NatToString(-i);
      ParseNatToString(-i);
    } else {
      ParseNatToString(i);
    }
  }

  // ---- Splitting at a separator ----

  function Split(s: string, sep: char): (parts: seq<string>)
    ensures |parts| > 0
    decreases |s|
  {
    if sep !in s then [s]
    else
      var k := IndexOf(s, sep);
      [s[..k]] + Split(s[k + 1..], sep)
  }

  function IndexOf(s: string, ch: char): (k: nat)
    requires ch in s
    ensures k < |s| && s[k] == ch && ch !in s[..k]
  {
    if s[0] == ch then 0 else 1 + IndexOf(s[1..], ch)
  }

  lemma {:induction false} IndexOfAfter(a: string, sep: char, b: string)
    requires sep !in a
    ensures IndexOf(a + [sep] + b, sep) == |a|
  {
    if a != [] {
      assert (a + [sep] + b)[1..] == a[1..] + [sep] + b;
      IndexOfAfter(a[1..], sep, b);
    }
  }

  lemma SplitJoin(a: string, sep: char, b: string)
    requires sep !in a
    ensures Split(a + [sep] + b, sep) == [a] + Split(b, sep)
  {
    var s := a + [sep] + b;
    assert s[|a|] == sep;
    IndexOfAfter(a, sep, b);
    assert s[..|a|] == a;
    assert s[|a| + 1..] == b;
  }

  /** Three fields free of the separator split back into themselves. */
  lemma SplitThree(a: string, b: string, c: string, sep: char)
    requires sep !in a && sep !in b && sep !in c
    ensures Split(a + [sep] + b + [sep] + c, sep) == [a, b, c]
  {
    var tail := b + [sep] + c;
    assert a + [sep] + b + [sep] + c == a + [sep] + tail;
    SplitJoin(b, sep, c);
    assert sep !in c;
    assert Split(c, sep) == [c];
    assert Split(tail, sep) == [b, c];
    SplitJoin(a, sep, tail);
  }

  lemma IntToStringAvoids(i: int, ch: char)
    requires !IsDigit(ch) && ch != '-'
    ensures ch !in IntToString(i)
  {
    var s := IntToString(i);
    assert forall k :: 0 <= k < |s| ==> s[k] != ch;
  }

  // ---- The two renderings and their parsers ----


  /** Reads three integers back; Y must agree with X and Z. */
  function FromParts(px: string, py: string, pz: string): Option<HexCoordinates> {
    match (ParseInt(px), ParseInt(py), ParseInt(pz))
    case (Some(x), Some(y), Some(z)) =>
      if x + y + z == 0 then Some(HexCoordinates(x, z)) else None
    case _ => None
  }

  function ParseSeparateLines(s: string): Option<HexCoordinates> {
    var parts := Split(s, '\n');
    if |parts| == 3 then FromParts(parts[0], parts[1], parts[2]) else None
  }

  function ParseParenthesised(s: string): Option<HexCoordinates> {
    if |s| < 2 || s[0] != '(' || s[|s| - 1] != ')' then None
    else
      var parts := Split(s[1..|s| - 1], ',');
      if |parts| == 3 && |parts[1]| > 0 && |parts[2]| > 0 && parts[1][0] == ' ' && parts[2][0] == ' '
      then FromParts(parts[0], parts[1][1..], parts[2][1..])
      else None
  }

  lemma FromPartsOfStrings(c: HexCoordinates)
    ensures FromParts(IntToString(c.x), IntToString(c.Y()), IntToString(c.z)) == Some(c)
  {
    ParseIntToString(c.x);
    ParseIntToString(c.Y());
    ParseIntToString(c.z);
  }

  /** Each line of ToStringOnSeparateLines reads back as X, Y and Z. */
  lemma SeparateLinesRoundTrip(c: HexCoordinates)
    ensures ParseSeparateLines(ToStringOnSeparateLines(c)) == Some(c)
  {
    FromPartsOfStrings(c);
  }

  /** The text between the outer parentheses of "(" + inner + ")" is inner. */
  lemma Unwrap(inner: string)
    ensures var s := "(" + inner + ")";
      |s| >= 2 && s[0] == '(' && s[|s| - 1] == ')' && s[1..|s| - 1] == inner
  {
    var s := "(" + inner + ")";
    assert s[1..|s| - 1] == inner;
  }

  /** A part after ", " starts with the space, and the rest is the part itself. */
  lemma SpaceLed(t: string)
    ensures |" " + t| > 0 && (" " + t)[0] == ' ' && (" " + t)[1..] == t
  {
    assert (" " + t)[1..] == t;
  }

  /** Fields free of commas, written as "(A, B, C)", split back between the parentheses. */
  lemma ParenthesisedFields(sx: string, sy: string, sz: string)
    requires ',' !in sx && ',' !in sy && ',' !in sz
    ensures var s := "(" + sx + ", " + sy + ", " + sz + ")";
      |s| >= 2 && s[0] == '(' && s[|s| - 1] == ')' &&
      Split(s[1..|s| - 1], ',') == [sx, " " + sy, " " + sz]
  {
    var py, pz := " " + sy, " " + sz;
    var inner := sx + [','] + py + [','] + pz;
    assert "(" + sx + ", " + sy + ", " + sz + ")" == "(" + inner + ")";
    Unwrap(inner);
    assert forall k :: 0 <= k < |py| ==> py[k] != ',';
    assert forall k :: 0 <= k < |pz| ==> pz[k] != ',';
    SplitThree(sx, py, pz, ',');
  }

  /** ToString: "(X, Y, Z)" -- between the parentheses, three comma-separated fields,
      the second and third led by the space after the comma. */
  function ToString(c: HexCoordinates): (r: string)
    ensures |r| >= 2 && r[0] == '(' && r[|r| - 1] == ')'
    ensures Split(r[1..|r| - 1], ',') ==
      [IntToString(c.x), " " + IntToString(c.Y()), " " + IntToString(c.z)]
  {
    IntToStringAvoids(c.x, ',');
    IntToStringAvoids(c.Y(), ',');
    IntToStringAvoids(c.z, ',');
    ParenthesisedFields(IntToString(c.x), IntToString(c.Y()), IntToString(c.z));
    "(" + IntToString(c.x) + ", " + IntToString(c.Y()) + ", " + IntToString(c.z) + ")"
  }

  /** ToStringOnSeparateLines: "X\nY\nZ" -- exactly three lines, X, Y and Z. */
  function ToStringOnSeparateLines(c: HexCoordinates): (r: string)
    ensures Split(r, '\n') == [IntToString(c.x), IntToString(c.Y()), IntToString(c.z)]
  {
    var sx, sy, sz := IntToString(c.x), IntToString(c.Y()), IntToString(c.z);
    IntToStringAvoids(c.x, '\n');
    IntToStringAvoids(c.Y(), '\n');
    IntToStringAvoids(c.z, '\n');
    SplitThree(sx, sy, sz, '\n');
    assert sx + ['\n'] + sy + ['\n'] + sz == IntToString(c.x) + "\n" + IntToString(c.Y()) + "\n" + IntToString(c.z);
    IntToString(c.x) + "\n" + IntToString(c.Y()) + "\n" + IntToString(c.z)
  }

  /** ToString reads back as the same coordinates. */
  lemma ToStringRoundTrip(c: HexCoordinates)
    ensures ParseParenthesised(ToString(c)) == Some(c)
  {
    SpaceLed(IntToString(c.Y()));
    SpaceLed(IntToString(c.z));
    FromPartsOfStrings(c);
  }

}
