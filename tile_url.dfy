/**
 * The z/x/y tile address requested for each mosaic tile, and a parser that
 * reads an address back, so that the rendering is shown to lose nothing.
 */
module TileUrl {
  import opened Wrappers

  /** Everything before the zoom level in a tile address. */
  const HOST: string := "https://a.tile.opentopomap.org/"
  const SUFFIX: string := ".png"

  predicate IsDigit(c: char)
  {
    '0' <= c <= '9'
  }

  predicate AllDigits(s: string)
  {
    forall k :: 0 <= k < |s| ==> IsDigit(s[k])
  }

  function DigitChar(d: nat): (c: char)
    requires d < 10
    ensures IsDigit(c)
  {
    ('0' as int + d) as char
  }

  function DigitValue(c: char): (d: nat)
    requires IsDigit(c)
    ensures d < 10 && DigitChar(d) == c
  {
    c as int - '0' as int
  }

  /** Decimal numeral of n, most significant digit first, no leading zeros. */
  function Decimal(n: nat): (s: string)
    ensures |s| > 0 && AllDigits(s)
    ensures n < 10 <==> |s| == 1
  {
    if n < 10 then [DigitChar(n)] else Decimal(n / 10) + [DigitChar(n % 10)]
  }

  function ParseDecimal(s: string): nat
    requires AllDigits(s)
  {
    if |s| == 0 then 0
    else ParseDecimal(s[..|s| - 1]) * 10 + DigitValue(s[|s| - 1])
  }

  lemma {:induction false} ParseDecimalInverse(n: nat)
    ensures ParseDecimal(Decimal(n)) == n
  {
    if n >= 10 {
      var s := Decimal(n);
      assert s[..|s| - 1] == Decimal(n / 10);
      ParseDecimalInverse(n / 10);
    }
  }

  /** Length of the longest all-digit prefix of s. */
  function LeadingDigits(s: string): (k: nat)
    ensures k <= |s| && AllDigits(s[..k])
    ensures k < |s| ==> !IsDigit(s[k])
  {
    if |s| == 0 || !IsDigit(s[0]) then 0
    else
      var k := 1 + LeadingDigits(s[1..]);
      assert s[..k] == [s[0]] + s[1..][..k - 1];
      k
  }

  /** Reads a numeral off the front of s and returns its value and what follows. */
  function ReadNumber(s: string): Option<(nat, string)>
  {
    var k := LeadingDigits(s);
    if k == 0 then None else Some((ParseDecimal(s[..k]), s[k..]))
  }

  /** Consumes the character c at the front of s. */
  function Expect(c: char, s: string): Option<string>
  {
    if |s| > 0 && s[0] == c then Some(s[1..]) else None
  }

  /** The address of the tile at zoom z, column x, row y. */
  function Render(z: nat, x: nat, y: nat): string
  {
    HOST + (Decimal(z) + ("/" + ColumnRow(Decimal(x), Decimal(y))))
  }

  /** Reads a tile address back into its zoom, column and row. */
  function Parse(s: string): Option<(nat, nat, nat)>
  {
    if |s| < |HOST| || s[..|HOST|] != HOST then None
    else
      match ReadNumber(s[|HOST|..])
      case None => None
      case Some((z, rest)) =>
        match Expect('/', rest)
        case None => None
        case Some(xy) =>
          match ParseColumnRow(xy)
          case None => None
          case Some((x, y)) => Some((z, x, y))
  }

  /** The "x/y.png" part of a tile address, from the numerals of x and y. */
  function ColumnRow(dx: string, dy: string): string
  {
    dx + ("/" + (dy + SUFFIX))
  }

  /** Reads the "x/y.png" part of a tile address. */
  function ParseColumnRow(s: string): Option<(nat, nat)>
  {
    match ReadNumber(s)
    case None => None
    case Some((x, rest)) =>
      match Expect('/', rest)
      case None => None
      case Some(r) =>
        match ReadNumber(r)
        case None => None
        case Some((y, tail)) => if tail == SUFFIX then Some((x, y)) else None
  }

  /** A numeral followed by a non-digit is read up to the non-digit. */
  lemma {:induction false} LeadingDigitsStop(d: string, rest: string)
    requires AllDigits(d)
    requires rest == [] || !IsDigit(rest[0])
    ensures LeadingDigits(d + rest) == |d|
  {
    if |d| == 0 {
      assert d + rest == rest;
    } else {
      assert (d + rest)[1..] == d[1..] + rest;
      LeadingDigitsStop(d[1..], rest);
    }
  }

  /** A numeral followed by a non-digit is read whole. */
  lemma ReadNumberDigits(d: string, rest: string)
    requires |d| > 0 && AllDigits(d)
    requires rest == [] || !IsDigit(rest[0])
    ensures ReadNumber(d + rest) == Some((ParseDecimal(d), rest))
  {
    var s := d + rest;
    LeadingDigitsStop(d, rest);
    assert s[..|d|] == d;
    assert s[|d|..] == rest;
  }

  lemma ParseColumnRowDigits(dx: string, dy: string)
    requires |dx| > 0 && AllDigits(dx)
    requires |dy| > 0 && AllDigits(dy)
    ensures ParseColumnRow(ColumnRow(dx, dy)) == Some((ParseDecimal(dx), ParseDecimal(dy)))
  {
    var tail := dy + SUFFIX;
    ReadNumberDigits(dx, "/" + tail);
    assert Expect('/', "/" + tail) == Some(tail);
    ReadNumberDigits(dy, SUFFIX);
  }

  /** Parsing a rendered address gives back the tile it names. */
  lemma ParseRender(z: nat, x: nat, y: nat)
    ensures Parse(Render(z, x, y)) == Some((z, x, y))
  {
    var xy := ColumnRow(Decimal(x), Decimal(y));
    var body := Decimal(z) + ("/" + xy);
    assert Render(z, x, y)[..|HOST|] == HOST;
    assert Render(z, x, y)[|HOST|..] == body;
    ReadNumberDigits(Decimal(z), "/" + xy);
    assert Expect('/', "/" + xy) == Some(xy);
    ParseColumnRowDigits(Decimal(x), Decimal(y));
    ParseDecimalInverse(z);
    ParseDecimalInverse(x);
    ParseDecimalInverse(y);
  }

  /** Distinct tiles get distinct addresses. */
  lemma RenderInjective(z1: nat, x1: nat, y1: nat, z2: nat, x2: nat, y2: nat)
    requires Render(z1, x1, y1) == Render(z2, x2, y2)
    ensures z1 == z2 && x1 == x2 && y1 == y2
  {
    ParseRender(z1, x1, y1);
    ParseRender(z2, x2, y2);
  }
}
