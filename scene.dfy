/**
  The scene descriptor that app.py hands to the renderer: a shape tag and a
  colour, each from a fixed set. app.py carries both as string literals
  ("box", "0xff0000", ...); here they are enumerations with functions that
  give back those exact literals, the colour's 24-bit value, and decoders
  that map the literals back.
 */
module Scene {
  import opened Wrappers

  // ---------------------------------------------------------------------
  // Shapes
  // ---------------------------------------------------------------------

  datatype Shape = Box | Sphere | Cone

  /** The shape tag app.py passes to `renderFromAI`. */
  function Tag(s: Shape): (t: string)
    ensures 3 <= |t| <= 6
    ensures forall i :: 0 <= i < |t| ==> 'a' <= t[i] <= 'z'
  {
    match s
    case Box => "box"
    case Sphere => "sphere"
    case Cone => "cone"
  }

  /** Reads a shape tag back; anything but the three tags is rejected. */
  function ShapeFromTag(t: string): Option<Shape> {
    if t == "box" then Some(Box)
    else if t == "sphere" then Some(Sphere)
    else if t == "cone" then Some(Cone)
    else None
  }

  /** Tags and shapes are in one-to-one correspondence. */
  lemma TagRoundTrip(s: Shape, t: string)
    ensures ShapeFromTag(Tag(s)) == Some(s)
    ensures ShapeFromTag(t) == Some(s) ==> t == Tag(s)
  {
  }

  // ---------------------------------------------------------------------
  // Lower-case hexadecimal numerals
  // ---------------------------------------------------------------------

  function Pow16(w: nat): (p: nat)
    ensures p >= 1
  {
    if w == 0 then 1 else 16 * Pow16(w - 1)
  }

  predicate IsHexDigit(c: char) {
    ('0' <= c <= '9') || ('a' <= c <= 'f')
  }

  predicate IsHexNumeral(s: string) {
    forall i :: 0 <= i < |s| ==> IsHexDigit(s[i])
  }

  function HexDigit(d: nat): (c: char)
    requires d < 16
    ensures IsHexDigit(c)
  {
    "0123456789abcdef"[d]
  }

  function DigitValue(c: char): (d: nat)
    requires IsHexDigit(c)
    ensures d < 16 && HexDigit(d) == c
  {
    if c <= '9' then c as int - '0' as int else c as int - 'a' as int + 10
  }

  lemma DigitValueOfHexDigit(d: nat)
    requires d < 16
    ensures DigitValue(HexDigit(d)) == d
  {
  }

  /** The last `w` hexadecimal digits of `n`, most significant first,
      padded with zeros. */
  function HexDigits(n: nat, w: nat): (s: string)
    ensures |s| == w && IsHexNumeral(s)
  {
    if w == 0 then [] else HexDigits(n / 16, w - 1) + [HexDigit(n % 16)]
  }

  /** The value of a hexadecimal numeral. */
  function ParseHex(s: string): (v: nat)
    requires IsHexNumeral(s)
    ensures v < Pow16(|s|)
  {
    if s == [] then 0
    else
      var p := ParseHex(s[..|s| - 1]);
      assert p * 16 <= (Pow16(|s| - 1) - 1) * 16;
      p * 16 + DigitValue(s[|s| - 1])
  }

  /** Parsing a numeral written with enough digits gives the number back. */
  lemma {:induction false} ParseHexDigits(n: nat, w: nat)
    requires n < Pow16(w)
    ensures ParseHex(HexDigits(n, w)) == n
  {
    if w > 0 {
      var s := HexDigits(n, w);
      assert s[..|s| - 1] == HexDigits(n / 16, w - 1);
      ParseHexDigits(n / 16, w - 1);
      DigitValueOfHexDigit(n % 16);
    }
  }

  /** Writing the value of a numeral with as many digits gives the numeral
      back, leading zeros included. */
  lemma {:induction false} HexDigitsParse(s: string)
    requires IsHexNumeral(s)
    ensures HexDigits(ParseHex(s), |s|) == s
  {
    if s != [] {
      var p, d := s[..|s| - 1], DigitValue(s[|s| - 1]);
      var v := ParseHex(s);
      assert v / 16 == ParseHex(p) && v % 16 == d;
      HexDigitsParse(p);
      assert s == p + [s[|s| - 1]];
    }
  }

  // ---------------------------------------------------------------------
  // Colours
  // ---------------------------------------------------------------------

  datatype Color = Green | Red | Blue | Yellow

  /** "0x" followed by six lower-case hexadecimal digits: a JavaScript
      integer literal in the range of a 24-bit RGB value. */
  predicate IsHexLiteral(s: string) {
    |s| == 8 && s[..2] == "0x" && IsHexNumeral(s[2..])
  }

  /** The colour string app.py returns and splices into the script. */
  function Literal(c: Color): (s: string)
    ensures IsHexLiteral(s)
  {
    match c
    case Green => "0x00ff00"
    case Red => "0xff0000"
    case Blue => "0x0000ff"
    case Yellow => "0xffff00"
  }

  /** The packed 24-bit RGB value of a colour. */
  function Value(c: Color): (v: nat)
    ensures v < Pow16(6)
  {
    match c
    case Green => 0x00FF00
    case Red => 0xFF0000
    case Blue => 0x0000FF
    case Yellow => 0xFFFF00
  }

  /** The value of a six-digit numeral, digit by digit. */
  lemma ParseHexSix(s: string)
    requires |s| == 6 && IsHexNumeral(s)
    ensures ParseHex(s) == DigitValue(s[0]) * 0x100000 + DigitValue(s[1]) * 0x10000
                         + DigitValue(s[2]) * 0x1000 + DigitValue(s[3]) * 0x100
                         + DigitValue(s[4]) * 0x10 + DigitValue(s[5])
  {
    assert s[..1][..0] == [];
    assert ParseHex(s[..1]) == DigitValue(s[0]);
    assert s[..2][..1] == s[..1];
    assert ParseHex(s[..2]) == ParseHex(s[..1]) * 16 + DigitValue(s[1]);
    assert s[..3][..2] == s[..2];
    assert ParseHex(s[..3]) == ParseHex(s[..2]) * 16 + DigitValue(s[2]);
    assert s[..4][..3] == s[..3];
    assert ParseHex(s[..4]) == ParseHex(s[..3]) * 16 + DigitValue(s[3]);
    assert s[..5][..4] == s[..4];
    assert ParseHex(s[..5]) == ParseHex(s[..4]) * 16 + DigitValue(s[4]);
    assert s[..5] == s[..|s| - 1];
  }

  /** The literal spells the colour's value as six hexadecimal digits. */
  lemma LiteralSpellsValue(c: Color)
    ensures ParseHex(Literal(c)[2..]) == Value(c)
    ensures Literal(c) == "0x" + HexDigits(Value(c), 6)
  {
    var s := Literal(c);
    ParseHexSix(s[2..]);
    HexDigitsParse(s[2..]);
  }

  /** The palette entry with a given value, if any. */
  function ColorOfValue(v: nat): Option<Color> {
    if v == Value(Green) then Some(Green)
    else if v == Value(Red) then Some(Red)
    else if v == Value(Blue) then Some(Blue)
    else if v == Value(Yellow) then Some(Yellow)
    else None
  }

  /** The palette values are distinct, so a value names at most one colour. */
  lemma ColorOfValueIff(v: nat, c: Color)
    ensures ColorOfValue(v) == Some(c) <==> v == Value(c)
  {
  }

  /** Reads a colour literal back through its numeric value. */
  function ColorFromLiteral(s: string): Option<Color> {
    if IsHexLiteral(s) then ColorOfValue(ParseHex(s[2..])) else None
  }

  /** Colour literals and colours are in one-to-one correspondence. */
  lemma ColorLiteralRoundTrip(c: Color, s: string)
    ensures ColorFromLiteral(Literal(c)) == Some(c)
    ensures ColorFromLiteral(s) == Some(c) ==> s == Literal(c)
  {
    LiteralSpellsValue(c);
    ColorOfValueIff(Value(c), c);
    if ColorFromLiteral(s) == Some(c) {
      ColorOfValueIff(ParseHex(s[2..]), c);
      HexDigitsParse(s[2..]);
      assert s == s[..2] + s[2..];
    }
  }
}
