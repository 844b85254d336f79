/** The color codec of src/utils/colorUtils.ts: normalised channels to `#RRGGBB`,
    strict hex decoding, and the Euclidean distance in 8-bit RGB space. */
module ColorCodec {
  import opened Types
  import opened Strings

  /** `Math.round(v * 255)` for a channel in [0,1]; JavaScript rounds halves up. */
  function Round255(v: Unit): (n: Byte)
    ensures n as real - 0.5 <= v * 255.0 < n as real + 0.5
  {
    (v * 255.0 + 0.5).Floor
  }

  /** An 8-bit value read back as a channel is recovered exactly by rounding. */
  lemma Round255OfByte(n: Byte)
    ensures Round255(n as real / 255.0) == n
  {
    assert (n as real / 255.0) * 255.0 == n as real;
  }

  /** The 8-bit probe color of a normalised color. */
  function Probe(r: Unit, g: Unit, b: Unit): Rgb8
  {
    Rgb8(Round255(r), Round255(g), Round255(b))
  }

  predicate IsHexDigit(c: char)
  {
    ('0' <= c <= '9') || ('a' <= c <= 'f') || ('A' <= c <= 'F')
  }

  predicate IsUpperHexDigit(c: char)
  {
    ('0' <= c <= '9') || ('A' <= c <= 'F')
  }

  /** The value of one hex digit, either case (parseInt with radix 16). */
  function HexValue(c: char): (v: int)
    requires IsHexDigit(c)
    ensures 0 <= v < 16
  {
    if '0' <= c <= '9' then c as int - '0' as int
    else if 'a' <= c <= 'f' then c as int - 'a' as int + 10
    else c as int - 'A' as int + 10
  }

  /** The upper-case digit of `toString(16).toUpperCase()` for a value below 16. */
  function HexDigit(d: int): (c: char)
    requires 0 <= d < 16
    ensures IsUpperHexDigit(c) && HexValue(c) == d
  {
    if d < 10 then ('0' as int + d) as char else ('A' as int + d - 10) as char
  }

  /** Every upper-case digit is the digit of its own value. */
  lemma HexDigitOfValue(c: char)
    requires IsUpperHexDigit(c)
    ensures HexDigit(HexValue(c)) == c
  {
  }

  /** `n.toString(16).padStart(2, '0')`, upper-cased: two digits, high nibble first. */
  function ToHex(n: Byte): (s: string)
    ensures |s| == 2 && IsUpperHexDigit(s[0]) && IsUpperHexDigit(s[1])
    ensures HexValue(s[0]) * 16 + HexValue(s[1]) == n
  {
    [HexDigit(n / 16), HexDigit(n % 16)]
  }

  /** figmaRgbToHex: `#` followed by the two-digit upper-case encodings of the
      three rounded channels. */
  function FigmaRgbToHex(r: Unit, g: Unit, b: Unit): (hex: string)
    ensures |hex| == 7 && hex[0] == '#'
    ensures forall i :: 1 <= i < 7 ==> IsUpperHexDigit(hex[i])
    ensures IsUpperHexDigit(hex[1]) && IsUpperHexDigit(hex[2]) && IsUpperHexDigit(hex[3])
    ensures IsUpperHexDigit(hex[4]) && IsUpperHexDigit(hex[5]) && IsUpperHexDigit(hex[6])
    ensures HexValue(hex[1]) * 16 + HexValue(hex[2]) == Round255(r)
    ensures HexValue(hex[3]) * 16 + HexValue(hex[4]) == Round255(g)
    ensures HexValue(hex[5]) * 16 + HexValue(hex[6]) == Round255(b)
  {
    "#" + ToHex(Round255(r)) + ToHex(Round255(g)) + ToHex(Round255(b))
  }

  /** The shape hexToRgb's pattern `^#?([a-f\d]{2})([a-f\d]{2})([a-f\d]{2})$` (case-insensitive)
      accepts: an optional `#` and then exactly six hex digits. */
  ghost predicate WellFormedHex(s: string)
  {
    (|s| == 7 && s[0] == '#' && forall i :: 1 <= i < 7 ==> IsHexDigit(s[i])) ||
    (|s| == 6 && forall i :: 0 <= i < 6 ==> IsHexDigit(s[i]))
  }

  predicate AllHexDigits(s: string)
  {
    forall i :: 0 <= i < |s| ==> IsHexDigit(s[i])
  }

  /** The part of a string hexToRgb's pattern reads as digits: all of it after an optional `#`. */
  function HexDigits(hex: string): string
  {
    if |hex| > 0 && hex[0] == '#' then hex[1..] else hex
  }

  /** hexToRgb: the three channels of a well-formed hex string, or None. */
  function HexToRgb(hex: string): (rgb: Option<Rgb8>)
    ensures rgb.Some? <==> WellFormedHex(hex)
  {
    var digits := HexDigits(hex);
    if |digits| == 6 && AllHexDigits(digits) then
      Some(Rgb8(HexValue(digits[0]) * 16 + HexValue(digits[1]),
                HexValue(digits[2]) * 16 + HexValue(digits[3]),
                HexValue(digits[4]) * 16 + HexValue(digits[5])))
    else None
  }

  /** Decoding an encoded color gives back the three rounded 8-bit channels. */
  lemma DecodeEncode(r: Unit, g: Unit, b: Unit)
    ensures HexToRgb(FigmaRgbToHex(r, g, b)) == Some(Probe(r, g, b))
  {
    var hex := FigmaRgbToHex(r, g, b);
    assert hex[1..][0] == hex[1] && hex[1..][1] == hex[2] && hex[1..][2] == hex[3];
    assert hex[1..][3] == hex[4] && hex[1..][4] == hex[5] && hex[1..][5] == hex[6];
  }

  /** Two upper-case digits are the encoding of the byte they denote. */
  lemma ToHexOfDigits(hi: char, lo: char)
    requires IsUpperHexDigit(hi) && IsUpperHexDigit(lo)
    ensures 0 <= HexValue(hi) * 16 + HexValue(lo) <= 255
    ensures ToHex(HexValue(hi) * 16 + HexValue(lo)) == [hi, lo]
  {
    var v := HexValue(hi) * 16 + HexValue(lo);
    assert v / 16 == HexValue(hi) && v % 16 == HexValue(lo);
    HexDigitOfValue(hi);
    HexDigitOfValue(lo);
  }

  /** A canonical `#RRGGBB` string (upper-case digits) is decoded and re-encoded to itself. */
  lemma EncodeDecode(hex: string)
    requires |hex| == 7 && hex[0] == '#'
    requires forall i :: 1 <= i < 7 ==> IsUpperHexDigit(hex[i])
    ensures HexToRgb(hex).Some?
    ensures var c := HexToRgb(hex).value;
      FigmaRgbToHex(c.r as real / 255.0, c.g as real / 255.0, c.b as real / 255.0) == hex
  {
    var digits := hex[1..];
    assert digits[0] == hex[1] && digits[1] == hex[2] && digits[2] == hex[3];
    assert digits[3] == hex[4] && digits[4] == hex[5] && digits[5] == hex[6];
    assert AllHexDigits(digits);
    var c := HexToRgb(hex).value;
    assert c.r == HexValue(hex[1]) * 16 + HexValue(hex[2]);
    assert c.g == HexValue(hex[3]) * 16 + HexValue(hex[4]);
    assert c.b == HexValue(hex[5]) * 16 + HexValue(hex[6]);
    ToHexOfDigits(hex[1], hex[2]);
    ToHexOfDigits(hex[3], hex[4]);
    ToHexOfDigits(hex[5], hex[6]);
    Round255OfByte(c.r);
    Round255OfByte(c.g);
    Round255OfByte(c.b);
    assert hex == "#" + [hex[1], hex[2]] + [hex[3], hex[4]] + [hex[5], hex[6]];
  }

  /** Upper-casing keeps a character a hex digit exactly when it was one, and keeps its value. */
  lemma UpperHexDigitValue(c: char)
    ensures IsHexDigit(UpperChar(c)) <==> IsHexDigit(c)
    ensures IsHexDigit(c) ==> IsUpperHexDigit(UpperChar(c)) && HexValue(UpperChar(c)) == HexValue(c)
  {
  }

  /** The case-insensitive flag and the optional `#` of hexToRgb's pattern: every string
      decodes as its canonical form `#` plus its upper-cased digits does, and a decodable
      string's channels encode back to that canonical form. */
  lemma DecodeCanonical(hex: string)
    ensures HexToRgb(hex) == HexToRgb("#" + ToUpper(HexDigits(hex)))
    ensures WellFormedHex(hex) ==>
      var c := HexToRgb(hex).value;
      FigmaRgbToHex(c.r as real / 255.0, c.g as real / 255.0, c.b as real / 255.0) == "#" + ToUpper(HexDigits(hex))
  {
    var d := HexDigits(hex);
    var u := ToUpper(d);
    var canonical := "#" + u;
    assert HexDigits(canonical) == u;
    forall i | 0 <= i < |d| ensures (IsHexDigit(u[i]) <==> IsHexDigit(d[i])) {
      UpperHexDigitValue(d[i]);
    }
    assert AllHexDigits(u) <==> AllHexDigits(d);
    if |d| == 6 && AllHexDigits(d) {
      forall i | 0 <= i < 6 ensures IsUpperHexDigit(u[i]) && HexValue(u[i]) == HexValue(d[i]) {
        UpperHexDigitValue(d[i]);
      }
      assert forall i :: 1 <= i < 7 ==> canonical[i] == u[i - 1];
      EncodeDecode(canonical);
    }
  }

  /** The squared Euclidean distance between two 8-bit colors. colorDistance is its
      square root; every comparison the engine makes is kept on the square. */
  function DistanceSq(c1: Rgb8, c2: Rgb8): (d: nat)
    ensures d == 0 <==> c1 == c2
  {
    var dr := c1.r - c2.r;
    var dg := c1.g - c2.g;
    var db := c1.b - c2.b;
    SquareNonNegative(dr);
    SquareNonNegative(dg);
    SquareNonNegative(db);
    dr * dr + dg * dg + db * db
  }

  lemma SquareNonNegative(x: int)
    ensures x * x >= 0
    ensures x * x == 0 <==> x == 0
  {
  }

  /** The distance does not depend on the order of its arguments. */
  lemma DistanceSymmetric(c1: Rgb8, c2: Rgb8)
    ensures DistanceSq(c1, c2) == DistanceSq(c2, c1)
  {
  }

  /** `Math.round(Math.sqrt(n))`: the integer nearest the square root of `n`. Because
      4n is even and the squares of odd numbers are odd, no tie can arise. */
  function RoundSqrt(n: nat): (k: nat)
    ensures 4 * n < (2 * k + 1) * (2 * k + 1)
    ensures k > 0 ==> (2 * k - 1) * (2 * k - 1) <= 4 * n
  {
    if n == 0 then 0
    else
      var k := RoundSqrt(n - 1);
      if 4 * n >= (2 * k + 1) * (2 * k + 1) then
        assert (2 * k + 3) * (2 * k + 3) == (2 * k + 1) * (2 * k + 1) + 8 * k + 8;
        k + 1
      else k
  }

  /** From 5 upward the rounded square root is at least 2 (the square root exceeds 2.23). */
  lemma RoundSqrtAtLeastTwo(n: nat)
    requires n >= 5
    ensures RoundSqrt(n) >= 2
  {
    var k := RoundSqrt(n);
    if k <= 1 {
      assert false;
    }
  }

  /** Rounding `sqrt(n)` is monotone: a larger squared distance never rounds lower. */
  lemma {:induction false} RoundSqrtMonotone(m: nat, n: nat)
    requires m <= n
    ensures RoundSqrt(m) <= RoundSqrt(n)
    decreases n - m
  {
    if m < n {
      RoundSqrtMonotone(m, n - 1);
    }
  }
}
