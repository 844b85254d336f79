/** The family classifier of src/utils/colorCategory.ts: HSV saturation and hue
    of an 8-bit color, bucketed into grayscale, red, yellow, blue or other. */
module ColorCategory {
  import opened Types

  function Max3(a: real, b: real, c: real): (m: real)
    ensures (m == a || m == b || m == c) && m >= a && m >= b && m >= c
  {
    if a >= b && a >= c then a else if b >= c then b else c
  }

  function Min3(a: real, b: real, c: real): (m: real)
    ensures (m == a || m == b || m == c) && m <= a && m <= b && m <= c
  {
    if a <= b && a <= c then a else if b <= c then b else c
  }

  /** Truncation toward zero. */
  function Trunc(x: real): (t: int)
    ensures x >= 0.0 ==> t as real <= x < t as real + 1.0
    ensures x < 0.0 ==> t as real - 1.0 < x <= t as real
  {
    if x >= 0.0 then x.Floor else -((-x).Floor)
  }

  /** JavaScript's `%` on numbers: the remainder carries the sign of the dividend. */
  function JsRemainder(x: real, m: real): real
    requires m > 0.0
  {
    x - m * Trunc(x / m) as real
  }

  /** `Math.round`: halves round up. */
  function JsRound(x: real): (n: int)
    ensures n as real - 0.5 <= x < n as real + 0.5
  {
    (x + 0.5).Floor
  }

  /** HSV saturation of an 8-bit color: delta/max over the normalised channels, 0 when max is 0. */
  function Saturation(r: Byte, g: Byte, b: Byte): real
  {
    var rNorm, gNorm, bNorm := r as real / 255.0, g as real / 255.0, b as real / 255.0;
    var max := Max3(rNorm, gNorm, bNorm);
    var min := Min3(rNorm, gNorm, bNorm);
    var delta := max - min;
    if max == 0.0 then 0.0 else delta / max
  }

  /** The hue sector value before scaling: the standard six-sector formula, with the
      red-max branch taken first, then green-max, then blue-max. */
  function HueSector(rNorm: real, gNorm: real, bNorm: real): real
  {
    var max := Max3(rNorm, gNorm, bNorm);
    var min := Min3(rNorm, gNorm, bNorm);
    var delta := max - min;
    if delta != 0.0 then
      if max == rNorm then JsRemainder((gNorm - bNorm) / delta, 6.0)
      else if max == gNorm then (bNorm - rNorm) / delta + 2.0
      else (rNorm - gNorm) / delta + 4.0
    else 0.0
  }

  /** `Math.round(hue * 60)`, then a negative result wrapped by adding 360. */
  function Degrees(sector: real): int
  {
    var hue := JsRound(sector * 60.0);
    if hue < 0 then hue + 360 else hue
  }

  /** The rounded hue in degrees of an 8-bit color. */
  function Hue(r: Byte, g: Byte, b: Byte): int
  {
    Degrees(HueSector(r as real / 255.0, g as real / 255.0, b as real / 255.0))
  }

  /** The hue buckets: [0,30) and from 330 red, [30,75) yellow, [200,260) blue. */
  function FamilyOfHue(hue: int): ColorFamily
  {
    if (hue >= 0 && hue < 30) || hue >= 330 then Red
    else if hue >= 30 && hue < 75 then Yellow
    else if hue >= 200 && hue < 260 then Blue
    else Other
  }

  /** determineColorFamily: grayscale below 10% saturation, otherwise the family of the rounded hue. */
  function DetermineColorFamily(r: Byte, g: Byte, b: Byte): (family: ColorFamily)
    ensures family == Grayscale <==> Saturation(r, g, b) < 0.1
    ensures family != Grayscale ==> 0 <= Hue(r, g, b) < 360
    ensures family != Grayscale ==> family == FamilyOfHue(Hue(r, g, b))
  {
    if Saturation(r, g, b) < 0.1 then Grayscale
    else
      HueInRange(r, g, b);
      FamilyOfHue(Hue(r, g, b))
  }

  /** A ratio of two differences bounded by the divisor lies in [-1, 1]. */
  lemma RatioBounds(x: real, d: real)
    requires d > 0.0 && -d <= x <= d
    ensures -1.0 <= x / d <= 1.0
  {
    var q := x / d;
    assert q * d == x;
  }

  /** Below 6 in magnitude, JavaScript's `% 6` is the identity. */
  lemma RemainderSmall(x: real)
    requires -1.0 <= x <= 1.0
    ensures JsRemainder(x, 6.0) == x
  {
    assert -1.0 < x / 6.0 < 1.0;
    assert Trunc(x / 6.0) == 0;
  }

  /** A chromatic color has a positive maximum channel and a positive spread. */
  lemma ChromaticChannels(r: Byte, g: Byte, b: Byte)
    requires Saturation(r, g, b) >= 0.1
    ensures var rNorm, gNorm, bNorm := r as real / 255.0, g as real / 255.0, b as real / 255.0;
      var max := Max3(rNorm, gNorm, bNorm);
      max > 0.0 && max - Min3(rNorm, gNorm, bNorm) > 0.0
  {
    var rNorm, gNorm, bNorm := r as real / 255.0, g as real / 255.0, b as real / 255.0;
    var max := Max3(rNorm, gNorm, bNorm);
    var delta := max - Min3(rNorm, gNorm, bNorm);
    assert max >= 0.0;
    assert max != 0.0;
    assert delta / max >= 0.1;
  }

  /** The rounded, wrapped hue of a chromatic color lies in [0, 360). */
  lemma HueInRange(r: Byte, g: Byte, b: Byte)
    requires Saturation(r, g, b) >= 0.1
    ensures 0 <= Hue(r, g, b) < 360
  {
    ChromaticChannels(r, g, b);
    var rNorm, gNorm, bNorm := r as real / 255.0, g as real / 255.0, b as real / 255.0;
    var max := Max3(rNorm, gNorm, bNorm);
    var delta := max - Min3(rNorm, gNorm, bNorm);
    var sector := HueSector(rNorm, gNorm, bNorm);
    if max == rNorm {
      RatioBounds(gNorm - bNorm, delta);
      RemainderSmall((gNorm - bNorm) / delta);
      assert -1.0 <= sector <= 1.0;
    } else if max == gNorm {
      RatioBounds(bNorm - rNorm, delta);
      assert 1.0 <= sector <= 3.0;
    } else {
      RatioBounds(rNorm - gNorm, delta);
      assert 3.0 <= sector <= 5.0;
    }
    assert -1.0 <= sector <= 5.0;
  }

  /** Every achromatic color, black included, is grayscale. */
  lemma EqualChannelsAreGrayscale(v: Byte)
    ensures DetermineColorFamily(v, v, v) == Grayscale
  {
    assert Saturation(v, v, v) == 0.0;
  }

  /** The four hue buckets of a wrapped hue, each as an if-and-only-if. */
  lemma HueBuckets(hue: int)
    requires 0 <= hue < 360
    ensures FamilyOfHue(hue) == Red <==> hue < 30 || hue >= 330
    ensures FamilyOfHue(hue) == Yellow <==> 30 <= hue < 75
    ensures FamilyOfHue(hue) == Blue <==> 200 <= hue < 260
    ensures FamilyOfHue(hue) == Other <==> (75 <= hue < 200) || (260 <= hue < 330)
    ensures FamilyOfHue(hue) != Grayscale
  {
  }

  /** Hues outside the red, yellow and blue buckets (green, cyan, purple) are 'other'. */
  lemma GapsAreOther(hue: int)
    requires (75 <= hue < 200) || (260 <= hue < 330)
    ensures FamilyOfHue(hue) == Other
  {
  }

  /** The bucket boundaries apply to the rounded hue: a raw hue of 29.5 degrees
      rounds to 30 and is yellow, and a raw hue just below 330 may round into red. */
  lemma RoundingDecidesBoundaries()
    ensures Degrees(29.5 / 60.0) == 30 && FamilyOfHue(Degrees(29.5 / 60.0)) == Yellow
    ensures Degrees(29.4 / 60.0) == 29 && FamilyOfHue(Degrees(29.4 / 60.0)) == Red
    ensures FamilyOfHue(Degrees(329.5 / 60.0)) == Red
  {
  }

  /** A concrete 8-bit color whose exact hue (126/255 * 60, about 29.65 degrees) is
      below 30, yet it is classified yellow. */
  lemma OrangeBelowThirtyIsYellow()
    ensures HueSector(1.0, 126.0 / 255.0, 0.0) * 60.0 < 30.0
    ensures DetermineColorFamily(255, 126, 0) == Yellow
  {
    assert Saturation(255, 126, 0) == 1.0;
    assert HueSector(1.0, 126.0 / 255.0, 0.0) == 126.0 / 255.0 by {
      RemainderSmall(126.0 / 255.0);
    }
  }

  /** Pure red, orange #FF8800 (hue 32), pure green (hue 120) and pure blue (hue 240). */
  lemma PrimaryColors()
    ensures DetermineColorFamily(255, 0, 0) == Red
    ensures Hue(255, 136, 0) == 32 && DetermineColorFamily(255, 136, 0) == Yellow
    ensures Hue(0, 255, 0) == 120 && DetermineColorFamily(0, 255, 0) == Other
    ensures Hue(0, 0, 255) == 240 && DetermineColorFamily(0, 0, 255) == Blue
  {
    assert Saturation(255, 0, 0) == 1.0;
    assert HueSector(1.0, 0.0, 0.0) == 0.0 by { RemainderSmall(0.0); }
    assert Saturation(255, 136, 0) == 1.0;
    assert HueSector(1.0, 136.0 / 255.0, 0.0) == 136.0 / 255.0 by { RemainderSmall(136.0 / 255.0); }
    assert Saturation(0, 255, 0) == 1.0;
    assert HueSector(0.0, 1.0, 0.0) == 2.0;
    assert Saturation(0, 0, 255) == 1.0;
    assert HueSector(0.0, 0.0, 1.0) == 4.0;
  }

  /** getColorFamilyName: the display name of each family. */
  function GetColorFamilyName(family: ColorFamily): string
  {
    match family
    case Grayscale => "회색 계열"
    case Blue => "파란색 계열"
    case Red => "빨간색 계열"
    case Yellow => "노란색 계열"
    case Other => "기타"
  }

  /** Distinct families have distinct display names. */
  lemma FamilyNamesDistinct(f1: ColorFamily, f2: ColorFamily)
    ensures GetColorFamilyName(f1) == GetColorFamilyName(f2) <==> f1 == f2
  {
    if f1 != f2 {
      var n1, n2 := GetColorFamilyName(f1), GetColorFamilyName(f2);
      assert n1[0] != n2[0];
    }
  }
}
