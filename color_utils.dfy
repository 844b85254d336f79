/** The palette index and match resolver of src/utils/colorUtils.ts: the active
    palette, exact lookup with its opacity rule, family-scoped candidates, the
    nearest-token search with its global fallback, and the tolerant membership test. */
module ColorUtils {
  import opened Types
  import opened ColorCodec
  import opened ColorCategory
  import opened Sequences
  import opened Strings

  function Abs(x: real): real { if x < 0.0 then -x else x }

  /** The predicate findExactColor's `find` applies to each token: equal rounded RGB,
      and either both sides declare an opacity and agree within 0.01, or the token
      declares none (whatever the probe carries). */
  predicate ExactMatches(token: ColorToken, probe: Rgb8, opacity: Option<real>)
  {
    var rgbMatch := token.rgb == probe;
    if opacity.Some? && token.opacity.Some? then
      rgbMatch && Abs(token.opacity.value - opacity.value) < 0.01
    else
      rgbMatch && token.opacity.None?
  }

  /** `i` is the position of the first token of `palette` that matches exactly. */
  ghost predicate FirstExactAt(palette: seq<ColorToken>, probe: Rgb8, opacity: Option<real>, i: int)
  {
    0 <= i < |palette| && ExactMatches(palette[i], probe, opacity) &&
    forall j :: 0 <= j < i ==> !ExactMatches(palette[j], probe, opacity)
  }

  function FindFirstExact(palette: seq<ColorToken>, probe: Rgb8, opacity: Option<real>): Option<ColorToken>
  {
    if |palette| == 0 then None
    else if ExactMatches(palette[0], probe, opacity) then Some(palette[0])
    else FindFirstExact(palette[1..], probe, opacity)
  }

  lemma {:induction false} FindFirstExactIsFirst(palette: seq<ColorToken>, probe: Rgb8, opacity: Option<real>)
    ensures FindFirstExact(palette, probe, opacity).None? <==>
      forall j :: 0 <= j < |palette| ==> !ExactMatches(palette[j], probe, opacity)
    ensures FindFirstExact(palette, probe, opacity).Some? ==>
      exists i :: FirstExactAt(palette, probe, opacity, i) && FindFirstExact(palette, probe, opacity).value == palette[i]
  {
    if |palette| > 0 && !ExactMatches(palette[0], probe, opacity) {
      var rest := palette[1..];
      FindFirstExactIsFirst(rest, probe, opacity);
      if FindFirstExact(rest, probe, opacity).Some? {
        var i :| FirstExactAt(rest, probe, opacity, i) && FindFirstExact(rest, probe, opacity).value == rest[i];
        assert FirstExactAt(palette, probe, opacity, i + 1);
      } else {
        forall j | 0 <= j < |palette| ensures !ExactMatches(palette[j], probe, opacity) {
          if j > 0 { assert palette[j] == rest[j - 1]; }
        }
      }
    } else if |palette| > 0 {
      assert FirstExactAt(palette, probe, opacity, 0);
    }
  }

  /** findExactColor: the first token, in palette order, whose RGB equals the rounded
      probe and that satisfies the opacity rule; None when there is none. */
  function FindExactColor(palette: seq<ColorToken>, r: Unit, g: Unit, b: Unit, opacity: Option<real>): (found: Option<ColorToken>)
    ensures found.None? <==> forall j :: 0 <= j < |palette| ==> !ExactMatches(palette[j], Probe(r, g, b), opacity)
    ensures found.Some? ==> exists i :: FirstExactAt(palette, Probe(r, g, b), opacity, i) && found.value == palette[i]
  {
    FindFirstExactIsFirst(palette, Probe(r, g, b), opacity);
    FindFirstExact(palette, Probe(r, g, b), opacity)
  }

  /** A probe that carries an opacity still matches an RGB-equal token declaring none. */
  lemma ProbeOpacityIgnoredAgainstPlainToken(t: ColorToken, r: Unit, g: Unit, b: Unit, o: real)
    requires t.rgb == Probe(r, g, b) && t.opacity.None?
    ensures FindExactColor([t], r, g, b, Some(o)) == Some(t)
  {
  }

  /** A probe without opacity never matches a token that declares one. */
  lemma PlainProbeMissesOpacityToken(palette: seq<ColorToken>, r: Unit, g: Unit, b: Unit)
    requires forall j :: 0 <= j < |palette| ==> palette[j].opacity.Some?
    ensures FindExactColor(palette, r, g, b, None) == None
  {
  }

  /** The category/name rule of filterColorsByFamily for one token. */
  predicate InFamily(color: ColorToken, family: ColorFamily)
  {
    match family
    case Grayscale =>
      color.category == GrayscaleCategory ||
      (color.category == LabelCategory && color.name == "#darkgray") ||
      (color.category == OpacityCategory &&
        (Contains(color.name, "Black") || Contains(color.name, "White") || Contains(color.name, "Gray")))
    case Blue =>
      color.category == SemanticBlue ||
      (color.category == LabelCategory && color.name == "#blue") ||
      (color.category == OpacityCategory && Contains(color.name, "Blue"))
    case Red =>
      color.category == SemanticRed ||
      (color.category == LabelCategory && color.name == "#red") ||
      (color.category == OpacityCategory && Contains(color.name, "Red"))
    case Yellow =>
      color.category == SemanticYellow
    case Other =>
      true
  }

  /** filterColorsByFamily: the tokens of the family, as an order-preserving sublist of the
      palette that keeps every copy of a family token. */
  function FilterColorsByFamily(palette: seq<ColorToken>, family: ColorFamily): (members: seq<ColorToken>)
    ensures Subsequence(members, palette)
    ensures forall i :: 0 <= i < |members| ==> members[i] in palette && InFamily(members[i], family)
    ensures forall i :: 0 <= i < |palette| && InFamily(palette[i], family) ==> palette[i] in members
    ensures forall t :: multiset(members)[t] == (if InFamily(t, family) then multiset(palette)[t] else 0)
  {
    FilterSelects(c => InFamily(c, family), palette);
    FilterMultiset(c => InFamily(c, family), palette);
    Filter(c => InFamily(c, family), palette)
  }

  /** The 'other' family has no dedicated bucket: it is the whole palette. */
  lemma OtherFamilyIsWholePalette(palette: seq<ColorToken>)
    ensures FilterColorsByFamily(palette, Other) == palette
  {
    FilterAll(c => InFamily(c, Other), palette);
  }

  /** The 'yellow' family is exactly the semantic-yellow tokens. */
  lemma YellowFamilyIsSemanticYellow(palette: seq<ColorToken>, t: ColorToken)
    ensures t in FilterColorsByFamily(palette, Yellow) <==> t in palette && t.category == SemanticYellow
  {
    var members := FilterColorsByFamily(palette, Yellow);
    if t in members {
      var i :| 0 <= i < |members| && members[i] == t;
    }
    if t in palette && t.category == SemanticYellow {
      var i :| 0 <= i < |palette| && palette[i] == t;
    }
  }

  /** The nearest candidate and its squared distance to the probe. */
  datatype Closest = Closest(color: ColorToken, distanceSq: nat)

  /** The result of the source's nearest-search loop over `candidates`: a later
      candidate replaces the current one only when strictly closer, so the first
      candidate attaining the minimum is kept. */
  function Nearest(candidates: seq<ColorToken>, probe: Rgb8): (c: Option<Closest>)
    ensures c.None? <==> |candidates| == 0
    ensures c.Some? ==> c.value.color in candidates && c.value.distanceSq == DistanceSq(probe, c.value.color.rgb)
  {
    if |candidates| == 0 then None
    else
      var best := Nearest(candidates[..|candidates| - 1], probe);
      var last := candidates[|candidates| - 1];
      var dist := DistanceSq(probe, last.rgb);
      if best.None? || dist < best.value.distanceSq then Some(Closest(last, dist)) else best
  }

  /** `i` is the first position of `candidates` at minimal distance to the probe. */
  ghost predicate FirstNearestAt(candidates: seq<ColorToken>, probe: Rgb8, i: int)
  {
    0 <= i < |candidates| &&
    (forall j :: 0 <= j < |candidates| ==> DistanceSq(probe, candidates[i].rgb) <= DistanceSq(probe, candidates[j].rgb)) &&
    (forall j :: 0 <= j < i ==> DistanceSq(probe, candidates[i].rgb) < DistanceSq(probe, candidates[j].rgb))
  }

  /** `c` holds the first candidate at minimal distance, together with that distance. */
  ghost predicate IsFirstNearest(candidates: seq<ColorToken>, probe: Rgb8, c: Option<Closest>)
  {
    exists i :: FirstNearestAt(candidates, probe, i) && c == Some(Closest(candidates[i], DistanceSq(probe, candidates[i].rgb)))
  }

  /** The nearest search returns the first candidate at minimal distance, with that distance. */
  lemma {:induction false} NearestIsFirstMinimum(candidates: seq<ColorToken>, probe: Rgb8)
    requires |candidates| > 0
    ensures IsFirstNearest(candidates, probe, Nearest(candidates, probe))
  {
    var n := |candidates|;
    var init := candidates[..n - 1];
    var last := candidates[n - 1];
    var dist := DistanceSq(probe, last.rgb);
    if n == 1 {
      assert FirstNearestAt(candidates, probe, 0);
    } else {
      NearestIsFirstMinimum(init, probe);
      var i :| FirstNearestAt(init, probe, i) &&
        Nearest(init, probe) == Some(Closest(init[i], DistanceSq(probe, init[i].rgb)));
      var best := DistanceSq(probe, init[i].rgb);
      assert candidates[i] == init[i];
      if dist < best {
        assert Nearest(candidates, probe) == Some(Closest(last, dist));
        FirstNearestNewLast(candidates, probe, i);
      } else {
        assert Nearest(candidates, probe) == Some(Closest(init[i], best));
        FirstNearestKept(candidates, probe, i);
      }
    }
  }

  /** A last candidate strictly closer than the prefix's first minimum is the new first minimum. */
  lemma FirstNearestNewLast(candidates: seq<ColorToken>, probe: Rgb8, i: nat)
    requires 1 < |candidates| && FirstNearestAt(candidates[..|candidates| - 1], probe, i)
    requires DistanceSq(probe, candidates[|candidates| - 1].rgb) < DistanceSq(probe, candidates[i].rgb)
    ensures FirstNearestAt(candidates, probe, |candidates| - 1)
  {
    var n := |candidates|;
    var init := candidates[..n - 1];
    forall j | 0 <= j < n - 1 ensures candidates[j] == init[j] { }
  }

  /** A last candidate no closer than the prefix's first minimum leaves that minimum first. */
  lemma FirstNearestKept(candidates: seq<ColorToken>, probe: Rgb8, i: nat)
    requires 1 < |candidates| && FirstNearestAt(candidates[..|candidates| - 1], probe, i)
    requires DistanceSq(probe, candidates[i].rgb) <= DistanceSq(probe, candidates[|candidates| - 1].rgb)
    ensures FirstNearestAt(candidates, probe, i)
  {
    var n := |candidates|;
    var init := candidates[..n - 1];
    forall j | 0 <= j < n - 1 ensures candidates[j] == init[j] { }
  }

  /** findClosestColorGlobal: the nearest search over the whole palette. The probe's
      opacity takes no part in it. */
  function ClosestGlobal(palette: seq<ColorToken>, r: Unit, g: Unit, b: Unit, opacity: Option<real>): (c: Option<Closest>)
    ensures c.None? <==> |palette| == 0
  {
    Nearest(palette, Probe(r, g, b))
  }

  /** The tokens findClosestColorInFamily searches: the probe's family, or the
      whole palette when that family has no member. */
  function SearchedCandidates(palette: seq<ColorToken>, r: Unit, g: Unit, b: Unit): seq<ColorToken>
  {
    var probe := Probe(r, g, b);
    var familyColors := FilterColorsByFamily(palette, DetermineColorFamily(probe.r, probe.g, probe.b));
    if |familyColors| == 0 then palette else familyColors
  }

  /** findClosestColorInFamily: the nearest family member, falling back to the global
      search when the family bucket is empty; None only for an empty palette. */
  function ClosestInFamily(palette: seq<ColorToken>, r: Unit, g: Unit, b: Unit, opacity: Option<real>): (c: Option<Closest>)
    ensures c.None? <==> |palette| == 0
    ensures c.Some? ==> c.value.color in palette
  {
    var probe := Probe(r, g, b);
    var family := DetermineColorFamily(probe.r, probe.g, probe.b);
    var familyColors := FilterColorsByFamily(palette, family);
    if |familyColors| == 0 then ClosestGlobal(palette, r, g, b, opacity)
    else Nearest(familyColors, probe)
  }

  /** The in-family result is at least as close as every candidate it searched, and
      is the first of those at that distance. */
  lemma ClosestInFamilyIsFirstMinimum(palette: seq<ColorToken>, r: Unit, g: Unit, b: Unit, opacity: Option<real>)
    requires |palette| > 0
    ensures IsFirstNearest(SearchedCandidates(palette, r, g, b), Probe(r, g, b), ClosestInFamily(palette, r, g, b, opacity))
  {
    NearestIsFirstMinimum(SearchedCandidates(palette, r, g, b), Probe(r, g, b));
  }

  /** When every token is in the grayscale category, the family search covers the whole
      palette whatever color is probed: the grayscale bucket takes every token, and the
      blue, red and yellow buckets are empty and fall back to the global search. */
  lemma GrayscalePaletteSearchedWhole(palette: seq<ColorToken>, r: Unit, g: Unit, b: Unit)
    requires forall i :: 0 <= i < |palette| ==> palette[i].category == GrayscaleCategory
    ensures SearchedCandidates(palette, r, g, b) == palette
  {
    var probe := Probe(r, g, b);
    var family := DetermineColorFamily(probe.r, probe.g, probe.b);
    match family
    case Grayscale => FilterAll(c => InFamily(c, Grayscale), palette);
    case Other => OtherFamilyIsWholePalette(palette);
    case _ =>
  }

  /** A palette whose probe family is empty still yields a suggestion: the global nearest. */
  lemma EmptyFamilyFallsBack(palette: seq<ColorToken>, r: Unit, g: Unit, b: Unit, opacity: Option<real>)
    requires |palette| > 0
    requires var probe := Probe(r, g, b);
      FilterColorsByFamily(palette, DetermineColorFamily(probe.r, probe.g, probe.b)) == []
    ensures ClosestInFamily(palette, r, g, b, opacity) == ClosestGlobal(palette, r, g, b, opacity)
    ensures ClosestInFamily(palette, r, g, b, opacity).Some?
  {
  }

  /** isColorInPalette: an exact match, or, for a positive tolerance, a nearest
      in-family token within `tolerance` (distance compared on squares). */
  function IsColorInPalette(palette: seq<ColorToken>, r: Unit, g: Unit, b: Unit, opacity: Option<real>, tolerance: real := 0.0): (inPalette: bool)
    ensures tolerance <= 0.0 ==> (inPalette <==> FindExactColor(palette, r, g, b, opacity).Some?)
    ensures tolerance > 0.0 ==> (inPalette <==>
      FindExactColor(palette, r, g, b, opacity).Some? ||
      (|palette| > 0 && ClosestInFamily(palette, r, g, b, opacity).value.distanceSq as real <= tolerance * tolerance))
  {
    var exactMatch := FindExactColor(palette, r, g, b, opacity);
    if exactMatch.Some? then true
    else if tolerance > 0.0 then
      var closest := ClosestInFamily(palette, r, g, b, opacity);
      closest.Some? && closest.value.distanceSq as real <= tolerance * tolerance
    else false
  }

  /** A larger tolerance never turns a conforming color into a violation. */
  lemma IsColorInPaletteMonotone(palette: seq<ColorToken>, r: Unit, g: Unit, b: Unit, opacity: Option<real>, t1: real, t2: real)
    requires t1 <= t2
    requires IsColorInPalette(palette, r, g, b, opacity, t1)
    ensures IsColorInPalette(palette, r, g, b, opacity, t2)
  {
    if FindExactColor(palette, r, g, b, opacity).None? {
      assert 0.0 < t1;
      SquareMonotone(t1, t2);
    }
  }

  lemma SquareMonotone(a: real, b: real)
    requires 0.0 < a <= b
    ensures a * a <= b * b
  {
    assert a * a <= a * b;
    assert a * b <= b * b;
  }

  /** Every palette token, probed at its own color and opacity, is in the palette at tolerance 0. */
  lemma PaletteReflexive(palette: seq<ColorToken>, k: nat)
    requires k < |palette|
    ensures var t := palette[k];
      IsColorInPalette(palette, t.rgb.r as real / 255.0, t.rgb.g as real / 255.0, t.rgb.b as real / 255.0, t.opacity)
  {
    var t := palette[k];
    Round255OfByte(t.rgb.r);
    Round255OfByte(t.rgb.g);
    Round255OfByte(t.rgb.b);
    assert ExactMatches(t, Probe(t.rgb.r as real / 255.0, t.rgb.g as real / 255.0, t.rgb.b as real / 255.0), t.opacity);
  }

  /** `minDistance`, which starts at Infinity. */
  datatype Bound = Infinity | Finite(value: nat)

  predicate Below(d: nat, bound: Bound)
  {
    bound.Infinity? || d < bound.value
  }

  /** The closest-so-far state of the search loops, read as a search result. */
  function Current(closestColor: Option<ColorToken>, minDistance: Bound): Option<Closest>
  {
    if closestColor.Some? && minDistance.Finite? then Some(Closest(closestColor.value, minDistance.value)) else None
  }

  /** The process-wide active palette (`activeColors`), empty at startup and only
      ever replaced as a whole. */
  class ActivePalette {
    var activeColors: seq<ColorToken>

    constructor ()
      ensures activeColors == []
    {
      activeColors := [];
    }

    /** getActiveColors */
    function GetActiveColors(): seq<ColorToken>
      reads this
    {
      activeColors
    }

    /** setActiveVariableColors: the palette is replaced, not merged. */
    method SetActiveVariableColors(colors: seq<ColorToken>)
      modifies this
      ensures GetActiveColors() == colors
    {
      activeColors := colors;
    }

    /** findClosestColorGlobal, the source's loop over every active token. */
    method FindClosestColorGlobal(r: Unit, g: Unit, b: Unit, opacity: Option<real>) returns (closest: Option<Closest>)
      ensures closest == ClosestGlobal(activeColors, r, g, b, opacity)
      ensures closest.None? <==> |activeColors| == 0
      ensures closest.Some? ==> IsFirstNearest(activeColors, Probe(r, g, b), closest)
    {
      var r255, g255, b255 := Round255(r), Round255(g), Round255(b);
      var probe := Rgb8(r255, g255, b255);
      var closestColor: Option<ColorToken> := None;
      var minDistance := Infinity;
      for i := 0 to |activeColors|
        invariant closestColor.Some? <==> minDistance.Finite?
        invariant Current(closestColor, minDistance) == Nearest(activeColors[..i], probe)
      {
        var color := activeColors[i];
        var dist := DistanceSq(probe, color.rgb);
        assert activeColors[..i + 1][..i] == activeColors[..i];
        if Below(dist, minDistance) {
          minDistance := Finite(dist);
          closestColor := Some(color);
        }
      }
      assert activeColors[..|activeColors|] == activeColors;
      closest := Current(closestColor, minDistance);
      if |activeColors| > 0 {
        NearestIsFirstMinimum(activeColors, probe);
      }
    }

    /** findClosestColorInFamily: classify the probe, search its family members with
      the same strict-minimum loop, or defer to the global search when the family is empty. */
    method FindClosestColorInFamily(r: Unit, g: Unit, b: Unit, opacity: Option<real>) returns (closest: Option<Closest>)
      ensures closest == ClosestInFamily(activeColors, r, g, b, opacity)
      ensures closest.None? <==> |activeColors| == 0
      ensures closest.Some? ==> IsFirstNearest(SearchedCandidates(activeColors, r, g, b), Probe(r, g, b), closest)
    {
      var r255, g255, b255 := Round255(r), Round255(g), Round255(b);
      var probe := Rgb8(r255, g255, b255);
      var family := DetermineColorFamily(r255, g255, b255);
      var familyColors := FilterColorsByFamily(activeColors, family);
      assert probe == Probe(r, g, b);
      if |familyColors| == 0 {
        assert SearchedCandidates(activeColors, r, g, b) == activeColors;
        closest := FindClosestColorGlobal(r, g, b, opacity);
        return;
      }
      assert SearchedCandidates(activeColors, r, g, b) == familyColors;
      var closestColor: Option<ColorToken> := None;
      var minDistance := Infinity;
      for i := 0 to |familyColors|
        invariant closestColor.Some? <==> minDistance.Finite?
        invariant Current(closestColor, minDistance) == Nearest(familyColors[..i], probe)
      {
        var color := familyColors[i];
        var dist := DistanceSq(probe, color.rgb);
        assert familyColors[..i + 1][..i] == familyColors[..i];
        if Below(dist, minDistance) {
          minDistance := Finite(dist);
          closestColor := Some(color);
        }
      }
      assert familyColors[..|familyColors|] == familyColors;
      closest := Current(closestColor, minDistance);
      NearestIsFirstMinimum(familyColors, probe);
    }
  }
}
