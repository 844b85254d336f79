/** The scan engine of src/code.ts: a pre-order traversal of the scene forest that
    counts every node and records one color usage per visible solid paint, and the
    aggregation of those usages into a scan result that keeps only the violations. */
module Scan {
  import opened Types
  import opened ColorCodec
  import opened ColorCategory
  import opened ColorUtils
  import opened Sequences

  /** A paint the traversal inspects: solid, and not explicitly hidden. */
  predicate IsVisibleSolid(p: Paint)
  {
    p.SolidPaint? && p.visible != Some(false)
  }

  /** One visible solid paint on one property of one node, in traversal order. */
  datatype PaintSite = PaintSite(
    nodeId: string,
    nodeName: string,
    nodeType: string,
    property: PropertyType,
    color: Rgb,
    opacity: Option<real>)

  /** The sites of one paint list, in list order (the `for ... of` over fills or strokes). */
  function ListSites(n: Node, paints: seq<Paint>, property: PropertyType): seq<PaintSite>
  {
    if |paints| == 0 then []
    else
      var p := paints[|paints| - 1];
      var init := ListSites(n, paints[..|paints| - 1], property);
      if IsVisibleSolid(p) then init + [PaintSite(n.id, n.name, n.nodeType, property, p.color, p.opacity)]
      else init
  }

  /** One site per visible solid paint: exactly the paints the list filter keeps, in order. */
  lemma {:induction false} ListSitesFollowFilter(n: Node, paints: seq<Paint>, property: PropertyType)
    ensures |ListSites(n, paints, property)| == |Filter(IsVisibleSolid, paints)|
    ensures forall i :: 0 <= i < |ListSites(n, paints, property)| ==>
      var site, p := ListSites(n, paints, property)[i], Filter(IsVisibleSolid, paints)[i];
      IsVisibleSolid(p) && site == PaintSite(n.id, n.name, n.nodeType, property, p.color, p.opacity)
  {
    if |paints| > 0 {
      var p := paints[|paints| - 1];
      var init := paints[..|paints| - 1];
      ListSitesFollowFilter(n, init, property);
      FilterAppend(IsVisibleSolid, init, [p]);
      FilterSelects(IsVisibleSolid, init);
      assert init + [p] == paints;
    }
  }

  /** Fills are inspected only when they are a list (neither absent nor mixed). */
  function FillSites(n: Node): seq<PaintSite>
  {
    if n.fills.FillList? then ListSites(n, n.fills.paints, FillProperty) else []
  }

  /** Strokes are inspected whenever the node kind has them. */
  function StrokeSites(n: Node): seq<PaintSite>
  {
    if n.strokes.Some? then ListSites(n, n.strokes.value, StrokeProperty) else []
  }

  /** The sites of a subtree: the node's fills, then its strokes, then its children in order. */
  function NodeSites(n: Node): seq<PaintSite>
    decreases n, 1
  {
    FillSites(n) + StrokeSites(n) + ForestSites(n.children)
  }

  /** The sites of a forest, tree after tree. */
  function ForestSites(ns: seq<Node>): seq<PaintSite>
    decreases ns, 0
  {
    if |ns| == 0 then [] else ForestSites(ns[..|ns| - 1]) + NodeSites(ns[|ns| - 1])
  }

  /** The number of nodes of a subtree. */
  function NodeCount(n: Node): nat
    decreases n, 1
  {
    1 + ForestCount(n.children)
  }

  /** The number of nodes of a forest. */
  function ForestCount(ns: seq<Node>): nat
    decreases ns, 0
  {
    if |ns| == 0 then 0 else ForestCount(ns[..|ns| - 1]) + NodeCount(ns[|ns| - 1])
  }

  /** Extending a forest prefix by one tree extends its sites and its count by that tree's. */
  lemma ForestStep(ns: seq<Node>, i: nat)
    requires i < |ns|
    ensures ForestSites(ns[..i + 1]) == ForestSites(ns[..i]) + NodeSites(ns[i])
    ensures ForestCount(ns[..i + 1]) == ForestCount(ns[..i]) + NodeCount(ns[i])
  {
    assert ns[..i + 1][..i] == ns[..i];
    assert ns[..i + 1][i] == ns[i];
  }

  /** The tolerance createColorUsage allows around palette colors. */
  const ScanTolerance: real := 2.0

  /** createColorUsage: the usage record of one site. It conforms when the color is in
      the palette within the scan tolerance; a non-conforming usage carries the closest
      in-family token as a suggestion, with the distance rounded to an integer. */
  function CreateColorUsage(palette: seq<ColorToken>, site: PaintSite): (usage: ColorUsage)
    ensures usage.nodeId == site.nodeId && usage.nodeName == site.nodeName && usage.nodeType == site.nodeType
    ensures usage.propertyType == site.property && usage.color == site.color && usage.opacity == site.opacity
    ensures usage.hex == FigmaRgbToHex(site.color.r, site.color.g, site.color.b)
    ensures usage.isValid <==> IsColorInPalette(palette, site.color.r, site.color.g, site.color.b, site.opacity, ScanTolerance)
    ensures usage.colorFamily == DetermineColorFamily(Round255(site.color.r), Round255(site.color.g), Round255(site.color.b))
    ensures usage.suggestion.Some? <==> !usage.isValid && |palette| > 0
  {
    var c := site.color;
    var isValid := IsColorInPalette(palette, c.r, c.g, c.b, site.opacity, ScanTolerance);
    var family := DetermineColorFamily(Round255(c.r), Round255(c.g), Round255(c.b));
    var suggestion :=
      if isValid then None
      else
        var closest := ClosestInFamily(palette, c.r, c.g, c.b, site.opacity);
        if closest.Some? then
          Some(ColorSuggestion(closest.value.color.name, closest.value.color.hex, RoundSqrt(closest.value.distanceSq)))
        else None;
    ColorUsage(site.nodeId, site.nodeName, site.nodeType, site.property, c, site.opacity,
               FigmaRgbToHex(c.r, c.g, c.b), isValid, family, suggestion)
  }

  /** A suggestion names the first closest token among the candidates the search
      scanned; because the usage failed the tolerance test, its squared distance exceeds
      the tolerance's square and its rounded distance is at least 2. */
  lemma SuggestionIsNearestAndFar(palette: seq<ColorToken>, site: PaintSite)
    requires CreateColorUsage(palette, site).suggestion.Some?
    ensures var c := site.color;
      var s := CreateColorUsage(palette, site).suggestion.value;
      var closest := ClosestInFamily(palette, c.r, c.g, c.b, site.opacity);
      closest.Some? && closest.value.color in palette &&
      IsFirstNearest(SearchedCandidates(palette, c.r, c.g, c.b), Probe(c.r, c.g, c.b), closest) &&
      s.name == closest.value.color.name && s.hex == closest.value.color.hex &&
      s.distance == RoundSqrt(closest.value.distanceSq) && s.distance >= 2 &&
      closest.value.distanceSq as real > ScanTolerance * ScanTolerance
  {
    var c := site.color;
    var u := CreateColorUsage(palette, site);
    var closest := ClosestInFamily(palette, c.r, c.g, c.b, site.opacity);
    assert !u.isValid && |palette| > 0;
    assert closest.Some?;
    assert u.suggestion == Some(ColorSuggestion(closest.value.color.name, closest.value.color.hex,
                                                RoundSqrt(closest.value.distanceSq)));
    ClosestInFamilyIsFirstMinimum(palette, c.r, c.g, c.b, site.opacity);
    assert !IsColorInPalette(palette, c.r, c.g, c.b, site.opacity, ScanTolerance);
    assert closest.value.distanceSq as real > 4.0;
    RoundSqrtAtLeastTwo(closest.value.distanceSq);
  }

  /** A paint whose color is exactly a palette token (same opacity) conforms and gets no suggestion. */
  lemma PaletteColorConforms(palette: seq<ColorToken>, site: PaintSite, k: nat)
    requires k < |palette|
    requires site.color == Rgb(palette[k].rgb.r as real / 255.0, palette[k].rgb.g as real / 255.0, palette[k].rgb.b as real / 255.0)
    requires site.opacity == palette[k].opacity
    ensures CreateColorUsage(palette, site).isValid && CreateColorUsage(palette, site).suggestion.None?
  {
    PaletteReflexive(palette, k);
    var c := site.color;
    assert FindExactColor(palette, c.r, c.g, c.b, site.opacity).Some?;
    assert IsColorInPalette(palette, c.r, c.g, c.b, site.opacity, ScanTolerance);
  }

  /** createColorUsage against a fixed palette, as a function of the site alone. */
  function UsageBuilder(palette: seq<ColorToken>): PaintSite -> ColorUsage
  {
    site => CreateColorUsage(palette, site)
  }

  /** The usages of a sequence of sites, one per site, in the same order. */
  function Usages(palette: seq<ColorToken>, sites: seq<PaintSite>): (us: seq<ColorUsage>)
    ensures |us| == |sites|
  {
    Map(UsageBuilder(palette), sites)
  }

  /** The usage at each position is the usage of the site at that position. */
  lemma UsagesAt(palette: seq<ColorToken>, sites: seq<PaintSite>, i: nat)
    requires i < |sites|
    ensures Usages(palette, sites)[i] == CreateColorUsage(palette, sites[i])
  {
    MapAt(UsageBuilder(palette), sites, i);
  }

  predicate IsConforming(u: ColorUsage) { u.isValid }

  predicate IsViolation(u: ColorUsage) { !u.isValid }

  /** The scan result of a forest: node and color totals, the split into conforming and
      violating usages, and the violations in traversal order, each as often as it occurs. */
  function ScanOf(palette: seq<ColorToken>, nodes: seq<Node>): (result: ScanResult)
    ensures result.totalNodes == ForestCount(nodes)
    ensures result.totalColors == |ForestSites(nodes)|
    ensures result.validColors + result.invalidColors == result.totalColors
    ensures |result.colorUsages| == result.invalidColors
    ensures Subsequence(result.colorUsages, Usages(palette, ForestSites(nodes)))
    ensures forall i :: 0 <= i < |result.colorUsages| ==> !result.colorUsages[i].isValid
    ensures forall u :: multiset(result.colorUsages)[u] ==
                        (if u.isValid then 0 else multiset(Usages(palette, ForestSites(nodes)))[u])
  {
    var usages := Usages(palette, ForestSites(nodes));
    FilterComplement(IsConforming, IsViolation, usages);
    FilterSelects(IsViolation, usages);
    FilterMultiset(IsViolation, usages);
    ScanResult(ForestCount(nodes), |usages|, |Filter(IsConforming, usages)|, |Filter(IsViolation, usages)|,
               Filter(IsViolation, usages))
  }

  /** An invalid usage is never dropped: every violating usage appears in the result. */
  lemma ViolationsKept(palette: seq<ColorToken>, nodes: seq<Node>, i: nat)
    requires i < |ForestSites(nodes)|
    requires !CreateColorUsage(palette, ForestSites(nodes)[i]).isValid
    ensures CreateColorUsage(palette, ForestSites(nodes)[i]) in ScanOf(palette, nodes).colorUsages
  {
    var usages := Usages(palette, ForestSites(nodes));
    UsagesAt(palette, ForestSites(nodes), i);
    FilterSelects(IsViolation, usages);
    assert IsViolation(usages[i]);
  }

  /** Against an empty palette nothing conforms: every visible solid paint is a violation. */
  lemma EmptyPaletteRejectsAll(nodes: seq<Node>)
    ensures ScanOf([], nodes).validColors == 0
    ensures ScanOf([], nodes).invalidColors == |ForestSites(nodes)|
  {
    var usages := Usages([], ForestSites(nodes));
    forall i | 0 <= i < |usages| ensures IsViolation(usages[i]) {
      UsagesAt([], ForestSites(nodes), i);
    }
    FilterAll(IsViolation, usages);
  }

  /** The counting and collecting state of one `scanNodes` call. The traversal is
      written against the per-site usage builder `usageOf`; `ScanNodes` supplies
      createColorUsage for the active palette. */
  class Scanner {
    var totalNodes: nat
    var colorUsages: seq<ColorUsage>

    constructor ()
      ensures totalNodes == 0 && colorUsages == []
    {
      totalNodes := 0;
      colorUsages := [];
    }

    /** The loop over one fill or stroke list, appending a usage per visible solid paint. */
    method VisitPaints(usageOf: PaintSite -> ColorUsage, n: Node, paints: seq<Paint>, property: PropertyType)
      modifies this
      ensures totalNodes == old(totalNodes)
      ensures colorUsages == old(colorUsages) + Map(usageOf, ListSites(n, paints, property))
    {
      for i := 0 to |paints|
        invariant totalNodes == old(totalNodes)
        invariant colorUsages == old(colorUsages) + Map(usageOf, ListSites(n, paints[..i], property))
      {
        var p := paints[i];
        assert paints[..i + 1][..i] == paints[..i];
        ghost var sites := ListSites(n, paints[..i], property);
        if IsVisibleSolid(p) {
          var site := PaintSite(n.id, n.name, n.nodeType, property, p.color, p.opacity);
          assert ListSites(n, paints[..i + 1], property) == sites + [site];
          MapAppend(usageOf, sites, [site]);
          colorUsages := colorUsages + [usageOf(site)];
        }
      }
      assert paints[..|paints|] == paints;
    }

    /** traverse: count the node, visit its fills (unless mixed) and strokes, then recurse into the children. */
    method Traverse(usageOf: PaintSite -> ColorUsage, n: Node)
      modifies this
      ensures totalNodes == old(totalNodes) + NodeCount(n)
      ensures colorUsages == old(colorUsages) + Map(usageOf, NodeSites(n))
      decreases n, 1
    {
      totalNodes := totalNodes + 1;
      ghost var start := colorUsages;
      if n.fills.FillList? {
        VisitPaints(usageOf, n, n.fills.paints, FillProperty);
      }
      ghost var afterFills := colorUsages;
      if n.strokes.Some? {
        VisitPaints(usageOf, n, n.strokes.value, StrokeProperty);
      }
      ghost var afterStrokes := colorUsages;
      TraverseForest(usageOf, n.children);
      ghost var fills, strokes, children := Map(usageOf, FillSites(n)), Map(usageOf, StrokeSites(n)),
        Map(usageOf, ForestSites(n.children));
      assert afterFills == start + fills;
      assert afterStrokes == afterFills + strokes;
      assert colorUsages == afterStrokes + children;
      MapAppend(usageOf, FillSites(n), StrokeSites(n));
      MapAppend(usageOf, FillSites(n) + StrokeSites(n), ForestSites(n.children));
      AppendAssoc(start, fills, strokes);
      AppendAssoc(start, fills + strokes, children);
    }

    /** The loop over a sequence of sibling trees. */
    method TraverseForest(usageOf: PaintSite -> ColorUsage, ns: seq<Node>)
      modifies this
      ensures totalNodes == old(totalNodes) + ForestCount(ns)
      ensures colorUsages == old(colorUsages) + Map(usageOf, ForestSites(ns))
      decreases ns, 0
    {
      for i := 0 to |ns|
        invariant totalNodes == old(totalNodes) + ForestCount(ns[..i])
        invariant colorUsages == old(colorUsages) + Map(usageOf, ForestSites(ns[..i]))
      {
        ForestStep(ns, i);
        MapAppend(usageOf, ForestSites(ns[..i]), NodeSites(ns[i]));
        ghost var before := colorUsages;
        Traverse(usageOf, ns[i]);
        AppendAssoc(old(colorUsages), Map(usageOf, ForestSites(ns[..i])), Map(usageOf, NodeSites(ns[i])));
      }
      assert ns[..|ns|] == ns;
    }
  }

  /** scanNodes: traverse every root, then aggregate. */
  method ScanNodes(palette: seq<ColorToken>, nodes: seq<Node>) returns (result: ScanResult)
    ensures result == ScanOf(palette, nodes)
  {
    var scanner := new Scanner();
    scanner.TraverseForest(UsageBuilder(palette), nodes);
    var usages := scanner.colorUsages;
    assert usages == Usages(palette, ForestSites(nodes));
    var validColors := |Filter(IsConforming, usages)|;
    var invalidColors := |Filter(IsViolation, usages)|;
    result := ScanResult(scanner.totalNodes, |usages|, validColors, invalidColors, Filter(IsViolation, usages));
  }

  const NoSelectionError: string := "선택된 요소가 없습니다. 검사할 프레임이나 요소를 선택해주세요."

  /** scanSelection: an empty selection is answered with an error and nothing is scanned;
      otherwise the selected trees are scanned against the active palette. */
  method ScanSelection(active: ActivePalette, selection: seq<Node>) returns (reply: MessageToUi)
    ensures |selection| == 0 <==> reply.ScanResultError?
    ensures reply.ScanResultError? ==> reply.error == NoSelectionError
    ensures |selection| > 0 ==> reply == ScanResultData(ScanOf(active.activeColors, selection))
  {
    if |selection| == 0 {
      return ScanResultError(NoSelectionError);
    }
    var result := ScanNodes(active.GetActiveColors(), selection);
    reply := ScanResultData(result);
  }

  /** scanCurrentPage: the page's top-level trees are scanned, even when there are none. */
  method ScanCurrentPage(active: ActivePalette, pageChildren: seq<Node>) returns (reply: MessageToUi)
    ensures reply == ScanResultData(ScanOf(active.activeColors, pageChildren))
  {
    var result := ScanNodes(active.GetActiveColors(), pageChildren);
    reply := ScanResultData(result);
  }
}
