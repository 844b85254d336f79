/** Palette loading in src/code.ts: the colors of a variable collection, the distinct
    colors found on a page (counted for the page list and collected into a palette in
    first-occurrence order), and setupPalette, which installs one of them as the
    active palette. */
module PaletteLoad {
  import opened Types
  import opened Sequences
  import opened ColorCodec
  import opened ColorCategory
  import opened ColorUtils
  import opened Scan

  // ---------------------------------------------------------------------------
  // Variable collections
  // ---------------------------------------------------------------------------

  /** The variables of one collection, in the order the host lists them. */
  function CollectionVariables(variables: seq<Variable>, collectionId: string): seq<Variable>
  {
    Filter((v: Variable) => v.collectionId == collectionId, variables)
  }

  /** A variable contributes a token when it has a first mode and that value is an RGBA color. */
  predicate HasColorValue(v: Variable)
  {
    |v.modeValues| > 0 && v.modeValues[0].RgbaValue?
  }

  /** The token of a variable whose first mode value is `r, g, b, a`: named after the
      variable, its alpha kept only below 1, and always in the grayscale category. */
  function VariableToken(name: string, r: Unit, g: Unit, b: Unit, a: Option<real>): ColorToken
  {
    ColorToken(name, FigmaRgbToHex(r, g, b), Probe(r, g, b),
               if a.Some? && a.value < 1.0 then a else None, GrayscaleCategory)
  }

  /** The tokens of a list of variables: one per variable whose first mode holds a color. */
  function VariableTokens(vs: seq<Variable>): seq<ColorToken>
  {
    if |vs| == 0 then []
    else
      var init := VariableTokens(vs[..|vs| - 1]);
      var v := vs[|vs| - 1];
      if HasColorValue(v) then
        var c := v.modeValues[0];
        init + [VariableToken(v.name, c.r, c.g, c.b, c.a)]
      else init
  }

  /** The palette loadVariableColors produces for a collection. */
  function VariablePalette(variables: seq<Variable>, collectionId: string): seq<ColorToken>
  {
    VariableTokens(CollectionVariables(variables, collectionId))
  }

  /** One token per variable with a color first mode, in order, each built from that
      variable's name and first mode value. */
  lemma {:induction false} VariableTokensFollowFilter(vs: seq<Variable>)
    ensures |VariableTokens(vs)| == |Filter(HasColorValue, vs)|
    ensures forall i :: 0 <= i < |VariableTokens(vs)| ==>
      var v := Filter(HasColorValue, vs)[i];
      HasColorValue(v) &&
      VariableTokens(vs)[i] == VariableToken(v.name, v.modeValues[0].r, v.modeValues[0].g, v.modeValues[0].b, v.modeValues[0].a)
  {
    if |vs| > 0 {
      var init := vs[..|vs| - 1];
      var v := vs[|vs| - 1];
      VariableTokensFollowFilter(init);
      FilterAppend(HasColorValue, init, [v]);
      FilterSelects(HasColorValue, init);
      assert init + [v] == vs;
    }
  }

  /** Every token of a collection comes from a color variable of that collection; the
      palette has one token per such variable, in the host's order. */
  lemma VariablePaletteMembers(variables: seq<Variable>, collectionId: string, i: nat)
    requires i < |VariablePalette(variables, collectionId)|
    ensures |VariablePalette(variables, collectionId)| == |Filter(HasColorValue, CollectionVariables(variables, collectionId))|
    ensures var v := Filter(HasColorValue, CollectionVariables(variables, collectionId))[i];
      v in variables && v.collectionId == collectionId && HasColorValue(v) &&
      VariablePalette(variables, collectionId)[i] ==
        VariableToken(v.name, v.modeValues[0].r, v.modeValues[0].g, v.modeValues[0].b, v.modeValues[0].a)
  {
    var members := CollectionVariables(variables, collectionId);
    VariableTokensFollowFilter(members);
    FilterSelects(HasColorValue, members);
    FilterSelects((v: Variable) => v.collectionId == collectionId, variables);
  }

  /** A variable token's hex decodes to its 8-bit channels, and its opacity, when present, is below 1. */
  lemma VariableTokenWellFormed(name: string, r: Unit, g: Unit, b: Unit, a: Option<real>)
    ensures var t := VariableToken(name, r, g, b, a);
      HexToRgb(t.hex) == Some(t.rgb) && t.category == GrayscaleCategory &&
      (t.opacity.Some? ==> t.opacity.value < 1.0) &&
      (a.Some? && a.value < 1.0 ==> t.opacity == a)
  {
    DecodeEncode(r, g, b);
  }

  /** loadVariableColors: keep the collection's variables, then push a token for each
      whose first mode value is a color. */
  method LoadVariableColors(variables: seq<Variable>, collectionId: string) returns (colors: seq<ColorToken>)
    ensures colors == VariablePalette(variables, collectionId)
  {
    var collectionColors := CollectionVariables(variables, collectionId);
    colors := [];
    for i := 0 to |collectionColors|
      invariant colors == VariableTokens(collectionColors[..i])
    {
      var v := collectionColors[i];
      assert collectionColors[..i + 1][..i] == collectionColors[..i];
      if |v.modeValues| > 0 {
        var value := v.modeValues[0];
        if value.RgbaValue? {
          colors := colors + [VariableToken(v.name, value.r, value.g, value.b, value.a)];
        }
      }
    }
    assert collectionColors[..|collectionColors|] == collectionColors;
  }

  // ---------------------------------------------------------------------------
  // Page colors
  // ---------------------------------------------------------------------------

  /** `figma.root.children.find`: the first page with the given id. */
  function FindPage(document: seq<Page>, pageId: string): (found: Option<Page>)
    ensures found.None? <==> forall i :: 0 <= i < |document| ==> document[i].id != pageId
    ensures found.Some? ==> found.value in document && found.value.id == pageId
  {
    if |document| == 0 then None
    else if document[0].id == pageId then Some(document[0])
    else
      var rest := FindPage(document[1..], pageId);
      assert forall i :: 1 <= i < |document| ==> document[i] == document[1..][i - 1];
      rest
  }

  /** The page found is the first one carrying the id. */
  lemma {:induction false} FindPageIsFirst(document: seq<Page>, pageId: string)
    requires FindPage(document, pageId).Some?
    ensures exists i :: (0 <= i < |document| && document[i] == FindPage(document, pageId).value &&
      forall j :: 0 <= j < i ==> document[j].id != pageId)
  {
    if document[0].id != pageId {
      FindPageIsFirst(document[1..], pageId);
      var i :| 0 <= i < |document[1..]| && document[1..][i] == FindPage(document[1..], pageId).value &&
        forall j :: 0 <= j < i ==> document[1..][j].id != pageId;
      assert document[i + 1] == document[1..][i];
      forall j | 0 <= j < i + 1 ensures document[j].id != pageId {
        if j > 0 { assert document[j] == document[1..][j - 1]; }
      }
    } else {
      assert document[0] == FindPage(document, pageId).value;
    }
  }

  /** The hex code under which both page collectors record a site. */
  function SiteHex(site: PaintSite): string
  {
    FigmaRgbToHex(site.color.r, site.color.g, site.color.b)
  }

  /** The 8-bit channels loadPageColors stores for a site. */
  function SiteRgb(site: PaintSite): Rgb8
  {
    Probe(site.color.r, site.color.g, site.color.b)
  }

  /** The hex codes of the sites, in site order. */
  function SiteHexes(sites: seq<PaintSite>): seq<string>
  {
    Map(SiteHex, sites)
  }

  /** The set of hex codes of a sequence of sites (the Set countColorsInPage fills). */
  function HexesOf(sites: seq<PaintSite>): set<string>
  {
    if |sites| == 0 then {} else HexesOf(sites[..|sites| - 1]) + {SiteHex(sites[|sites| - 1])}
  }

  lemma {:induction false} HexesOfAppend(a: seq<PaintSite>, b: seq<PaintSite>)
    ensures HexesOf(a + b) == HexesOf(a) + HexesOf(b)
  {
    if |b| == 0 {
      assert a + b == a;
    } else {
      assert (a + b)[..|a + b| - 1] == a + b[..|b| - 1];
      assert (a + b)[|a + b| - 1] == b[|b| - 1];
      HexesOfAppend(a, b[..|b| - 1]);
    }
  }

  /** A hex code is in the set exactly when some site has it. */
  lemma {:induction false} HexesOfMembers(sites: seq<PaintSite>, h: string)
    ensures h in HexesOf(sites) <==> exists i :: 0 <= i < |sites| && SiteHex(sites[i]) == h
  {
    if |sites| > 0 {
      var init := sites[..|sites| - 1];
      HexesOfMembers(init, h);
      if h in HexesOf(init) {
        var i :| 0 <= i < |init| && SiteHex(init[i]) == h;
        assert sites[i] == init[i];
      }
      if exists i :: 0 <= i < |sites| && SiteHex(sites[i]) == h {
        var i :| 0 <= i < |sites| && SiteHex(sites[i]) == h;
        if i < |sites| - 1 { assert init[i] == sites[i]; }
      }
    }
  }

  lemma UnionAssoc(a: set<string>, b: set<string>, c: set<string>, d: set<string>)
    ensures a + b + c + d == a + (b + c + d)
  {
  }

  /** The counting state of countColorsInPage. */
  class ColorCounter {
    var colors: set<string>

    constructor ()
      ensures colors == {}
    {
      colors := {};
    }

    /** The loop over one fill or stroke list, adding the hex of every visible solid paint. */
    method VisitPaints(n: Node, paints: seq<Paint>, property: PropertyType)
      modifies this
      ensures colors == old(colors) + HexesOf(ListSites(n, paints, property))
    {
      for i := 0 to |paints|
        invariant colors == old(colors) + HexesOf(ListSites(n, paints[..i], property))
      {
        var p := paints[i];
        assert paints[..i + 1][..i] == paints[..i];
        ghost var sites := ListSites(n, paints[..i], property);
        if IsVisibleSolid(p) {
          var site := PaintSite(n.id, n.name, n.nodeType, property, p.color, p.opacity);
          assert ListSites(n, paints[..i + 1], property) == sites + [site];
          assert (sites + [site])[..|sites|] == sites;
          colors := colors + {FigmaRgbToHex(p.color.r, p.color.g, p.color.b)};
        }
      }
      assert paints[..|paints|] == paints;
    }

    /** traverse: fills (unless mixed), strokes, then the children. */
    method Traverse(n: Node)
      modifies this
      ensures colors == old(colors) + HexesOf(NodeSites(n))
      decreases n, 1
    {
      ghost var start := colors;
      if n.fills.FillList? {
        VisitPaints(n, n.fills.paints, FillProperty);
      }
      ghost var afterFills := colors;
      if n.strokes.Some? {
        VisitPaints(n, n.strokes.value, StrokeProperty);
      }
      ghost var afterStrokes := colors;
      TraverseForest(n.children);
      ghost var fills, strokes, children := HexesOf(FillSites(n)), HexesOf(StrokeSites(n)), HexesOf(ForestSites(n.children));
      assert afterFills == start + fills;
      assert afterStrokes == afterFills + strokes;
      assert colors == afterStrokes + children;
      HexesOfAppend(FillSites(n), StrokeSites(n));
      HexesOfAppend(FillSites(n) + StrokeSites(n), ForestSites(n.children));
      UnionAssoc(start, fills, strokes, children);
    }

    method TraverseForest(ns: seq<Node>)
      modifies this
      ensures colors == old(colors) + HexesOf(ForestSites(ns))
      decreases ns, 0
    {
      for i := 0 to |ns|
        invariant colors == old(colors) + HexesOf(ForestSites(ns[..i]))
      {
        ForestStep(ns, i);
        HexesOfAppend(ForestSites(ns[..i]), NodeSites(ns[i]));
        Traverse(ns[i]);
      }
      assert ns[..|ns|] == ns;
    }
  }

  /** countColorsInPage: the number of distinct hex codes among the page's visible solid paints. */
  method CountColorsInPage(page: Page) returns (count: nat)
    ensures count == |HexesOf(ForestSites(page.children))|
  {
    var counter := new ColorCounter();
    counter.TraverseForest(page.children);
    count := |counter.colors|;
  }

  /** The contents of loadPageColors' Map: the channels recorded per hex code, and the
      hex codes in insertion order (the order `forEach` visits them). */
  datatype ColorMap = ColorMap(entries: map<string, Rgb8>, order: seq<string>)

  const EmptyColorMap: ColorMap := ColorMap(map[], [])

  /** `if (!colorMap.has(hex)) colorMap.set(hex, ...)`: only the first site of a hex code is recorded. */
  function Record(m: ColorMap, site: PaintSite): ColorMap
  {
    var hex := SiteHex(site);
    if hex in m.entries then m else ColorMap(m.entries[hex := SiteRgb(site)], m.order + [hex])
  }

  /** Recording a sequence of sites, in order. */
  function RecordAll(m: ColorMap, sites: seq<PaintSite>): ColorMap
  {
    if |sites| == 0 then m else Record(RecordAll(m, sites[..|sites| - 1]), sites[|sites| - 1])
  }

  lemma {:induction false} RecordAllAppend(m: ColorMap, a: seq<PaintSite>, b: seq<PaintSite>)
    ensures RecordAll(m, a + b) == RecordAll(RecordAll(m, a), b)
  {
    if |b| == 0 {
      assert a + b == a;
    } else {
      assert (a + b)[..|a + b| - 1] == a + b[..|b| - 1];
      assert (a + b)[|a + b| - 1] == b[|b| - 1];
      RecordAllAppend(m, a, b[..|b| - 1]);
    }
  }

  /** A map whose order lists each key once, and whose every entry is the decoding of its key. */
  ghost predicate Consistent(m: ColorMap)
  {
    Distinct(m.order) &&
    (forall h :: h in m.entries <==> h in m.order) &&
    (forall h :: h in m.entries ==> HexToRgb(h) == Some(m.entries[h]))
  }

  /** Recording keeps the map consistent, adds exactly the sites' hex codes as keys,
      and only appends to the insertion order. */
  lemma {:induction false} RecordAllFacts(m: ColorMap, sites: seq<PaintSite>)
    requires Consistent(m)
    ensures Consistent(RecordAll(m, sites))
    ensures RecordAll(m, sites).entries.Keys == m.entries.Keys + HexesOf(sites)
    ensures m.order <= RecordAll(m, sites).order
  {
    if |sites| > 0 {
      RecordAllFacts(m, sites[..|sites| - 1]);
      RecordFacts(RecordAll(m, sites[..|sites| - 1]), sites[|sites| - 1]);
    }
  }

  /** One recording step keeps the map consistent, adds the site's code as a key, and
      only appends to the insertion order. */
  lemma RecordFacts(m: ColorMap, site: PaintSite)
    requires Consistent(m)
    ensures Consistent(Record(m, site))
    ensures Record(m, site).entries.Keys == m.entries.Keys + {SiteHex(site)}
    ensures m.order <= Record(m, site).order
  {
    var hex := SiteHex(site);
    if hex !in m.entries {
      DecodeEncode(site.color.r, site.color.g, site.color.b);
      assert hex !in m.order;
    }
  }

  /** Starting from the empty map, the insertion order is the first-occurrence
      deduplication of the sites' hex codes. */
  lemma {:induction false} RecordOrderIsFirstOccurrence(sites: seq<PaintSite>)
    ensures RecordAll(EmptyColorMap, sites).order == Dedup(SiteHexes(sites))
  {
    if |sites| > 0 {
      var init := sites[..|sites| - 1];
      RecordOrderIsFirstOccurrence(init);
      RecordAllFacts(EmptyColorMap, init);
      var hexes := SiteHexes(sites);
      assert hexes[..|hexes| - 1] == SiteHexes(init);
      assert hexes[|hexes| - 1] == SiteHex(sites[|sites| - 1]);
    }
  }

  function TokenHex(t: ColorToken): string { t.hex }

  /** The page token for a recorded hex code: named after the code, without opacity, grayscale. */
  function PageToken(hex: string, rgb: Rgb8): ColorToken
  {
    ColorToken(hex, hex, rgb, None, GrayscaleCategory)
  }

  /** `colorMap.forEach`: one token per key, in insertion order. */
  function TokensOf(m: ColorMap): seq<ColorToken>
    requires forall h :: h in m.order ==> h in m.entries
  {
    seq(|m.order|, i requires 0 <= i < |m.order| => PageToken(m.order[i], m.entries[m.order[i]]))
  }

  /** The map loadPageColors builds from a page. */
  function PageColorMap(page: Page): ColorMap
  {
    RecordAll(EmptyColorMap, ForestSites(page.children))
  }

  /** The palette loadPageColors produces: empty when no page has the id. */
  function PagePalette(document: seq<Page>, pageId: string): seq<ColorToken>
  {
    match FindPage(document, pageId)
    case None => []
    case Some(page) =>
      RecordAllFacts(EmptyColorMap, ForestSites(page.children));
      TokensOf(PageColorMap(page))
  }

  /** A page palette lists each distinct color of the page once, in first-occurrence
      order, named by its hex code, with channels that are the decoding of that code,
      no opacity and the grayscale category. */
  lemma PagePaletteFacts(document: seq<Page>, pageId: string, page: Page)
    requires FindPage(document, pageId) == Some(page)
    ensures var palette := PagePalette(document, pageId);
      |palette| == |HexesOf(ForestSites(page.children))| &&
      Map(TokenHex, palette) == Dedup(SiteHexes(ForestSites(page.children))) &&
      forall i :: 0 <= i < |palette| ==>
        palette[i].name == palette[i].hex && HexToRgb(palette[i].hex) == Some(palette[i].rgb) &&
        palette[i].opacity.None? && palette[i].category == GrayscaleCategory
  {
    var sites := ForestSites(page.children);
    var m := PageColorMap(page);
    RecordAllFacts(EmptyColorMap, sites);
    RecordOrderIsFirstOccurrence(sites);
    assert PagePalette(document, pageId) == TokensOf(m);
    TokensOfFacts(m);
  }

  /** The tokens of a consistent map: one per key, in insertion order, each named by
      its key and carrying the key's decoding. */
  lemma TokensOfFacts(m: ColorMap)
    requires Consistent(m)
    ensures |TokensOf(m)| == |m.entries.Keys|
    ensures Map(TokenHex, TokensOf(m)) == m.order
    ensures forall i :: 0 <= i < |TokensOf(m)| ==>
      TokensOf(m)[i].name == TokensOf(m)[i].hex && HexToRgb(TokensOf(m)[i].hex) == Some(TokensOf(m)[i].rgb) &&
      TokensOf(m)[i].opacity.None? && TokensOf(m)[i].category == GrayscaleCategory
  {
    var palette := TokensOf(m);
    DistinctCardinality(m.order);
    assert (set x | x in m.order) == m.entries.Keys;
    var hexes := Map(TokenHex, palette);
    forall i | 0 <= i < |palette| ensures hexes[i] == m.order[i] {
      MapAt(TokenHex, palette, i);
    }
  }

  /** loadPageColors: find the page (none: an empty palette), record the first site of
      every hex code over its trees, then turn the map into tokens. */
  method LoadPageColors(document: seq<Page>, pageId: string) returns (colors: seq<ColorToken>)
    ensures colors == PagePalette(document, pageId)
  {
    var found := FindPage(document, pageId);
    if found.None? {
      return [];
    }
    var page := found.value;
    var collector := new PaletteCollector();
    collector.TraverseForest(page.children);
    RecordAllFacts(EmptyColorMap, ForestSites(page.children));
    assert collector.State() == PageColorMap(page);
    colors := MapToTokens(collector.colorMap, collector.order);
  }

  /** The `forEach` over the collected map, pushing one token per entry in insertion order. */
  method MapToTokens(entries: map<string, Rgb8>, order: seq<string>) returns (colors: seq<ColorToken>)
    requires forall h :: h in order ==> h in entries
    ensures colors == TokensOf(ColorMap(entries, order))
  {
    colors := [];
    for i := 0 to |order|
      invariant colors == TokensOf(ColorMap(entries, order))[..i]
    {
      colors := colors + [PageToken(order[i], entries[order[i]])];
    }
  }

  /** The collecting state of loadPageColors: the recorded channels per hex code and
      the insertion order of the codes. */
  class PaletteCollector {
    var colorMap: map<string, Rgb8>
    var order: seq<string>

    function State(): ColorMap
      reads this
    {
      ColorMap(colorMap, order)
    }

    constructor ()
      ensures State() == EmptyColorMap
    {
      colorMap := map[];
      order := [];
    }

    /** The loop over one fill or stroke list, recording each visible solid paint's hex code once. */
    method VisitPaints(n: Node, paints: seq<Paint>, property: PropertyType)
      modifies this
      ensures State() == RecordAll(old(State()), ListSites(n, paints, property))
    {
      for i := 0 to |paints|
        invariant State() == RecordAll(old(State()), ListSites(n, paints[..i], property))
      {
        var p := paints[i];
        assert paints[..i + 1][..i] == paints[..i];
        ghost var sites := ListSites(n, paints[..i], property);
        if IsVisibleSolid(p) {
          var site := PaintSite(n.id, n.name, n.nodeType, property, p.color, p.opacity);
          assert ListSites(n, paints[..i + 1], property) == sites + [site];
          assert (sites + [site])[..|sites|] == sites;
          var hex := FigmaRgbToHex(p.color.r, p.color.g, p.color.b);
          if hex !in colorMap {
            colorMap := colorMap[hex := Probe(p.color.r, p.color.g, p.color.b)];
            order := order + [hex];
          }
        }
      }
      assert paints[..|paints|] == paints;
    }

    /** traverse: fills (unless mixed), strokes, then the children. */
    method Traverse(n: Node)
      modifies this
      ensures State() == RecordAll(old(State()), NodeSites(n))
      decreases n, 1
    {
      ghost var start := State();
      if n.fills.FillList? {
        VisitPaints(n, n.fills.paints, FillProperty);
      }
      if n.strokes.Some? {
        VisitPaints(n, n.strokes.value, StrokeProperty);
      }
      TraverseForest(n.children);
      RecordAllAppend(start, FillSites(n), StrokeSites(n));
      RecordAllAppend(start, FillSites(n) + StrokeSites(n), ForestSites(n.children));
    }

    method TraverseForest(ns: seq<Node>)
      modifies this
      ensures State() == RecordAll(old(State()), ForestSites(ns))
      decreases ns, 0
    {
      for i := 0 to |ns|
        invariant State() == RecordAll(old(State()), ForestSites(ns[..i]))
      {
        ForestStep(ns, i);
        RecordAllAppend(old(State()), ForestSites(ns[..i]), NodeSites(ns[i]));
        Traverse(ns[i]);
      }
      assert ns[..|ns|] == ns;
    }
  }

  /** The count a page advertises in the page list is the size of the palette loaded from it. */
  lemma PageCountIsPaletteSize(document: seq<Page>, pageId: string, page: Page)
    requires FindPage(document, pageId) == Some(page)
    ensures |PagePalette(document, pageId)| == |HexesOf(ForestSites(page.children))|
  {
    PagePaletteFacts(document, pageId, page);
  }

  /** Against a palette of grayscale-category tokens, a site whose 8-bit color is one of
      the tokens' conforms: the search covers the whole palette and finds distance 0. */
  lemma SameColorConforms(palette: seq<ColorToken>, site: PaintSite, k: nat)
    requires forall i :: 0 <= i < |palette| ==> palette[i].category == GrayscaleCategory
    requires k < |palette| && palette[k].rgb == SiteRgb(site)
    ensures CreateColorUsage(palette, site).isValid
  {
    var c := site.color;
    var probe := Probe(c.r, c.g, c.b);
    GrayscalePaletteSearchedWhole(palette, c.r, c.g, c.b);
    ClosestInFamilyIsFirstMinimum(palette, c.r, c.g, c.b, site.opacity);
    var i :| FirstNearestAt(palette, probe, i) &&
      ClosestInFamily(palette, c.r, c.g, c.b, site.opacity) == Some(Closest(palette[i], DistanceSq(probe, palette[i].rgb)));
    assert DistanceSq(probe, palette[k].rgb) == 0;
    assert ClosestInFamily(palette, c.r, c.g, c.b, site.opacity).value.distanceSq == 0;
  }

  /** Scanning a page against the palette loaded from that same page finds no
      violation: every visible solid paint of the page conforms. */
  lemma PageSelfScanIsClean(document: seq<Page>, pageId: string, page: Page)
    requires FindPage(document, pageId) == Some(page)
    ensures var result := ScanOf(PagePalette(document, pageId), page.children);
      result.invalidColors == 0 && result.validColors == result.totalColors && result.colorUsages == []
  {
    var sites := ForestSites(page.children);
    var palette := PagePalette(document, pageId);
    var m := PageColorMap(page);
    PagePaletteFacts(document, pageId, page);
    RecordAllFacts(EmptyColorMap, sites);
    TokensOfFacts(m);
    assert palette == TokensOf(m);
    var usages := Usages(palette, sites);
    forall j | 0 <= j < |usages| ensures IsConforming(usages[j]) {
      var site := sites[j];
      var h := SiteHex(site);
      HexesOfMembers(sites, h);
      assert h in m.order;
      var k :| 0 <= k < |m.order| && m.order[k] == h;
      DecodeEncode(site.color.r, site.color.g, site.color.b);
      assert palette[k] == PageToken(h, m.entries[h]);
      SameColorConforms(palette, site, k);
      UsagesAt(palette, sites, j);
    }
    FilterAll(IsConforming, usages);
    FilterComplement(IsConforming, IsViolation, usages);
  }

  // ---------------------------------------------------------------------------
  // setupPalette
  // ---------------------------------------------------------------------------

  /** The palette setupPalette installs for a payload. */
  function PaletteFor(payload: ScanPayload, document: seq<Page>, variables: seq<Variable>): seq<ColorToken>
  {
    match payload.sourceType
    case VariableSource => VariablePalette(variables, payload.paletteId)
    case PageSource => PagePalette(document, payload.paletteId)
  }

  /** Whatever the source, every installed token carries a hex code that decodes to its
      channels and the grayscale category; so the family search always covers the whole
      installed palette. */
  lemma InstalledPaletteIsGrayscale(payload: ScanPayload, document: seq<Page>, variables: seq<Variable>, r: Unit, g: Unit, b: Unit)
    ensures var palette := PaletteFor(payload, document, variables);
      (forall i :: 0 <= i < |palette| ==>
        palette[i].category == GrayscaleCategory && HexToRgb(palette[i].hex) == Some(palette[i].rgb)) &&
      SearchedCandidates(palette, r, g, b) == palette
  {
    var palette := PaletteFor(payload, document, variables);
    match payload.sourceType
    case VariableSource =>
      forall i | 0 <= i < |palette|
        ensures palette[i].category == GrayscaleCategory && HexToRgb(palette[i].hex) == Some(palette[i].rgb)
      {
        VariablePaletteMembers(variables, payload.paletteId, i);
        var v := Filter(HasColorValue, CollectionVariables(variables, payload.paletteId))[i];
        var c := v.modeValues[0];
        VariableTokenWellFormed(v.name, c.r, c.g, c.b, c.a);
      }
      GrayscalePaletteSearchedWhole(palette, r, g, b);
    case PageSource =>
      var found := FindPage(document, payload.paletteId);
      if found.Some? {
        PagePaletteFacts(document, payload.paletteId, found.value);
      }
      GrayscalePaletteSearchedWhole(palette, r, g, b);
  }

  /** setupPalette: load the palette the payload names and make it the active one. */
  method SetupPalette(active: ActivePalette, payload: ScanPayload, document: seq<Page>, variables: seq<Variable>)
    modifies active
    ensures active.activeColors == PaletteFor(payload, document, variables)
  {
    var colors;
    if payload.sourceType.VariableSource? {
      colors := LoadVariableColors(variables, payload.paletteId);
    } else {
      colors := LoadPageColors(document, payload.paletteId);
    }
    active.SetActiveVariableColors(colors);
  }
}
