/** The records the plugin passes around: color tokens, paints, scene nodes,
    color usages, scan results, fix requests and palette descriptions. */
module Types {

  datatype Option<+T> = None | Some(value: T)

  /** An 8-bit color channel. */
  type Byte = x: int | 0 <= x <= 255

  /** A normalised color channel, as the host document stores it. */
  type Unit = x: real | 0.0 <= x <= 1.0

  /** A color in the host's normalised 0-1 representation. */
  datatype Rgb = Rgb(r: Unit, g: Unit, b: Unit)

  /** A color in 8-bit channels. */
  datatype Rgb8 = Rgb8(r: Byte, g: Byte, b: Byte)

  /** The curated category of a palette token; used only to group tokens into families. */
  datatype ColorCategory =
    | GrayscaleCategory   // 'grayscale'
    | SemanticBlue        // 'semantic-blue'
    | SemanticRed         // 'semantic-red'
    | SemanticYellow      // 'semantic-yellow'
    | LabelCategory       // 'label'
    | OpacityCategory     // 'opacity'

  /** A named reference color of the active palette. An absent opacity means the token
      matches only paints whose opacity is not given (see ColorUtils.ExactMatches). */
  datatype ColorToken = ColorToken(
    name: string,
    hex: string,
    rgb: Rgb8,
    opacity: Option<real>,
    category: ColorCategory)

  /** The perceptual family the classifier assigns to a color. */
  datatype ColorFamily = Grayscale | Blue | Red | Yellow | Other

  /** One paint of a fill or stroke list. Only solid paints carry a color; every
      other kind (gradients, images, ...) is kept as an opaque paint type. */
  datatype Paint =
    | SolidPaint(color: Rgb, opacity: Option<real>, visible: Option<bool>, blendMode: string)
    | OtherPaint(paintType: string, opacity: Option<real>, visible: Option<bool>, blendMode: string)

  /** The fills of a node: the node kind may have no fills at all, a mixed value
      (the host's `figma.mixed`), or a list of paints. */
  datatype Fills = NoFills | MixedFills | FillList(paints: seq<Paint>)

  /** A scene node: identifier, display name, kind tag, fills, strokes (None when the
      node kind has no strokes) and its children in document order. */
  datatype Node = Node(
    id: string,
    name: string,
    nodeType: string,
    fills: Fills,
    strokes: Option<seq<Paint>>,
    children: seq<Node>)

  /** A page of the document: its identifier, name and top-level trees. */
  datatype Page = Page(id: string, name: string, children: seq<Node>)

  /** The value of a color variable in one mode: an RGBA color (alpha optional) or
      anything else the mode may hold, such as an alias. */
  datatype VariableValue = RgbaValue(r: Unit, g: Unit, b: Unit, a: Option<real>) | OtherValue

  /** A local COLOR variable: its name, its collection, and its values in mode order. */
  datatype Variable = Variable(name: string, collectionId: string, modeValues: seq<VariableValue>)

  datatype PropertyType = FillProperty | StrokeProperty

  /** The closest palette token proposed for a non-conforming usage. */
  datatype ColorSuggestion = ColorSuggestion(name: string, hex: string, distance: int)

  /** One observed solid, visible paint on one node property. */
  datatype ColorUsage = ColorUsage(
    nodeId: string,
    nodeName: string,
    nodeType: string,
    propertyType: PropertyType,
    color: Rgb,
    opacity: Option<real>,
    hex: string,
    isValid: bool,
    colorFamily: ColorFamily,
    suggestion: Option<ColorSuggestion>)

  /** The aggregate of one traversal; only the violations are retained. */
  datatype ScanResult = ScanResult(
    totalNodes: nat,
    totalColors: nat,
    validColors: nat,
    invalidColors: nat,
    colorUsages: seq<ColorUsage>)

  /** One rewrite instruction: on node `nodeId`, property `propertyType`, replace the
      paints whose hex is `originalHex` by the palette token whose hex is `targetHex`. */
  datatype ColorFixRequest = ColorFixRequest(
    nodeId: string,
    propertyType: PropertyType,
    originalHex: string,
    targetHex: string)

  datatype PaletteSourceType = VariableSource | PageSource

  datatype PaletteInfo = PaletteInfo(
    id: string,
    name: string,
    sourceType: PaletteSourceType,
    colorCount: int,
    pageId: Option<string>)

  datatype PageInfo = PageInfo(id: string, name: string, colorCount: int)

  datatype VariableCollectionInfo = VariableCollectionInfo(id: string, name: string, colorCount: int)

  /** The palette a scan request names. */
  datatype ScanPayload = ScanPayload(paletteId: string, sourceType: PaletteSourceType)

  /** Messages from the user interface to the engine. */
  datatype MessageToCode =
    | ScanSelectionMessage(scan: ScanPayload)
    | ScanPageMessage(scan: ScanPayload)
    | FixColorMessage(fix: ColorFixRequest)
    | FixAllMessage(fixes: seq<ColorFixRequest>)
    | SelectNodeMessage(nodeId: string)
    | GetVariableCollectionsMessage
    | GetPagesMessage
    | GoToPageMessage(pageId: string)
    | CancelMessage

  /** Messages from the engine to the user interface: each kind has a data and an error variant. */
  datatype MessageToUi =
    | ScanResultData(result: ScanResult)
    | ScanResultError(error: string)
    | VariableCollectionsData(collections: seq<VariableCollectionInfo>)
    | VariableCollectionsError(error: string)
    | PagesData(pages: seq<PageInfo>)
    | PagesError(error: string)
}
