/** The user interface state of src/ui/context/ScanContext.tsx: the reducer over the
    scan state, the handling of the engine's messages, and the requests the
    interface builds from that state (scans, single fixes, batch fixes) together with
    the combined palette list. */
module ScanContext {
  import opened Types
  import opened Sequences
  import opened ColorUtils
  import opened Scan

  /** ScanState: the loading flag, the last error, the last scan result, the chosen
      palette, and the lists of variable collections and pages. */
  datatype ScanState = ScanState(
    isLoading: bool,
    error: Option<string>,
    scanResult: Option<ScanResult>,
    selectedPalette: Option<PaletteInfo>,
    variableCollections: seq<VariableCollectionInfo>,
    pages: seq<PageInfo>)

  /** initialState: idle, no error, no result, no palette, empty lists. */
  const InitialState: ScanState := ScanState(false, None, None, None, [], [])

  datatype ScanAction =
    | StartScan
    | ScanSuccess(result: ScanResult)
    | ScanError(message: string)
    | SetPalette(palette: PaletteInfo)
    | SetVariableCollections(collections: seq<VariableCollectionInfo>)
    | SetPages(pages: seq<PageInfo>)
    | ClearError

  /** scanReducer: each action replaces the fields it names and keeps the rest. Field by
      field: the loading flag is raised by a scan start and lowered by its success or
      failure; the error is cleared by a scan start or an explicit clear and set by a
      failure; each payload field changes only under its own action. */
  function ScanReducer(state: ScanState, action: ScanAction): (next: ScanState)
    ensures next.isLoading ==
      (if action.StartScan? then true
       else if action.ScanSuccess? || action.ScanError? then false
       else state.isLoading)
    ensures next.error ==
      (if action.StartScan? || action.ClearError? then None
       else if action.ScanError? then Some(action.message)
       else state.error)
    ensures next.scanResult == (if action.ScanSuccess? then Some(action.result) else state.scanResult)
    ensures next.selectedPalette == (if action.SetPalette? then Some(action.palette) else state.selectedPalette)
    ensures next.variableCollections ==
      (if action.SetVariableCollections? then action.collections else state.variableCollections)
    ensures next.pages == (if action.SetPages? then action.pages else state.pages)
  {
    match action
    case StartScan => state.(isLoading := true, error := None)
    case ScanSuccess(result) => state.(isLoading := false, scanResult := Some(result))
    case ScanError(message) => state.(isLoading := false, error := Some(message))
    case SetPalette(palette) => state.(selectedPalette := Some(palette))
    case SetVariableCollections(collections) => state.(variableCollections := collections)
    case SetPages(pages) => state.(pages := pages)
    case ClearError => state.(error := None)
  }

  /** The fields the scan lifecycle owns. */
  predicate SameScanFields(s: ScanState, t: ScanState)
  {
    s.isLoading == t.isLoading && s.error == t.error && s.scanResult == t.scanResult
  }

  /** The fields the palette choice owns. */
  predicate SamePaletteFields(s: ScanState, t: ScanState)
  {
    s.selectedPalette == t.selectedPalette && s.variableCollections == t.variableCollections && s.pages == t.pages
  }

  /** Scan actions touch only the scan fields, palette actions only the palette fields;
      each list, palette and clear action changes its own field alone; a scan start keeps
      the last result, a success keeps the error, a failure keeps the last result; and
      dispatching the same action twice is the same as dispatching it once. */
  lemma ReducerFrames(state: ScanState, action: ScanAction)
    ensures action.StartScan? || action.ScanSuccess? || action.ScanError? || action.ClearError? ==>
      SamePaletteFields(state, ScanReducer(state, action))
    ensures action.SetPalette? || action.SetVariableCollections? || action.SetPages? ==>
      SameScanFields(state, ScanReducer(state, action))
    ensures action.SetPalette? ==> ScanReducer(state, action) == state.(selectedPalette := Some(action.palette))
    ensures action.SetVariableCollections? ==>
      ScanReducer(state, action) == state.(variableCollections := action.collections)
    ensures action.SetPages? ==> ScanReducer(state, action) == state.(pages := action.pages)
    ensures action.ClearError? ==> ScanReducer(state, action) == state.(error := None)
    ensures action.StartScan? ==> ScanReducer(state, action).scanResult == state.scanResult
    ensures action.ScanSuccess? ==> ScanReducer(state, action).error == state.error
    ensures action.ScanError? ==> ScanReducer(state, action).scanResult == state.scanResult
    ensures ScanReducer(ScanReducer(state, action), action) == ScanReducer(state, action)
  {
  }

  /** A successful scan: loading while running, then the result is stored and no
      error remains, whatever the state before. */
  lemma SuccessfulScanCycle(state: ScanState, result: ScanResult)
    ensures var after := ScanReducer(ScanReducer(state, StartScan), ScanSuccess(result));
      !after.isLoading && after.error.None? && after.scanResult == Some(result) &&
      SamePaletteFields(state, after)
  {
  }

  /** A failed scan: the error is shown and the previous result is kept. */
  lemma FailedScanCycle(state: ScanState, message: string)
    ensures var after := ScanReducer(ScanReducer(state, StartScan), ScanError(message));
      !after.isLoading && after.error == Some(message) && after.scanResult == state.scanResult &&
      SamePaletteFields(state, after)
  {
  }

  /** Actions on different fields commute: choosing a palette and any scan action. */
  lemma PaletteChoiceCommutesWithScan(state: ScanState, palette: PaletteInfo, action: ScanAction)
    requires action.StartScan? || action.ScanSuccess? || action.ScanError? || action.ClearError?
    ensures ScanReducer(ScanReducer(state, SetPalette(palette)), action) ==
            ScanReducer(ScanReducer(state, action), SetPalette(palette))
  {
  }

  /** The palette entry of a page in the palette list. */
  function PagePaletteInfo(page: PageInfo): PaletteInfo
  {
    PaletteInfo(page.id, page.name, PageSource, page.colorCount, Some(page.id))
  }

  /** The palette entry of a variable collection in the palette list. */
  function CollectionPaletteInfo(collection: VariableCollectionInfo): PaletteInfo
  {
    PaletteInfo(collection.id, collection.name, VariableSource, collection.colorCount, None)
  }

  /** handleMessage: the state after the dispatches caused by a message from the engine. */
  function HandleMessage(state: ScanState, message: MessageToUi): ScanState
  {
    match message
    case ScanResultError(error) => ScanReducer(state, ScanError(error))
    case ScanResultData(result) => ScanReducer(state, ScanSuccess(result))
    case VariableCollectionsData(collections) => ScanReducer(state, SetVariableCollections(collections))
    case VariableCollectionsError(_) => state
    case PagesData(pages) =>
      var withPages := ScanReducer(state, SetPages(pages));
      if |pages| > 0 then ScanReducer(withPages, SetPalette(PagePaletteInfo(pages[0]))) else withPages
    case PagesError(_) => state
  }

  /** Listing errors change nothing; a collection list replaces the collections; a page
      list replaces the pages and, when it is not empty, selects its first page as the
      palette; a scan result is stored and a scan error shown, both ending the loading,
      and scan replies touch only the scan fields. */
  lemma HandleMessageEffects(state: ScanState, message: MessageToUi)
    ensures message.VariableCollectionsError? || message.PagesError? ==> HandleMessage(state, message) == state
    ensures message.PagesData? ==>
      var after := HandleMessage(state, message);
      after.pages == message.pages && SameScanFields(state, after) &&
      after.variableCollections == state.variableCollections &&
      (|message.pages| > 0 ==>
        after.selectedPalette == Some(PaletteInfo(message.pages[0].id, message.pages[0].name, PageSource,
                                                  message.pages[0].colorCount, Some(message.pages[0].id)))) &&
      (|message.pages| == 0 ==> after.selectedPalette == state.selectedPalette)
    ensures message.ScanResultData? || message.ScanResultError? ==>
      SamePaletteFields(state, HandleMessage(state, message)) && !HandleMessage(state, message).isLoading
    ensures message.ScanResultData? ==>
      HandleMessage(state, message) == state.(isLoading := false, scanResult := Some(message.result))
    ensures message.ScanResultError? ==>
      HandleMessage(state, message) == state.(isLoading := false, error := Some(message.error))
    ensures message.VariableCollectionsData? ==>
      HandleMessage(state, message) == state.(variableCollections := message.collections)
  {
  }

  /** getCurrentPalettePayload: the chosen palette's id and kind, if a palette is chosen. */
  function CurrentPalettePayload(state: ScanState): Option<ScanPayload>
  {
    match state.selectedPalette
    case None => None
    case Some(p) => Some(ScanPayload(p.id, p.sourceType))
  }

  const NoPaletteError: string := "팔레트를 먼저 선택해주세요"

  /** The state after a user action and the message it sends to the engine, if any. */
  datatype Dispatch = Dispatch(state: ScanState, sent: Option<MessageToCode>)

  datatype ScanScope = SelectionScope | PageScope

  /** scanSelection and scanPage: without a chosen palette the error is shown and
      nothing is sent; otherwise the scan starts and the request names the palette. */
  function RequestScan(state: ScanState, scope: ScanScope): Dispatch
  {
    match CurrentPalettePayload(state)
    case None => Dispatch(ScanReducer(state, ScanError(NoPaletteError)), None)
    case Some(payload) =>
      Dispatch(ScanReducer(state, StartScan),
               Some(if scope == SelectionScope then ScanSelectionMessage(payload) else ScanPageMessage(payload)))
  }

  /** A scan request is sent exactly when a palette is chosen, and carries that palette. */
  lemma RequestScanGuard(state: ScanState, scope: ScanScope)
    ensures var d := RequestScan(state, scope);
      (d.sent.None? <==> state.selectedPalette.None?) &&
      (d.sent.None? ==> d.state.error == Some(NoPaletteError) && !d.state.isLoading) &&
      (d.sent.Some? ==>
        d.state.isLoading && d.state.error.None? &&
        d.sent.value == (if scope == SelectionScope
                         then ScanSelectionMessage(ScanPayload(state.selectedPalette.value.id, state.selectedPalette.value.sourceType))
                         else ScanPageMessage(ScanPayload(state.selectedPalette.value.id, state.selectedPalette.value.sourceType)))) &&
      SamePaletteFields(state, d.state) && d.state.scanResult == state.scanResult
  {
  }

  /** The fix request for a usage with a suggestion: rewrite the usage's hex to the suggestion's. */
  function FixFor(usage: ColorUsage): ColorFixRequest
    requires usage.suggestion.Some?
  {
    ColorFixRequest(usage.nodeId, usage.propertyType, usage.hex, usage.suggestion.value.hex)
  }

  /** fixColor: a usage without a suggestion sends nothing. */
  function RequestFix(usage: ColorUsage): (sent: Option<MessageToCode>)
  {
    if usage.suggestion.None? then None else Some(FixColorMessage(FixFor(usage)))
  }

  /** A single fix is sent exactly when there is a suggestion, and targets the
      usage's node, property and hex with the suggested hex. */
  lemma RequestFixSends(usage: ColorUsage)
    ensures RequestFix(usage).Some? <==> usage.suggestion.Some?
    ensures RequestFix(usage).Some? ==>
      RequestFix(usage).value == FixColorMessage(ColorFixRequest(usage.nodeId, usage.propertyType, usage.hex, usage.suggestion.value.hex))
  {
  }

  predicate HasSuggestion(usage: ColorUsage) { usage.suggestion.Some? }

  /** The fix requests of a list of usages: one per usage with a suggestion, in order. */
  function FixesFor(usages: seq<ColorUsage>): seq<ColorFixRequest>
  {
    if |usages| == 0 then []
    else
      var init := FixesFor(usages[..|usages| - 1]);
      var u := usages[|usages| - 1];
      if u.suggestion.Some? then init + [FixFor(u)] else init
  }

  /** The usages the batch is built from: those of the last result, or none. */
  function ReportedUsages(state: ScanState): seq<ColorUsage>
  {
    if state.scanResult.Some? then state.scanResult.value.colorUsages else []
  }

  /** fixAllColors: the batch of fixes for every reported usage with a suggestion,
      sent only when it is not empty. */
  function RequestFixAll(state: ScanState): Option<MessageToCode>
  {
    var fixes := FixesFor(ReportedUsages(state));
    if |fixes| > 0 then Some(FixAllMessage(fixes)) else None
  }

  /** One fix per usage with a suggestion, in order, built from that usage. */
  lemma {:induction false} FixesFollowFilter(usages: seq<ColorUsage>)
    ensures |FixesFor(usages)| == |Filter(HasSuggestion, usages)|
    ensures forall i :: 0 <= i < |FixesFor(usages)| ==>
      HasSuggestion(Filter(HasSuggestion, usages)[i]) &&
      FixesFor(usages)[i] == FixFor(Filter(HasSuggestion, usages)[i])
  {
    if |usages| > 0 {
      var init := usages[..|usages| - 1];
      var u := usages[|usages| - 1];
      FixesFollowFilter(init);
      FilterAppend(HasSuggestion, init, [u]);
      FilterSelects(HasSuggestion, init);
      assert init + [u] == usages;
    }
  }

  /** The batch is sent exactly when some reported usage has a suggestion. */
  lemma RequestFixAllGuard(state: ScanState)
    ensures RequestFixAll(state).Some? <==>
      exists i :: 0 <= i < |ReportedUsages(state)| && ReportedUsages(state)[i].suggestion.Some?
    ensures RequestFixAll(state).Some? ==>
      RequestFixAll(state).value == FixAllMessage(FixesFor(ReportedUsages(state)))
  {
    var usages := ReportedUsages(state);
    FixesFollowFilter(usages);
    FilterSelects(HasSuggestion, usages);
    if exists i :: 0 <= i < |usages| && usages[i].suggestion.Some? {
      var i :| 0 <= i < |usages| && usages[i].suggestion.Some?;
      assert usages[i] in Filter(HasSuggestion, usages);
    }
    if |FixesFor(usages)| > 0 {
      var u := Filter(HasSuggestion, usages)[0];
      assert u in usages;
    }
  }

  /** After a scan against a non-empty palette, every reported violation carries a
      suggestion, so the batch holds one fix per violation. */
  lemma FixAllCoversEveryViolation(palette: seq<ColorToken>, nodes: seq<Node>)
    requires |palette| > 0
    ensures |FixesFor(ScanOf(palette, nodes).colorUsages)| == ScanOf(palette, nodes).invalidColors
  {
    var sites := ForestSites(nodes);
    var usages := Usages(palette, sites);
    var reported := ScanOf(palette, nodes).colorUsages;
    assert reported == Filter(IsViolation, usages);
    FilterSelects(IsViolation, usages);
    forall i | 0 <= i < |reported| ensures HasSuggestion(reported[i]) {
      var j :| 0 <= j < |usages| && usages[j] == reported[i];
      UsagesAt(palette, sites, j);
    }
    FilterAll(HasSuggestion, reported);
    FixesFollowFilter(reported);
  }

  /** allPalettes: the pages' palettes first, then the variable collections'. */
  function AllPalettes(state: ScanState): seq<PaletteInfo>
  {
    Map(PagePaletteInfo, state.pages) + Map(CollectionPaletteInfo, state.variableCollections)
  }

  /** The combined list holds every page, in order and tagged with its page id, then
      every collection, in order and without a page id. */
  lemma AllPalettesLayout(state: ScanState, i: nat)
    requires i < |AllPalettes(state)|
    ensures |AllPalettes(state)| == |state.pages| + |state.variableCollections|
    ensures i < |state.pages| ==>
      var p := state.pages[i];
      AllPalettes(state)[i] == PaletteInfo(p.id, p.name, PageSource, p.colorCount, Some(p.id))
    ensures i >= |state.pages| ==>
      var c := state.variableCollections[i - |state.pages|];
      AllPalettes(state)[i] == PaletteInfo(c.id, c.name, VariableSource, c.colorCount, None)
  {
    var n := |state.pages|;
    if i < n {
      MapAt(PagePaletteInfo, state.pages, i);
    } else {
      MapAt(CollectionPaletteInfo, state.variableCollections, i - n);
    }
  }
}
