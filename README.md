# Figma color check, modelled in Dafny

This project models the core of a Figma plugin that checks a design against a color palette.

- **Palette loading.** The palette comes either from the color variables of one variable collection, or from the distinct solid colors used on one page of the document.
- **Scanning.** A scan walks the selected nodes, or the current page, in pre-order. Every visible solid fill and stroke becomes a *color usage*. A usage conforms when its color is an exact palette token, or lies within a squared RGB distance of 4 (a tolerance of 2) of one. A usage that does not conform gets a suggestion: the nearest token of the same color family, or of the whole palette when that family is empty.
- **Result.** The scan reports node and color totals, and returns only the violations.
- **Fixing.** A fix rewrites every solid paint of one property of one node whose hex code matches the violation. It gives that paint the target token's channels, and the token's opacity when the token has one. A batch fix applies a list of fixes in order and counts them.
- **User interface.** The reducer keeps the loading flag, the error, the last result, the chosen palette and the page and collection lists. It also holds the guards and builders of the scan and fix requests, and the palette search of the palette selector.

Modules, one per source unit:

| file | module | source |
|---|---|---|
| types.dfy | `Types` | the records and message unions of `src/types` and `src/code.ts` |
| sequences.dfy, strings.dfy | `Sequences`, `Strings` | filter, map and dedup over sequences; substring search, ASCII case mapping and the JavaScript whitespace class |
| color_codec.dfy | `ColorCodec` | hex encoding and decoding and the RGB distance of `src/utils/colorUtils.ts` |
| color_category.dfy | `ColorCategory` | `src/utils/colorCategory.ts` |
| color_utils.dfy | `ColorUtils` | the palette searches of `src/utils/colorUtils.ts`; the module-level active palette is the class `ActivePalette` |
| scan.dfy | `Scan` | `scanNodes`, `createColorUsage`, `scanSelection` and `scanCurrentPage` of `src/code.ts`; the traversal state is the class `Scanner` |
| fix.dfy | `Fix` | `fixColor` and `fixAllColors` of `src/code.ts`; the scene nodes addressable by id are the class `NodeStore` |
| palette_load.dfy | `PaletteLoad` | `loadVariableColors`, `countColorsInPage`, `loadPageColors` and `setupPalette` of `src/code.ts` |
| scan_context.dfy | `ScanContext` | `src/ui/context/ScanContext.tsx` |
| palette_selector.dfy | `PaletteSelector` | the pure helpers of `src/ui/components/PaletteSelector/PaletteSelector.tsx` |

## Numbers

- Figma channels are reals in [0, 1] (`Unit`). The 8-bit channels of tokens are integers in 0..255 (`Byte`).
- `Math.round` is `Floor(x + 0.5)`.
- The hue computation's `%` truncates toward zero, as JavaScript's does (`JsRemainder`), and its `Math.round` rounds halves up (`JsRound`).
- Distances stay squared (`DistanceSq`), so the tolerance test `sqrt(d) <= 2` is `d <= 4`. The rounded distance shown in a suggestion is `RoundSqrt`, the integer nearest to the square root.
- The search minimum starts at `Bound.Infinity` where the source starts at `Infinity`.

## Behaviour worth knowing

- **Hue boundaries.** The hue is rounded to a whole degree before it is bucketed. So a raw hue of 29.5° counts as yellow, not red (`ColorCategory.RoundingDecidesBoundaries`).
- **Opacity in exact matching.** An exact match ignores the probe's opacity when the token has none. A translucent paint therefore matches an opaque token of the same channels (`ColorUtils.ProbeOpacityIgnoredAgainstPlainToken`).
- **Family search.** Tokens loaded from variables and from pages are always created with the grayscale category. So the family filter never narrows a loaded palette: the "closest in family" search always covers the whole palette (`ColorUtils.GrayscalePaletteSearchedWhole`, `PaletteLoad.InstalledPaletteIsGrayscale`).

## Model

| member | source | states |
|---|---|---|
| ColorCodec.Round255 | src/utils/colorUtils.ts:26-31 | a channel scaled to 0..255 is rounded to the nearest integer, halves up, and stays a byte |
| ColorCodec.Round255OfByte | src/utils/colorUtils.ts:26-31 | scaling an 8-bit channel down to [0, 1] and back returns that channel |
| ColorCodec.HexDigit | src/utils/colorUtils.ts:27-30 | each hex digit is an upper-case hexadecimal character whose value is the nibble it encodes |
| ColorCodec.ToHex | src/utils/colorUtils.ts:27-30 | a byte becomes exactly two upper-case hex digits, high nibble first |
| ColorCodec.FigmaRgbToHex | src/utils/colorUtils.ts:26-34 | the code is `#` followed by six upper-case hex digits whose pairs hold the rounded red, green and blue channels |
| ColorCodec.HexToRgb | src/utils/colorUtils.ts:39-48 | a color is decoded exactly when the string is six hex digits of either case, optionally after a `#` |
| ColorCodec.DecodeEncode | src/utils/colorUtils.ts:26-48 | decoding the code of any Figma color gives its rounded 8-bit channels |
| ColorCodec.EncodeDecode | src/utils/colorUtils.ts:26-48 | a `#` code with six upper-case digits decodes, and its channels encode back to the same digits |
| ColorCodec.DecodeCanonical | src/utils/colorUtils.ts:39-48 | any string decodes as `#` plus its upper-cased digits does, so lower-case input and input without `#` decode to the same channels, which encode back to that canonical code |
| ColorCodec.DistanceSq | src/utils/colorUtils.ts:54-59 | the squared distance is zero exactly for equal colors |
| ColorCodec.DistanceSymmetric | src/utils/colorUtils.ts:54-59 | the distance does not depend on argument order |
| ColorCodec.RoundSqrt | src/code.ts:523 | the result k is the square root rounded half up: n < (k + 1/2)², and (k - 1/2)² <= n when k > 0 |
| ColorCodec.RoundSqrtAtLeastTwo | src/code.ts:518-524 | a squared distance above the tolerance's square (4) rounds to a displayed distance of at least 2 |
| ColorCodec.RoundSqrtMonotone | src/code.ts:523 | a larger squared distance never displays as a smaller rounded distance |
| ColorCategory.DetermineColorFamily | src/utils/colorCategory.ts:14-66 | the family is grayscale exactly when the saturation is below 0.1; otherwise it is the hue bucket of the rounded hue, which lies in 0..359 |
| ColorCategory.HueBuckets | src/utils/colorCategory.ts:57-65 | a hue in 0..359 is red exactly when below 30 or from 330, yellow exactly in 30..74, blue exactly in 200..259, other exactly in 75..199 and 260..329, and never grayscale |
| ColorCategory.HueInRange | src/utils/colorCategory.ts:34-45 | the rounded hue of a color with saturation at least 0.1 lies in 0..359 |
| ColorCategory.EqualChannelsAreGrayscale | src/utils/colorCategory.ts:20-31 | a color with three equal channels is grayscale |
| ColorCategory.GapsAreOther | src/utils/colorCategory.ts:57-65 | hues 75..199 and 260..329, between the yellow, blue and red ranges, are other |
| ColorCategory.RoundingDecidesBoundaries | src/utils/colorCategory.ts:44-60 | a raw hue of 29.5 degrees rounds to 30 and is yellow, 29.4 rounds to 29 and is red, and 329.5 is red |
| ColorCategory.OrangeBelowThirtyIsYellow | src/utils/colorCategory.ts:36-60 | the orange (255, 126, 0) has a raw hue below 30 degrees and is still yellow |
| ColorCategory.PrimaryColors | src/utils/colorCategory.ts:14-66 | pure red is red, the orange (255, 136, 0) has hue 32 and is yellow, pure green has hue 120 and is other, pure blue has hue 240 and is blue |
| ColorCategory.FamilyNamesDistinct | src/utils/colorCategory.ts:71-80 | different families have different display names |
| ColorCategory.GetColorFamilyName | src/utils/colorCategory.ts:71-80 | the display name of each family; FamilyNamesDistinct states that no two families share one |
| ColorUtils.FindFirstExactIsFirst | src/utils/colorUtils.ts:79-91 | the exact search returns the first token that matches |
| ColorUtils.FindExactColor | src/utils/colorUtils.ts:69-92 | no result exactly when no token matches the rounded channels under the opacity rule; a result is the first matching token |
| ColorUtils.ProbeOpacityIgnoredAgainstPlainToken | src/utils/colorUtils.ts:82-89 | a probe with any opacity matches a token of the same channels that has no opacity |
| ColorUtils.PlainProbeMissesOpacityToken | src/utils/colorUtils.ts:82-89 | a probe without opacity never matches a token that has one |
| ColorUtils.FilterColorsByFamily | src/utils/colorUtils.ts:142-181 | the family subset keeps palette order and holds exactly the tokens of that family, each as many times as the palette does |
| ColorUtils.OtherFamilyIsWholePalette | src/utils/colorUtils.ts:176-179 | the other family keeps every token |
| ColorUtils.YellowFamilyIsSemanticYellow | src/utils/colorUtils.ts:172-174 | the yellow family is exactly the tokens of the semantic yellow category |
| ColorUtils.Nearest | src/utils/colorUtils.ts:124-134 | no result exactly for no candidates; a result is a candidate, reported with its own squared distance to the probe |
| ColorUtils.NearestIsFirstMinimum | src/utils/colorUtils.ts:124-134 | the nearest token returned is the first among those at minimal distance |
| ColorUtils.ClosestGlobal | src/utils/colorUtils.ts:186-209 | the global search fails exactly for an empty palette |
| ColorUtils.ClosestInFamily | src/utils/colorUtils.ts:102-137 | the family search fails exactly for an empty palette, and otherwise returns a palette token |
| ColorUtils.ClosestInFamilyIsFirstMinimum | src/utils/colorUtils.ts:115-136 | the family search returns the first nearest token among the probe's family, or among the whole palette when that family is empty |
| ColorUtils.GrayscalePaletteSearchedWhole | src/utils/colorUtils.ts:118-121 | for a palette of grayscale-category tokens, the family search covers the whole palette whatever the probe |
| ColorUtils.EmptyFamilyFallsBack | src/utils/colorUtils.ts:118-121 | when no token is in the probe's family, the family search equals the global search |
| ColorUtils.IsColorInPalette | src/utils/colorUtils.ts:216-232 | with no tolerance, a color conforms exactly when it matches exactly; with a tolerance, also when the family search's nearest token is within it |
| ColorUtils.IsColorInPaletteMonotone | src/utils/colorUtils.ts:216-232 | a larger tolerance accepts every color a smaller one accepts |
| ColorUtils.PaletteReflexive | src/utils/colorUtils.ts:216-222 | every token's own color, with its own opacity, is in the palette at no tolerance |
| ColorUtils.ActivePalette.constructor | src/utils/colorUtils.ts:7 | the active palette starts empty |
| ColorUtils.ActivePalette.SetActiveVariableColors | src/utils/colorUtils.ts:19-21 | the given tokens become the active palette |
| ColorUtils.ActivePalette.FindClosestColorGlobal | src/utils/colorUtils.ts:186-209 | the loop over the active palette finds the first nearest token, none only for an empty palette |
| ColorUtils.ActivePalette.FindClosestColorInFamily | src/utils/colorUtils.ts:102-137 | the loop finds the first nearest token among the family candidates, or the whole palette when the family is empty |
| Scan.ListSitesFollowFilter | src/code.ts:448-466 | one site per visible solid paint of a list, in list order, each carrying that paint |
| Scan.CreateColorUsage | src/code.ts:498-539 | the usage copies the site, encodes its hex, is valid exactly when the color is in the palette within tolerance 2, and has a suggestion exactly when it is invalid and the palette is not empty |
| Scan.SuggestionIsNearestAndFar | src/code.ts:516-526 | a suggestion names the first nearest searched token and its rounded distance; that token's squared distance exceeds the tolerance's square, and the rounded distance is at least 2 |
| Scan.PaletteColorConforms | src/code.ts:504-526 | a paint carrying a token's exact color and opacity conforms and gets no suggestion |
| Scan.ScanOf | src/code.ts:483-491 | totals count every node and visible solid paint; valid plus invalid is the total; the returned usages are a subsequence of all usages, in traversal order, holding every violating usage as often as it occurs and no conforming one, so the valid count is the number of conforming usages |
| Scan.ViolationsKept | src/code.ts:491 | every violating usage is among the returned usages |
| Scan.EmptyPaletteRejectsAll | src/code.ts:483-491 | against an empty palette no color is valid and every color is a violation |
| Scan.Scanner.constructor | src/code.ts:440-441 | a scan starts with no nodes counted and no usages |
| Scan.Scanner.VisitPaints | src/code.ts:448-466 | the usages grow by one usage per visible solid paint, in order; the node count is unchanged |
| Scan.Scanner.Traverse | src/code.ts:444-475 | the node count grows by the subtree's size and the usages by the subtree's usages in pre-order |
| Scan.Scanner.TraverseForest | src/code.ts:478-480 | the same for a sequence of trees, tree after tree |
| Scan.ScanNodes | src/code.ts:439-493 | the result of the imperative traversal and aggregation is the scan result of the forest |
| Scan.ScanSelection | src/code.ts:412-425 | an empty selection, and only an empty one, is answered with the no-selection error; any other selection is answered with its scan result |
| Scan.ScanCurrentPage | src/code.ts:430-434 | the page's top-level trees are scanned and the result is sent |
| Fix.RewritePaints | src/code.ts:575-599 | the rewritten paint list has the same length |
| Fix.RewritePaint | src/code.ts:577-597 | the per-paint rewrite; RewritePaintsEffect states its effect: a solid paint of the matching hex gets the target's channels and, if defined, its opacity, and every other paint is kept |
| Fix.RewritePaintsEffect | src/code.ts:575-599 | a solid paint whose hex matches case-insensitively gets the target's channels and, if present, the target's opacity; every other paint is unchanged |
| Fix.RewrittenPaintHasTargetChannels | src/code.ts:584-590 | a rewritten paint encodes to the target token's 8-bit color |
| Fix.RewriteIdempotent | src/code.ts:575-599 | applying the same rewrite twice equals applying it once |
| Fix.HiddenPaintIsRewritten | src/code.ts:579-581 | a hidden solid paint of the matching color is rewritten too, since the rewrite does not test visibility |
| Fix.FindTokenByHex | src/code.ts:549-571 | no token exactly when no palette hex equals the target case-insensitively; a found token has that hex |
| Fix.FindTokenByHexIsFirst | src/code.ts:565-567 | the lookup returns the first token with that hex |
| Fix.WriteProperty | src/code.ts:575-626 | the copy fails exactly for a fill fix on mixed fills; nothing is written exactly when the node kind lacks the property; a written node keeps its id, name, type, children and the other property's list |
| Fix.ApplyFix | src/code.ts:548-636 | a missing node, a document or page node, or an unknown target is reported as such; the write fails exactly for a fill fix on mixed fills; a success names the target token; only a write marks the fix as applied; the key set is kept and no other node changes |
| Fix.FillFixRewritesList | src/code.ts:575-599 | a fill fix on a node with a fill list writes the rewritten list |
| Fix.StrokeFixRewritesList | src/code.ts:602-626 | a stroke fix on a node with strokes writes the rewritten stroke list |
| Fix.UnmatchedFixStillWrites | src/code.ts:602-626 | a stroke fix whose hex matches no stroke still counts as written and leaves the nodes as they were |
| Fix.ApplyFixIsLocal | src/code.ts:548-636 | a fix changes at most the node it names, to that node's fixed form |
| Fix.DisjointFixesCommute | src/code.ts:644-715 | fixes on different nodes give the same nodes in either order |
| Fix.DifferentPropertiesCommute | src/code.ts:659-711 | a fill fix and a stroke fix on the same node give the same nodes in either order |
| Fix.ApplyAll | src/code.ts:641-715 | the batch counts at most one fix per request and keeps the key set |
| Fix.MissingNodeIsSkipped | src/code.ts:645-646 | a request for a node that does not exist has no effect on the batch |
| Fix.NodeStore.constructor | src/code.ts:645 | the store holds the given nodes |
| Fix.NodeStore.WriteNode | src/code.ts:658-714 | the node is replaced exactly when the property write succeeds, and a copy failure is reported |
| Fix.NodeStore.FixColor | src/code.ts:548-636 | the store changes as the single fix prescribes and the outcome is the fix's outcome |
| Fix.NodeStore.FixAllColors | src/code.ts:641-715 | the loop leaves the store as the batch prescribes and returns its count of fixed colors |
| PaletteLoad.VariableTokensFollowFilter | src/code.ts:192-222 | one token per variable whose first mode holds a color, in order, built from that value |
| PaletteLoad.VariablePaletteMembers | src/code.ts:184-226 | every token of a collection's palette comes from a color variable of that collection, in order |
| PaletteLoad.VariableToken | src/code.ts:209-221 | the token of one color variable; VariableTokenWellFormed states that its hex decodes to its channels and that an opacity is kept only below 1 |
| PaletteLoad.VariableTokenWellFormed | src/code.ts:209-221 | a variable token's hex decodes to its channels, and an opacity is kept only when it is below 1 |
| PaletteLoad.LoadVariableColors | src/code.ts:184-226 | the loop produces the collection's palette |
| PaletteLoad.FindPage | src/code.ts:325-326 | no page exactly when no page carries the id; a found page carries it |
| PaletteLoad.FindPageIsFirst | src/code.ts:325-326 | the page found is the first with that id |
| PaletteLoad.HexesOfAppend | src/code.ts:270-306 | the set of hex codes of joined site lists is the union of their sets |
| PaletteLoad.HexesOfMembers | src/code.ts:270-306 | a code is in the set exactly when some site has it |
| PaletteLoad.ColorCounter.constructor | src/code.ts:271 | the set of codes starts empty |
| PaletteLoad.ColorCounter.VisitPaints | src/code.ts:274-292 | the set grows by the codes of the list's visible solid paints |
| PaletteLoad.ColorCounter.Traverse | src/code.ts:273-300 | the set grows by the codes of the subtree's sites |
| PaletteLoad.ColorCounter.TraverseForest | src/code.ts:302-304 | the set grows by the codes of the forest's sites |
| PaletteLoad.CountColorsInPage | src/code.ts:270-306 | the count is the number of distinct hex codes among the page's visible solid paints |
| PaletteLoad.RecordAllAppend | src/code.ts:333-373 | recording joined site lists is recording one after the other |
| PaletteLoad.RecordAllFacts | src/code.ts:333-373 | recording keeps every code listed once and decoding to its channels, adds exactly the sites' codes, and only extends the order |
| PaletteLoad.RecordOrderIsFirstOccurrence | src/code.ts:333-373 | the insertion order is the first-occurrence order of the sites' codes |
| PaletteLoad.PagePaletteFacts | src/code.ts:324-390 | a page palette has one token per distinct code of the page, in first-occurrence order, named by its code, decoding to its channels, without opacity |
| PaletteLoad.PagePalette | src/code.ts:324-390 | the palette of a page id, empty when no page has it; PagePaletteFacts states its contents |
| PaletteLoad.TokensOfFacts | src/code.ts:379-389 | one token per recorded code, in insertion order, built from the recorded channels |
| PaletteLoad.LoadPageColors | src/code.ts:324-390 | the method produces the page palette, and nothing for an unknown page |
| PaletteLoad.MapToTokens | src/code.ts:379-389 | the loop over the map produces its tokens in insertion order |
| PaletteLoad.PaletteCollector.constructor | src/code.ts:331 | the map starts empty |
| PaletteLoad.PaletteCollector.VisitPaints | src/code.ts:334-366 | the map records the first occurrence of each code of the list |
| PaletteLoad.PaletteCollector.Traverse | src/code.ts:333-373 | the map records the subtree's sites in pre-order |
| PaletteLoad.PaletteCollector.TraverseForest | src/code.ts:375-377 | the map records the forest's sites tree after tree |
| PaletteLoad.PageCountIsPaletteSize | src/code.ts:243-251 | the color count a page advertises equals the size of the palette loaded from it |
| PaletteLoad.SameColorConforms | src/code.ts:498-539 | against a grayscale-category palette, a paint whose 8-bit color is a token's conforms |
| PaletteLoad.PageSelfScanIsClean | src/code.ts:324-493 | scanning a page against its own palette finds no violations |
| PaletteLoad.InstalledPaletteIsGrayscale | src/code.ts:395-403 | every installed token decodes to its channels and is grayscale-category, so the family search covers the whole palette |
| PaletteLoad.SetupPalette | src/code.ts:395-403 | the active palette becomes the palette the payload names |
| ScanContext.InitialState | src/ui/context/ScanContext.tsx:34-41 | idle, no error, no result, no palette, empty lists |
| ScanContext.ScanReducer | src/ui/context/ScanContext.tsx:56-75 | field by field: loading is raised by a scan start and lowered by its success or failure; the error is cleared by a start or a clear and set by a failure; the result, palette, collections and pages change only under their own action, to its payload |
| ScanContext.ReducerFrames | src/ui/context/ScanContext.tsx:56-75 | scan actions touch only the scan fields and palette and list actions only theirs; the palette, list and clear actions each change their own field alone; a start and a failure keep the last result and a success keeps the error; each action is idempotent |
| ScanContext.SuccessfulScanCycle | src/ui/context/ScanContext.tsx:58-61 | start then success stores the result, clears loading and the error, and keeps the palette |
| ScanContext.FailedScanCycle | src/ui/context/ScanContext.tsx:58-63 | start then failure shows the error, clears loading, and keeps the previous result |
| ScanContext.PaletteChoiceCommutesWithScan | src/ui/context/ScanContext.tsx:56-75 | choosing a palette and any scan action give the same state in either order |
| ScanContext.HandleMessage | src/ui/context/ScanContext.tsx:109-147 | the state after the dispatches a message causes; HandleMessageEffects states them |
| ScanContext.HandleMessageEffects | src/ui/context/ScanContext.tsx:109-147 | listing errors change nothing; a collection list replaces only the collections; a page list replaces the pages and, when it is not empty, selects its first page; a scan result is stored and a scan error is shown, each ending the loading and changing nothing else |
| ScanContext.RequestScan | src/ui/context/ScanContext.tsx:151-188 | the dispatch and message of a scan request; RequestScanGuard states when it is sent and what it carries |
| ScanContext.RequestScanGuard | src/ui/context/ScanContext.tsx:151-188 | a scan request is sent exactly when a palette is chosen and carries its id and kind; otherwise only the error is set |
| ScanContext.RequestFix | src/ui/context/ScanContext.tsx:190-203 | the single-fix message of a usage; RequestFixSends states when it is sent and its target |
| ScanContext.RequestFixSends | src/ui/context/ScanContext.tsx:190-203 | a single fix is sent exactly when the usage has a suggestion, targeting the suggested hex |
| ScanContext.FixesFor | src/ui/context/ScanContext.tsx:207-216 | the fix requests of a usage list; FixesFollowFilter states one per usage with a suggestion, in order |
| ScanContext.FixesFollowFilter | src/ui/context/ScanContext.tsx:205-221 | one fix per usage with a suggestion, in order, built from that usage |
| ScanContext.RequestFixAll | src/ui/context/ScanContext.tsx:205-221 | the batch message; RequestFixAllGuard states when it is sent and what it holds |
| ScanContext.RequestFixAllGuard | src/ui/context/ScanContext.tsx:205-221 | the batch is sent exactly when some reported usage has a suggestion, and holds their fixes |
| ScanContext.FixAllCoversEveryViolation | src/ui/context/ScanContext.tsx:205-221 | after a scan against a non-empty palette, the batch holds one fix per reported violation |
| ScanContext.AllPalettes | src/ui/context/ScanContext.tsx:254-272 | pages then collections as palette entries; AllPalettesLayout states the layout |
| ScanContext.AllPalettesLayout | src/ui/context/ScanContext.tsx:254-272 | the combined list holds every page, with its page id, then every collection, in order |
| Strings.ContainsIffOccurs | src/ui/components/PaletteSelector/PaletteSelector.tsx:20 | substring containment holds exactly when the query occurs at some offset |
| Strings.ToUpper | src/code.ts:565 | each character is upper-cased in place and the length is kept |
| Strings.ToLower | src/ui/components/PaletteSelector/PaletteSelector.tsx:10 | each character is lower-cased in place and the length is kept |
| Strings.RemoveWhitespace | src/ui/components/PaletteSelector/PaletteSelector.tsx:10 | the result is a subsequence of the input holding no whitespace and every non-whitespace character as often as the input does |
| Strings.RemoveWhitespaceAppend | src/ui/components/PaletteSelector/PaletteSelector.tsx:10 | whitespace removal distributes over concatenation |
| PaletteSelector.NormalizeString | src/ui/components/PaletteSelector/PaletteSelector.tsx:10 | lower-casing then whitespace removal; NormalizeFacts states its normal form |
| PaletteSelector.NormalizeAppend | src/ui/components/PaletteSelector/PaletteSelector.tsx:10 | normalising distributes over concatenation |
| PaletteSelector.NormalizeFacts | src/ui/components/PaletteSelector/PaletteSelector.tsx:10 | the normal form has no whitespace or upper case, is idempotent, and is empty exactly for a blank string |
| PaletteSelector.FilterPalettesSelects | src/ui/components/PaletteSelector/PaletteSelector.tsx:15-21 | the search keeps list order and keeps a palette, every copy of it, exactly when the query is blank or its normalised name contains the normalised query |
| PaletteSelector.FilterPalettes | src/ui/components/PaletteSelector/PaletteSelector.tsx:15-21 | the search filter; FilterPalettesSelects states what it keeps |
| PaletteSelector.QueryCaseAndSpaceInsensitive | src/ui/components/PaletteSelector/PaletteSelector.tsx:15-21 | queries that differ only in case and spacing select the same palettes |
| PaletteSelector.VerbatimMatchIsKept | src/ui/components/PaletteSelector/PaletteSelector.tsx:15-21 | a palette whose name contains the query verbatim is kept |
| PaletteSelector.GetSourceTypeLabel | src/ui/components/PaletteSelector/PaletteSelector.tsx:26-33 | the label of each palette kind; SourceLabelsDistinct states the two differ |
| PaletteSelector.SourceLabelsDistinct | src/ui/components/PaletteSelector/PaletteSelector.tsx:26-33 | the two palette kinds have different labels |

## Left out

- The host application is not modelled. The `figma.*` API becomes parameters: the selection, the current page's children, the document's pages, the variables of the local collections, and the nodes addressable by id. `getNodeByIdAsync` is a lookup in that map.
- The message dispatch `figma.ui.onmessage` and the UI side's `postMessage` calls are not modelled: they only route one case to one function. The same goes for `selectNode`, `goToPage`, `getVariableCollections` and the listing part of `getPages`, which only call the host and post what it returns. The page count that `getPages` attaches is modelled (`PaletteLoad.PageCountIsPaletteSize`).
- Asynchrony, `loadAllPagesAsync` and ordering between messages are not modelled: each call runs to completion.
- Logging, `figma.notify` texts and the rescan that follows a fix are left out; they do not change the scanned data.
- In the fix functions, the JSON deep copy is modelled only by its one failure: copying mixed fills throws, which the catch block turns into an unwritten fix (`CopyFailed`).
- Floating point is not modelled. Channels are exact reals, and the square root in the distance is replaced by comparing squared distances. The rounded distance of a suggestion is the integer nearest to the exact square root.
- Case mapping and the whitespace class are ASCII plus the JavaScript `\s` characters. Full Unicode case mapping of `toLowerCase`/`toUpperCase` is not modelled.
- React rendering, hooks such as `useDebounce`, and component state are not modelled. Only the pure reducer, the message handler, the request builders and the palette list are modelled.
- The tree and the id-addressable store are separate values. A fix changes the stored node only, and aliasing between the scanned tree and the store is not modelled.
- ColorUtils.ActivePalette.GetActiveColors: returns the field and has no contract of its own.
- The node name that `loadPageColors` stores beside each color is never read, so the model does not store it.
- The value of a variable's first mode is taken in the order the host lists the modes (`Object.keys`), as a sequence. Variables arrive already restricted to the color type.
