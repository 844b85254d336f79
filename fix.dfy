/** The fix engine of src/code.ts: the per-list paint rewrite, the single-instruction
    fix and the batch fix over an abstract node store. */
module Fix {
  import opened Types
  import opened Strings
  import opened ColorCodec
  import opened ColorUtils

  /** Hex strings compared as the source does: both sides upper-cased. */
  predicate SameHex(a: string, b: string)
  {
    ToUpper(a) == ToUpper(b)
  }

  /** The paints a rewrite replaces: solid paints whose encoded color is `originalHex`.
      Visibility is not consulted. */
  predicate MatchesHex(p: Paint, originalHex: string)
  {
    p.SolidPaint? && SameHex(FigmaRgbToHex(p.color.r, p.color.g, p.color.b), originalHex)
  }

  /** The target token's channels scaled back to [0,1]. */
  function TargetColor(target: ColorToken): Rgb
  {
    Rgb(target.rgb.r as real / 255.0, target.rgb.g as real / 255.0, target.rgb.b as real / 255.0)
  }

  /** The rewrite of one paint: `{...paint, color, opacity: target.opacity ?? paint.opacity}`
      for a matching paint, the paint itself otherwise. */
  function RewritePaint(p: Paint, originalHex: string, target: ColorToken): Paint
  {
    if MatchesHex(p, originalHex) then
      p.(color := TargetColor(target), opacity := if target.opacity.Some? then target.opacity else p.opacity)
    else p
  }

  /** The `map` over a fill or stroke list. */
  function RewritePaints(paints: seq<Paint>, originalHex: string, target: ColorToken): (r: seq<Paint>)
    ensures |r| == |paints|
  {
    if |paints| == 0 then []
    else [RewritePaint(paints[0], originalHex, target)] + RewritePaints(paints[1..], originalHex, target)
  }

  /** Position by position: a matching paint takes the target's color and, when the target
      declares one, its opacity, keeping its kind, visibility and blend mode; every other
      paint is left as it was. */
  lemma {:induction false} RewritePaintsEffect(paints: seq<Paint>, originalHex: string, target: ColorToken, i: nat)
    requires i < |paints|
    ensures var p, q := paints[i], RewritePaints(paints, originalHex, target)[i];
      if MatchesHex(p, originalHex) then
        q.SolidPaint? && q.color == TargetColor(target) &&
        q.opacity == (if target.opacity.Some? then target.opacity else p.opacity) &&
        q.visible == p.visible && q.blendMode == p.blendMode
      else q == p
  {
    if i > 0 {
      RewritePaintsEffect(paints[1..], originalHex, target, i - 1);
    }
  }

  /** A rewritten paint encodes exactly the target token's channels. */
  lemma RewrittenPaintHasTargetChannels(p: Paint, originalHex: string, target: ColorToken)
    requires MatchesHex(p, originalHex)
    ensures var q := RewritePaint(p, originalHex, target);
      HexToRgb(FigmaRgbToHex(q.color.r, q.color.g, q.color.b)) == Some(target.rgb)
  {
    var c := TargetColor(target);
    DecodeEncode(c.r, c.g, c.b);
    Round255OfByte(target.rgb.r);
    Round255OfByte(target.rgb.g);
    Round255OfByte(target.rgb.b);
  }

  /** Applying the same rewrite twice is the same as applying it once. */
  lemma {:induction false} RewriteIdempotent(paints: seq<Paint>, originalHex: string, target: ColorToken)
    ensures RewritePaints(RewritePaints(paints, originalHex, target), originalHex, target) ==
            RewritePaints(paints, originalHex, target)
  {
    if |paints| > 0 {
      var p := paints[0];
      var q := RewritePaint(p, originalHex, target);
      assert RewritePaint(q, originalHex, target) == q;
      RewriteIdempotent(paints[1..], originalHex, target);
    }
  }

  /** A hidden solid paint of the original color is rewritten like a visible one. */
  lemma HiddenPaintIsRewritten(p: Paint, originalHex: string, target: ColorToken)
    requires p.SolidPaint? && p.visible == Some(false)
    requires SameHex(FigmaRgbToHex(p.color.r, p.color.g, p.color.b), originalHex)
    ensures RewritePaint(p, originalHex, target).color == TargetColor(target)
  {
  }

  /** The first palette token whose hex equals `hex` case-insensitively (`find`). */
  function FindTokenByHex(palette: seq<ColorToken>, hex: string): (found: Option<ColorToken>)
    ensures found.None? <==> forall j :: 0 <= j < |palette| ==> !SameHex(palette[j].hex, hex)
    ensures found.Some? ==> found.value in palette && SameHex(found.value.hex, hex)
  {
    if |palette| == 0 then None
    else if SameHex(palette[0].hex, hex) then Some(palette[0])
    else
      var rest := FindTokenByHex(palette[1..], hex);
      assert forall j :: 1 <= j < |palette| ==> palette[j] == palette[1..][j - 1];
      rest
  }

  /** The token found is the first one with that hex. */
  lemma {:induction false} FindTokenByHexIsFirst(palette: seq<ColorToken>, hex: string, i: nat)
    requires i < |palette| && SameHex(palette[i].hex, hex)
    requires forall j :: 0 <= j < i ==> !SameHex(palette[j].hex, hex)
    ensures FindTokenByHex(palette, hex) == Some(palette[i])
  {
    if i > 0 {
      FindTokenByHexIsFirst(palette[1..], hex, i - 1);
    }
  }

  /** The node kinds a fix refuses: the document and its pages. */
  predicate IsSceneNode(n: Node)
  {
    n.nodeType != "DOCUMENT" && n.nodeType != "PAGE"
  }

  /** What writing one property amounts to: a new node, nothing (the node kind has no
      such property), or a failure (the deep copy of mixed fills throws). */
  datatype Write = Written(node: Node) | NoProperty | CopyFailed

  /** The property write of an instruction on a scene node with a resolved target. */
  function WriteProperty(n: Node, fix: ColorFixRequest, target: ColorToken): (w: Write)
    ensures w.Written? ==>
      (w.node.id == n.id && w.node.name == n.name && w.node.nodeType == n.nodeType && w.node.children == n.children)
    ensures w.Written? && fix.propertyType == FillProperty ==> w.node.strokes == n.strokes
    ensures w.Written? && fix.propertyType == StrokeProperty ==> w.node.fills == n.fills
    ensures w.CopyFailed? <==> fix.propertyType == FillProperty && n.fills.MixedFills?
    ensures w.NoProperty? <==>
      (fix.propertyType == FillProperty && n.fills.NoFills?) || (fix.propertyType == StrokeProperty && n.strokes.None?)
  {
    match fix.propertyType
    case FillProperty =>
      (match n.fills
       case NoFills => NoProperty
       case MixedFills => CopyFailed
       case FillList(paints) => Written(n.(fills := FillList(RewritePaints(paints, fix.originalHex, target)))))
    case StrokeProperty =>
      if n.strokes.Some? then Written(n.(strokes := Some(RewritePaints(n.strokes.value, fix.originalHex, target))))
      else NoProperty
  }

  /** How a fix ends: the three refusals the source reports, a failed write, or the
      success notice naming the token. */
  datatype FixOutcome = NodeNotFound | InvalidNodeType | TargetNotFound | WriteFailed | Recolored(tokenName: string)

  /** The effect of one instruction on the store: the new store, the outcome, and whether
      a property list was written. */
  datatype FixEffect = FixEffect(nodes: map<string, Node>, outcome: FixOutcome, written: bool)

  /** One fix instruction against a store and the active palette. */
  function ApplyFix(nodes: map<string, Node>, palette: seq<ColorToken>, fix: ColorFixRequest): (e: FixEffect)
    ensures e.outcome == NodeNotFound <==> fix.nodeId !in nodes
    ensures e.outcome == InvalidNodeType <==> fix.nodeId in nodes && !IsSceneNode(nodes[fix.nodeId])
    ensures e.outcome == TargetNotFound <==>
      fix.nodeId in nodes && IsSceneNode(nodes[fix.nodeId]) && FindTokenByHex(palette, fix.targetHex).None?
    ensures e.outcome == WriteFailed <==>
      fix.nodeId in nodes && IsSceneNode(nodes[fix.nodeId]) && FindTokenByHex(palette, fix.targetHex).Some? &&
      fix.propertyType == FillProperty && nodes[fix.nodeId].fills.MixedFills?
    ensures e.outcome.Recolored? ==>
      fix.nodeId in nodes && FindTokenByHex(palette, fix.targetHex).Some? &&
      e.outcome.tokenName == FindTokenByHex(palette, fix.targetHex).value.name
    ensures e.written ==> e.outcome.Recolored?
    ensures !e.written ==> e.nodes == nodes
    ensures e.nodes.Keys == nodes.Keys
    ensures forall id :: id in nodes && id != fix.nodeId ==> e.nodes[id] == nodes[id]
  {
    if fix.nodeId !in nodes then FixEffect(nodes, NodeNotFound, false)
    else
      var n := nodes[fix.nodeId];
      if !IsSceneNode(n) then FixEffect(nodes, InvalidNodeType, false)
      else
        match FindTokenByHex(palette, fix.targetHex)
        case None => FixEffect(nodes, TargetNotFound, false)
        case Some(target) =>
          match WriteProperty(n, fix, target)
          case Written(n') => FixEffect(nodes[fix.nodeId := n'], Recolored(target.name), true)
          case NoProperty => FixEffect(nodes, Recolored(target.name), false)
          case CopyFailed => FixEffect(nodes, WriteFailed, false)
  }

  /** A written fill instruction replaces the node's fill list by its rewrite. */
  lemma FillFixRewritesList(nodes: map<string, Node>, palette: seq<ColorToken>, fix: ColorFixRequest)
    requires fix.nodeId in nodes && IsSceneNode(nodes[fix.nodeId])
    requires fix.propertyType == FillProperty && nodes[fix.nodeId].fills.FillList?
    requires FindTokenByHex(palette, fix.targetHex).Some?
    ensures var n, e := nodes[fix.nodeId], ApplyFix(nodes, palette, fix);
      e.written && e.nodes[fix.nodeId] ==
        n.(fills := FillList(RewritePaints(n.fills.paints, fix.originalHex, FindTokenByHex(palette, fix.targetHex).value)))
  {
  }

  /** A written stroke instruction replaces the node's stroke list by its rewrite. */
  lemma StrokeFixRewritesList(nodes: map<string, Node>, palette: seq<ColorToken>, fix: ColorFixRequest)
    requires fix.nodeId in nodes && IsSceneNode(nodes[fix.nodeId])
    requires fix.propertyType == StrokeProperty && nodes[fix.nodeId].strokes.Some?
    requires FindTokenByHex(palette, fix.targetHex).Some?
    ensures var n, e := nodes[fix.nodeId], ApplyFix(nodes, palette, fix);
      e.written && e.nodes[fix.nodeId] ==
        n.(strokes := Some(RewritePaints(n.strokes.value, fix.originalHex, FindTokenByHex(palette, fix.targetHex).value)))
  {
  }

  /** An instruction whose original hex matches no paint still writes the (unchanged)
      list and still counts as written. */
  lemma {:induction false} UnmatchedFixStillWrites(nodes: map<string, Node>, palette: seq<ColorToken>, fix: ColorFixRequest)
    requires fix.nodeId in nodes && IsSceneNode(nodes[fix.nodeId])
    requires fix.propertyType == StrokeProperty && nodes[fix.nodeId].strokes.Some?
    requires FindTokenByHex(palette, fix.targetHex).Some?
    requires forall i :: 0 <= i < |nodes[fix.nodeId].strokes.value| ==>
      !MatchesHex(nodes[fix.nodeId].strokes.value[i], fix.originalHex)
    ensures ApplyFix(nodes, palette, fix).written
    ensures ApplyFix(nodes, palette, fix).nodes == nodes
  {
    var n := nodes[fix.nodeId];
    var paints := n.strokes.value;
    var target := FindTokenByHex(palette, fix.targetHex).value;
    var r := RewritePaints(paints, fix.originalHex, target);
    forall i | 0 <= i < |paints| ensures r[i] == paints[i] {
      RewritePaintsEffect(paints, fix.originalHex, target, i);
    }
    assert r == paints;
    assert n.(strokes := Some(r)) == n;
    assert nodes[fix.nodeId := n] == nodes;
  }

  /** The node an instruction leaves behind when it writes, judged from that node alone. */
  function NodeAfterFix(n: Node, palette: seq<ColorToken>, fix: ColorFixRequest): Option<Node>
  {
    if !IsSceneNode(n) then None
    else
      match FindTokenByHex(palette, fix.targetHex)
      case None => None
      case Some(target) =>
        match WriteProperty(n, fix, target)
        case Written(n') => Some(n')
        case NoProperty => None
        case CopyFailed => None
  }

  /** A fix touches only the entry of its own node, and what it writes there depends on
      that entry alone. */
  lemma ApplyFixIsLocal(nodes: map<string, Node>, palette: seq<ColorToken>, fix: ColorFixRequest)
    ensures ApplyFix(nodes, palette, fix).nodes ==
      if fix.nodeId in nodes && NodeAfterFix(nodes[fix.nodeId], palette, fix).Some?
      then nodes[fix.nodeId := NodeAfterFix(nodes[fix.nodeId], palette, fix).value]
      else nodes
  {
  }

  /** Fixes on different nodes commute. */
  lemma DisjointFixesCommute(nodes: map<string, Node>, palette: seq<ColorToken>, f: ColorFixRequest, g: ColorFixRequest)
    requires f.nodeId != g.nodeId
    ensures ApplyFix(ApplyFix(nodes, palette, f).nodes, palette, g).nodes ==
            ApplyFix(ApplyFix(nodes, palette, g).nodes, palette, f).nodes
  {
    var mf := ApplyFix(nodes, palette, f).nodes;
    var mg := ApplyFix(nodes, palette, g).nodes;
    ApplyFixIsLocal(nodes, palette, f);
    ApplyFixIsLocal(nodes, palette, g);
    ApplyFixIsLocal(mf, palette, g);
    ApplyFixIsLocal(mg, palette, f);
    assert g.nodeId in mf <==> g.nodeId in nodes;
    assert f.nodeId in mg <==> f.nodeId in nodes;
    assert g.nodeId in nodes ==> mf[g.nodeId] == nodes[g.nodeId];
    assert f.nodeId in nodes ==> mg[f.nodeId] == nodes[f.nodeId];
  }

  /** On one node, a fill fix and a stroke fix commute: each rewrites only its own list. */
  lemma DifferentPropertiesCommute(nodes: map<string, Node>, palette: seq<ColorToken>, f: ColorFixRequest, g: ColorFixRequest)
    requires f.nodeId == g.nodeId && f.propertyType == FillProperty && g.propertyType == StrokeProperty
    ensures ApplyFix(ApplyFix(nodes, palette, f).nodes, palette, g).nodes ==
            ApplyFix(ApplyFix(nodes, palette, g).nodes, palette, f).nodes
  {
    var mf := ApplyFix(nodes, palette, f).nodes;
    var mg := ApplyFix(nodes, palette, g).nodes;
    ApplyFixIsLocal(nodes, palette, f);
    ApplyFixIsLocal(nodes, palette, g);
    ApplyFixIsLocal(mf, palette, g);
    ApplyFixIsLocal(mg, palette, f);
    if f.nodeId in nodes {
      var n := nodes[f.nodeId];
      var nf := if NodeAfterFix(n, palette, f).Some? then NodeAfterFix(n, palette, f).value else n;
      var ng := if NodeAfterFix(n, palette, g).Some? then NodeAfterFix(n, palette, g).value else n;
      assert mf[f.nodeId] == nf && mg[f.nodeId] == ng;
      assert nf.strokes == n.strokes && nf.nodeType == n.nodeType;
      assert ng.fills == n.fills && ng.nodeType == n.nodeType;
    }
  }

  /** The batch state after a sequence of instructions: the store and `fixedCount`. */
  datatype BatchEffect = BatchEffect(nodes: map<string, Node>, fixedCount: nat)

  /** fixAllColors' loop: the instructions in order, each skipped or applied to the
      store left by the previous ones, counting the property lists written. */
  function ApplyAll(nodes: map<string, Node>, palette: seq<ColorToken>, fixes: seq<ColorFixRequest>): (b: BatchEffect)
    ensures b.fixedCount <= |fixes|
    ensures b.nodes.Keys == nodes.Keys
  {
    if |fixes| == 0 then BatchEffect(nodes, 0)
    else
      var prev := ApplyAll(nodes, palette, fixes[..|fixes| - 1]);
      var e := ApplyFix(prev.nodes, palette, fixes[|fixes| - 1]);
      BatchEffect(e.nodes, prev.fixedCount + if e.written then 1 else 0)
  }

  /** Each instruction adds at most one to the count, and exactly one when it writes. */
  lemma ApplyAllStep(nodes: map<string, Node>, palette: seq<ColorToken>, fixes: seq<ColorFixRequest>, fix: ColorFixRequest)
    ensures var prev := ApplyAll(nodes, palette, fixes);
      var e := ApplyFix(prev.nodes, palette, fix);
      ApplyAll(nodes, palette, fixes + [fix]) == BatchEffect(e.nodes, prev.fixedCount + if e.written then 1 else 0)
  {
    assert (fixes + [fix])[..|fixes|] == fixes;
  }

  /** An instruction naming a node that is not in the store is skipped without aborting
      the batch: the batch behaves as if it were absent. */
  lemma {:induction false} MissingNodeIsSkipped(nodes: map<string, Node>, palette: seq<ColorToken>,
                                                before: seq<ColorFixRequest>, fix: ColorFixRequest, after: seq<ColorFixRequest>)
    requires fix.nodeId !in nodes
    ensures ApplyAll(nodes, palette, before + [fix] + after) == ApplyAll(nodes, palette, before + after)
    decreases |after|
  {
    if |after| == 0 {
      assert before + [fix] + after == before + [fix];
      assert before + after == before;
      ApplyAllStep(nodes, palette, before, fix);
    } else {
      var init, last := after[..|after| - 1], after[|after| - 1];
      MissingNodeIsSkipped(nodes, palette, before, fix, init);
      assert before + [fix] + after == (before + [fix] + init) + [last];
      assert before + after == (before + init) + [last];
      ApplyAllStep(nodes, palette, before + [fix] + init, last);
      ApplyAllStep(nodes, palette, before + init, last);
    }
  }

  /** The host's node lookup, reduced to a map from node ids to nodes. */
  class NodeStore {
    var nodes: map<string, Node>

    constructor (initial: map<string, Node>)
      ensures nodes == initial
    {
      nodes := initial;
    }

    /** Write the property an instruction names, as the try block does. */
    method WriteNode(n: Node, fix: ColorFixRequest, target: ColorToken) returns (written: bool, failed: bool)
      requires fix.nodeId in nodes && nodes[fix.nodeId] == n
      modifies this
      ensures var w := WriteProperty(n, fix, target);
        (written <==> w.Written?) && (failed <==> w.CopyFailed?) &&
        nodes == if w.Written? then old(nodes)[fix.nodeId := w.node] else old(nodes)
    {
      written, failed := false, false;
      if fix.propertyType == FillProperty && !n.fills.NoFills? {
        if n.fills.MixedFills? {
          failed := true;
          return;
        }
        var updatedFills := RewritePaints(n.fills.paints, fix.originalHex, target);
        nodes := nodes[fix.nodeId := n.(fills := FillList(updatedFills))];
        written := true;
      }
      if fix.propertyType == StrokeProperty && n.strokes.Some? {
        var updatedStrokes := RewritePaints(n.strokes.value, fix.originalHex, target);
        nodes := nodes[fix.nodeId := n.(strokes := Some(updatedStrokes))];
        written := true;
      }
    }

    /** fixColor: look the node up, refuse documents and pages, resolve the target token
        in the active palette, then rewrite the named property. */
    method FixColor(active: ActivePalette, fix: ColorFixRequest) returns (outcome: FixOutcome)
      modifies this
      ensures nodes == ApplyFix(old(nodes), old(active.activeColors), fix).nodes
      ensures outcome == ApplyFix(old(nodes), old(active.activeColors), fix).outcome
    {
      if fix.nodeId !in nodes {
        return NodeNotFound;
      }
      var n := nodes[fix.nodeId];
      if n.nodeType == "DOCUMENT" || n.nodeType == "PAGE" {
        return InvalidNodeType;
      }
      var targetColor := FindTokenByHex(active.GetActiveColors(), fix.targetHex);
      if targetColor.None? {
        return TargetNotFound;
      }
      var written, failed := WriteNode(n, fix, targetColor.value);
      outcome := if failed then WriteFailed else Recolored(targetColor.value.name);
    }

    /** fixAllColors: apply the instructions in order, skipping the ones that cannot be
        applied, and count the property lists written. */
    method FixAllColors(active: ActivePalette, fixes: seq<ColorFixRequest>) returns (fixedCount: nat)
      modifies this
      ensures nodes == ApplyAll(old(nodes), old(active.activeColors), fixes).nodes
      ensures fixedCount == ApplyAll(old(nodes), old(active.activeColors), fixes).fixedCount
    {
      var palette := active.GetActiveColors();
      fixedCount := 0;
      for i := 0 to |fixes|
        invariant active.activeColors == palette
        invariant nodes == ApplyAll(old(nodes), palette, fixes[..i]).nodes
        invariant fixedCount == ApplyAll(old(nodes), palette, fixes[..i]).fixedCount
      {
        var fix := fixes[i];
        ApplyAllStep(old(nodes), palette, fixes[..i], fix);
        assert fixes[..i + 1] == fixes[..i] + [fix];
        if fix.nodeId in nodes {
          var n := nodes[fix.nodeId];
          if IsSceneNode(n) {
            var targetColor := FindTokenByHex(palette, fix.targetHex);
            if targetColor.Some? {
              var written, failed := WriteNode(n, fix, targetColor.value);
              if written {
                fixedCount := fixedCount + 1;
              }
            }
          }
        }
      }
      assert fixes[..|fixes|] == fixes;
    }
  }
}
