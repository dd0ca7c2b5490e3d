/**
 What rendering keeps of a MiniMessage tree: its text, the number of painted runes, the colours of a
 gradient, and exactly when it stops with a panic.
 */
module Meaning {
  import opened Wrappers
  import opened Strings
  import opened Scanner
  import opened Parser
  import opened Printer
  import opened Colors
  import opened Renderer

  // ------------------------------------------------------------------ the text

  /** The literal text a player sees; a translation shows none of its source's text. */
  function PlainText(cs: seq<Component>): string
    decreases cs
  {
    if cs == [] then ""
    else
      (match cs[0]
       case TextComponent(content, _, extra) => content + PlainText(extra)
       case Translation(_, _, _) => "") + PlainText(cs[1..])
  }

  /** Tags that `applyStyleTag` accepts, whatever the style. */
  predicate IsStyleTag(lib: Library, t: Tag) {
    var name := TagBase(t.name);
    if HasPrefix(name, "!") then DecorationOf(name[1..]).Some?
    else
      || ParseColorTag(lib, name, t.args).Some?
      || DecorationOf(name).Some?
      || (name == "font" && |t.args| > 0 && ParseKey(lib, t.args[0]).Some?)
      || (name in {"insert", "insertion"} && |t.args| > 0)
      || (name in {"click", "hover"} && |t.args| >= 2)
  }

  /** Tags that end up as `<literal>`, without their children. */
  predicate IsLiteral(lib: Library, t: Tag) {
    match KindOf(lib, t)
    case AlwaysLiteral => true
    case Translated => |t.args| == 0
    case Styled => !IsStyleTag(lib, t)
    case _ => false
  }

  /** The text of a tree in reading order. */
  function TreeText(lib: Library, nodes: seq<Node>): string
    decreases nodes
  {
    if nodes == [] then ""
    else
      (match nodes[0]
       case Text(t) => t
       case Element(tag, children) =>
         if tag.name == "reset" then ""
         else if IsLiteral(lib, tag) then "<" + tag.literal + ">"
         else if KindOf(lib, tag).LineBreak? then "\n"
         else if KindOf(lib, tag).Translated? then ""
         else TreeText(lib, children)) + TreeText(lib, nodes[1..])
  }

  lemma {:induction false} PlainTextAppend(a: seq<Component>, b: seq<Component>)
    ensures PlainText(a + b) == PlainText(a) + PlainText(b)
    decreases |a|
  {
    if a == [] {
      assert a + b == b;
    } else {
      assert (a + b)[0] == a[0] && (a + b)[1..] == a[1..] + b;
      PlainTextAppend(a[1..], b);
    }
  }

  lemma PlainTextOfOne(value: string, style: Style)
    ensures PlainText([TextWithStyle(value, style)]) == value
  {
    assert [TextWithStyle(value, style)][1..] == [];
    assert PlainText([]) == "";
  }

  lemma {:induction false} PaintKeepsText(value: string, style: Style, brush: Brush, index: nat)
    ensures PlainText(PaintRunes(value, style, brush, index)) == value
    ensures |PaintRunes(value, style, brush, index)| == |value|
    decreases |value|
  {
    if value != "" {
      var first := [TextWithStyle([value[0]], PaintedStyle(style, brush, index))];
      var rest := PaintRunes(value[1..], style, brush, index + 1);
      PaintKeepsText(value[1..], style, brush, index + 1);
      PlainTextAppend(first, rest);
      PlainTextOfOne([value[0]], PaintedStyle(style, brush, index));
      assert [value[0]] + value[1..] == value;
    }
  }

  lemma RenderTextKeepsText(value: string, style: Style, brush: Option<Brush>, index: nat)
    ensures PlainText(RenderText(value, style, brush, index).out) == value
  {
    if value != "" && Paints(brush) {
      PaintKeepsText(value, style, brush.value, index);
    } else {
      PlainTextOfOne(value, style);
    }
  }

  lemma ApplyAgrees(lib: Library, t: Tag, style: Style)
    requires ApplyStyleTag(lib, t, style).Done?
    ensures ApplyStyleTag(lib, t, style).value.Some? <==> IsStyleTag(lib, t)
  {
  }

  /** The text a tag contributes. */
  function TagText(lib: Library, t: Tag, children: seq<Node>): string {
    if IsLiteral(lib, t) then "<" + t.literal + ">"
    else if KindOf(lib, t).LineBreak? then "\n"
    else if KindOf(lib, t).Translated? then ""
    else TreeText(lib, children)
  }

  lemma {:induction false} RenderTagKeepsText(lib: Library, t: Tag, children: seq<Node>, style: Style,
                                              brush: Option<Brush>, index: nat)
    requires RenderTag(lib, t, children, style, brush, index).Done?
    ensures PlainText(RenderTag(lib, t, children, style, brush, index).value.out) == TagText(lib, t, children)
    decreases children, 3
  {
    match KindOf(lib, t)
    case LineBreak => RenderTextKeepsText("\n", style, brush, index);
    case Translated =>
      var c := RenderTranslation(lib, t, style).value;
      assert [c][1..] == [];
      if |t.args| == 0 {
        PlainTextOfOne("<" + t.literal + ">", style);
      }
    case AlwaysLiteral => RenderTextKeepsText("<" + t.literal + ">", style, brush, index);
    case Painted(paint) =>
      RenderKeepsText(lib, children, style, Some(Brush(VisibleRunes(children), paint)), 0);
    case Transitioned => RenderKeepsText(lib, children, TransitionStyle(lib, t, style), brush, index);
    case Styled =>
      ApplyAgrees(lib, t, style);
      var applied := ApplyStyleTag(lib, t, style).value;
      if applied.None? {
        RenderTextKeepsText("<" + t.literal + ">", style, brush, index);
      } else {
        RenderKeepsText(lib, children, applied.value, brush, index);
      }
  }

  /** Rendering keeps the text of every tree, under every style and every transform. */
  lemma {:induction false} RenderKeepsText(lib: Library, nodes: seq<Node>, style: Style, brush: Option<Brush>, index: nat)
    requires RenderNodes(lib, nodes, style, brush, index).Done?
    ensures PlainText(RenderNodes(lib, nodes, style, brush, index).value.out) == TreeText(lib, nodes)
    decreases nodes, 2
  {
    if nodes != [] {
      match nodes[0]
      case Text(t) =>
        RenderTextKeepsText(t, style, brush, index);
        var r := RenderText(t, style, brush, index);
        RenderKeepsText(lib, nodes[1..], style, brush, r.index);
        PlainTextAppend(r.out, RenderNodes(lib, nodes[1..], style, brush, r.index).value.out);
      case Element(tag, children) =>
        if tag.name == "reset" {
          RenderKeepsText(lib, nodes[1..], PLAIN, brush, index);
          var rest := RenderNodes(lib, nodes[1..], PLAIN, brush, index).value.out;
          assert [] + rest == rest;
        } else {
          RenderTagKeepsText(lib, tag, children, style, brush, index);
          var r := RenderTag(lib, tag, children, style, brush, index).value;
          RenderKeepsText(lib, nodes[1..], r.style, brush, r.index);
          PlainTextAppend(r.out, RenderNodes(lib, nodes[1..], r.style, brush, r.index).value.out);
        }
    }
  }

  /** What `Parse` shows is the text of the tree it built. */
  lemma ParseKeepsText(lib: Library, input: string)
    requires Parse(lib, input).Done?
    ensures PlainText([Parse(lib, input).value]) == TreeText(lib, ParseTree(lib.lower, input))
  {
    var nodes := ParseTree(lib.lower, input);
    RenderKeepsText(lib, nodes, PLAIN, None, 0);
    var out := RenderNodes(lib, nodes, PLAIN, None, 0).value.out;
    var c := Compact(out);
    assert [c][1..] == [];
    assert PlainText([c][1..]) == "";
    if |out| == 1 {
      assert out == [c];
    }
  }

  /** An escaped string is shown exactly as it was before escaping, in one plain component. */
  lemma EscapedStringIsShown(lib: Library, t: string)
    ensures Parse(lib, EscapeText(t)) == Done(TextWithStyle(t, PLAIN))
  {
    EscapedTextIsText(lib.lower, t);
    var nodes := Flush(t);
    if t != "" {
      assert nodes[1..] == [];
      var parts := [TextWithStyle(t, PLAIN)];
      assert parts + [] == parts;
      assert RenderNodes(lib, [], PLAIN, None, 0) == Done(Rendered([], PLAIN, 0));
      assert RenderNodes(lib, nodes, PLAIN, None, 0) == Done(Rendered(parts, PLAIN, 0));
    }
  }

  // ------------------------------------------------------------------ painted runes

  /** No tag that rendering reaches in the tree is shown literally. */
  predicate Recognised(lib: Library, nodes: seq<Node>)
    decreases nodes
  {
    nodes != [] ==>
      && Recognised(lib, nodes[1..])
      && (nodes[0].Element? && nodes[0].tag.name != "reset" ==>
            !IsLiteral(lib, nodes[0].tag) && Recognised(lib, nodes[0].children))
  }

  lemma {:induction false} TagPaintBound(lib: Library, t: Tag, children: seq<Node>, style: Style,
                                         brush: Option<Brush>, index: nat)
    requires RenderTag(lib, t, children, style, brush, index).Done?
    requires !IsLiteral(lib, t) && Recognised(lib, children)
    ensures var r := RenderTag(lib, t, children, style, brush, index).value;
            index <= r.index <= index + VisibleRunes(children)
    decreases children, 3
  {
    match KindOf(lib, t)
    case LineBreak =>
    case Translated =>
    case Painted(paint) =>
    case Transitioned => PaintBound(lib, children, TransitionStyle(lib, t, style), brush, index);
    case Styled =>
      ApplyAgrees(lib, t, style);
      PaintBound(lib, children, ApplyStyleTag(lib, t, style).value.value, brush, index);
  }

  /** A recognised tree never paints more runes than `visibleRunes` counted for it. */
  lemma {:induction false} PaintBound(lib: Library, nodes: seq<Node>, style: Style, brush: Option<Brush>, index: nat)
    requires RenderNodes(lib, nodes, style, brush, index).Done? && Recognised(lib, nodes)
    ensures var r := RenderNodes(lib, nodes, style, brush, index).value;
            index <= r.index <= index + SumVisible(nodes) <= index + VisibleRunes(nodes)
    decreases nodes, 2
  {
    if nodes != [] {
      match nodes[0]
      case Text(t) =>
        PaintBound(lib, nodes[1..], style, brush, RenderText(t, style, brush, index).index);
      case Element(tag, children) =>
        if tag.name == "reset" {
          PaintBound(lib, nodes[1..], PLAIN, brush, index);
        } else {
          TagPaintBound(lib, tag, children, style, brush, index);
          var r := RenderTag(lib, tag, children, style, brush, index).value;
          PaintBound(lib, nodes[1..], r.style, brush, r.index);
        }
    }
  }

  /** Non-empty texts under style and transition tags that are not empty themselves. */
  predicate StyledText(lib: Library, nodes: seq<Node>)
    decreases nodes
  {
    nodes != [] ==>
      && StyledText(lib, nodes[1..])
      && match nodes[0]
         case Text(t) => t != ""
         case Element(tag, children) =>
           tag.name != "reset" && children != [] && StyledText(lib, children) && PassesStyle(lib, tag)
  }

  lemma {:induction false} StyledTextCounts(lib: Library, nodes: seq<Node>)
    requires StyledText(lib, nodes)
    ensures |TreeText(lib, nodes)| == SumVisible(nodes)
    ensures nodes != [] ==> SumVisible(nodes) > 0
    decreases nodes
  {
    if nodes != [] {
      StyledTextCounts(lib, nodes[1..]);
      if nodes[0].Element? {
        StyledTextCounts(lib, nodes[0].children);
      }
    }
  }

  /** `out` shows `text` rune by rune, rune k in the brush's colour number `index + k`. */
  ghost predicate ShowsPainted(out: seq<Component>, text: string, brush: Brush, index: nat) {
    && |out| == |text|
    && forall k :: 0 <= k < |out| ==>
         && out[k].TextComponent? && out[k].content == [text[k]] && out[k].extra == []
         && out[k].style.color == Some(PaintAt(brush.paint, index + k, brush.total))
  }

  lemma ShowsPaintedAppend(a: seq<Component>, s: string, b: seq<Component>, t: string, brush: Brush, index: nat)
    requires ShowsPainted(a, s, brush, index) && ShowsPainted(b, t, brush, index + |s|)
    ensures ShowsPainted(a + b, s + t, brush, index)
  {
    forall k | |a| <= k < |a + b|
      ensures (a + b)[k].TextComponent? && (a + b)[k].content == [(s + t)[k]] && (a + b)[k].extra == []
              && (a + b)[k].style.color == Some(PaintAt(brush.paint, index + k, brush.total))
    {
      assert (a + b)[k] == b[k - |a|] && (s + t)[k] == t[k - |a|];
      assert index + |s| + (k - |a|) == index + k;
    }
  }

  lemma {:induction false} PaintRunesShows(value: string, style: Style, brush: Brush, index: nat)
    ensures ShowsPainted(PaintRunes(value, style, brush, index), value, brush, index)
    decreases |value|
  {
    if value != "" {
      PaintRunesShows(value[1..], style, brush, index + 1);
      var first := [TextWithStyle([value[0]], PaintedStyle(style, brush, index))];
      ShowsPaintedAppend(first, [value[0]], PaintRunes(value[1..], style, brush, index + 1), value[1..], brush, index);
      assert [value[0]] + value[1..] == value;
    }
  }

  /** One step of `renderNodes` over a node other than `reset`. */
  function RenderNode(lib: Library, n: Node, style: Style, brush: Option<Brush>, index: nat): Outcome<Rendered> {
    match n
    case Text(t) => Done(RenderText(t, style, brush, index))
    case Element(tag, children) => RenderTag(lib, tag, children, style, brush, index)
  }

  function NodeText(lib: Library, n: Node): string {
    match n
    case Text(t) => t
    case Element(_, children) => TreeText(lib, children)
  }

  predicate StyledNode(lib: Library, n: Node) {
    match n
    case Text(t) => t != ""
    case Element(tag, children) => tag.name != "reset" && StyledText(lib, children) && PassesStyle(lib, tag)
  }

  predicate PassesStyle(lib: Library, t: Tag) {
    KindOf(lib, t).Transitioned? || (KindOf(lib, t).Styled? && IsStyleTag(lib, t))
  }

  lemma {:induction false} StyledNodePaints(lib: Library, n: Node, style: Style, brush: Brush, index: nat)
    requires StyledNode(lib, n) && brush.total > 1
    requires RenderNode(lib, n, style, Some(brush), index).Done?
    ensures var r := RenderNode(lib, n, style, Some(brush), index).value;
            && ShowsPainted(r.out, NodeText(lib, n), brush, index)
            && r.index == index + |NodeText(lib, n)|
    decreases n, 0
  {
    match n
    case Text(t) => PaintRunesShows(t, style, brush, index);
    case Element(tag, children) =>
      if KindOf(lib, tag).Transitioned? {
        StyledTextPaints(lib, children, TransitionStyle(lib, tag, style), brush, index);
      } else {
        ApplyAgrees(lib, tag, style);
        StyledTextPaints(lib, children, ApplyStyleTag(lib, tag, style).value.value, brush, index);
      }
  }

  lemma HeadThenTail(lib: Library, nodes: seq<Node>, style: Style, brush: Option<Brush>, index: nat)
    requires nodes != [] && StyledNode(lib, nodes[0]) && RenderNodes(lib, nodes, style, brush, index).Done?
    ensures TreeText(lib, nodes) == NodeText(lib, nodes[0]) + TreeText(lib, nodes[1..])
    ensures RenderNode(lib, nodes[0], style, brush, index).Done?
    ensures var first := RenderNode(lib, nodes[0], style, brush, index).value;
            var rest := RenderNodes(lib, nodes[1..], first.style, brush, first.index);
            && rest.Done?
            && RenderNodes(lib, nodes, style, brush, index).value
               == Rendered(first.out + rest.value.out, rest.value.style, rest.value.index)
  {
    if nodes[0].Element? {
      StyledIsNotLiteral(lib, nodes[0].tag);
    }
  }

  /** Under a transform, styled text is painted rune by rune in consecutive colours. */
  lemma {:induction false} StyledTextPaints(lib: Library, nodes: seq<Node>, style: Style, brush: Brush, index: nat)
    requires StyledText(lib, nodes) && brush.total > 1
    requires RenderNodes(lib, nodes, style, Some(brush), index).Done?
    ensures var r := RenderNodes(lib, nodes, style, Some(brush), index).value;
            && ShowsPainted(r.out, TreeText(lib, nodes), brush, index)
            && r.index == index + |TreeText(lib, nodes)|
    decreases nodes, 1
  {
    if nodes != [] {
      HeadThenTail(lib, nodes, style, Some(brush), index);
      StyledNodePaints(lib, nodes[0], style, brush, index);
      var first := RenderNode(lib, nodes[0], style, Some(brush), index).value;
      StyledTextPaints(lib, nodes[1..], first.style, brush, first.index);
      var rest := RenderNodes(lib, nodes[1..], first.style, Some(brush), first.index).value;
      JoinPainted(RenderNodes(lib, nodes, style, Some(brush), index).value, TreeText(lib, nodes), first, NodeText(lib, nodes[0]),
                  rest, TreeText(lib, nodes[1..]), brush, index);
    }
  }

  lemma JoinPainted(r: Rendered, text: string, first: Rendered, s: string, rest: Rendered, t: string, brush: Brush, index: nat)
    requires r == Rendered(first.out + rest.out, rest.style, rest.index) && text == s + t
    requires ShowsPainted(first.out, s, brush, index) && first.index == index + |s|
    requires ShowsPainted(rest.out, t, brush, first.index) && rest.index == first.index + |t|
    ensures ShowsPainted(r.out, text, brush, index) && r.index == index + |text|
  {
    ShowsPaintedAppend(first.out, s, rest.out, t, brush, index);
  }

  lemma StyledIsNotLiteral(lib: Library, t: Tag)
    requires PassesStyle(lib, t)
    ensures !IsLiteral(lib, t) && !KindOf(lib, t).LineBreak? && !KindOf(lib, t).Translated?
  {
  }

  /** `c` mixes two neighbouring colours of the list. */
  ghost predicate MixesNeighbours(c: Color, colors: seq<Color>) {
    exists left :: 0 <= left < |colors| - 1 && ColorBetween(c, colors[left], colors[left + 1])
  }

  lemma GradientMixesNeighbours(colors: seq<Color>, k: nat, n: nat)
    requires |colors| >= 2 && n >= 2 && k < n
    ensures MixesNeighbours(GradientColor(colors, k, n), colors)
  {
    GradientStaysOnTheColors(colors, k, n);
    var at := GradientPos(|colors|, k, n).Floor;
    var left := if at + 1 < |colors| then at else at - 1;
    assert ColorBetween(GradientColor(colors, k, n), colors[left], colors[left + 1]);
  }

  /**
   A gradient over styled text of at least two runes shows that text, one component a rune: the first
   in the first colour, the last in the last, every other between two neighbouring colours.
   */
  lemma GradientPaintsItsText(lib: Library, t: Tag, children: seq<Node>, style: Style, brush: Option<Brush>, index: nat)
    returns (colors: seq<Color>)
    requires TagBase(t.name) == "gradient"
    requires StyledText(lib, children) && |TreeText(lib, children)| >= 2
    requires RenderTag(lib, t, children, style, brush, index).Done?
    ensures |colors| >= 2 && KindOf(lib, t) == Painted(Gradient(colors))
    ensures var r := RenderTag(lib, t, children, style, brush, index).value; var n := |TreeText(lib, children)|;
            && r.index == index
            && ShowsPainted(r.out, TreeText(lib, children), Brush(n, Gradient(colors)), 0)
            && r.out[0].style.color == Some(colors[0])
            && r.out[n - 1].style.color == Some(colors[|colors| - 1])
            && forall k :: 0 <= k < n ==> MixesNeighbours(r.out[k].style.color.value, colors)
  {
    colors := GradientColors(lib, t.args);
    StyledTextCounts(lib, children);
    var n := |TreeText(lib, children)|;
    var b := Brush(n, Gradient(colors));
    StyledTextPaints(lib, children, style, b, 0);
    var out := RenderNodes(lib, children, style, Some(b), 0).value.out;
    GradientShown(out, TreeText(lib, children), colors);
  }

  lemma GradientShown(out: seq<Component>, text: string, colors: seq<Color>)
    requires |colors| >= 2 && |text| >= 2 && ShowsPainted(out, text, Brush(|text|, Gradient(colors)), 0)
    ensures out[0].style.color == Some(colors[0]) && out[|out| - 1].style.color == Some(colors[|colors| - 1])
    ensures forall k :: 0 <= k < |out| ==> out[k].style.color.Some? && MixesNeighbours(out[k].style.color.value, colors)
  {
    var n := |text|;
    GradientStaysOnTheColors(colors, 0, n);
    GradientStaysOnTheColors(colors, n - 1, n);
    forall k | 0 <= k < n
      ensures out[k].style.color.Some? && MixesNeighbours(out[k].style.color.value, colors)
    {
      GradientMixesNeighbours(colors, k, n);
      assert out[k].style.color == Some(PaintAt(Gradient(colors), 0 + k, n));
    }
  }

  // ------------------------------------------------------------------ panics

  /** The text that the hover of a `hover` tag hands back to the parser, if any. */
  function HoverTexts(lib: Library, t: Tag): seq<string>
    requires |t.args| >= 2
  {
    var action, value := ToLower(lib.lower, t.args[0]), Join(t.args[1..], ":");
    if action == "show_text" then [value]
    else if action == "show_entity" && SplitArgs(value).Some? && |SplitArgs(value).value| > 2
         && ParseKey(lib, SplitArgs(value).value[0]).Some? && lib.uuid(SplitArgs(value).value[1]).Some? then
      [SplitArgs(value).value[2]]
    else []
  }

  /** The texts a tag hands back to the parser. */
  function Reparsed(lib: Library, t: Tag): seq<string> {
    if KindOf(lib, t).Translated? then
      var k := if IsFallbackName(TagBase(t.name)) then 2 else 1;
      if k <= |t.args| then t.args[k..] else []
    else if TagBase(t.name) == "hover" && ParseColorTag(lib, "hover", t.args).None? && |t.args| >= 2 then
      HoverTexts(lib, t)
    else []
  }

  lemma ReparsedFits(lib: Library, t: Tag)
    ensures |Join(Reparsed(lib, t), ":")| < TagBudget(t)
  {
    if KindOf(lib, t).Translated? {
      var k := if IsFallbackName(TagBase(t.name)) then 2 else 1;
      if k <= |t.args| {
        JoinedTailFits(t, k);
      }
    } else if |t.args| >= 2 {
      JoinedTailFits(t, 1);
      EntityNameFits(t);
    }
  }

  /** A fallback translation with only a key: the source slices past the end of its arguments. */
  predicate IsShortFallback(t: Tag) {
    IsFallbackName(TagBase(t.name)) && |t.args| == 1
  }

  predicate RendersChildren(lib: Library, t: Tag) {
    !IsLiteral(lib, t) && !KindOf(lib, t).LineBreak? && !KindOf(lib, t).Translated?
  }

  /** The tags that rendering a text reaches, in its tree and in the texts its tags hand back. */
  ghost function ReachedIn(lib: Library, input: string): set<Tag>
    decreases |input|, 2
  {
    ParseShrinks(lib.lower, input);
    Reached(lib, ParseTree(lib.lower, input))
  }

  ghost function ReachedInEach(lib: Library, texts: seq<string>): set<Tag>
    decreases |Join(texts, ":")| + 1, 0, |texts|
  {
    if texts == [] then {}
    else
      JoinElement(texts, 0, ":");
      JoinTail(texts, 1, ":");
      ReachedIn(lib, texts[0]) + ReachedInEach(lib, texts[1..])
  }

  ghost function ReachedTag(lib: Library, t: Tag, children: seq<Node>): set<Tag>
    decreases Larger(TagBudget(t), Budget(children)), 1, children, 1
  {
    ReparsedFits(lib, t);
    {t} + ReachedInEach(lib, Reparsed(lib, t)) + (if RendersChildren(lib, t) then Reached(lib, children) else {})
  }

  ghost function Reached(lib: Library, nodes: seq<Node>): set<Tag>
    decreases Budget(nodes), 1, nodes, 0
  {
    if nodes == [] then {}
    else
      (if nodes[0].Element? && nodes[0].tag.name != "reset" then ReachedTag(lib, nodes[0].tag, nodes[0].children) else {})
      + Reached(lib, nodes[1..])
  }

  ghost predicate HasShortFallback(tags: set<Tag>) {
    exists t :: t in tags && IsShortFallback(t)
  }

  lemma ShortFallbackUnion(a: set<Tag>, b: set<Tag>)
    ensures HasShortFallback(a + b) <==> HasShortFallback(a) || HasShortFallback(b)
  {
    if HasShortFallback(a) || HasShortFallback(b) {
      var t :| (t in a || t in b) && IsShortFallback(t);
      assert t in a + b;
    }
  }

  lemma {:induction false} EachPanics(lib: Library, texts: seq<string>)
    ensures ParseEach(lib, texts).Panicked? <==> HasShortFallback(ReachedInEach(lib, texts))
    decreases |Join(texts, ":")| + 1, 0, |texts|
  {
    if texts != [] {
      JoinElement(texts, 0, ":");
      JoinTail(texts, 1, ":");
      ParsePanics(lib, texts[0]);
      EachPanics(lib, texts[1..]);
      ShortFallbackUnion(ReachedIn(lib, texts[0]), ReachedInEach(lib, texts[1..]));
    }
  }

  lemma HoverReparses(lib: Library, t: Tag)
    requires |t.args| >= 2
    ensures HoverOf(lib, t).Panicked? <==> ParseEach(lib, HoverTexts(lib, t)).Panicked?
  {
    var texts := HoverTexts(lib, t);
    if texts != [] {
      assert texts[1..] == [];
      assert ParseEach(lib, []) == Done([]);
    }
  }

  lemma {:induction false} ApplyPanics(lib: Library, t: Tag, style: Style)
    requires KindOf(lib, t).Styled?
    ensures ApplyStyleTag(lib, t, style).Panicked? <==> HasShortFallback(ReachedInEach(lib, Reparsed(lib, t)))
    decreases TagBudget(t), 0
  {
    ReparsedFits(lib, t);
    EachPanics(lib, Reparsed(lib, t));
    var name := TagBase(t.name);
    if name == "hover" && |t.args| >= 2 {
      HoverReparses(lib, t);
      HoverApplies(lib, t, style);
    } else {
      OthersDoNotReparse(lib, t, style);
      assert ReachedInEach(lib, []) == {};
    }
  }

  lemma HoverApplies(lib: Library, t: Tag, style: Style)
    requires TagBase(t.name) == "hover" && |t.args| >= 2
    ensures ApplyStyleTag(lib, t, style).Panicked? <==> ParseColorTag(lib, "hover", t.args).None? && HoverOf(lib, t).Panicked?
    ensures Reparsed(lib, t) == if ParseColorTag(lib, "hover", t.args).None? then HoverTexts(lib, t) else []
  {
    var name := TagBase(t.name);
    assert !HasPrefix(name, "!") by {
      assert name[..1][0] == 'h';
    }
  }

  lemma OthersDoNotReparse(lib: Library, t: Tag, style: Style)
    requires KindOf(lib, t).Styled? && !(TagBase(t.name) == "hover" && |t.args| >= 2)
    ensures Reparsed(lib, t) == [] && ApplyStyleTag(lib, t, style).Done?
  {
  }

  lemma {:induction false} TranslationPanics(lib: Library, t: Tag, style: Style)
    requires KindOf(lib, t).Translated?
    ensures RenderTranslation(lib, t, style).Panicked?
       <==> IsShortFallback(t) || HasShortFallback(ReachedInEach(lib, Reparsed(lib, t)))
    decreases TagBudget(t), 0
  {
    ReparsedFits(lib, t);
    EachPanics(lib, Reparsed(lib, t));
  }

  lemma {:induction false} TagPanics(lib: Library, t: Tag, children: seq<Node>, style: Style, brush: Option<Brush>, index: nat)
    ensures RenderTag(lib, t, children, style, brush, index).Panicked? <==> HasShortFallback(ReachedTag(lib, t, children))
    decreases Larger(TagBudget(t), Budget(children)), 1, children, 1
  {
    ReparsedFits(lib, t);
    var texts := ReachedInEach(lib, Reparsed(lib, t));
    var inner := if RendersChildren(lib, t) then Reached(lib, children) else {};
    ShortFallbackUnion({t} + texts, inner);
    ShortFallbackUnion({t}, texts);
    assert HasShortFallback({t}) <==> IsShortFallback(t) by {
      assert t in {t};
    }
    match KindOf(lib, t)
    case LineBreak =>
    case AlwaysLiteral =>
    case Translated => TranslationPanics(lib, t, style);
    case Painted(paint) =>
      NodesPanic(lib, children, style, Some(Brush(VisibleRunes(children), paint)), 0);
    case Transitioned => NodesPanic(lib, children, TransitionStyle(lib, t, style), brush, index);
    case Styled =>
      ApplyPanics(lib, t, style);
      var applied := ApplyStyleTag(lib, t, style);
      if applied.Done? {
        ApplyAgrees(lib, t, style);
        if applied.value.Some? {
          NodesPanic(lib, children, applied.value.value, brush, index);
        }
      }
  }

  lemma {:induction false} NodesPanic(lib: Library, nodes: seq<Node>, style: Style, brush: Option<Brush>, index: nat)
    ensures RenderNodes(lib, nodes, style, brush, index).Panicked? <==> HasShortFallback(Reached(lib, nodes))
    decreases Budget(nodes), 1, nodes, 0
  {
    if nodes != [] {
      match nodes[0]
      case Text(t) =>
        ShortFallbackUnion({}, Reached(lib, nodes[1..]));
        NodesPanic(lib, nodes[1..], style, brush, RenderText(t, style, brush, index).index);
      case Element(tag, children) =>
        if tag.name == "reset" {
          ShortFallbackUnion({}, Reached(lib, nodes[1..]));
          NodesPanic(lib, nodes[1..], PLAIN, brush, index);
        } else {
          ShortFallbackUnion(ReachedTag(lib, tag, children), Reached(lib, nodes[1..]));
          TagPanics(lib, tag, children, style, brush, index);
          var first := RenderTag(lib, tag, children, style, brush, index);
          if first.Done? {
            NodesPanic(lib, nodes[1..], first.value.style, brush, first.value.index);
          }
        }
    }
  }

  /**
   Parsing stops with a panic exactly when rendering reaches a fallback translation that has a key
   and nothing else; on every other input it returns a component.
   */
  lemma {:induction false} ParsePanics(lib: Library, input: string)
    ensures Parse(lib, input).Panicked? <==> HasShortFallback(ReachedIn(lib, input))
    ensures ParseMiniMessage(lib, input).None? <==> HasShortFallback(ReachedIn(lib, input))
    decreases |input|, 2
  {
    ParseShrinks(lib.lower, input);
    NodesPanic(lib, ParseTree(lib.lower, input), PLAIN, None, 0);
  }

  /** Such inputs exist: `<"lang_or":"key">`, for every key and each of the three names. */
  lemma ShortFallbackPanics(lib: Library, name: string, key: string)
    requires IsFallbackName(name) && ToLower(lib.lower, name) == name
    ensures Parse(lib, "<" + PrintArgs([name, key], '"') + ">").Panicked?
  {
    var t := Tag(name, [key], PrintArgs([name, key], '"'));
    assert [name] + [key] == [name, key];
    QuotedTagIsFaithful(lib.lower, name, [key], '"');
    FallbackNameIsItsBase(name);
    VoidTagAlone(lib.lower, t);
    LoneFallbackPanics(lib, t);
  }

  lemma LoneFallbackPanics(lib: Library, t: Tag)
    requires IsShortFallback(t) && t.name == TagBase(t.name)
    ensures RenderNodes(lib, [Element(t, [])], PLAIN, None, 0).Panicked?
  {
    var nodes := [Element(t, [])];
    assert t in ReachedTag(lib, t, []);
    assert t in Reached(lib, nodes);
    NodesPanic(lib, nodes, PLAIN, None, 0);
  }

  lemma VoidTagAlone(lower: char -> char, t: Tag)
    requires Faithful(lower, t) && IsVoid(t)
    ensures ParseTree(lower, "<" + t.literal + ">") == [Element(t, [])]
  {
    var input := "<" + t.literal + ">";
    assert input + "" == input;
    OpenTagReads(lower, t, "", "");
    assert NextMove(lower, "", "") == End;
    var last := ParseFrom(lower, "", "", "");
    assert last == Parsed([], "");
    assert ParseKids(lower, t, "") == Parsed([], "");
    assert Flush("") == [] && [] + [Element(t, [])] + last.nodes == [Element(t, [])];
  }

  lemma FallbackNameIsItsBase(name: string)
    requires IsFallbackName(name)
    ensures TagBase(name) == name && name != "reset"
  {
    assert ':' !in name;
    NoColonBase(name);
  }

  lemma {:induction false} NoColonBase(name: string)
    requires ':' !in name
    ensures TagBase(name) == name
    decreases |name|
  {
    if name != "" {
      NoColonBase(name[1..]);
    }
  }
}
