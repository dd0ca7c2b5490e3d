/**
 Which colours the renderer of limbo/minimessage/minimessage.go can give to a component: all valid while the
 tree has no literal tags, and an invalid one for a reversed rainbow over such a tag.
 */
module Rainbows {
  import opened Wrappers
  import opened Parser
  import opened Colors
  import opened Renderer
  import opened Meaning

  /** `parseColor` gives colours of three bytes. */
  ghost predicate ValidLibrary(lib: Library) {
    forall s :: lib.color(s).Some? ==> lib.color(s).value.Valid()
  }

  predicate ValidStyle(style: Style) {
    style.color.Some? ==> style.color.value.Valid()
  }

  predicate ValidColors(colors: seq<Color>) {
    forall k :: 0 <= k < |colors| ==> colors[k].Valid()
  }

  predicate AllValid(out: seq<Component>) {
    forall k :: 0 <= k < |out| ==> ValidStyle(out[k].style)
  }

  /** The brush paints `runes` more runes from `index` on in valid colours. */
  predicate BrushFits(brush: Option<Brush>, index: nat, runes: nat) {
    brush.Some? ==>
      match brush.value.paint
      case Gradient(colors) => ValidColors(colors)
      case Rainbow(reverse) => reverse ==> index + runes <= brush.value.total
  }

  // ------------------------------------------------------------------ one colour

  lemma GradientIsValid(colors: seq<Color>, index: nat, total: int)
    requires ValidColors(colors)
    ensures GradientColor(colors, index, total).Valid()
  {
    if |colors| >= 2 && total >= 2 {
      if index < total {
        GradientStaysOnTheColors(colors, index, total);
      } else {
        GradientPastEnd(colors, index, total);
      }
    }
  }

  lemma PaintIsValid(b: Brush, index: nat)
    requires BrushFits(Some(b), index, 1)
    ensures PaintAt(b.paint, index, b.total).Valid()
  {
    match b.paint
    case Gradient(colors) => GradientIsValid(colors, index, b.total);
    case Rainbow(reverse) => RainbowIsValid(if reverse then b.total - index - 1 else index, b.total);
  }

  lemma {:induction false} RunesAreValid(value: string, style: Style, b: Brush, index: nat)
    requires BrushFits(Some(b), index, |value|)
    ensures AllValid(PaintRunes(value, style, b, index))
    decreases |value|
  {
    if value != "" {
      PaintIsValid(b, index);
      RunesAreValid(value[1..], style, b, index + 1);
    }
  }

  lemma TextIsValid(value: string, style: Style, brush: Option<Brush>, index: nat)
    requires ValidStyle(style) && BrushFits(brush, index, |value|)
    ensures AllValid(RenderText(value, style, brush, index).out)
  {
    if value != "" && Paints(brush) {
      RunesAreValid(value, style, brush.value, index);
    }
  }

  lemma {:induction false} ParsedColorsAreValid(lib: Library, args: seq<string>)
    requires ValidLibrary(lib)
    ensures ValidColors(ParseColors(lib, args))
    decreases |args|
  {
    if args != [] {
      ParsedColorsAreValid(lib, args[1..]);
    }
  }

  lemma TransitionIsValid(lib: Library, t: Tag, style: Style)
    requires ValidLibrary(lib) && ValidStyle(style)
    ensures ValidStyle(TransitionStyle(lib, t, style))
  {
    ParsedColorsAreValid(lib, t.args);
  }

  lemma AppliedIsValid(lib: Library, t: Tag, style: Style)
    requires ValidLibrary(lib) && ValidStyle(style) && ApplyStyleTag(lib, t, style).Done?
    requires ApplyStyleTag(lib, t, style).value.Some?
    ensures ValidStyle(ApplyStyleTag(lib, t, style).value.value)
  {
  }

  lemma GradientColorsAreValid(lib: Library, args: seq<string>)
    requires ValidLibrary(lib)
    ensures ValidColors(GradientColors(lib, args))
  {
    ParsedColorsAreValid(lib, args);
  }

  lemma BrushOfTagFits(lib: Library, t: Tag, children: seq<Node>)
    requires ValidLibrary(lib) && KindOf(lib, t).Painted?
    ensures BrushFits(Some(Brush(VisibleRunes(children), KindOf(lib, t).paint)), 0, VisibleRunes(children))
  {
    GradientColorsAreValid(lib, t.args);
  }

  // ------------------------------------------------------------------ whole trees

  lemma {:induction false} TagColorsAreValid(lib: Library, t: Tag, children: seq<Node>, style: Style,
                                             brush: Option<Brush>, index: nat)
    requires ValidLibrary(lib) && ValidStyle(style) && BrushFits(brush, index, VisibleRunes(children))
    requires RenderTag(lib, t, children, style, brush, index).Done?
    requires !IsLiteral(lib, t) && Recognised(lib, children)
    ensures var r := RenderTag(lib, t, children, style, brush, index).value; AllValid(r.out) && ValidStyle(r.style)
    decreases children, 3
  {
    match KindOf(lib, t)
    case LineBreak => TextIsValid("\n", style, brush, index);
    case Translated =>
    case Painted(paint) =>
      BrushOfTagFits(lib, t, children);
      ColorsAreValid(lib, children, style, Some(Brush(VisibleRunes(children), paint)), 0);
    case Transitioned =>
      TransitionIsValid(lib, t, style);
      ColorsAreValid(lib, children, TransitionStyle(lib, t, style), brush, index);
    case Styled =>
      ApplyAgrees(lib, t, style);
      AppliedIsValid(lib, t, style);
      ColorsAreValid(lib, children, ApplyStyleTag(lib, t, style).value.value, brush, index);
  }

  /** Without literal tags every component gets a valid colour, under reversed rainbows too. */
  lemma {:induction false} ColorsAreValid(lib: Library, nodes: seq<Node>, style: Style, brush: Option<Brush>, index: nat)
    requires ValidLibrary(lib) && ValidStyle(style) && BrushFits(brush, index, SumVisible(nodes))
    requires RenderNodes(lib, nodes, style, brush, index).Done? && Recognised(lib, nodes)
    ensures var r := RenderNodes(lib, nodes, style, brush, index).value; AllValid(r.out) && ValidStyle(r.style)
    decreases nodes, 2
  {
    if nodes != [] {
      match nodes[0]
      case Text(t) =>
        TextIsValid(t, style, brush, index);
        ColorsAreValid(lib, nodes[1..], style, brush, RenderText(t, style, brush, index).index);
      case Element(tag, children) =>
        if tag.name == "reset" {
          ColorsAreValid(lib, nodes[1..], PLAIN, brush, index);
        } else {
          TagPaintBound(lib, tag, children, style, brush, index);
          TagColorsAreValid(lib, tag, children, style, brush, index);
          var r := RenderTag(lib, tag, children, style, brush, index).value;
          ColorsAreValid(lib, nodes[1..], r.style, brush, r.index);
        }
    }
  }

  /** What `Parse` shows of a text without literal tags has valid colours only. */
  lemma ParsedColorsStayValid(lib: Library, input: string)
    requires ValidLibrary(lib) && Parse(lib, input).Done? && Recognised(lib, ParseTree(lib.lower, input))
    ensures var out := RenderNodes(lib, ParseTree(lib.lower, input), PLAIN, None, 0).value.out;
            Parse(lib, input) == Done(Compact(out)) && AllValid(out)
  {
    ColorsAreValid(lib, ParseTree(lib.lower, input), PLAIN, None, 0);
  }

  // ------------------------------------------------------------------ over a literal tag

  /** The children of `<rainbow:!>ab<foo>xyz</foo></rainbow>`. */
  function LiteralChildren(foo: Tag): seq<Node> {
    [Text("ab"), Element(foo, [Text("xyz")])]
  }

  lemma FiveRunesAreCounted(foo: Tag)
    ensures VisibleRunes(LiteralChildren(foo)) == 5
  {
    var nodes := LiteralChildren(foo);
    assert nodes[1..] == [Element(foo, [Text("xyz")])] && nodes[1..][1..] == [];
    assert [Text("xyz")][1..] == [];
    assert SumVisible([Text("xyz")]) == 3;
    assert SumVisible(nodes[1..]) == 3;
  }

  lemma RuneColor(value: string, style: Style, b: Brush, index: nat, k: nat)
    requires k < |value|
    ensures |PaintRunes(value, style, b, index)| == |value|
    ensures PaintRunes(value, style, b, index)[k].style.color == Some(PaintAt(b.paint, index + k, b.total))
  {
    PaintRunesShows(value, style, b, index);
  }

  lemma LiteralIsPainted(lib: Library, foo: Tag, style: Style, b: Brush)
    requires IsLiteral(lib, foo) && foo.name != "reset" && b.total > 1 && !KindOf(lib, foo).Translated?
    requires RenderNodes(lib, LiteralChildren(foo), style, Some(b), 0).Done?
    ensures var out := RenderNodes(lib, LiteralChildren(foo), style, Some(b), 0).value.out;
            out == PaintRunes("ab", style, b, 0) + PaintRunes("<" + foo.literal + ">", style, b, 2)
  {
    var nodes := LiteralChildren(foo);
    assert nodes[1..] == [Element(foo, [Text("xyz")])] && nodes[1..][1..] == [];
    var literal := RenderText("<" + foo.literal + ">", style, Some(b), 2);
    LiteralRenders(lib, foo, [Text("xyz")], style, b, 2);
    assert RenderNodes(lib, nodes[1..], style, Some(b), 2).value.out == literal.out + [];
  }

  lemma LiteralRenders(lib: Library, foo: Tag, children: seq<Node>, style: Style, b: Brush, index: nat)
    requires IsLiteral(lib, foo) && !KindOf(lib, foo).Translated?
    requires RenderTag(lib, foo, children, style, Some(b), index).Done?
    ensures RenderTag(lib, foo, children, style, Some(b), index)
         == Done(RenderText("<" + foo.literal + ">", style, Some(b), index))
  {
    if KindOf(lib, foo).Styled? {
      ApplyAgrees(lib, foo, style);
    }
  }

  const RAINBOW := Tag("rainbow", ["!"], "rainbow:!")
  const FOO := Tag("foo", [], "foo")

  lemma FooIsLiteral(lib: Library)
    requires lib.color("foo").None?
    ensures IsLiteral(lib, FOO) && KindOf(lib, FOO).Styled?
  {
    NoColonBase("foo");
  }

  lemma RainbowIsReversed(lib: Library)
    ensures KindOf(lib, RAINBOW) == Painted(Rainbow(true))
  {
    NoColonBase("rainbow");
    assert '!' in RAINBOW.args[0];
  }

  lemma FooIsShown(lib: Library, style: Style, b: Brush)
    requires lib.color("foo").None?
    ensures RenderNodes(lib, LiteralChildren(FOO), style, Some(b), 0).Done?
  {
    FooIsLiteral(lib);
    var nodes := LiteralChildren(FOO);
    assert nodes[1..] == [Element(FOO, [Text("xyz")])] && nodes[1..][1..] == [];
    FooIsNoStyle(lib, style);
    assert RenderNodes(lib, nodes[1..], style, Some(b), RenderText("ab", style, Some(b), 0).index).Done?;
  }

  lemma FooIsNoStyle(lib: Library, style: Style)
    requires lib.color("foo").None?
    ensures ApplyStyleTag(lib, FOO, style) == Done(None)
  {
    NoColonBase("foo");
  }

  /**
   `<rainbow:!>ab<foo>xyz</foo></rainbow>`, where `foo` is no colour: five runes are counted but seven painted, and
   the sixth gets index -1 and an invalid colour.
   */
  lemma ReversedRainbowOverflows(lib: Library, style: Style, brush: Option<Brush>, index: nat)
    requires lib.color("foo").None?
    ensures RenderTag(lib, RAINBOW, LiteralChildren(FOO), style, brush, index).Done?
    ensures var out := RenderTag(lib, RAINBOW, LiteralChildren(FOO), style, brush, index).value.out;
            |out| == 7 && out[5].style.color == Some(Color(255, 0, 306)) && !AllValid(out)
  {
    RainbowRenders(lib, style, brush, index);
    SevenRunes(style);
    NotAllValid(Seven(style));
  }

  const FIVE := Brush(5, Rainbow(true))

  function Seven(style: Style): seq<Component> {
    PaintRunes("ab", style, FIVE, 0) + PaintRunes("<foo>", style, FIVE, 2)
  }

  lemma SevenAreShown(lib: Library, style: Style)
    requires lib.color("foo").None?
    ensures RenderNodes(lib, LiteralChildren(FOO), style, Some(FIVE), 0).Done?
    ensures RenderNodes(lib, LiteralChildren(FOO), style, Some(FIVE), 0).value.out == Seven(style)
  {
    FooIsShown(lib, style, FIVE);
    FooIsLiteral(lib);
    LiteralIsPainted(lib, FOO, style, FIVE);
    assert "<" + FOO.literal + ">" == "<foo>";
  }

  lemma RainbowRenders(lib: Library, style: Style, brush: Option<Brush>, index: nat)
    requires lib.color("foo").None?
    ensures RenderTag(lib, RAINBOW, LiteralChildren(FOO), style, brush, index) == Done(Rendered(Seven(style), style, index))
  {
    RainbowIsReversed(lib);
    FiveRunesAreCounted(FOO);
    SevenAreShown(lib, style);
  }

  lemma SevenRunes(style: Style)
    ensures |Seven(style)| == 7 && Seven(style)[5].style.color == Some(Color(255, 0, 306))
  {
    RuneColor("ab", style, FIVE, 0, 0);
    RuneColor("<foo>", style, FIVE, 2, 3);
    SixthOfFive();
  }

  lemma NotAllValid(out: seq<Component>)
    requires |out| == 7 && out[5].style.color == Some(Color(255, 0, 306))
    ensures !AllValid(out)
  {
    assert !ValidStyle(out[5].style);
  }

  lemma SixthOfFive()
    ensures RainbowColor(-1, 5) == Color(255, 0, 306)
  {
    var h := (-1) as real / 5 as real;
    assert h * 6.0 == -1.2;
    assert Trunc(-1.2) == -1;
  }
}
