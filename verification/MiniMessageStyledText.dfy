/**
 The pieces that the renderer of limbo/minimessage/minimessage.go shows of a tree, in order, each with the tags that
 decide its style.
 */
module StyledTexts {
  import opened Wrappers
  import opened Strings
  import opened Parser
  import opened Colors
  import opened Renderer
  import opened Styles

  // ------------------------------------------------------------------ what is wanted

  /** The gradient or rainbow tag that colours a rune, the runes counted under it, and how many it has coloured before. */
  datatype Shade = Unpainted | Shade(tag: Tag, total: nat, place: nat)

  /** A rune or a translated phrase, with the tags around it since the last reset, from the outermost on. */
  datatype Want = WantRune(c: char, path: seq<Tag>, shade: Shade) | WantPhrase(key: string, texts: seq<string>, path: seq<Tag>)

  function Later(shade: Shade, runes: nat): Shade {
    match shade
    case Unpainted => Unpainted
    case Shade(tag, total, place) => Shade(tag, total, place + runes)
  }

  function WantRunes(text: string, path: seq<Tag>, shade: Shade): seq<Want> {
    if text == "" then [] else [WantRune(text[0], path, shade)] + WantRunes(text[1..], path, Later(shade, 1))
  }

  /** A style tag whose text is in order. */
  predicate IsAccepted(lib: Library, t: Tag) {
    var base := TagBase(t.name);
    if IsNegated(base) then exists d: Decoration :: base[1..] in Names(d)
    else
      || ColourMeant(lib, t).Some?
      || (exists d: Decoration :: base in Names(d))
      || FontMeant(lib, t).Some? || InsertionMeant(lib, t).Some?
      || (base in {"click", "hover"} && |t.args| >= 2)
  }

  function Literal(t: Tag): string {
    "<" + t.literal + ">"
  }

  /** The texts a phrase is filled with: all arguments behind the key, or behind the fallback. */
  function Fillings(t: Tag): seq<string> {
    var from := if TagBase(t.name) in {"lang_or", "tr_or", "translate_or"} then 2 else 1;
    if |t.args| < from then [] else t.args[from..]
  }

  /** How many runes a tag takes of the gradient or rainbow around it; one of its own leaves that alone. */
  function Taken(lib: Library, t: Tag, children: seq<Node>): nat
    decreases children, 1
  {
    var base := TagBase(t.name);
    if base in BREAKS then 1
    else if base in PHRASES || base in BRUSHES then 0
    else if base !in UNSUPPORTED && (base == "transition" || IsAccepted(lib, t)) then TakenBy(lib, children)
    else |Literal(t)|
  }

  function TakenBy(lib: Library, nodes: seq<Node>): nat
    decreases nodes, 0
  {
    if nodes == [] then 0
    else
      (match nodes[0]
       case Text(text) => |text|
       case Element(tag, children) => if tag.name == "reset" then 0 else Taken(lib, tag, children)) + TakenBy(lib, nodes[1..])
  }

  /** A single rune is not painted. */
  function Fresh(t: Tag, children: seq<Node>): Shade {
    if VisibleRunes(children) > 1 then Shade(t, VisibleRunes(children), 0) else Unpainted
  }

  function WantsOfTag(lib: Library, t: Tag, children: seq<Node>, path: seq<Tag>, shade: Shade): seq<Want>
    decreases children, 1
  {
    var base := TagBase(t.name);
    if base in BREAKS then WantRunes("\n", path, shade)
    else if base in PHRASES then
      if t.args == [] then WantRunes(Literal(t), path, Unpainted) else [WantPhrase(t.args[0], Fillings(t), path)]
    else if base in UNSUPPORTED then WantRunes(Literal(t), path, shade)
    else if base in BRUSHES then Wants(lib, children, path + [t], Fresh(t, children))
    else if base == "transition" || IsAccepted(lib, t) then Wants(lib, children, path + [t], shade)
    else WantRunes(Literal(t), path, shade)
  }

  /** The pieces of a list of nodes; nothing before a reset decides what follows it in the list. */
  function Wants(lib: Library, nodes: seq<Node>, path: seq<Tag>, shade: Shade): seq<Want>
    decreases nodes, 0
  {
    if nodes == [] then []
    else
      match nodes[0]
      case Text(text) => WantRunes(text, path, shade) + Wants(lib, nodes[1..], path, Later(shade, |text|))
      case Element(tag, children) =>
        if tag.name == "reset" then Wants(lib, nodes[1..], [], shade)
        else
          WantsOfTag(lib, tag, children, path, shade)
          + Wants(lib, nodes[1..], path, Later(shade, Taken(lib, tag, children)))
  }

  // ------------------------------------------------------------------ what is shown

  datatype Piece = Rune(c: char, style: Style) | Phrase(key: string, args: seq<Component>, style: Style)

  function Runes(text: string, style: Style): seq<Piece> {
    if text == "" then [] else [Rune(text[0], style)] + Runes(text[1..], style)
  }

  /** The runes and phrases of components in reading order. */
  function Pieces(cs: seq<Component>): seq<Piece>
    decreases cs
  {
    if cs == [] then []
    else
      (match cs[0]
       case TextComponent(content, style, extra) => Runes(content, style) + Pieces(extra)
       case Translation(key, args, style) => [Phrase(key, args, style)]) + Pieces(cs[1..])
  }

  function WantedStyle(lib: Library, path: seq<Tag>, shade: Shade): Style {
    var style := StyleOf(lib, path);
    match shade
    case Unpainted => style
    case Shade(tag, total, place) => if total > 1 then style.(color := Some(BrushColour(lib, tag, total, place))) else style
  }

  /** The piece has the style of its tags, and the colour of its gradient or rainbow. */
  predicate Carries(lib: Library, p: Piece, w: Want) {
    match w
    case WantRune(c, path, shade) => p == Rune(c, WantedStyle(lib, path, shade))
    case WantPhrase(key, texts, path) =>
      && p.Phrase? && p.key == key && p.style == StyleOf(lib, path)
      && |p.args| == |texts| && forall i :: 0 <= i < |texts| ==> Parse(lib, texts[i]) == Done(p.args[i])
  }

  predicate AllCarry(lib: Library, pieces: seq<Piece>, wants: seq<Want>) {
    |pieces| == |wants| && forall k :: 0 <= k < |wants| ==> Carries(lib, pieces[k], wants[k])
  }

  lemma AllCarryAppend(lib: Library, a: seq<Piece>, b: seq<Piece>, v: seq<Want>, w: seq<Want>)
    requires AllCarry(lib, a, v) && AllCarry(lib, b, w)
    ensures AllCarry(lib, a + b, v + w)
  {
  }

  lemma {:induction false} PiecesAppend(a: seq<Component>, b: seq<Component>)
    ensures Pieces(a + b) == Pieces(a) + Pieces(b)
    decreases |a|
  {
    if a == [] {
      assert a + b == b;
    } else {
      assert (a + b)[0] == a[0] && (a + b)[1..] == a[1..] + b;
      PiecesAppend(a[1..], b);
    }
  }

  lemma PiecesOfText(text: string, style: Style)
    ensures Pieces([TextWithStyle(text, style)]) == Runes(text, style)
  {
    assert [TextWithStyle(text, style)][1..] == [];
    assert Pieces([]) == [] && Runes(text, style) + [] + [] == Runes(text, style);
  }

  lemma {:induction false} RunesCarry(lib: Library, text: string, path: seq<Tag>)
    ensures AllCarry(lib, Runes(text, StyleOf(lib, path)), WantRunes(text, path, Unpainted))
    decreases |text|
  {
    if text != "" {
      RunesCarry(lib, text[1..], path);
      AllCarryAppend(lib, [Rune(text[0], StyleOf(lib, path))], Runes(text[1..], StyleOf(lib, path)),
                     [WantRune(text[0], path, Unpainted)], WantRunes(text[1..], path, Unpainted));
    }
  }

  /** The renderer's brush and index are those of this gradient or rainbow tag at this place. */
  predicate Fits(lib: Library, brush: Option<Brush>, index: nat, shade: Shade) {
    match shade
    case Unpainted => !Paints(brush)
    case Shade(tag, total, place) =>
      total > 1 && KindOf(lib, tag).Painted? && brush == Some(Brush(total, KindOf(lib, tag).paint)) && place == index
  }

  /** What was rendered is what was wanted, and the brush is where it should be behind it. */
  predicate IsAsWanted(lib: Library, r: Rendered, wants: seq<Want>, brush: Option<Brush>, after: Shade) {
    AllCarry(lib, Pieces(r.out), wants) && Fits(lib, brush, r.index, after)
  }

  lemma PaintedRune(lib: Library, path: seq<Tag>, brush: Brush, index: nat, shade: Shade)
    requires Fits(lib, Some(brush), index, shade) && shade.Shade?
    ensures PaintedStyle(StyleOf(lib, path), brush, index) == WantedStyle(lib, path, shade)
  {
    BrushPaints(lib, shade.tag, shade.total, shade.place);
  }

  lemma {:induction false} PaintedCarry(lib: Library, text: string, path: seq<Tag>, brush: Brush, index: nat, shade: Shade)
    requires Fits(lib, Some(brush), index, shade) && shade.Shade?
    ensures AllCarry(lib, Pieces(PaintRunes(text, StyleOf(lib, path), brush, index)), WantRunes(text, path, shade))
    decreases |text|
  {
    if text != "" {
      var style := PaintedStyle(StyleOf(lib, path), brush, index);
      var first, rest := TextWithStyle([text[0]], style), PaintRunes(text[1..], StyleOf(lib, path), brush, index + 1);
      PaintedCarry(lib, text[1..], path, brush, index + 1, Later(shade, 1));
      PiecesAppend([first], rest);
      PiecesOfText([text[0]], style);
      OneRune(text[0], style);
      PaintedRune(lib, path, brush, index, shade);
      AllCarryAppend(lib, [Rune(text[0], style)], Pieces(rest),
                     [WantRune(text[0], path, shade)], WantRunes(text[1..], path, Later(shade, 1)));
    }
  }

  lemma OneRune(c: char, style: Style)
    ensures Runes([c], style) == [Rune(c, style)]
  {
    assert [c][1..] == "" && Runes("", style) == [];
  }

  lemma TextCarries(lib: Library, text: string, path: seq<Tag>, brush: Option<Brush>, index: nat, shade: Shade)
    requires Fits(lib, brush, index, shade)
    ensures IsAsWanted(lib, RenderText(text, StyleOf(lib, path), brush, index), WantRunes(text, path, shade), brush,
                       Later(shade, |text|))
  {
    if text != "" {
      if Paints(brush) {
        PaintedCarry(lib, text, path, brush.value, index, shade);
      } else {
        PiecesOfText(text, StyleOf(lib, path));
        RunesCarry(lib, text, path);
      }
    }
  }

  // ------------------------------------------------------------------ translations

  lemma {:induction false} EachIsParsed(lib: Library, args: seq<string>)
    requires ParseEach(lib, args).Done?
    ensures var parsed := ParseEach(lib, args).value;
            |parsed| == |args| && forall i :: 0 <= i < |args| ==> Parse(lib, args[i]) == Done(parsed[i])
    decreases |args|
  {
    if args != [] {
      EachIsParsed(lib, args[1..]);
    }
  }

  lemma PhraseCarries(lib: Library, t: Tag, path: seq<Tag>)
    requires TagBase(t.name) in PHRASES && RenderTranslation(lib, t, StyleOf(lib, path)).Done?
    ensures AllCarry(lib, Pieces([RenderTranslation(lib, t, StyleOf(lib, path)).value]),
                     if t.args == [] then WantRunes(Literal(t), path, Unpainted) else [WantPhrase(t.args[0], Fillings(t), path)])
  {
    var style := StyleOf(lib, path);
    if t.args == [] {
      PiecesOfText(Literal(t), style);
      RunesCarry(lib, Literal(t), path);
    } else {
      EachIsParsed(lib, Fillings(t));
      var c := RenderTranslation(lib, t, style).value;
      assert [c][1..] == [] && Pieces([]) == [];
      assert c == Translation(t.args[0], ParseEach(lib, Fillings(t)).value, style);
    }
  }

  // ------------------------------------------------------------------ tags and lists

  lemma AcceptedIff(lib: Library, t: Tag, style: Style)
    requires KindOf(lib, t).Styled? && ApplyStyleTag(lib, t, style).Done?
    ensures ApplyStyleTag(lib, t, style).value.Some? <==> IsAccepted(lib, t)
  {
    var name := TagBase(t.name);
    NegationIs(name);
    forall d: Decoration
      ensures DecorationOf(name) == Some(d) <==> name in Names(d)
    {
      DecorationNamed(name, d);
    }
    if IsNegated(name) {
      forall d: Decoration
        ensures DecorationOf(name[1..]) == Some(d) <==> name[1..] in Names(d)
      {
        DecorationNamed(name[1..], d);
      }
    }
  }

  lemma NoPath(lib: Library)
    ensures StyleOf(lib, []) == PLAIN
  {
    assert StyleOf(lib, []).decorations == map[];
  }

  lemma FlatIsWanted(lib: Library, t: Tag, children: seq<Node>, path: seq<Tag>, shade: Shade)
    ensures KindOf(lib, t).LineBreak? ==>
              WantsOfTag(lib, t, children, path, shade) == WantRunes("\n", path, shade) && Taken(lib, t, children) == 1
    ensures KindOf(lib, t).AlwaysLiteral? ==>
              && WantsOfTag(lib, t, children, path, shade) == WantRunes(Literal(t), path, shade)
              && Taken(lib, t, children) == |Literal(t)|
    ensures KindOf(lib, t).Translated? ==>
              && TagBase(t.name) in PHRASES && Taken(lib, t, children) == 0
              && WantsOfTag(lib, t, children, path, shade)
                 == if t.args == [] then WantRunes(Literal(t), path, Unpainted) else [WantPhrase(t.args[0], Fillings(t), path)]
  {
  }

  lemma FlatTagCarries(lib: Library, t: Tag, children: seq<Node>, path: seq<Tag>, brush: Option<Brush>, index: nat, shade: Shade)
    requires Fits(lib, brush, index, shade)
    requires RenderTag(lib, t, children, StyleOf(lib, path), brush, index).Done?
    requires var k := KindOf(lib, t); k.LineBreak? || k.AlwaysLiteral?
    ensures IsAsWanted(lib, RenderTag(lib, t, children, StyleOf(lib, path), brush, index).value,
                       WantsOfTag(lib, t, children, path, shade), brush, Later(shade, Taken(lib, t, children)))
  {
    FlatIsWanted(lib, t, children, path, shade);
    TextCarries(lib, if KindOf(lib, t).LineBreak? then "\n" else Literal(t), path, brush, index, shade);
  }

  lemma PhraseTagCarries(lib: Library, t: Tag, children: seq<Node>, path: seq<Tag>, brush: Option<Brush>, index: nat,
                         shade: Shade)
    requires Fits(lib, brush, index, shade)
    requires RenderTag(lib, t, children, StyleOf(lib, path), brush, index).Done? && KindOf(lib, t).Translated?
    ensures IsAsWanted(lib, RenderTag(lib, t, children, StyleOf(lib, path), brush, index).value,
                       WantsOfTag(lib, t, children, path, shade), brush, Later(shade, Taken(lib, t, children)))
  {
    FlatIsWanted(lib, t, children, path, shade);
    PhraseCarries(lib, t, path);
    NothingTaken(shade);
  }

  lemma NothingTaken(shade: Shade)
    ensures Later(shade, 0) == shade
  {
  }

  lemma BrushIsWanted(lib: Library, t: Tag, children: seq<Node>, path: seq<Tag>, shade: Shade)
    requires KindOf(lib, t).Painted?
    ensures TagBase(t.name) in BRUSHES && Taken(lib, t, children) == 0
    ensures WantsOfTag(lib, t, children, path, shade) == Wants(lib, children, path + [t], Fresh(t, children))
  {
  }

  lemma BrushIsRendered(lib: Library, t: Tag, children: seq<Node>, style: Style, brush: Option<Brush>, index: nat)
    requires KindOf(lib, t).Painted? && RenderTag(lib, t, children, style, brush, index).Done?
    ensures var inner := RenderNodes(lib, children, style, Some(Brush(VisibleRunes(children), KindOf(lib, t).paint)), 0);
            inner.Done? && RenderTag(lib, t, children, style, brush, index).value == Rendered(inner.value.out, style, index)
  {
  }

  lemma {:induction false} BrushCarries(lib: Library, t: Tag, children: seq<Node>, path: seq<Tag>, brush: Option<Brush>,
                                        index: nat, shade: Shade)
    requires Fits(lib, brush, index, shade)
    requires RenderTag(lib, t, children, StyleOf(lib, path), brush, index).Done? && KindOf(lib, t).Painted?
    ensures IsAsWanted(lib, RenderTag(lib, t, children, StyleOf(lib, path), brush, index).value,
                       WantsOfTag(lib, t, children, path, shade), brush, Later(shade, Taken(lib, t, children)))
    decreases children, 3
  {
    BrushIsWanted(lib, t, children, path, shade);
    BrushIsRendered(lib, t, children, StyleOf(lib, path), brush, index);
    OneTagFurther(lib, path, t);
    BrushMeans(lib, t, StyleOf(lib, path));
    NodesCarry(lib, children, path + [t], Some(Brush(VisibleRunes(children), KindOf(lib, t).paint)), 0, Fresh(t, children));
    NothingTaken(shade);
  }

  lemma TransitionIsWanted(lib: Library, t: Tag, children: seq<Node>, path: seq<Tag>, shade: Shade)
    requires KindOf(lib, t).Transitioned?
    ensures TagBase(t.name) == "transition" && Taken(lib, t, children) == TakenBy(lib, children)
    ensures WantsOfTag(lib, t, children, path, shade) == Wants(lib, children, path + [t], shade)
  {
  }

  lemma {:induction false} TransitionCarries(lib: Library, t: Tag, children: seq<Node>, path: seq<Tag>,
                                             brush: Option<Brush>, index: nat, shade: Shade)
    requires Fits(lib, brush, index, shade)
    requires RenderTag(lib, t, children, StyleOf(lib, path), brush, index).Done? && KindOf(lib, t).Transitioned?
    ensures IsAsWanted(lib, RenderTag(lib, t, children, StyleOf(lib, path), brush, index).value,
                       WantsOfTag(lib, t, children, path, shade), brush, Later(shade, Taken(lib, t, children)))
    decreases children, 3
  {
    TransitionIsWanted(lib, t, children, path, shade);
    OneTagFurther(lib, path, t);
    TransitionMeans(lib, t, StyleOf(lib, path));
    NodesCarry(lib, children, path + [t], brush, index, shade);
  }

  lemma StyledIsWanted(lib: Library, t: Tag, children: seq<Node>, path: seq<Tag>, shade: Shade)
    requires KindOf(lib, t).Styled?
    ensures WantsOfTag(lib, t, children, path, shade)
         == if IsAccepted(lib, t) then Wants(lib, children, path + [t], shade) else WantRunes(Literal(t), path, shade)
    ensures Taken(lib, t, children) == if IsAccepted(lib, t) then TakenBy(lib, children) else |Literal(t)|
  {
  }

  lemma StyledIsRendered(lib: Library, t: Tag, children: seq<Node>, style: Style, brush: Option<Brush>, index: nat)
    requires KindOf(lib, t).Styled? && RenderTag(lib, t, children, style, brush, index).Done?
    ensures ApplyStyleTag(lib, t, style).Done?
    ensures var r, applied := RenderTag(lib, t, children, style, brush, index).value, ApplyStyleTag(lib, t, style).value;
            if applied.None? then r == RenderText(Literal(t), style, brush, index)
            else
              && RenderNodes(lib, children, applied.value, brush, index).Done?
              && r == RenderNodes(lib, children, applied.value, brush, index).value.(style := style)
  {
  }

  lemma {:induction false} StyledCarries(lib: Library, t: Tag, children: seq<Node>, path: seq<Tag>, brush: Option<Brush>,
                                         index: nat, shade: Shade)
    requires Fits(lib, brush, index, shade)
    requires RenderTag(lib, t, children, StyleOf(lib, path), brush, index).Done? && KindOf(lib, t).Styled?
    ensures IsAsWanted(lib, RenderTag(lib, t, children, StyleOf(lib, path), brush, index).value,
                       WantsOfTag(lib, t, children, path, shade), brush, Later(shade, Taken(lib, t, children)))
    decreases children, 3
  {
    var style := StyleOf(lib, path);
    StyledIsWanted(lib, t, children, path, shade);
    StyledIsRendered(lib, t, children, style, brush, index);
    AcceptedIff(lib, t, style);
    if IsAccepted(lib, t) {
      ApplyMeans(lib, t, style);
      OneTagFurther(lib, path, t);
      NodesCarry(lib, children, path + [t], brush, index, shade);
    } else {
      TextCarries(lib, Literal(t), path, brush, index, shade);
    }
  }

  lemma {:induction false} TagCarries(lib: Library, t: Tag, children: seq<Node>, path: seq<Tag>, brush: Option<Brush>,
                                      index: nat, shade: Shade)
    requires Fits(lib, brush, index, shade)
    requires RenderTag(lib, t, children, StyleOf(lib, path), brush, index).Done?
    ensures IsAsWanted(lib, RenderTag(lib, t, children, StyleOf(lib, path), brush, index).value,
                       WantsOfTag(lib, t, children, path, shade), brush, Later(shade, Taken(lib, t, children)))
    decreases children, 4
  {
    match KindOf(lib, t)
    case Painted(_) => BrushCarries(lib, t, children, path, brush, index, shade);
    case Transitioned => TransitionCarries(lib, t, children, path, brush, index, shade);
    case Styled => StyledCarries(lib, t, children, path, brush, index, shade);
    case Translated => PhraseTagCarries(lib, t, children, path, brush, index, shade);
    case _ => FlatTagCarries(lib, t, children, path, brush, index, shade);
  }

  /** Every piece of rendered nodes has the style of its tags and the colour of its gradient or rainbow. */
  lemma {:induction false} NodesCarry(lib: Library, nodes: seq<Node>, path: seq<Tag>, brush: Option<Brush>, index: nat,
                                      shade: Shade)
    requires Fits(lib, brush, index, shade)
    requires RenderNodes(lib, nodes, StyleOf(lib, path), brush, index).Done?
    ensures IsAsWanted(lib, RenderNodes(lib, nodes, StyleOf(lib, path), brush, index).value,
                       Wants(lib, nodes, path, shade), brush, Later(shade, TakenBy(lib, nodes)))
    decreases nodes, 2
  {
    if nodes != [] {
      match nodes[0]
      case Text(_) => TextFirstCarries(lib, nodes, path, brush, index, shade);
      case Element(tag, _) =>
        if tag.name == "reset" {
          ResetCarries(lib, nodes, path, brush, index, shade);
        } else {
          ElementFirstCarries(lib, nodes, path, brush, index, shade);
        }
    }
  }

  lemma {:induction false} TextFirstCarries(lib: Library, nodes: seq<Node>, path: seq<Tag>, brush: Option<Brush>,
                                            index: nat, shade: Shade)
    requires Fits(lib, brush, index, shade)
    requires RenderNodes(lib, nodes, StyleOf(lib, path), brush, index).Done? && nodes != [] && nodes[0].Text?
    ensures IsAsWanted(lib, RenderNodes(lib, nodes, StyleOf(lib, path), brush, index).value,
                       Wants(lib, nodes, path, shade), brush, Later(shade, TakenBy(lib, nodes)))
    decreases nodes, 1
  {
    var style, text := StyleOf(lib, path), nodes[0].text;
    TextCarries(lib, text, path, brush, index, shade);
    var r, after := RenderText(text, style, brush, index), Later(shade, |text|);
    NodesCarry(lib, nodes[1..], path, brush, r.index, after);
    JoinCarry(lib, r.out, RenderNodes(lib, nodes[1..], style, brush, r.index).value.out,
              WantRunes(text, path, shade), Wants(lib, nodes[1..], path, after));
    LaterStill(shade, |text|, TakenBy(lib, nodes[1..]));
  }

  lemma {:induction false} ResetCarries(lib: Library, nodes: seq<Node>, path: seq<Tag>, brush: Option<Brush>, index: nat,
                                        shade: Shade)
    requires Fits(lib, brush, index, shade)
    requires RenderNodes(lib, nodes, StyleOf(lib, path), brush, index).Done?
    requires nodes != [] && nodes[0].Element? && nodes[0].tag.name == "reset"
    ensures IsAsWanted(lib, RenderNodes(lib, nodes, StyleOf(lib, path), brush, index).value,
                       Wants(lib, nodes, path, shade), brush, Later(shade, TakenBy(lib, nodes)))
    decreases nodes, 1
  {
    NoPath(lib);
    NodesCarry(lib, nodes[1..], [], brush, index, shade);
    var rest := RenderNodes(lib, nodes[1..], PLAIN, brush, index).value.out;
    assert [] + rest == rest;
  }

  lemma {:induction false} ElementFirstCarries(lib: Library, nodes: seq<Node>, path: seq<Tag>, brush: Option<Brush>,
                                               index: nat, shade: Shade)
    requires Fits(lib, brush, index, shade)
    requires RenderNodes(lib, nodes, StyleOf(lib, path), brush, index).Done?
    requires nodes != [] && nodes[0].Element? && nodes[0].tag.name != "reset"
    ensures IsAsWanted(lib, RenderNodes(lib, nodes, StyleOf(lib, path), brush, index).value,
                       Wants(lib, nodes, path, shade), brush, Later(shade, TakenBy(lib, nodes)))
    decreases nodes, 1
  {
    var style, tag, children := StyleOf(lib, path), nodes[0].tag, nodes[0].children;
    TagCarries(lib, tag, children, path, brush, index, shade);
    var r, after := RenderTag(lib, tag, children, style, brush, index).value, Later(shade, Taken(lib, tag, children));
    TagKeepsStyle(lib, tag, children, style, brush, index);
    NodesCarry(lib, nodes[1..], path, brush, r.index, after);
    JoinCarry(lib, r.out, RenderNodes(lib, nodes[1..], style, brush, r.index).value.out,
              WantsOfTag(lib, tag, children, path, shade), Wants(lib, nodes[1..], path, after));
    LaterStill(shade, Taken(lib, tag, children), TakenBy(lib, nodes[1..]));
  }

  lemma LaterStill(shade: Shade, a: nat, b: nat)
    ensures Later(Later(shade, a), b) == Later(shade, a + b)
  {
  }

  lemma TagKeepsStyle(lib: Library, t: Tag, children: seq<Node>, style: Style, brush: Option<Brush>, index: nat)
    requires RenderTag(lib, t, children, style, brush, index).Done?
    ensures RenderTag(lib, t, children, style, brush, index).value.style == style
  {
  }

  lemma JoinCarry(lib: Library, a: seq<Component>, b: seq<Component>, v: seq<Want>, w: seq<Want>)
    requires AllCarry(lib, Pieces(a), v) && AllCarry(lib, Pieces(b), w)
    ensures AllCarry(lib, Pieces(a + b), v + w)
  {
    PiecesAppend(a, b);
    AllCarryAppend(lib, Pieces(a), Pieces(b), v, w);
  }

  // ------------------------------------------------------------------ whole texts

  lemma CompactPieces(out: seq<Component>)
    ensures Pieces([Compact(out)]) == Pieces(out)
  {
    var c := Compact(out);
    assert [c][1..] == [] && Pieces([]) == [] && Runes("", PLAIN) == [];
    if |out| == 1 {
      assert out == [c];
    } else {
      assert Runes("", PLAIN) + Pieces(out) + [] == Pieces(out);
    }
  }

  /** What `Parse` shows: the pieces of its tree in order, each in the style that its tags say. */
  lemma ParseCarries(lib: Library, input: string)
    requires Parse(lib, input).Done?
    ensures AllCarry(lib, Pieces([Parse(lib, input).value]), Wants(lib, ParseTree(lib.lower, input), [], Unpainted))
  {
    var nodes := ParseTree(lib.lower, input);
    NoPath(lib);
    NodesCarry(lib, nodes, [], None, 0, Unpainted);
    CompactPieces(RenderNodes(lib, nodes, PLAIN, None, 0).value.out);
  }
}
