/**
 The renderer of limbo/minimessage/minimessage.go: from parsed nodes to components, with the
 calls back into the parser that hover texts and translation arguments make.
 Rendering can stop with a run-time panic, so its results are `Outcome`s.
 */
module Renderer {
  import opened Wrappers
  import opened Strings
  import opened Scanner
  import opened Parser
  import opened Colors

  /** The library calls of the source, as functions about which nothing is assumed. */
  datatype Library = Library(
    lower: char -> char,                  // unicode.ToLower
    foldsToFalse: string -> bool,         // strings.EqualFold(_, "false")
    color: string -> Option<Color>,       // parseColor
    key: string -> Option<string>,        // key.Parse
    atoi: string -> Option<int>,          // strconv.Atoi
    uuid: string -> Option<string>,       // uuid.Parse
    float: string -> Option<real>         // strconv.ParseFloat
  )

  datatype Decoration = Bold | Italic | Underlined | Strikethrough | Obfuscated

  datatype Click = Click(action: string, value: string) | CustomClick(id: string, args: seq<string>)

  datatype Hover =
    | ShowText(text: Component)
    | ShowItem(item: string, count: int)
    | ShowEntity(kind: string, id: string, name: Option<Component>)

  datatype Style = Style(color: Option<Color>, decorations: map<Decoration, bool>, font: Option<string>,
                         insertion: Option<string>, click: Option<Click>, hover: Option<Hover>)

  datatype Component =
    | TextComponent(content: string, style: Style, extra: seq<Component>)
    | Translation(key: string, args: seq<Component>, style: Style)

  const PLAIN := Style(None, map[], None, None, None, None)

  /** The fixed part of a `transform`: how many runes were counted, and how to colour them. */
  datatype Brush = Brush(total: nat, paint: Paint)

  /** The components, the style after the last node, and the colour index reached. */
  datatype Rendered = Rendered(out: seq<Component>, style: Style, index: nat)

  function TextWithStyle(value: string, style: Style): Component {
    TextComponent(value, style, [])
  }

  predicate Paints(brush: Option<Brush>) {
    brush.Some? && brush.value.total > 1
  }

  function PaintedStyle(style: Style, brush: Brush, index: nat): Style {
    style.(color := Some(PaintAt(brush.paint, index, brush.total)))
  }

  /** One component for each rune. */
  function PaintRunes(value: string, style: Style, brush: Brush, index: nat): seq<Component> {
    if value == "" then []
    else [TextWithStyle([value[0]], PaintedStyle(style, brush, index))] + PaintRunes(value[1..], style, brush, index + 1)
  }

  function RenderText(value: string, style: Style, brush: Option<Brush>, index: nat): Rendered {
    if value == "" then Rendered([], style, index)
    else if !Paints(brush) then Rendered([TextWithStyle(value, style)], style, index)
    else Rendered(PaintRunes(value, style, brush.value, index), style, index + |value|)
  }

  function VisibleRunes(nodes: seq<Node>): nat
    decreases nodes, 1
  {
    var total := SumVisible(nodes);
    if total == 0 then 1 else total
  }

  function SumVisible(nodes: seq<Node>): nat
    decreases nodes, 0
  {
    if nodes == [] then 0
    else
      (match nodes[0]
       case Text(t) => |t|
       case Element(_, children) => VisibleRunes(children)) + SumVisible(nodes[1..])
  }

  function DecorationOf(name: string): Option<Decoration> {
    if name in {"bold", "b"} then Some(Bold)
    else if name in {"italic", "em", "i"} then Some(Italic)
    else if name in {"underlined", "underline", "u"} then Some(Underlined)
    else if name in {"strikethrough", "st"} then Some(Strikethrough)
    else if name in {"obfuscated", "obf"} then Some(Obfuscated)
    else None
  }

  function ParseColorTag(lib: Library, name: string, args: seq<string>): Option<Color> {
    if name in {"color", "colour", "c"} then
      if |args| == 0 then None else lib.color(args[0])
    else lib.color(name)
  }

  function ParseColors(lib: Library, args: seq<string>): seq<Color> {
    if args == [] then []
    else (match lib.color(args[0]) case Some(c) => [c] case None => []) + ParseColors(lib, args[1..])
  }

  function ParseKey(lib: Library, value: string): Option<string> {
    lib.key(if ':' in value then value else "minecraft:" + value)
  }

  function ClickEvent(lib: Library, action: string, value: string): Option<Click> {
    var name := ToLower(lib.lower, action);
    if name in {"open_url", "open_file", "run_command", "suggest_command", "change_page", "copy_to_clipboard", "show_dialog"} then
      Some(Click(name, value))
    else if name == "custom" then
      var parts :- SplitArgs(value);
      if |parts| == 0 then None else Some(CustomClick(parts[0], parts[1..]))
    else None
  }

  function ShowItemHover(lib: Library, value: string): Option<Hover> {
    var parts :- SplitArgs(value);
    if |parts| == 0 then None
    else
      var item :- ParseKey(lib, parts[0]);
      var count := if |parts| > 1 && lib.atoi(parts[1]).Some? then lib.atoi(parts[1]).value else 1;
      Some(ShowItem(item, count))
  }

  // ------------------------------------------------------------------ the cycle back into the parser

  /** One more than the length of the tag's arguments joined by colons. */
  function TagBudget(t: Tag): nat {
    |Join(t.args, ":")| + 1
  }

  function Larger(a: nat, b: nat): nat {
    if a < b then b else a
  }

  /** The largest budget of the tags of a tree: no text they hand back to the parser is that long. */
  function Budget(nodes: seq<Node>): nat
    decreases nodes
  {
    if nodes == [] then 0
    else
      Larger(match nodes[0]
             case Text(_) => 0
             case Element(tag, children) => Larger(TagBudget(tag), Budget(children)),
             Budget(nodes[1..]))
  }

  lemma {:induction false} BudgetAppend(a: seq<Node>, b: seq<Node>)
    ensures Budget(a + b) == Larger(Budget(a), Budget(b))
    decreases |a|
  {
    if a == [] {
      assert a + b == b;
    } else {
      assert (a + b)[0] == a[0] && (a + b)[1..] == a[1..] + b;
      BudgetAppend(a[1..], b);
    }
  }

  lemma {:induction false} ParsedBudget(lower: char -> char, s: string, closing: string, text: string)
    ensures Budget(ParseFrom(lower, s, closing, text).nodes) <= |s|
    decreases |s|
  {
    match NextMove(lower, s, closing)
    case End =>
    case Close(_) =>
    case Chars(piece, after) => ParsedBudget(lower, after, closing, text + piece);
    case Open(tag, after) =>
      var kids := ParseKids(lower, tag, after);
      if !IsVoid(tag) {
        ParsedBudget(lower, after, TagBase(tag.name), "");
      }
      ParsedBudget(lower, kids.rest, closing, "");
      var more := ParseFrom(lower, kids.rest, closing, "").nodes;
      OpenTagFits(lower, s, closing);
      ElementBudget(text, Element(tag, kids.nodes), more);
  }

  lemma OpenTagFits(lower: char -> char, s: string, closing: string)
    requires NextMove(lower, s, closing).Open?
    ensures TagBudget(NextMove(lower, s, closing).tag) < |s|
  {
    var raw := s[1..][..TagEnd(s[1..])];
    ArgumentsFitInTheTag(lower, raw);
  }

  lemma ElementBudget(text: string, e: Node, more: seq<Node>)
    requires e.Element?
    ensures Budget(Flush(text) + [e] + more)
         == Larger(Larger(TagBudget(e.tag), Budget(e.children)), Budget(more))
  {
    BudgetAppend(Flush(text) + [e], more);
    BudgetAppend(Flush(text), [e]);
    assert [e][1..] == [];
  }

  /** A tree that was parsed hands only shorter texts back to the parser. */
  lemma ParseShrinks(lower: char -> char, input: string)
    ensures Budget(ParseTree(lower, input)) <= |input|
  {
    ParsedBudget(lower, input, "", "");
  }

  lemma JoinedTailFits(t: Tag, k: nat)
    requires k <= |t.args|
    ensures |Join(t.args[k..], ":")| < TagBudget(t)
  {
    JoinTail(t.args, k, ":");
  }

  lemma EntityNameFits(t: Tag)
    requires |t.args| >= 2
    ensures var parts := SplitArgs(Join(t.args[1..], ":"));
            parts.Some? && |parts.value| > 2 ==> |parts.value[2]| < TagBudget(t)
  {
    var value := Join(t.args[1..], ":");
    JoinedTailFits(t, 1);
    if SplitArgs(value).Some? && |SplitArgs(value).value| > 2 {
      SplitLengths(value, Outside, "");
      JoinElement(SplitArgs(value).value, 2, ":");
    }
  }

  function Compact(parts: seq<Component>): Component {
    if |parts| == 0 then TextWithStyle("", PLAIN)
    else if |parts| == 1 then parts[0]
    else TextComponent("", PLAIN, parts)
  }

  /** `Parse`, which never reports an error itself; `ParseOrText` is therefore the same function. */
  function Parse(lib: Library, input: string): Outcome<Component>
    decreases |input|, 2
  {
    ParseShrinks(lib.lower, input);
    var r :- RenderNodes(lib, ParseTree(lib.lower, input), PLAIN, None, 0);
    Done(Compact(r.out))
  }

  function ParseEach(lib: Library, args: seq<string>): Outcome<seq<Component>>
    decreases |Join(args, ":")| + 1, 0, |args|
  {
    if args == [] then Done([])
    else
      JoinElement(args, 0, ":");
      JoinTail(args, 1, ":");
      var first :- Parse(lib, args[0]);
      var rest :- ParseEach(lib, args[1..]);
      Done([first] + rest)
  }

  predicate IsFallbackName(base: string) {
    base in {"lang_or", "tr_or", "translate_or"}
  }

  /** Slicing the arguments from 2 panics when there is only one. */
  function RenderTranslation(lib: Library, t: Tag, style: Style): Outcome<Component>
    decreases TagBudget(t), 0
  {
    if |t.args| == 0 then Done(TextWithStyle("<" + t.literal + ">", style))
    else
      var withStart := if IsFallbackName(TagBase(t.name)) then 2 else 1;
      if withStart > |t.args| then Panicked
      else
        JoinTail(t.args, withStart, ":");
        var with :- ParseEach(lib, t.args[withStart..]);
        Done(Translation(t.args[0], with, style))
  }

  function ShowEntityHover(lib: Library, t: Tag): Outcome<Option<Hover>>
    requires |t.args| >= 2
    decreases TagBudget(t), 0, 0
  {
    var parsed := SplitArgs(Join(t.args[1..], ":"));
    if parsed.None? || |parsed.value| < 2 then Done(None)
    else
      var parts := parsed.value;
      var kind, id := ParseKey(lib, parts[0]), lib.uuid(parts[1]);
      if kind.None? || id.None? then Done(None)
      else if |parts| > 2 then
        EntityNameFits(t);
        var name :- Parse(lib, parts[2]);
        Done(Some(ShowEntity(kind.value, id.value, Some(name))))
      else Done(Some(ShowEntity(kind.value, id.value, None)))
  }

  /** The hover of a `hover` tag; `None` leaves the style as it is. */
  function HoverOf(lib: Library, t: Tag): Outcome<Option<Hover>>
    requires |t.args| >= 2
    decreases TagBudget(t), 0, 1
  {
    var action, value := ToLower(lib.lower, t.args[0]), Join(t.args[1..], ":");
    if action == "show_text" then
      JoinedTailFits(t, 1);
      var text :- Parse(lib, value);
      Done(Some(ShowText(text)))
    else if action == "show_item" then Done(ShowItemHover(lib, value))
    else if action == "show_entity" then ShowEntityHover(lib, t)
    else Done(None)
  }

  /** `applyStyleTag`: `None` where the source answers "not a style tag". */
  function ApplyStyleTag(lib: Library, t: Tag, style: Style): Outcome<Option<Style>>
    decreases TagBudget(t), 0, 2
  {
    var name := TagBase(t.name);
    if HasPrefix(name, "!") then
      match DecorationOf(name[1..])
      case None => Done(None)
      case Some(d) => Done(Some(style.(decorations := style.decorations[d := false])))
    else if ParseColorTag(lib, name, t.args).Some? then
      Done(Some(style.(color := ParseColorTag(lib, name, t.args))))
    else if DecorationOf(name).Some? then
      var state := !(|t.args| > 0 && lib.foldsToFalse(t.args[0]));
      Done(Some(style.(decorations := style.decorations[DecorationOf(name).value := state])))
    else if name == "font" then
      if |t.args| == 0 || ParseKey(lib, t.args[0]).None? then Done(None)
      else Done(Some(style.(font := ParseKey(lib, t.args[0]))))
    else if name == "insert" || name == "insertion" then
      if |t.args| == 0 then Done(None) else Done(Some(style.(insertion := Some(t.args[0]))))
    else if name == "click" then
      if |t.args| < 2 then Done(None)
      else
        var click := ClickEvent(lib, t.args[0], Join(t.args[1..], ":"));
        Done(Some(if click.Some? then style.(click := click) else style))
    else if name == "hover" then
      if |t.args| < 2 then Done(None)
      else
        var hover :- HoverOf(lib, t);
        Done(Some(if hover.Some? then style.(hover := hover) else style))
    else Done(None)
  }

  /** The cases of `renderTag` that do not depend on the children's style. */
  datatype TagKind =
    | LineBreak
    | Translated
    | AlwaysLiteral
    | Painted(paint: Paint)      // gradient, rainbow: a fresh transform for the children
    | Transitioned
    | Styled                     // whatever `applyStyleTag` makes of it

  function GradientColors(lib: Library, args: seq<string>): seq<Color> {
    var colors := ParseColors(lib, args);
    if |colors| < 2 then [WHITE, AQUA] else colors
  }

  function KindOf(lib: Library, t: Tag): TagKind {
    var name := TagBase(t.name);
    if name in {"br", "newline"} then LineBreak
    else if name in {"lang", "tr", "translate", "lang_or", "tr_or", "translate_or"} then Translated
    else if name in {"key", "keybind", "selector", "score", "nbt", "sprite", "head"} then AlwaysLiteral
    else if name == "gradient" then Painted(Gradient(GradientColors(lib, t.args)))
    else if name == "transition" then Transitioned
    else if name in {"rainbow", "pride"} then Painted(Rainbow(exists i :: 0 <= i < |t.args| && '!' in t.args[i]))
    else Styled
  }

  function TransitionStyle(lib: Library, t: Tag, style: Style): Style {
    var colors := ParseColors(lib, t.args);
    if |colors| == 0 then style else style.(color := Some(TransitionColor(colors, t.args, lib.float)))
  }

  /** The components of a tag and the colour index after it. */
  function RenderTag(lib: Library, t: Tag, children: seq<Node>, style: Style, brush: Option<Brush>, index: nat)
    : Outcome<Rendered>
    decreases Larger(TagBudget(t), Budget(children)), 1, children, 1
  {
    match KindOf(lib, t)
    case LineBreak => Done(RenderText("\n", style, brush, index))
    case Translated =>
      var c :- RenderTranslation(lib, t, style);
      Done(Rendered([c], style, index))
    case AlwaysLiteral => Done(RenderText("<" + t.literal + ">", style, brush, index))
    case Painted(paint) =>
      var r :- RenderNodes(lib, children, style, Some(Brush(VisibleRunes(children), paint)), 0);
      Done(Rendered(r.out, style, index))
    case Transitioned =>
      var r :- RenderNodes(lib, children, TransitionStyle(lib, t, style), brush, index);
      Done(Rendered(r.out, style, r.index))
    case Styled =>
      var applied :- ApplyStyleTag(lib, t, style);
      match applied
      case None => Done(RenderText("<" + t.literal + ">", style, brush, index))
      case Some(next) =>
        var r :- RenderNodes(lib, children, next, brush, index);
        Done(Rendered(r.out, style, r.index))
  }

  /** `renderNodes`: `reset` changes only the style, every other node only adds components. */
  function RenderNodes(lib: Library, nodes: seq<Node>, style: Style, brush: Option<Brush>, index: nat): Outcome<Rendered>
    decreases Budget(nodes), 1, nodes, 0
  {
    if nodes == [] then Done(Rendered([], style, index))
    else
      var first :-
        match nodes[0]
        case Text(t) => Done(RenderText(t, style, brush, index))
        case Element(tag, children) =>
          if tag.name == "reset" then Done(Rendered([], PLAIN, index))
          else RenderTag(lib, tag, children, style, brush, index);
      var rest :- RenderNodes(lib, nodes[1..], first.style, brush, first.index);
      Done(Rendered(first.out + rest.out, rest.style, rest.index))
  }

  /** `ParseMiniMessage` of limbo/text.go recovers a panic and returns it as an error. */
  function ParseMiniMessage(lib: Library, input: string): Option<Component> {
    match Parse(lib, input)
    case Done(c) => Some(c)
    case Panicked => None
  }
}
