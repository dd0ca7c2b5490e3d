/**
 Which style every rune gets from the renderer of limbo/minimessage/minimessage.go: that of the tags around it, the
 innermost first, read off the tags' texts.
 */
module Styles {
  import opened Wrappers
  import opened Strings
  import opened Scanner
  import opened Parser
  import opened Colors
  import opened Renderer
  import opened Shades

  // ------------------------------------------------------------------ what one tag means

  const BREAKS := {"br", "newline"}
  const PHRASES := {"lang", "tr", "translate", "lang_or", "tr_or", "translate_or"}
  const UNSUPPORTED := {"key", "keybind", "selector", "score", "nbt", "sprite", "head"}
  const BRUSHES := {"gradient", "rainbow", "pride"}

  predicate IsSpecial(base: string) {
    base in BREAKS || base in PHRASES || base in UNSUPPORTED || base in BRUSHES || base == "transition"
  }

  predicate IsNegated(base: string) {
    base != "" && base[0] == '!'
  }

  function Names(d: Decoration): set<string> {
    match d
    case Bold => {"bold", "b"}
    case Italic => {"italic", "em", "i"}
    case Underlined => {"underlined", "underline", "u"}
    case Strikethrough => {"strikethrough", "st"}
    case Obfuscated => {"obfuscated", "obf"}
  }

  /** The colours among the arguments. */
  function ColoursIn(lib: Library, args: seq<string>): seq<Color> {
    if args == [] then []
    else
      var rest := ColoursIn(lib, args[1..]);
      if lib.color(args[0]).Some? then [lib.color(args[0]).value] + rest else rest
  }

  function ColourMeant(lib: Library, t: Tag): Option<Color> {
    var base := TagBase(t.name);
    if base == "transition" then
      var colours := ColoursIn(lib, t.args);
      if colours == [] then None else Some(TransitionColor(colours, t.args, lib.float))
    else if IsSpecial(base) || IsNegated(base) then None
    else if base in {"color", "colour", "c"} then (if t.args == [] then None else lib.color(t.args[0]))
    else lib.color(base)
  }

  /** What the tag says of a decoration: off for `!name` and for a first argument equal to false, else on. */
  function DecorationMeant(lib: Library, t: Tag, d: Decoration): Option<bool> {
    var base := TagBase(t.name);
    if IsNegated(base) then (if base[1..] in Names(d) then Some(false) else None)
    else if IsSpecial(base) || ColourMeant(lib, t).Some? || base !in Names(d) then None
    else Some(t.args == [] || !lib.foldsToFalse(t.args[0]))
  }

  /** The tag carries this name and nothing else was made of it. */
  predicate IsCalled(lib: Library, t: Tag, names: set<string>) {
    TagBase(t.name) in names && ColourMeant(lib, t).None?
  }

  function KeyMeant(lib: Library, value: string): Option<string> {
    lib.key(if ':' in value then value else "minecraft:" + value)
  }

  function FontMeant(lib: Library, t: Tag): Option<string> {
    if IsCalled(lib, t, {"font"}) && t.args != [] then KeyMeant(lib, t.args[0]) else None
  }

  function InsertionMeant(lib: Library, t: Tag): Option<string> {
    if IsCalled(lib, t, {"insert", "insertion"}) && t.args != [] then Some(t.args[0]) else None
  }

  const ACTIONS := {"open_url", "open_file", "run_command", "suggest_command", "change_page", "copy_to_clipboard", "show_dialog"}

  function ClickMeant(lib: Library, t: Tag): Option<Click> {
    if !IsCalled(lib, t, {"click"}) || |t.args| < 2 then None
    else
      var action, value := ToLower(lib.lower, t.args[0]), Join(t.args[1..], ":");
      if action in ACTIONS then Some(Click(action, value))
      else if action == "custom" && SplitArgs(value).Some? && SplitArgs(value).value != [] then
        Some(CustomClick(SplitArgs(value).value[0], SplitArgs(value).value[1..]))
      else None
  }

  /** What parsing a text shows; a panic shows nothing. */
  function ShownBy(lib: Library, text: string): Option<Component> {
    match Parse(lib, text)
    case Done(c) => Some(c)
    case Panicked => None
  }

  function ItemMeant(lib: Library, parts: seq<string>): Option<Hover> {
    if parts == [] || KeyMeant(lib, parts[0]).None? then None
    else
      Some(ShowItem(KeyMeant(lib, parts[0]).value, if |parts| > 1 && lib.atoi(parts[1]).Some? then lib.atoi(parts[1]).value else 1))
  }

  function EntityMeant(lib: Library, parts: seq<string>): Option<Hover> {
    if |parts| < 2 || KeyMeant(lib, parts[0]).None? || lib.uuid(parts[1]).None? then None
    else
      Some(ShowEntity(KeyMeant(lib, parts[0]).value, lib.uuid(parts[1]).value,
                      if |parts| > 2 then ShownBy(lib, parts[2]) else None))
  }

  function HoverMeant(lib: Library, t: Tag): Option<Hover> {
    if !IsCalled(lib, t, {"hover"}) || |t.args| < 2 then None
    else
      var action, value := ToLower(lib.lower, t.args[0]), Join(t.args[1..], ":");
      if action == "show_text" then (match ShownBy(lib, value) case None => None case Some(c) => Some(ShowText(c)))
      else if SplitArgs(value).None? then None
      else if action == "show_item" then ItemMeant(lib, SplitArgs(value).value)
      else if action == "show_entity" then EntityMeant(lib, SplitArgs(value).value)
      else None
  }

  // ------------------------------------------------------------------ what a brush means

  /** The two colours of a gradient that names fewer. */
  const ENDS := [Color(255, 255, 255), Color(85, 255, 255)]

  /** The colour a gradient or rainbow tag has for the rune at `place` of `total`. */
  function BrushColour(lib: Library, t: Tag, total: nat, place: nat): Color
    requires total > 1
  {
    if TagBase(t.name) == "gradient" then
      var named := ColoursIn(lib, t.args);
      var colours := if |named| < 2 then ENDS else named;
      Along(colours, place * (|colours| - 1), total - 1)
    else OnWheel(if exists arg :: arg in t.args && '!' in arg then total - 1 - place else place, total)
  }

  lemma ReversedIff(args: seq<string>)
    ensures (exists i :: 0 <= i < |args| && '!' in args[i]) <==> exists arg :: arg in args && '!' in arg
  {
    if arg :| arg in args && '!' in arg {
      var i :| 0 <= i < |args| && args[i] == arg;
      assert '!' in args[i];
    }
  }

  lemma BrushPaints(lib: Library, t: Tag, total: nat, place: nat)
    requires KindOf(lib, t).Painted? && total > 1
    ensures PaintAt(KindOf(lib, t).paint, place, total) == BrushColour(lib, t, total, place)
  {
    if TagBase(t.name) == "gradient" {
      ColoursAgree(lib, t.args);
      var named := ColoursIn(lib, t.args);
      GradientIsBlended(if |named| < 2 then ENDS else named, place, total);
    } else {
      ReversedIff(t.args);
      RainbowIsWheel(if exists arg :: arg in t.args && '!' in arg then total - 1 - place else place, total);
    }
  }

  // ------------------------------------------------------------------ what a path of tags means

  /** The answer of the tag, or what was answered further out. */
  function Either<T>(own: Option<T>, outer: Option<T>): Option<T> {
    if own.Some? then own else outer
  }

  // Tags are listed from the outermost on; the innermost one that has an answer decides.

  function ColourOf(lib: Library, path: seq<Tag>): Option<Color> {
    if path == [] then None else Either(ColourMeant(lib, path[|path| - 1]), ColourOf(lib, path[..|path| - 1]))
  }

  function DecorationOn(lib: Library, path: seq<Tag>, d: Decoration): Option<bool> {
    if path == [] then None else Either(DecorationMeant(lib, path[|path| - 1], d), DecorationOn(lib, path[..|path| - 1], d))
  }

  function FontOf(lib: Library, path: seq<Tag>): Option<string> {
    if path == [] then None else Either(FontMeant(lib, path[|path| - 1]), FontOf(lib, path[..|path| - 1]))
  }

  function InsertionOf(lib: Library, path: seq<Tag>): Option<string> {
    if path == [] then None else Either(InsertionMeant(lib, path[|path| - 1]), InsertionOf(lib, path[..|path| - 1]))
  }

  function ClickOf(lib: Library, path: seq<Tag>): Option<Click> {
    if path == [] then None else Either(ClickMeant(lib, path[|path| - 1]), ClickOf(lib, path[..|path| - 1]))
  }

  function HoverOn(lib: Library, path: seq<Tag>): Option<Hover> {
    if path == [] then None else Either(HoverMeant(lib, path[|path| - 1]), HoverOn(lib, path[..|path| - 1]))
  }

  const DECORATIONS := {Bold, Italic, Underlined, Strikethrough, Obfuscated}

  function StyleOf(lib: Library, path: seq<Tag>): Style {
    Style(ColourOf(lib, path), map d | d in DECORATIONS && DecorationOn(lib, path, d).Some? :: DecorationOn(lib, path, d).value,
          FontOf(lib, path), InsertionOf(lib, path), ClickOf(lib, path), HoverOn(lib, path))
  }

  // ------------------------------------------------------------------ one tag further in

  /** A style with what one tag says laid over it. */
  function Under(lib: Library, t: Tag, outer: Style): Style {
    Style(Either(ColourMeant(lib, t), outer.color), DecorationsUnder(lib, t, outer.decorations),
          Either(FontMeant(lib, t), outer.font), Either(InsertionMeant(lib, t), outer.insertion),
          Either(ClickMeant(lib, t), outer.click), Either(HoverMeant(lib, t), outer.hover))
  }

  function DecorationsUnder(lib: Library, t: Tag, outer: map<Decoration, bool>): map<Decoration, bool> {
    map d | d in DECORATIONS && (DecorationMeant(lib, t, d).Some? || d in outer) ::
      if DecorationMeant(lib, t, d).Some? then DecorationMeant(lib, t, d).value else outer[d]
  }

  lemma OneTagFurther(lib: Library, path: seq<Tag>, t: Tag)
    ensures StyleOf(lib, path + [t]) == Under(lib, t, StyleOf(lib, path))
  {
    var inner := path + [t];
    assert inner[|inner| - 1] == t && inner[..|inner| - 1] == path;
    assert StyleOf(lib, inner).decorations == DecorationsUnder(lib, t, StyleOf(lib, path).decorations) by {
      forall d: Decoration
        ensures DecorationOn(lib, inner, d) == Either(DecorationMeant(lib, t, d), DecorationOn(lib, path, d))
      {
      }
    }
  }

  lemma IsADecoration(d: Decoration)
    ensures d in DECORATIONS
  {
    match d
    case Bold =>
    case Italic =>
    case Underlined =>
    case Strikethrough =>
    case Obfuscated =>
  }

  lemma DecorationsKept(lib: Library, t: Tag, outer: map<Decoration, bool>)
    requires forall d: Decoration :: DecorationMeant(lib, t, d).None?
    ensures DecorationsUnder(lib, t, outer) == outer
  {
    forall d: Decoration
      ensures d in DECORATIONS
    {
      IsADecoration(d);
    }
  }

  /** Only this decoration is said anything of. */
  lemma DecorationSet(lib: Library, t: Tag, outer: map<Decoration, bool>, d: Decoration, on: bool)
    requires forall e: Decoration :: DecorationMeant(lib, t, e) == if e == d then Some(on) else None
    ensures DecorationsUnder(lib, t, outer) == outer[d := on]
  {
    forall e: Decoration
      ensures e in DECORATIONS
    {
      IsADecoration(e);
    }
  }

  lemma DecorationNamed(name: string, d: Decoration)
    ensures DecorationOf(name) == Some(d) <==> name in Names(d)
  {
  }

  lemma ColoursAgree(lib: Library, args: seq<string>)
    ensures ParseColors(lib, args) == ColoursIn(lib, args)
  {
    if args != [] {
      ColoursAgree(lib, args[1..]);
    }
  }

  lemma TransitionMeans(lib: Library, t: Tag, style: Style)
    requires TagBase(t.name) == "transition"
    ensures TransitionStyle(lib, t, style) == Under(lib, t, style)
  {
    ColoursAgree(lib, t.args);
    DecorationsKept(lib, t, style.decorations);
  }

  lemma BrushMeans(lib: Library, t: Tag, style: Style)
    requires TagBase(t.name) in BRUSHES
    ensures Under(lib, t, style) == style
  {
    DecorationsKept(lib, t, style.decorations);
  }

  // ------------------------------------------------------------------ style tags

  lemma NegationIs(name: string)
    ensures HasPrefix(name, "!") <==> IsNegated(name)
  {
    assert HasPrefix(name, "!") ==> name[..1][0] == '!';
    assert IsNegated(name) ==> name[..1] == "!";
  }

  lemma NamesDiffer(name: string, d: Decoration, e: Decoration)
    requires name in Names(d) && name in Names(e)
    ensures d == e
  {
    DecorationNamed(name, d);
    DecorationNamed(name, e);
  }

  lemma DecorationMeans(lib: Library, t: Tag, name: string, on: bool, d: Decoration)
    requires DecorationOf(name) == Some(d)
    requires forall e: Decoration :: DecorationMeant(lib, t, e) == if name in Names(e) then Some(on) else None
    ensures forall e: Decoration :: DecorationMeant(lib, t, e) == if e == d then Some(on) else None
  {
    forall e: Decoration
      ensures name in Names(e) <==> e == d
    {
      DecorationNamed(name, e);
    }
  }

  lemma NegatedMeans(lib: Library, t: Tag, style: Style, d: Decoration)
    requires IsNegated(TagBase(t.name)) && DecorationOf(TagBase(t.name)[1..]) == Some(d)
    ensures Under(lib, t, style) == style.(decorations := style.decorations[d := false])
  {
    DecorationMeans(lib, t, TagBase(t.name)[1..], false, d);
    DecorationSet(lib, t, style.decorations, d, false);
  }

  lemma ColourMeans(lib: Library, t: Tag, style: Style, c: Color)
    requires KindOf(lib, t).Styled? && !IsNegated(TagBase(t.name)) && ParseColorTag(lib, TagBase(t.name), t.args) == Some(c)
    ensures Under(lib, t, style) == style.(color := Some(c))
  {
    assert ColourMeant(lib, t) == Some(c);
    DecorationsKept(lib, t, style.decorations);
  }

  lemma DecoratedMeans(lib: Library, t: Tag, style: Style, d: Decoration)
    requires KindOf(lib, t).Styled? && !IsNegated(TagBase(t.name)) && ParseColorTag(lib, TagBase(t.name), t.args).None?
    requires DecorationOf(TagBase(t.name)) == Some(d)
    ensures Under(lib, t, style) == style.(decorations := style.decorations[d := !(|t.args| > 0 && lib.foldsToFalse(t.args[0]))])
  {
    var on := !(|t.args| > 0 && lib.foldsToFalse(t.args[0]));
    DecorationMeans(lib, t, TagBase(t.name), on, d);
    DecorationSet(lib, t, style.decorations, d, on);
  }

  /** A style tag that names neither a colour nor a decoration. */
  lemma OtherMeans(lib: Library, t: Tag, style: Style)
    requires KindOf(lib, t).Styled? && !IsNegated(TagBase(t.name)) && ParseColorTag(lib, TagBase(t.name), t.args).None?
    requires DecorationOf(TagBase(t.name)).None?
    ensures ColourMeant(lib, t).None? && DecorationsUnder(lib, t, style.decorations) == style.decorations
  {
    forall d: Decoration
      ensures DecorationMeant(lib, t, d).None?
    {
      DecorationNamed(TagBase(t.name), d);
    }
    DecorationsKept(lib, t, style.decorations);
  }

  lemma ClickMeans(lib: Library, t: Tag)
    requires IsCalled(lib, t, {"click"}) && |t.args| >= 2
    ensures ClickEvent(lib, t.args[0], Join(t.args[1..], ":")) == ClickMeant(lib, t)
  {
  }

  lemma HoverMeans(lib: Library, t: Tag)
    requires IsCalled(lib, t, {"hover"}) && |t.args| >= 2 && HoverOf(lib, t).Done?
    ensures HoverOf(lib, t).value == HoverMeant(lib, t)
  {
  }

  /** What an accepted style tag makes of a style is what its text says. */
  lemma ApplyMeans(lib: Library, t: Tag, style: Style)
    requires KindOf(lib, t).Styled? && ApplyStyleTag(lib, t, style).Done? && ApplyStyleTag(lib, t, style).value.Some?
    ensures ApplyStyleTag(lib, t, style).value.value == Under(lib, t, style)
  {
    var name := TagBase(t.name);
    NegationIs(name);
    if IsNegated(name) {
      NegatedMeans(lib, t, style, DecorationOf(name[1..]).value);
    } else if ParseColorTag(lib, name, t.args).Some? {
      ColourMeans(lib, t, style, ParseColorTag(lib, name, t.args).value);
    } else if DecorationOf(name).Some? {
      DecoratedMeans(lib, t, style, DecorationOf(name).value);
    } else {
      OtherMeans(lib, t, style);
      if name == "click" {
        ClickMeans(lib, t);
      } else if name == "hover" {
        HoverMeans(lib, t);
      }
    }
  }
}
