/**
 The recursive-descent parser of limbo/minimessage/minimessage.go.
 `lower` stands for `unicode.ToLower`; `strings.ToLower` applies it to every code point.
 */
module Parser {
  import opened Wrappers
  import opened Strings
  import opened Scanner

  datatype Tag = Tag(name: string, args: seq<string>, literal: string)

  datatype Node = Text(text: string) | Element(tag: Tag, children: seq<Node>)

  /** A successful `parseTag`. */
  datatype TagResult = TagResult(tag: Tag, closeTag: bool)

  /** What `parseNodes` returns: the nodes and the input still to read. */
  datatype Parsed = Parsed(nodes: seq<Node>, rest: string)

  function ToLower(lower: char -> char, s: string): (r: string)
    ensures |r| == |s|
    ensures forall i :: 0 <= i < |s| ==> r[i] == lower(s[i])
  {
    seq(|s|, i requires 0 <= i < |s| => lower(s[i]))
  }

  /** The text before the first colon. */
  function TagBase(name: string): string {
    if name == "" || name[0] == ':' then "" else [name[0]] + TagBase(name[1..])
  }

  predicate IsSelfClosing(name: string) {
    TagBase(name) in {
      "reset", "br", "newline", "lang", "tr", "translate", "lang_or", "tr_or", "translate_or",
      "key", "keybind", "selector", "score", "nbt", "sprite", "head"
    }
  }

  /** The tag's text without white space and without the slash of `<tag/>`. */
  function WithoutSuffixSlash(raw: string): string {
    var trimmed := TrimSpace(raw);
    if HasSuffix(trimmed, "/") then TrimSpace(TrimSuffix(trimmed, "/")) else trimmed
  }

  function IsCloseTag(raw: string): bool {
    HasPrefix(WithoutSuffixSlash(raw), "/")
  }

  /** The text handed to `splitArgs`. */
  function TagContents(raw: string): string {
    var body := WithoutSuffixSlash(raw);
    if HasPrefix(body, "/") then TrimSpace(TrimPrefix(body, "/")) else body
  }

  /** `parseTag`: `None` where the source answers "not a tag". */
  function ParseTag(lower: char -> char, raw: string): Option<TagResult> {
    if TrimSpace(raw) == "" then None
    else
      match SplitArgs(TagContents(raw))
      case None => None
      case Some(parts) =>
        if |parts| == 0 || parts[0] == "" then None
        else Some(TagResult(Tag(ToLower(lower, parts[0]), parts[1..], raw), IsCloseTag(raw)))
  }

  /** Tags that take no children: by name, or because the tag ends in a slash. */
  predicate IsVoid(tag: Tag) {
    IsSelfClosing(tag.name) || HasSuffix(TrimSpace(tag.literal), "/")
  }

  function Flush(text: string): seq<Node> {
    if text == "" then [] else [Text(text)]
  }

  function Prepend(nodes: seq<Node>, p: Parsed): Parsed {
    Parsed(nodes + p.nodes, p.rest)
  }

  /** What one turn of the parser's loop does with the input still to read. */
  datatype Move =
    | End
    | Chars(piece: string, after: string)  // `piece` goes into the text builder
    | Close(after: string)                 // the closing tag this list waits for
    | Open(tag: Tag, after: string)

  function NextMove(lower: char -> char, s: string, closing: string): (m: Move)
    ensures s != "" ==> !m.End? && |m.after| < |s|
  {
    if s == "" then End
    else if s[0] == '\\' then
      if |s| > 1 && (s[1] == '<' || s[1] == '\\') then Chars([s[1]], s[2..]) else Chars([s[0]], s[1..])
    else if s[0] != '<' then Chars([s[0]], s[1..])
    else
      var end := TagEnd(s[1..]);
      if end < 0 then Chars([s[0]], s[1..])
      else
        var raw, after := s[1..][..end], s[end + 2..];
        match ParseTag(lower, raw)
        case None => Chars("<" + raw + ">", after)
        case Some(TagResult(tag, true)) =>
          if closing != "" && TagBase(tag.name) == closing then Close(after) else Chars("<" + raw + ">", after)
        case Some(TagResult(tag, false)) => Open(tag, after)
  }

  /** `parseNodes` on the input still to read, with `text` already in its builder. */
  function ParseFrom(lower: char -> char, s: string, closing: string, text: string): (r: Parsed)
    ensures |r.rest| <= |s|
    decreases |s|
  {
    match NextMove(lower, s, closing)
    case End => Parsed(Flush(text), "")
    case Chars(piece, after) => ParseFrom(lower, after, closing, text + piece)
    case Close(after) => Parsed(Flush(text), after)
    case Open(tag, after) =>
      var kids := ParseKids(lower, tag, after);
      Prepend(Flush(text) + [Element(tag, kids.nodes)], ParseFrom(lower, kids.rest, closing, ""))
  }

  /** The children of an opening tag: none for a void tag, else a list that waits for its base name. */
  function ParseKids(lower: char -> char, tag: Tag, after: string): (r: Parsed)
    ensures |r.rest| <= |after|
    decreases |after| + 1
  {
    if IsVoid(tag) then Parsed([], after) else ParseFrom(lower, after, TagBase(tag.name), "")
  }

  /** The tree that `Parse` renders. */
  function ParseTree(lower: char -> char, input: string): seq<Node> {
    ParseFrom(lower, input, "", "").nodes
  }

  // ------------------------------------------------------------------ the loop

  lemma MoveIsSuffix(lower: char -> char, s: string, closing: string)
    requires s != ""
    ensures IsSuffix(NextMove(lower, s, closing).after, s)
  {
  }

  predicate IsSuffix(r: string, s: string) {
    |r| <= |s| && r == s[|s| - |r|..]
  }

  lemma SuffixOfSuffix(r: string, m: string, s: string)
    requires IsSuffix(r, m) && IsSuffix(m, s)
    ensures IsSuffix(r, s)
  {
    assert s[|s| - |m|..][|m| - |r|..] == s[|s| - |r|..];
  }

  lemma {:induction false} RestIsSuffix(lower: char -> char, s: string, closing: string, text: string)
    ensures IsSuffix(ParseFrom(lower, s, closing, text).rest, s)
    decreases |s|
  {
    if s != "" {
      MoveIsSuffix(lower, s, closing);
    }
    match NextMove(lower, s, closing)
    case End =>
    case Chars(piece, after) =>
      RestIsSuffix(lower, after, closing, text + piece);
      SuffixOfSuffix(ParseFrom(lower, after, closing, text + piece).rest, after, s);
    case Close(after) =>
    case Open(tag, after) =>
      var kids := ParseKids(lower, tag, after);
      if !IsVoid(tag) {
        RestIsSuffix(lower, after, TagBase(tag.name), "");
        SuffixOfSuffix(kids.rest, after, s);
      }
      RestIsSuffix(lower, kids.rest, closing, "");
      SuffixOfSuffix(ParseFrom(lower, kids.rest, closing, "").rest, kids.rest, s);
  }

  /** A list of nodes that is only closed by the end of the input reads all of it. */
  lemma {:induction false} TopLevelReadsEverything(lower: char -> char, s: string, text: string)
    ensures ParseFrom(lower, s, "", text).rest == ""
    decreases |s|
  {
    match NextMove(lower, s, "")
    case End =>
    case Chars(piece, after) => TopLevelReadsEverything(lower, after, text + piece);
    case Open(tag, after) => TopLevelReadsEverything(lower, ParseKids(lower, tag, after).rest, "");
  }

  /** The move at a position of the whole input, outside tags. */
  lemma CharMoveAt(lower: char -> char, input: string, pos: nat, closing: string)
    requires pos < |input|
    ensures var m := NextMove(lower, input[pos..], closing); var c := input[pos];
            && (c == '\\' && pos + 1 < |input| && input[pos + 1] in {'<', '\\'} ==>
                  m == Chars([input[pos + 1]], input[pos + 2..]))
            && (c == '\\' && !(pos + 1 < |input| && input[pos + 1] in {'<', '\\'}) ==> m == Chars([c], input[pos + 1..]))
            && (c != '\\' && c != '<' ==> m == Chars([c], input[pos + 1..]))
            && (c == '<' && TagEnd(input[pos + 1..]) < 0 ==> m == Chars([c], input[pos + 1..]))
  {
    var s := input[pos..];
    assert s[1..] == input[pos + 1..];
    if |s| > 1 {
      assert s[2..] == input[pos + 2..];
    }
  }

  /** The move at the start of a tag that ends at `end`. */
  lemma TagMoveAt(lower: char -> char, input: string, pos: nat, end: nat, closing: string)
    requires pos < end && pos < |input| && input[pos] == '<' && end - pos - 1 == TagEnd(input[pos + 1..])
    ensures end < |input|
    ensures var parsed, after := ParseTag(lower, input[pos + 1..end]), input[end + 1..];
            var closes := parsed.Some? && parsed.value.closeTag;
            var matches := closes && closing != "" && TagBase(parsed.value.tag.name) == closing;
            var m := NextMove(lower, input[pos..], closing);
            && (parsed.None? || (closes && !matches) ==> m == Chars(input[pos..end + 1], after))
            && (matches ==> m == Close(after))
            && (parsed.Some? && !closes ==> m == Open(parsed.value.tag, after))
  {
    var s := input[pos..];
    assert s[1..] == input[pos + 1..];
    TagEndIsFirst(s[1..], Outside);
    var k := end - pos - 1;
    assert s[1..][..k] == input[pos + 1..end] && s[k + 2..] == input[end + 1..];
    assert "<" + input[pos + 1..end] + ">" == input[pos..end + 1];
  }

  lemma CharTurn(lower: char -> char, s: string, closing: string, text: string, piece: string, after: string)
    requires NextMove(lower, s, closing) == Chars(piece, after)
    ensures ParseFrom(lower, s, closing, text) == ParseFrom(lower, after, closing, text + piece)
  {
  }

  lemma OpenTurn(lower: char -> char, s: string, closing: string, text: string, tag: Tag, after: string,
                 kids: Parsed, before: seq<Node>)
    requires NextMove(lower, s, closing) == Open(tag, after) && kids == ParseKids(lower, tag, after)
    ensures Prepend(before, ParseFrom(lower, s, closing, text))
         == Prepend(before + Flush(text) + [Element(tag, kids.nodes)], ParseFrom(lower, kids.rest, closing, ""))
  {
    var tail := ParseFrom(lower, kids.rest, closing, "");
    var e := Element(tag, kids.nodes);
    assert before + (Flush(text) + [e] + tail.nodes) == before + Flush(text) + [e] + tail.nodes;
  }

  /** One turn of the source's loop up to its effect on the text builder and the node list. */
  method ReadMove(lower: char -> char, input: string, pos: nat, closing: string) returns (m: Move, next: nat)
    requires pos < |input|
    ensures pos < next <= |input|
    ensures m == NextMove(lower, input[pos..], closing) && m.after == input[next..]
  {
    CharMoveAt(lower, input, pos, closing);
    var c := input[pos];
    if c == '\\' {
      if pos + 1 < |input| && (input[pos + 1] == '<' || input[pos + 1] == '\\') {
        return Chars([input[pos + 1]], input[pos + 2..]), pos + 2;
      }
      return Chars([c], input[pos + 1..]), pos + 1;
    }
    if c != '<' {
      return Chars([c], input[pos + 1..]), pos + 1;
    }
    var end := FindTagEnd(input, pos + 1);
    if end < 0 {
      return Chars([c], input[pos + 1..]), pos + 1;
    }
    TagMoveAt(lower, input, pos, end, closing);
    next := end + 1;
    var parsed := ParseTag(lower, input[pos + 1..end]);
    if parsed.None? {
      m := Chars(input[pos..next], input[next..]);
    } else if parsed.value.closeTag {
      if closing != "" && TagBase(parsed.value.tag.name) == closing {
        m := Close(input[next..]);
      } else {
        m := Chars(input[pos..next], input[next..]);
      }
    } else {
      m := Open(parsed.value.tag, input[next..]);
    }
  }

  /** The source's loop; it returns the position it stopped at. */
  method ParseNodes(lower: char -> char, input: string, start: nat, closing: string)
    returns (out: seq<Node>, next: nat)
    requires start <= |input|
    ensures start <= next <= |input|
    ensures ParseFrom(lower, input[start..], closing, "") == Parsed(out, input[next..])
    decreases |input| - start, 0
  {
    var pos := start;
    var text := "";
    out := [];
    ghost var goal := ParseFrom(lower, input[start..], closing, "");
    assert goal == Prepend([], goal);
    while pos < |input|
      invariant start <= pos <= |input|
      invariant goal == Prepend(out, ParseFrom(lower, input[pos..], closing, text))
    {
      var m, after := ReadMove(lower, input, pos, closing);
      match m
      case Chars(piece, _) =>
        text := text + piece;
        pos := after;
      case Close(_) =>
        return out + Flush(text), after;
      case Open(tag, _) =>
        var children, rest := ParseChildren(lower, input, after, tag);
        OpenTurn(lower, input[pos..], closing, text, tag, input[after..], Parsed(children, input[rest..]), out);
        out := out + Flush(text) + [Element(tag, children)];
        text := "";
        pos := rest;
    }
    assert input[pos..] == "";
    out := out + Flush(text);
    next := pos;
  }

  /** The part of the loop that reads a tag's children, which void tags do not have. */
  method ParseChildren(lower: char -> char, input: string, start: nat, tag: Tag)
    returns (children: seq<Node>, next: nat)
    requires start <= |input|
    ensures start <= next <= |input|
    ensures ParseKids(lower, tag, input[start..]) == Parsed(children, input[next..])
    decreases |input| - start, 1
  {
    if IsVoid(tag) {
      return [], start;
    }
    children, next := ParseNodes(lower, input, start, TagBase(tag.name));
  }

  // ------------------------------------------------------------------ scanner agreement

  lemma TrimFrame(s: string) returns (pre: string, post: string)
    ensures s == pre + TrimSpace(s) + post && AllNeutral(pre) && AllNeutral(post)
  {
    pre, post := TrimSpaceSplits(s);
    forall i | 0 <= i < |pre| ensures Neutral(pre[i]) {
    }
    forall i | 0 <= i < |post| ensures Neutral(post[i]) {
    }
  }

  lemma SuffixFrame(raw: string) returns (pre: string, post: string)
    ensures raw == pre + WithoutSuffixSlash(raw) + post && AllNeutral(pre) && AllNeutral(post)
  {
    var trimmed := TrimSpace(raw);
    pre, post := TrimFrame(raw);
    if HasSuffix(trimmed, "/") {
      var cut := TrimSuffix(trimmed, "/");
      var a, b := TrimFrame(cut);
      assert trimmed == a + TrimSpace(cut) + b + "/";
      pre, post := pre + a, b + "/" + post;
    }
  }

  lemma ContentsAreFramedByNeutrals(raw: string) returns (pre: string, post: string)
    ensures raw == pre + TagContents(raw) + post && AllNeutral(pre) && AllNeutral(post)
  {
    pre, post := SuffixFrame(raw);
    var a, b := PrefixFrame(WithoutSuffixSlash(raw));
    Nest(pre, a, TagContents(raw), b, post);
    pre, post := pre + a, b + post;
  }

  lemma PrefixFrame(body: string) returns (pre: string, post: string)
    ensures var inner := if HasPrefix(body, "/") then TrimSpace(TrimPrefix(body, "/")) else body;
            body == pre + inner + post && AllNeutral(pre) && AllNeutral(post)
  {
    pre, post := "", "";
    if HasPrefix(body, "/") {
      var cut := TrimPrefix(body, "/");
      var a, b := TrimFrame(cut);
      assert body == "/" + cut;
      Nest("/", a, TrimSpace(cut), b, "");
      pre, post := "/" + a, b;
    }
  }

  lemma Nest(p: string, a: string, s: string, b: string, q: string)
    ensures p + (a + s + b) + q == (p + a) + s + (b + q)
  {
  }

  /** Whenever `findTagEnd` finds an end, `splitArgs` succeeds on that tag's contents. */
  lemma ScannersAgree(s: string)
    requires TagEnd(s) >= 0
    ensures SplitArgs(TagContents(s[..TagEnd(s)])).Some?
  {
    var raw := s[..TagEnd(s)];
    TagEndIsFirst(s, Outside);
    var pre, post := ContentsAreFramedByNeutrals(raw);
    NeutralEnds(pre, TagContents(raw), post);
    SplitFailsIffInsideQuote(TagContents(raw), Outside, "");
  }

  /** The arguments of a tag, joined again, are shorter than the tag they came from. */
  lemma ArgumentsFitInTheTag(lower: char -> char, raw: string)
    requires ParseTag(lower, raw).Some?
    ensures ParseTag(lower, raw).value.tag.literal == raw
    ensures |Join(ParseTag(lower, raw).value.tag.args, ":")| < |raw|
  {
    var contents := TagContents(raw);
    var parts := SplitArgs(contents).value;
    var pre, post := ContentsAreFramedByNeutrals(raw);
    SplitLengths(contents, Outside, "");
    if |parts| == 1 {
      assert Join(parts[1..], ":") == "";
    }
  }

  // ------------------------------------------------------------------ lossless parsing

  /** `raw` spells `text`: it is `text` with some `<` and backslashes preceded by a backslash. */
  ghost predicate SpellsText(text: string, raw: string)
    decreases |text|
  {
    if text == "" then raw == ""
    else
      || (raw != "" && raw[0] == text[0] && SpellsText(text[1..], raw[1..]))
      || (|raw| > 1 && raw[0] == '\\' && raw[1] == text[0] && text[0] in {'<', '\\'} && SpellsText(text[1..], raw[2..]))
  }

  /** `raw` is a closing tag for the base name `closing`. */
  ghost predicate IsClosingTag(lower: char -> char, raw: string, closing: string) {
    && closing != "" && |raw| >= 2 && raw[0] == '<' && raw[|raw| - 1] == '>'
    && var parsed := ParseTag(lower, raw[1..|raw| - 1]);
       parsed.Some? && parsed.value.closeTag && TagBase(parsed.value.tag.name) == closing
  }

  /** `close` ends a list that waits for `closing`: a matching tag, or nothing at the end of the input. */
  ghost predicate Closes(lower: char -> char, close: string, closing: string, rest: string) {
    IsClosingTag(lower, close, closing) || (close == "" && rest == "")
  }

  ghost predicate SpellsElement(lower: char -> char, e: Node, body: string, close: string, rest: string)
    decreases e, 0
  {
    && e.Element?
    && ParseTag(lower, e.tag.literal) == Some(TagResult(e.tag, false))
    && Spells(lower, e.children, body)
    && if IsVoid(e.tag) then e.children == [] && close == "" else Closes(lower, close, TagBase(e.tag.name), rest)
  }

  /** Reading the nodes in tree order gives exactly `s`. */
  ghost predicate Spells(lower: char -> char, nodes: seq<Node>, s: string)
    decreases nodes, 1
  {
    if nodes == [] then s == ""
    else
      match nodes[0]
      case Text(t) =>
        exists raw: string, rest: string ::
          s == raw + rest && SpellsText(t, raw) && Spells(lower, nodes[1..], rest)
      case Element(tag, _) =>
        exists body: string, close: string, rest: string ::
          && s == "<" + tag.literal + ">" + body + close + rest
          && SpellsElement(lower, nodes[0], body, close, rest)
          && Spells(lower, nodes[1..], rest)
  }

  lemma {:induction false} SpellsTextAppend(a: string, x: string, b: string, y: string)
    requires SpellsText(a, x) && SpellsText(b, y)
    ensures SpellsText(a + b, x + y)
    decreases |a|
  {
    if a == "" {
      assert a + b == b && x + y == y;
    } else {
      assert (a + b)[1..] == a[1..] + b;
      if x[0] == a[0] && SpellsText(a[1..], x[1..]) {
        SpellsTextAppend(a[1..], x[1..], b, y);
        assert (x + y)[1..] == x[1..] + y;
      } else {
        SpellsTextAppend(a[1..], x[2..], b, y);
        assert (x + y)[2..] == x[2..] + y;
      }
    }
  }

  lemma {:induction false} SpellsItself(t: string)
    ensures SpellsText(t, t)
    decreases |t|
  {
    if t != "" {
      SpellsItself(t[1..]);
    }
  }

  /** Without backslashes a text spells only itself. */
  lemma {:induction false} PlainSpelling(text: string, raw: string)
    requires '\\' !in raw
    ensures SpellsText(text, raw) <==> text == raw
    decreases |text|
  {
    if text != "" && raw != "" {
      PlainSpelling(text[1..], raw[1..]);
      assert text == [text[0]] + text[1..] && raw == [raw[0]] + raw[1..];
    }
  }

  lemma SpellsFlushed(lower: char -> char, text: string, raw: string, nodes: seq<Node>, s: string)
    requires SpellsText(text, raw) && Spells(lower, nodes, s)
    ensures Spells(lower, Flush(text) + nodes, raw + s)
  {
    if text == "" {
      assert Flush(text) + nodes == nodes && raw + s == s;
    } else {
      SpellsTextFirst(lower, text, raw, nodes, s);
    }
  }

  lemma SpellsTextFirst(lower: char -> char, text: string, raw: string, nodes: seq<Node>, s: string)
    requires SpellsText(text, raw) && Spells(lower, nodes, s)
    ensures Spells(lower, [Text(text)] + nodes, raw + s)
  {
    assert ([Text(text)] + nodes)[1..] == nodes;
  }

  lemma SpellsCons(lower: char -> char, e: Node, body: string, close: string, more: seq<Node>, rest: string)
    requires SpellsElement(lower, e, body, close, rest) && Spells(lower, more, rest)
    ensures Spells(lower, [e] + more, "<" + e.tag.literal + ">" + body + close + rest)
  {
    assert ([e] + more)[0] == e && ([e] + more)[1..] == more;
  }

  lemma TagMoveReads(lower: char -> char, s: string, closing: string)
    requires s != "" && s[0] == '<' && TagEnd(s[1..]) >= 0
    ensures var m := NextMove(lower, s, closing); var raw := s[..TagEnd(s[1..]) + 2];
            && s == raw + m.after
            && (m.Chars? ==> m.piece == raw)
            && (m.Close? ==> IsClosingTag(lower, raw, closing))
            && (m.Open? ==> raw == "<" + m.tag.literal + ">")
            && (m.Open? ==> ParseTag(lower, m.tag.literal) == Some(TagResult(m.tag, false)))
  {
    TagText(s);
  }

  lemma TagText(s: string)
    requires s != "" && s[0] == '<' && TagEnd(s[1..]) >= 0
    ensures var end := TagEnd(s[1..]); var contents := s[1..][..end]; var raw := s[..end + 2];
            && raw == "<" + contents + ">" && s == raw + s[end + 2..]
            && raw[0] == '<' && raw[|raw| - 1] == '>' && raw[1..|raw| - 1] == contents
  {
    var end := TagEnd(s[1..]);
    TagEndIsFirst(s[1..], Outside);
    assert s[end + 1] == '>';
  }

  /** What a move reads: a spelling of its piece, the awaited closing tag, or `<literal>`. */
  lemma MoveReads(lower: char -> char, s: string, closing: string) returns (raw: string)
    requires s != ""
    ensures var m := NextMove(lower, s, closing);
            && s == raw + m.after && raw != ""
            && (m.Chars? ==> SpellsText(m.piece, raw))
            && (m.Close? ==> IsClosingTag(lower, raw, closing))
            && (m.Open? ==> raw == "<" + m.tag.literal + ">")
            && (m.Open? ==> ParseTag(lower, m.tag.literal) == Some(TagResult(m.tag, false)))
  {
    if s[0] == '<' && TagEnd(s[1..]) >= 0 {
      TagMoveReads(lower, s, closing);
      raw := s[..TagEnd(s[1..]) + 2];
      SpellsItself(raw);
    } else {
      raw := s[..|s| - |NextMove(lower, s, closing).after|];
      SpellsItself([s[0]]);
    }
  }

  /** A parsed list, with `pending` in the builder at its start, reads `s` as a body, a closing tag and a rest. */
  ghost predicate Reads(lower: char -> char, r: Parsed, closing: string, s: string, pending: string,
                        body: string, close: string) {
    && s == body + close + r.rest
    && Spells(lower, r.nodes, pending + body)
    && Closes(lower, close, closing, r.rest)
  }

  lemma ReadsMore(lower: char -> char, r: Parsed, closing: string, raw: string, after: string, pending: string,
                  body: string, close: string)
    requires Reads(lower, r, closing, after, pending + raw, body, close)
    ensures Reads(lower, r, closing, raw + after, pending, raw + body, close)
  {
    Associate(pending, raw, body);
    Associate(raw, body, close);
    Associate(raw, body + close, r.rest);
  }

  /**
   Lossless parsing, for every input: the nodes spell what was read. `pending` is the input text
   already in the builder; the input splits into a body, a closing tag and the unread rest.
   */
  lemma {:induction false} Lossless(lower: char -> char, s: string, closing: string, text: string, pending: string)
    returns (body: string, close: string)
    requires SpellsText(text, pending)
    ensures Reads(lower, ParseFrom(lower, s, closing, text), closing, s, pending, body, close)
    decreases |s|
  {
    body, close := "", "";
    if s == "" {
      LosslessFlush(lower, text, pending);
    } else {
      var raw := MoveReads(lower, s, closing);
      match NextMove(lower, s, closing)
      case Chars(piece, after) =>
        SpellsTextAppend(text, pending, piece, raw);
        body, close := Lossless(lower, after, closing, text + piece, pending + raw);
        ReadsMore(lower, ParseFrom(lower, s, closing, text), closing, raw, after, pending, body, close);
        body := raw + body;
      case Close(after) =>
        LosslessFlush(lower, text, pending);
        close := raw;
      case Open(tag, after) =>
        var inner, innerClose := "", "";
        var kids := ParseKids(lower, tag, after);
        if !IsVoid(tag) {
          inner, innerClose := Lossless(lower, after, TagBase(tag.name), "", "");
        }
        var b, c := Lossless(lower, kids.rest, closing, "", "");
        KidsSpelled(lower, tag, after, closing, inner, innerClose, b, c);
        body := LosslessElement(lower, Element(tag, kids.nodes), inner, innerClose, kids.rest,
                                ParseFrom(lower, kids.rest, closing, ""), closing, text, pending, b, c);
        close := c;
        assert s == "<" + tag.literal + ">" + (inner + innerClose + kids.rest);
    }
  }

  lemma KidsSpelled(lower: char -> char, tag: Tag, after: string, closing: string,
                    inner: string, innerClose: string, b: string, close: string)
    requires ParseTag(lower, tag.literal) == Some(TagResult(tag, false))
    requires var kids := ParseKids(lower, tag, after);
             && (if IsVoid(tag) then inner == "" && innerClose == ""
                 else Reads(lower, kids, TagBase(tag.name), after, "", inner, innerClose))
             && Reads(lower, ParseFrom(lower, kids.rest, closing, ""), closing, kids.rest, "", b, close)
    ensures var kids := ParseKids(lower, tag, after);
            && after == inner + innerClose + kids.rest
            && SpellsElement(lower, Element(tag, kids.nodes), inner, innerClose, b)
  {
    assert "" + inner == inner;
  }

  lemma LosslessFlush(lower: char -> char, text: string, pending: string)
    requires SpellsText(text, pending)
    ensures Spells(lower, Flush(text), pending + "")
  {
    SpellsFlushed(lower, text, pending, [], "");
    assert Flush(text) + [] == Flush(text);
  }

  /** The step of `Lossless` for an opening tag, once its children and the rest of the list are known. */
  lemma LosslessElement(lower: char -> char, e: Node, inner: string, innerClose: string, after: string, more: Parsed,
                        closing: string, text: string, pending: string, b: string, close: string)
    returns (body: string)
    requires e.Element? && SpellsText(text, pending)
    requires SpellsElement(lower, e, inner, innerClose, b)
    requires Reads(lower, more, closing, after, "", b, close)
    ensures Reads(lower, Prepend(Flush(text) + [e], more), closing,
                  "<" + e.tag.literal + ">" + (inner + innerClose + after), pending, body, close)
  {
    body := "<" + e.tag.literal + ">" + inner + innerClose + b;
    assert "" + b == b;
    SpellsOpen(lower, text, pending, e, inner, innerClose, more.nodes, b);
    Regroup("<" + e.tag.literal + ">", inner, innerClose, b, close, more.rest);
  }

  lemma SpellsOpen(lower: char -> char, text: string, pending: string, e: Node, body: string, close: string,
                   more: seq<Node>, rest: string)
    requires SpellsText(text, pending) && SpellsElement(lower, e, body, close, rest) && Spells(lower, more, rest)
    ensures Spells(lower, Flush(text) + [e] + more, pending + ("<" + e.tag.literal + ">" + body + close + rest))
  {
    SpellsCons(lower, e, body, close, more, rest);
    SpellsFlushed(lower, text, pending, [e] + more, "<" + e.tag.literal + ">" + body + close + rest);
    assert Flush(text) + [e] + more == Flush(text) + ([e] + more);
  }

  lemma Regroup(a: string, b: string, c: string, d: string, e: string, f: string)
    ensures a + (b + c + (d + e + f)) == a + b + c + d + e + f
  {
    assert d + e + f == d + (e + f);
    assert b + c + (d + (e + f)) == b + c + d + (e + f);
    assert a + (b + c + d + (e + f)) == a + b + c + d + (e + f);
  }

  /** `Parse` reads the whole input, and its tree spells it. */
  lemma ParseIsLossless(lower: char -> char, input: string)
    ensures ParseFrom(lower, input, "", "").rest == ""
    ensures Spells(lower, ParseTree(lower, input), input)
  {
    TopLevelReadsEverything(lower, input, "");
    var body, close := Lossless(lower, input, "", "", "");
    assert close == "" && "" + body == body && body + close + "" == body;
  }
}
