/**
 A printer for parsed trees, and the round trips between it and the parser of
 limbo/minimessage/minimessage.go. The source has no printer: it escapes by hand,
 with a backslash before `<` and before a backslash.
 */
module Printer {
  import opened Wrappers
  import opened Strings
  import opened Scanner
  import opened Parser

  /** Lower-casing twice is lower-casing once. */
  ghost predicate Idempotent(lower: char -> char) {
    forall c :: lower(lower(c)) == lower(c)
  }

  function EscapeText(t: string): string {
    if t == "" then ""
    else (if t[0] == '<' || t[0] == '\\' then ['\\', t[0]] else [t[0]]) + EscapeText(t[1..])
  }

  /** The text between `<` and `>` of the closing tag. */
  function CloseText(base: string): string {
    "/" + Quoted(base, '"')
  }

  function CloseTag(base: string): string {
    "<" + CloseText(base) + ">"
  }

  function PrintNode(n: Node): string
    decreases n, 0
  {
    match n
    case Text(t) => EscapeText(t)
    case Element(tag, children) =>
      "<" + tag.literal + ">" + (if IsVoid(tag) then "" else Print(children) + CloseTag(TagBase(tag.name)))
  }

  function Print(nodes: seq<Node>): string
    decreases nodes, 1
  {
    if nodes == [] then "" else PrintNode(nodes[0]) + Print(nodes[1..])
  }

  /** The tag's literal is a text that the scanner and `parseTag` read as this tag. */
  ghost predicate Faithful(lower: char -> char, tag: Tag) {
    && TagEnd(tag.literal + ">") == |tag.literal|
    && ParseTag(lower, tag.literal) == Some(TagResult(tag, false))
  }

  /** No empty and no adjacent texts, faithful tags, and no children under void tags. */
  ghost predicate Canonical(lower: char -> char, nodes: seq<Node>)
    decreases nodes, 1
  {
    nodes != [] ==>
      && Canonical(lower, nodes[1..])
      && if nodes[0].Text? then nodes[0].text != "" && (|nodes| > 1 ==> nodes[1].Element?)
         else CanonicalElement(lower, nodes[0])
  }

  ghost predicate CanonicalElement(lower: char -> char, e: Node)
    requires e.Element?
    decreases e, 0
  {
    Faithful(lower, e.tag) && Canonical(lower, e.children) && (IsVoid(e.tag) ==> e.children == [])
  }

  /** Every tag that takes children has a base name, so that it can be closed. */
  predicate Named(nodes: seq<Node>)
    decreases nodes, 1
  {
    nodes != [] ==> Named(nodes[1..]) && (nodes[0].Element? ==> NamedElement(nodes[0]))
  }

  predicate NamedElement(e: Node)
    requires e.Element?
    decreases e, 0
  {
    IsVoid(e.tag) || (TagBase(e.tag.name) != "" && Named(e.children))
  }

  // ------------------------------------------------------------------ reading what was printed

  lemma {:induction false} TagEndKeepsPrefix(s: string, st: Quote, rest: string)
    requires TagEndFrom(s, st) >= 0
    ensures TagEndFrom(s + rest, st) == TagEndFrom(s, st)
    ensures TagEndFrom(s[..TagEndFrom(s, st)] + ">", st) == TagEndFrom(s, st)
    decreases |s|
  {
    assert (s + rest)[0] == s[0] && (s + rest)[1..] == s[1..] + rest;
    var cut := s[..TagEndFrom(s, st)] + ">";
    if !(st == Outside && s[0] == '>') {
      TagEndKeepsPrefix(s[1..], Step(st, s[0]), rest);
      var inner := TagEndFrom(s[1..], Step(st, s[0]));
      assert cut[0] == s[0] && cut[1..] == s[1..][..inner] + ">";
    }
  }

  /** A bracketed text is read as one tag when the scanner ends it at its own bracket. */
  lemma BracketReads(lower: char -> char, raw: string, rest: string, closing: string)
    requires TagEnd(raw + (">" + rest)) == |raw|
    ensures var parsed := ParseTag(lower, raw);
            && (parsed.Some? && !parsed.value.closeTag ==>
                  NextMove(lower, "<" + raw + ">" + rest, closing) == Open(parsed.value.tag, rest))
            && (parsed.Some? && parsed.value.closeTag && closing != "" && TagBase(parsed.value.tag.name) == closing ==>
                  NextMove(lower, "<" + raw + ">" + rest, closing) == Close(rest))
  {
    var s := "<" + raw + ">" + rest;
    assert s[1..] == raw + (">" + rest);
    assert s[1..][..|raw|] == raw && s[|raw| + 2..] == rest;
  }

  lemma OpenTagReads(lower: char -> char, tag: Tag, rest: string, closing: string)
    requires Faithful(lower, tag)
    ensures NextMove(lower, "<" + tag.literal + ">" + rest, closing) == Open(tag, rest)
  {
    assert tag.literal + (">" + rest) == (tag.literal + ">") + rest;
    TagEndKeepsPrefix(tag.literal + ">", Outside, rest);
    BracketReads(lower, tag.literal, rest, closing);
  }

  lemma {:induction false} TagBaseIsPrefix(name: string)
    ensures var b := TagBase(name); |b| <= |name| && b == name[..|b|] && TagBase(b) == b
  {
    if name != "" && name[0] != ':' {
      TagBaseIsPrefix(name[1..]);
      assert TagBase(name)[1..] == TagBase(name[1..]);
    }
  }

  lemma CloseTextContents(base: string)
    ensures TrimSpace(CloseText(base)) == CloseText(base)
    ensures IsCloseTag(CloseText(base)) && TagContents(CloseText(base)) == Quoted(base, '"')
  {
    var inner, raw := Quoted(base, '"'), CloseText(base);
    TrimSpaceIdentity(raw);
    TrimSpaceIdentity(inner);
    assert raw[|raw| - 1..] == "\"";
    assert raw[..1] == "/" && raw[1..] == inner;
  }

  lemma CloseTagParses(lower: char -> char, base: string)
    requires base != "" && ToLower(lower, base) == base
    ensures ParseTag(lower, CloseText(base)) == Some(TagResult(Tag(base, [], CloseText(base)), true))
  {
    CloseTextContents(base);
    SplitInvertsPrint([base], '"', "");
    assert [base][1..] == [];
  }

  lemma CloseTagEnds(base: string, rest: string)
    ensures TagEnd(CloseText(base) + (">" + rest)) == |CloseText(base)|
  {
    var tail := ">" + rest;
    var all := CloseText(base) + tail;
    assert all[0] == '/' && all[1..] == Quoted(base, '"') + tail;
    ScanQuoted(base, '"', tail, "");
  }

  lemma CloseTagReads(lower: char -> char, base: string, rest: string)
    requires base != "" && ToLower(lower, base) == base && TagBase(base) == base
    ensures NextMove(lower, CloseTag(base) + rest, base) == Close(rest)
  {
    CloseTagParses(lower, base);
    CloseTagEnds(base, rest);
    BracketReads(lower, CloseText(base), rest, base);
  }

  lemma EscapedHeadReads(lower: char -> char, t: string, rest: string, closing: string)
    requires t != ""
    ensures NextMove(lower, EscapeText(t) + rest, closing) == Chars([t[0]], EscapeText(t[1..]) + rest)
    ensures EscapeText(t) + rest != ""
  {
    var s := EscapeText(t) + rest;
    EscapedHead(t, rest);
    CharMoveAt(lower, s, 0, closing);
    assert s[0..] == s;
  }

  lemma EscapedHead(t: string, rest: string)
    requires t != ""
    ensures var s, tail := EscapeText(t) + rest, EscapeText(t[1..]) + rest;
            if t[0] == '<' || t[0] == '\\' then |s| > 1 && s[0] == '\\' && s[1] == t[0] && s[2..] == tail
            else |s| > 0 && s[0] == t[0] && s[1..] == tail
  {
    var head := if t[0] == '<' || t[0] == '\\' then ['\\', t[0]] else [t[0]];
    Associate(head, EscapeText(t[1..]), rest);
    HeadAndTail(head, EscapeText(t[1..]) + rest);
  }

  lemma HeadAndTail(head: string, tail: string)
    ensures (head + tail)[|head|..] == tail && forall k :: 0 <= k < |head| ==> (head + tail)[k] == head[k]
  {
  }

  lemma {:induction false} EscapedTextReads(lower: char -> char, t: string, rest: string, closing: string, text: string)
    ensures ParseFrom(lower, EscapeText(t) + rest, closing, text) == ParseFrom(lower, rest, closing, text + t)
    decreases |t|
  {
    if t == "" {
      assert EscapeText(t) + rest == rest && text + t == text;
    } else {
      EscapedHeadReads(lower, t, rest, closing);
      CharTurn(lower, EscapeText(t) + rest, closing, text, [t[0]], EscapeText(t[1..]) + rest);
      EscapedTextReads(lower, t[1..], rest, closing, text + [t[0]]);
      Associate(text, [t[0]], t[1..]);
      assert [t[0]] + t[1..] == t;
    }
  }

  /** Reading printed nodes with `text` in the builder: the nodes emitted, and the builder afterwards. */
  function Emit(nodes: seq<Node>, text: string): (seq<Node>, string) {
    if nodes == [] then ([], text)
    else
      match nodes[0]
      case Text(t) => Emit(nodes[1..], text + t)
      case Element(_, _) =>
        var more := Emit(nodes[1..], "");
        (Flush(text) + [nodes[0]] + more.0, more.1)
  }

  lemma {:induction false} EmitGivesNodes(lower: char -> char, nodes: seq<Node>, text: string)
    requires Canonical(lower, nodes)
    requires text == "" || nodes == [] || nodes[0].Element?
    ensures var e := Emit(nodes, text); e.0 + Flush(e.1) == Flush(text) + nodes
  {
    if nodes == [] {
      assert [] + Flush(text) == Flush(text) + nodes;
    } else {
      match nodes[0]
      case Text(t) =>
        assert text + t == t;
        EmitGivesNodes(lower, nodes[1..], t);
        assert [Text(t)] + nodes[1..] == nodes && [] + nodes == nodes;
      case Element(_, _) =>
        EmitGivesNodes(lower, nodes[1..], "");
        var more := Emit(nodes[1..], "");
        EmitCons(Flush(text), nodes, more.0, Flush(more.1));
    }
  }

  lemma EmitCons(before: seq<Node>, nodes: seq<Node>, more: seq<Node>, last: seq<Node>)
    requires nodes != [] && more + last == [] + nodes[1..]
    ensures before + [nodes[0]] + more + last == before + nodes
  {
    assert nodes == [nodes[0]] + (more + last);
  }

  lemma ChildrenRead(lower: char -> char, e: Node, rest: string)
    requires Idempotent(lower)
    requires e.Element? && !IsVoid(e.tag) && CanonicalElement(lower, e) && NamedElement(e)
    requires var base := TagBase(e.tag.name); var emitted := Emit(e.children, "");
             ParseFrom(lower, Print(e.children) + (CloseTag(base) + rest), base, "")
             == Prepend(emitted.0, ParseFrom(lower, CloseTag(base) + rest, base, emitted.1))
    ensures ParseKids(lower, e.tag, Print(e.children) + (CloseTag(TagBase(e.tag.name)) + rest)) == Parsed(e.children, rest)
  {
    var name, base := e.tag.name, TagBase(e.tag.name);
    TagBaseIsPrefix(name);
    assert ToLower(lower, base) == base by {
      assert ToLower(lower, name) == name;
    }
    CloseTagReads(lower, base, rest);
    EmitGivesNodes(lower, e.children, "");
    assert Flush("") + e.children == e.children;
  }

  /** The input after the opening tag of a printed element: its children, its closing tag and `tail`. */
  function PrintAfterOpen(e: Node, tail: string): string
    requires e.Element?
  {
    if IsVoid(e.tag) then tail else Print(e.children) + (CloseTag(TagBase(e.tag.name)) + tail)
  }

  lemma PrintedElement(e: Node, tail: string)
    requires e.Element?
    ensures PrintNode(e) + tail == "<" + e.tag.literal + ">" + PrintAfterOpen(e, tail)
  {
    var a := "<" + e.tag.literal + ">";
    if IsVoid(e.tag) {
      assert a + "" + tail == a + tail;
    } else {
      var b, c := Print(e.children), CloseTag(TagBase(e.tag.name));
      assert a + (b + c) + tail == a + (b + (c + tail));
    }
  }

  lemma ElementReads(lower: char -> char, e: Node, after: string, tail: string, closing: string, text: string,
                     more: seq<Node>, last: Parsed)
    requires e.Element? && Faithful(lower, e.tag)
    requires ParseKids(lower, e.tag, after) == Parsed(e.children, tail)
    requires ParseFrom(lower, tail, closing, "") == Prepend(more, last)
    ensures ParseFrom(lower, "<" + e.tag.literal + ">" + after, closing, text) == Prepend(Flush(text) + [e] + more, last)
  {
    OpenTagReads(lower, e.tag, after, closing);
    assert Flush(text) + [e] + (more + last.nodes) == Flush(text) + [e] + more + last.nodes;
  }

  lemma {:induction false} PrintedNodesRead(lower: char -> char, nodes: seq<Node>, rest: string, closing: string, text: string)
    requires Idempotent(lower) && Canonical(lower, nodes) && Named(nodes)
    ensures ParseFrom(lower, Print(nodes) + rest, closing, text)
         == Prepend(Emit(nodes, text).0, ParseFrom(lower, rest, closing, Emit(nodes, text).1))
    decreases nodes, 1
  {
    if nodes == [] {
      assert Print(nodes) + rest == rest;
    } else {
      var tail := Print(nodes[1..]) + rest;
      assert Print(nodes) + rest == PrintNode(nodes[0]) + tail;
      match nodes[0]
      case Text(t) =>
        EscapedTextReads(lower, t, tail, closing, text);
        PrintedNodesRead(lower, nodes[1..], rest, closing, text + t);
      case Element(_, _) =>
        PrintedChildrenRead(lower, nodes[0], tail);
        PrintedNodesRead(lower, nodes[1..], rest, closing, "");
        PrintedElement(nodes[0], tail);
        ElementReads(lower, nodes[0], PrintAfterOpen(nodes[0], tail), tail, closing, text,
                     Emit(nodes[1..], "").0, ParseFrom(lower, rest, closing, Emit(nodes[1..], "").1));
    }
  }

  lemma {:induction false} PrintedChildrenRead(lower: char -> char, e: Node, tail: string)
    requires Idempotent(lower) && e.Element? && CanonicalElement(lower, e) && NamedElement(e)
    ensures ParseKids(lower, e.tag, PrintAfterOpen(e, tail)) == Parsed(e.children, tail)
    decreases e, 0
  {
    if !IsVoid(e.tag) {
      var base := TagBase(e.tag.name);
      PrintedNodesRead(lower, e.children, CloseTag(base) + tail, base, "");
      ChildrenRead(lower, e, tail);
    }
  }

  /** Parsing undoes printing. */
  lemma ParseInvertsPrint(lower: char -> char, nodes: seq<Node>)
    requires Idempotent(lower) && Canonical(lower, nodes) && Named(nodes)
    ensures ParseTree(lower, Print(nodes)) == nodes
  {
    assert Print(nodes) + "" == Print(nodes);
    PrintedNodesRead(lower, nodes, "", "", "");
    EmitGivesNodes(lower, nodes, "");
    assert Flush("") + nodes == nodes;
  }

  /** An escaped text parses to that text and nothing else. */
  lemma EscapedTextIsText(lower: char -> char, t: string)
    ensures ParseTree(lower, EscapeText(t)) == Flush(t)
  {
    EscapedTextReads(lower, t, "", "", "");
    assert EscapeText(t) + "" == EscapeText(t) && "" + t == t;
  }

  // ------------------------------------------------------------------ what the parser builds

  lemma CanonicalCons(lower: char -> char, text: string, e: Node, more: seq<Node>)
    requires e.Element? && CanonicalElement(lower, e) && Canonical(lower, more)
    ensures Canonical(lower, Flush(text) + [e] + more)
  {
    CanonicalAfterElement(lower, e, more);
    if text == "" {
      assert Flush(text) + [e] == [e];
    } else {
      CanonicalAfterText(lower, text, [e] + more);
      TextFirst(text, e, more);
    }
  }

  lemma TextFirst(text: string, e: Node, more: seq<Node>)
    ensures [Text(text)] + ([e] + more) == [Text(text)] + [e] + more
  {
  }

  lemma CanonicalAfterElement(lower: char -> char, e: Node, more: seq<Node>)
    requires e.Element? && CanonicalElement(lower, e) && Canonical(lower, more)
    ensures Canonical(lower, [e] + more)
  {
    assert ([e] + more)[1..] == more;
  }

  lemma CanonicalAfterText(lower: char -> char, text: string, more: seq<Node>)
    requires text != "" && more != [] && more[0].Element? && Canonical(lower, more)
    ensures Canonical(lower, [Text(text)] + more)
  {
    assert ([Text(text)] + more)[1..] == more;
  }

  lemma {:induction false} ParsedIsCanonical(lower: char -> char, s: string, closing: string, text: string)
    ensures Canonical(lower, ParseFrom(lower, s, closing, text).nodes)
    decreases |s|
  {
    match NextMove(lower, s, closing)
    case End =>
    case Close(_) =>
    case Chars(piece, after) => ParsedIsCanonical(lower, after, closing, text + piece);
    case Open(tag, after) =>
      var kids := ParseKids(lower, tag, after);
      if !IsVoid(tag) {
        ParsedIsCanonical(lower, after, TagBase(tag.name), "");
      }
      ParsedIsCanonical(lower, kids.rest, closing, "");
      TagEndKeepsPrefix(s[1..], Outside, "");
      CanonicalCons(lower, text, Element(tag, kids.nodes), ParseFrom(lower, kids.rest, closing, "").nodes);
  }

  /**
   Printing and parsing again is the identity on everything the parser builds, as long as every
   tag with children has a base name (a quoted name such as `':x'` has none).
   */
  lemma ReparseIsStable(lower: char -> char, input: string)
    requires Idempotent(lower) && Named(ParseTree(lower, input))
    ensures ParseTree(lower, Print(ParseTree(lower, input))) == ParseTree(lower, input)
  {
    ParsedIsCanonical(lower, input, "", "");
    ParseInvertsPrint(lower, ParseTree(lower, input));
  }

  /** Every name and argument list has a faithful tag, in either kind of quotes. */
  lemma QuotedTagIsFaithful(lower: char -> char, name: string, args: seq<string>, q: char)
    requires IsQuote(q) && name != "" && ToLower(lower, name) == name
    ensures Faithful(lower, Tag(name, args, PrintArgs([name] + args, q)))
  {
    var all := [name] + args;
    var raw := PrintArgs(all, q);
    SplitInvertsPrint(all, q, ">");
    PrintedEnds(all, q);
    TrimSpaceIdentity(raw);
    assert !HasSuffix(raw, "/") && !HasPrefix(raw, "/");
    assert all[1..] == args;
  }

  // ------------------------------------------------------------------ tags without quotes

  /** Neither scanner does anything at such a character. */
  predicate IsPlain(c: char) {
    !IsQuote(c) && c != '>' && c != ':'
  }

  predicate Plain(s: string) {
    forall i :: 0 <= i < |s| ==> IsPlain(s[i])
  }

  lemma {:induction false} PlainEnds(s: string, tail: string)
    requires Plain(s)
    ensures TagEnd(s + tail) == Shift(TagEnd(tail), |s|)
    decreases |s|
  {
    if s == "" {
      assert s + tail == tail;
    } else {
      assert IsPlain(s[0]);
      assert (s + tail)[0] == s[0] && (s + tail)[1..] == s[1..] + tail;
      PlainEnds(s[1..], tail);
    }
  }

  lemma {:induction false} PlainSplits(s: string, tail: string, current: string)
    requires Plain(s)
    ensures SplitFrom(s + tail, Outside, current) == SplitFrom(tail, Outside, current + s)
    decreases |s|
  {
    if s == "" {
      assert s + tail == tail && current + s == current;
    } else {
      assert IsPlain(s[0]);
      assert (s + tail)[0] == s[0] && (s + tail)[1..] == s[1..] + tail;
      PlainSplits(s[1..], tail, current + [s[0]]);
      Associate(current, [s[0]], s[1..]);
      assert [s[0]] + s[1..] == s;
    }
  }

  lemma {:induction false} PlainArguments(args: seq<string>, rest: string)
    requires |args| > 0 && forall k :: 0 <= k < |args| ==> Plain(args[k])
    ensures SplitArgs(Join(args, ":")) == Some(args)
    ensures TagEnd(Join(args, ":") + (">" + rest)) == |Join(args, ":")|
    decreases |args|
  {
    if |args| == 1 {
      PlainSplits(args[0], "", "");
      assert args[0] + "" == args[0] && "" + args[0] == args[0];
      assert SplitFrom("", Outside, args[0]) == Some([args[0]]) && args == [args[0]];
      PlainEnds(args[0], ">" + rest);
    } else {
      PlainArguments(args[1..], rest);
      ColonSplits(args[0], Join(args[1..], ":"));
      ColonEnds(args[0], Join(args[1..], ":"), ">" + rest);
      assert args == [args[0]] + args[1..];
    }
  }

  lemma ColonSplits(first: string, more: string)
    requires Plain(first)
    ensures SplitArgs(first + ":" + more) == PrependArg(first, SplitArgs(more))
  {
    Associate(first, ":", more);
    PlainSplits(first, ":" + more, "");
    assert "" + first == first;
    assert (":" + more)[0] == ':' && (":" + more)[1..] == more;
  }

  lemma ColonEnds(first: string, more: string, tail: string)
    requires Plain(first)
    ensures TagEnd(first + ":" + more + tail) == Shift(TagEnd(more + tail), |first| + 1)
  {
    var after := ":" + (more + tail);
    assert first + ":" + more + tail == first + after;
    PlainEnds(first, after);
    assert after[0] == ':' && after[1..] == more + tail;
  }

  /** The text of a tag can be read without trimming and does not end or begin in a slash. */
  predicate IsBare(raw: string) {
    raw != "" && !Neutral(raw[0]) && !Neutral(raw[|raw| - 1])
  }

  lemma BareTag(raw: string)
    requires IsBare(raw)
    ensures TrimSpace(raw) == raw && !HasSuffix(raw, "/") && TagContents(raw) == raw && !IsCloseTag(raw)
  {
    TrimSpaceIdentity(raw);
    assert raw[|raw| - 1..][0] == raw[|raw| - 1] && raw[..1][0] == raw[0];
  }

  lemma BareCloseTag(base: string)
    requires IsBare(base)
    ensures TrimSpace("/" + base) == "/" + base && TagContents("/" + base) == base && IsCloseTag("/" + base)
  {
    var raw := "/" + base;
    assert raw[|raw| - 1..][0] == base[|base| - 1] && raw[..1] == "/" && raw[1..] == base;
    TrimSpaceIdentity(raw);
    TrimSpaceIdentity(base);
  }

  /** A lower-case name and arguments without quotes, colons and `>` can be written as they are. */
  lemma PlainTagIsFaithful(lower: char -> char, name: string, args: seq<string>, raw: string)
    requires name != "" && ToLower(lower, name) == name && Plain(name) && forall k :: 0 <= k < |args| ==> Plain(args[k])
    requires raw == Join([name] + args, ":") && IsBare(raw)
    ensures Faithful(lower, Tag(name, args, raw))
  {
    AllPlain(name, args);
    PlainTagEnds([name] + args, raw);
    BareTag(raw);
    BareParses(lower, name, args, raw);
    ReadIsFaithful(lower, Tag(name, args, raw));
  }

  lemma AllPlain(name: string, args: seq<string>)
    requires Plain(name) && forall k :: 0 <= k < |args| ==> Plain(args[k])
    ensures forall k :: 0 <= k < |[name] + args| ==> Plain(([name] + args)[k])
  {
  }

  lemma ReadIsFaithful(lower: char -> char, tag: Tag)
    requires TagEnd(tag.literal + ">") == |tag.literal| && ParseTag(lower, tag.literal) == Some(TagResult(tag, false))
    ensures Faithful(lower, tag)
  {
  }

  lemma PlainTagEnds(all: seq<string>, raw: string)
    requires |all| > 0 && raw == Join(all, ":") && forall k :: 0 <= k < |all| ==> Plain(all[k])
    ensures SplitArgs(raw) == Some(all) && TagEnd(raw + ">") == |raw|
  {
    PlainArguments(all, "");
    assert ">" + "" == ">";
  }

  lemma BareParses(lower: char -> char, name: string, args: seq<string>, raw: string)
    requires name != "" && ToLower(lower, name) == name && SplitArgs(raw) == Some([name] + args)
    requires raw != "" && TrimSpace(raw) == raw && TagContents(raw) == raw && !IsCloseTag(raw)
    ensures ParseTag(lower, raw) == Some(TagResult(Tag(name, args, raw), false))
  {
    assert ([name] + args)[1..] == args;
  }

  /** So can the closing tag of such a name. */
  lemma PlainCloseTagReads(lower: char -> char, base: string, rest: string)
    requires ToLower(lower, base) == base && TagBase(base) == base && Plain(base) && IsBare(base)
    ensures NextMove(lower, "</" + base + ">" + rest, base) == Close(rest)
  {
    BareCloseTag(base);
    BareCloseParses(lower, base);
    SlashEnds(base, rest);
    SlashIsInside(base);
    BracketReads(lower, "/" + base, rest, base);
  }

  lemma SlashIsInside(base: string)
    ensures "</" + base == "<" + ("/" + base)
  {
  }

  lemma SlashEnds(base: string, rest: string)
    requires Plain(base)
    ensures TagEnd("/" + base + (">" + rest)) == |"/" + base|
  {
    PlainEnds("/" + base, ">" + rest);
  }

  lemma BareCloseParses(lower: char -> char, base: string)
    requires ToLower(lower, base) == base && Plain(base) && base != ""
    requires TrimSpace("/" + base) == "/" + base && TagContents("/" + base) == base && IsCloseTag("/" + base)
    ensures ParseTag(lower, "/" + base) == Some(TagResult(Tag(base, [], "/" + base), true))
  {
    PlainArguments([base], "");
    assert [base][1..] == [] && Join([base], ":") == base;
  }

  lemma {:induction false} PrintedEnds(args: seq<string>, q: char)
    requires |args| > 0
    ensures var p := PrintArgs(args, q); |p| >= 2 && p[0] == q && p[|p| - 1] == q
  {
    if |args| > 1 {
      PrintedEnds(args[1..], q);
    }
  }
}
