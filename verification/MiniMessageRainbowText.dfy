/**
 Texts with one element inside another, read by the parser of limbo/minimessage/minimessage.go; among them the one of the
 reversed rainbow over a literal tag.
 */
module RainbowText {
  import opened Strings
  import opened Scanner
  import opened Parser
  import opened Printer
  import opened Meaning
  import opened Rainbows

  /** A tag that is closed by its own name, without quotes. */
  ghost predicate ClosedByName(lower: char -> char, tag: Tag) {
    && Faithful(lower, tag) && !IsVoid(tag) && TagBase(tag.name) == tag.name
    && Plain(tag.name) && IsBare(tag.name) && ToLower(lower, tag.name) == tag.name
  }

  function Closing(tag: Tag): string {
    "</" + tag.name + ">"
  }

  lemma ClosingReads(lower: char -> char, tag: Tag, rest: string, text: string)
    requires ClosedByName(lower, tag)
    ensures ParseFrom(lower, Closing(tag) + rest, tag.name, text) == Parsed(Flush(text), rest)
  {
    PlainCloseTagReads(lower, tag.name, rest);
  }

  predicate NeedsNoEscape(t: string) {
    forall i :: 0 <= i < |t| ==> t[i] != '<' && t[i] != '\\'
  }

  lemma {:induction false} NothingToEscape(t: string)
    requires NeedsNoEscape(t)
    ensures EscapeText(t) == t
    decreases |t|
  {
    if t != "" {
      NothingToEscape(t[1..]);
      assert [t[0]] + t[1..] == t;
    }
  }

  /** Such text goes into the builder. */
  lemma PlainTextReads(lower: char -> char, t: string, rest: string, closing: string)
    requires NeedsNoEscape(t)
    ensures ParseFrom(lower, t + rest, closing, "") == ParseFrom(lower, rest, closing, t)
  {
    NothingToEscape(t);
    EscapedTextReads(lower, t, rest, closing, "");
    assert "" + t == t;
  }

  /** An element with text and nothing else inside. */
  lemma InnerReads(lower: char -> char, inner: Tag, t: string, rest: string)
    requires ClosedByName(lower, inner) && NeedsNoEscape(t)
    ensures ParseKids(lower, inner, t + (Closing(inner) + rest)) == Parsed(Flush(t), rest)
  {
    PlainTextReads(lower, t, Closing(inner) + rest, inner.name);
    ClosingReads(lower, inner, rest, t);
  }

  lemma OuterReads(lower: char -> char, outer: Tag, inner: Tag, s: string, t: string, rest: string)
    requires ClosedByName(lower, outer) && ClosedByName(lower, inner) && NeedsNoEscape(s) && NeedsNoEscape(t)
    ensures ParseKids(lower, outer, s + ("<" + inner.literal + ">" + (t + (Closing(inner) + (Closing(outer) + rest)))))
         == Parsed(Flush(s) + [Element(inner, Flush(t))], rest)
  {
    var tail := Closing(outer) + rest;
    var after := t + (Closing(inner) + tail);
    InnerReads(lower, inner, t, tail);
    ClosingReads(lower, outer, rest, "");
    ElementReads(lower, Element(inner, Flush(t)), after, tail, outer.name, s, [], Parsed([], rest));
    assert Flush(s) + [Element(inner, Flush(t))] + [] + [] == Flush(s) + [Element(inner, Flush(t))];
    PlainTextReads(lower, s, "<" + inner.literal + ">" + after, outer.name);
  }

  function NestedText(outer: Tag, inner: Tag, s: string, t: string): string {
    "<" + outer.literal + ">" + (s + ("<" + inner.literal + ">" + (t + (Closing(inner) + (Closing(outer) + "")))))
  }

  lemma NothingReads(lower: char -> char)
    ensures ParseFrom(lower, "", "", "") == Prepend([], Parsed([], ""))
  {
  }

  /** One element inside another, with unquoted tags and text before and within the inner one. */
  lemma NestedReads(lower: char -> char, outer: Tag, inner: Tag, s: string, t: string)
    requires ClosedByName(lower, outer) && ClosedByName(lower, inner) && NeedsNoEscape(s) && NeedsNoEscape(t)
    ensures ParseTree(lower, NestedText(outer, inner, s, t)) == [Element(outer, Flush(s) + [Element(inner, Flush(t))])]
  {
    OuterReads(lower, outer, inner, s, t, "");
    NothingReads(lower);
    var after := s + ("<" + inner.literal + ">" + (t + (Closing(inner) + (Closing(outer) + ""))));
    ElementReads(lower, Element(outer, Flush(s) + [Element(inner, Flush(t))]), after, "", "", "", [], Parsed([], ""));
  }

  // ------------------------------------------------------------------ the rainbow

  const RAINBOW_TEXT := "<rainbow:!>" + "ab" + "<foo>" + "xyz" + "</foo>" + "</rainbow>"

  lemma FooIsClosedByName(lower: char -> char)
    requires ToLower(lower, "foo") == "foo"
    ensures ClosedByName(lower, FOO)
  {
    NoColonBase("foo");
    assert Join(["foo"] + [], ":") == "foo";
    PlainTagIsFaithful(lower, "foo", [], "foo");
    BareTag("foo");
  }

  lemma RainbowLiteral()
    ensures Join(["rainbow"] + ["!"], ":") == "rainbow:!" && IsBare("rainbow:!") && IsBare("rainbow")
  {
    var args := ["rainbow"] + ["!"];
    assert args[0] == "rainbow" && args[1..] == ["!"];
    assert Join(args, ":") == "rainbow" + ":" + Join(["!"], ":");
  }

  lemma RainbowName()
    ensures Plain("rainbow") && Plain("!")
  {
  }

  lemma RainbowIsClosedByName(lower: char -> char)
    requires ToLower(lower, "rainbow") == "rainbow"
    ensures ClosedByName(lower, RAINBOW)
  {
    RainbowLiteral();
    RainbowName();
    NoColonBase("rainbow");
    PlainTagIsFaithful(lower, "rainbow", ["!"], "rainbow:!");
    BareTag("rainbow:!");
  }

  lemma Concatenated(a: string, b: string, c: string, d: string, e: string, f: string)
    ensures a + b + c + d + e + f == a + (b + (c + (d + (e + (f + "")))))
  {
  }

  lemma RainbowTags()
    ensures "<" + RAINBOW.literal + ">" == "<rainbow:!>" && Closing(RAINBOW) == "</rainbow>"
  {
  }

  lemma FooTags()
    ensures "<" + FOO.literal + ">" == "<foo>" && Closing(FOO) == "</foo>"
  {
  }

  lemma RainbowTextIs()
    ensures RAINBOW_TEXT == NestedText(RAINBOW, FOO, "ab", "xyz")
  {
    RainbowTags();
    FooTags();
    Concatenated("<rainbow:!>", "ab", "<foo>", "xyz", "</foo>", "</rainbow>");
  }

  lemma RainbowTree()
    ensures Flush("ab") + [Element(FOO, Flush("xyz"))] == LiteralChildren(FOO)
  {
  }

  /** The text is read as the tree of `ReversedRainbowOverflows`. */
  lemma RainbowTextReads(lower: char -> char)
    requires ToLower(lower, "foo") == "foo" && ToLower(lower, "rainbow") == "rainbow"
    ensures ParseTree(lower, RAINBOW_TEXT) == [Element(RAINBOW, LiteralChildren(FOO))]
  {
    RainbowTextIs();
    RainbowTree();
    PlainTexts();
    NestedRainbowReads(lower, "ab", "xyz");
  }

  lemma PlainTexts()
    ensures NeedsNoEscape("ab") && NeedsNoEscape("xyz")
  {
  }

  lemma NestedRainbowReads(lower: char -> char, s: string, t: string)
    requires ToLower(lower, "foo") == "foo" && ToLower(lower, "rainbow") == "rainbow"
    requires NeedsNoEscape(s) && NeedsNoEscape(t)
    ensures ParseTree(lower, NestedText(RAINBOW, FOO, s, t)) == [Element(RAINBOW, Flush(s) + [Element(FOO, Flush(t))])]
  {
    FooIsClosedByName(lower);
    RainbowIsClosedByName(lower);
    NestedReads(lower, RAINBOW, FOO, s, t);
  }
}
