/**
 Which tags the parser of limbo/minimessage/minimessage.go reads as elements without children, and which closing tags it
 takes as text.
 */
module VoidTags {
  import opened Wrappers
  import opened Strings
  import opened Scanner
  import opened Parser
  import opened Printer

  const LINE_BREAKS := {"br", "newline"}
  const TRANSLATIONS := {"lang", "tr", "translate", "lang_or", "tr_or", "translate_or"}
  const SHOWN_AS_WRITTEN := {"key", "keybind", "selector", "score", "nbt", "sprite", "head"}

  /** A slash with nothing but white space behind it. */
  predicate EndsInSlash(raw: string) {
    exists k :: 0 <= k < |raw| && raw[k] == '/' && AllSpace(raw[k + 1..])
  }

  predicate IsChildless(t: Tag) {
    var base := TagBase(t.name);
    || base == "reset" || base in LINE_BREAKS || base in TRANSLATIONS || base in SHOWN_AS_WRITTEN
    || EndsInSlash(t.literal)
  }

  lemma SlashIsLast(raw: string)
    ensures HasSuffix(TrimSpace(raw), "/") <==> EndsInSlash(raw)
  {
    var pre, post := TrimSpaceSplits(raw);
    var t := TrimSpace(raw);
    if HasSuffix(t, "/") {
      var k := |pre| + |t| - 1;
      assert t[|t| - 1..][0] == '/';
      assert raw[k] == '/' && raw[k + 1..] == post;
    }
    if k :| 0 <= k < |raw| && raw[k] == '/' && AllSpace(raw[k + 1..]) {
      LastVisible(pre, t, post, k);
    }
  }

  lemma LastVisible(pre: string, t: string, post: string, k: nat)
    requires var raw := pre + t + post; k < |raw| && raw[k] == '/' && AllSpace(raw[k + 1..])
    requires AllSpace(pre) && AllSpace(post) && (t != "" ==> !IsSpace(t[|t| - 1]))
    ensures HasSuffix(t, "/")
  {
    var raw, end := pre + t + post, |pre| + |t|;
    forall i | 0 <= i < |pre| || end <= i < |raw|
      ensures IsSpace(raw[i])
    {
      assert raw[i] == if i < |pre| then pre[i] else post[i - end];
    }
    forall i | k < i < |raw|
      ensures IsSpace(raw[i])
    {
      assert raw[k + 1..][i - k - 1] == raw[i];
    }
    assert |pre| <= k < end && raw[end - 1] == t[|t| - 1];
    assert t[|t| - 1..] == "/";
  }

  /** A tag takes no children exactly when its name says so or its text ends in a slash. */
  lemma VoidIff(t: Tag)
    ensures IsVoid(t) <==> IsChildless(t)
  {
    SlashIsLast(t.literal);
  }

  // ------------------------------------------------------------------ tags that end in a slash

  predicate Unquoted(s: string) {
    forall i :: 0 <= i < |s| ==> !IsQuote(s[i]) && s[i] != '>'
  }

  lemma {:induction false} UnquotedEnds(s: string, tail: string)
    requires Unquoted(s)
    ensures TagEnd(s + tail) == Shift(TagEnd(tail), |s|)
    decreases |s|
  {
    if s == "" {
      assert s + tail == tail;
    } else {
      assert (s + tail)[0] == s[0] && (s + tail)[1..] == s[1..] + tail;
      UnquotedEnds(s[1..], tail);
    }
  }

  lemma SlashIsCut(text: string)
    requires IsBare(text)
    ensures TagContents(text + "/") == text && !IsCloseTag(text + "/") && TrimSpace(text + "/") == text + "/"
  {
    BareTag(text);
    TrimSpaceIdentity(text + "/");
    assert (text + "/")[|text|..] == "/" && (text + "/")[..|text|] == text;
    assert text[..1][0] == text[0];
  }

  /** `<text/>` is read as an element of its own, whatever its name, and what follows belongs to the list around it. */
  lemma SlashedTagReads(lower: char -> char, text: string, rest: string, closing: string, builder: string)
    requires IsBare(text) && Unquoted(text) && SplitArgs(text).Some? && SplitArgs(text).value != []
    requires SplitArgs(text).value[0] != ""
    ensures var parts := SplitArgs(text).value;
            var e := Element(Tag(ToLower(lower, parts[0]), parts[1..], text + "/"), []);
            ParseFrom(lower, "<" + (text + "/") + ">" + rest, closing, builder)
            == Prepend(Flush(builder) + [e], ParseFrom(lower, rest, closing, ""))
  {
    var raw, parts := text + "/", SplitArgs(text).value;
    var tag := Tag(ToLower(lower, parts[0]), parts[1..], raw);
    SlashIsCut(text);
    assert ParseTag(lower, raw) == Some(TagResult(tag, false));
    UnquotedEnds(raw, ">" + rest);
    assert (">" + rest)[0] == '>';
    BracketReads(lower, raw, rest, closing);
    assert raw[|raw| - 1..] == "/";
    assert IsVoid(tag);
    OpenAlone(lower, "<" + raw + ">" + rest, closing, builder, tag, rest);
  }

  lemma OpenAlone(lower: char -> char, s: string, closing: string, builder: string, tag: Tag, rest: string)
    requires NextMove(lower, s, closing) == Open(tag, rest) && IsVoid(tag)
    ensures ParseFrom(lower, s, closing, builder) == Prepend(Flush(builder) + [Element(tag, [])], ParseFrom(lower, rest, closing, ""))
  {
  }

  // ------------------------------------------------------------------ closing tags of something else

  /** A closing tag that the list does not wait for is text, character by character. */
  lemma OtherCloseIsText(lower: char -> char, base: string, rest: string, closing: string, builder: string)
    requires ToLower(lower, base) == base && TagBase(base) == base && Plain(base) && IsBare(base) && base != closing
    ensures ParseFrom(lower, "<" + ("/" + base) + ">" + rest, closing, builder)
         == ParseFrom(lower, rest, closing, builder + ("<" + ("/" + base) + ">"))
  {
    var raw := "/" + base;
    BareCloseTag(base);
    BareCloseParses(lower, base);
    SlashEnds(base, rest);
    OtherClose(lower, Tag(base, [], raw), rest, closing);
    CharTurn(lower, "<" + raw + ">" + rest, closing, builder, "<" + raw + ">", rest);
  }

  lemma OtherClose(lower: char -> char, tag: Tag, rest: string, closing: string)
    requires TagEnd(tag.literal + (">" + rest)) == |tag.literal| && ParseTag(lower, tag.literal) == Some(TagResult(tag, true))
    requires TagBase(tag.name) != closing
    ensures NextMove(lower, "<" + tag.literal + ">" + rest, closing) == Chars("<" + tag.literal + ">", rest)
  {
    var raw := tag.literal;
    var s := "<" + raw + ">" + rest;
    assert s[1..] == raw + (">" + rest);
    assert s[1..][..|raw|] == raw && s[|raw| + 2..] == rest;
  }
}
