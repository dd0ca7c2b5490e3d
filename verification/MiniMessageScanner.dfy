/**
 The two quote scanners of limbo/minimessage/minimessage.go: `findTagEnd`, which looks for
 the `>` that ends a tag, and `splitArgs`, which cuts the tag's contents at `:`.
 They are written separately in the source; here both are shown to follow one automaton.
 */
module Scanner {
  import opened Wrappers
  import opened Strings

  /** Where a scanner stands: outside quotes, inside quotes, or just after a backslash inside quotes. */
  datatype Quote = Outside | Inside(q: char) | Escaped(q: char)

  predicate IsQuote(c: char) {
    c == '\'' || c == '"'
  }

  function Step(st: Quote, c: char): Quote {
    match st
    case Outside => if IsQuote(c) then Inside(c) else Outside
    case Inside(q) => if c == '\\' then Escaped(q) else if c == q then Outside else st
    case Escaped(q) => Inside(q)
  }

  predicate Proper(st: Quote) {
    st == Outside || IsQuote(st.q)
  }

  function Run(st: Quote, s: string): (r: Quote)
    ensures Proper(st) ==> Proper(r)
    decreases |s|
  {
    if s == "" then st else Run(Step(st, s[0]), s[1..])
  }

  /** Index of the first `>` of `s` outside quotes, or -1. */
  function TagEndFrom(s: string, st: Quote): (r: int)
    ensures -1 <= r < |s|
  {
    if s == "" then -1
    else if st == Outside && s[0] == '>' then 0
    else
      var r := TagEndFrom(s[1..], Step(st, s[0]));
      if r < 0 then -1 else r + 1
  }

  function TagEnd(s: string): int {
    TagEndFrom(s, Outside)
  }

  function PrependArg(first: string, rest: Option<seq<string>>): Option<seq<string>> {
    if rest.None? then None else Some([first] + rest.value)
  }

  function SplitFrom(s: string, st: Quote, current: string): Option<seq<string>>
    decreases |s|
  {
    if s == "" then
      if st == Outside then Some([current]) else None
    else
      var c, rest, next := s[0], s[1..], Step(st, s[0]);
      match st
      case Outside =>
        if IsQuote(c) then SplitFrom(rest, next, current)
        else if c == ':' then PrependArg(current, SplitFrom(rest, next, ""))
        else SplitFrom(rest, next, current + [c])
      case Inside(q) =>
        if c == '\\' || c == q then SplitFrom(rest, next, current)
        else SplitFrom(rest, next, current + [c])
      case Escaped(q) => SplitFrom(rest, next, current + [c])
  }

  /** `splitArgs`: `None` is the "unterminated quoted MiniMessage argument" error. */
  function SplitArgs(value: string): Option<seq<string>> {
    SplitFrom(value, Outside, "")
  }

  // ------------------------------------------------------------------ the loops

  /** The automaton state that the source keeps as a rune, zero meaning "no quote". */
  function StateOf(quote: char): Quote {
    if quote == '\0' then Outside else Inside(quote)
  }

  function Shift(r: int, offset: nat): int {
    if r < 0 then -1 else r + offset
  }

  method FindTagEnd(input: string, start: nat) returns (end: int)
    requires start <= |input|
    ensures end == Shift(TagEnd(input[start..]), start)
  {
    var pos := start;
    var quote := '\0';
    while pos < |input|
      invariant start <= pos <= |input|
      invariant quote == '\0' || IsQuote(quote)
      invariant TagEnd(input[start..]) == Shift(TagEndFrom(input[pos..], StateOf(quote)), pos - start)
    {
      var r := input[pos];
      assert input[pos..][0] == r && input[pos..][1..] == input[pos + 1..];
      if quote != '\0' {
        if r == '\\' {
          pos := pos + 1;
          if pos < |input| {
            assert input[pos..][1..] == input[pos + 1..];
            pos := pos + 1;
          }
          continue;
        }
        if r == quote {
          quote := '\0';
        }
        pos := pos + 1;
        continue;
      }
      if IsQuote(r) {
        quote := r;
      } else if r == '>' {
        return pos;
      }
      pos := pos + 1;
    }
    end := -1;
  }

  function PrependAll(firsts: seq<string>, rest: Option<seq<string>>): Option<seq<string>> {
    if rest.None? then None else Some(firsts + rest.value)
  }

  method SplitArguments(value: string) returns (r: Option<seq<string>>)
    ensures r == SplitArgs(value)
  {
    var out: seq<string> := [];
    var current := "";
    var quote := '\0';
    var i := 0;
    assert value[0..] == value;
    assert SplitArgs(value).Some? ==> out + SplitArgs(value).value == SplitArgs(value).value;
    while i < |value|
      invariant 0 <= i <= |value|
      invariant quote == '\0' || IsQuote(quote)
      invariant SplitArgs(value) == PrependAll(out, SplitFrom(value[i..], StateOf(quote), current))
    {
      var c := value[i];
      assert value[i..][0] == c && value[i..][1..] == value[i + 1..];
      if quote != '\0' {
        if c == '\\' {
          i := i + 1;
          if i < |value| {
            assert value[i..][1..] == value[i + 1..];
            current := current + [value[i]];
            i := i + 1;
          } else {
            assert value[i..] == "";
            return None;
          }
          continue;
        }
        if c == quote {
          quote := '\0';
          i := i + 1;
          continue;
        }
        current := current + [c];
        i := i + 1;
        continue;
      }
      if IsQuote(c) {
        quote := c;
      } else if c == ':' {
        ghost var tail := SplitFrom(value[i + 1..], Outside, "");
        assert tail.Some? ==> out + ([current] + tail.value) == (out + [current]) + tail.value;
        out := out + [current];
        current := "";
      } else {
        current := current + [c];
      }
      i := i + 1;
    }
    if quote != '\0' {
      return None;
    }
    return Some(out + [current]);
  }

  // ------------------------------------------------------------------ meaning

  lemma {:induction false} RunConcat(st: Quote, a: string, b: string)
    ensures Run(st, a + b) == Run(Run(st, a), b)
    decreases |a|
  {
    if a == "" {
      assert a + b == b;
    } else {
      assert (a + b)[0] == a[0] && (a + b)[1..] == a[1..] + b;
      RunConcat(Step(st, a[0]), a[1..], b);
    }
  }

  /** `findTagEnd` returns exactly the first `>` that is outside quotes. */
  lemma {:induction false} TagEndIsFirst(s: string, st: Quote)
    ensures var r := TagEndFrom(s, st);
            && (r >= 0 ==> s[r] == '>' && Run(st, s[..r]) == Outside)
            && (forall k :: 0 <= k < (if r < 0 then |s| else r) && s[k] == '>' ==> Run(st, s[..k]) != Outside)
    decreases |s|
  {
    if s == "" || (st == Outside && s[0] == '>') {
    } else {
      TagEndIsFirst(s[1..], Step(st, s[0]));
      var r := TagEndFrom(s, st);
      forall k | 1 <= k <= |s|
        ensures Run(st, s[..k]) == Run(Step(st, s[0]), s[1..][..k - 1])
      {
        assert s[..k][0] == s[0] && s[..k][1..] == s[1..][..k - 1];
      }
      forall k | 0 <= k < (if r < 0 then |s| else r) && s[k] == '>'
        ensures Run(st, s[..k]) != Outside
      {
        if k > 0 {
          assert s[1..][k - 1] == '>';
        }
      }
    }
  }

  /** `splitArgs` reports an unterminated quote exactly when its text ends inside quotes. */
  lemma {:induction false} SplitFailsIffInsideQuote(s: string, st: Quote, current: string)
    ensures SplitFrom(s, st, current).Some? <==> Run(st, s) == Outside
    decreases |s|
  {
    if s != "" {
      var next := Step(st, s[0]);
      SplitFailsIffInsideQuote(s[1..], next, current);
      SplitFailsIffInsideQuote(s[1..], next, "");
      SplitFailsIffInsideQuote(s[1..], next, current + [s[0]]);
    }
  }

  predicate Neutral(c: char) {
    IsSpace(c) || c == '/'
  }

  ghost predicate AllNeutral(s: string) {
    forall i :: 0 <= i < |s| ==> Neutral(s[i])
  }

  lemma {:induction false} NeutralKeepsState(st: Quote, s: string)
    requires Proper(st) && AllNeutral(s)
    ensures st == Outside ==> Run(st, s) == Outside
    ensures st != Outside ==> Run(st, s) != Outside
    decreases |s|
  {
    if s != "" {
      assert Neutral(s[0]);
      NeutralKeepsState(Step(st, s[0]), s[1..]);
    }
  }

  /** White space and slashes around a text do not change whether it ends outside quotes. */
  lemma NeutralEnds(pre: string, s: string, post: string)
    requires AllNeutral(pre) && AllNeutral(post)
    ensures Run(Outside, pre + s + post) == Outside <==> Run(Outside, s) == Outside
  {
    RunConcat(Outside, pre + s, post);
    RunConcat(Outside, pre, s);
    NeutralKeepsState(Outside, pre);
    NeutralKeepsState(Run(Outside, s), post);
  }

  lemma {:induction false} SplitLengths(s: string, st: Quote, current: string)
    requires SplitFrom(s, st, current).Some?
    ensures |SplitFrom(s, st, current).value| >= 1
    ensures |Join(SplitFrom(s, st, current).value, ":")| <= |current| + |s|
    decreases |s|
  {
    if s != "" {
      var c, next := s[0], Step(st, s[0]);
      if st == Outside && !IsQuote(c) && c == ':' {
        SplitLengths(s[1..], next, "");
        var rest := SplitFrom(s[1..], next, "").value;
        var all := [current] + rest;
        assert all[1..] == rest;
        assert Join(all, ":") == current + ":" + Join(rest, ":");
      } else if (st == Outside && IsQuote(c)) || (st.Inside? && (c == '\\' || c == st.q)) {
        SplitLengths(s[1..], next, current);
      } else {
        SplitLengths(s[1..], next, current + [c]);
      }
    }
  }

  // ------------------------------------------------------------------ a quoting printer

  function EscapeOne(c: char, q: char): string {
    if c == q || c == '\\' then ['\\', c] else [c]
  }

  function EscapeQuoted(a: string, q: char): string {
    if a == "" then "" else EscapeOne(a[0], q) + EscapeQuoted(a[1..], q)
  }

  function Quoted(a: string, q: char): string {
    [q] + EscapeQuoted(a, q) + [q]
  }

  /** Every argument in quotes, joined by colons. */
  function PrintArgs(args: seq<string>, q: char): string
    requires |args| > 0
  {
    if |args| == 1 then Quoted(args[0], q)
    else Quoted(args[0], q) + (":" + PrintArgs(args[1..], q))
  }

  /** Both scanners read one escaped character as themselves reading that character. */
  lemma ScanEscapedChar(c: char, q: char, tail: string, current: string)
    requires IsQuote(q)
    ensures SplitFrom(EscapeOne(c, q) + tail, Inside(q), current) == SplitFrom(tail, Inside(q), current + [c])
    ensures TagEndFrom(EscapeOne(c, q) + tail, Inside(q)) == Shift(TagEndFrom(tail, Inside(q)), |EscapeOne(c, q)|)
  {
    var all := EscapeOne(c, q) + tail;
    if c == q || c == '\\' {
      assert all[0] == '\\' && all[1..] == [c] + tail;
      assert ([c] + tail)[0] == c && ([c] + tail)[1..] == tail;
    } else {
      assert all[0] == c && all[1..] == tail;
    }
  }

  lemma EscapeHead(a: string, q: char, rest: string)
    requires a != ""
    ensures EscapeQuoted(a, q) + rest == EscapeOne(a[0], q) + (EscapeQuoted(a[1..], q) + rest)
    ensures |EscapeQuoted(a, q)| == |EscapeOne(a[0], q)| + |EscapeQuoted(a[1..], q)|
  {
    Associate(EscapeOne(a[0], q), EscapeQuoted(a[1..], q), rest);
  }

  lemma Associate(a: string, b: string, c: string)
    ensures a + (b + c) == a + b + c
  {
  }

  lemma {:induction false} SplitEscaped(a: string, q: char, rest: string, current: string)
    requires IsQuote(q)
    ensures SplitFrom(EscapeQuoted(a, q) + rest, Inside(q), current) == SplitFrom(rest, Inside(q), current + a)
    decreases |a|
  {
    if a == "" {
      assert EscapeQuoted(a, q) + rest == rest && current + a == current;
    } else {
      EscapeHead(a, q, rest);
      ScanEscapedChar(a[0], q, EscapeQuoted(a[1..], q) + rest, current);
      SplitEscaped(a[1..], q, rest, current + [a[0]]);
      Associate(current, [a[0]], a[1..]);
      assert [a[0]] + a[1..] == a;
    }
  }

  lemma {:induction false} ScanEscaped(a: string, q: char, rest: string, current: string)
    requires IsQuote(q)
    ensures SplitFrom(EscapeQuoted(a, q) + rest, Inside(q), current) == SplitFrom(rest, Inside(q), current + a)
    ensures TagEndFrom(EscapeQuoted(a, q) + rest, Inside(q))
         == Shift(TagEndFrom(rest, Inside(q)), |EscapeQuoted(a, q)|)
    decreases |a|
  {
    SplitEscaped(a, q, rest, current);
    if a == "" {
      assert EscapeQuoted(a, q) + rest == rest;
    } else {
      EscapeHead(a, q, rest);
      ScanEscapedChar(a[0], q, EscapeQuoted(a[1..], q) + rest, current);
      ScanEscaped(a[1..], q, rest, current);
    }
  }

  lemma ScanQuoted(a: string, q: char, rest: string, current: string)
    requires IsQuote(q)
    ensures SplitFrom(Quoted(a, q) + rest, Outside, current) == SplitFrom(rest, Outside, current + a)
    ensures TagEndFrom(Quoted(a, q) + rest, Outside) == Shift(TagEndFrom(rest, Outside), |Quoted(a, q)|)
  {
    var all := Quoted(a, q) + rest;
    assert all[0] == q && all[1..] == EscapeQuoted(a, q) + ([q] + rest);
    ScanEscaped(a, q, [q] + rest, current);
    assert ([q] + rest)[0] == q && ([q] + rest)[1..] == rest;
  }

  /** `splitArgs` undoes the quoting printer, and `findTagEnd` skips over what it prints. */
  lemma {:induction false} SplitInvertsPrint(args: seq<string>, q: char, rest: string)
    requires |args| > 0 && IsQuote(q)
    ensures SplitArgs(PrintArgs(args, q)) == Some(args)
    ensures TagEnd(PrintArgs(args, q) + rest) == Shift(TagEnd(rest), |PrintArgs(args, q)|)
    decreases |args|
  {
    EndSkipsPrint(args, q, rest);
    if |args| == 1 {
      ScanQuoted(args[0], q, "", "");
      assert Quoted(args[0], q) + "" == Quoted(args[0], q) && "" + args[0] == args[0];
      assert SplitFrom("", Outside, args[0]) == Some([args[0]]) && args == [args[0]];
    } else {
      var tail := PrintArgs(args[1..], q);
      SplitInvertsPrint(args[1..], q, rest);
      ScanQuoted(args[0], q, ":" + tail, "");
      assert "" + args[0] == args[0];
      assert (":" + tail)[0] == ':' && (":" + tail)[1..] == tail;
      assert args == [args[0]] + args[1..];
    }
  }

  lemma {:induction false} EndSkipsPrint(args: seq<string>, q: char, rest: string)
    requires |args| > 0 && IsQuote(q)
    ensures TagEnd(PrintArgs(args, q) + rest) == Shift(TagEnd(rest), |PrintArgs(args, q)|)
    decreases |args|
  {
    if |args| == 1 {
      ScanQuoted(args[0], q, rest, "");
    } else {
      var tail := PrintArgs(args[1..], q);
      EndSkipsPrint(args[1..], q, rest);
      Associate(Quoted(args[0], q), ":" + tail, rest);
      Associate(":", tail, rest);
      ScanQuoted(args[0], q, ":" + (tail + rest), "");
      assert (":" + (tail + rest))[0] == ':' && (":" + (tail + rest))[1..] == tail + rest;
    }
  }
}
