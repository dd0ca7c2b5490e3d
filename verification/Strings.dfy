/**
 The pieces of Go's `strings` package that the modelled code relies on.
 A string is a sequence of code points.
 */
module Strings {

  /** The white space of `unicode.IsSpace`. */
  predicate IsSpace(c: char) {
    || '\t' <= c <= '\r'
    || c == ' ' || c == '\U{0085}' || c == '\U{00A0}' || c == '\U{1680}'
    || '\U{2000}' <= c <= '\U{200A}'
    || c == '\U{2028}' || c == '\U{2029}' || c == '\U{202F}' || c == '\U{205F}' || c == '\U{3000}'
  }

  predicate AllSpace(s: string) {
    forall i :: 0 <= i < |s| ==> IsSpace(s[i])
  }

  function TrimLeft(s: string): string {
    if s != "" && IsSpace(s[0]) then TrimLeft(s[1..]) else s
  }

  function TrimRight(s: string): string {
    if s != "" && IsSpace(s[|s| - 1]) then TrimRight(s[..|s| - 1]) else s
  }

  function TrimSpace(s: string): string {
    TrimRight(TrimLeft(s))
  }

  predicate HasPrefix(s: string, prefix: string) {
    |prefix| <= |s| && s[..|prefix|] == prefix
  }

  predicate HasSuffix(s: string, suffix: string) {
    |suffix| <= |s| && s[|s| - |suffix|..] == suffix
  }

  function TrimPrefix(s: string, prefix: string): string {
    if HasPrefix(s, prefix) then s[|prefix|..] else s
  }

  function TrimSuffix(s: string, suffix: string): string {
    if HasSuffix(s, suffix) then s[..|s| - |suffix|] else s
  }

  function Join(parts: seq<string>, sep: string): string {
    if |parts| == 0 then ""
    else if |parts| == 1 then parts[0]
    else parts[0] + sep + Join(parts[1..], sep)
  }

  lemma {:induction false} TrimLeftSplits(s: string) returns (pre: string)
    ensures AllSpace(pre) && s == pre + TrimLeft(s)
    ensures TrimLeft(s) != "" ==> !IsSpace(TrimLeft(s)[0])
  {
    if s != "" && IsSpace(s[0]) {
      var p := TrimLeftSplits(s[1..]);
      pre := [s[0]] + p;
      assert s == [s[0]] + s[1..];
    } else {
      pre := "";
    }
  }

  lemma {:induction false} TrimRightSplits(s: string) returns (post: string)
    ensures AllSpace(post) && s == TrimRight(s) + post
    ensures TrimRight(s) != "" ==> !IsSpace(TrimRight(s)[|TrimRight(s)| - 1])
  {
    if s != "" && IsSpace(s[|s| - 1]) {
      var p := TrimRightSplits(s[..|s| - 1]);
      post := p + [s[|s| - 1]];
      assert s == s[..|s| - 1] + [s[|s| - 1]];
    } else {
      post := "";
    }
  }

  /** Trimming removes white space at both ends and nothing else. */
  lemma TrimSpaceSplits(s: string) returns (pre: string, post: string)
    ensures AllSpace(pre) && AllSpace(post) && s == pre + TrimSpace(s) + post
    ensures var t := TrimSpace(s); t != "" ==> !IsSpace(t[0]) && !IsSpace(t[|t| - 1])
  {
    pre := TrimLeftSplits(s);
    post := TrimRightSplits(TrimLeft(s));
    var t := TrimSpace(s);
    assert s == pre + (t + post);
    if t != "" {
      assert TrimLeft(s)[0] == t[0];
    }
  }

  lemma TrimSpaceIdentity(s: string)
    requires s != "" ==> !IsSpace(s[0]) && !IsSpace(s[|s| - 1])
    ensures TrimSpace(s) == s
  {
  }

  /** Joining a tail of the parts never makes the text longer. */
  lemma {:induction false} JoinTail(parts: seq<string>, k: nat, sep: string)
    requires k <= |parts|
    ensures |Join(parts[k..], sep)| <= |Join(parts, sep)|
  {
    if k > 0 && |parts| > 1 {
      JoinTail(parts[1..], k - 1, sep);
      assert parts[1..][k - 1..] == parts[k..];
    } else if k > 0 {
      assert parts[k..] == [];
    } else {
      assert parts[k..] == parts;
    }
  }

  lemma {:induction false} JoinElement(parts: seq<string>, i: nat, sep: string)
    requires i < |parts|
    ensures |parts[i]| <= |Join(parts, sep)|
  {
    if i > 0 {
      JoinElement(parts[1..], i - 1, sep);
    }
  }
}
