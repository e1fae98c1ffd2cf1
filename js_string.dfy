/**
 * The few pieces of JavaScript string semantics that the haste client relies on:
 * truthiness of a string-or-undefined, the `||` operator on such values, the `\s`
 * character class, trimming with `replace(/^\s+|\s+$/g, '')`, and `split(sep, 2)`.
 */
module JsString {
  import opened Wrappers

  /** JavaScript truthiness of a value that is a string or `undefined`: only `undefined` and `''` are falsy. */
  predicate Truthy(s: Option<string>) {
    s.Some? && s.value != ""
  }

  /** `a || b` on values that are strings or `undefined`. */
  function Or(a: Option<string>, b: Option<string>): (r: Option<string>)
    ensures Truthy(r) <==> Truthy(a) || Truthy(b)
    ensures Truthy(a) ==> r == a
    ensures !Truthy(a) ==> r == b
  {
    if Truthy(a) then a else b
  }

  /** The characters matched by `\s`: WhiteSpace and LineTerminator of ECMAScript. */
  predicate IsSpace(c: char) {
    c == '\t' || c == '\n' || c == '\U{B}' || c == '\U{C}' || c == '\r' || c == ' '
    || c == '\U{A0}' || c == '\U{1680}' || ('\U{2000}' <= c <= '\U{200A}')
    || c == '\U{2028}' || c == '\U{2029}' || c == '\U{202F}' || c == '\U{205F}'
    || c == '\U{3000}' || c == '\U{FEFF}'
  }

  /** Every character of `s` is white space (true of the empty string). */
  predicate Blank(s: string) {
    forall k :: 0 <= k < |s| ==> IsSpace(s[k])
  }

  /** Drop the leading run of white space: what `^\s+` removes. */
  function TrimStart(s: string): (r: string)
    ensures |r| <= |s| && r == s[|s| - |r|..]
    ensures forall k :: 0 <= k < |s| - |r| ==> IsSpace(s[k])
    ensures r == [] || !IsSpace(r[0])
  {
    if s != [] && IsSpace(s[0]) then TrimStart(s[1..]) else s
  }

  /** Drop the trailing run of white space: what `\s+$` removes. */
  function TrimEnd(s: string): (r: string)
    ensures |r| <= |s| && r == s[..|r|]
    ensures forall k :: |r| <= k < |s| ==> IsSpace(s[k])
    ensures r == [] || !IsSpace(r[|r| - 1])
  {
    if s != [] && IsSpace(s[|s| - 1]) then TrimEnd(s[..|s| - 1]) else s
  }

  /**
   * `s.replace(/^\s+|\s+$/g, '')`: the global replace removes the leading white-space
   * run and the trailing white-space run, and nothing in between.
   */
  function Trim(s: string): (r: string)
    ensures |r| <= |s|
    ensures r != [] ==> !IsSpace(r[0]) && !IsSpace(r[|r| - 1])
  {
    TrimEnd(TrimStart(s))
  }

  /** What trimming removes is white space at either end; what it keeps is one contiguous slice of `s`. */
  lemma TrimIsInnerSlice(s: string)
    ensures var i := |s| - |TrimStart(s)|;
      i + |Trim(s)| <= |s| && Trim(s) == s[i..i + |Trim(s)|]
      && (forall k :: 0 <= k < i ==> IsSpace(s[k]))
      && (forall k :: i + |Trim(s)| <= k < |s| ==> IsSpace(s[k]))
  {
    var t := TrimStart(s);
    var i := |s| - |t|;
    KeptSlice(s, i, t, TrimEnd(t));
  }

  /** Trimming the end of the suffix `s[i..]` keeps a slice of `s` starting at `i`. */
  lemma KeptSlice(s: string, i: nat, t: string, r: string)
    requires i <= |s| && t == s[i..]
    requires |r| <= |t| && r == t[..|r|] && forall k :: |r| <= k < |t| ==> IsSpace(t[k])
    ensures i + |r| <= |s| && r == s[i..i + |r|]
    ensures forall k :: i + |r| <= k < |s| ==> IsSpace(s[k])
  {
    forall k | i + |r| <= k < |s| ensures IsSpace(s[k]) {
      assert s[k] == t[k - i];
    }
  }

  /** Trimming leaves nothing exactly when the text is white space only. */
  lemma TrimEmptyIffBlank(s: string)
    ensures Trim(s) == [] <==> Blank(s)
  {
    var t := TrimStart(s);
    if t != [] {
      assert s[|s| - |t|] == t[0];
      assert !IsSpace(t[0]);
    }
  }

  /** `s.indexOf(c)`, with `|s|` standing for "not found" (JavaScript's -1). */
  function IndexOf(s: string, c: char): (i: nat)
    ensures i <= |s|
    ensures forall j :: 0 <= j < i ==> s[j] != c
    ensures i < |s| ==> s[i] == c
    ensures i == |s| <==> c !in s
  {
    if s == [] then 0 else if s[0] == c then 0 else 1 + IndexOf(s[1..], c)
  }

  /**
   * `s.split(sep, 2)` for a one-character separator: the text before the first
   * separator and, when there is one, the text between it and the next separator
   * (or the end). Whatever follows a second separator is not returned.
   */
  function Split2(s: string, sep: char): (parts: seq<string>)
    ensures 1 <= |parts| <= 2
    ensures sep !in parts[0] && |parts[0]| <= |s| && s[..|parts[0]|] == parts[0]
    ensures |parts| == 1 <==> sep !in s
    ensures |parts| == 1 ==> parts[0] == s
    ensures |parts| == 2 ==>
      var n := |parts[0]| + 1 + |parts[1]|;
      sep !in parts[1] && n <= |s| && s[|parts[0]|] == sep && s[|parts[0]| + 1..n] == parts[1]
      && (n == |s| || s[n] == sep)
  {
    var i := IndexOf(s, sep);
    if i == |s| then [s]
    else
      var rest := s[i + 1..];
      var j := IndexOf(rest, sep);
      assert sep !in rest[..j] by {
        forall k | 0 <= k < j ensures rest[..j][k] != sep { }
      }
      assert sep !in s[..i] by {
        forall k | 0 <= k < i ensures s[..i][k] != sep { }
      }
      [s[..i], rest[..j]]
  }

  /** The first separator ends the first part, whatever comes after it. */
  lemma {:induction false} IndexOfAfterFree(pre: string, sep: char, post: string)
    requires sep !in pre
    ensures IndexOf(pre + [sep] + post, sep) == |pre|
  {
    var s := pre + [sep] + post;
    var i := IndexOf(s, sep);
    assert s[|pre|] == sep;
    assert forall k :: 0 <= k < |pre| ==> s[k] == pre[k];
  }

  /** With no separator at all, `split` returns the whole text. */
  lemma Split2NoSeparator(s: string, sep: char)
    requires sep !in s
    ensures Split2(s, sep) == [s]
  {
  }

  /** With exactly one separator, `split` returns both sides of it. */
  lemma Split2OneSeparator(a: string, sep: char, b: string)
    requires sep !in a && sep !in b
    ensures Split2(a + [sep] + b, sep) == [a, b]
  {
    var s := a + [sep] + b;
    IndexOfAfterFree(a, sep, b);
    assert s[|a| + 1..] == b;
    assert IndexOf(b, sep) == |b|;
    assert s[..|a|] == a;
    assert Split2(s, sep) == [s[..|a|], s[|a| + 1..][..|b|]];
    assert s[|a| + 1..][..|b|] == b;
  }

  /** With a second separator, `split(sep, 2)` drops it and everything after it. */
  lemma Split2DropsTail(a: string, sep: char, b: string, tail: string)
    requires sep !in a && sep !in b
    ensures Split2(a + [sep] + b + [sep] + tail, sep) == [a, b]
  {
    var s := a + [sep] + b + [sep] + tail;
    assert s == a + [sep] + (b + [sep] + tail);
    IndexOfAfterFree(a, sep, b + [sep] + tail);
    assert s[|a| + 1..] == b + [sep] + tail;
    IndexOfAfterFree(b, sep, tail);
    assert (b + [sep] + tail)[..|b|] == b;
    assert s[..|a|] == a;
  }
}
