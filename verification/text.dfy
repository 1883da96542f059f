/** The handful of Python string operations the core relies on: substring
    search, ASCII case mapping, `replace(old, "")`, `strip()`, `", ".join`
    and decimal rendering of a count. */
module Text {

  /** `p` occurs in `s` starting at index `i`. */
  predicate MatchAt(s: string, p: string, i: int) {
    0 <= i && i + |p| <= |s| && s[i..i + |p|] == p
  }

  /** `p in s` for strings. */
  predicate Contains(s: string, p: string) {
    exists i | 0 <= i <= |s| :: MatchAt(s, p, i)
  }

  predicate EndsWith(s: string, p: string) {
    |p| <= |s| && s[|s| - |p|..] == p
  }

  function LowerChar(c: char): char {
    if 'A' <= c <= 'Z' then (c as int + 32) as char else c
  }

  function UpperChar(c: char): char {
    if 'a' <= c <= 'z' then (c as int - 32) as char else c
  }

  /** `str.lower()` restricted to ASCII letters. */
  function Lower(s: string): (r: string)
    ensures |r| == |s|
    ensures forall i :: 0 <= i < |s| ==> r[i] == LowerChar(s[i])
  {
    seq(|s|, i requires 0 <= i < |s| => LowerChar(s[i]))
  }

  /** `str.upper()` restricted to ASCII letters. */
  function Upper(s: string): (r: string)
    ensures |r| == |s|
    ensures forall i :: 0 <= i < |s| ==> r[i] == UpperChar(s[i])
  {
    seq(|s|, i requires 0 <= i < |s| => UpperChar(s[i]))
  }

  /** Case-insensitive equality as the source writes it: `a.lower() == b.lower()`. */
  predicate EqualIgnoringCase(a: string, b: string) {
    Lower(a) == Lower(b)
  }

  /** The characters Python's `str.isspace()` accepts, which are the ones
      `str.strip()` with no argument removes: the ASCII controls tab to
      carriage return and the four separators 0x1C to 0x1F, the space, and
      the Unicode white-space characters. */
  predicate IsSpace(c: char) {
    || '\U{9}' <= c <= '\U{D}'
    || '\U{1C}' <= c <= '\U{20}'
    || c == '\U{85}' || c == '\U{A0}' || c == '\U{1680}'
    || '\U{2000}' <= c <= '\U{200A}'
    || c == '\U{2028}' || c == '\U{2029}' || c == '\U{202F}' || c == '\U{205F}' || c == '\U{3000}'
  }

  function StripLeft(s: string): (r: string)
    ensures |r| <= |s| && r == s[|s| - |r|..]
    ensures |r| > 0 ==> !IsSpace(r[0])
    ensures forall i :: 0 <= i < |s| - |r| ==> IsSpace(s[i])
  {
    if |s| > 0 && IsSpace(s[0]) then StripLeft(s[1..]) else s
  }

  function StripRight(s: string): (r: string)
    ensures |r| <= |s| && r == s[..|r|]
    ensures |r| > 0 ==> !IsSpace(r[|r| - 1])
    ensures forall i :: |r| <= i < |s| ==> IsSpace(s[i])
  {
    if |s| > 0 && IsSpace(s[|s| - 1]) then StripRight(s[..|s| - 1]) else s
  }

  /** `str.strip()`: no leading or trailing white space, and nothing but white space removed. */
  function Strip(s: string): (r: string)
    ensures |r| <= |s|
    ensures |r| > 0 ==> !IsSpace(r[0]) && !IsSpace(r[|r| - 1])
    ensures exists k | 0 <= k <= |s| :: MatchAt(s, r, k)
  {
    var l := StripLeft(s);
    var r := StripRight(l);
    assert l[..|r|] == s[|s| - |l|..][..|r|] == s[|s| - |l|..|s| - |l| + |r|];
    assert MatchAt(s, r, |s| - |l|);
    r
  }

  /** `s.replace(p, "")`: one left-to-right pass deleting non-overlapping occurrences of `p`. */
  function RemoveAll(s: string, p: string): (r: string)
    requires |p| > 0
    ensures |r| <= |s|
    decreases |s|
  {
    if |s| < |p| then s
    else if s[..|p|] == p then RemoveAll(s[|p|..], p)
    else [s[0]] + RemoveAll(s[1..], p)
  }

  /** `sep.join(xs)`. */
  function Join(sep: string, xs: seq<string>): string {
    if |xs| == 0 then ""
    else if |xs| == 1 then xs[0]
    else xs[0] + sep + Join(sep, xs[1..])
  }

  function DigitChar(d: nat): char
    requires d < 10
  {
    "0123456789"[d]
  }

  /** `str(n)` for a count. */
  function NatToString(n: nat): (r: string)
    ensures |r| > 0
  {
    if n < 10 then [DigitChar(n)] else NatToString(n / 10) + [DigitChar(n % 10)]
  }

  lemma ContainsInMiddle(a: string, p: string, b: string)
    ensures Contains(a + p + b, p)
  {
    var s := a + p + b;
    assert s[|a|..|a| + |p|] == p;
    assert MatchAt(s, p, |a|);
  }

  lemma LowerAppend(a: string, b: string)
    ensures Lower(a + b) == Lower(a) + Lower(b)
  {
  }

  /** No `x` (either case) is immediately followed by a `y` (either case). */
  predicate NoPair(s: string, x: char, y: char) {
    forall i :: 0 <= i < |s| - 1 ==> !(LowerChar(s[i]) == x && LowerChar(s[i + 1]) == y)
  }

  /** A lower-case pattern whose first two letters never occur together
      does not occur in the lower-cased text. */
  lemma NoPairNotContained(s: string, p: string)
    requires |p| >= 2 && NoPair(s, p[0], p[1])
    ensures !Contains(Lower(s), p)
  {
    var l := Lower(s);
    forall i | 0 <= i <= |l| ensures !MatchAt(l, p, i) {
      if i + |p| <= |l| {
        assert !(LowerChar(s[i]) == p[0] && LowerChar(s[i + 1]) == p[1]);
        assert l[i..i + |p|][0] == l[i] && l[i..i + |p|][1] == l[i + 1];
      }
    }
  }

  lemma {:induction false} NoPairConcat(xs: seq<string>, x: char, y: char)
    requires forall k :: 0 <= k < |xs| ==> NoPair(xs[k], x, y)
    requires forall k :: 0 <= k < |xs| ==> |xs[k]| > 0 && LowerChar(xs[k][|xs[k]| - 1]) != x
    ensures NoPair(Concat(xs), x, y)
  {
    if |xs| > 0 {
      NoPairConcat(xs[1..], x, y);
      var a, b := xs[0], Concat(xs[1..]);
      assert Concat(xs) == a + b;
      forall i | 0 <= i < |a + b| - 1
        ensures !(LowerChar((a + b)[i]) == x && LowerChar((a + b)[i + 1]) == y)
      {
        if i < |a| - 1 {
          assert (a + b)[i] == a[i] && (a + b)[i + 1] == a[i + 1];
        } else if i >= |a| {
          assert (a + b)[i] == b[i - |a|] && (a + b)[i + 1] == b[i + 1 - |a|];
        }
      }
    }
  }

  /** The pieces written one after the other. */
  function Concat(xs: seq<string>): string {
    if |xs| == 0 then "" else xs[0] + Concat(xs[1..])
  }

  lemma EndsWithConcat(a: string, b: string)
    ensures EndsWith(a + b, b)
  {
    assert (a + b)[|a|..] == b;
  }

  lemma PrefixOfConcat(a: string, b: string)
    ensures (a + b)[..|a|] == a
  {
  }
}
