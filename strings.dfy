/**
 * The parts of Python's `str` that the rule engine relies on: `find`/`rfind`
 * with slice bounds, `split`/`join` on one character, `strip` with a character
 * set, `replace`, ASCII `lower`, and decimal printing of integers.
 */
module Strings {

  /** Python's normalisation of a slice bound `i` for a string of length `n`. */
  function Clip(i: int, n: nat): (r: nat)
    ensures r <= n
    ensures 0 <= i <= n ==> r == i
  {
    if i < 0 then (if i + n < 0 then 0 else i + n) else if i > n then n else i
  }

  /** `s.find(c, start)`: first index at or after `start` holding `c`, or -1. */
  function FindChar(s: string, c: char, start: nat): (r: int)
    requires start <= |s|
    ensures r == -1 || (start <= r < |s| && s[r] == c)
    ensures forall i :: start <= i < |s| && (r == -1 || i < r) ==> s[i] != c
    decreases |s| - start
  {
    if start == |s| then -1 else if s[start] == c then start else FindChar(s, c, start + 1)
  }

  /** `s.rfind(c, 0, end)`: last index below `end` holding `c`, or -1. */
  function RFindChar(s: string, c: char, end: nat): (r: int)
    requires end <= |s|
    ensures r == -1 || (0 <= r < end && s[r] == c)
    ensures forall i :: r < i < end ==> s[i] != c
  {
    if end == 0 then -1 else if s[end - 1] == c then end - 1 else RFindChar(s, c, end - 1)
  }

  /** `t` occurs in `s` at index `i`. */
  predicate OccursAt(s: string, t: string, i: nat) {
    i + |t| <= |s| && s[i..i + |t|] == t
  }

  /** `s.find(t)`: first index where `t` occurs in `s`, or -1. */
  function FindSub(s: string, t: string, start: nat := 0): (r: int)
    requires start <= |s|
    ensures r == -1 || (start <= r && OccursAt(s, t, r))
    ensures forall i: nat :: start <= i && (r == -1 || i < r) ==> !OccursAt(s, t, i)
    decreases |s| - start
  {
    if start + |t| > |s| then -1
    else if OccursAt(s, t, start) then start
    else FindSub(s, t, start + 1)
  }

  predicate StartsWith(s: string, p: string) {
    |p| <= |s| && s[..|p|] == p
  }

  predicate Contains(s: string, c: char) {
    exists i :: 0 <= i < |s| && s[i] == c
  }

  /** Python's `str.split(c)` (a separator of one character). */
  function Split(s: string, c: char): (r: seq<string>)
    ensures |r| >= 1
    ensures forall k :: 0 <= k < |r| ==> c !in r[k]
    decreases |s|
  {
    var i := FindChar(s, c, 0);
    if i == -1 then
      assert forall k :: 0 <= k < |s| ==> s[k] != c;
      [s]
    else
      [s[..i]] + Split(s[i + 1..], c)
  }

  /** Python's `c.join(parts)`. */
  function Join(parts: seq<string>, c: char): (r: string)
    ensures |parts| == 1 ==> r == parts[0]
  {
    if |parts| == 0 then "" else if |parts| == 1 then parts[0] else parts[0] + [c] + Join(parts[1..], c)
  }

  lemma {:induction false} JoinSplit(s: string, c: char)
    ensures Join(Split(s, c), c) == s
    decreases |s|
  {
    var i := FindChar(s, c, 0);
    if i != -1 {
      var tail := s[i + 1..];
      var rest := Split(tail, c);
      JoinSplit(tail, c);
      JoinCons(s[..i], rest, c);
      SplitAround(s, i);
    }
  }

  /** A separator added at the end adds one empty last piece. */
  lemma {:induction false} SplitTrailingSeparator(s: string, c: char)
    ensures Split(s + [c], c) == Split(s, c) + [""]
    decreases |s|
  {
    var t := s + [c];
    var i := FindChar(s, c, 0);
    if i == -1 {
      assert t[|s|] == c;
      assert forall k :: 0 <= k < |s| ==> t[k] == s[k];
      assert FindChar(t, c, 0) == |s|;
      assert t[..|s|] == s && t[|s| + 1..] == "";
    } else {
      assert t[i] == c;
      assert forall k :: 0 <= k < i ==> t[k] == s[k];
      assert FindChar(t, c, 0) == i;
      assert t[..i] == s[..i] && t[i + 1..] == s[i + 1..] + [c];
      SplitTrailingSeparator(s[i + 1..], c);
    }
  }

  /** A string is its part before `i`, the character at `i` and its part after. */
  lemma SplitAround(s: string, i: nat)
    requires i < |s|
    ensures s == s[..i] + [s[i]] + s[i + 1..]
  {
  }

  /** Joining one more part in front adds it and a separator. */
  lemma JoinCons(a: string, rest: seq<string>, c: char)
    requires |rest| >= 1
    ensures Join([a] + rest, c) == a + [c] + Join(rest, c)
  {
    assert ([a] + rest)[1..] == rest;
  }

  /** Python's ASCII `lower` on one character. */
  function Lower(c: char): (r: char)
    ensures 'A' <= c <= 'Z' ==> 'a' <= r <= 'z'
    ensures !('A' <= c <= 'Z') ==> r == c
  {
    if 'A' <= c <= 'Z' then (c as int + 32) as char else c
  }

  function LowerAll(s: string): (r: string)
    ensures |r| == |s|
    ensures forall i :: 0 <= i < |s| ==> r[i] == Lower(s[i])
  {
    seq(|s|, i requires 0 <= i < |s| => Lower(s[i]))
  }

  /** Python's `s.lstrip(chars)`. */
  function LStrip(s: string, chars: set<char>): (r: string)
    ensures |r| <= |s|
  {
    if |s| > 0 && s[0] in chars then LStrip(s[1..], chars) else s
  }

  /** `lstrip` cuts a prefix of characters of `chars`, and no more: the rest does not start with one. */
  lemma {:induction false} LStripCuts(s: string, chars: set<char>)
    ensures var r := LStrip(s, chars);
            && r == s[|s| - |r|..]
            && (r == "" || r[0] !in chars)
            && forall i :: 0 <= i < |s| - |r| ==> s[i] in chars
    decreases |s|
  {
    if |s| > 0 && s[0] in chars {
      LStripCuts(s[1..], chars);
      var r := LStrip(s[1..], chars);
      assert s[1..][|s| - 1 - |r|..] == s[|s| - |r|..];
      forall i | 0 < i < |s| - |r|
        ensures s[i] in chars
      {
        assert s[i] == s[1..][i - 1];
      }
    }
  }

  /** Python's `s.rstrip(chars)`. */
  function RStrip(s: string, chars: set<char>): (r: string)
    ensures |r| <= |s|
  {
    if |s| > 0 && s[|s| - 1] in chars then RStrip(s[..|s| - 1], chars) else s
  }

  /** `rstrip` cuts a suffix of characters of `chars`, and no more: the rest does not end with one. */
  lemma {:induction false} RStripCuts(s: string, chars: set<char>)
    ensures var r := RStrip(s, chars);
            && r == s[..|r|]
            && (r == "" || r[|r| - 1] !in chars)
            && forall i :: |r| <= i < |s| ==> s[i] in chars
    decreases |s|
  {
    if |s| > 0 && s[|s| - 1] in chars {
      RStripCuts(s[..|s| - 1], chars);
      var r := RStrip(s[..|s| - 1], chars);
      assert s[..|s| - 1][..|r|] == s[..|r|];
      forall i | |r| <= i < |s| - 1
        ensures s[i] in chars
      {
        assert s[i] == s[..|s| - 1][i];
      }
    }
  }

  /** Python's `s.strip(chars)`. */
  function Strip(s: string, chars: set<char>): string {
    RStrip(LStrip(s, chars), chars)
  }

  /** Python's `s.replace(x, y)` (every occurrence, left to right). */
  function Replace(s: string, x: string, y: string): (r: string)
    ensures x == y ==> r == s
    decreases |s|
  {
    if x == "" then ReplaceEmpty(s, y)
    else if |s| < |x| then s
    else if s[..|x|] == x then
      assert x == y ==> s == y + s[|x|..];
      y + Replace(s[|x|..], x, y)
    else [s[0]] + Replace(s[1..], x, y)
  }

  /** `s.replace("", y)`: `y` before every character and at the end. */
  function ReplaceEmpty(s: string, y: string): (r: string)
    ensures |r| == |s| + (|s| + 1) * |y|
    ensures y == "" ==> r == s
  {
    if s == "" then y else y + [s[0]] + ReplaceEmpty(s[1..], y)
  }

  function DigitChar(d: nat): char
    requires d < 10
  {
    "0123456789"[d]
  }

  /** Decimal notation of a natural number, as Python's `str(n)`. */
  function NatToString(n: nat): (r: string)
    ensures |r| >= 1
    ensures forall i :: 0 <= i < |r| ==> '0' <= r[i] <= '9'
  {
    if n < 10 then [DigitChar(n)] else NatToString(n / 10) + [DigitChar(n % 10)]
  }

  function IntToString(i: int): string {
    if i < 0 then "-" + NatToString(-i) else NatToString(i)
  }
}
