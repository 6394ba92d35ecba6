/**
 * The scanner of kevi/scanners.py: a cursor over an immutable string, with a set of
 * characters to skip and a case-sensitivity flag. The expression, predicate and model
 * scanners also count the lines of the skipped text they pass for the first time.
 * One class stands for the four scanner classes; `kind` says which one it is.
 */
module Scanning {
  import opened Wrappers
  import Strings
  import opened Characters
  import Numbers

  datatype ScannerKind = PlainScanner | ExpressionScanner | PredicateScanner | ModelScanner

  function Max(a: nat, b: nat): nat {
    if a < b then b else a
  }

  /** `text[a:b].count('\n')`, counted from the end of the slice. */
  function Newlines(text: string, a: nat, b: nat): nat
    requires a <= b <= |text|
    decreases b - a
  {
    if a == b then 0 else Newlines(text, a, b - 1) + (if text[b - 1] == '\n' then 1 else 0)
  }

  lemma {:induction false} NewlinesSplit(text: string, a: nat, b: nat, c: nat)
    requires a <= b <= c <= |text|
    ensures Newlines(text, a, c) == Newlines(text, a, b) + Newlines(text, b, c)
    decreases c - b
  {
    if b < c {
      NewlinesSplit(text, a, b, c - 1);
    }
  }

  /** `scanLocation = location`: the setter clamps to the string. */
  function Clamp(location: int, n: nat): (r: nat)
    ensures r <= n
    ensures 0 <= location <= n ==> r == location
  {
    if location > n then n else if location < 0 then 0 else location
  }

  // The reading of a string depends only on the string and on the characters skipped;
  // these are the scanner functions below stated on those two values, so that what a
  // parser read can be said without the scanner's state.

  /** `Scanner.SkipEnd` on the string `text` with the skipped characters `skip`. */
  function SkipEndIn(text: string, skip: set<string>, from: nat): (r: nat)
    requires from <= |text|
    ensures from <= r <= |text|
    decreases |text| - from
  {
    if from == |text| || !Skips(skip, text[from]) then from else SkipEndIn(text, skip, from + 1)
  }

  /** Skipping from before a position nothing is skipped at stops there at the latest. */
  lemma {:induction false} SkipEndInBelow(text: string, skip: set<string>, from: nat, p: nat)
    requires from <= p <= |text| && SkipEndIn(text, skip, p) == p
    ensures SkipEndIn(text, skip, from) <= p
    decreases p - from
  {
    if from < p && Skips(skip, text[from]) {
      SkipEndInBelow(text, skip, from + 1, p);
    }
  }

  /** `Scanner.RunEnd` on the string `text`. */
  function RunEndIn(text: string, from: nat, inSet: char -> bool, stop: bool): (r: nat)
    requires from <= |text|
    ensures from <= r <= |text|
    decreases |text| - from
  {
    if from == |text| || inSet(text[from]) == stop then from else RunEndIn(text, from + 1, inSet, stop)
  }

  /** `Scanner.Kept` on the string `text` with the skipped characters `skip`. */
  function KeptIn(text: string, skip: set<string>, from: nat, till: nat): string
    requires from <= till <= |text|
    decreases till
  {
    if from == till then ""
    else KeptIn(text, skip, from, till - 1) + (if Skips(skip, text[till - 1]) then "" else [text[till - 1]])
  }

  /** `Scanner.RunKept` on the string `text` with the skipped characters `skip`. */
  function RunKeptIn(text: string, skip: set<string>, q: nat, inSet: char -> bool): Option<string>
    requires q <= |text|
  {
    var e := RunEndIn(text, q, inSet, false);
    if q < |text| && KeptIn(text, skip, q, e) != "" then Some(KeptIn(text, skip, q, e)) else None
  }

  /** `Scanner.KeywordAt` on the string `text` with the skipped characters `skip`. */
  predicate KeywordIn(text: string, skip: set<string>, q: nat, key: string)
    requires q <= |text|
  {
    key != "" && q + |key| <= |text| &&
    Strings.LowerAll(text[q..q + |key|]) == Strings.LowerAll(key) &&
    (SkipEndIn(text, skip, q + |key|) >= |text| || !IsAsciiAlnum(text[q + |key|]))
  }

  /** `Scanner.FirstKeywordAt` on the string `text` with the skipped characters `skip`. */
  function FirstKeywordIn(text: string, skip: set<string>, q: nat, keys: seq<string>): (k: nat)
    requires q <= |text|
    ensures k <= |keys|
    ensures k < |keys| ==> KeywordIn(text, skip, q, keys[k])
  {
    if keys == [] then 0
    else if KeywordIn(text, skip, q, keys[0]) then 0
    else 1 + FirstKeywordIn(text, skip, q, keys[1..])
  }

  /** `Scanner.GrowLength` on the string `text`. */
  function GrowLengthIn<T>(text: string, from: nat, parse: string -> Option<T>, i: nat): (r: nat)
    requires from + i <= |text|
    ensures i <= r && from + r <= |text|
    ensures r > i ==> parse(text[from..from + r]).Some?
    decreases |text| - from - i
  {
    if from + i + 1 <= |text| && parse(text[from..from + i + 1]).Some? then GrowLengthIn(text, from, parse, i + 1) else i
  }

  /** The first of `strs` that occurs at `q` up to ASCII case, or |strs|. */
  function FirstCaselessAt(text: string, q: nat, strs: seq<string>): (k: nat)
    ensures k <= |strs|
    ensures k < |strs| ==> q < |text| && q + |strs[k]| <= |text|
  {
    if strs == [] then 0
    else if q < |text| && q + |strs[0]| <= |text| && Strings.LowerAll(text[q..q + |strs[0]|]) == Strings.LowerAll(strs[0]) then 0
    else 1 + FirstCaselessAt(text, q, strs[1..])
  }

  /** The first position at or after `from` holding `c`, or the end of the string. */
  function CharFrom(text: string, from: nat, c: char): (r: nat)
    requires from <= |text|
    ensures from <= r <= |text|
    ensures r < |text| ==> text[r] == c
    ensures forall i :: from <= i < r ==> text[i] != c
  {
    var f := Strings.FindChar(text, c, from);
    if f < 0 then |text| else f
  }

  /** Past the one-character symbol `c` after the skipped characters from `from`, or past those characters only. */
  function CharScanEnd(text: string, skip: set<string>, from: nat, c: char): (r: nat)
    requires from <= |text|
    ensures from <= r <= |text|
  {
    var q := SkipEndIn(text, skip, from);
    if q < |text| && text[q] == c then q + 1 else q
  }

  class Scanner {
    const text: string
    const kind: ScannerKind
    var pos: nat
    var skip: set<string>          // the empty set stands for None
    var caseSensitive: bool
    var lineNumber: nat
    var maxScan: nat               // the high-water mark of skipped text already counted

    /**
     * The cursor is within the string, and the line counter is one more than at most
     * the number of newlines before the high-water mark; a plain scanner counts nothing.
     */
    ghost predicate Valid()
      reads this
    {
      pos <= |text| && maxScan <= |text| && 1 <= lineNumber &&
      lineNumber - 1 <= Newlines(text, 0, maxScan) &&
      (kind == PlainScanner ==> lineNumber == 1 && maxScan == 0)
    }

    predicate TracksLines() {
      kind != PlainScanner
    }

    predicate HasKeywords() {
      kind == PredicateScanner || kind == ModelScanner
    }

    /** Neither the line counter nor the high-water mark ever goes back. */
    twostate predicate LinesKept()
      reads this
    {
      old(lineNumber) <= lineNumber && old(maxScan) <= maxScan
    }

    /** The cursor did not move back, the lines and skip set are kept, and case sensitivity is never turned on. */
    twostate predicate Advanced()
      reads this
    {
      old(pos) <= pos && LinesKept() && skip == old(skip) && (caseSensitive ==> old(caseSensitive))
    }

    /** The newlines in text[a..b], or none when the range is empty. */
    function NewlinesBetween(a: nat, b: nat): nat
    {
      if a < b <= |text| then Newlines(text, a, b) else 0
    }

    /**
     * The effect on the line counter of passing skipped text from `from` to `till`:
     * only the part beyond the old high-water mark is counted, and the mark moves up.
     */
    twostate predicate LinesTracked(from: nat, till: nat)
      reads this
    {
      if kind == PlainScanner then lineNumber == old(lineNumber) && maxScan == old(maxScan)
      else
        maxScan == Max(old(maxScan), till) &&
        lineNumber == old(lineNumber) + NewlinesBetween(Max(from, old(maxScan)), Max(till, old(maxScan)))
    }

    /** The first position at or after `from` that holds a character not to be skipped. */
    function SkipEnd(from: nat): (r: nat)
      reads this`skip
      requires from <= |text|
      ensures from <= r <= |text|
      ensures forall i {:trigger Skips(skip, text[i])} :: from <= i < r ==> Skips(skip, text[i])
      ensures r < |text| ==> !Skips(skip, text[r])
      ensures r == SkipEndIn(text, skip, from)
      decreases |text| - from
    {
      if from == |text| || !Skips(skip, text[from]) then from else SkipEnd(from + 1)
    }

    /** Passing the skipped characters twice passes them once. */
    lemma SkipEndTwice(from: nat)
      requires from <= |text|
      ensures SkipEnd(SkipEnd(from)) == SkipEnd(from)
    {
    }

    /** Whether `s` occurs at `i`, ignoring ASCII case unless the scanner is case sensitive. */
    predicate MatchAt(i: nat, s: string)
      reads this`caseSensitive
    {
      i + |s| <= |text| &&
      if caseSensitive then text[i..i + |s|] == s
      else Strings.LowerAll(text[i..i + |s|]) == Strings.LowerAll(s)
    }

    /** For text without ASCII letters, a match up to case is an exact occurrence. */
    lemma MatchOfSymbols(q: nat, s: string)
      requires forall i :: 0 <= i < |s| ==> !IsAsciiLetter(s[i])
      ensures MatchAt(q, s) <==> Strings.OccursAt(text, s, q)
    {
      if q + |s| <= |text| && !caseSensitive {
        var t := text[q..q + |s|];
        if Strings.LowerAll(t) == Strings.LowerAll(s) {
          forall i | 0 <= i < |s|
            ensures t[i] == s[i]
          {
            assert Strings.Lower(s[i]) == s[i];
            assert Strings.Lower(t[i]) == s[i];
          }
          assert t == s;
        }
      }
    }

    /** The first position at or after `from` where `s` occurs, or the end of the string. */
    function FindFrom(from: nat, s: string): (r: nat)
      reads this`caseSensitive
      requires from <= |text|
      ensures from <= r <= |text|
      ensures r < |text| ==> MatchAt(r, s)
      ensures forall i :: from <= i < r ==> !MatchAt(i, s)
      decreases |text| - from
    {
      if from == |text| || MatchAt(from, s) then from else FindFrom(from + 1, s)
    }

    /** The first position at or after `from` whose character's membership equals `stop`. */
    function RunEnd(from: nat, inSet: char -> bool, stop: bool): (r: nat)
      requires from <= |text|
      ensures from <= r <= |text|
      ensures forall i :: from <= i < r ==> inSet(text[i]) != stop
      ensures r < |text| ==> inSet(text[r]) == stop
      ensures r == RunEndIn(text, from, inSet, stop)
      decreases |text| - from
    {
      if from == |text| || inSet(text[from]) == stop then from else RunEnd(from + 1, inSet, stop)
    }

    /** The characters of text[from..till] that are not skipped. */
    function Kept(from: nat, till: nat): (r: string)
      reads this`skip
      requires from <= till <= |text|
      ensures |r| <= till - from
      decreases till
      ensures forall c :: (c in r ==> !Skips(skip, c))
      ensures r == KeptIn(text, skip, from, till)
    {
      if from == till then ""
      else Kept(from, till - 1) + (if Skips(skip, text[till - 1]) then "" else [text[till - 1]])
    }

    /** What `scanCharactersFromSet` reads from `q` on, where no character is to be skipped. */
    function RunKept(q: nat, inSet: char -> bool): (r: Option<string>)
      reads this`skip
      requires q <= |text|
      ensures r == RunKeptIn(text, skip, q, inSet)
    {
      if q < |text| && Kept(q, RunEnd(q, inSet, false)) != "" then Some(Kept(q, RunEnd(q, inSet, false))) else None
    }

    /** How many characters from `from` on form prefixes `parse` accepts one after another, from `i` on. */
    function GrowLength<T>(from: nat, parse: string -> Option<T>, i: nat): (r: nat)
      requires from + i <= |text|
      ensures i <= r && from + r <= |text|
      ensures r > i ==> parse(text[from..from + r]).Some?
      ensures from + r < |text| ==> parse(text[from..from + r + 1]).None?
      ensures r == GrowLengthIn(text, from, parse, i)
      decreases |text| - from - i
    {
      if from + i + 1 <= |text| && parse(text[from..from + i + 1]).Some? then GrowLength(from, parse, i + 1) else i
    }

    /** A keyword at `q`: a case-insensitive match not followed by an ASCII letter or digit. */
    predicate KeywordAt(q: nat, key: string)
      reads this`skip
      requires q <= |text|
      ensures KeywordAt(q, key) == KeywordIn(text, skip, q, key)
    {
      KeyMatchedAt(q, key) &&
      (SkipEnd(q + |key|) >= |text| || !IsAsciiAlnum(text[q + |key|]))
    }

    /** A non-empty `key` occurs at `q` up to ASCII case. */
    predicate KeyMatchedAt(q: nat, key: string) {
      key != "" && q + |key| <= |text| &&
      Strings.LowerAll(text[q..q + |key|]) == Strings.LowerAll(key)
    }

    /** The index of the first of `keys` that is a keyword at `q`, or |keys|. */
    function FirstKeywordAt(q: nat, keys: seq<string>): (k: nat)
      reads this`skip
      requires q <= |text|
      ensures k <= |keys|
      ensures k < |keys| ==> KeywordAt(q, keys[k])
      ensures forall j :: 0 <= j < k ==> !KeywordAt(q, keys[j])
      ensures k == FirstKeywordIn(text, skip, q, keys)
    {
      if keys == [] then 0
      else if KeywordAt(q, keys[0]) then 0
      else 1 + FirstKeywordAt(q, keys[1..])
    }

    /** The index of the first of `strs` that occurs at `q` before the end, or |strs|. */
    function FirstMatchAt(q: nat, strs: seq<string>): (k: nat)
      reads this`caseSensitive
      ensures k <= |strs|
      ensures k < |strs| ==> q < |text| && MatchAt(q, strs[k])
      ensures forall j :: 0 <= j < k ==> !(q < |text| && MatchAt(q, strs[j]))
    {
      if strs == [] then 0
      else if q < |text| && MatchAt(q, strs[0]) then 0
      else 1 + FirstMatchAt(q, strs[1..])
    }

    constructor(text: string, kind: ScannerKind)
      ensures Valid()
      ensures this.text == text && this.kind == kind
      ensures pos == 0 && skip == DefaultSkip && !caseSensitive && lineNumber == 1 && maxScan == 0
    {
      this.text := text;
      this.kind := kind;
      pos := 0;
      skip := DefaultSkip;
      caseSensitive := false;
      lineNumber := 1;
      maxScan := 0;
    }

    /** The `scanLocation` setter. Rewinding the cursor leaves the line counter alone. */
    method SetScanLocation(location: int)
      requires Valid()
      modifies this
      ensures Valid()
      ensures pos == Clamp(location, |text|)
      ensures skip == old(skip) && caseSensitive == old(caseSensitive)
      ensures lineNumber == old(lineNumber) && maxScan == old(maxScan)
    {
      pos := Clamp(location, |text|);
    }

    /** The `charactersToBeSkipped` setter. */
    method SetSkip(s: set<string>)
      requires Valid()
      modifies this
      ensures Valid()
      ensures skip == s && pos == old(pos) && caseSensitive == old(caseSensitive)
      ensures lineNumber == old(lineNumber) && maxScan == old(maxScan)
    {
      skip := s;
    }

    /**
     * `_movePastCharactersToBeSkipped`: moves the cursor past skipped characters and,
     * in a line-counting scanner, counts the newlines passed beyond the high-water mark.
     */
    method MovePastSkip()
      requires Valid()
      modifies this
      ensures Valid()
      ensures pos == SkipEnd(old(pos))
      ensures skip == old(skip) && caseSensitive == old(caseSensitive)
      ensures LinesTracked(old(pos), pos)
    {
      var start := pos;
      var current := start;
      if skip != {} {
        current := SkipFrom(start);
      } else {
        assert current == |text| || !Skips(skip, text[current]);
      }
      pos := current;
      CountPassed(start, current);
    }

    /** The loop of `_movePastCharactersToBeSkipped`: walks past the skipped characters. */
    method SkipFrom(start: nat) returns (current: nat)
      requires start <= |text|
      ensures current == SkipEnd(start)
    {
      current := start;
      while current < |text| && Skips(skip, text[current])
        invariant start <= current <= |text|
        invariant SkipEnd(current) == SkipEnd(start)
        decreases |text| - current
      {
        current := current + 1;
      }
    }

    /**
     * The line counting of the expression scanner's `_movePastCharactersToBeSkipped`:
     * the newlines of the passed text beyond the high-water mark are added, and the mark
     * moves up to where the cursor stopped.
     */
    method CountPassed(from: nat, till: nat)
      requires Valid() && from <= till <= |text|
      modifies this
      ensures Valid()
      ensures pos == old(pos) && skip == old(skip) && caseSensitive == old(caseSensitive)
      ensures kind == PlainScanner ==> lineNumber == old(lineNumber) && maxScan == old(maxScan)
      ensures kind != PlainScanner ==>
                maxScan == Max(old(maxScan), till) &&
                lineNumber == old(lineNumber) + NewlinesBetween(Max(from, old(maxScan)), Max(till, old(maxScan)))
    {
      if kind != PlainScanner {
        var low := Max(from, maxScan);
        var high := Max(till, maxScan);
        NewlinesSplit(text, 0, maxScan, high);
        if high > low {
          NewlinesSplit(text, 0, maxScan, low);
          NewlinesSplit(text, 0, low, high);
          lineNumber := lineNumber + Newlines(text, low, high);
        }
        if high > maxScan {
          maxScan := high;
        }
      }
    }

    /** `atEnd`: whether only skipped characters remain. The cursor is put back; the line counter is not. */
    method AtEnd() returns (b: bool)
      requires Valid()
      modifies this
      ensures Valid()
      ensures b <==> SkipEnd(pos) >= |text|
      ensures pos == old(pos) && skip == old(skip) && caseSensitive == old(caseSensitive)
      ensures LinesTracked(old(pos), SkipEnd(pos))
    {
      var location := pos;
      MovePastSkip();
      b := pos >= |text|;
      pos := location;
    }

    /**
     * `scanString(s)`: after the skipped characters, `s` (up to ASCII case unless case
     * sensitive) is consumed and returned; otherwise None, the cursor past the skipped
     * characters.
     */
    method ScanString(s: string) returns (r: Option<string>)
      requires Valid()
      modifies this
      ensures Valid()
      ensures skip == old(skip) && caseSensitive == old(caseSensitive)
      ensures var q := old(SkipEnd(pos));
              && (r.Some? <==> q < |text| && MatchAt(q, s))
              && (r.Some? ==> r.value == s && pos == q + |s|)
              && (r.None? ==> pos == q)
              && LinesTracked(old(pos), q)
    {
      MovePastSkip();
      r := StringHere(s);
    }

    /** `scanString` once past the skipped characters: the end test, then the comparison at the cursor. */
    method StringHere(s: string) returns (r: Option<string>)
      requires Valid() && SkipEnd(pos) == pos && (TracksLines() ==> pos <= maxScan)
      modifies this
      ensures Valid()
      ensures skip == old(skip) && caseSensitive == old(caseSensitive)
      ensures lineNumber == old(lineNumber) && maxScan == old(maxScan)
      ensures r.Some? <==> old(pos) < |text| && MatchAt(old(pos), s)
      ensures r.Some? ==> r.value == s && pos == old(pos) + |s|
      ensures r.None? ==> pos == old(pos)
    {
      var q := pos;
      var atEnd := AtEnd();
      if atEnd {
        return None;
      }
      var end := if pos + |s| <= |text| then pos + |s| else |text|;
      var current := text[pos..end];
      if (caseSensitive && current != s) || (!caseSensitive && Strings.LowerAll(current) != Strings.LowerAll(s)) {
        assert !MatchAt(q, s);
        return None;
      }
      pos := pos + |s|;
      r := Some(s);
    }

    /**
     * `_scanWithSet(scanSet, stop)`: at the end, None; otherwise, past the skipped
     * characters, the run of characters up to the first whose membership in the set
     * equals `stop`, without the skipped ones. When that leaves nothing the result is
     * None and the cursor stays past the skipped characters.
     */
    method ScanWithSet(inSet: char -> bool, stop: bool) returns (r: Option<string>)
      requires Valid()
      modifies this
      ensures Valid()
      ensures skip == old(skip) && caseSensitive == old(caseSensitive)
      ensures var q := old(SkipEnd(pos));
              && LinesTracked(old(pos), q)
              && (q >= |text| ==> r.None? && pos == old(pos))
              && (q < |text| ==>
                    var e := RunEnd(q, inSet, stop);
                    && r == (if Kept(q, e) == "" then None else Some(Kept(q, e)))
                    && pos == (if r.Some? then e else q))
    {
      var atEnd := AtEnd();
      if atEnd {
        return None;
      }
      ghost var lines, mark := lineNumber, maxScan;
      MovePastSkip();
      assert lineNumber == lines && maxScan == mark;
      var current, result := CollectRun(pos, inSet, stop);
      if result != "" {
        pos := current;
        r := Some(result);
      } else {
        r := None;
      }
    }

    /** The loop of `_scanWithSet`: walks the run from `q`, keeping the characters not skipped. */
    method CollectRun(q: nat, inSet: char -> bool, stop: bool) returns (e: nat, result: string)
      requires q <= |text|
      ensures e == RunEnd(q, inSet, stop) && result == Kept(q, e)
    {
      e := q;
      result := "";
      while e < |text|
        invariant q <= e <= |text|
        invariant RunEnd(e, inSet, stop) == RunEnd(q, inSet, stop)
        invariant result == Kept(q, e)
        decreases |text| - e
      {
        var c := text[e];
        if inSet(c) == stop {
          break;
        }
        if !Skips(skip, c) {
          result := result + [c];
        }
        e := e + 1;
      }
    }

    /**
     * `scanCharactersFromSet`: past the skipped characters, the run of characters in the
     * set, without the skipped ones; None, with the cursor past the skipped characters,
     * when that leaves nothing.
     */
    method ScanCharactersFromSet(inSet: char -> bool) returns (r: Option<string>)
      requires Valid()
      modifies this
      ensures Valid() && Advanced() && caseSensitive == old(caseSensitive)
      ensures r == old(RunKept(SkipEnd(pos), inSet))
      ensures r.Some? ==> pos == RunEnd(old(SkipEnd(pos)), inSet, false)
      ensures r.None? ==> pos <= old(SkipEnd(pos)) && SkipEnd(pos) == old(SkipEnd(pos))
      ensures r.Some? ==> r.value != "" && (forall c :: c in r.value ==> inSet(c))
      ensures r.Some? ==> old(pos) < pos
    {
      r := ScanWithSet(inSet, false);
      KeptFromRun(old(SkipEnd(pos)), inSet);
    }

    /** The kept characters of a run all belong to the set. */
    lemma {:induction false} KeptFromRun(q: nat, inSet: char -> bool)
      requires q <= |text|
      ensures forall c :: c in Kept(q, RunEnd(q, inSet, false)) ==> inSet(c)
    {
      KeptWithin(q, RunEnd(q, inSet, false), inSet);
    }

    lemma {:induction false} KeptWithin(q: nat, e: nat, inSet: char -> bool)
      requires q <= e <= |text|
      requires forall i :: q <= i < e ==> inSet(text[i])
      ensures forall c :: c in Kept(q, e) ==> inSet(c)
      decreases e - q
    {
      if q < e {
        KeptWithin(q, e - 1, inSet);
      }
    }

    /**
     * `scanUpToString(s)`: the text from the cursor up to the first occurrence of `s`
     * (or to the end), which is not consumed; None, and no move, when that is empty.
     * Nothing is skipped and no line is counted.
     */
    method ScanUpToString(s: string) returns (r: Option<string>)
      requires Valid()
      modifies this
      ensures Valid()
      ensures skip == old(skip) && caseSensitive == old(caseSensitive)
      ensures lineNumber == old(lineNumber) && maxScan == old(maxScan)
      ensures var e := FindFrom(old(pos), s);
              && pos == e
              && r == (if e == old(pos) then None else Some(text[old(pos)..e]))
    {
      var current, captured := CaptureUpTo(pos, s);
      assert |captured| == current - pos;
      if captured != "" {
        pos := current;
        r := Some(captured);
      } else {
        r := None;
      }
    }

    /** The loop of `scanUpToString`: captures characters until `s` occurs. */
    method CaptureUpTo(start: nat, s: string) returns (e: nat, captured: string)
      requires start <= |text|
      ensures e == FindFrom(start, s) && captured == text[start..e]
    {
      e := start;
      captured := "";
      while e < |text|
        invariant start <= e <= |text|
        invariant FindFrom(e, s) == FindFrom(start, s)
        invariant captured == text[start..e]
        decreases |text| - e
      {
        var found := OccursAt(e, s);
        if found {
          break;
        }
        captured := captured + [text[e]];
        e := e + 1;
      }
    }

    /** The test of `scanUpToString` at one position: equal, or equal up to case when case is ignored. */
    method OccursAt(i: nat, s: string) returns (b: bool)
      requires i <= |text|
      ensures b <==> MatchAt(i, s)
    {
      var end := if i + |s| <= |text| then i + |s| else |text|;
      var currentStr := text[i..end];
      b := currentStr == s || (!caseSensitive && Strings.LowerAll(currentStr) == Strings.LowerAll(s));
      if end < i + |s| {
        assert |Strings.LowerAll(currentStr)| < |Strings.LowerAll(s)|;
      }
    }

    /**
     * `scanWithParseFunction(parse)`: past the skipped characters, feeds `parse` ever
     * longer prefixes of the rest until one fails, consumes the longest that passed and
     * returns its value (None when not even one character passes).
     */
    method ScanWithParseFunction<T>(parse: string -> Option<T>) returns (f: Option<T>)
      requires Valid()
      modifies this
      ensures Valid()
      ensures skip == old(skip) && caseSensitive == old(caseSensitive)
      ensures Advanced()
      ensures var q := old(SkipEnd(pos));
              var n := GrowLength(q, parse, 0);
              && pos == q + n
              && (f.Some? <==> n > 0)
              && f == (if n == 0 then None else parse(text[q..q + n]))
              && LinesTracked(old(pos), q)
    {
      MovePastSkip();
      f := ParsePrefixes(parse);
    }

    /**
     * `scanWithParseFunction` once past the skipped characters: the end test, then the
     * longest accepted prefix from the cursor. No line is counted again.
     */
    method ParsePrefixes<T>(parse: string -> Option<T>) returns (f: Option<T>)
      requires Valid() && SkipEnd(pos) == pos && (TracksLines() ==> pos <= maxScan)
      modifies this
      ensures Valid()
      ensures skip == old(skip) && caseSensitive == old(caseSensitive)
      ensures lineNumber == old(lineNumber) && maxScan == old(maxScan)
      ensures var n := GrowLength(old(pos), parse, 0);
              && pos == old(pos) + n
              && f == (if n == 0 then None else parse(text[old(pos)..old(pos) + n]))
    {
      var loc := pos;
      f := None;
      var atEnd := AtEnd();
      if atEnd {
        assert GrowLength(loc, parse, 0) == 0;
        return;
      }
      var i;
      i, f := GrowPrefixes(loc, parse);
      pos := loc + i;
    }

    /** The loop of `scanWithParseFunction`: feeds `parse` ever longer prefixes from `loc`. */
    method GrowPrefixes<T>(loc: nat, parse: string -> Option<T>) returns (i: nat, f: Option<T>)
      requires loc <= |text|
      ensures i == GrowLength(loc, parse, 0) && loc + i <= |text|
      ensures f == (if i == 0 then None else parse(text[loc..loc + i]))
    {
      i := 0;
      f := None;
      while loc + i + 1 <= |text|
        invariant loc + i <= |text|
        invariant GrowLength(loc, parse, i) == GrowLength(loc, parse, 0)
        invariant f == (if i == 0 then None else parse(text[loc..loc + i]))
        decreases |text| - loc - i
      {
        var next := parse(text[loc..loc + i + 1]);
        if next.None? {
          break;
        }
        f := next;
        i := i + 1;
      }
      assert GrowLength(loc, parse, i) == i;
    }

    /** `scanFloat`: the prefix reached by growing one character at a time while `float()` accepts it, as an exact rational. */
    method ScanFloat() returns (f: Option<real>)
      requires Valid()
      modifies this
      ensures Valid() && Advanced() && caseSensitive == old(caseSensitive)
      ensures var q := old(SkipEnd(pos));
              var n := GrowLength(q, Numbers.PyFloat, 0);
              && pos == q + n
              && (f.Some? <==> n > 0)
              && (f.Some? ==> f == Numbers.PyFloat(text[q..pos]))
    {
      f := ScanWithParseFunction(Numbers.PyFloat);
    }

    /** `scanInt`: the prefix reached by growing one character at a time while `int()` accepts it. */
    method ScanInt() returns (f: Option<int>)
      requires Valid()
      modifies this
      ensures Valid() && Advanced() && caseSensitive == old(caseSensitive)
      ensures var q := old(SkipEnd(pos));
              var n := GrowLength(q, Numbers.PyInt, 0);
              && pos == q + n
              && (f.Some? <==> n > 0)
              && (f.Some? ==> f == Numbers.PyInt(text[q..pos]))
    {
      f := ScanWithParseFunction(Numbers.PyInt);
    }

    /**
     * `scanPredicateKeyword(key)`: turns case sensitivity off, then scans `key` and
     * accepts it only at the end or before a character that is not an ASCII letter or
     * digit. A rejected match puts the cursor back; a miss leaves it past the skipped
     * characters.
     */
    method ScanPredicateKeyword(key: string) returns (b: bool)
      requires Valid() && HasKeywords()
      modifies this
      ensures Valid() && Advanced() && !caseSensitive
      ensures var q := old(SkipEnd(pos));
              var matched := KeyMatchedAt(q, key);
              && (b <==> KeywordAt(q, key))
              && (b ==> pos == q + |key|)
              && (!b && matched ==> pos == old(pos))
              && (!matched ==> pos == q)
    {
      var loc := pos;
      ghost var q := SkipEnd(pos);
      var matched := ScanKey(key);
      if !matched {
        assert !KeywordAt(q, key);
        return false;
      }
      ghost var ended := SkipEnd(pos) >= |text| || !IsAsciiAlnum(text[pos]);
      assert ended <==> KeywordAt(q, key);
      b := TokenEnds(loc);
      assert b == ended;
    }

    /**
     * The first step of `scanPredicateKeyword`: case sensitivity off, then `scanString(key)`,
     * whose result counts only when it is not empty.
     */
    method ScanKey(key: string) returns (matched: bool)
      requires Valid()
      modifies this
      ensures Valid() && Advanced() && !caseSensitive
      ensures var q := old(SkipEnd(pos));
              && (matched <==> KeyMatchedAt(q, key))
              && pos == (if matched then q + |key| else q)
    {
      ghost var q := SkipEnd(pos);
      caseSensitive := false;
      var scanned := ScanString(key);
      assert scanned.Some? && key != "" <==> KeyMatchedAt(q, key);
      matched := scanned.Some? && scanned.value != "";
    }

    /**
     * The end test of `scanPredicateKeyword`: the token ends when only skipped characters
     * follow or the next character is not an ASCII letter or digit; otherwise the cursor
     * goes back to `loc`.
     */
    method TokenEnds(loc: nat) returns (b: bool)
      requires Valid() && loc <= pos
      modifies this
      ensures Valid() && LinesKept()
      ensures skip == old(skip) && caseSensitive == old(caseSensitive)
      ensures b <==> old(SkipEnd(pos)) >= |text| || !IsAsciiAlnum(text[old(pos)])
      ensures pos == (if b then old(pos) else loc)
    {
      var atEnd := AtEnd();
      if atEnd {
        return true;
      }
      var c := text[pos];
      if !IsAsciiAlnum(c) {
        return true;
      }
      pos := loc;
      return false;
    }

    /**
     * Tries `keys` in order as keywords and stops at the first that is accepted,
     * as the parsers' keyword tables are scanned.
     */
    method ScanFirstKeyword(keys: seq<string>) returns (k: nat)
      requires Valid() && HasKeywords()
      modifies this
      ensures Valid() && Advanced()
      ensures keys != [] ==> !caseSensitive
      ensures keys == [] ==> caseSensitive == old(caseSensitive)
      ensures var q := old(SkipEnd(pos));
              && k == FirstKeywordAt(q, keys)
              && (k < |keys| ==> pos == q + |keys[k]|)
              && (k == |keys| ==> pos <= q && SkipEnd(pos) == q)
    {
      ghost var q := SkipEnd(pos);
      k := 0;
      var found := false;
      while k < |keys| && !found
        invariant k <= |keys|
        invariant Valid() && Advanced()
        invariant k > 0 || found ==> !caseSensitive
        invariant k == 0 && !found ==> caseSensitive == old(caseSensitive)
        invariant forall j :: 0 <= j < k ==> !KeywordAt(q, keys[j])
        invariant found ==> k < |keys| && KeywordAt(q, keys[k]) && pos == q + |keys[k]|
        invariant !found ==> pos <= q && SkipEnd(pos) == q
        decreases |keys| - k, !found
      {
        found := TryKeyword(q, keys[k]);
        if !found {
          k := k + 1;
        }
      }
      FirstKeywordAtIs(q, keys, k);
    }

    /** One step of `ScanFirstKeyword`: `key` tried at `q`, the cursor left before `q` on a miss. */
    method TryKeyword(ghost q: nat, key: string) returns (found: bool)
      requires Valid() && HasKeywords() && pos <= q && SkipEnd(pos) == q
      modifies this
      ensures Valid() && Advanced() && !caseSensitive
      ensures found <==> KeywordAt(q, key)
      ensures found ==> pos == q + |key|
      ensures !found ==> pos <= q && SkipEnd(pos) == q
    {
      found := ScanPredicateKeyword(key);
    }

    lemma {:induction false} FirstKeywordAtIs(q: nat, keys: seq<string>, k: nat)
      requires q <= |text| && k <= |keys|
      requires forall j :: 0 <= j < k ==> !KeywordAt(q, keys[j])
      requires k < |keys| ==> KeywordAt(q, keys[k])
      ensures FirstKeywordAt(q, keys) == k
      decreases k
    {
      if k > 0 {
        FirstKeywordAtIs(q, keys[1..], k - 1);
      }
    }

    /**
     * Tries `strs` in order with `scanString` and stops at the first that matches, as
     * the parsers' chains of `scanString(a) or scanString(b) ...` do.
     */
    method ScanFirstString(strs: seq<string>) returns (k: nat)
      requires Valid() && strs != []
      modifies this
      ensures Valid() && Advanced() && caseSensitive == old(caseSensitive)
      ensures var q := old(SkipEnd(pos));
              && k == FirstMatchAt(q, strs)
              && pos == (if k < |strs| then q + |strs[k]| else q)
    {
      ghost var q := SkipEnd(pos);
      k := 0;
      while k < |strs|
        invariant k <= |strs|
        invariant Valid() && Advanced() && caseSensitive == old(caseSensitive)
        invariant SkipEnd(pos) == q && (k > 0 ==> pos == q)
        invariant forall j :: 0 <= j < k ==> !(q < |text| && MatchAt(q, strs[j]))
        decreases |strs| - k
      {
        var found := ScanString(strs[k]);
        if found.Some? {
          FirstMatchAtIs(q, strs, k);
          return;
        }
        k := k + 1;
      }
      FirstMatchAtIs(q, strs, k);
    }

    lemma {:induction false} FirstMatchAtIs(q: nat, strs: seq<string>, k: nat)
      requires k <= |strs|
      requires forall j :: 0 <= j < k ==> !(q < |text| && MatchAt(q, strs[j]))
      requires k < |strs| ==> q < |text| && MatchAt(q, strs[k])
      ensures FirstMatchAt(q, strs) == k
      decreases k
    {
      if k > 0 {
        FirstMatchAtIs(q, strs[1..], k - 1);
      }
    }
  }

  /** A scanner that is not case sensitive finds the first match up to case. */
  lemma {:induction false} CaselessScanned(sc: Scanner, q: nat, strs: seq<string>)
    requires !sc.caseSensitive
    ensures sc.FirstMatchAt(q, strs) == FirstCaselessAt(sc.text, q, strs)
    decreases |strs|
  {
    if strs != [] {
      CaselessScanned(sc, q, strs[1..]);
    }
  }

  /** Looking for a character that is not an ASCII letter finds its first occurrence, whatever the case sensitivity. */
  lemma {:induction false} CharFound(sc: Scanner, from: nat, c: char)
    requires from <= |sc.text| && !IsAsciiLetter(c)
    ensures sc.FindFrom(from, [c]) == CharFrom(sc.text, from, c)
    decreases |sc.text| - from
  {
    if from < |sc.text| {
      sc.MatchOfSymbols(from, [c]);
      assert sc.MatchAt(from, [c]) <==> sc.text[from] == c by {
        if sc.text[from] == c { assert sc.text[from..from + 1] == [c]; }
      }
      if sc.text[from] != c {
        CharFound(sc, from + 1, c);
      }
    }
  }
}
