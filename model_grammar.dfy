/**
 * The model parser of kevi/scanners.py (`ModelScanner`): a model is a sequence of
 * rulesets; a ruleset is a comma-separated list of specifier predicates followed by a
 * braced body of `key: expression` declarations and nested rulesets. Every specifier is
 * paired with every declaration of its body, and a nested ruleset's specifiers are
 * joined with AND to every specifier of the ruleset around it.
 */
module ModelGrammar {
  import opened Wrappers
  import opened Values
  import opened Expressions
  import opened Scanning
  import opened Characters
  import opened Strings
  import opened Predicates
  import opened Rules
  import PredicateGrammar
  import ExpressionGrammar

  // ---------------------------------------------------------------------------------
  // Products, as `itertools.product` lists them

  /** Every pair of `xs` and `ys` mapped by `f`, all pairs with `xs[0]` first. */
  function Product<A, B, C>(xs: seq<A>, ys: seq<B>, f: (A, B) -> C): (r: seq<C>)
    ensures |r| == |xs| * |ys|
    decreases |xs|
  {
    if xs == [] then []
    else
      var rest := Product(xs[1..], ys, f);
      assert |xs| * |ys| == |ys| + (|xs| - 1) * |ys|;
      seq(|ys|, j requires 0 <= j < |ys| => f(xs[0], ys[j])) + rest
  }

  /** The pair `(xs[i], ys[j])` sits at `i * |ys| + j`. */
  lemma {:induction false} ProductAt<A, B, C>(xs: seq<A>, ys: seq<B>, f: (A, B) -> C, i: nat, j: nat)
    requires i < |xs| && j < |ys|
    ensures i * |ys| + j < |Product(xs, ys, f)|
    ensures Product(xs, ys, f)[i * |ys| + j] == f(xs[i], ys[j])
    decreases i
  {
    var head := seq(|ys|, k requires 0 <= k < |ys| => f(xs[0], ys[k]));
    assert Product(xs, ys, f) == head + Product(xs[1..], ys, f);
    if i > 0 {
      ProductAt(xs[1..], ys, f, i - 1, j);
      assert i * |ys| + j == |ys| + ((i - 1) * |ys| + j);
    }
  }

  /** A product of two non-empty lists is not empty. */
  lemma ProductIsNonEmpty<A, B, C>(xs: seq<A>, ys: seq<B>, f: (A, B) -> C)
    requires |xs| >= 1 && |ys| >= 1
    ensures |Product(xs, ys, f)| >= 1
  {
    ProductAt(xs, ys, f, 0, 0);
  }

  /** A nested specifier: the outer format and the inner one, joined with AND. */
  function JoinAnd(outer: string, inner: string): string {
    outer + " AND " + inner
  }

  // ---------------------------------------------------------------------------------
  // The text of a specifier

  /** The characters `''.join(skip)` spells out: every character of every string in the set. */
  function JoinedCharacters(skip: set<string>): (r: set<char>)
    ensures forall s :: s in skip ==> forall i :: 0 <= i < |s| ==> s[i] in r
  {
    set s, i | s in skip && 0 <= i < |s| :: s[i]
  }

  /** The characters the scanner skips: those whose one-character string is in the set. */
  function SkippedCharacters(skip: set<string>): (r: set<char>)
    ensures forall c :: c in r <==> Skips(skip, c)
  {
    var r := set s | s in skip && |s| == 1 :: s[0];
    assert forall c :: Skips(skip, c) ==> [c][0] == c;
    assert forall s :: s in skip && |s| == 1 ==> s == [s[0]];
    r
  }

  /**
   * The text of a specifier as `parseSpecifierFormats` writes it: stripped of every
   * character of the skip strings, which, with multi-character strings in the set,
   * includes characters the scanner does not skip.
   */
  function FormatAsWritten(text: string, skip: set<string>): string {
    Strip(text, JoinedCharacters(skip))
  }

  /** The text of a specifier stripped of the characters the scanner skips. */
  function SpecifierFormat(text: string, skip: set<string>): string {
    Strip(text, SkippedCharacters(skip))
  }

  /** The specifier text neither starts nor ends with a skipped character. */
  lemma SpecifierFormatTrimmed(text: string, skip: set<string>)
    ensures Trimmed(SpecifierFormat(text, skip), skip)
  {
    var chars := SkippedCharacters(skip);
    var l := LStrip(text, chars);
    LStripCuts(text, chars);
    RStripCuts(l, chars);
    var r := RStrip(l, chars);
    assert r == "" || r[0] == l[0];
  }

  /** A text that neither starts nor ends with a skipped character. */
  predicate Trimmed(s: string, skip: set<string>) {
    s == "" || (!Skips(skip, s[0]) && !Skips(skip, s[|s| - 1]))
  }

  /**
   * The specifier text is the slice of the scanned text left after cutting skipped
   * characters, and only skipped characters, from both ends.
   */
  lemma SpecifierFormatIsSlice(text: string, skip: set<string>)
    ensures FormatStart(text, skip) + |SpecifierFormat(text, skip)| <= |text|
    ensures SpecifierFormat(text, skip) == text[FormatStart(text, skip)..FormatStart(text, skip) + |SpecifierFormat(text, skip)|]
    ensures forall i :: 0 <= i < FormatStart(text, skip) ==> Skips(skip, text[i])
    ensures forall i :: FormatStart(text, skip) + |SpecifierFormat(text, skip)| <= i < |text| ==> Skips(skip, text[i])
  {
    var chars := SkippedCharacters(skip);
    var l := LStrip(text, chars);
    var r := RStrip(l, chars);
    LStripCuts(text, chars);
    RStripCuts(l, chars);
    var a := |text| - |l|;
    assert r == text[a..a + |r|];
    forall i | a + |r| <= i < |text|
      ensures Skips(skip, text[i])
    {
      assert text[i] == l[i - a];
    }
  }

  /** Where the corrected format starts in the text it was read from. */
  function FormatStart(text: string, skip: set<string>): (a: nat)
    ensures a <= |text|
  {
    |text| - |LStrip(text, SkippedCharacters(skip))|
  }

  /**
   * With the default skip set, the format as written loses the trailing zero of
   * `value == 10`, which the scanner never skips; stripping only the skipped characters
   * keeps it.
   */
  lemma FormatAsWrittenCutsDigits()
    ensures FormatAsWritten("value == 10", DefaultSkip) == "value == 1"
    ensures SpecifierFormat("value == 10", DefaultSkip) == "value == 10"
  {
    var joined := JoinedCharacters(DefaultSkip);
    DefaultSkipSpellsDigits();
    var text := "value == 10";
    assert LStrip(text, joined) == text;
    assert text[..|text| - 1] == "value == 1";
    assert RStrip("value == 1", joined) == "value == 1";
    var skipped := SkippedCharacters(DefaultSkip);
    DefaultSkipIsWhitespace('v');
    DefaultSkipIsWhitespace('0');
    assert LStrip(text, skipped) == text;
    assert RStrip(text, skipped) == text;
  }

  /** The default skip set spells out a zero, but neither a one nor a `v`. */
  lemma DefaultSkipSpellsDigits()
    ensures '0' in JoinedCharacters(DefaultSkip)
    ensures '1' !in JoinedCharacters(DefaultSkip) && 'v' !in JoinedCharacters(DefaultSkip)
  {
    var spelled := {'\t', '\n', '\U{B}', '\U{C}', '\r', ' ', '\U{0}', '8', '5', 'a', '0'};
    assert "\U{0}a0" in DefaultSkip && "\U{0}a0"[2] == '0';
    forall s, i | s in DefaultSkip && 0 <= i < |s|
      ensures s[i] in spelled
    {
    }
  }

  // ---------------------------------------------------------------------------------
  // Declarations

  /** A declaration of a ruleset's body: a property key and its value expression. */
  datatype Declaration = Declaration(key: string, value: Expression)

  /** `Rule(predicateWithFormat(spec), key, value)`: weight zero, priority from the specifier. */
  function MakeRule(specifier: Predicate, d: Declaration): (r: Rule)
    ensures NewRule(Some(specifier), Some(d.key), Some(d.value), 0) == Ok(r)
    ensures r.specifier == specifier && r.key == d.key && r.value == d.value
    ensures r.weight == 0 && r.priority == Score(specifier)
  {
    NewRule(Some(specifier), Some(d.key), Some(d.value), 0).value
  }

  /** The character `c` is next in the text after position `i`, past the skipped characters. */
  predicate SeparatorAfter(text: string, skip: set<string>, i: nat, c: char)
    requires i <= |text|
  {
    var q := SkipEndIn(text, skip, i);
    q < |text| && text[q] == c
  }

  /** The property key read from `from` on: past the skipped characters, the run of key characters that are not skipped. */
  function KeyAt(text: string, skip: set<string>, from: nat): Option<string>
    requires from <= |text|
  {
    RunKeptIn(text, skip, SkipEndIn(text, skip, from), IsPropertyKeyCharacter)
  }

  /** Where the run of key characters read from `from` on ends. */
  function KeyEnd(text: string, skip: set<string>, from: nat): (e: nat)
    requires from <= |text|
    ensures from <= e <= |text|
  {
    RunEndIn(text, SkipEndIn(text, skip, from), IsPropertyKeyCharacter, false)
  }

  /**
   * `d` is the declaration the text holds from `from` to `till`: its key is the property
   * key read from `from` on, a colon follows the key, and the value is the expression
   * read from just after the colon up to `till`.
   */
  ghost predicate DeclarationAt(text: string, skip: set<string>, cs: bool, d: Declaration, from: nat, till: nat) {
    from <= |text| && KeyAt(text, skip, from) == Some(d.key) &&
    SeparatorAfter(text, skip, KeyEnd(text, skip, from), ':') &&
    ExpressionGrammar.ExpressionRead(text, skip, cs, d.value, SkipEndIn(text, skip, KeyEnd(text, skip, from)) + 1, till)
  }

  /**
   * `parseDeclaration`: a property key, a colon and an expression. A missing key or
   * colon is a ValueError; the expression's own errors pass through.
   */
  method ParseDeclaration(sc: Scanner) returns (r: Result<Declaration, Error>)
    requires sc.Valid() && sc.kind == ModelScanner
    modifies sc
    ensures sc.Valid() && sc.Advanced()
    ensures var key := KeyAt(sc.text, sc.skip, old(sc.pos));
            && (key.None? ==> r == Err(ValueError("Could not scan property key")))
            && (key.Some? && !SeparatorAfter(sc.text, sc.skip, KeyEnd(sc.text, sc.skip, old(sc.pos)), ':') ==>
                  r == Err(ValueError("Expected colon after property key: " + key.value)))
    ensures r.Ok? ==> old(sc.pos) < sc.pos && DeclarationAt(sc.text, sc.skip, old(sc.caseSensitive), r.value, old(sc.pos), sc.pos)
    ensures r.Ok? ==> r.value.key != "" && forall c :: c in r.value.key ==> IsPropertyKeyCharacter(c)
  {
    ghost var skip, cs := sc.skip, sc.caseSensitive;
    ghost var from := sc.pos;
    var key := sc.ScanCharactersFromSet(IsPropertyKeyCharacter);
    assert sc.skip == skip && key == KeyAt(sc.text, skip, from);
    if key.None? {
      return Err(ValueError("Could not scan property key"));
    }
    ghost var keyEnd := sc.pos;
    assert keyEnd == KeyEnd(sc.text, skip, from);
    assert key.value != "" && forall c :: c in key.value ==> IsPropertyKeyCharacter(c);
    var colon := ScanSeparator(sc, ':');
    assert sc.skip == skip && sc.caseSensitive == cs && colon == SeparatorAfter(sc.text, skip, keyEnd, ':');
    if !colon {
      return Err(ValueError("Expected colon after property key: " + key.value));
    }
    ghost var valueStart := sc.pos;
    assert valueStart == SkipEndIn(sc.text, skip, keyEnd) + 1;
    var e := ExpressionGrammar.ParseExpression(sc);
    assert sc.skip == skip;
    if e.Err? {
      return Err(e.error);
    }
    DeclarationIntro(sc.text, skip, cs, Declaration(key.value, e.value), from, keyEnd, valueStart, sc.pos);
    r := Ok(Declaration(key.value, e.value));
  }

  /** The parts `parseDeclaration` reads, one after another, make up a declaration. */
  lemma DeclarationIntro(text: string, skip: set<string>, cs: bool, d: Declaration, from: nat, keyEnd: nat, valueStart: nat, till: nat)
    requires from <= |text| && KeyAt(text, skip, from) == Some(d.key) && keyEnd == KeyEnd(text, skip, from)
    requires SeparatorAfter(text, skip, keyEnd, ':') && valueStart == SkipEndIn(text, skip, keyEnd) + 1
    requires ExpressionGrammar.ExpressionRead(text, skip, cs, d.value, valueStart, till)
    ensures DeclarationAt(text, skip, cs, d, from, till)
  {
  }

  /**
   * `scanString(separator) is not None` for a one-character separator that is not a
   * letter: whether it is next after the skipped characters, which are passed, and
   * the separator with them when it is there.
   */
  method ScanSeparator(sc: Scanner, c: char) returns (found: bool)
    requires sc.Valid() && !IsAsciiLetter(c)
    modifies sc
    ensures sc.Valid() && sc.Advanced() && sc.caseSensitive == old(sc.caseSensitive)
    ensures found <==> SeparatorAfter(sc.text, sc.skip, old(sc.pos), c)
    ensures sc.pos == SkipEndIn(sc.text, sc.skip, old(sc.pos)) + (if found then 1 else 0)
  {
    ExpressionGrammar.CharScanned(sc, sc.SkipEnd(sc.pos), c);
    var scanned := sc.ScanString([c]);
    found := scanned.Some?;
  }

  // ---------------------------------------------------------------------------------
  // Specifiers

  /** How one specifier was read: the predicate's reading from `from` to `till`, and the format kept of it. */
  datatype FormatRead = FormatRead(format: string, reading: PredicateGrammar.Reading, from: nat, till: nat)

  /** `f` is a predicate read from `f.from` to `f.till`, kept as the format of the text it spans. */
  ghost predicate FormatAt(text: string, skip: set<string>, f: FormatRead) {
    ReadingAt(text, skip, f) && FormatKept(text, skip, f)
  }

  /** `f.reading` is a predicate read from `f.from` to `f.till`. */
  ghost predicate ReadingAt(text: string, skip: set<string>, f: FormatRead) {
    f.from < f.till <= |text| && PredicateGrammar.PredicateAt(text, skip, f.reading, f.from, f.till)
  }

  /** The format of `f` is the text it spans, stripped of the characters the scanner skips. */
  predicate FormatKept(text: string, skip: set<string>, f: FormatRead) {
    f.from <= f.till <= |text| && f.format == SpecifierFormat(text[f.from..f.till], skip)
  }

  /** The specifiers `fs` were read one after another from `from` on, each after a comma that follows the one before. */
  ghost predicate FormatsRead(text: string, skip: set<string>, fs: seq<FormatRead>, from: nat) {
    ReadingsFollow(text, skip, fs, from) && forall i :: 0 <= i < |fs| ==> FormatKept(text, skip, fs[i])
  }

  /** The readings of `fs` follow one another from `from` on, each after a comma that follows the one before. */
  ghost predicate ReadingsFollow(text: string, skip: set<string>, fs: seq<FormatRead>, from: nat)
    decreases |fs|
  {
    if fs == [] then true
    else
      var init, f := fs[..|fs| - 1], fs[|fs| - 1];
      ReadingsFollow(text, skip, init, from) && ReadingAt(text, skip, f) &&
      (init == [] ==> f.from == from) &&
      (init != [] ==> var t := init[|init| - 1].till;
                      t <= |text| && SeparatorAfter(text, skip, t, ',') && f.from == SkipEndIn(text, skip, t) + 1)
  }

  /**
   * `parseSpecifierFormats` read `fs` from `from` on and stopped at `till`: at least one
   * specifier, no comma after the last, and the cursor past the skipped characters after it.
   */
  ghost predicate FormatsAt(text: string, skip: set<string>, fs: seq<FormatRead>, from: nat, till: nat) {
    FormatsRead(text, skip, fs, from) && |fs| > 0 &&
    var last := fs[|fs| - 1].till;
    last <= |text| && !SeparatorAfter(text, skip, last, ',') && till == SkipEndIn(text, skip, last)
  }

  /** The formats kept of the specifiers read. */
  function Formats(fs: seq<FormatRead>): (r: seq<string>)
    ensures |r| == |fs| && forall i :: 0 <= i < |fs| ==> r[i] == fs[i].format
  {
    seq(|fs|, i requires 0 <= i < |fs| => fs[i].format)
  }

  /** One more specifier, read after the comma that follows the last, extends the specifiers read. */
  lemma FormatsExtend(text: string, skip: set<string>, fs: seq<FormatRead>, from: nat, f: FormatRead)
    requires FormatsRead(text, skip, fs, from) && FormatAt(text, skip, f)
    requires fs == [] ==> f.from == from
    requires fs != [] ==> fs[|fs| - 1].till <= |text| && SeparatorAfter(text, skip, fs[|fs| - 1].till, ',') &&
                          f.from == SkipEndIn(text, skip, fs[|fs| - 1].till) + 1
    ensures FormatsRead(text, skip, fs + [f], from)
  {
    ReadingsExtend(text, skip, fs, from, f);
    AllExtend((g: FormatRead) => FormatKept(text, skip, g), fs, f);
  }

  /** A property of every element and of one more holds of every element of the longer sequence. */
  lemma AllExtend<T>(p: T -> bool, xs: seq<T>, x: T)
    requires forall i :: 0 <= i < |xs| ==> p(xs[i])
    requires p(x)
    ensures forall i :: 0 <= i < |xs + [x]| ==> p((xs + [x])[i])
  {
  }

  /** One more reading, after the comma that follows the last, extends the readings that follow one another. */
  lemma ReadingsExtend(text: string, skip: set<string>, fs: seq<FormatRead>, from: nat, f: FormatRead)
    requires ReadingsFollow(text, skip, fs, from) && ReadingAt(text, skip, f)
    requires fs == [] ==> f.from == from
    requires fs != [] ==> fs[|fs| - 1].till <= |text| && SeparatorAfter(text, skip, fs[|fs| - 1].till, ',') &&
                          f.from == SkipEndIn(text, skip, fs[|fs| - 1].till) + 1
    ensures ReadingsFollow(text, skip, fs + [f], from)
  {
    var fs' := fs + [f];
    assert fs'[..|fs'| - 1] == fs;
    assert fs'[|fs'| - 1] == f;
  }

  /** The formats of one more specifier are the formats before it and its own. */
  lemma FormatsAppend(fs: seq<FormatRead>, f: FormatRead)
    ensures Formats(fs + [f]) == Formats(fs) + [f.format]
  {
  }

  /** One specifier more: the readings and the formats grow, and without a comma after it the list is complete. */
  lemma FormatsStep(text: string, skip: set<string>, fs: seq<FormatRead>, from: nat, f: FormatRead, more: bool)
    requires FormatsRead(text, skip, fs, from) && FormatAt(text, skip, f)
    requires fs == [] ==> f.from == from
    requires fs != [] ==> fs[|fs| - 1].till <= |text| && SeparatorAfter(text, skip, fs[|fs| - 1].till, ',') &&
                          f.from == SkipEndIn(text, skip, fs[|fs| - 1].till) + 1
    requires more <==> SeparatorAfter(text, skip, f.till, ',')
    ensures FormatsRead(text, skip, fs + [f], from)
    ensures Formats(fs + [f]) == Formats(fs) + [f.format]
    ensures !more ==> FormatsAt(text, skip, fs + [f], from, SkipEndIn(text, skip, f.till))
  {
    FormatsExtend(text, skip, fs, from, f);
    FormatsAppend(fs, f);
  }

  /**
   * `parseSpecifierFormats`: predicates separated by commas, each kept as the text it
   * was read from. A predicate that raises ValueError makes the result None; any other
   * error passes through.
   */
  method ParseSpecifierFormats(sc: Scanner) returns (r: Result<Option<seq<string>>, Error>, ghost fs: seq<FormatRead>)
    requires sc.Valid() && sc.kind == ModelScanner
    modifies sc
    ensures sc.Valid() && sc.Advanced()
    ensures r.Err? ==> !r.error.ValueError?
    ensures r.Ok? && r.value.Some? ==> old(sc.pos) < sc.pos && |r.value.value| >= 1
    ensures r.Ok? && r.value.Some? ==> FormatsAt(sc.text, sc.skip, fs, old(sc.pos), sc.pos) && r.value.value == Formats(fs)
    ensures r.Ok? && r.value.Some? ==> !sc.caseSensitive
  {
    var specifiers: seq<string> := [];
    ghost var skip := sc.skip;
    ghost var from := sc.pos;
    fs := [];
    while true
      invariant sc.Valid() && sc.Advanced() && sc.skip == skip
      invariant FormatsRead(sc.text, skip, fs, from) && specifiers == Formats(fs)
      invariant fs != [] ==> from < sc.pos && !sc.caseSensitive
      invariant fs == [] ==> sc.pos == from
      invariant fs != [] ==> fs[|fs| - 1].till <= |sc.text| && SeparatorAfter(sc.text, skip, fs[|fs| - 1].till, ',') &&
                             sc.pos == SkipEndIn(sc.text, skip, fs[|fs| - 1].till) + 1
      decreases |sc.text| - sc.pos
    {
      var format, more, f := NextFormat(sc);
      if format.Err? {
        r := if format.error.ValueError? then Ok(None) else Err(format.error);
        return;
      }
      FormatsStep(sc.text, skip, fs, from, f, more);
      fs := fs + [f];
      specifiers := specifiers + [format.value];
      if !more {
        r := Ok(Some(specifiers));
        return;
      }
    }
  }

  /** One round of `parseSpecifierFormats`: a specifier, then whether a comma follows it. */
  method NextFormat(sc: Scanner) returns (format: Result<string, Error>, more: bool, ghost f: FormatRead)
    requires sc.Valid() && sc.kind == ModelScanner
    modifies sc
    ensures sc.Valid() && sc.Advanced()
    ensures format.Ok? ==> FormatAt(sc.text, sc.skip, f) && f.from == old(sc.pos) && format.value == f.format
    ensures format.Ok? ==> (more <==> SeparatorAfter(sc.text, sc.skip, f.till, ',')) &&
                           sc.pos == SkipEndIn(sc.text, sc.skip, f.till) + (if more then 1 else 0)
    ensures more ==> format.Ok?
    ensures format.Ok? ==> !sc.caseSensitive
  {
    more := false;
    format, f := ParseFormat(sc);
    if format.Ok? {
      more := ScanSeparator(sc, ',');
    }
  }

  /** One specifier: a predicate, kept as the trimmed text it was read from. */
  method ParseFormat(sc: Scanner) returns (r: Result<string, Error>, ghost f: FormatRead)
    requires sc.Valid() && sc.kind == ModelScanner
    modifies sc
    ensures sc.Valid() && sc.Advanced()
    ensures r.Ok? ==> FormatAt(sc.text, sc.skip, f) && f.from == old(sc.pos) && f.till == sc.pos && r.value == f.format
    ensures r.Ok? ==> !sc.caseSensitive
  {
    var mark := sc.pos;
    var p;
    ghost var pd;
    p, pd := PredicateGrammar.ParsePredicate(sc);
    f := FormatRead("", pd, mark, sc.pos);
    if p.Err? {
      return Err(p.error), f;
    }
    r := Ok(SpecifierFormat(sc.text[mark..sc.pos], sc.skip));
    f := f.(format := r.value);
  }

  /** The specifiers of a ruleset: its own formats, or each outer specifier joined with AND to each of them. */
  function Specifiers(outer: seq<string>, own: seq<string>): (r: seq<string>)
    ensures |own| >= 1 && |outer| >= 1 ==> |r| >= 1
  {
    if outer == [] then own
    else
      var r := Product(outer, own, JoinAnd);
      if |own| >= 1 then ProductIsNonEmpty(outer, own, JoinAnd); r else r
  }

  /**
   * The specifiers of a ruleset, read from the cursor on: its own formats, or, inside
   * another ruleset, each outer specifier joined with AND to each of its own. No
   * specifier is the ValueError "Expected specifier".
   */
  method ParseSpecifiers(sc: Scanner, outer: seq<string>) returns (r: Result<seq<string>, Error>, ghost fs: seq<FormatRead>)
    requires sc.Valid() && sc.kind == ModelScanner
    modifies sc
    ensures sc.Valid() && sc.Advanced()
    ensures r.Ok? ==> old(sc.pos) < sc.pos && |r.value| >= 1
    ensures r.Ok? ==> FormatsAt(sc.text, sc.skip, fs, old(sc.pos), sc.pos) && r.value == Specifiers(outer, Formats(fs))
    ensures r.Err? && r.error.ValueError? ==> r.error == ValueError("Expected specifier")
    ensures r.Ok? ==> !sc.caseSensitive
  {
    var formats;
    formats, fs := ParseSpecifierFormats(sc);
    if formats.Err? {
      return Err(formats.error), fs;
    }
    if formats.value.None? {
      return Err(ValueError("Expected specifier")), fs;
    }
    var formatted := formats.value.value;
    if outer == [] {
      return Ok(formatted), fs;
    }
    r := Ok(Specifiers(outer, formatted));
  }

  // ---------------------------------------------------------------------------------
  // Rules

  /** How a specifier was parsed again on its own: the predicate's reading from its start to `till`. */
  datatype SpecifierRead = SpecifierRead(reading: PredicateGrammar.Reading, till: nat)

  /** Each specifier text holds, from its start, the predicate reading of the same index. */
  ghost predicate SpecifiersParsed(specifiers: seq<string>, parses: seq<SpecifierRead>) {
    |parses| == |specifiers| &&
    forall i :: 0 <= i < |parses| ==> PredicateGrammar.PredicateAt(specifiers[i], DefaultSkip, parses[i].reading, 0, parses[i].till)
  }

  /** Without declarations no specifier is parsed again; with some, every one is. */
  ghost predicate RulesBuilt(specifiers: seq<string>, declarations: seq<Declaration>, parses: seq<SpecifierRead>) {
    if declarations == [] then parses == [] else SpecifiersParsed(specifiers, parses)
  }

  /** The predicates the specifiers were parsed into. */
  function SpecifierPredicates(parses: seq<SpecifierRead>): (r: seq<Predicate>)
    ensures |r| == |parses| && forall i :: 0 <= i < |parses| ==> r[i] == PredicateGrammar.Denotes(parses[i].reading)
  {
    seq(|parses|, i requires 0 <= i < |parses| => PredicateGrammar.Denotes(parses[i].reading))
  }

  /**
   * The rules of a ruleset's own declarations: each specifier parsed again as a
   * predicate and paired with every declaration, specifier by specifier. Without
   * declarations nothing is parsed.
   */
  method BuildRules(specifiers: seq<string>, declarations: seq<Declaration>) returns (r: Result<seq<Rule>, Error>, ghost parses: seq<SpecifierRead>)
    ensures r.Ok? ==> RulesBuilt(specifiers, declarations, parses) && r.value == Product(SpecifierPredicates(parses), declarations, MakeRule)
    ensures r.Ok? ==> forall i :: 0 <= i < |parses| ==> PredicateGrammar.Flat(PredicateGrammar.Denotes(parses[i].reading))
    ensures r.Err? ==> declarations != []
  {
    parses := [];
    if declarations == [] {
      return Ok([]), parses;
    }
    var parsed: seq<Predicate> := [];
    for i := 0 to |specifiers|
      invariant |parsed| == |parses| == i
      invariant forall k :: 0 <= k < i ==> parsed[k] == PredicateGrammar.Denotes(parses[k].reading)
      invariant forall k :: 0 <= k < i ==> PredicateGrammar.Flat(parsed[k])
      invariant forall k :: 0 <= k < i ==> PredicateGrammar.PredicateAt(specifiers[k], DefaultSkip, parses[k].reading, 0, parses[k].till)
    {
      var ps := new Scanner(specifiers[i], PredicateScanner);
      var p;
      ghost var pd;
      p, pd := PredicateGrammar.ParsePredicate(ps);
      if p.Err? {
        return Err(p.error), parses;
      }
      parsed := parsed + [p.value];
      parses := parses + [SpecifierRead(pd, ps.pos)];
    }
    assert parsed == SpecifierPredicates(parses);
    r := Ok(Product(parsed, declarations, MakeRule));
  }

  // ---------------------------------------------------------------------------------
  // Rulesets

  /** How one item of a body was read: a declaration with the `;` after it, or a nested ruleset. */
  datatype ItemRead =
    | DeclRead(decl: Declaration, from: nat, declEnd: nat, till: nat)
    | NestedRead(ruleset: RulesetRead, from: nat, till: nat)

  /** How a body stopped: after a declaration with no `;` after it, or where a nested ruleset raised ValueError. */
  datatype BodyEnd = LastDeclaration(decl: Declaration, declEnd: nat) | Failed

  /**
   * How a ruleset was read: its specifiers up to `open`, the items of its body and how
   * the body stopped at `bodyEnd`, and its specifiers parsed again for its rules.
   */
  datatype RulesetRead = RulesetRead(formats: seq<FormatRead>, open: nat, items: seq<ItemRead>, ending: BodyEnd, bodyEnd: nat, specifierReads: seq<SpecifierRead>)

  /**
   * `rr` is the ruleset the text holds from `from` to `till`, inside rulesets whose
   * specifiers are `outer`: specifiers, `{`, a body and `}`, and, when the body has
   * declarations, every specifier parsed again.
   */
  ghost predicate RulesetAt(text: string, skip: set<string>, outer: seq<string>, rr: RulesetRead, from: nat, till: nat)
    decreases rr
  {
    FormatsAt(text, skip, rr.formats, from, rr.open) && rr.open <= |text| && SeparatorAfter(text, skip, rr.open, '{') &&
    var specifiers := Specifiers(outer, Formats(rr.formats));
    BodyAt(text, skip, specifiers, rr.items, rr.ending, SkipEndIn(text, skip, rr.open) + 1, rr.bodyEnd) &&
    rr.bodyEnd <= |text| && SeparatorAfter(text, skip, rr.bodyEnd, '}') && till == SkipEndIn(text, skip, rr.bodyEnd) + 1 &&
    RulesBuilt(specifiers, BodyDeclarations(rr.items, rr.ending), rr.specifierReads)
  }

  /**
   * The body of a ruleset whose specifiers are `specifiers`, from `from` to `till`: its
   * items one after another, then a last declaration with no `;` after it, which leaves
   * the cursor past the skipped characters, or a failed attempt, which leaves it at or
   * after where the attempt started.
   */
  ghost predicate BodyAt(text: string, skip: set<string>, specifiers: seq<string>, items: seq<ItemRead>, ending: BodyEnd, from: nat, till: nat)
    decreases items, 1
  {
    ItemsRead(text, skip, specifiers, items, from) && EndingAt(text, skip, ending, Resume(items, from), till)
  }

  /** The items were read one after another from `from` on. */
  ghost predicate ItemsRead(text: string, skip: set<string>, specifiers: seq<string>, items: seq<ItemRead>, from: nat)
    decreases items, 0
  {
    if items == [] then true
    else
      var init := items[..|items| - 1];
      ItemsRead(text, skip, specifiers, init, from) &&
      items[|items| - 1].from == Resume(init, from) && ItemAt(text, skip, specifiers, items[|items| - 1])
  }

  /** One item: a declaration and the `;` after it, or a ruleset nested in one with the given specifiers. */
  ghost predicate ItemAt(text: string, skip: set<string>, specifiers: seq<string>, item: ItemRead)
    decreases item
  {
    match item
    case DeclRead(d, from, e, till) =>
      DeclarationAt(text, skip, false, d, from, e) && e <= |text| && SeparatorAfter(text, skip, e, ';') && till == SkipEndIn(text, skip, e) + 1
    case NestedRead(rr, from, till) => RulesetAt(text, skip, specifiers, rr, from, till)
  }

  /** Where the item after `items` starts. */
  function Resume(items: seq<ItemRead>, from: nat): nat {
    if items == [] then from else items[|items| - 1].till
  }

  /** The declarations among the items, in order. */
  function Declarations(items: seq<ItemRead>): seq<Declaration> {
    if items == [] then []
    else Declarations(items[..|items| - 1]) + (if items[|items| - 1].DeclRead? then [items[|items| - 1].decl] else [])
  }

  /** The declarations of a body: those of its items, then the last one without `;`. */
  function BodyDeclarations(items: seq<ItemRead>, ending: BodyEnd): seq<Declaration> {
    Declarations(items) + (if ending.LastDeclaration? then [ending.decl] else [])
  }

  /** The rules of the nested rulesets among the items, in order. */
  function NestedRules(items: seq<ItemRead>): seq<Rule>
    decreases items
  {
    if items == [] then []
    else
      NestedRules(items[..|items| - 1]) + ItemRules(items[|items| - 1])
  }

  /** The rules of an item: those of a nested ruleset, none for a declaration. */
  function ItemRules(item: ItemRead): seq<Rule>
    decreases item
  {
    if item.NestedRead? then RulesOf(item.ruleset) else []
  }

  /** The rules of a ruleset: one per specifier and declaration, specifier-major, then the nested rulesets' rules. */
  function RulesOf(rr: RulesetRead): seq<Rule>
    decreases rr
  {
    Product(SpecifierPredicates(rr.specifierReads), BodyDeclarations(rr.items, rr.ending), MakeRule) + NestedRules(rr.items)
  }

  /** One more item, read where the last one ended, extends the items read. */
  lemma ItemsExtend(text: string, skip: set<string>, specifiers: seq<string>, items: seq<ItemRead>, from: nat, item: ItemRead)
    requires ItemsRead(text, skip, specifiers, items, from) && ItemAt(text, skip, specifiers, item)
    requires item.from == Resume(items, from)
    ensures ItemsRead(text, skip, specifiers, items + [item], from)
    ensures Resume(items + [item], from) == item.till
    ensures Declarations(items + [item]) == Declarations(items) + (if item.DeclRead? then [item.decl] else [])
    ensures NestedRules(items + [item]) == NestedRules(items) + ItemRules(item)
  {
    assert (items + [item])[..|items|] == items;
  }

  /** What the body of a ruleset holds: its declarations and the rules of its nested rulesets. */
  datatype Body = Body(declarations: seq<Declaration>, nested: seq<Rule>)

  /**
   * `parseRuleset(parent_specifiers)`: specifiers, `{`, a body and `}`. The rules are
   * those of every specifier with every declaration, then those of the nested rulesets.
   */
  method ParseRuleset(sc: Scanner, outer: seq<string>) returns (r: Result<seq<Rule>, Error>, ghost rr: RulesetRead)
    requires sc.Valid() && sc.kind == ModelScanner
    modifies sc
    ensures sc.Valid() && sc.Advanced()
    ensures r.Ok? ==> r.value == RulesOf(rr) && old(sc.pos) < sc.pos && RulesetAt(sc.text, sc.skip, outer, rr, old(sc.pos), sc.pos)
    ensures r.Ok? ==> forall i :: 0 <= i < |rr.specifierReads| ==> PredicateGrammar.Flat(PredicateGrammar.Denotes(rr.specifierReads[i].reading))
    decreases |sc.text| - sc.pos, 2
  {
    ghost var skip := sc.skip;
    ghost var from := sc.pos;
    rr := RulesetRead([], 0, [], Failed, 0, []);
    var specifiers, fs := ParseSpecifiers(sc, outer);
    if specifiers.Err? {
      return Err(specifiers.error), rr;
    }
    ghost var open := sc.pos;
    assert sc.skip == skip && FormatsAt(sc.text, skip, fs, from, open) && specifiers.value == Specifiers(outer, Formats(fs));
    var brace := ScanSeparator(sc, '{');
    if !brace {
      return Err(ValueError("Expected { after specifiers")), rr;
    }
    ghost var bodyStart := sc.pos;
    assert sc.skip == skip && SeparatorAfter(sc.text, skip, open, '{') && bodyStart == SkipEndIn(sc.text, skip, open) + 1;
    var parsed, items, ending := ParseBody(sc, specifiers.value, from);
    if parsed.Err? {
      return Err(parsed.error), rr;
    }
    ghost var bodyEnd := sc.pos;
    assert sc.skip == skip && BodyAt(sc.text, skip, specifiers.value, items, ending, bodyStart, bodyEnd);
    var rules, parses := CloseRuleset(sc, specifiers.value, parsed.value.declarations);
    if rules.Err? {
      return Err(rules.error), rr;
    }
    assert sc.skip == skip && SeparatorAfter(sc.text, skip, bodyEnd, '}') && sc.pos == SkipEndIn(sc.text, skip, bodyEnd) + 1;
    assert RulesBuilt(specifiers.value, BodyDeclarations(items, ending), parses);
    rr := RulesetRead(fs, open, items, ending, bodyEnd, parses);
    r := Ok(rules.value + parsed.value.nested);
    RulesOfParts(rr);
    RulesetIntro(sc.text, skip, outer, specifiers.value, rr, from, bodyStart, sc.pos);
  }

  /** The `}` that closes a ruleset, then the rules of its own declarations. */
  method CloseRuleset(sc: Scanner, specifiers: seq<string>, declarations: seq<Declaration>) returns (r: Result<seq<Rule>, Error>, ghost parses: seq<SpecifierRead>)
    requires sc.Valid()
    modifies sc
    ensures sc.Valid() && sc.Advanced()
    ensures !SeparatorAfter(sc.text, sc.skip, old(sc.pos), '}') ==> r == Err(ValueError("Expected to find }"))
    ensures r.Ok? ==> SeparatorAfter(sc.text, sc.skip, old(sc.pos), '}') && sc.pos == SkipEndIn(sc.text, sc.skip, old(sc.pos)) + 1
    ensures r.Ok? ==> RulesBuilt(specifiers, declarations, parses) && r.value == Product(SpecifierPredicates(parses), declarations, MakeRule)
    ensures r.Ok? ==> forall i :: 0 <= i < |parses| ==> PredicateGrammar.Flat(PredicateGrammar.Denotes(parses[i].reading))
  {
    parses := [];
    var close := ScanSeparator(sc, '}');
    if !close {
      return Err(ValueError("Expected to find }")), parses;
    }
    r, parses := BuildRules(specifiers, declarations);
  }

  /** A ruleset read piece by piece is read as a whole. */
  lemma RulesetIntro(text: string, skip: set<string>, outer: seq<string>, specifiers: seq<string>, rr: RulesetRead, from: nat, bodyStart: nat, till: nat)
    requires specifiers == Specifiers(outer, Formats(rr.formats))
    requires FormatsAt(text, skip, rr.formats, from, rr.open) && rr.open <= |text| && SeparatorAfter(text, skip, rr.open, '{')
    requires bodyStart == SkipEndIn(text, skip, rr.open) + 1
    requires BodyAt(text, skip, specifiers, rr.items, rr.ending, bodyStart, rr.bodyEnd)
    requires rr.bodyEnd <= |text| && SeparatorAfter(text, skip, rr.bodyEnd, '}') && till == SkipEndIn(text, skip, rr.bodyEnd) + 1
    requires RulesBuilt(specifiers, BodyDeclarations(rr.items, rr.ending), rr.specifierReads)
    ensures RulesetAt(text, skip, outer, rr, from, till)
  {
  }

  /** The rules of a ruleset are those of its own declarations, specifier-major, then those of its nested rulesets. */
  lemma RulesOfParts(rr: RulesetRead)
    ensures RulesOf(rr) == Product(SpecifierPredicates(rr.specifierReads), BodyDeclarations(rr.items, rr.ending), MakeRule) + NestedRules(rr.items)
  {
  }

  /**
   * The body of a ruleset: declarations separated by semicolons, and nested rulesets,
   * read from the mark, where a declaration raises ValueError. The body ends after a
   * declaration without a semicolon or where a nested ruleset raises ValueError; other
   * errors pass through.
   */
  method ParseBody(sc: Scanner, specifiers: seq<string>, ghost start: nat) returns (r: Result<Body, Error>, ghost items: seq<ItemRead>, ghost ending: BodyEnd)
    requires sc.Valid() && sc.kind == ModelScanner && start < sc.pos && !sc.caseSensitive
    modifies sc
    ensures sc.Valid() && sc.Advanced()
    ensures r.Err? ==> !r.error.ValueError?
    ensures r.Ok? ==> BodyAt(sc.text, sc.skip, specifiers, items, ending, old(sc.pos), sc.pos)
    ensures r.Ok? ==> r.value == Body(BodyDeclarations(items, ending), NestedRules(items))
    decreases |sc.text| - start, 1
  {
    ghost var skip := sc.skip;
    ghost var from := sc.pos;
    var declarations: seq<Declaration> := [];
    var nested: seq<Rule> := [];
    items := [];
    while true
      invariant sc.Valid() && sc.Advanced() && start < sc.pos && sc.skip == skip
      invariant ItemsRead(sc.text, skip, specifiers, items, from) && sc.pos == Resume(items, from)
      invariant declarations == Declarations(items) && nested == NestedRules(items)
      decreases |sc.text| - sc.pos
    {
      var step;
      ghost var item;
      step, item, ending := ParseBodyItem(sc, specifiers, start);
      assert sc.skip == skip;
      if step.Err? {
        return Err(step.error), items, ending;
      }
      match step.value
      case Stop(last) =>
        BodyEnds(sc.text, skip, specifiers, items, ending, from, sc.pos);
        return Ok(Body(declarations + last, nested)), items, ending;
      case Continue(decl, rules) =>
        ItemsExtend(sc.text, skip, specifiers, items, from, item);
        items := items + [item];
        declarations := declarations + decl;
        nested := nested + rules;
    }
  }

  /** What reading one item of a body gave: an item to go on after, or the end of the body. */
  datatype BodyStep = Continue(decl: seq<Declaration>, rules: seq<Rule>) | Stop(last: seq<Declaration>)

  /**
   * One pass of the loop of `parseRuleset`'s body: a declaration and its `;`, or, where
   * the declaration raises ValueError, a nested ruleset read from the same place. The
   * body stops after a declaration without `;` or where the nested ruleset raises
   * ValueError; other errors pass through.
   */
  method ParseBodyItem(sc: Scanner, specifiers: seq<string>, ghost start: nat) returns (r: Result<BodyStep, Error>, ghost item: ItemRead, ghost ending: BodyEnd)
    requires sc.Valid() && sc.kind == ModelScanner && start < sc.pos && !sc.caseSensitive
    modifies sc
    ensures sc.Valid() && sc.Advanced()
    ensures r.Err? ==> !r.error.ValueError?
    ensures r.Ok? && r.value.Continue? ==>
              && item.from == old(sc.pos) && item.till == sc.pos && old(sc.pos) < sc.pos
              && ItemAt(sc.text, sc.skip, specifiers, item)
              && r.value.decl == (if item.DeclRead? then [item.decl] else [])
              && r.value.rules == ItemRules(item)
    ensures r.Ok? && r.value.Stop? ==>
              && EndingAt(sc.text, sc.skip, ending, old(sc.pos), sc.pos)
              && r.value.last == (if ending.LastDeclaration? then [ending.decl] else [])
    decreases |sc.text| - start, 0
  {
    ghost var skip := sc.skip;
    var mark := sc.pos;
    ending := Failed;
    item := DeclRead(Declaration("", Constant(VNone)), mark, mark, mark);
    var d := ParseDeclaration(sc);
    if d.Ok? {
      ghost var e := sc.pos;
      var semicolon := ScanSeparator(sc, ';');
      assert sc.skip == skip;
      if !semicolon {
        ending := LastDeclaration(d.value, e);
        return Ok(Stop([d.value])), item, ending;
      }
      item := DeclRead(d.value, mark, e, sc.pos);
      return Ok(Continue([d.value], [])), item, ending;
    } else if d.error.ValueError? {
      sc.SetScanLocation(mark);
      var inner, rr := ParseRuleset(sc, specifiers);
      if inner.Ok? {
        item := NestedRead(rr, mark, sc.pos);
        return Ok(Continue([], inner.value)), item, ending;
      } else if inner.error.ValueError? {
        return Ok(Stop([])), item, ending;
      } else {
        return Err(inner.error), item, ending;
      }
    } else {
      return Err(d.error), item, ending;
    }
  }

  /** How a body ends, read from `from`, where its last item ended, to `till`. */
  ghost predicate EndingAt(text: string, skip: set<string>, ending: BodyEnd, from: nat, till: nat) {
    match ending
    case LastDeclaration(d, e) =>
      DeclarationAt(text, skip, false, d, from, e) && e <= |text| && !SeparatorAfter(text, skip, e, ';') && till == SkipEndIn(text, skip, e)
    case Failed => from <= till <= |text|
  }

  /** Items read one after another, then an ending, make up a body. */
  lemma BodyEnds(text: string, skip: set<string>, specifiers: seq<string>, items: seq<ItemRead>, ending: BodyEnd, from: nat, till: nat)
    requires ItemsRead(text, skip, specifiers, items, from)
    requires EndingAt(text, skip, ending, Resume(items, from), till)
    ensures BodyAt(text, skip, specifiers, items, ending, from, till)
  {
  }

  // ---------------------------------------------------------------------------------
  // Models

  /**
   * The rulesets `rs` were read one after another at the top level, with no outer
   * specifiers, from `from` on, the k-th ending at `ends[k]`.
   */
  ghost predicate RulesetsAt(text: string, skip: set<string>, rs: seq<RulesetRead>, ends: seq<nat>, from: nat)
    decreases |rs|
  {
    |ends| == |rs| &&
    (rs != [] ==>
      var n := |rs|;
      RulesetsAt(text, skip, rs[..n - 1], ends[..n - 1], from) &&
      RulesetAt(text, skip, [], rs[n - 1], LastEnd(ends[..n - 1], from), ends[n - 1]))
  }

  /** Where the readings that close at `ends` leave off: `from` when there is none. */
  function LastEnd(ends: seq<nat>, from: nat): nat {
    if ends == [] then from else ends[|ends| - 1]
  }

  /** One more top-level ruleset, read where the last one ended, extends the reading of the model. */
  lemma RulesetsExtend(text: string, skip: set<string>, rs: seq<RulesetRead>, ends: seq<nat>, from: nat, rr: RulesetRead,
                       till: nat)
    requires RulesetsAt(text, skip, rs, ends, from)
    requires RulesetAt(text, skip, [], rr, LastEnd(ends, from), till)
    ensures RulesetsAt(text, skip, rs + [rr], ends + [till], from) && LastEnd(ends + [till], from) == till
    ensures AllRules(rs + [rr]) == AllRules(rs) + RulesOf(rr)
  {
    var rs', ends' := rs + [rr], ends + [till];
    assert rs'[..|rs'| - 1] == rs && ends'[..|ends'| - 1] == ends;
    assert rs'[|rs'| - 1] == rr && ends'[|ends'| - 1] == till;
    AllRulesAppend(rs, rr);
  }

  /** The rules of one more ruleset follow those of the rulesets before it. */
  lemma AllRulesAppend(rs: seq<RulesetRead>, rr: RulesetRead)
    ensures AllRules(rs + [rr]) == AllRules(rs) + RulesOf(rr)
  {
    assert (rs + [rr])[..|rs|] == rs;
  }

  /** The rules of the rulesets, in order. */
  function AllRules(rs: seq<RulesetRead>): seq<Rule> {
    if rs == [] then [] else AllRules(rs[..|rs| - 1]) + RulesOf(rs[|rs| - 1])
  }

  /**
   * `parseModel`: rulesets until one raises, whatever the error; the model, holding the
   * rules of the rulesets read, in order, is returned only when nothing but skipped
   * characters is left, and otherwise a ValueError names the line reached.
   */
  method ParseModel(sc: Scanner) returns (r: Result<Model, Error>, ghost rs: seq<RulesetRead>, ghost ends: seq<nat>)
    requires sc.Valid() && sc.kind == ModelScanner
    modifies sc
    ensures sc.Valid() && sc.Advanced()
    ensures RulesetsAt(sc.text, sc.skip, rs, ends, old(sc.pos)) && (ends != [] ==> ends[|ends| - 1] <= sc.pos)
    ensures r.Ok? <==> sc.SkipEnd(sc.pos) >= |sc.text|
    ensures r.Ok? ==> r.value.rules == Some(AllRules(rs)) && r.value.buckets == map[]
    ensures r.Err? ==> r.error == ValueError("Failed to parse past line " + NatToString(sc.lineNumber))
  {
    var rules;
    rules, rs, ends := ParseRulesets(sc);
    var atEnd := sc.AtEnd();
    if !atEnd {
      return Err(ValueError("Failed to parse past line " + NatToString(sc.lineNumber))), rs, ends;
    }
    r := Ok(NewModel(Some(rules)));
  }

  /**
   * A ruleset at the top level, with no outer specifiers, read where the rulesets before
   * it ended: it extends the model's reading, and its rules follow `rules`, theirs.
   */
  method ParseTopRuleset(sc: Scanner, rules: seq<Rule>, ghost rs: seq<RulesetRead>, ghost ends: seq<nat>, ghost from: nat)
    returns (r: Result<seq<Rule>, Error>, ghost rs': seq<RulesetRead>, ghost ends': seq<nat>)
    requires sc.Valid() && sc.kind == ModelScanner
    requires RulesetsAt(sc.text, sc.skip, rs, ends, from) && sc.pos == LastEnd(ends, from) && rules == AllRules(rs)
    modifies sc
    ensures sc.Valid() && sc.Advanced()
    ensures r.Ok? ==> old(sc.pos) < sc.pos && sc.pos == LastEnd(ends', from) && |rs'| == |rs| + 1 && rs'[..|rs|] == rs
    ensures r.Ok? ==> RulesetsAt(sc.text, sc.skip, rs', ends', from) && r.value == AllRules(rs')
  {
    ghost var rr;
    var more;
    more, rr := ParseRuleset(sc, []);
    rs', ends' := rs + [rr], ends + [sc.pos];
    if more.Err? {
      return Err(more.error), rs', ends';
    }
    RulesetsExtend(sc.text, sc.skip, rs, ends, from, rr, sc.pos);
    r := Ok(rules + more.value);
  }

  /** The loop of `parseModel`: rulesets one after another until one raises, whatever the error. */
  method ParseRulesets(sc: Scanner) returns (rules: seq<Rule>, ghost rs: seq<RulesetRead>, ghost ends: seq<nat>)
    requires sc.Valid() && sc.kind == ModelScanner
    modifies sc
    ensures sc.Valid() && sc.Advanced()
    ensures RulesetsAt(sc.text, sc.skip, rs, ends, old(sc.pos)) && (ends != [] ==> ends[|ends| - 1] <= sc.pos)
    ensures rules == AllRules(rs)
  {
    ghost var from := sc.pos;
    rules := [];
    rs, ends := [], [];
    while true
      invariant sc.Valid() && sc.Advanced()
      invariant RulesetsAt(sc.text, sc.skip, rs, ends, from) && rules == AllRules(rs)
      invariant sc.pos == LastEnd(ends, from)
      decreases |sc.text| - sc.pos
    {
      var res, rs', ends' := ParseTopRuleset(sc, rules, rs, ends, from);
      if res.Err? {
        break;
      }
      rules, rs, ends := res.value, rs', ends';
    }
  }
}
