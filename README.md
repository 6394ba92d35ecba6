# kevi rule engine, modelled in Dafny

kevi is a small rule engine in the style of Apple's Direct-to-Web rule system. A
*model* document holds rulesets: comma-separated specifier predicates, then a
`{ ... }` block of `key: expression;` declarations and nested rulesets. Parsing a
model yields one `Rule` per (specifier, declaration) pair. A rule fires when its
specifier predicate holds for a context object, and its priority comes from the
shape of that specifier and its weight. Underneath sit a scanner, which is a
cursor over a string with a skip set and a case flag, and three recursive-descent
grammars on top of it:

- expressions: arithmetic, key paths, function calls, aggregates, variables;
- predicates: comparisons with modifiers and options, NOT, AND/OR;
- models.

Also modelled: the expression and predicate evaluators, the comparison and
compound operator tables, key-value coding, and the '/'-path string utilities.

The Dafny modules follow the source files:

| module | file | source |
|---|---|---|
| `Wrappers` | wrappers.dfy | `Option` and `Result`; a Python exception is `Err` of `Values.Error` |
| `Strings`, `Numbers`, `Characters` | strings.dfy, numbers.dfy, characters.dfy | the parts of `str`, `int()` and `float()` the engine uses; the character sets of kevi/characters.py |
| `Values` | values.dfy | the host values rules run against, and the Python operators applied to them |
| `Kvc` | kvc.dfy | kevi/kvc.py |
| `PathUtilities` | pathutils.dfy | python/rules/pathutils.py |
| `Builtins` | builtins.dfy | the `_BuiltInFunctions` table of kevi/expressions.py |
| `Expressions` | expressions.dfy | the expression nodes of kevi/expressions.py |
| `PredicateTypes`, `Predicates` | predicate_types.dfy, predicates.dfy | python/rules/predicates.py |
| `Operators` | operators.dfy | kevi/operators.py |
| `Rules` | rules.dfy | python/rules/rules.py |
| `Scanning` | scanning.dfy | the `Scanner` class of kevi/scanners.py |
| `ExpressionGrammar`, `PredicateGrammar`, `ModelGrammar` | expression_grammar.dfy, predicate_grammar.dfy, model_grammar.dfy | `ExpressionScanner`, `PredicateScanner` and `ModelScanner` of kevi/scanners.py |

The scanner is a class whose cursor, skip set, case flag, line counter and
high-water mark are fields its methods update. Its four Python subclasses are
one class with a `kind` constant:

- a plain scanner counts no lines;
- an expression scanner counts lines;
- a predicate or model scanner also has `scanPredicateKeyword`.

The parsers are methods that take the scanner, modify it and return a `Result`.
Each one that succeeds has consumed input, and that is what bounds the mutual
recursion. Evaluation, substitution, priority and path manipulation are pure
functions over datatypes.

What a parser reads is stated as a ghost predicate over the text, from the
cursor before the call to the cursor after it. The parsers return ghost
readings, and each result is tied both to its reading and to the text,
with the exceptions listed under "## Left out":

- `ChainAt` states that each operator of an operator chain is one that the
  text holds at that position, and `OperandAt` that each operand is the chain
  of the next tighter level read between two operators; the operands of the
  power level are functional expressions (`FunctionalAt`). The parsed
  expression is the left fold of the chain (`Fold`, `LevelAt`), and
  `ExpressionRead` puts the levels together with the dropped assignments;
- `FunctionalAt` reads a simple expression (`SimpleAt`: a number, a prefixed
  form as `PrefixedAt` gives it, or a quoted string or key path after the `%`
  step), then the turns of the suffix loop (`SuffixesAt`), each of them a
  call, a subscript or a key-path step (`TurnAt`, `CallArgsAt`, `IndexAt`);
- these readings use case-insensitive matching, as every keyword scan leaves
  the scanner. On a scanner whose case flag is set, the power level's operands
  and the simple and functional levels are tied only through their spans;
- `IdentifierAt`, `UnprefixedAt` and `PathAt` give the identifiers, quoted
  strings and key paths that the text holds;
- `PredicateAt`, `ConjunctionAt`, `OperandAt`, `UnaryAt` and `ComparisonAt`
  give the predicate reading: connectives, parentheses, NOT, the value
  keywords, and the modifier, operator, options and operands of a
  comparison. `Denotes` gives the predicate a reading builds (`FoldJoins`
  for a conjunction);
- `DeclarationAt`, `FormatsAt`, `ItemsRead`, `BodyAt` and `RulesetAt` give
  a model's declarations, specifiers, bodies and rulesets. `RulesetsAt`
  gives the rulesets of a whole model, and `RulesOf`/`AllRules` give the
  rules they yield (`Product`).

The lemmas prove properties of the folds, and the parsers' contracts link
them to the text.

## Model

| member | source | states |
|---|---|---|
| Scanning.Scanner.constructor | kevi/scanners.py:16-20 | a new scanner is at position 0 with the default skip set, case-insensitive, on line 1 with high-water mark 0 |
| Scanning.Clamp | kevi/scanners.py:34-40 | the location setter's clamp: the result lies in 0..n and equals the location when that is already in range |
| Scanning.Scanner.SetScanLocation | kevi/scanners.py:34-40 | the cursor becomes the clamped location; rewinding keeps the line counter, high-water mark, skip set and case flag |
| Scanning.Scanner.SetSkip | kevi/scanners.py:54-56 | the skip set is replaced; nothing else changes |
| Scanning.Scanner.SkipEnd | kevi/scanners.py:93-106 | the first position at or after `from` whose character is not skipped; everything before it is skipped |
| Scanning.Scanner.MovePastSkip | kevi/scanners.py:195-205 | moves the cursor to SkipEnd; the line counter grows by exactly the newlines passed beyond the old high-water mark, and neither counter goes back |
| Scanning.NewlinesSplit | kevi/scanners.py:200-203 | newline counts of adjacent slices add up, which is what lets line counting be done in pieces |
| Scanning.Scanner.AtEnd | kevi/scanners.py:175-181 | true exactly when only skipped characters remain; the cursor is put back, while the line counter keeps what was counted |
| Scanning.Scanner.ScanString | kevi/scanners.py:108-119 | after the skipped characters, `s` is consumed and returned iff it occurs there (up to ASCII case unless case-sensitive), advancing by exactly `len(s)`; on a miss, None with the cursor only past the skipped characters |
| Scanning.Scanner.ScanWithSet | kevi/scanners.py:60-91 | `_scanWithSet` behind `scanCharactersFromSet`/`scanUpToCharactersFromSet`: None at the end; otherwise the non-skipped characters of the run up to the first character whose membership equals `stop`, the cursor at that character, or None with the cursor past the skipped prefix when nothing is captured |
| Scanning.Scanner.RunEnd | kevi/scanners.py:75-85 | the run's end: every character before it differs in membership from `stop`, and the one at it (if any) matches |
| Scanning.Scanner.Kept | kevi/scanners.py:81-84 | the captured text holds no skipped character and is no longer than the run |
| Scanning.Scanner.CollectRun | kevi/scanners.py:72-87 | the capture loop ends at RunEnd with exactly the kept characters |
| Scanning.Scanner.ScanCharactersFromSet | kevi/scanners.py:60-61 | the capture is exactly what the text holds past the skipped characters: the non-skipped characters of the run of set characters (RunKept), with the cursor at the run's end; it is non-empty, made of set characters, and moves the cursor forward; None leaves the cursor only past skipped characters |
| Scanning.Scanner.SkipFrom | kevi/scanners.py:97-106 | the skipping loop stops at SkipEnd |
| Scanning.Scanner.SkipEndTwice | kevi/scanners.py:93-106 | skipping twice passes the same characters as skipping once |
| Scanning.Scanner.CountPassed | kevi/scanners.py:195-205 | the newlines passed beyond the high-water mark are added to the line counter and the mark moves up to where the cursor stopped; a plain scanner counts nothing |
| Scanning.Scanner.StringHere | kevi/scanners.py:111-119 | once past the skipped characters: `s` is returned iff the input is not at its end and `s` matches at the cursor, which then moves by exactly its length; otherwise no move |
| Scanning.Scanner.MatchOfSymbols | kevi/scanners.py:115 | for text without ASCII letters, a match up to case is an exact occurrence |
| Scanning.Scanner.KeptFromRun | kevi/scanners.py:60-61 | the characters kept from a membership run are all in the set |
| Scanning.Scanner.KeptWithin | kevi/scanners.py:75-86 | characters kept from a stretch of in-set characters are in the set |
| Scanning.Scanner.FindFrom | kevi/scanners.py:121-143 | the first position at or after `from` where `s` occurs (up to case when case is ignored), or the end |
| Scanning.Scanner.ScanUpToString | kevi/scanners.py:121-143 | the text from the cursor to the first occurrence of `s` (or the end) is returned and consumed, `s` itself is not; None and no move when that text is empty; no skipping and no line counting |
| Scanning.Scanner.CaptureUpTo | kevi/scanners.py:126-134 | the capture loop stops at FindFrom and captures exactly the text before it |
| Scanning.Scanner.OccursAt | kevi/scanners.py:127-129 | the per-position test is MatchAt, both directions |
| Scanning.Scanner.GrowLength | kevi/scanners.py:145-165 | the grown length: every accepted prefix length parses, and the next longer prefix does not |
| Scanning.Scanner.ScanWithParseFunction | kevi/scanners.py:145-165 | past the skipped characters, the longest prefix reached by growing one character at a time while `parse` accepts is consumed, and its value is returned; None and no consumption when the first character fails |
| Scanning.Scanner.GrowPrefixes | kevi/scanners.py:155-163 | the growing loop stops after GrowLength characters with the last accepted value |
| Scanning.Scanner.ParsePrefixes | kevi/scanners.py:153-165 | the cursor moves by GrowLength characters, and the value is the parse of that prefix, or None when it is empty |
| Scanning.Scanner.ScanFloat | kevi/scanners.py:167-169 | ScanWithParseFunction with `float()` (exact rationals) |
| Scanning.Scanner.ScanInt | kevi/scanners.py:171-173 | ScanWithParseFunction with `int()` |
| Scanning.Scanner.ScanPredicateKeyword | kevi/scanners.py:389-405 | switches case sensitivity off; succeeds iff `key` matches after the skipped characters and is followed by the end or a non-alphanumeric character, consuming it; a rejected match restores the cursor |
| Scanning.Scanner.ScanKey | kevi/scanners.py:390-394 | case sensitivity off, then the key is matched iff it follows the skipped characters, and consumed when it is |
| Scanning.Scanner.TokenEnds | kevi/scanners.py:395-405 | the token ends iff only skipped characters follow or the next character is not an ASCII letter or digit; otherwise the cursor goes back to `loc` |
| Scanning.Scanner.FirstKeywordAt | kevi/scanners.py:415-426 | the index of the first key accepted as a keyword at `q`; no earlier key is one |
| Scanning.Scanner.ScanFirstKeyword | kevi/scanners.py:415-426 | trying the keys in table order stops at FirstKeywordAt and consumes exactly that keyword |
| Scanning.Scanner.TryKeyword | kevi/scanners.py:415-426 | one step of the table: found iff the key is a keyword at `q`, then consumed; otherwise the cursor is not past `q` |
| Scanning.Scanner.FirstKeywordAtIs | kevi/scanners.py:415-426 | the first-accepted index is unique: any index with no earlier keyword and a keyword there (or the end) is FirstKeywordAt |
| Scanning.Scanner.FirstMatchAt | kevi/scanners.py:504-511 | the index of the first string occurring at `q`; no earlier one occurs |
| Scanning.Scanner.ScanFirstString | kevi/scanners.py:504-511 | a chain of `scanString` tries stops at FirstMatchAt and consumes exactly that string |
| Scanning.Scanner.FirstMatchAtIs | kevi/scanners.py:504-511 | uniqueness of the first-match index |
| Characters.DefaultSkipIsWhitespace | kevi/characters.py:5 | the default skip set skips exactly tab, LF, VT, FF, CR and space; its two three-character strings skip nothing |
| ExpressionGrammar.ParseExpression | kevi/scanners.py:207-208 | a success consumes input and is the expression the text holds from the old cursor to the new one (ExpressionRead): an additive chain of multiplicative chains of power chains whose operators are the ones in the text, then only the `:=` assignments that are dropped; the cursor ends where no operator and no `:=` follows |
| ExpressionGrammar.PassHash | kevi/scanners.py:211 | the optional `#` is consumed past the skipped characters, and nothing else is |
| ExpressionGrammar.ParseIdentifier | kevi/scanners.py:210-215 | succeeds iff, past the skipped characters and an optional `#`, the text holds a non-empty run of identifier characters (IdentifierAt); the result is the key path of exactly that run and consumes input; otherwise ValueError |
| ExpressionGrammar.IdentifierCharacters | kevi/scanners.py:212 | an identifier read from the text holds identifier characters only |
| ExpressionGrammar.CharScanned | kevi/scanners.py:108-119 | `scanString` of a one-character symbol that is not a letter finds exactly that character in the text, whatever the case flag |
| ExpressionGrammar.ParseSimple | kevi/scanners.py:217-298 | a success consumes input and, case ignored, is SimpleAt: past the skipped characters the number `scanFloat` reads; else the form the first matching prefix introduces (PrefixedAt); else, after the `%` step, the quoted string or key path UnprefixedAt reads |
| ExpressionGrammar.ParseAfterNumber | kevi/scanners.py:221-298 | where no number starts: the first prefix found, or else the unprefixed forms, giving SimpleAt from the start of the simple level |
| ExpressionGrammar.SimpleNumber | kevi/scanners.py:218-220 | a number read past the skipped characters is a simple expression |
| ExpressionGrammar.SimplePrefixed | kevi/scanners.py:221-251 | without a number, the first prefix found and what it introduces are a simple expression |
| ExpressionGrammar.SimpleUnprefixed | kevi/scanners.py:253-298 | without a number or a prefix, the quoted string or key path after the `%` step is a simple expression |
| ExpressionGrammar.SimplePrefixesAreNonEmpty | kevi/scanners.py:221-247 | every prefix tried by the simple level is non-empty, so consuming one is progress |
| ExpressionGrammar.ParseNumber | kevi/scanners.py:218-220 | a number is a float constant and consumes input; without one the cursor is only past the skipped characters |
| ExpressionGrammar.ParsePrefixed | kevi/scanners.py:221-251 | after the prefix just read: NULL/NIL give None, TRUE/YES True, FALSE/NO False, SELF the object node; `-` always fails because `_chs` is not in the table; `(` gives the expression read up to the `)` after it; `{` gives an aggregate; `$` succeeds iff an identifier follows, giving the variable of that name |
| ExpressionGrammar.ParseParenthesised | kevi/scanners.py:223-227 | the expression read from the cursor, with the `)` that must follow it consumed |
| ExpressionGrammar.ParseAggregate | kevi/scanners.py:228-238 | `}` straight away gives the empty aggregate; otherwise the items are the expressions read one after another, each after the comma that ended the one before, with the `}` consumed after the last |
| ExpressionGrammar.ItemsExtend | kevi/scanners.py:233-235 | a comma and one more expression read after it extend the items read |
| ExpressionGrammar.ItemsOne | kevi/scanners.py:232 | one expression read is a list of one item |
| ExpressionGrammar.ParseList | kevi/scanners.py:228-238 | at least one expression; the items are read one after another, each after the comma that ended the one before, and `close` is consumed after the last |
| ExpressionGrammar.ParseItems | kevi/scanners.py:232-235 | the comma-separated expressions, read one after another up to where no comma follows |
| ExpressionGrammar.ParseNextItem | kevi/scanners.py:233-235 | a comma and the expression read after it; nothing, with no move, when no comma follows |
| ExpressionGrammar.ParseUnprefixed | kevi/scanners.py:253-298 | succeeds iff the text holds, from where the `%` step leaves the cursor (PercentEnd), what UnprefixedAt describes: a quoted string up to the next occurrence of its quote and not empty, an `@` followed by an identifier, or an identifier; the result is that constant, or that key path with the `@` kept |
| ExpressionGrammar.PathAfterAt | kevi/scanners.py:292-296 | where an `@` is, the key path is `@` followed by the identifier after it, and there is none without an identifier |
| ExpressionGrammar.PathWithoutAt | kevi/scanners.py:298 | where no `@` is, the key path is the identifier itself |
| ExpressionGrammar.QuoteScanned | kevi/scanners.py:281-282 | the scan for quotes succeeds iff `"` or `'` is the character in the text, and finds that character |
| ExpressionGrammar.ParseAfterPercent | kevi/scanners.py:281-298 | the three alternatives after the `%` step, as UnprefixedAt states them from past the skipped characters |
| ExpressionGrammar.ParseQuotedAfter | kevi/scanners.py:282-291 | after the opening quote: UnprefixedAt from that quote |
| ExpressionGrammar.ParseKeyPathIdentifier | kevi/scanners.py:292-298 | the `@` key path or the identifier, as PathAt states it from past the skipped characters |
| ExpressionGrammar.ParseAtIdentifier | kevi/scanners.py:292-296 | after an `@`: PathAt from that `@` |
| ExpressionGrammar.ParsePlainIdentifier | kevi/scanners.py:298 | where no `@` is: PathAt from the cursor |
| ExpressionGrammar.PassPercent | kevi/scanners.py:253-279 | past the skipped characters, the cursor is where PercentEnd says: after a `%` that is the character at the old cursor and is not the last of the input, otherwise where skipping from the old cursor leads |
| ExpressionGrammar.SettlePercent | kevi/scanners.py:255-279 | once the `%` is read: the cursor stays past it exactly when the character at `location` is that `%` and more than skipped text follows, and goes back to `location` otherwise; the line bookkeeping is kept |
| ExpressionGrammar.ParseQuoted | kevi/scanners.py:281-291 | the constant is exactly the text up to the closing quote; ValueError, with no move, iff that text is empty |
| ExpressionGrammar.ParseFunctional | kevi/scanners.py:300-339 | a success consumes input and ends where no `(`, `[` or `.` follows; case ignored, it is FunctionalAt: the simple expression read first, then the turns of the loop (SuffixesAt), starting with no argument list, each turn applied to the operand the last one made |
| ExpressionGrammar.SuffixesPrepend | kevi/scanners.py:300-337 | one turn read at the opener after the operand, followed by the turns after it, makes the turns from that operand |
| ExpressionGrammar.SuffixScanned | kevi/scanners.py:306-330 | the scan for `(`, `[` and `.` finds exactly the opener in the text |
| ExpressionGrammar.ParseSuffix | kevi/scanners.py:302-337 | one turn: a key path followed by `:` first gets the colon appended; then `(` gives `expressionForFunction(path, args)` of the argument list read, `[` an `_index` node whose first argument is the current operand, `.` the key path `current.right` with a non-empty right part, each as TurnAt reads it from the opener; the loop goes on iff an opener follows, and without one the operand is returned and the argument list kept |
| ExpressionGrammar.CallTurn | kevi/scanners.py:306-317 | after `(`: the node CallNode describes for the key path and the argument list read (CallArgsAt), which is kept for later turns |
| ExpressionGrammar.IndexTurn | kevi/scanners.py:318-329 | after `[`: an `_index` node over the current operand, read as IndexAt states |
| ExpressionGrammar.KeyPathTurn | kevi/scanners.py:330-337 | after `.`: the key path `current.right`, `right` being the key path read as an expression after the dot |
| ExpressionGrammar.CallTurnIntro | kevi/scanners.py:306-317 | a `(`, the argument list read after it and the node built from them make a call turn |
| ExpressionGrammar.IndexTurnIntro | kevi/scanners.py:318-329 | a `[` and the subscript read after it make a subscript turn |
| ExpressionGrammar.KeyPathTurnIntro | kevi/scanners.py:330-337 | a `.` and a key path read after it make a key-path turn |
| ExpressionGrammar.ParseColon | kevi/scanners.py:304-305 | a key path followed by `:` gets the colon appended and the `:` is consumed; otherwise the operand is unchanged |
| ExpressionGrammar.ParseCall | kevi/scanners.py:306-317 | a call needs a key path on its left (ValueError, with no move, otherwise); its node is `expressionForFunction(path, args)` of the argument list read, which is kept for later turns; `f()` with no argument list read before raises |
| ExpressionGrammar.ParseKeyPathStep | kevi/scanners.py:330-337 | a left side that is not a key path is ValueError; the result is the key path `left.right`, `right` being the expression read from the old cursor to the new, itself a key path, with a non-empty right part |
| ExpressionGrammar.ParseIndex | kevi/scanners.py:318-329 | on a scanner without keywords, AttributeError; FIRST, LAST and SIZE name functions missing from the table, so a success is IndexAt: no index keyword, the expression read after it, the `]` right after that, and the `_index` node over the table of `left` and that expression |
| ExpressionGrammar.ScanIndexKeyword | kevi/scanners.py:319-325 | the index keyword found is the first of FIRST, LAST and SIZE accepted past the skipped characters; without one the cursor is at most past the skipped characters |
| ExpressionGrammar.MissingIndexFunction | kevi/scanners.py:320-325 | the node a keyword asks for cannot be built: its error is `expressionForFunction`'s |
| ExpressionGrammar.CloseIndex | kevi/scanners.py:326-329 | succeeds iff `]` is the next character, consuming it and giving the `_index` node of `left` and the subscript; otherwise exactly ValueError "Missing ] in index argument" |
| ExpressionGrammar.IndexIntro | kevi/scanners.py:318-329 | no index keyword, an expression read after it, and a `]` make a subscript reading |
| ExpressionGrammar.FirstOccurrence | kevi/scanners.py:108-119 | the index of the first string that occurs at the position; no earlier one does |
| ExpressionGrammar.FirstMatchOfSymbols | kevi/scanners.py:341-375 | for operator symbols, which hold no letter, the scanner's first match is the first occurrence in the text |
| ExpressionGrammar.OperatorScanned | kevi/scanners.py:341-375 | a level's scan for its symbols finds exactly the operator OperatorAt sees in the text (`**`; `*` or `/`; `+` or `-`), with its selector and length |
| ExpressionGrammar.AssignmentScanned | kevi/scanners.py:381 | `scanString(":=")` succeeds exactly where the text holds `:=` |
| ExpressionGrammar.ParsePower | kevi/scanners.py:341-349 | the result is the left-grouped fold of the chain read from the old cursor to the new: each operator of the chain is a `**` in the text, at increasing positions, building raise:toPower:, and each operand is the functional expression read between two operators; the level ends where no `**` follows |
| ExpressionGrammar.ParseMultiplication | kevi/scanners.py:351-362 | the same with `*` giving multiply:by: and `/` giving divide:by:, each where the power level stopped; the operands are the power chains read between the operators |
| ExpressionGrammar.ParseAddition | kevi/scanners.py:364-375 | the same with `+` giving add:to: and `-` giving from:subtract:; the operands are the multiplicative chains read between the operators |
| ExpressionGrammar.ParseBinary | kevi/scanners.py:377-384 | the result is the additive chain read from the old cursor up to `mid`, where no operator follows; text after `mid` is consumed iff a `:=` is at `mid`, its right-hand sides being read and dropped; at the end neither an operator nor `:=` follows |
| ExpressionGrammar.ParseAssignments | kevi/scanners.py:380-384 | the cursor moves iff a `:=` is there; the operands read are dropped |
| ExpressionGrammar.ChainStep | kevi/scanners.py:341-375 | one loop turn: the operator in the text and the operand read after it extend the chain, whose fold becomes that operator applied to the previous fold |
| ExpressionGrammar.TighterStep | kevi/scanners.py:351-375 | the same turn at the multiplicative and additive levels, whose operand is the chain of the next tighter level read after the operator |
| ExpressionGrammar.ArithIsBuiltin | kevi/scanners.py:341-375 | the operator selectors are table entries, so building their nodes cannot fail |
| ExpressionGrammar.IndexIsBuiltin | kevi/scanners.py:326-328 | a subscript node is built from the `_index` table entry |
| ExpressionGrammar.SubtractionChainShape | kevi/scanners.py:364-375 | `8 - 2 - 1` folds to `(8 - 2) - 1` |
| ExpressionGrammar.SubtractionGroupsLeft | kevi/scanners.py:364-375 | `8 - 2 - 1` evaluates to 5, not 7 |
| PredicateGrammar.ParsePredicate | kevi/scanners.py:407-408 | a success consumes input, is flat, and is the predicate denoted by the reading PredicateAt ties to the text from the old cursor to the new |
| PredicateGrammar.ParseConjunction | kevi/scanners.py:410-444 | the same reading: operands as parseNot reads them, with the connectives found in the text between them, up to where no connective follows; the result is the left fold of Combine over them, so AND and OR share one precedence |
| PredicateGrammar.ConjunctionExtend | kevi/scanners.py:428-442 | one more connective and operand, read where the last operand ended, extend the reading |
| PredicateGrammar.ConjunctionEnd | kevi/scanners.py:428 | where no connective follows, the loop's reading is a whole predicate |
| PredicateGrammar.DenotesOperand | kevi/scanners.py:411 | a reading of one operand denotes that operand |
| PredicateGrammar.DenotesJoin | kevi/scanners.py:428-442 | one more connective combines its operand into what was read so far |
| PredicateGrammar.ParseJoin | kevi/scanners.py:428-430 | None iff no connective follows, the cursor then at most past the skipped characters; otherwise the connective's kind and the operand read after it (OperandAt) |
| PredicateGrammar.ParseConnective | kevi/scanners.py:414-426 | Some iff a connective keyword follows the skipped characters: AND/`&&` give And and OR/`\|\|` give Or, the first table entry that matches, and the cursor is past it; None leaves the cursor at most past the skipped characters |
| PredicateGrammar.ParseOperand | kevi/scanners.py:411 | the operand read, as OperandAt ties it to the text, is the flat predicate returned |
| PredicateGrammar.ParseNot | kevi/scanners.py:446-463 | OperandAt: a `(` gives the predicate read inside it, which `)` must follow; otherwise NOT/`!` give a Not compound, TRUEPREDICATE/FALSEPREDICATE the value predicates, and anything else a comparison |
| PredicateGrammar.ParseGroup | kevi/scanners.py:447-451 | after the `(`: the predicate read inside, which the `)` must follow |
| PredicateGrammar.CloseGroup | kevi/scanners.py:449-451 | the `)` after the inner predicate completes an operand that denotes the inner predicate |
| PredicateGrammar.GroupOperand | kevi/scanners.py:447-451 | a parenthesised predicate is an operand denoting the predicate inside |
| PredicateGrammar.UnaryOperand | kevi/scanners.py:453-463 | where no `(` opens, an operand is what UnaryAt reads |
| PredicateGrammar.ParseUnary | kevi/scanners.py:453-463 | UnaryAt: NOT/`!` give the negation of the operand read next; otherwise TRUEPREDICATE/FALSEPREDICATE give the value predicates; otherwise a comparison, possibly negated |
| PredicateGrammar.ParseNegated | kevi/scanners.py:453-454 | after NOT or `!`: a Not compound whose one child is the operand read next |
| PredicateGrammar.NotOperand | kevi/scanners.py:453-454 | NOT or `!` before an operand reads as the negation of that operand |
| PredicateGrammar.ParseValueOrComparison | kevi/scanners.py:456-463 | TRUEPREDICATE/FALSEPREDICATE give exactly the value predicates; otherwise the comparison read as ComparisonAt states |
| PredicateGrammar.ValueReadIntro | kevi/scanners.py:456-461 | a value keyword gives TruePredicate or FalsePredicate |
| PredicateGrammar.ComparisonReadIntro | kevi/scanners.py:463 | where no value keyword is, the comparison read (negated for NONE and SOME) is the operand |
| PredicateGrammar.ParseComparisonRead | kevi/scanners.py:463 | the comparison branch: the comparison read, in comparison form |
| PredicateGrammar.ParseComparison | kevi/scanners.py:465-519 | ComparisonAt: the modifier of the first modifier keyword, the left expression read up to the operator, the type of the first operator-table keyword there, the options of the first option suffix after it, and the right expression read after those; options in 0..3; wrapped in Not exactly for NONE and SOME |
| PredicateGrammar.ParseOperatorAndOptions | kevi/scanners.py:478-511 | the operator and the options as OperatorRead states them; the right expression starts after them |
| PredicateGrammar.ModifierOf | kevi/scanners.py:466-474 | ANY/NONE give Any, ALL/SOME give All, no keyword gives Direct |
| PredicateGrammar.ParseOperator | kevi/scanners.py:478-502 | the operator is the type of the first table keyword accepted (so `<=` before `<`, `==` before `=`), which is consumed; no match is ValueError |
| PredicateGrammar.OperatorTableIsComplete | kevi/scanners.py:478-497 | every comparison type except SEL has a keyword in the table |
| PredicateGrammar.ParseOptions | kevi/scanners.py:504-511 | the first of `[cd]`, `[c]` and `[d]` that follows (up to case when case is ignored) gives 3, 1 or 2 and is consumed; none gives 0 |
| PredicateGrammar.CaselessScanned | kevi/scanners.py:504-511 | on a scanner that ignores case, the first match is the first occurrence up to ASCII case |
| PredicateGrammar.OptionValuesAreFlags | python/rules/predicates.py:53-58 | the option values are the bit combinations of CaseInsensitive and DiacriticInsensitive |
| PredicateGrammar.Combine | kevi/scanners.py:432-442 | one fold step gives a compound of the connective's kind whose children are, as a multiset, the children of both sides (a side of that kind contributes its children) |
| PredicateGrammar.FoldJoinsAppend | kevi/scanners.py:428-442 | reading one more connective combines it with everything read so far |
| PredicateGrammar.ChildrenAreFlat | kevi/scanners.py:432-440 | the children contributed by a flat side are flat |
| PredicateGrammar.CombineIsFlat | kevi/scanners.py:432-442 | combining two flat predicates gives a flat predicate: no And directly under an And, no Or under an Or |
| PredicateGrammar.FoldJoinsIsFlat | kevi/scanners.py:410-444 | a whole conjunction chain folds to a flat predicate |
| PredicateGrammar.EvaluateAllAppend | kevi/operators.py:60 | `all` over a concatenation is `all` of the first part, then of the second |
| PredicateGrammar.EvaluateAnyAppend | kevi/operators.py:61 | `any` over a concatenation is `any` of the first part, then of the second |
| PredicateGrammar.ChildrenEvaluate | kevi/scanners.py:432-440 | a side's contributed children evaluate, under the connective, to the side itself |
| PredicateGrammar.CombineChildren | kevi/scanners.py:433-441 | the children of a combined compound are the left side's contribution, then the right side's, except when only the right side is of the connective's kind, when they come the other way round |
| PredicateGrammar.CombineOrder | kevi/scanners.py:433-441 | the four cases of the fold, with l and r the operands and "of the kind" meaning a compound of the connective's kind: both of the kind give `l.subpredicates + r.subpredicates`; only r gives `r.subpredicates + [l]`, so the left operand comes last; only l gives `l.subpredicates + [r]`; neither gives `[l, r]` |
| PredicateGrammar.AllOfParts | kevi/scanners.py:432-440 | `all` of the reordered children agrees with both sides when neither raises |
| PredicateGrammar.AnyOfParts | kevi/scanners.py:432-440 | `any` of the reordered children agrees with both sides when neither raises |
| PredicateGrammar.CombineMeansConnective | kevi/scanners.py:430-442 | when both operands evaluate without raising, the flattened compound evaluates to their AND (or OR), despite the reordering |
| PredicateGrammar.FoldJoinsMeaning | kevi/scanners.py:410-444 | when every operand evaluates, the folded chain evaluates to the left-to-right AND/OR of the operands |
| PredicateGrammar.RightChildrenEvaluateFirst | kevi/scanners.py:436 | `FALSEPREDICATE AND (TRUEPREDICATE AND NOT TRUEPREDICATE)` raises TypeError: the right side's children are evaluated before the false left operand |
| ModelGrammar.ParseModel | kevi/scanners.py:524-535 | RulesetsAt: rulesets read one after another from the old cursor, each as a top-level ruleset, until one raises, whatever the error; succeeds iff only skipped text remains, with a model holding exactly those rulesets' rules, in order, and no buckets; otherwise exactly ValueError "Failed to parse past line N" with the line reached |
| ModelGrammar.ParseRulesets | kevi/scanners.py:525-531 | the loop of parseModel: rulesets read consecutively from the old cursor, their rules concatenated in order; the cursor is at or after the end of the last |
| ModelGrammar.ParseTopRuleset | kevi/scanners.py:527-529 | one turn of the loop: a ruleset with no outer specifiers, read where the last one ended, extends the readings by one, and the rules so far are extended by its rules (`rules.extend`) |
| ModelGrammar.RulesetsExtend | kevi/scanners.py:527-531 | one more top-level ruleset, read where the last ended, extends the model's reading, and its rules follow the rules before it |
| ModelGrammar.AllRulesAppend | kevi/scanners.py:529 | the rules of one more ruleset follow those of the rulesets before it |
| ModelGrammar.ParseRuleset | kevi/scanners.py:537-581 | RulesetAt: the specifiers (FormatsAt, each joined to every outer specifier), `{`, a body (BodyAt) and `}`, read from the old cursor to the new; the rules are RulesOf the reading: one per (specifier predicate, declaration) pair, specifier-major, then the nested rulesets' rules; every specifier predicate is flat |
| ModelGrammar.RulesOfParts | kevi/scanners.py:576-579 | a ruleset's rules are the product of its specifier predicates with its declarations, followed by the nested rules |
| ModelGrammar.RulesetIntro | kevi/scanners.py:537-581 | specifiers, `{`, a body and `}` read one after another make a ruleset reading |
| ModelGrammar.CloseRuleset | kevi/scanners.py:572-578 | no `}` next is exactly ValueError "Expected to find }"; otherwise the `}` is consumed and the rules are the product of the specifier predicates, parsed again, with the declarations |
| ModelGrammar.ParseSpecifiers | kevi/scanners.py:539-548 | the specifier texts read (FormatsAt) give the specifiers: its own formats, or each outer specifier joined to each own format with " AND "; at least one; a ValueError is exactly "Expected specifier" |
| ModelGrammar.ParseBody | kevi/scanners.py:554-574 | BodyAt: items (a declaration and its `;`, or a ruleset nested from the same mark) one after another, then a last declaration without `;` or a failed attempt; the body's declarations and nested rules are those of the items, in order; a ValueError never escapes |
| ModelGrammar.ParseBodyItem | kevi/scanners.py:559-571 | one pass: a declaration and its `;`, or a nested ruleset read from the same mark, each tied to the text (ItemAt); or the end of the body, after a declaration without `;` or a failed attempt |
| ModelGrammar.ItemsExtend | kevi/scanners.py:558-571 | one more item, read where the last ended, extends the items, appending its declaration or its rules |
| ModelGrammar.BodyEnds | kevi/scanners.py:558-571 | items read one after another, then an ending, make a body |
| ModelGrammar.BuildRules | kevi/scanners.py:576-578 | with no declarations nothing is parsed; otherwise every specifier text is parsed again as a predicate read from its start (PredicateAt), and the rules are the Product of those flat predicates with the declarations |
| ModelGrammar.MakeRule | kevi/scanners.py:577 | the Rule constructor accepts the pair, with the predicate, key, value and weight 0, and priority Score(predicate) |
| ModelGrammar.Product | kevi/scanners.py:547-548 | `itertools.product` has |xs|·|ys| entries |
| ModelGrammar.ProductAt | kevi/scanners.py:547-548 | entry i·|ys|+j of the product is f(xs[i], ys[j]): specifier-major order |
| ModelGrammar.ProductIsNonEmpty | kevi/scanners.py:546-548 | the product of non-empty lists is non-empty |
| ModelGrammar.ParseSpecifierFormats | kevi/scanners.py:583-598 | FormatsAt: predicates read one after another from the old cursor, each after a comma that follows the previous one, with none after the last; the result is their formats, at least one, and consumes input; a ValueError makes the result None, other errors pass through |
| ModelGrammar.NextFormat | kevi/scanners.py:588-596 | one round: a format read from the cursor, and whether a comma follows it, which is then consumed |
| ModelGrammar.ParseFormat | kevi/scanners.py:588-595 | the predicate read from the old cursor to the new, and its format: the text it spans with skipped characters stripped from both ends (SpecifierFormat) |
| ModelGrammar.ReadingsExtend | kevi/scanners.py:587-596 | one more predicate, read after the comma that follows the last, extends the predicates read one after another |
| ModelGrammar.FormatsExtend | kevi/scanners.py:587-596 | one more specifier, read after the comma that follows the last, extends the specifiers read |
| ModelGrammar.FormatsAppend | kevi/scanners.py:595 | the formats of one more specifier are the formats before it and its own |
| ModelGrammar.FormatsStep | kevi/scanners.py:587-597 | one loop turn: the specifier read extends the readings and the formats, and with no comma after it the specifier list is complete where the skipped characters after it end |
| ModelGrammar.ScanSeparator | kevi/scanners.py:596 | `c` is found iff it is next after the skipped characters, and then it is consumed; otherwise only the skipped characters are passed |
| ModelGrammar.ParseDeclaration | kevi/scanners.py:600-609 | no key is exactly ValueError "Could not scan property key"; a key without a colon is exactly ValueError "Expected colon after property key: " followed by the key; a success is DeclarationAt: the key read from the old cursor (non-empty, of property-key characters), the `:`, and the expression read from just after the colon to the new cursor |
| ModelGrammar.JoinedCharacters | kevi/scanners.py:594 | the characters of `''.join(skip)`: every character of every skip string |
| ModelGrammar.SkippedCharacters | kevi/scanners.py:594 | the characters the scanner skips, as a strip set: c is in it iff Skips(skip, c) |
| ModelGrammar.SpecifierFormatTrimmed | kevi/scanners.py:594 | corrected: the format, stripped of skipped characters at both ends, neither starts nor ends with one |
| ModelGrammar.SpecifierFormatIsSlice | kevi/scanners.py:593-594 | the corrected format is a contiguous slice of the spanned text, and only skipped characters are cut |
| ModelGrammar.FormatAsWrittenCutsDigits | kevi/scanners.py:594 | as written, `value == 10` is cut to `value == 1`; the corrected strip keeps it |
| ModelGrammar.DefaultSkipSpellsDigits | kevi/characters.py:5 | the joined default skip set holds `0` but neither `1` nor `v` |
| Expressions.KeyPathOf | kevi/expressions.py:145-159 | only a key-path node reports a key path; every other node reports None |
| Expressions.ExpressionForFunction | kevi/expressions.py:109-121 | FUNCTION with fewer than 2 parameters, or a name not in the table, is ValueError; a table name gives a node over the table constant |
| Expressions.ParserOnlyNamesAreMissing | kevi/expressions.py:10-37 | `_chs`, `_first`, `_last` and `count` (which the parser asks for) are not in the table |
| Expressions.Lookup | kevi/expressions.py:373 | `target[selector]` on a dict (KeyError if missing); `getattr` otherwise, a TypeError for a non-string selector |
| Expressions.OptionalString | python/rules/pathutils.py:8-9 | None maps to None and a string to a string |
| Expressions.StringList | python/rules/pathutils.py:23-39 | a list of strings becomes a list value of the same length |
| Expressions.PathArgument | python/rules/pathutils.py:24-26 | None and strings are taken as they are; a value without a length raises TypeError at `len(path)` |
| Expressions.ComponentsArgument | python/rules/pathutils.py:8-14 | None is taken as None and a list of strings as its strings; a list with any other element raises TypeError in `re.sub`, a value without a length at `len(components)` |
| Expressions.ApplyPathFunction | python/rules/pathutils.py:7-180 | wrong argument counts raise TypeError; `appendPathComponent` with a None side gives the other argument whatever its type ('' when both are None); an argument without a length raises TypeError, and so does `deletePathExtension` of None; `appendPathExtension` raises NameError (undefined `extension`); `deletePathExtension` computes the corrected PathUtilities.DeletePathExtension, not the code as written (see Findings) |
| Expressions.Eval | kevi/expressions.py:179-376 | a constant is its value, SELF the object, a variable None except `_NSPathUtilities`; an aggregate is a list of its items' length |
| Expressions.EvalAll | kevi/expressions.py:274 | evaluating items left to right gives one value per item |
| Expressions.EvalAllIsPointwise | kevi/expressions.py:274 | the list evaluation succeeds iff every item does, value i being item i's value |
| Expressions.AggregateIsPointwise | kevi/expressions.py:273-274 | an aggregate evaluates to the list of its items' values, in order |
| Expressions.SetOpWithoutLeftSet | kevi/expressions.py:319-322 | a non-set left value gives None without evaluating the right side |
| Expressions.SetOpOnSets | kevi/expressions.py:316-328 | with sets on both sides: union, intersection or difference; a substituted (untyped) set node raises KeyError |
| Expressions.UnionKeepsFirstOfEqualItems | kevi/expressions.py:318-327 | `set().union([1, True])` is `{1}`, of length 1: the first of two `==`-equal items is kept |
| Expressions.KeyPathEntry | kevi/expressions.py:36 | `valueForKeyPath:` is a table entry |
| Expressions.KeyPathIsValueForKeyPath | kevi/expressions.py:384-388 | a key-path node evaluates like the function node it is built as, and that is `valueForKeyPath(obj, path)` |
| Expressions.BuiltinCall | kevi/expressions.py:371-376 | a call over the table evaluates the arguments in order and applies the entry to them |
| Expressions.SumFunctionExample | kevi/expressions.py:11 | `sum:` over the constant [1, 2, 3] evaluates to 6 |
| Expressions.Substitute | kevi/expressions.py:172-382 | a variable with a non-None value becomes that constant, otherwise stays; constants and SELF stay; an aggregate fails iff one of its items does, and is otherwise rebuilt from its items' substitutions; the only error is NameError |
| Expressions.SubstituteAll | kevi/expressions.py:266 | fails iff some item's substitution fails; otherwise item i of the result is item i's substitution |
| Expressions.SubstituteFailsOnCalls | kevi/expressions.py:378-382 | substitution fails iff the expression contains a function or key-path node |
| Expressions.SubstituteAllFailsOnCalls | kevi/expressions.py:265-267 | a list's substitution fails iff some item contains a call |
| Expressions.SubstituteIdempotent | kevi/expressions.py:172-306 | substituting twice gives what substituting once gave |
| Expressions.SubstituteAllIdempotent | kevi/expressions.py:265-267 | the same for lists |
| Expressions.SubstituteNothing | kevi/expressions.py:172-306 | with no variables, an expression without calls or set nodes is unchanged |
| Expressions.SubstituteAllNothing | kevi/expressions.py:265-267 | the same for lists |
| Expressions.SubstitutedVariableEvaluates | kevi/expressions.py:224-231 | a substituted variable evaluates to its given value for every object |
| Builtins.SumOfIntegers | kevi/expressions.py:11 | `sum` of integers is start plus their arithmetic sum |
| Builtins.SumOfStringFails | kevi/expressions.py:11 | a string among numbers makes `sum` raise TypeError |
| Builtins.Sum | kevi/expressions.py:11 | `sum` takes one or two arguments (TypeError otherwise) and refuses a string start |
| Builtins.ExtremeOfNumbers | kevi/expressions.py:13-14 | on numbers, the running extreme is one of the values and bounds all of them |
| Builtins.MinMax | kevi/expressions.py:13-14 | no arguments is TypeError; an empty list is ValueError |
| Builtins.MinOfNumbers | kevi/expressions.py:13 | `min` of a non-empty list of numbers is an element no greater than any element |
| Builtins.MaxOfNumbers | kevi/expressions.py:14 | `max` of a non-empty list of numbers is an element no smaller than any element |
| Builtins.Truncate | kevi/expressions.py:17 | `int()` of a float rounds towards zero |
| Builtins.ToInt | kevi/expressions.py:17 | `int()` keeps integers, parses strings (Ok iff `int()` syntax holds), and raises TypeError on non-numbers |
| Builtins.FAbs | kevi/expressions.py:27 | `fabs` is defined exactly on numbers and gives a non-negative float of the same magnitude |
| Builtins.Ceiling | kevi/expressions.py:31 | `ceil` is defined exactly on numbers and gives the least integer not below |
| Builtins.ReplaceIn | kevi/expressions.py:21 | only a string has `replace` (AttributeError); its arguments must be strings; replacing x by x changes nothing |
| Builtins.KeyPathLookup | kevi/expressions.py:36 | a non-string key path raises AttributeError; a string one is the key-by-key lookup |
| Builtins.Apply | kevi/expressions.py:10-37 | an entry with a fixed arity raises TypeError on any other argument count |
| Builtins.FirstAndLast | kevi/expressions.py:16-18 | `first:` and `last:` are the two ends of a non-empty list |
| Builtins.IndexConvertsWithInt | kevi/expressions.py:17 | `_index` converts its index with `int()` and indexes with Python's negative-index rule |
| Builtins.IndexExamples | kevi/expressions.py:17 | index 1.5 picks item 1, -1.5 the last item, None raises TypeError |
| Builtins.Average | kevi/expressions.py:15 | `average:` succeeds only on a sized value with at least one element; the empty list raises ZeroDivisionError |
| Builtins.AverageOfIntegers | kevi/expressions.py:15 | `average:` of integers is their sum over their count; of nothing, ZeroDivisionError |
| Builtins.SumExamples | kevi/expressions.py:11 | `sum` of [1,2,3] is 6, with start 10 over [1,2] is 13, string start raises |
| Kvc.AttributeOf | kevi/kvc.py:13-19 | None and functions have no ordinary attributes, so the lookup gives None |
| Kvc.ValueForKey | kevi/kvc.py:5-19 | an empty key gives None; a dict gives the entry or None; a list gives a list of the same length |
| Kvc.ValueForKeyEach | kevi/kvc.py:9-10 | one lookup per element |
| Kvc.ValueForKeyEachIsPointwise | kevi/kvc.py:9-10 | the list lookup succeeds iff each element's does, element by element in order |
| Kvc.ValueForKeyPath | kevi/kvc.py:21-31 | a path without '.' is a single key lookup, and the empty path gives None; ValueForKeyPathFollowsKeys states the general case |
| Kvc.ValueForKeyPathFollowsKeys | kevi/kvc.py:21-31 | a key path is looked up as the sequence of its '.'-separated keys, left to right |
| Kvc.ValueForKeysOnList | kevi/kvc.py:9-10 | on a list, a path of non-empty keys reaches into every element |
| Kvc.NestedKeyPathExample | kevi/kvc.py:21-31 | `names.total` reaches the nested entry 6 |
| Operators.Perform | kevi/operators.py:33-53 | each operator type's meaning: plain comparisons, falsy-guarded BEGINSWITH/IN/CONTAINS, ENDSWITH raising on a truthy left, LIKE and SEL raising TypeError |
| Operators.ModifierAndOptionsAreIgnored | kevi/operators.py:50-53 | only the operator type decides the outcome |
| Operators.GreaterIsSwappedLess | kevi/operators.py:34-37 | `>`/`>=` are `<`/`<=` with the operands swapped |
| Operators.ContainsIsSwappedIn | kevi/operators.py:44-46 | CONTAINS is IN swapped when both sides are truthy |
| Operators.EqualAndNotEqualDisagree | kevi/operators.py:38-39 | `==` and `!=` always answer, and oppositely |
| Operators.BetweenIsStrict | kevi/operators.py:47 | on numbers BETWEEN is `low < l < high` |
| Operators.BetweenStopsAtLowerBound | kevi/operators.py:47 | a failing lower bound decides without reading the upper one |
| Operators.InIsListMembership | kevi/operators.py:44 | IN on a list is membership under `==` |
| PredicateTypes.ModifierText | python/rules/predicates.py:11-15 | only Direct prints as the empty string |
| PredicateTypes.ComparisonText | python/rules/predicates.py:35-50 | every operator type prints as non-empty text |
| PredicateTypes.ComparisonTextIsInjective | python/rules/predicates.py:35-50 | no two operator types print alike |
| Predicates.PredicateWithValue | python/rules/predicates.py:84-85 | one of the two shared value predicates, holding the value's truthiness |
| Predicates.AndPredicate | python/rules/predicates.py:88-89 | an And compound keeping the given children in order |
| Predicates.OrPredicate | python/rules/predicates.py:96-97 | an Or compound keeping the given children in order |
| Predicates.NotPredicate | python/rules/predicates.py:92-93 | a Not compound with exactly the one child |
| Predicates.DefaultComparison | python/rules/predicates.py:123-128 | the defaults are modifier Direct, type EqualTo, options 0 |
| Predicates.Evaluate | python/rules/predicates.py:152-220 | a value predicate is its value; NOT raises TypeError; an empty AND is True, an empty OR False |
| Predicates.AndIsAll | kevi/operators.py:60 | AND is True iff every child is True |
| Predicates.AndStopsAtFirstNotTrue | kevi/operators.py:60 | the first child that is not True (after True ones) decides AND: its False or its error is the result, whatever follows |
| Predicates.OrIsAny | kevi/operators.py:61 | OR is False iff every child is False |
| Predicates.OrStopsAtFirstNotFalse | kevi/operators.py:61 | the first child that is not False (after False ones) decides OR: its True or its error is the result, whatever follows |
| Predicates.NotAlwaysRaises | kevi/operators.py:59 | NOT raises TypeError whatever its child |
| Predicates.ComparisonEvaluation | python/rules/predicates.py:152-156 | a comparison evaluates left, then right, and applies its operator to the two values |
| Rules.Score | python/rules/rules.py:55-64 | 2 for a comparison, 1 for a value predicate, and more than the number of children for a compound |
| Rules.ScoreSum | python/rules/rules.py:61 | the children's scores add up to at least their number |
| Rules.ScoreSumAppend | python/rules/rules.py:61 | scores of two runs of children add |
| Rules.Priority | python/rules/rules.py:49-53 | the priority is the score plus 1000 per unit of weight, and just the score for weight 0 |
| Rules.NewRule | python/rules/rules.py:9-27 | a missing key, and only that, raises ValueError; a missing specifier becomes TRUE and a missing value Constant(None); the priority is Priority(specifier, weight) |
| Rules.DefaultRuleFiresNone | python/rules/rules.py:13-16 | a rule without specifier or value fires everywhere with None, at priority 1 + 1000·weight |
| Rules.CanFire | python/rules/rules.py:66-67 | the rule can fire exactly as its stored specifier evaluates against the context (`Evaluate`); a value specifier (TRUE, the default) decides by its own value in any context; `if self.specifier` is always true, since predicates define no truth value |
| Rules.Fire | python/rules/rules.py:69-72 | firing is the stored value expression evaluated against the context (`Eval`); a constant value fires as that constant in any context; the value is never None, since the constructor fills in Constant(None) |
| Rules.Less | python/rules/rules.py:108-109 | `__lt__` by priority: no rule is below itself |
| Rules.AtMost | python/rules/rules.py:111-112 | `__le__` by priority: holds iff the other rule is not below this one |
| Rules.Greater | python/rules/rules.py:102-103 | `__gt__` by priority: `__lt__` with the operands swapped |
| Rules.AtLeast | python/rules/rules.py:105-106 | `__ge__` by priority: `__le__` with the operands swapped |
| Rules.WeightDominates | python/rules/rules.py:49-53 | weight 1 outranks any unweighted specifier scoring below 1000 |
| Rules.PriorityExamples | python/rules/rules.py:49-64 | scores 2, 5, 8 and 1; with weights 1 to 4: 1002, 2005, 3008, 4001 |
| Rules.NewModel | python/rules/rules.py:117-119 | a model keeps its rules and starts with no buckets |
| Rules.Candidates | python/rules/rules.py:129-130 | the candidates exist iff the key path has a bucket |
| Rules.NewModelHasNoCandidates | python/rules/rules.py:117-130 | a new model has no candidates for any key |
| Rules.InferrableKeys | python/rules/rules.py:126-127 | always None |
| PathUtilities.Collapse | python/rules/pathutils.py:14 | collapsing '/' runs leaves no "//", keeps the ends and every other character, changes nothing already collapsed, and maps all-slash text to "/" |
| PathUtilities.CollapseNonEmpty | python/rules/pathutils.py:14 | the kept components are non-empty |
| PathUtilities.DropSeparators | python/rules/pathutils.py:16 | no "/" component remains |
| PathUtilities.PathWithComponents | python/rules/pathutils.py:7-21 | None for None, "" for no components; IndexError iff every component is empty |
| PathUtilities.PathWithComponentsJoins | python/rules/pathutils.py:7-21 | ["a","b","c"] joins to "a/b/c" |
| PathUtilities.PathWithComponentsDropsTrailingSeparator | python/rules/pathutils.py:7-21 | a trailing "/" component is dropped: ["a","b","/"] gives "a/b" |
| PathUtilities.PathWithComponentsDropsEmptyLast | python/rules/pathutils.py:7-21 | an empty last component is dropped: ["a","b",""] gives "a/b" |
| PathUtilities.PathWithComponentsDropsEmptyFirst | python/rules/pathutils.py:7-21 | an empty first component is dropped: ["","a","b"] gives "a/b" |
| PathUtilities.PathWithComponentsLeadingSeparator | python/rules/pathutils.py:7-21 | a leading "/" component makes the path absolute: "/a/b" |
| PathUtilities.PathWithComponentsAllEmpty | python/rules/pathutils.py:7-21 | all-empty components make the source raise IndexError |
| PathUtilities.PathComponents | python/rules/pathutils.py:23-39 | None for None, [] for ""; the components of other paths are stated by the lemmas below |
| PathUtilities.PathComponentsOfCollapse | python/rules/pathutils.py:29-30 | collapsing runs of '/' first does not change the components |
| PathUtilities.PathComponentsTrailingSlash | python/rules/pathutils.py:31-37 | one '/' added after a non-empty path not ending in '/' adds exactly one last component "/" |
| PathUtilities.MarkEndsTrailing | python/rules/pathutils.py:34-37 | an empty piece after a non-empty last piece becomes "/", and no other piece changes |
| PathUtilities.PathComponentsExample | python/rules/tests/test_pathutils.py:25 | 'a/b' has the components ['a', 'b'] |
| PathUtilities.PathComponentsTrailingExamples | python/rules/tests/test_pathutils.py:26-27 | 'a/b/' and 'a/b//' both have the components ['a', 'b', '/'] |
| PathUtilities.CollapseExamples | python/rules/pathutils.py:29-30 | 'a/b' is already collapsed, and 'a/b//' collapses to 'a/b/' |
| PathUtilities.PathComponentsWellFormed | python/rules/pathutils.py:29-39 | for a non-empty path no component is empty, and each is "/" or free of '/' |
| PathUtilities.ComponentsOfCollapsedPath | python/rules/pathutils.py:23-39 | for a path with no "//" and no trailing '/', the components are its '/'-pieces with an empty first piece standing as "/", and pathWithComponents' filters keep them all |
| PathUtilities.SplitPiecesWellFormed | python/rules/pathutils.py:29-39 | the pieces of a text without "//", empty ends standing as "/", are "/" or non-empty and free of '/' |
| PathUtilities.ComponentsRoundTrip | python/rules/pathutils.py:7-39 | a path with no "//" and no trailing '/' is rebuilt exactly from its components |
| PathUtilities.SplitFirstPiece | python/rules/pathutils.py:34-35 | the first split piece is empty iff the text is empty or starts with '/' |
| PathUtilities.SplitLastPiece | python/rules/pathutils.py:36-37 | the last split piece is empty iff the text is empty or ends with '/' |
| PathUtilities.SplitInnerPieces | python/rules/pathutils.py:32 | without "//", no inner piece of the split is empty |
| PathUtilities.NoDoubleSlashSuffix | python/rules/pathutils.py:30-32 | a suffix of collapsed text is collapsed |
| PathUtilities.KeepAll | python/rules/pathutils.py:14 | non-empty collapsed components are all kept unchanged |
| PathUtilities.NoSeparatorsToDrop | python/rules/pathutils.py:16 | components free of '/' are all kept |
| PathUtilities.LastPathComponent | python/rules/pathutils.py:41-68 | None for None, "" for "" |
| PathUtilities.LastPathComponentOfRoot | python/rules/pathutils.py:50-52 | an all-slash path's last component is "/" |
| PathUtilities.LastPathComponentHasNoSeparator | python/rules/pathutils.py:54-68 | the last component holds no '/' unless it is "/" |
| PathUtilities.LastPathComponentIgnoresTrailingSlash | python/rules/pathutils.py:58-63 | one trailing '/' does not change the last component |
| PathUtilities.LastComponentAfterLastSeparator | python/rules/pathutils.py:64-66 | without a trailing '/', the last component is the text after the last '/' |
| PathUtilities.CollapseAppendSlash | python/rules/pathutils.py:48 | collapsing commutes with adding one trailing '/' |
| PathUtilities.RFindPrefix | python/rules/pathutils.py:59 | `rfind` below `end` only looks at the first `end` characters |
| PathUtilities.DeleteLastPathComponent | python/rules/pathutils.py:70-104 | None for None, "" for ""; the result for other paths is stated by the lemmas below |
| PathUtilities.DeleteLastPathComponentOfCollapse | python/rules/pathutils.py:76-77 | collapsing runs of '/' first does not change the result |
| PathUtilities.DeleteLastPathComponentTrailingSlash | python/rules/pathutils.py:83-102 | without ':', one '/' added after a path not ending in '/' does not change the result: the cut is at the last '/' that is not the final character |
| PathUtilities.DeleteFromCollapsedTrailingSlash | python/rules/pathutils.py:83-102 | the same on a collapsed path |
| PathUtilities.DeleteFromCollapsedCuts | python/rules/pathutils.py:83-102 | on a collapsed path without ':' and a trailing '/', the result is the text before the last '/' ("/" when that is the first character, "" without one) |
| PathUtilities.DeleteFromCollapsedCutsBeforeSlash | python/rules/pathutils.py:97-102 | with one trailing '/' added, the second `rfind` finds the same last '/' |
| PathUtilities.DeleteLastPathComponentOfDrive | python/rules/pathutils.py:87-94 | a drive keeps its trailing '/': 'c:' gives 'c:' and 'c:/' gives 'c:/', so the trailing-'/' lemma needs a path without ':' |
| PathUtilities.DeleteLastPathComponentTrailingExamples | python/rules/tests/test_pathutils.py:52-53 | 'a/b/' and 'a/b//' both give 'a' |
| PathUtilities.DeleteLastPathComponentOfRoot | python/rules/pathutils.py:79-81 | an all-slash path gives "/" |
| PathUtilities.NoDrive | python/rules/pathutils.py:87-94 | a path without ':' has no drive prefix |
| PathUtilities.DeleteLastPathComponentOfSingleComponent | python/rules/pathutils.py:95-104 | a single relative component leaves "" |
| PathUtilities.DeleteCutsAtLastSeparator | python/rules/pathutils.py:83-102 | without ':' and a trailing '/', the result is the text before the last '/' |
| PathUtilities.AppendPathComponent | python/rules/pathutils.py:106-118 | a None side gives the other side (or "") |
| PathUtilities.AppendPathComponentJoinsWithOneSlash | python/rules/pathutils.py:120-127 | two non-empty sides join as the path less one trailing '/', then '/', then the component less one leading '/' (so "a//" and "/c" give "a//c") |
| PathUtilities.RejoinAtRoot | python/rules/pathutils.py:106-127 | "/" and the rest of an absolute path join back to the path |
| PathUtilities.RejoinAt | python/rules/pathutils.py:120-127 | the two sides of a single '/' join back to the text |
| PathUtilities.RejoinAtLastSeparator | python/rules/pathutils.py:83-127 | the two sides of a cut at the last '/' join back to the path |
| PathUtilities.DeleteThenAppendLastComponent | python/rules/pathutils.py:41-127 | appending the last component to what deleting it leaves gives back the collapsed path |
| PathUtilities.PathExtension | python/rules/pathutils.py:129-149 | None for None; "" when there is no '.'; the extension itself never holds a '.' |
| PathUtilities.PathExtensionAfterLastDot | python/rules/pathutils.py:136-147 | without a trailing '/', a last '.' that is not the final character and has no '/' after it gives the text after that dot |
| PathUtilities.PathExtensionBeforeTrailingSlash | python/rules/pathutils.py:136-147 | with a trailing '/', the same gives the text from after the last '.' up to the trailing '/' |
| PathUtilities.PathExtensionEmpty | python/rules/pathutils.py:136-149 | "" when the last '.' is the final character, or when a '/' the search sees comes after it (any but a trailing one, and with a trailing '/' any but the one just before it) |
| PathUtilities.PathExtensionIsAfterLastDot | python/rules/pathutils.py:136-149 | conversely, a non-empty extension is the text after the last '.', up to the end or up to a trailing '/' |
| PathUtilities.DeletePathExtensionAsWritten | python/rules/pathutils.py:151-164 | as written: apart from an all-slash path (or one that is all slashes before a final newline, which `$` lets through), the result is a prefix of the path |
| PathUtilities.DeletePathExtensionAsWrittenLosesText | python/rules/pathutils.py:161-164 | as written, "a/b" becomes "a/" and "abc.txt" becomes "" |
| PathUtilities.DeletePathExtension | python/rules/pathutils.py:151-164 | corrected: an all-slash path gives "" or "/"; otherwise a prefix of the path that ends before the last component's first '.', or the whole path without one |
| PathUtilities.DeletePathExtensionExamples | python/rules/pathutils.py:151-164 | "a/b" stays, "abc.txt" gives "abc", "a/b.txt" gives "a/b" |
| Values.Truthy | python/rules/predicates.py:84-85 | Python's `bool()`: a number is true iff non-zero, a string, list, dict or set iff non-empty |
| Values.Norm | kevi/operators.py:38 | Python's `==` collapses bool, int and float to one numeric value |
| Values.EqIsNumericForNumbers | kevi/operators.py:38-39 | on numbers `==` is numeric equality |
| Values.Compare | kevi/operators.py:34-37 | numbers compare numerically; mismatched kinds raise TypeError |
| Values.Contains | kevi/operators.py:44-46 | `in` on a list is `==`-membership; a string needs a string item; dicts and sets need a hashable item |
| Values.Position | kevi/expressions.py:16-18 | a negative index counts from the end; out of range gives None, both directions |
| Values.Subscript | kevi/expressions.py:16-19 | lists take integer indices, dicts string keys; other values raise TypeError |
| Values.Length | kevi/expressions.py:12 | `len` is defined exactly on strings, lists, dicts and sets |
| Values.Iterate | kevi/expressions.py:11-15 | a list iterates over its items, a string over its characters |
| Values.Elements | kevi/expressions.py:326-328 | a set's elements are itself; a value of a kind other than set, list, string or dict raises TypeError |
| Values.SetOfItemsWithin | kevi/expressions.py:326-327 | `set(items)`, built item by item, holds only items |
| Values.SetOfItemsCovers | kevi/expressions.py:326-327 | `set(items)` holds an `==`-equal of every item |
| Values.SetOfItemsHasNoTwoEqual | kevi/expressions.py:326-327 | `set(items)` holds no two `==`-equal elements |
| Values.ElementsOfList | kevi/expressions.py:326-327 | a list gives `set(items)`: TypeError iff an item is unhashable, otherwise only items and an equal of each |
| Values.ElementsOfStringAndDict | kevi/expressions.py:326-327 | a string gives exactly its one-character strings, a dict exactly its keys |
| Values.ElementsHaveNoTwoEqual | kevi/expressions.py:326-327 | apart from a host set, the elements taken from a value hold no two `==`-equal ones |
| Values.Union | kevi/expressions.py:292 | the union holds `a` and an equal of every element of `b`, and nothing else: each added element is from `b` with no equal in `a` |
| Values.Intersection | kevi/expressions.py:293 | the elements of `a` with an equal in `b` |
| Values.Difference | kevi/expressions.py:294 | the elements of `a` with no equal in `b` |
| Values.SetMethodsKeepNoTwoEqual | kevi/expressions.py:292-294 | union, intersection and difference of sets without `==`-equal pairs have none either |
| Values.Add | kevi/expressions.py:20 | integer sum, string concatenation, list concatenation |
| Values.Subtract | kevi/expressions.py:22 | integer difference; set difference on sets |
| Values.Repeat | kevi/expressions.py:23 | n copies: length n·|s|, only elements of s, starting with s |
| Values.Multiply | kevi/expressions.py:23 | integer product; string and list repetition by an integer |
| Values.Divide | kevi/expressions.py:24 | true division; ZeroDivisionError by zero |
| Values.FloorModIsRemainder | kevi/expressions.py:33 | Python's `%` takes the divisor's sign and recombines with `//` |
| Values.Modulo | kevi/expressions.py:33 | integer `%` is the floor remainder; zero divisor raises |
| Values.Negate | kevi/expressions.py:34 | `-v` is defined exactly on numbers and negates them |
| Numbers.PyInt | kevi/scanners.py:171-173 | `int()` only accepts non-empty text |
| Numbers.PyFloat | kevi/scanners.py:167-169 | `float()` only accepts non-empty text |
| Numbers.PyIntOfDigits | kevi/scanners.py:171-173 | `int()` of a non-empty run of ASCII digits is the number they spell |
| Numbers.PyIntOfSignedDigits | kevi/scanners.py:171-173 | `int()` of an optional sign and a run of ASCII digits is that integer, negated for '-' |
| Numbers.PyIntOfIntToString | kevi/scanners.py:171-173 | `int(str(i)) == i` for every integer, negative ones included |
| Numbers.PyFloatOfSignedDigits | kevi/scanners.py:167-169 | `float()` of a signed run of digits without a point is that integer, negated for '-' |
| Numbers.PyFloatOfIntToString | kevi/scanners.py:167-169 | `float(str(i)) == i` for every integer |
| Numbers.DigitsValueOfNatToString | kevi/scanners.py:171-173 | the decimal digits of `n` read back as `n` |
| Numbers.SignAndBodyOfIntToString | kevi/scanners.py:171-173 | `str(i)` has no surrounding whitespace and splits into the sign of `i` and the digits of its magnitude |
| Numbers.DropUnderscores | kevi/scanners.py:171-173 | removing digit-group underscores leaves only digits |
| Numbers.Power10 | kevi/scanners.py:167-169 | powers of ten are positive |
| Strings.Split | python/rules/pathutils.py:32 | `split` gives at least one piece, none holding the separator |
| Strings.SplitTrailingSeparator | python/rules/pathutils.py:32 | a separator added at the end adds exactly one empty last piece |
| Strings.Join | python/rules/pathutils.py:21 | joining one piece gives it back |
| Strings.JoinSplit | kevi/kvc.py:21-31 | joining the split pieces gives the text back |
| Strings.FindChar | kevi/kvc.py:22 | `find` is the first index holding the character, or -1 |
| Strings.RFindChar | python/rules/pathutils.py:55 | `rfind` below `end` is the last index holding the character, or -1 |
| Strings.FindSub | python/rules/pathutils.py:88 | the first occurrence of the substring, or -1 |
| Strings.LStripCuts | kevi/scanners.py:594 | stripping on the left leaves a suffix of the text; everything cut is a strip character, and what is left does not start with one |
| Strings.RStripCuts | kevi/scanners.py:594 | the same on the right: a prefix is left, and it does not end with a strip character |
| Strings.Replace | kevi/expressions.py:21 | replacing x by x changes nothing |
| Strings.ReplaceEmpty | kevi/expressions.py:21 | replacing "" inserts `y` around every character |
| Strings.Lower | kevi/scanners.py:113-117 | ASCII lower-casing maps exactly the capitals |
| Strings.LowerAll | kevi/scanners.py:113-117 | lower-casing works character by character |
| Strings.Clip | python/rules/pathutils.py:59 | slice bounds clamp into range |
| Strings.NatToString | kevi/scanners.py:534 | the decimal form of a line number is non-empty and all digits |

## Left out

- Floating point. `float()` literals are exact rationals, so rounding, `inf` and `nan` are not modelled. Neither are `sqrt:`, `raise:toPower:` (`math.pow`), `ln:` and `exp:`, which give `NotModelled`. `average:` and `divide:by:` divide exactly.
- Nondeterminism and host callables. `random:` gives `NotModelled`. So does `now`: its table entry (kevi/expressions.py:28) returns the function `datetime.datetime.now` itself, uncalled, and the value type has no host callables.
- Regular expressions. MATCHES (`re.match`) gives `NotModelled`. The `^\w` test of `deleteLastPathComponent` is computed (PathUtilities.StartsWithWordCharacter), but over ASCII letters, digits and `_` only, where Python's `\w` also takes other Unicode letters and digits.
- Host reflection. `getattr` on strings, numbers, lists and sets (their methods, `real`, ...) and on dunder attributes gives `NotModelled`. The only host object modelled is the pathutils module behind `_NSPathUtilities`.
- Unicode. `lower()` and case-insensitive matching are ASCII only, and Python's `==` on strings is code-point equality.
- Numbers.PyInt: accepts ASCII digits only. Python's `int()` also accepts other Unicode decimal digits (such as Arabic-Indic digits), which the model rejects. Builtins.ToInt (`int:`) and the number scan (Scanning.Scanner.ScanInt) inherit this.
- Numbers.PyFloat: accepts ASCII digits only, where `float()` also accepts other Unicode decimal digits. Scanning.Scanner.ScanFloat and the number literals of ExpressionGrammar inherit this.
- Values.Modulo: `%` with a string on the left is printf-style formatting (`'%d' % 5` is `'5'`) and gives `NotModelled`.
- Expressions.ApplyPathFunction: a list, dict or set passed as a path, or a dict or set passed as components, gives `NotModelled`. In the source these pass `len()` and then either give a result (`pathComponents([])` is `[]`) or fail later in `re.sub`, `rfind` or indexing.
- Python version. `collections.Sequence`, `collections.Mapping` and `collections.Callable` in kevi/kvc.py are taken to exist, as they do before Python 3.10. Python's `True == 1` is modelled through `Norm`; `hash`-based dict and set ordering is not, so iterating a non-empty dict or set gives `NotModelled`.
- ExpressionGrammar.PassPercent: the `%` placeholder branch (kevi/scanners.py:253-279) tests the character at the `%` itself, so its `nextArg()` call is never reached. The model keeps only the cursor effect.
- ExpressionGrammar.ParseExpression, ExpressionGrammar.ParsePower, ExpressionGrammar.ParseMultiplication, ExpressionGrammar.ParseAddition, ExpressionGrammar.ParseBinary: on a scanner whose case flag is set, the operands of the power level are tied only through the span they occupy between two operators. The readings of the simple level match its keywords up to case, as every keyword scan leaves the scanner.
- ExpressionGrammar.ParseFunctional, ExpressionGrammar.ParseSimple, ExpressionGrammar.ParseSuffix: on a scanner whose case flag is set, they state progress and the node each turn builds, not the reading of the text.
- ExpressionGrammar.ParsePrefixed: `{` is stated only as giving an aggregate; its items are stated by ExpressionGrammar.ParseAggregate. The error messages of the missing `)`, `}` and `]` are not stated.
- ExpressionGrammar.ParseIndex: the expression read after `FIRST`, `LAST` or `SIZE` is not tied to the text, since the node it would make always raises.
- ModelGrammar.ParseFormat, ModelGrammar.ParseSpecifierFormats: use the corrected strip (ModelGrammar.SpecifierFormat), which removes only the characters the scanner skips. kevi/scanners.py:594 strips every character of `''.join(skip set)`, so these members keep `value == 10` where the source keeps `value == 1` (see Findings). Every specifier text, and so every rule built from it, follows the corrected strip.
- Expressions.ApplyPathFunction: its `deletePathExtension` entry uses the corrected PathUtilities.DeletePathExtension. As written, python/rules/pathutils.py:161-164 makes `deletePathExtension:` give "a/" for "a/b" and "" for "abc.txt", where the evaluator gives "a/b" and "abc" (see Findings). The as-written function is PathUtilities.DeletePathExtensionAsWritten.
- ModelGrammar.ParseSpecifierFormats: the ValueError that turns the result into None is not tied to the text.
- ModelGrammar.ParseBody, ModelGrammar.ParseBodyItem: a failed attempt at the end of a body is stated only to leave the cursor at or after where it started. The text it rejected is not characterised.
- ModelGrammar.ParseModel: the ruleset attempt that ends the loop is not characterised. Only the rulesets read before it are tied to the text.
- ModelGrammar.ParseRuleset: the ValueError "Expected { after specifiers: ..." is modelled without the specifier list in its message, and is not stated by a contract.
- ModelGrammar.ParseDeclaration: the errors of the expression after the colon pass through and are not characterised.
- PredicateGrammar.ParseNot, PredicateGrammar.ParseGroup: the ValueError for a missing `)` is not stated by a contract.
- ExpressionGrammar.ParseList: the error for a missing closing character is not stated by a contract.
- Values.Elements: a host `VSet` is taken to hold no two `==`-equal elements (such as `1` and `True`); given one that does, `Elements` returns it as it is and `Union` keeps both.
- Values.Intersection: of two `==`-equal elements the result keeps `a`'s, where CPython keeps the one from the smaller set, or from a list argument.
- Scanning.Scanner.ScanPredicateKeyword: the line counter is stated only as never going back.
- Recursion depth. Python's recursion limit (`RecursionError` in deep expressions) is not modelled.
- The `context` parameter of `expressionValueWithObject` is never used by the modelled nodes and is left out.
- Printing. `Expression.__str__`/`__repr__` (`repr()` of host values) and the full `ComparisonPredicate.__str__` are left out; only the modifier and operator tables they print from are modelled (PredicateTypes.ModifierText, PredicateTypes.ComparisonText).
- `Rule.__eq__` compares `other.speciifer`, an attribute that does not exist, so it always raises AttributeError for two rules. It is not modelled; rules are compared by priority only.
- `Model.candidates` and `inferrableKeys` are stubs in the source and are modelled as such.
- The kvc setters are no-ops in the source and are not modelled.
- `standardizePath` indexes a string with a tuple (`path[0, pathLength]`) and cannot succeed on a path with a trailing '/'. It is not part of this model. `appendPathExtension` reads an undefined `extension` and is modelled only as raising NameError (Expressions.ApplyPathFunction).
- `expressionForBlock` raises NotImplementedError and is not part of this model.
- The skip set None, which would make `''.join(None)` raise, never occurs on the modelled paths. The model's skip set is always a set.
- ModelGrammar.BuildRules: re-parses each specifier text once rather than once per (specifier, declaration) pair as `predicateWithFormat` is called. The parse is deterministic, so the rules are the same.
- `if not expr` in parseDeclaration never fires: Expression defines no `__bool__`, so every node is truthy. The model has no such test.
- Error messages. The contracts state the messages of parseModel ("Failed to parse past line N"), parseRuleset ("Expected specifier", "Expected to find }") and parseDeclaration ("Could not scan property key", "Expected colon after property key: " and the key). Elsewhere a contract states only the exception class, and messages that format `repr()` values or positions are simplified.

## Findings

| source | as written | input that shows it | evidently intended | confidence | as-written member | corrected member |
|---|---|---|---|---|---|---|
| kevi/scanners.py:594 with kevi/characters.py:5 | the specifier text is stripped with the characters of `''.join(skip set)`, which include `0`, `8`, `5`, `a` and NUL from the three-character entries | the specifier `value == 10` is stored as `value == 1` | strip only the characters the scanner skips | not executed | ModelGrammar.FormatAsWrittenCutsDigits | ModelGrammar.SpecifierFormatIsSlice |
| python/rules/pathutils.py:161-164 | the dot is searched from the last '/' and, when none is found, everything after the last '/' is dropped | `deletePathExtension("a/b")` is `"a/"` and `deletePathExtension("abc.txt")` is `""` | remove only the extension of the last component | not executed | PathUtilities.DeletePathExtensionAsWrittenLosesText | PathUtilities.DeletePathExtension |
