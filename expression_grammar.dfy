/**
 * The recursive-descent expression parser of kevi/scanners.py (`ExpressionScanner`),
 * as methods over a scanner. Each level returns the expression it read or the error
 * it raised; on success it has consumed input, which is what makes the mutual
 * recursion terminate.
 */
module ExpressionGrammar {
  import opened Wrappers
  import opened Values
  import opened Expressions
  import opened Scanning
  import opened Characters
  import Builtins
  import Numbers
  import Strings

  /** Whether `e.keyPath` is truthy: a key-path node with a non-empty path. */
  predicate HasKeyPath(e: Expression) {
    e.KeyPath? && e.path != ""
  }

  /** The prefixes a simple expression tries, in order, after a number. */
  const SimplePrefixes: seq<string> := ["-", "(", "{", "NULL", "NIL", "TRUE", "YES", "FALSE", "NO", "SELF", "$"]

  lemma SimplePrefixesAreNonEmpty()
    ensures forall k :: 0 <= k < |SimplePrefixes| ==> SimplePrefixes[k] != ""
  {
  }

  const Quotes: seq<string> := ["\"", "'"]

  /** What may follow an operand of the functional level: a call, a subscript or a key-path step. */
  const SuffixOpeners: seq<string> := ["(", "[", "."]

  /** The functions of the table behind `[FIRST]`, `[LAST]` and `[SIZE]`. */
  const IndexKeywords: seq<string> := ["FIRST", "LAST", "SIZE"]
  const IndexFunctions: seq<string> := ["_first", "_last", "count"]

  /**
   * A binary operator node: the built-in table called with `selector` on two operands.
   * The operator levels build their nodes as this directly: `expressionForFunction`
   * gives exactly this node for their selectors (ArithIsBuiltin).
   */
  function Arith(selector: string, left: Expression, right: Expression): Expression {
    Function(Constant(Builtins.BuiltinTable), VStr(selector), [left, right])
  }

  /**
   * An operator chain `e0 op1 e1 op2 e2 ...` as a precedence level reads it: its first
   * operand, extended by one operator (with its text position `at`) and one operand at
   * a time.
   */
  datatype Chain =
    | Single(first: Expression)
    | Extend(init: Chain, at: nat, selector: string, operand: Expression)

  /** The expression a chain builds: its operators applied from the left. */
  function Fold(c: Chain): Expression {
    match c
    case Single(e) => e
    case Extend(init, _, selector, operand) => Arith(selector, Fold(init), operand)
  }

  /** The precedence levels of the binary operators, from the tightest. */
  datatype Level = PowerLevel | MultiplicativeLevel | AdditiveLevel

  /** The next tighter level. */
  function Tighter(level: Level): Level
    requires level != PowerLevel
  {
    if level == AdditiveLevel then MultiplicativeLevel else PowerLevel
  }

  /** The operator symbols a level scans for, in the order it tries them. */
  function Symbols(level: Level): seq<string> {
    match level
    case PowerLevel => ["**"]
    case MultiplicativeLevel => ["*", "/"]
    case AdditiveLevel => ["+", "-"]
  }

  /** The selector of the node each symbol builds. */
  function Selectors(level: Level): (r: seq<string>)
    ensures |r| == |Symbols(level)|
  {
    match level
    case PowerLevel => ["raise:toPower:"]
    case MultiplicativeLevel => ["multiply:by:", "divide:by:"]
    case AdditiveLevel => ["add:to:", "from:subtract:"]
  }

  /** The index of the first of `strs` that occurs in `text` at `i`, or |strs|. */
  function FirstOccurrence(text: string, i: nat, strs: seq<string>): (k: nat)
    ensures k <= |strs|
    ensures k < |strs| ==> Strings.OccursAt(text, strs[k], i)
    ensures forall j :: 0 <= j < k ==> !Strings.OccursAt(text, strs[j], i)
  {
    if strs == [] then 0
    else if Strings.OccursAt(text, strs[0], i) then 0
    else 1 + FirstOccurrence(text, i, strs[1..])
  }

  /** The selector of the operator of `level` that starts at `i`, if one does. */
  function OperatorAt(level: Level, text: string, i: nat): Option<string> {
    if i >= |text| then None
    else match level
      case PowerLevel => if text[i] == '*' && i + 1 < |text| && text[i + 1] == '*' then Some("raise:toPower:") else None
      case MultiplicativeLevel =>
        if text[i] == '*' then Some("multiply:by:") else if text[i] == '/' then Some("divide:by:") else None
      case AdditiveLevel =>
        if text[i] == '+' then Some("add:to:") else if text[i] == '-' then Some("from:subtract:") else None
  }

  /** An assignment `:=` starts at `i`. */
  predicate AssignmentAt(text: string, i: nat) {
    i + 1 < |text| && text[i] == ':' && text[i + 1] == '='
  }

  /** No operator of `level` or of a tighter level starts at `i`: that level's loop ends there. */
  predicate Stops(level: Level, text: string, i: nat)
    decreases level != PowerLevel, level == AdditiveLevel
  {
    OperatorAt(level, text, i).None? && (level != PowerLevel ==> Stops(Tighter(level), text, i))
  }

  /**
   * The operator with selector `selector` of `level` starts at `i`, where the tighter
   * level had stopped (so a `*` read as a product is not the start of `**`).
   */
  predicate OperatorRead(level: Level, text: string, i: nat, selector: string) {
    OperatorAt(level, text, i) == Some(selector) && (level != PowerLevel ==> Stops(Tighter(level), text, i))
  }

  /** How far a level is from the tightest one; the readings below descend by it. */
  function Rank(level: Level): nat {
    match level
    case PowerLevel => 1
    case MultiplicativeLevel => 2
    case AdditiveLevel => 3
  }

  /** The length of the operator symbols of a level. */
  function Width(level: Level): nat {
    if level == PowerLevel then 2 else 1
  }

  /** The constants NULL, NIL, TRUE, YES, FALSE and NO stand for, in the order of `SimplePrefixes`. */
  const NamedConstants: seq<Value> := [VNone, VNone, VBool(true), VBool(true), VBool(false), VBool(false)]

  // The readings: what the grammar reads from the string `text` with the skipped
  // characters `skip`, from `from` up to `till`, down to the simple expressions. The
  // leaves are read as a scanner that is not case sensitive reads them; with `cs` set,
  // an operand of the power level is only said to occupy its span.

  /**
   * `e` is what the expression grammar reads from `from` to `till`: an additive chain
   * ending at `mid` before any further operator, then, up to `till`, the assignments
   * the binary level drops.
   */
  ghost predicate ExpressionRead(text: string, skip: set<string>, cs: bool, e: Expression, from: nat, till: nat)
    decreases till - from, 4, 0
  {
    from < till <= |text| &&
    exists mid: nat :: from < mid <= till && LevelAt(AdditiveLevel, text, skip, cs, e, from, mid) &&
      Stops(AdditiveLevel, text, mid) && (mid < till <==> AssignmentAt(text, mid))
  }

  /** `e` is the fold of a chain of `level` read from `from` to `till`. */
  ghost predicate LevelAt(level: Level, text: string, skip: set<string>, cs: bool, e: Expression, from: nat, till: nat)
    decreases till - from, Rank(level), 2
  {
    from < till <= |text| &&
    exists c: Chain :: e == Fold(c) && ChainAt(level, text, skip, cs, c, from, till)
  }

  /**
   * `c` is the chain of `level` read from `from` to `till`, where nothing is skipped:
   * its last operator is an operator of `level` at `q`, the chain before it is read up
   * to `q` and its last operand is read from past the operator up to `till`.
   */
  ghost predicate ChainAt(level: Level, text: string, skip: set<string>, cs: bool, c: Chain, from: nat, till: nat)
    decreases till - from, Rank(level), 1
  {
    from < till <= |text| && SkipEndIn(text, skip, till) == till &&
    match c
    case Single(e) => OperandAt(level, text, skip, cs, e, from, till)
    case Extend(init, q, selector, operand) =>
      from < q && q + Width(level) < till && OperatorRead(level, text, q, selector) &&
      ChainAt(level, text, skip, cs, init, from, q) &&
      OperandAt(level, text, skip, cs, operand, q + Width(level), till)
  }

  /** An operand of `level` read from `from` to `till`: a chain of the tighter level, or a functional expression. */
  ghost predicate OperandAt(level: Level, text: string, skip: set<string>, cs: bool, e: Expression, from: nat, till: nat)
    decreases till - from, Rank(level), 0
  {
    from < till <= |text| &&
    if level == PowerLevel then cs || FunctionalAt(text, skip, e, from, till)
    else LevelAt(Tighter(level), text, skip, cs, e, from, till)
  }

  /** `e` is the functional expression read from `from` to `till`: a simple expression `head`, then its suffixes. */
  ghost predicate FunctionalAt(text: string, skip: set<string>, e: Expression, from: nat, till: nat)
    decreases till - from, 0, 3
  {
    from < till <= |text| &&
    exists head: Expression, mid: nat :: from < mid <= till && SimpleAt(text, skip, head, from, mid) &&
      SuffixesAt(text, skip, head, None, e, mid, till)
  }

  /** A key path `left` is followed, past the skipped characters from `from`, by `:`. */
  predicate ColonAfter(text: string, skip: set<string>, left: Expression, from: nat)
    requires from <= |text|
  {
    var q := SkipEndIn(text, skip, from);
    HasKeyPath(left) && q < |text| && text[q] == ':'
  }

  /** The operand of a turn of the functional loop: `left`, with a colon that follows it appended. */
  function ColonApplied(text: string, skip: set<string>, left: Expression, from: nat): Expression
    requires from <= |text|
  {
    if ColonAfter(text, skip, left, from) then KeyPath(left.path + ":") else left
  }

  /** Where the colon step of a turn leaves the cursor: the skipped characters are passed only after a key path. */
  function ColonEnd(text: string, skip: set<string>, left: Expression, from: nat): (p: nat)
    requires from <= |text|
    ensures from <= p <= |text|
  {
    var q := SkipEndIn(text, skip, from);
    if ColonAfter(text, skip, left, from) then q + 1 else if HasKeyPath(left) then q else from
  }

  /**
   * The turns of the functional loop from the operand `left` and the argument list
   * `args` at `from`, up to `till`, where no suffix follows; `e` is the operand of the
   * last turn, its colon included.
   */
  ghost predicate SuffixesAt(text: string, skip: set<string>, left: Expression, args: Option<seq<Expression>>, e: Expression,
                             from: nat, till: nat)
    decreases till - from, 0, 2
  {
    from <= till <= |text| &&
    var current := ColonApplied(text, skip, left, from);
    var o := SkipEndIn(text, skip, ColonEnd(text, skip, left, from));
    if SuffixAt(text, o) == NoSuffix then e == current && till == o
    else exists next: Expression, args': Option<seq<Expression>>, to: nat ::
      o < to <= till && TurnAt(text, skip, current, args, o, next, args', to) &&
      SuffixesAt(text, skip, next, args', e, to, till)
  }

  /**
   * The suffix at `o` applied to `current`, read up to `to`: it makes `next` and leaves
   * the argument list `args'`.
   */
  ghost predicate TurnAt(text: string, skip: set<string>, current: Expression, args: Option<seq<Expression>>, o: nat,
                         next: Expression, args': Option<seq<Expression>>, to: nat)
    decreases to - o, 0, 1
  {
    o < to <= |text| &&
    match SuffixAt(text, o)
    case CallSuffix =>
      HasKeyPath(current) && CallArgsAt(text, skip, args, args', o + 1, to) &&
      args'.Some? && CallNode(current.path, args'.value, next)
    case IndexSuffix => args' == args && IndexAt(text, skip, current, next, o + 1, to)
    case KeyPathSuffix =>
      HasKeyPath(current) && args' == args &&
      exists right: Expression :: ExpressionRead(text, skip, false, right, o + 1, to) && HasKeyPath(right) &&
        next == KeyPath(current.path + "." + right.path)
    case NoSuffix => false
  }

  /**
   * The node a call `name(params)` builds, as `expressionForFunction` builds it, except
   * that the selector of a `FUNCTION` call (its second parameter evaluated against None)
   * is left open here; `CallNodeBuilt` ties it down.
   */
  ghost predicate CallNode(name: string, params: seq<Expression>, next: Expression) {
    if name == "FUNCTION" then
      |params| >= 2 && next.Function? && next.operand == params[0] && next.args == params[2..]
    else
      name in Builtins.BuiltinNames && next == Function(Constant(Builtins.BuiltinTable), VStr(name), params)
  }

  /**
   * The arguments of a call, read from past its `(` at `p` up to past its `)` at `to`:
   * an immediate `)` keeps the list `args` of an earlier call.
   */
  ghost predicate CallArgsAt(text: string, skip: set<string>, args: Option<seq<Expression>>, args': Option<seq<Expression>>,
                             p: nat, to: nat)
    decreases to - p, 0, 0
  {
    p <= to <= |text| &&
    var s := SkipEndIn(text, skip, p);
    if s < |text| && text[s] == ')' then args' == args && to == s + 1
    else args'.Some? && ListAt(text, skip, false, args'.value, s, to, ')')
  }

  /**
   * A subscript read from past its `[` at `p` up to past its `]` at `to`: no index
   * keyword, then the expression `ie`, making the `_index` node of `current` and `ie`.
   */
  ghost predicate IndexAt(text: string, skip: set<string>, current: Expression, next: Expression, p: nat, to: nat)
    decreases to - p, 0, 0
  {
    p < to <= |text| &&
    var kq := SkipEndIn(text, skip, p);
    FirstKeywordIn(text, skip, kq, IndexKeywords) == |IndexKeywords| && text[to - 1] == ']' &&
    exists start: nat, ie: Expression ::
      p <= start <= kq && SkipEndIn(text, skip, start) == kq && start < to - 1 &&
      ExpressionRead(text, skip, false, ie, start, to - 1) &&
      next == Function(Constant(Builtins.BuiltinTable), VStr("_index"), [current, ie])
  }

  /**
   * `e` is the simple expression read from `from` to `till`: past the skipped
   * characters a number, else what the first of `SimplePrefixes` found there introduces,
   * else, after the `%` step, a quoted string or a key path.
   */
  ghost predicate SimpleAt(text: string, skip: set<string>, e: Expression, from: nat, till: nat)
    decreases till - from, 0, 1
  {
    from < till <= |text| &&
    var q := SkipEndIn(text, skip, from);
    var n := GrowLengthIn(text, q, Numbers.PyFloat, 0);
    if n > 0 then till == q + n && e.Constant? && e.value.VFloat? && Numbers.PyFloat(text[q..till]) == Some(e.value.r)
    else
      var k := FirstCaselessAt(text, q, SimplePrefixes);
      if k < |SimplePrefixes| then PrefixedAt(text, skip, k, e, PrefixEnd(q, k), till)
      else
        var u := SkipEndIn(text, skip, PercentEnd(text, skip, q));
        UnprefixedAt(text, skip, u) == Some(e) && till == UnprefixedEnd(text, skip, u)
  }

  /** Where the prefix `SimplePrefixes[k]` read at `q` ends. */
  function PrefixEnd(q: nat, k: nat): nat
    requires k < |SimplePrefixes|
  {
    q + |SimplePrefixes[k]|
  }

  /**
   * What the prefix `SimplePrefixes[k]`, ending at `p`, introduces, read up to `till`:
   * nothing for a negation, which always raises.
   */
  ghost predicate PrefixedAt(text: string, skip: set<string>, k: nat, e: Expression, p: nat, till: nat)
    requires k < |SimplePrefixes|
    decreases till - p, 0, 0
  {
    p <= till <= |text| &&
    if k == 0 then false
    else if k == 1 then p < till - 1 && text[till - 1] == ')' && ExpressionRead(text, skip, false, e, p, till - 1)
    else if k == 2 then
      var s := SkipEndIn(text, skip, p);
      if s < |text| && text[s] == '}' then e == Aggregate([]) && till == s + 1
      else e.Aggregate? && ListAt(text, skip, false, e.items, s, till, '}')
    else if k <= 8 then e == Constant(NamedConstants[k - 3]) && till == p
    else if k == 9 then e == Self && till == p
    else IdentifierAt(text, skip, p).Some? && e == Variable(IdentifierAt(text, skip, p).value) && till == IdentifierEnd(text, skip, p)
  }

  /** A list read from `from` up to past the `close` at `to - 1` that ends it. */
  ghost predicate ListAt(text: string, skip: set<string>, cs: bool, items: seq<Expression>, from: nat, to: nat, close: char)
    decreases to - from - 1, 4, 2
  {
    from < to <= |text| && text[to - 1] == close &&
    exists ends: seq<nat> :: |ends| >= 1 && ends[|ends| - 1] == to - 1 && ItemsRead(text, skip, cs, items, ends, from)
  }

  /**
   * `items` were read from `from` on, with item i ending at `ends[i]`, each item after
   * the first starting past the comma that ended the one before it.
   */
  ghost predicate ItemsRead(text: string, skip: set<string>, cs: bool, items: seq<Expression>, ends: seq<nat>, from: nat)
    decreases if |ends| >= 1 && from <= ends[|ends| - 1] then ends[|ends| - 1] - from else 0, 4, 1
  {
    |ends| == |items| >= 1 && from <= ends[|ends| - 1] <= |text| &&
    (forall i :: 0 <= i < |ends| ==> from <= ItemStart(ends, from, i) && ends[i] <= ends[|ends| - 1]) &&
    (forall i {:trigger items[i]} :: 0 <= i < |items| ==> ExpressionRead(text, skip, cs, items[i], ItemStart(ends, from, i), ends[i])) &&
    (forall i :: 0 <= i < |ends| - 1 ==> ends[i] < |text| && text[ends[i]] == ',')
  }

  /** Where item i of a list read from `from` starts: past the comma that ended item i - 1. */
  function ItemStart(ends: seq<nat>, from: nat, i: nat): (start: nat)
    requires i < |ends|
    ensures i > 0 ==> start == ends[i - 1] + 1
  {
    if i == 0 then from else ends[i - 1] + 1
  }

  /**
   * The identifier `parseIdentifierExpression` reads from `from`: past the skipped
   * characters an optional `#`, then, past the skipped characters again, the run of
   * identifier characters; None when that run is empty.
   */
  function IdentifierAt(text: string, skip: set<string>, from: nat): Option<string>
    requires from <= |text|
  {
    RunKeptIn(text, skip, SkipEndIn(text, skip, HashEnd(text, SkipEndIn(text, skip, from))), IsIdentifierCharacter)
  }

  /** Where that identifier ends: past the run of identifier characters. */
  function IdentifierEnd(text: string, skip: set<string>, from: nat): (p: nat)
    requires from <= |text|
    ensures from <= p <= |text|
  {
    RunEndIn(text, SkipEndIn(text, skip, HashEnd(text, SkipEndIn(text, skip, from))), IsIdentifierCharacter, false)
  }

  /**
   * The simple expression without a prefix that the text holds from `q` on: a quoted
   * string, up to the next occurrence of its quote and not empty; otherwise an `@` key
   * path or an identifier.
   */
  function UnprefixedAt(text: string, skip: set<string>, q: nat): Option<Expression>
    requires q <= |text|
  {
    if QuoteAt(text, q) then
      var e := CharFrom(text, q + 1, text[q]);
      if e == q + 1 then None else Some(Constant(VStr(text[q + 1..e])))
    else PathAt(text, skip, q)
  }

  /** Where that expression ends: past the closing quote, when there is one, or past the identifier. */
  function UnprefixedEnd(text: string, skip: set<string>, q: nat): (p: nat)
    requires q <= |text|
    ensures p <= |text|
  {
    if QuoteAt(text, q) then CharScanEnd(text, skip, CharFrom(text, q + 1, text[q]), text[q])
    else PathEnd(text, skip, q)
  }

  /** An `@` and the identifier after it as a key path, or an identifier, from `q` on. */
  function PathAt(text: string, skip: set<string>, q: nat): Option<Expression>
    requires q <= |text|
  {
    var at := q < |text| && text[q] == '@';
    match IdentifierAt(text, skip, if at then q + 1 else q)
    case Some(id) => Some(KeyPath(if at then "@" + id else id))
    case None => None
  }

  /** Where that key path ends. */
  function PathEnd(text: string, skip: set<string>, q: nat): (p: nat)
    requires q <= |text|
    ensures q <= p <= |text|
  {
    IdentifierEnd(text, skip, if q < |text| && text[q] == '@' then q + 1 else q)
  }

  /** A quote character of the grammar is at `i`. */
  predicate QuoteAt(text: string, i: nat) {
    i < |text| && (text[i] == '"' || text[i] == '\'')
  }

  /** A reading that pins its leaves also holds as one that only spans them. */
  lemma {:induction false} ExpressionReadLoosened(text: string, skip: set<string>, cs: bool, cs': bool, e: Expression, from: nat, till: nat)
    requires ExpressionRead(text, skip, cs, e, from, till) && (cs ==> cs')
    ensures ExpressionRead(text, skip, cs', e, from, till)
  {
    var mid: nat :| from < mid <= till && LevelAt(AdditiveLevel, text, skip, cs, e, from, mid) &&
      Stops(AdditiveLevel, text, mid) && (mid < till <==> AssignmentAt(text, mid));
    LevelAtLoosened(AdditiveLevel, text, skip, cs, cs', e, from, mid);
  }

  lemma {:induction false} LevelAtLoosened(level: Level, text: string, skip: set<string>, cs: bool, cs': bool, e: Expression, from: nat, till: nat)
    requires LevelAt(level, text, skip, cs, e, from, till) && (cs ==> cs')
    ensures LevelAt(level, text, skip, cs', e, from, till)
    decreases Rank(level), 2, 0
  {
    var c: Chain :| e == Fold(c) && ChainAt(level, text, skip, cs, c, from, till);
    ChainAtLoosened(level, text, skip, cs, cs', c, from, till);
  }

  lemma {:induction false} ChainAtLoosened(level: Level, text: string, skip: set<string>, cs: bool, cs': bool, c: Chain, from: nat, till: nat)
    requires ChainAt(level, text, skip, cs, c, from, till) && (cs ==> cs')
    ensures ChainAt(level, text, skip, cs', c, from, till)
    decreases Rank(level), 1, c
  {
    match c
    case Single(e) =>
      OperandAtLoosened(level, text, skip, cs, cs', e, from, till);
    case Extend(init, q, _, operand) =>
      ChainAtLoosened(level, text, skip, cs, cs', init, from, q);
      OperandAtLoosened(level, text, skip, cs, cs', operand, q + Width(level), till);
  }

  lemma {:induction false} OperandAtLoosened(level: Level, text: string, skip: set<string>, cs: bool, cs': bool, e: Expression, from: nat, till: nat)
    requires OperandAt(level, text, skip, cs, e, from, till) && (cs ==> cs')
    ensures OperandAt(level, text, skip, cs', e, from, till)
    decreases Rank(level), 0, 0
  {
    if level != PowerLevel {
      LevelAtLoosened(Tighter(level), text, skip, cs, cs', e, from, till);
    }
  }

  /**
   * One turn of an operator loop as a chain of `level` sees it: the operator at `q`
   * and the `operand` read after it extend the chain read up to `q`.
   */
  lemma ChainStep(level: Level, text: string, skip: set<string>, cs: bool, c: Chain, from: nat, q: nat, o: nat, till: nat,
                  selector: string, operand: Expression)
    returns (c': Chain)
    requires ChainAt(level, text, skip, cs, c, from, q)
    requires o == q + Width(level) && o < till <= |text| && SkipEndIn(text, skip, till) == till
    requires OperatorRead(level, text, q, selector)
    requires OperandAt(level, text, skip, cs, operand, o, till)
    ensures Fold(c') == Arith(selector, Fold(c), operand)
    ensures ChainAt(level, text, skip, cs, c', from, till)
  {
    c' := Extend(c, q, selector, operand);
  }

  /**
   * The same turn at a level above the power level, whose operand is the chain `p` of
   * the tighter level read by a scanner that ignored case at least as often.
   */
  lemma TighterStep(level: Level, text: string, skip: set<string>, cs: bool, now: bool, c: Chain, from: nat, q: nat, o: nat,
                    till: nat, selector: string, p: Chain)
    returns (c': Chain)
    requires level != PowerLevel && (now ==> cs)
    requires ChainAt(level, text, skip, cs, c, from, q)
    requires o == q + Width(level) && OperatorRead(level, text, q, selector)
    requires ChainAt(Tighter(level), text, skip, now, p, o, till)
    ensures Fold(c') == Arith(selector, Fold(c), Fold(p))
    ensures ChainAt(level, text, skip, cs, c', from, till)
  {
    ChainAtLoosened(Tighter(level), text, skip, now, cs, p, o, till);
    c' := ChainStep(level, text, skip, cs, c, from, q, o, till, selector, Fold(p));
  }

  /** The turns read after one more turn, from the operand before it. */
  lemma SuffixesPrepend(text: string, skip: set<string>, left: Expression, args: Option<seq<Expression>>, from: nat,
                        next: Expression, args': Option<seq<Expression>>, to: nat, e: Expression, till: nat)
    requires from <= |text|
    requires var o := SkipEndIn(text, skip, ColonEnd(text, skip, left, from));
             SuffixAt(text, o) != NoSuffix && TurnAt(text, skip, ColonApplied(text, skip, left, from), args, o, next, args', to)
    requires SuffixesAt(text, skip, next, args', e, to, till)
    ensures SuffixesAt(text, skip, left, args, e, from, till)
  {
  }


  /** For operator symbols, a scanner's first match is the first occurrence in the text. */
  lemma {:induction false} FirstMatchOfSymbols(sc: Scanner, q: nat, strs: seq<string>)
    requires forall j :: 0 <= j < |strs| ==> strs[j] != "" && forall i :: 0 <= i < |strs[j]| ==> !IsAsciiLetter(strs[j][i])
    ensures sc.FirstMatchAt(q, strs) == FirstOccurrence(sc.text, q, strs)
    decreases |strs|
  {
    if strs != [] {
      sc.MatchOfSymbols(q, strs[0]);
      FirstMatchOfSymbols(sc, q, strs[1..]);
    }
  }

  /** What a level's scan for its operators at `q` finds, in the terms of the text. */
  lemma OperatorScanned(sc: Scanner, level: Level, q: nat, k: nat)
    requires k == sc.FirstMatchAt(q, Symbols(level))
    ensures k < |Symbols(level)| ==> OperatorAt(level, sc.text, q) == Some(Selectors(level)[k])
    ensures k == |Symbols(level)| ==> OperatorAt(level, sc.text, q).None?
    ensures k < |Symbols(level)| ==> |Symbols(level)[k]| == if level == PowerLevel then 2 else 1
  {
    FirstMatchOfSymbols(sc, q, Symbols(level));
    var text := sc.text;
    match level
    case PowerLevel =>
      OccursTwo(text, "**", q);
    case MultiplicativeLevel =>
      OccursOne(text, "*", q);
      OccursOne(text, "/", q);
    case AdditiveLevel =>
      OccursOne(text, "+", q);
      OccursOne(text, "-", q);
  }

  /** A one-character string occurs at `q` just when that character is there. */
  lemma OccursOne(text: string, s: string, q: nat)
    requires |s| == 1
    ensures Strings.OccursAt(text, s, q) <==> q < |text| && text[q] == s[0]
  {
    if q < |text| {
      assert text[q..q + 1] == [text[q]];
    }
  }

  /** A two-character string occurs at `q` just when both characters are there. */
  lemma OccursTwo(text: string, s: string, q: nat)
    requires |s| == 2
    ensures Strings.OccursAt(text, s, q) <==> q + 1 < |text| && text[q] == s[0] && text[q + 1] == s[1]
  {
    if q + 1 < |text| {
      assert text[q..q + 2] == [text[q], text[q + 1]];
    }
  }

  /** `scanString(":=")` finds an assignment at `q`, whatever the case sensitivity. */
  lemma AssignmentScanned(sc: Scanner, q: nat)
    ensures q < |sc.text| && sc.MatchAt(q, ":=") <==> AssignmentAt(sc.text, q)
  {
    sc.MatchOfSymbols(q, ":=");
    if q + 2 <= |sc.text| {
      assert sc.text[q..q + 2] == [sc.text[q], sc.text[q + 1]];
    }
  }


  /** Where an expression ends: no arithmetic operator and no `:=` follows. */
  predicate ExpressionEnd(text: string, i: nat) {
    Stops(AdditiveLevel, text, i) && !AssignmentAt(text, i)
  }

  /** A call node `expressionForFunction` builds is the one `CallNode` describes. */
  lemma CallNodeBuilt(name: string, params: seq<Expression>, next: Expression)
    requires ExpressionForFunction(name, params) == Ok(next)
    ensures CallNode(name, params, next)
    ensures name == "FUNCTION" ==> next.selector == Eval(params[1], VNone).value
  {
  }

  /** The operator names of the grammar are entries of the table, so building their nodes cannot fail. */
  lemma ArithIsBuiltin(selector: string, left: Expression, right: Expression)
    requires selector in {"add:to:", "from:subtract:", "multiply:by:", "divide:by:", "raise:toPower:"}
    ensures ExpressionForFunction(selector, [left, right]) == Ok(Arith(selector, left, right))
  {
  }

  /** An index node is built from the `_index` entry of the table. */
  lemma IndexIsBuiltin(left: Expression, e: Expression)
    ensures ExpressionForFunction("_index", [left, e]) == Ok(Function(Constant(Builtins.BuiltinTable), VStr("_index"), [left, e]))
  {
  }

  /** The chain of `8 - 2 - 1`, with its operators at positions 2 and 6. */
  const SubtractionChain: Chain :=
    Extend(Extend(Single(Constant(VFloat(8.0))), 2, "from:subtract:", Constant(VFloat(2.0))), 6, "from:subtract:", Constant(VFloat(1.0)))

  /** `a - b - c` is `(a - b) - c`: with constants 8, 2 and 1 it evaluates to 5, not 7. */
  lemma SubtractionGroupsLeft(obj: Value)
    ensures Eval(Fold(SubtractionChain), obj) == Ok(VFloat(5.0))
  {
    var inner := Arith("from:subtract:", Constant(VFloat(8.0)), Constant(VFloat(2.0)));
    SubtractionChainShape();
    SubtractFloat(Constant(VFloat(8.0)), 8.0, 2.0, obj);
    SubtractFloat(inner, 6.0, 1.0, obj);
  }

  /** The chain `8 - 2 - 1` folds to the subtraction of 1 from the subtraction of 2 from 8. */
  lemma SubtractionChainShape()
    ensures Fold(SubtractionChain) ==
            Arith("from:subtract:", Arith("from:subtract:", Constant(VFloat(8.0)), Constant(VFloat(2.0))), Constant(VFloat(1.0)))
  {
  }

  /** A subtraction node whose left side evaluates to a float and whose right side is a float constant. */
  lemma SubtractFloat(left: Expression, x: real, y: real, obj: Value)
    requires Eval(left, obj) == Ok(VFloat(x))
    ensures Eval(Arith("from:subtract:", left, Constant(VFloat(y))), obj) == Ok(VFloat(x - y))
  {
    EvalFloatPair(left, x, y, obj);
    SubtractFloats(x, y);
    BuiltinCall("from:subtract:", [left, Constant(VFloat(y))], obj);
  }

  /** Evaluating a float-valued operand and a float constant gives the two floats. */
  lemma EvalFloatPair(left: Expression, x: real, y: real, obj: Value)
    requires Eval(left, obj) == Ok(VFloat(x))
    ensures EvalAll([left, Constant(VFloat(y))], obj) == Ok([VFloat(x), VFloat(y)])
  {
    EvalAllIsPointwise([left, Constant(VFloat(y))], obj);
    assert EvalAll([left, Constant(VFloat(y))], obj).value == [VFloat(x), VFloat(y)];
  }

  /** The subtraction built-in on two floats is their difference. */
  lemma SubtractFloats(x: real, y: real)
    ensures Builtins.Apply("from:subtract:", [VFloat(x), VFloat(y)]) == Ok(VFloat(x - y))
  {
  }

  /**
   * `parseExpression`: what the binary level reads, which ends where no operator of
   * any level follows.
   */
  method ParseExpression(sc: Scanner) returns (r: Result<Expression, Error>)
    requires sc.Valid() && sc.kind != PlainScanner
    modifies sc
    ensures sc.Valid() && sc.Advanced()
    ensures r.Ok? ==> old(sc.pos) < sc.pos && ExpressionRead(sc.text, sc.skip, old(sc.caseSensitive), r.value, old(sc.pos), sc.pos)
    ensures r.Ok? ==> sc.SkipEnd(sc.pos) == sc.pos && ExpressionEnd(sc.text, sc.pos)
    decreases |sc.text| - sc.pos, 13
  {
    ghost var c, mid;
    r, c, mid := ParseBinary(sc);
  }

  /** Past the `#` at `q`, or `q` itself when there is none. */
  function HashEnd(text: string, q: nat): (p: nat)
    requires q <= |text|
    ensures q <= p <= |text|
  {
    if q < |text| && text[q] == '#' then q + 1 else q
  }

  /** The optional `#` before an identifier, read past the skipped characters. */
  method PassHash(sc: Scanner)
    requires sc.Valid()
    modifies sc
    ensures sc.Valid() && sc.Advanced() && sc.caseSensitive == old(sc.caseSensitive)
    ensures sc.pos == HashEnd(sc.text, old(sc.SkipEnd(sc.pos)))
  {
    CharScanned(sc, sc.SkipEnd(sc.pos), '#');
    var hash := sc.ScanString("#");
  }

  /** `scanString` of a one-character symbol finds that character, whatever the case sensitivity. */
  lemma CharScanned(sc: Scanner, q: nat, c: char)
    requires !IsAsciiLetter(c)
    ensures q < |sc.text| && sc.MatchAt(q, [c]) <==> q < |sc.text| && sc.text[q] == c
  {
    sc.MatchOfSymbols(q, [c]);
    if q < |sc.text| {
      assert sc.text[q..q + 1] == [sc.text[q]];
    }
  }

  /**
   * `parseIdentifierExpression`: an optional `#`, then a run of identifier characters
   * as a key path; ValueError when the run is empty.
   */
  method ParseIdentifier(sc: Scanner) returns (r: Result<Expression, Error>)
    requires sc.Valid()
    modifies sc
    ensures sc.Valid() && sc.Advanced() && sc.caseSensitive == old(sc.caseSensitive)
    ensures r.Ok? <==> IdentifierAt(sc.text, sc.skip, old(sc.pos)).Some?
    ensures r.Ok? ==> r.value == KeyPath(IdentifierAt(sc.text, sc.skip, old(sc.pos)).value)
    ensures r.Ok? ==> sc.pos == IdentifierEnd(sc.text, sc.skip, old(sc.pos))
    ensures r.Ok? ==> old(sc.pos) < sc.pos && HasKeyPath(r.value)
    ensures r.Ok? ==> forall i :: 0 <= i < |r.value.path| ==> IsIdentifierCharacter(r.value.path[i])
    ensures r.Err? ==> r.error.ValueError?
  {
    ghost var from := sc.pos;
    PassHash(sc);
    ghost var id := IdentifierAt(sc.text, sc.skip, from);
    var ident := sc.ScanCharactersFromSet(IsIdentifierCharacter);
    assert sc.caseSensitive == old(sc.caseSensitive) && sc.skip == old(sc.skip) && from <= sc.pos;
    assert ident == id;
    if ident.None? {
      return Err(ValueError("Missing identifier: " + sc.text[sc.pos..]));
    }
    IdentifierCharacters(sc, from);
    return Ok(KeyPath(ident.value));
  }

  /** An identifier is made of identifier characters only. */
  lemma IdentifierCharacters(sc: Scanner, from: nat)
    requires from <= |sc.text|
    ensures var id := IdentifierAt(sc.text, sc.skip, from);
            id.Some? ==> forall i :: 0 <= i < |id.value| ==> IsIdentifierCharacter(id.value[i])
  {
    var id := IdentifierAt(sc.text, sc.skip, from);
    if id.Some? {
      sc.KeptFromRun(sc.SkipEnd(HashEnd(sc.text, sc.SkipEnd(from))), IsIdentifierCharacter);
      assert forall i :: 0 <= i < |id.value| ==> id.value[i] in id.value;
    }
  }

  /**
   * `parseSimpleExpression`: a number, a negation, a parenthesised expression, an
   * aggregate, a named constant, SELF, a variable, a quoted string, an `@` key path or
   * an identifier, tried in that order.
   */
  method ParseSimple(sc: Scanner) returns (r: Result<Expression, Error>)
    requires sc.Valid() && sc.kind != PlainScanner
    modifies sc
    ensures sc.Valid() && sc.Advanced()
    ensures r.Ok? ==> old(sc.pos) < sc.pos
    ensures r.Ok? && !old(sc.caseSensitive) ==> SimpleAt(sc.text, sc.skip, r.value, old(sc.pos), sc.pos)
    decreases |sc.text| - sc.pos, 7
  {
    ghost var start := sc.pos;
    ghost var text, skip := sc.text, sc.skip;
    var number := ParseNumber(sc);
    if number.Some? {
      SimpleNumber(text, skip, number.value, start, sc.pos);
      return Ok(number.value);
    }
    r := ParseAfterNumber(sc, start);
  }

  /** What `parseSimpleExpression` tries where no number starts, from `start` on. */
  method ParseAfterNumber(sc: Scanner, ghost start: nat) returns (r: Result<Expression, Error>)
    requires sc.Valid() && sc.kind != PlainScanner && start <= sc.pos
    requires sc.pos == SkipEndIn(sc.text, sc.skip, start) && GrowLengthIn(sc.text, sc.pos, Numbers.PyFloat, 0) == 0
    modifies sc
    ensures sc.Valid() && sc.Advanced()
    ensures r.Ok? ==> old(sc.pos) < sc.pos
    ensures r.Ok? && !old(sc.caseSensitive) ==> SimpleAt(sc.text, sc.skip, r.value, start, sc.pos)
    decreases |sc.text| - start, 6
  {
    ghost var q := sc.pos;
    ghost var text, skip, cs := sc.text, sc.skip, sc.caseSensitive;
    sc.SkipEndTwice(start);
    if !sc.caseSensitive {
      CaselessScanned(sc, q, SimplePrefixes);
    }
    var k := sc.ScanFirstString(SimplePrefixes);
    ghost var p := sc.pos;
    if k < |SimplePrefixes| {
      SimplePrefixesAreNonEmpty();
      assert p == PrefixEnd(q, k);
      r := ParsePrefixed(sc, k, start);
      if r.Ok? && !cs {
        SimplePrefixed(text, skip, r.value, start, sc.pos, k, p);
      }
    } else {
      r := ParseUnprefixed(sc);
      if r.Ok? && !cs {
        SimpleUnprefixed(text, skip, r.value, start, sc.pos);
      }
    }
  }


  /** A simple expression read as a number. */
  lemma SimpleNumber(text: string, skip: set<string>, e: Expression, from: nat, till: nat)
    requires from < till <= |text|
    requires var q := SkipEndIn(text, skip, from);
             var n := GrowLengthIn(text, q, Numbers.PyFloat, 0);
             n > 0 && till == q + n && e.Constant? && e.value.VFloat? && Numbers.PyFloat(text[q..till]) == Some(e.value.r)
    ensures SimpleAt(text, skip, e, from, till)
  {
  }

  /** A simple expression read after one of the prefixes. */
  lemma SimplePrefixed(text: string, skip: set<string>, e: Expression, from: nat, till: nat, k: nat, p: nat)
    requires from < till <= |text|
    requires var q := SkipEndIn(text, skip, from);
             && GrowLengthIn(text, q, Numbers.PyFloat, 0) == 0
             && k == FirstCaselessAt(text, q, SimplePrefixes) && k < |SimplePrefixes|
             && p == PrefixEnd(q, k) && PrefixedAt(text, skip, k, e, p, till)
    ensures SimpleAt(text, skip, e, from, till)
  {
  }

  /** A simple expression read without a prefix. */
  lemma SimpleUnprefixed(text: string, skip: set<string>, e: Expression, from: nat, till: nat)
    requires from < till <= |text|
    requires var q := SkipEndIn(text, skip, from);
             && GrowLengthIn(text, q, Numbers.PyFloat, 0) == 0
             && FirstCaselessAt(text, q, SimplePrefixes) == |SimplePrefixes|
             && var u := SkipEndIn(text, skip, PercentEnd(text, skip, q));
                UnprefixedAt(text, skip, u) == Some(e) && till == UnprefixedEnd(text, skip, u)
    ensures SimpleAt(text, skip, e, from, till)
  {
  }


  /**
   * The number that starts a simple expression: the prefix `scanFloat` reads, as a
   * constant. When there is none, the cursor is left past the skipped characters.
   */
  method ParseNumber(sc: Scanner) returns (e: Option<Expression>)
    requires sc.Valid()
    modifies sc
    ensures sc.Valid() && sc.Advanced() && sc.caseSensitive == old(sc.caseSensitive)
    ensures e.Some? ==> old(sc.pos) < sc.pos && e.value.Constant? && e.value.value.VFloat?
    ensures e.None? ==> sc.pos == sc.SkipEnd(old(sc.pos))
    ensures var q := SkipEndIn(sc.text, sc.skip, old(sc.pos));
            var n := GrowLengthIn(sc.text, q, Numbers.PyFloat, 0);
            && (e.Some? <==> n > 0)
            && (e.Some? ==> sc.pos == q + n && Numbers.PyFloat(sc.text[q..sc.pos]) == Some(e.value.value.r))
  {
    ghost var q := sc.SkipEnd(sc.pos);
    var dbl := sc.ScanFloat();
    ghost var n := sc.GrowLength(q, Numbers.PyFloat, 0);
    assert n == GrowLengthIn(sc.text, q, Numbers.PyFloat, 0) && sc.pos == q + n;
    if dbl.Some? {
      return Some(Constant(VFloat(dbl.value)));
    }
    return None;
  }

  /** The simple expressions introduced by the prefix `SimplePrefixes[k]`, just consumed. */
  method ParsePrefixed(sc: Scanner, k: nat, ghost start: nat) returns (r: Result<Expression, Error>)
    requires sc.Valid() && sc.kind != PlainScanner
    requires k < |SimplePrefixes| && start < sc.pos
    modifies sc
    ensures sc.Valid() && sc.Advanced()
    ensures 3 <= k <= 8 ==> r == Ok(Constant(NamedConstants[k - 3]))
    ensures k == 9 ==> r == Ok(Self)
    ensures 3 <= k <= 9 ==> sc.pos == old(sc.pos)
    ensures k == 0 ==> r.Err?
    ensures k == 1 && r.Ok? ==> ExpressionRead(sc.text, sc.skip, old(sc.caseSensitive), r.value, old(sc.pos), sc.pos - 1) && sc.text[sc.pos - 1] == ')'
    ensures k == 2 && r.Ok? ==> r.value.Aggregate?
    ensures k == 10 ==> (r.Ok? <==> IdentifierAt(sc.text, sc.skip, old(sc.pos)).Some?)
    ensures k == 10 && r.Ok? ==> r == Ok(Variable(IdentifierAt(sc.text, sc.skip, old(sc.pos)).value))
    ensures r.Ok? && !old(sc.caseSensitive) ==> PrefixedAt(sc.text, sc.skip, k, r.value, old(sc.pos), sc.pos)
    decreases |sc.text| - start, 5
  {
    if k == 0 {
      // negation: the table has no `_chs`, so building the node raises once the operand is read
      var arg :- ParseExpression(sc);
      ParserOnlyNamesAreMissing([arg]);
      var negation := ExpressionForFunction("_chs", [arg]);
      return Err(negation.error);
    } else if k == 1 {
      r := ParseParenthesised(sc, start);
    } else if k == 2 {
      r := ParseAggregate(sc, start);
    } else if k == 3 || k == 4 {
      return Ok(Constant(VNone));
    } else if k == 5 || k == 6 {
      return Ok(Constant(VBool(true)));
    } else if k == 7 || k == 8 {
      return Ok(Constant(VBool(false)));
    } else if k == 9 {
      return Ok(Self);
    } else {
      var v :- ParseIdentifier(sc);
      return Ok(Variable(v.path));
    }
  }

  /** A parenthesised expression after its `(`: the expression, which `)` must follow. */
  method ParseParenthesised(sc: Scanner, ghost start: nat) returns (r: Result<Expression, Error>)
    requires sc.Valid() && sc.kind != PlainScanner && start < sc.pos
    modifies sc
    ensures sc.Valid() && sc.Advanced()
    ensures r.Ok? ==> old(sc.pos) < sc.pos - 1 && ExpressionRead(sc.text, sc.skip, old(sc.caseSensitive), r.value, old(sc.pos), sc.pos - 1) && sc.text[sc.pos - 1] == ')'
    decreases |sc.text| - start, 1
  {
    var arg :- ParseExpression(sc);
    ghost var q := sc.pos;
    CharScanned(sc, q, ')');
    var close := sc.ScanString(")");
    if close.None? {
      return Err(ValueError("Missing ) in expression"));
    }
    return Ok(arg);
  }

  /**
   * An aggregate after its `{`: empty when `}` follows at once, otherwise the items of
   * the list that `}` ends.
   */
  method ParseAggregate(sc: Scanner, ghost start: nat) returns (r: Result<Expression, Error>)
    requires sc.Valid() && sc.kind != PlainScanner && start < sc.pos
    modifies sc
    ensures sc.Valid() && sc.Advanced()
    ensures var q := sc.SkipEnd(old(sc.pos));
            q < |sc.text| && sc.text[q] == '}' ==> r == Ok(Aggregate([])) && sc.pos == q + 1
    ensures r.Ok? ==> r.value.Aggregate?
    ensures var q := sc.SkipEnd(old(sc.pos));
            r.Ok? && !(q < |sc.text| && sc.text[q] == '}') ==>
              r.value.items != [] && ListAt(sc.text, sc.skip, old(sc.caseSensitive), r.value.items, q, sc.pos, '}')
    decreases |sc.text| - start, 4
  {
    ghost var q := sc.SkipEnd(sc.pos);
    CharScanned(sc, q, '}');
    var close := sc.ScanString("}");
    if close.Some? {
      return Ok(Aggregate([]));
    }
    var list := ParseList(sc, '}', "Missing } in aggregate", start);
    if list.Err? {
      return Err(list.error);
    }
    return Ok(Aggregate(list.value));
  }

  /** A list read up to a comma, and an item read after it, make a list one item longer. */
  lemma ItemsExtend(text: string, skip: set<string>, cs: bool, items: seq<Expression>, ends: seq<nat>, from: nat,
                    e: Expression, next: nat, till: nat)
    requires ItemsRead(text, skip, cs, items, ends, from)
    requires ends[|ends| - 1] < |text| && text[ends[|ends| - 1]] == ',' && next == ends[|ends| - 1] + 1
    requires ExpressionRead(text, skip, cs, e, next, till)
    ensures ItemsRead(text, skip, cs, items + [e], ends + [till], from)
  {
    var items', ends' := items + [e], ends + [till];
    forall i | 0 <= i < |ends'|
      ensures from <= ItemStart(ends', from, i) && ends'[i] <= till
    {
      if i < |items| {
        assert ends'[i] == ends[i] && ItemStart(ends', from, i) == ItemStart(ends, from, i);
      }
    }
    forall i {:trigger items'[i]} | 0 <= i < |items'|
      ensures ExpressionRead(text, skip, cs, items'[i], ItemStart(ends', from, i), ends'[i])
    {
      if i < |items| {
        assert items'[i] == items[i] && ends'[i] == ends[i];
        assert ItemStart(ends', from, i) == ItemStart(ends, from, i);
      } else {
        assert items'[i] == e && ends'[i] == till;
        assert ItemStart(ends', from, i) == ends[|ends| - 1] + 1;
      }
    }
    forall i | 0 <= i < |ends'| - 1
      ensures ends'[i] < |text| && text[ends'[i]] == ','
    {
      if i < |ends| - 1 {
        assert ends'[i] == ends[i];
      } else {
        assert ends'[i] == ends[|ends| - 1];
      }
    }
  }

  /** A single expression read from `from` to `till` is a list of one item. */
  lemma ItemsOne(text: string, skip: set<string>, cs: bool, e: Expression, from: nat, till: nat)
    requires ExpressionRead(text, skip, cs, e, from, till)
    ensures ItemsRead(text, skip, cs, [e], [till], from)
  {
    assert [e][0] == e && [till][0] == till;
  }

  /** A list read with a scanner whose case sensitivity was later turned off still reads as a list. */
  lemma ItemsLoosened(text: string, skip: set<string>, cs: bool, cs': bool, items: seq<Expression>, ends: seq<nat>, from: nat)
    requires ItemsRead(text, skip, cs, items, ends, from) && (cs ==> cs')
    ensures ItemsRead(text, skip, cs', items, ends, from)
  {
    forall i {:trigger items[i]} | 0 <= i < |items|
      ensures ExpressionRead(text, skip, cs', items[i], ItemStart(ends, from, i), ends[i])
    {
      ExpressionReadLoosened(text, skip, cs, cs', items[i], ItemStart(ends, from, i), ends[i]);
    }
  }

  /**
   * Expressions separated by commas and ended by `close`, as aggregates and argument
   * lists read them; ValueError with `missing` when `close` does not follow.
   */
  method ParseList(sc: Scanner, close: char, missing: string, ghost start: nat) returns (r: Result<seq<Expression>, Error>)
    requires sc.Valid() && sc.kind != PlainScanner && start < sc.pos && !IsAsciiLetter(close)
    modifies sc
    ensures sc.Valid() && sc.Advanced()
    ensures r.Ok? ==> |r.value| >= 1 && old(sc.pos) < sc.pos
    ensures r.Ok? ==> ListAt(sc.text, sc.skip, old(sc.caseSensitive), r.value, old(sc.pos), sc.pos, close)
    decreases |sc.text| - start, 2
  {
    var items, ends := ParseItems(sc, start);
    if items.Err? {
      return items;
    }
    ghost var q := sc.pos;
    CharScanned(sc, q, close);
    var closing := sc.ScanString([close]);
    if closing.None? {
      return Err(ValueError(missing));
    }
    assert sc.pos == q + 1 && sc.text[q] == close;
    return items;
  }

  /** The comma-separated expressions of a list, up to where no comma follows. */
  method ParseItems(sc: Scanner, ghost start: nat) returns (r: Result<seq<Expression>, Error>, ghost ends: seq<nat>)
    requires sc.Valid() && sc.kind != PlainScanner && start < sc.pos
    modifies sc
    ensures sc.Valid() && sc.Advanced()
    ensures r.Ok? ==> ItemsRead(sc.text, sc.skip, old(sc.caseSensitive), r.value, ends, old(sc.pos))
    ensures r.Ok? ==> sc.pos == ends[|ends| - 1] && sc.SkipEnd(sc.pos) == sc.pos
    ensures r.Ok? ==> var q := sc.pos; !(q < |sc.text| && sc.text[q] == ',')
    decreases |sc.text| - start, 1
  {
    ghost var from, cs := sc.pos, sc.caseSensitive;
    ends := [];
    var first :- ParseExpression(sc);
    ItemsOne(sc.text, sc.skip, cs, first, from, sc.pos);
    var items := [first];
    ends := [sc.pos];
    while true
      invariant sc.Valid() && sc.Advanced() && from < sc.pos
      invariant ItemsRead(sc.text, sc.skip, cs, items, ends, from) && ends[|ends| - 1] == sc.pos && sc.SkipEnd(sc.pos) == sc.pos
      decreases |sc.text| - sc.pos
    {
      ghost var q, now := sc.pos, sc.caseSensitive;
      var next, after := ParseNextItem(sc, start);
      if next.Err? {
        return Err(next.error), ends;
      }
      if next.value.None? {
        break;
      }
      ExpressionReadLoosened(sc.text, sc.skip, now, cs, next.value.value, after, sc.pos);
      ItemsExtend(sc.text, sc.skip, cs, items, ends, from, next.value.value, after, sc.pos);
      items, ends := items + [next.value.value], ends + [sc.pos];
    }
    return Ok(items), ends;
  }

  /** A comma and the expression after it, or nothing when no comma follows. */
  method ParseNextItem(sc: Scanner, ghost start: nat) returns (r: Result<Option<Expression>, Error>, ghost after: nat)
    requires sc.Valid() && sc.kind != PlainScanner && start < sc.pos && sc.SkipEnd(sc.pos) == sc.pos
    modifies sc
    ensures sc.Valid() && sc.Advanced()
    ensures r.Ok? && r.value.None? ==> sc.pos == old(sc.pos) && !(sc.pos < |sc.text| && sc.text[sc.pos] == ',')
    ensures r.Ok? && r.value.Some? ==>
              old(sc.pos) < |sc.text| && sc.text[old(sc.pos)] == ',' && after == old(sc.pos) + 1 &&
              ExpressionRead(sc.text, sc.skip, old(sc.caseSensitive), r.value.value, after, sc.pos) && sc.SkipEnd(sc.pos) == sc.pos
    decreases |sc.text| - start, 0
  {
    ghost var q := sc.pos;
    CharScanned(sc, q, ',');
    var comma := sc.ScanString(",");
    after := sc.pos;
    if comma.None? {
      return Ok(None), after;
    }
    var e :- ParseExpression(sc);
    return Ok(Some(e)), after;
  }

  /**
   * The simple expressions without a prefix from `SimplePrefixes`: a `%` is passed over,
   * then a quoted string, an `@` key path or an identifier, each read from where the
   * `%` step left the cursor.
   */
  method ParseUnprefixed(sc: Scanner) returns (r: Result<Expression, Error>)
    requires sc.Valid() && sc.kind != PlainScanner
    modifies sc
    ensures sc.Valid() && sc.Advanced() && sc.caseSensitive == old(sc.caseSensitive)
    ensures r.Ok? ==> old(sc.pos) < sc.pos
    ensures r.Ok? ==> r.value.Constant? || HasKeyPath(r.value)
    ensures var u := SkipEndIn(sc.text, sc.skip, PercentEnd(sc.text, sc.skip, old(sc.pos)));
            var at := UnprefixedAt(sc.text, sc.skip, u);
            && (r.Ok? <==> at.Some?)
            && (r.Ok? ==> r.value == at.value && sc.pos == UnprefixedEnd(sc.text, sc.skip, u))
  {
    PassPercent(sc);
    r := ParseAfterPercent(sc);
  }

  /** Where an `@` is, the key path is the identifier after it, prefixed with the `@`. */
  lemma PathAfterAt(text: string, skip: set<string>, q: nat)
    requires q < |text| && text[q] == '@'
    ensures var id := IdentifierAt(text, skip, q + 1); PathAt(text, skip, q) == if id.Some? then Some(KeyPath("@" + id.value)) else None
    ensures PathEnd(text, skip, q) == IdentifierEnd(text, skip, q + 1)
  {
  }

  /** Where no `@` is, the key path is the identifier itself. */
  lemma PathWithoutAt(text: string, skip: set<string>, q: nat)
    requires q <= |text| && !(q < |text| && text[q] == '@')
    ensures var id := IdentifierAt(text, skip, q); PathAt(text, skip, q) == if id.Some? then Some(KeyPath(id.value)) else None
    ensures PathEnd(text, skip, q) == IdentifierEnd(text, skip, q)
  {
  }

  /** What scanning for the quotes at `q` finds, in the terms of the text. */
  lemma QuoteScanned(sc: Scanner, q: nat, k: nat)
    requires k == sc.FirstMatchAt(q, Quotes)
    ensures k < |Quotes| <==> QuoteAt(sc.text, q)
    ensures k < |Quotes| ==> Quotes[k] == [sc.text[q]]
  {
    FirstMatchOfSymbols(sc, q, Quotes);
    if q < |sc.text| {
      assert sc.text[q..q + 1] == [sc.text[q]];
    }
  }

  /** The three alternatives after the `%` step, from the cursor on. */
  method ParseAfterPercent(sc: Scanner) returns (r: Result<Expression, Error>)
    requires sc.Valid() && sc.kind != PlainScanner
    modifies sc
    ensures sc.Valid() && sc.Advanced() && sc.caseSensitive == old(sc.caseSensitive)
    ensures r.Ok? ==> old(sc.pos) < sc.pos
    ensures var u := SkipEndIn(sc.text, sc.skip, old(sc.pos));
            var at := UnprefixedAt(sc.text, sc.skip, u);
            && (r.Ok? <==> at.Some?)
            && (r.Ok? ==> r.value == at.value && sc.pos == UnprefixedEnd(sc.text, sc.skip, u))
  {
    ghost var q := sc.SkipEnd(sc.pos);
    sc.SkipEndTwice(sc.pos);
    var qk := sc.ScanFirstString(Quotes);
    QuoteScanned(sc, q, qk);
    if qk < |Quotes| {
      assert QuoteAt(sc.text, q) && sc.pos == q + 1;
      r := ParseQuotedAfter(sc);
    } else {
      assert !QuoteAt(sc.text, q) && sc.pos == q && sc.SkipEnd(q) == q;
      r := ParseKeyPathIdentifier(sc);
    }
    assert sc.skip == old(sc.skip) && sc.SkipEnd(old(sc.pos)) == q;
  }

  /** A quoted string whose opening quote was just read, closed by the same quote. */
  method ParseQuotedAfter(sc: Scanner) returns (r: Result<Expression, Error>)
    requires sc.Valid() && 0 < sc.pos && QuoteAt(sc.text, sc.pos - 1)
    modifies sc
    ensures sc.Valid() && sc.Advanced() && sc.caseSensitive == old(sc.caseSensitive)
    ensures var at := UnprefixedAt(sc.text, sc.skip, old(sc.pos) - 1);
            && (r.Ok? <==> at.Some?)
            && (r.Ok? ==> r.value == at.value && sc.pos == UnprefixedEnd(sc.text, sc.skip, old(sc.pos) - 1))
  {
    var quote := sc.text[sc.pos - 1];
    CharFound(sc, sc.pos, quote);
    r := ParseQuoted(sc, [quote]);
    assert sc.skip == old(sc.skip) && sc.caseSensitive == old(sc.caseSensitive);
  }

  /** An `@` key path or an identifier, from the cursor on. */
  method ParseKeyPathIdentifier(sc: Scanner) returns (r: Result<Expression, Error>)
    requires sc.Valid()
    modifies sc
    ensures sc.Valid() && sc.Advanced() && sc.caseSensitive == old(sc.caseSensitive)
    ensures r.Ok? ==> old(sc.pos) < sc.pos && HasKeyPath(r.value)
    ensures var q := SkipEndIn(sc.text, sc.skip, old(sc.pos));
            var at := PathAt(sc.text, sc.skip, q);
            && (r.Ok? <==> at.Some?)
            && (r.Ok? ==> r.value == at.value && sc.pos == PathEnd(sc.text, sc.skip, q))
  {
    ghost var skip := sc.skip;
    ghost var q := SkipEndIn(sc.text, skip, sc.pos);
    CharScanned(sc, q, '@');
    var at := sc.ScanString("@");
    if at.Some? {
      assert q < |sc.text| && sc.text[q] == '@' && sc.pos == q + 1;
      r := ParseAtIdentifier(sc);
    } else {
      assert !(q < |sc.text| && sc.text[q] == '@') && sc.pos == q;
      r := ParsePlainIdentifier(sc);
    }
    assert sc.skip == skip;
  }

  /** The identifier after an `@` just read, as a key path that keeps the `@`. */
  method ParseAtIdentifier(sc: Scanner) returns (r: Result<Expression, Error>)
    requires sc.Valid() && 0 < sc.pos && sc.text[sc.pos - 1] == '@'
    modifies sc
    ensures sc.Valid() && sc.Advanced() && sc.caseSensitive == old(sc.caseSensitive)
    ensures r.Ok? ==> old(sc.pos) < sc.pos && HasKeyPath(r.value)
    ensures var at := PathAt(sc.text, sc.skip, old(sc.pos) - 1);
            && (r.Ok? <==> at.Some?)
            && (r.Ok? ==> r.value == at.value && sc.pos == PathEnd(sc.text, sc.skip, old(sc.pos) - 1))
  {
    var e := ParseIdentifier(sc);
    assert sc.skip == old(sc.skip);
    PathAfterAt(sc.text, sc.skip, old(sc.pos) - 1);
    if e.Err? {
      return Err(e.error);
    }
    r := Ok(KeyPath("@" + e.value.path));
  }

  /** An identifier where no `@` is, as a key path. */
  method ParsePlainIdentifier(sc: Scanner) returns (r: Result<Expression, Error>)
    requires sc.Valid() && !(sc.pos < |sc.text| && sc.text[sc.pos] == '@')
    modifies sc
    ensures sc.Valid() && sc.Advanced() && sc.caseSensitive == old(sc.caseSensitive)
    ensures r.Ok? ==> old(sc.pos) < sc.pos && HasKeyPath(r.value)
    ensures var at := PathAt(sc.text, sc.skip, old(sc.pos));
            && (r.Ok? <==> at.Some?)
            && (r.Ok? ==> r.value == at.value && sc.pos == PathEnd(sc.text, sc.skip, old(sc.pos)))
  {
    r := ParseIdentifier(sc);
    assert sc.skip == old(sc.skip);
    PathWithoutAt(sc.text, sc.skip, old(sc.pos));
  }

  /**
   * Where the alternatives after the `%` step of `parseSimpleExpression` are scanned
   * from, up to skipped characters: past a `%` that is the character at `from` itself
   * and is not the last of the input, otherwise at `from`.
   */
  function PercentEnd(text: string, skip: set<string>, from: nat): (p: nat)
    requires from <= |text|
    ensures p <= |text|
  {
    var q := SkipEndIn(text, skip, from);
    if q < |text| && text[q] == '%' && SkipEndIn(text, skip, q + 1) < |text| && text[from] == '%' then q + 1
    else from
  }

  /**
   * The `%` step of `parseSimpleExpression`. The character it tests is the one at the
   * `%` itself, so a `%` followed by anything is passed over, and a `%` that ends the
   * input is put back.
   */
  method PassPercent(sc: Scanner)
    requires sc.Valid()
    modifies sc
    ensures sc.Valid() && sc.Advanced() && sc.caseSensitive == old(sc.caseSensitive)
    ensures sc.SkipEnd(sc.pos) == SkipEndIn(sc.text, sc.skip, PercentEnd(sc.text, sc.skip, old(sc.pos)))
  {
    ghost var from := sc.pos;
    ghost var skip := sc.skip;
    ghost var q := SkipEndIn(sc.text, skip, from);
    CharScanned(sc, q, '%');
    var location := sc.pos;
    var percent := sc.ScanString("%");
    if percent.Some? {
      assert sc.skip == skip && sc.pos == q + 1 && sc.text[q] == '%';
      SettlePercent(sc, location);
    } else {
      assert sc.skip == skip && sc.pos == q && PercentEnd(sc.text, skip, from) == from;
      sc.SkipEndTwice(from);
    }
  }

  /**
   * The rest of the `%` step once a `%` was read past the skipped characters from
   * `location`: the cursor stays past it when the character at `location` is that `%`
   * and more than skipped text follows, and goes back to `location` otherwise.
   */
  method SettlePercent(sc: Scanner, location: nat)
    requires sc.Valid() && location <= |sc.text|
    requires var q := SkipEndIn(sc.text, sc.skip, location); q < |sc.text| && sc.text[q] == '%' && sc.pos == q + 1
    modifies sc
    ensures sc.Valid() && sc.LinesKept() && sc.skip == old(sc.skip) && sc.caseSensitive == old(sc.caseSensitive)
    ensures sc.pos == PercentEnd(sc.text, sc.skip, location)
  {
    ghost var skip := sc.skip;
    ghost var mid := sc.pos;
    var atEnd := sc.AtEnd();
    assert sc.skip == skip && sc.pos == mid && (atEnd <==> SkipEndIn(sc.text, skip, mid) >= |sc.text|);
    var next := location;
    if !atEnd && sc.text[location] == '%' {
      next := sc.pos;
    }
    sc.SetScanLocation(next);
  }

  /**
   * A quoted string after its opening `quote`: the text up to the closing quote, read
   * with skipping switched off; ValueError when it is empty.
   */
  method ParseQuoted(sc: Scanner, quote: string) returns (r: Result<Expression, Error>)
    requires sc.Valid() && (quote == "\"" || quote == "'")
    modifies sc
    ensures sc.Valid() && sc.Advanced() && sc.caseSensitive == old(sc.caseSensitive)
    ensures r.Err? <==> sc.FindFrom(old(sc.pos), quote) == old(sc.pos)
    ensures r.Ok? ==> r == Ok(Constant(VStr(sc.text[old(sc.pos)..sc.FindFrom(old(sc.pos), quote)])))
    ensures r.Ok? ==> sc.pos == CharScanEnd(sc.text, sc.skip, sc.FindFrom(old(sc.pos), quote), quote[0])
    ensures r.Err? ==> r.error.ValueError? && sc.pos == old(sc.pos)
  {
    var skip := sc.skip;
    sc.SetSkip({});
    var scanned := sc.ScanUpToString(quote);
    sc.SetSkip(skip);
    if scanned.None? {
      return Err(ValueError("Invalid quoted literal"));
    }
    ghost var e := sc.pos;
    CharScanned(sc, sc.SkipEnd(e), quote[0]);
    var close := sc.ScanString(quote);
    return Ok(Constant(VStr(scanned.value)));
  }

  /**
   * `parseFunctionalExpression`: a simple expression followed by any number of calls
   * `(args)`, subscripts `[e]` and key-path steps `.e`. A key path followed by `:` gets
   * the colon appended. The argument list of a call outlives the iteration that read
   * it, so `f()` with no earlier arguments raises UnboundLocalError. The loop ends where
   * no suffix follows, with the operand of the last turn, colon included.
   */
  method ParseFunctional(sc: Scanner) returns (r: Result<Expression, Error>)
    requires sc.Valid() && sc.kind != PlainScanner
    modifies sc
    ensures sc.Valid() && sc.Advanced()
    ensures r.Ok? ==> old(sc.pos) < sc.pos
    ensures r.Ok? ==> sc.SkipEnd(sc.pos) == sc.pos && SuffixAt(sc.text, sc.pos) == NoSuffix
    ensures r.Ok? && !old(sc.caseSensitive) ==> FunctionalAt(sc.text, sc.skip, r.value, old(sc.pos), sc.pos)
    decreases |sc.text| - sc.pos, 8
  {
    ghost var start, text, skip, cs := sc.pos, sc.text, sc.skip, sc.caseSensitive;
    var left :- ParseSimple(sc);
    ghost var head, mid := left, sc.pos;
    var args: Option<seq<Expression>> := None;
    while true
      invariant sc.Valid() && sc.Advanced() && start < mid <= sc.pos
      invariant !cs ==> SimpleAt(text, skip, head, start, mid)
      invariant !cs ==> forall e: Expression, till: nat {:trigger SuffixesAt(text, skip, left, args, e, sc.pos, till)} ::
                          SuffixesAt(text, skip, left, args, e, sc.pos, till) ==> SuffixesAt(text, skip, head, None, e, mid, till)
      decreases |sc.text| - sc.pos
    {
      ghost var from, argsBefore := sc.pos, args;
      var step, more;
      ghost var current, at;
      step, more, args, current, at := ParseSuffix(sc, left, args, start);
      if step.Err? {
        return Err(step.error);
      }
      if !more {
        sc.SkipEndTwice(at);
        if !cs {
          assert SuffixesAt(text, skip, left, argsBefore, current, from, sc.pos);
        }
        return step;
      }
      if !cs {
        forall e: Expression, till: nat | SuffixesAt(text, skip, step.value, args, e, sc.pos, till)
          ensures SuffixesAt(text, skip, head, None, e, mid, till)
        {
          SuffixesPrepend(text, skip, left, argsBefore, from, step.value, args, sc.pos, e, till);
        }
      }
      left := step.value;
    }
  }

  /** The suffixes of the functional level, by their opening character. */
  datatype Suffix = CallSuffix | IndexSuffix | KeyPathSuffix | NoSuffix

  /** The suffix whose opening character is at `i`, if any. */
  function SuffixAt(text: string, i: nat): Suffix {
    if i >= |text| then NoSuffix
    else if text[i] == '(' then CallSuffix
    else if text[i] == '[' then IndexSuffix
    else if text[i] == '.' then KeyPathSuffix
    else NoSuffix
  }

  /** What scanning for the suffix openers at `q` finds, in the terms of the text. */
  lemma SuffixScanned(sc: Scanner, q: nat, k: nat)
    requires k == sc.FirstMatchAt(q, SuffixOpeners)
    ensures k == match SuffixAt(sc.text, q) case CallSuffix => 0 case IndexSuffix => 1 case KeyPathSuffix => 2 case NoSuffix => 3
  {
    FirstMatchOfSymbols(sc, q, SuffixOpeners);
    var text := sc.text;
    if q < |text| {
      assert text[q..q + 1] == [text[q]];
    }
    assert SuffixOpeners[1..] == ["[", "."] && SuffixOpeners[1..][1..] == ["."];
    assert FirstOccurrence(text, q, ["."]) == if Strings.OccursAt(text, ".", q) then 0 else 1;
  }

  /**
   * One turn of the loop of `parseFunctionalExpression`, from the operand `left`: a
   * key path followed by `:` becomes `current`, the key path with the colon appended
   * (otherwise `current` is `left`), and the suffix that follows is applied to it.
   * Without a suffix, `more` is false and the result is `current` itself.
   */
  method ParseSuffix(sc: Scanner, left: Expression, args: Option<seq<Expression>>, ghost start: nat)
    returns (r: Result<Expression, Error>, more: bool, argsAfter: Option<seq<Expression>>, ghost current: Expression, ghost at: nat)
    requires sc.Valid() && sc.kind != PlainScanner && start < sc.pos
    modifies sc
    ensures sc.Valid() && sc.Advanced()
    ensures current == ColonApplied(sc.text, sc.skip, left, old(sc.pos)) && at == ColonEnd(sc.text, sc.skip, left, old(sc.pos))
    ensures at <= |sc.text| && (more <==> SuffixAt(sc.text, sc.SkipEnd(at)) != NoSuffix)
    ensures more && r.Ok? && !old(sc.caseSensitive) ==> TurnAt(sc.text, sc.skip, current, args, sc.SkipEnd(at), r.value, argsAfter, sc.pos)
    ensures !more ==> r == Ok(current) && argsAfter == args && sc.pos == sc.SkipEnd(at)
    ensures more && r.Ok? ==> old(sc.pos) < sc.pos
    ensures SuffixAt(sc.text, sc.SkipEnd(at)) == CallSuffix && r.Ok? ==>
              HasKeyPath(current) && argsAfter.Some? && CallNode(current.path, argsAfter.value, r.value)
    ensures SuffixAt(sc.text, sc.SkipEnd(at)) == IndexSuffix && r.Ok? ==>
              r.value.Function? && r.value.selector == VStr("_index") && |r.value.args| == 2 && r.value.args[0] == current
    ensures SuffixAt(sc.text, sc.SkipEnd(at)) == KeyPathSuffix && r.Ok? ==>
              HasKeyPath(current) && exists right: string :: r.value == KeyPath(current.path + "." + right) && right != ""
    decreases |sc.text| - start, 6
  {
    argsAfter := args;
    var operand;
    operand, at := ParseColon(sc, left);
    current := operand;
    ghost var opener := sc.SkipEnd(at);
    assert sc.SkipEnd(sc.pos) == opener;
    var k := sc.ScanFirstString(SuffixOpeners);
    SuffixScanned(sc, opener, k);
    more := k < 3;
    assert more ==> sc.pos == opener + 1;
    if k == 0 {
      ghost var o;
      r, argsAfter, o := CallTurn(sc, operand, args, start);
      assert o == opener;
    } else if k == 1 {
      r := IndexTurn(sc, operand, args, opener, start);
    } else if k == 2 {
      r := KeyPathTurn(sc, operand, args, opener, start);
    } else {
      r := Ok(operand);
    }
  }

  /** A call turn after its `(` at `o`, just before the cursor. */
  method CallTurn(sc: Scanner, current: Expression, args: Option<seq<Expression>>, ghost start: nat)
    returns (r: Result<Expression, Error>, argsAfter: Option<seq<Expression>>, ghost o: nat)
    requires sc.Valid() && sc.kind != PlainScanner && start < sc.pos && SuffixAt(sc.text, sc.pos - 1) == CallSuffix
    modifies sc
    ensures sc.Valid() && sc.Advanced() && o + 1 == old(sc.pos)
    ensures r.Ok? ==> HasKeyPath(current) && argsAfter.Some? && CallNode(current.path, argsAfter.value, r.value)
    ensures r.Ok? && !old(sc.caseSensitive) ==> TurnAt(sc.text, sc.skip, current, args, o, r.value, argsAfter, sc.pos)
    decreases |sc.text| - start, 5
  {
    ghost var cs, p := sc.caseSensitive, sc.pos;
    o := p - 1;
    r, argsAfter := ParseCall(sc, current, args, start);
    if r.Ok? && !cs {
      CallArgsShift(sc.text, sc.skip, args, argsAfter, p, o + 1, sc.pos);
      CallTurnIntro(sc.text, sc.skip, current, args, o, r.value, argsAfter, sc.pos);
    }
  }

  /** A subscript turn after its `[` at `o`. */
  method IndexTurn(sc: Scanner, current: Expression, args: Option<seq<Expression>>, ghost o: nat, ghost start: nat)
    returns (r: Result<Expression, Error>)
    requires sc.Valid() && sc.kind != PlainScanner && start < sc.pos && sc.pos == o + 1 && SuffixAt(sc.text, o) == IndexSuffix
    modifies sc
    ensures sc.Valid() && sc.Advanced()
    ensures r.Ok? ==> r.value.Function? && r.value.selector == VStr("_index") && |r.value.args| == 2 && r.value.args[0] == current
    ensures r.Ok? ==> TurnAt(sc.text, sc.skip, current, args, o, r.value, args, sc.pos)
    decreases |sc.text| - start, 5
  {
    ghost var text, skip := sc.text, sc.skip;
    r := ParseIndex(sc, current, start);
    if r.Ok? {
      assert sc.skip == skip;
      IndexTurnIntro(text, skip, current, args, o, r.value, sc.pos);
      assert TurnAt(sc.text, sc.skip, current, args, o, r.value, args, sc.pos);
    }
  }

  /** A key-path turn after its `.` at `o`. */
  method KeyPathTurn(sc: Scanner, current: Expression, args: Option<seq<Expression>>, ghost o: nat, ghost start: nat)
    returns (r: Result<Expression, Error>)
    requires sc.Valid() && sc.kind != PlainScanner && start < sc.pos && sc.pos == o + 1 && SuffixAt(sc.text, o) == KeyPathSuffix
    modifies sc
    ensures sc.Valid() && sc.Advanced()
    ensures r.Ok? ==> HasKeyPath(current) && exists right: string :: r.value == KeyPath(current.path + "." + right) && right != ""
    ensures r.Ok? && !old(sc.caseSensitive) ==> TurnAt(sc.text, sc.skip, current, args, o, r.value, args, sc.pos)
    decreases |sc.text| - start, 5
  {
    ghost var cs, text, skip := sc.caseSensitive, sc.text, sc.skip;
    r := ParseKeyPathStep(sc, current, start);
    if r.Ok? {
      assert sc.skip == skip;
      if !cs {
        ghost var right: Expression :| ExpressionRead(text, skip, false, right, o + 1, sc.pos) &&
                                        HasKeyPath(right) && r.value == KeyPath(current.path + "." + right.path);
        KeyPathTurnIntro(text, skip, current, args, o, right, r.value, sc.pos);
        assert TurnAt(sc.text, sc.skip, current, args, o, r.value, args, sc.pos);
      }
    }
  }

  /** A call turn put together from its `(` at `o` and the argument list read after it. */
  lemma CallTurnIntro(text: string, skip: set<string>, current: Expression, args: Option<seq<Expression>>, o: nat,
                      next: Expression, args': Option<seq<Expression>>, to: nat)
    requires o < to <= |text| && SuffixAt(text, o) == CallSuffix
    requires HasKeyPath(current) && CallArgsAt(text, skip, args, args', o + 1, to) && args'.Some? && CallNode(current.path, args'.value, next)
    ensures TurnAt(text, skip, current, args, o, next, args', to)
  {
  }

  /** The arguments read from `p` are read from any position equal to it. */
  lemma CallArgsShift(text: string, skip: set<string>, args: Option<seq<Expression>>, args': Option<seq<Expression>>,
                      p: nat, q: nat, to: nat)
    requires p == q && CallArgsAt(text, skip, args, args', p, to)
    ensures CallArgsAt(text, skip, args, args', q, to)
  {
  }

  /** A subscript turn put together from its `[` at `o` and the subscript read after it. */
  lemma IndexTurnIntro(text: string, skip: set<string>, current: Expression, args: Option<seq<Expression>>, o: nat,
                       next: Expression, to: nat)
    requires o < to <= |text| && SuffixAt(text, o) == IndexSuffix
    requires IndexAt(text, skip, current, next, o + 1, to)
    ensures TurnAt(text, skip, current, args, o, next, args, to)
  {
  }

  /** A key-path turn put together from its `.` at `o` and the key path read after it. */
  lemma KeyPathTurnIntro(text: string, skip: set<string>, current: Expression, args: Option<seq<Expression>>, o: nat,
                         right: Expression, next: Expression, to: nat)
    requires o < to <= |text| && SuffixAt(text, o) == KeyPathSuffix
    requires HasKeyPath(current) && ExpressionRead(text, skip, false, right, o + 1, to) && HasKeyPath(right)
    requires next == KeyPath(current.path + "." + right.path)
    ensures TurnAt(text, skip, current, args, o, next, args, to)
  {
  }

  /** The colon step of a turn: a key path followed by `:` gets the colon appended. */
  method ParseColon(sc: Scanner, left: Expression) returns (operand: Expression, ghost at: nat)
    requires sc.Valid()
    modifies sc
    ensures sc.Valid() && sc.Advanced() && sc.caseSensitive == old(sc.caseSensitive)
    ensures var q := sc.SkipEnd(old(sc.pos));
            var colon := HasKeyPath(left) && q < |sc.text| && sc.text[q] == ':';
            && operand == (if colon then KeyPath(left.path + ":") else left)
            && at == (if colon then q + 1 else if HasKeyPath(left) then q else old(sc.pos))
    ensures at == sc.pos
  {
    operand := left;
    if HasKeyPath(operand) {
      ghost var q := sc.SkipEnd(sc.pos);
      CharScanned(sc, q, ':');
      var colon := sc.ScanString(":");
      if colon.Some? {
        operand := KeyPath(operand.path + ":");
      }
    }
    at := sc.pos;
  }

  /**
   * A call after its `(`: the argument list (kept in `args` for later calls) and `)`,
   * then the function node named by the key path `left`.
   */
  method ParseCall(sc: Scanner, left: Expression, args: Option<seq<Expression>>, ghost start: nat)
    returns (r: Result<Expression, Error>, argsAfter: Option<seq<Expression>>)
    requires sc.Valid() && sc.kind != PlainScanner && start < sc.pos
    modifies sc
    ensures sc.Valid() && sc.Advanced()
    ensures !HasKeyPath(left) ==> r.Err? && r.error.ValueError? && sc.pos == old(sc.pos)
    ensures argsAfter.None? ==> args.None? && r.Err?
    ensures r.Ok? ==> HasKeyPath(left) && argsAfter.Some? && r == ExpressionForFunction(left.path, argsAfter.value)
    ensures r.Ok? ==> CallNode(left.path, argsAfter.value, r.value)
    ensures r.Ok? && !old(sc.caseSensitive) ==> CallArgsAt(sc.text, sc.skip, args, argsAfter, old(sc.pos), sc.pos)
    decreases |sc.text| - start, 4
  {
    argsAfter := args;
    if !HasKeyPath(left) {
      return Err(ValueError("Invalid function identifier")), argsAfter;
    }
    CharScanned(sc, sc.SkipEnd(sc.pos), ')');
    var close := sc.ScanString(")");
    if close.None? {
      var list := ParseList(sc, ')', "Missing ) in function arguments", start);
      if list.Err? {
        return Err(list.error), argsAfter;
      }
      argsAfter := Some(list.value);
    }
    if argsAfter.None? {
      return Err(UnboundLocalError), argsAfter;
    }
    r := ExpressionForFunction(left.path, argsAfter.value);
    if r.Ok? {
      CallNodeBuilt(left.path, argsAfter.value, r.value);
    }
  }

  /** A key-path step after its `.`: both sides must be key paths, and their paths are joined by a dot. */
  method ParseKeyPathStep(sc: Scanner, left: Expression, ghost start: nat) returns (r: Result<Expression, Error>)
    requires sc.Valid() && sc.kind != PlainScanner && start < sc.pos
    modifies sc
    ensures sc.Valid() && sc.Advanced()
    ensures !HasKeyPath(left) ==> r.Err? && r.error.ValueError?
    ensures r.Ok? ==> exists right: string :: r.value == KeyPath(left.path + "." + right) && right != ""
    ensures r.Ok? ==> exists right: Expression :: ExpressionRead(sc.text, sc.skip, old(sc.caseSensitive), right, old(sc.pos), sc.pos) &&
                        HasKeyPath(right) && r.value == KeyPath(left.path + "." + right.path)
    decreases |sc.text| - start, 0
  {
    if !HasKeyPath(left) {
      return Err(ValueError("Invalid left keypath"));
    }
    var right :- ParseExpression(sc);
    if !HasKeyPath(right) {
      return Err(ValueError("Invalid right keypath"));
    }
    return Ok(KeyPath(left.path + "." + right.path));
  }

  /**
   * The subscript after `[`: `FIRST`, `LAST` or `SIZE` and an expression, whose function
   * names are not in the table, or an expression indexing `left`; then `]`.
   */
  method ParseIndex(sc: Scanner, left: Expression, ghost start: nat) returns (r: Result<Expression, Error>)
    requires sc.Valid() && sc.kind != PlainScanner && start < sc.pos
    modifies sc
    ensures sc.Valid() && sc.Advanced()
    ensures !sc.HasKeywords() ==> r == Err(AttributeError)
    ensures r.Ok? ==> old(sc.pos) < sc.pos
    ensures r.Ok? ==> r.value.Function? && r.value.operand == Constant(Builtins.BuiltinTable) &&
                      r.value.selector == VStr("_index") && |r.value.args| == 2 && r.value.args[0] == left
    ensures r.Ok? ==> IndexAt(sc.text, sc.skip, left, r.value, old(sc.pos), sc.pos)
    decreases |sc.text| - start, 0
  {
    if !sc.HasKeywords() {
      // an expression scanner has no scanPredicateKeyword
      return Err(AttributeError);
    }
    ghost var text, skip, p := sc.text, sc.skip, sc.pos;
    var kw := ScanIndexKeyword(sc);
    ghost var from := sc.pos;
    assert sc.skip == skip;
    var e :- ParseExpression(sc);
    ghost var m := sc.pos;
    assert sc.skip == skip && ExpressionRead(text, skip, false, e, from, m);
    if kw < |IndexKeywords| {
      var missing := MissingIndexFunction(kw, e);
      return Err(missing);
    }
    r := CloseIndex(sc, left, e);
    if r.Ok? {
      IndexIntro(text, skip, left, e, r.value, p, from, sc.pos);
    }
  }

  /** `scanPredicateKeyword` over the index keywords, in the terms of the text. */
  method ScanIndexKeyword(sc: Scanner) returns (kw: nat)
    requires sc.Valid() && sc.HasKeywords()
    modifies sc
    ensures sc.Valid() && sc.Advanced() && !sc.caseSensitive
    ensures var kq := SkipEndIn(sc.text, sc.skip, old(sc.pos));
            && kw == FirstKeywordIn(sc.text, sc.skip, kq, IndexKeywords)
            && (kw == |IndexKeywords| ==> old(sc.pos) <= sc.pos <= kq && SkipEndIn(sc.text, sc.skip, sc.pos) == kq)
  {
    kw := sc.ScanFirstKeyword(IndexKeywords);
  }

  /** The error of the node an index keyword asks for: the table has no `_first`, `_last` or `count`. */
  method MissingIndexFunction(kw: nat, e: Expression) returns (err: Error)
    requires kw < |IndexKeywords|
    ensures ExpressionForFunction(IndexFunctions[kw], [e]) == Err(err)
  {
    ParserOnlyNamesAreMissing([e]);
    var missing := ExpressionForFunction(IndexFunctions[kw], [e]);
    return missing.error;
  }

  /** The `]` that ends a subscript right after its expression `e`, and the `_index` node of `left` and `e`. */
  method CloseIndex(sc: Scanner, left: Expression, e: Expression) returns (r: Result<Expression, Error>)
    requires sc.Valid() && sc.SkipEnd(sc.pos) == sc.pos
    modifies sc
    ensures sc.Valid() && sc.Advanced()
    ensures r.Ok? <==> old(sc.pos) < |sc.text| && sc.text[old(sc.pos)] == ']'
    ensures r.Ok? ==> sc.pos == old(sc.pos) + 1 && r.value == Function(Constant(Builtins.BuiltinTable), VStr("_index"), [left, e])
    ensures r.Err? ==> r == Err(ValueError("Missing ] in index argument"))
  {
    CharScanned(sc, sc.pos, ']');
    IndexIsBuiltin(left, e);
    var node := ExpressionForFunction("_index", [left, e]).value;
    var close := sc.ScanString("]");
    if close.None? {
      return Err(ValueError("Missing ] in index argument"));
    }
    return Ok(node);
  }

  /** A subscript read piece by piece: no index keyword, the expression, then `]`. */
  lemma IndexIntro(text: string, skip: set<string>, current: Expression, ie: Expression, next: Expression, p: nat, start: nat, to: nat)
    requires p <= start && start < to - 1 && to <= |text| && text[to - 1] == ']'
    requires var kq := SkipEndIn(text, skip, p);
             start <= kq && SkipEndIn(text, skip, start) == kq && FirstKeywordIn(text, skip, kq, IndexKeywords) == |IndexKeywords|
    requires ExpressionRead(text, skip, false, ie, start, to - 1)
    requires next == Function(Constant(Builtins.BuiltinTable), VStr("_index"), [current, ie])
    ensures IndexAt(text, skip, current, next, p, to)
  {
  }

  /**
   * `parsePowerExpression`: functional expressions joined by `**`, grouped from the left.
   * The chain's operators are the `**` in the text, and the level ends where no `**` follows.
   */
  method ParsePower(sc: Scanner) returns (r: Result<Expression, Error>, ghost c: Chain)
    requires sc.Valid() && sc.kind != PlainScanner
    modifies sc
    ensures sc.Valid() && sc.Advanced()
    ensures r.Ok? ==> old(sc.pos) < sc.pos
    ensures r.Ok? ==> r.value == Fold(c) && ChainAt(PowerLevel, sc.text, sc.skip, old(sc.caseSensitive), c, old(sc.pos), sc.pos)
    ensures r.Ok? ==> sc.SkipEnd(sc.pos) == sc.pos && Stops(PowerLevel, sc.text, sc.pos)
    decreases |sc.text| - sc.pos, 9
  {
    ghost var start, cs := sc.pos, sc.caseSensitive;
    c := Single(Self);
    var res := ParseFunctional(sc);
    if res.Err? {
      return Err(res.error), c;
    }
    var left := res.value;
    c := Single(left);
    while true
      invariant sc.Valid() && sc.Advanced() && start < sc.pos
      invariant left == Fold(c) && ChainAt(PowerLevel, sc.text, sc.skip, cs, c, start, sc.pos)
      decreases |sc.text| - sc.pos
    {
      ghost var q := sc.pos;
      var k := sc.ScanFirstString(Symbols(PowerLevel));
      OperatorScanned(sc, PowerLevel, q, k);
      if k == 1 {
        return Ok(left), c;
      }
      ghost var o, now := sc.pos, sc.caseSensitive;
      assert o == q + Width(PowerLevel);
      var right := ParseFunctional(sc);
      if right.Err? {
        return Err(right.error), c;
      }
      assert OperandAt(PowerLevel, sc.text, sc.skip, cs, right.value, o, sc.pos) by {
        assert !cs ==> !now;
      }
      assert ChainAt(PowerLevel, sc.text, sc.skip, cs, c, start, q);
      assert q + Width(PowerLevel) < sc.pos <= |sc.text|;
      assert SkipEndIn(sc.text, sc.skip, sc.pos) == sc.pos;
      assert OperatorRead(PowerLevel, sc.text, q, Selectors(PowerLevel)[k]);
      c := ChainStep(PowerLevel, sc.text, sc.skip, cs, c, start, q, o, sc.pos, Selectors(PowerLevel)[k], right.value);
      left := Arith(Selectors(PowerLevel)[k], left, right.value);
    }
  }

  /**
   * `parseMultiplicationExpression`: power expressions joined by `*` and `/`, grouped
   * from the left. The operands are the power chains read between the operators.
   */
  method ParseMultiplication(sc: Scanner) returns (r: Result<Expression, Error>, ghost c: Chain)
    requires sc.Valid() && sc.kind != PlainScanner
    modifies sc
    ensures sc.Valid() && sc.Advanced()
    ensures r.Ok? ==> old(sc.pos) < sc.pos
    ensures r.Ok? ==> r.value == Fold(c) && ChainAt(MultiplicativeLevel, sc.text, sc.skip, old(sc.caseSensitive), c, old(sc.pos), sc.pos)
    ensures r.Ok? ==> sc.SkipEnd(sc.pos) == sc.pos && Stops(MultiplicativeLevel, sc.text, sc.pos)
    decreases |sc.text| - sc.pos, 10
  {
    ghost var start, cs := sc.pos, sc.caseSensitive;
    c := Single(Self);
    var res, c0 := ParsePower(sc);
    if res.Err? {
      return Err(res.error), c;
    }
    var left := res.value;
    c := Single(left);
    while true
      invariant sc.Valid() && sc.Advanced() && start < sc.pos
      invariant left == Fold(c) && ChainAt(MultiplicativeLevel, sc.text, sc.skip, cs, c, start, sc.pos)
      invariant Stops(PowerLevel, sc.text, sc.pos)
      decreases |sc.text| - sc.pos
    {
      ghost var q, now := sc.pos, sc.caseSensitive;
      var k := sc.ScanFirstString(Symbols(MultiplicativeLevel));
      OperatorScanned(sc, MultiplicativeLevel, q, k);
      if k == 2 {
        return Ok(left), c;
      }
      ghost var o := sc.pos;
      assert o == q + Width(MultiplicativeLevel);
      var right, p := ParsePower(sc);
      if right.Err? {
        return Err(right.error), c;
      }
      c := TighterStep(MultiplicativeLevel, sc.text, sc.skip, cs, now, c, start, q, o, sc.pos, Selectors(MultiplicativeLevel)[k], p);
      left := Arith(Selectors(MultiplicativeLevel)[k], left, right.value);
    }
  }

  /**
   * `parseAdditionExpression`: multiplication expressions joined by `+` and `-`, grouped
   * from the left. The operands are the multiplicative chains read between the operators.
   */
  method ParseAddition(sc: Scanner) returns (r: Result<Expression, Error>, ghost c: Chain)
    requires sc.Valid() && sc.kind != PlainScanner
    modifies sc
    ensures sc.Valid() && sc.Advanced()
    ensures r.Ok? ==> old(sc.pos) < sc.pos
    ensures r.Ok? ==> r.value == Fold(c) && ChainAt(AdditiveLevel, sc.text, sc.skip, old(sc.caseSensitive), c, old(sc.pos), sc.pos)
    ensures r.Ok? ==> sc.SkipEnd(sc.pos) == sc.pos && Stops(AdditiveLevel, sc.text, sc.pos)
    decreases |sc.text| - sc.pos, 11
  {
    ghost var start, cs := sc.pos, sc.caseSensitive;
    c := Single(Self);
    var res, c0 := ParseMultiplication(sc);
    if res.Err? {
      return Err(res.error), c;
    }
    var left := res.value;
    c := Single(left);
    while true
      invariant sc.Valid() && sc.Advanced() && start < sc.pos
      invariant left == Fold(c) && ChainAt(AdditiveLevel, sc.text, sc.skip, cs, c, start, sc.pos)
      invariant Stops(MultiplicativeLevel, sc.text, sc.pos)
      decreases |sc.text| - sc.pos
    {
      ghost var q, now := sc.pos, sc.caseSensitive;
      var k := sc.ScanFirstString(Symbols(AdditiveLevel));
      OperatorScanned(sc, AdditiveLevel, q, k);
      if k == 2 {
        return Ok(left), c;
      }
      ghost var o := sc.pos;
      assert o == q + Width(AdditiveLevel);
      var right, p := ParseMultiplication(sc);
      if right.Err? {
        return Err(right.error), c;
      }
      c := TighterStep(AdditiveLevel, sc.text, sc.skip, cs, now, c, start, q, o, sc.pos, Selectors(AdditiveLevel)[k], p);
      left := Arith(Selectors(AdditiveLevel)[k], left, right.value);
    }
  }

  /**
   * `parseBinaryExpression`: addition expressions joined by `:=`. Each right-hand side
   * is read and dropped, so the result is the first operand, the additive chain read
   * from the start up to `mid`; the assignments occupy the text from `mid` on.
   */
  method ParseBinary(sc: Scanner) returns (r: Result<Expression, Error>, ghost c: Chain, ghost mid: nat)
    requires sc.Valid() && sc.kind != PlainScanner
    modifies sc
    ensures sc.Valid() && sc.Advanced()
    ensures r.Ok? ==> old(sc.pos) < mid <= sc.pos
    ensures r.Ok? ==> r.value == Fold(c) && ChainAt(AdditiveLevel, sc.text, sc.skip, old(sc.caseSensitive), c, old(sc.pos), mid)
    ensures r.Ok? ==> Stops(AdditiveLevel, sc.text, mid) && (mid < sc.pos <==> AssignmentAt(sc.text, mid))
    ensures r.Ok? ==> sc.SkipEnd(sc.pos) == sc.pos && ExpressionEnd(sc.text, sc.pos)
    decreases |sc.text| - sc.pos, 12
  {
    var res;
    res, c := ParseAddition(sc);
    mid := sc.pos;
    if res.Err? {
      return Err(res.error), c, mid;
    }
    var dropped := ParseAssignments(sc);
    if dropped.Err? {
      return Err(dropped.error), c, mid;
    }
    return Ok(res.value), c, mid;
  }

  /**
   * The `:=` operators and right operands after the first operand of the binary level,
   * read and dropped; the cursor moved only when an assignment was there.
   */
  method ParseAssignments(sc: Scanner) returns (r: Result<(), Error>)
    requires sc.Valid() && sc.kind != PlainScanner
    requires sc.SkipEnd(sc.pos) == sc.pos && Stops(AdditiveLevel, sc.text, sc.pos)
    modifies sc
    ensures sc.Valid() && sc.Advanced()
    ensures r.Ok? ==> (old(sc.pos) < sc.pos <==> AssignmentAt(sc.text, old(sc.pos)))
    ensures r.Ok? ==> sc.SkipEnd(sc.pos) == sc.pos && ExpressionEnd(sc.text, sc.pos)
    decreases |sc.text| - sc.pos, 11
  {
    ghost var mid := sc.pos;
    while true
      invariant sc.Valid() && sc.Advanced() && mid <= sc.pos
      invariant mid < sc.pos ==> AssignmentAt(sc.text, mid)
      invariant sc.SkipEnd(sc.pos) == sc.pos && Stops(AdditiveLevel, sc.text, sc.pos)
      decreases |sc.text| - sc.pos
    {
      ghost var q := sc.pos;
      var assign := sc.ScanString(":=");
      AssignmentScanned(sc, q);
      if assign.None? {
        return Ok(());
      }
      var right, c1 := ParseAddition(sc);
      if right.Err? {
        return Err(right.error);
      }
    }
  }
}
