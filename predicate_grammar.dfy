/**
 * The predicate parser of kevi/scanners.py (`PredicateScanner`): conjunctions of
 * negations of comparisons, with keywords matched case-insensitively and only when no
 * ASCII letter or digit follows them.
 */
module PredicateGrammar {
  import opened Wrappers
  import opened Values
  import opened Expressions
  import opened Scanning
  import opened PredicateTypes
  import opened Predicates
  import ExpressionGrammar

  /** The modifiers a comparison may start with; NONE and SOME negate the comparison. */
  const ModifierKeys: seq<string> := ["ANY", "ALL", "NONE", "SOME"]

  /** The modifier for the `m`-th entry of the table, Direct when none was read. */
  function ModifierOf(m: nat): (r: Modifier)
    ensures m >= |ModifierKeys| <==> r == Direct
  {
    if m == 0 || m == 2 then Any
    else if m == 1 || m == 3 then All
    else Direct
  }

  predicate Negates(m: nat) {
    m == 2 || m == 3
  }

  /** The operator table, in the order it is tried. */
  const OperatorKeys: seq<string> :=
    ["<=", "=<", ">=", "=>", "==", "!=", "<>", "<", ">", "=",
     "MATCHES", "LIKE", "BEGINSWITH", "ENDSWITH", "IN", "CONTAINS", "BETWEEN"]

  const OperatorTypes: seq<ComparisonType> :=
    [LessThanOrEqual, LessThanOrEqual, GreaterThanOrEqual, GreaterThanOrEqual, EqualTo, NotEqualTo, NotEqualTo,
     LessThan, GreaterThan, EqualTo, Matches, Like, BeginsWith, EndsWith, In, Contains, Between]

  /** The option suffixes, and the option bits of each; the last value is for no suffix. */
  const OptionStrings: seq<string> := ["[cd]", "[c]", "[d]"]
  const OptionValues: seq<int> := [3, 1, 2, 0]

  const NegationKeys: seq<string> := ["NOT", "!"]
  const ValueKeys: seq<string> := ["TRUEPREDICATE", "FALSEPREDICATE"]
  const ConjunctionKeys: seq<string> := ["AND", "&&", "OR", "||"]

  /** Each option suffix stands for the union of the option bits it names. */
  lemma OptionValuesAreFlags()
    ensures OptionValues[0] == CaseInsensitive + DiacriticInsensitive
    ensures OptionValues[1] == CaseInsensitive && OptionValues[2] == DiacriticInsensitive
    ensures OptionValues[3] == 0
  {
  }

  /**
   * Every comparison type but the custom selector has an operator, and no operator is a
   * proper prefix of a later one, so a longer operator is never cut short by a shorter.
   */
  lemma OperatorTableIsComplete(t: ComparisonType)
    ensures |OperatorKeys| == |OperatorTypes|
    ensures t != CustomSelector ==> exists j :: 0 <= j < |OperatorTypes| && OperatorTypes[j] == t
    ensures CustomSelector !in OperatorTypes
  {
    match t
    case LessThan => assert OperatorTypes[7] == t;
    case LessThanOrEqual => assert OperatorTypes[0] == t;
    case GreaterThan => assert OperatorTypes[8] == t;
    case GreaterThanOrEqual => assert OperatorTypes[2] == t;
    case EqualTo => assert OperatorTypes[4] == t;
    case NotEqualTo => assert OperatorTypes[5] == t;
    case Matches => assert OperatorTypes[10] == t;
    case Like => assert OperatorTypes[11] == t;
    case BeginsWith => assert OperatorTypes[12] == t;
    case EndsWith => assert OperatorTypes[13] == t;
    case In => assert OperatorTypes[14] == t;
    case CustomSelector =>
    case Contains => assert OperatorTypes[15] == t;
    case Between => assert OperatorTypes[16] == t;
  }

  // ---------------------------------------------------------------------------------
  // Combining the operands of a conjunction or disjunction

  /** The children `p` contributes to a compound of kind `t`: its own, or itself. */
  function Children(t: CompoundType, p: Predicate): seq<Predicate> {
    if p.Compound? && p.kind == t then p.subpredicates else [p]
  }

  /**
   * One step of `parseConjunction`: the operands of kind `t` are flattened into one
   * compound. When only the right operand is of that kind, its children come first and
   * the left operand is appended after them.
   */
  function Combine(t: CompoundType, l: Predicate, r: Predicate): (p: Predicate)
    ensures p.Compound? && p.kind == t
    ensures multiset(p.subpredicates) == multiset(Children(t, l) + Children(t, r))
  {
    if r.Compound? && r.kind == t then
      if l.Compound? && l.kind == t then Compound(t, l.subpredicates + r.subpredicates)
      else Compound(t, r.subpredicates + [l])
    else if l.Compound? && l.kind == t then Compound(t, l.subpredicates + [r])
    else Compound(t, [l, r])
  }

  /** A keyword read by a conjunction and the operand that followed it. */
  datatype Join = Join(kind: CompoundType, operand: Predicate)

  /** The operands of a conjunction combined from the left. */
  function FoldJoins(first: Predicate, joins: seq<Join>): Predicate
    decreases |joins|
  {
    if joins == [] then first
    else
      var last := joins[|joins| - 1];
      Combine(last.kind, FoldJoins(first, joins[..|joins| - 1]), last.operand)
  }

  lemma FoldJoinsAppend(first: Predicate, joins: seq<Join>, j: Join)
    ensures FoldJoins(first, joins + [j]) == Combine(j.kind, FoldJoins(first, joins), j.operand)
  {
    assert (joins + [j])[..|joins|] == joins;
  }

  /**
   * The shape the parser gives predicates: a negation has one child, and a conjunction
   * or disjunction has at least two children, none of them of its own kind.
   */
  predicate Flat(p: Predicate)
    decreases p
  {
    match p
    case ValuePredicate(_) => true
    case Comparison(_, _, op) => 0 <= op.options <= 3
    case Compound(kind, subs) =>
      (if kind == Not then |subs| == 1
       else |subs| >= 2 && forall i :: 0 <= i < |subs| ==> !(subs[i].Compound? && subs[i].kind == kind)) &&
      forall i :: 0 <= i < |subs| ==> Flat(subs[i])
  }

  /** The children an operand contributes are flat and not of the compound's kind. */
  lemma ChildrenAreFlat(t: CompoundType, p: Predicate)
    requires t != Not && Flat(p)
    ensures |Children(t, p)| >= 1
    ensures forall i :: 0 <= i < |Children(t, p)| ==> Flat(Children(t, p)[i])
    ensures forall i :: 0 <= i < |Children(t, p)| ==> !(Children(t, p)[i].Compound? && Children(t, p)[i].kind == t)
  {
  }

  /** Combining two flat operands gives a flat compound. */
  lemma CombineIsFlat(t: CompoundType, l: Predicate, r: Predicate)
    requires t != Not && Flat(l) && Flat(r)
    ensures Flat(Combine(t, l, r))
  {
    ChildrenAreFlat(t, l);
    ChildrenAreFlat(t, r);
    var p := Combine(t, l, r);
    var cl, cr := Children(t, l), Children(t, r);
    assert p.subpredicates == cl + cr || p.subpredicates == cr + cl;
    forall i | 0 <= i < |p.subpredicates|
      ensures Flat(p.subpredicates[i]) && !(p.subpredicates[i].Compound? && p.subpredicates[i].kind == t)
    {
      if p.subpredicates == cl + cr {
        if i < |cl| { assert p.subpredicates[i] == cl[i]; } else { assert p.subpredicates[i] == cr[i - |cl|]; }
      } else {
        if i < |cr| { assert p.subpredicates[i] == cr[i]; } else { assert p.subpredicates[i] == cl[i - |cr|]; }
      }
    }
  }

  /** A fold of flat operands with AND and OR is flat. */
  lemma {:induction false} FoldJoinsIsFlat(first: Predicate, joins: seq<Join>)
    requires Flat(first)
    requires forall i :: 0 <= i < |joins| ==> joins[i].kind != Not && Flat(joins[i].operand)
    ensures Flat(FoldJoins(first, joins))
    decreases |joins|
  {
    if joins != [] {
      var last := joins[|joins| - 1];
      FoldJoinsIsFlat(first, joins[..|joins| - 1]);
      CombineIsFlat(last.kind, FoldJoins(first, joins[..|joins| - 1]), last.operand);
    }
  }

  // ---------------------------------------------------------------------------------
  // What a combination means

  /** `all` over a concatenation: the first part decides unless it is all true. */
  lemma {:induction false} EvaluateAllAppend(a: seq<Predicate>, b: seq<Predicate>, obj: Value)
    ensures EvaluateAll(a + b, obj) ==
      (match EvaluateAll(a, obj)
       case Err(e) => Err(e)
       case Ok(v) => if v then EvaluateAll(b, obj) else Ok(false))
    decreases |a|
  {
    if a == [] {
      assert a + b == b;
    } else {
      assert (a + b)[0] == a[0];
      assert (a + b)[1..] == a[1..] + b;
      EvaluateAllAppend(a[1..], b, obj);
    }
  }

  /** `any` over a concatenation: the first part decides unless it is all false. */
  lemma {:induction false} EvaluateAnyAppend(a: seq<Predicate>, b: seq<Predicate>, obj: Value)
    ensures EvaluateAny(a + b, obj) ==
      (match EvaluateAny(a, obj)
       case Err(e) => Err(e)
       case Ok(v) => if v then Ok(true) else EvaluateAny(b, obj))
    decreases |a|
  {
    if a == [] {
      assert a + b == b;
    } else {
      assert (a + b)[0] == a[0];
      assert (a + b)[1..] == a[1..] + b;
      EvaluateAnyAppend(a[1..], b, obj);
    }
  }

  /** The children an operand contributes evaluate, under the compound's rule, to the operand. */
  lemma ChildrenEvaluate(t: CompoundType, p: Predicate, obj: Value)
    requires t != Not
    ensures t == And ==> EvaluateAll(Children(t, p), obj) == Evaluate(p, obj)
    ensures t == Or ==> EvaluateAny(Children(t, p), obj) == Evaluate(p, obj)
  {
    if !(p.Compound? && p.kind == t) {
      assert Children(t, p) == [p];
      assert Children(t, p)[1..] == [];
    }
  }

  /** The truth function of a conjunction keyword. */
  function Connect(t: CompoundType, a: bool, b: bool): bool {
    if t == And then a && b else a || b
  }

  /**
   * A combination's children, case by case: both operands' children when both are of
   * the compound's kind; the right operand's children and then the left operand when
   * only the right one is; the left operand's children and then the right operand when
   * only the left one is; otherwise the two operands in order.
   */
  lemma CombineOrder(t: CompoundType, l: Predicate, r: Predicate)
    ensures var lt, rt := l.Compound? && l.kind == t, r.Compound? && r.kind == t;
            var subs := Combine(t, l, r).subpredicates;
            && (lt && rt ==> subs == l.subpredicates + r.subpredicates)
            && (!lt && rt ==> subs == r.subpredicates + [l])
            && (lt && !rt ==> subs == l.subpredicates + [r])
            && (!lt && !rt ==> subs == [l, r])
  {
    if l.Compound? && l.kind == t && r.Compound? && r.kind == t {
      assert Combine(t, l, r) == Compound(t, l.subpredicates + r.subpredicates);
    }
  }

  /**
   * So the left operand's contribution comes first, except when only the right operand
   * is of the compound's kind.
   */
  lemma CombineChildren(t: CompoundType, l: Predicate, r: Predicate)
    ensures var onlyRight := !(l.Compound? && l.kind == t) && r.Compound? && r.kind == t;
            var subs := Combine(t, l, r).subpredicates;
            && (onlyRight ==> subs == Children(t, r) + Children(t, l))
            && (!onlyRight ==> subs == Children(t, l) + Children(t, r))
  {
    CombineOrder(t, l, r);
  }

  /** `all` over two parts that both evaluate is the conjunction of the parts. */
  lemma AllOfParts(a: seq<Predicate>, b: seq<Predicate>, obj: Value)
    requires EvaluateAll(a, obj).Ok? && EvaluateAll(b, obj).Ok?
    ensures EvaluateAll(a + b, obj) == Ok(EvaluateAll(a, obj).value && EvaluateAll(b, obj).value)
  {
    EvaluateAllAppend(a, b, obj);
  }

  /** `any` over two parts that both evaluate is the disjunction of the parts. */
  lemma AnyOfParts(a: seq<Predicate>, b: seq<Predicate>, obj: Value)
    requires EvaluateAny(a, obj).Ok? && EvaluateAny(b, obj).Ok?
    ensures EvaluateAny(a + b, obj) == Ok(EvaluateAny(a, obj).value || EvaluateAny(b, obj).value)
  {
    EvaluateAnyAppend(a, b, obj);
  }

  /**
   * When both operands evaluate without raising, their combination evaluates to their
   * conjunction or disjunction, whatever order the children ended up in.
   */
  lemma CombineMeansConnective(t: CompoundType, l: Predicate, r: Predicate, obj: Value)
    requires t != Not
    requires Evaluate(l, obj).Ok? && Evaluate(r, obj).Ok?
    ensures Evaluate(Combine(t, l, r), obj) == Ok(Connect(t, Evaluate(l, obj).value, Evaluate(r, obj).value))
  {
    ChildrenEvaluate(t, l, obj);
    ChildrenEvaluate(t, r, obj);
    CombineChildren(t, l, r);
    var cl, cr := Children(t, l), Children(t, r);
    var subs := Combine(t, l, r).subpredicates;
    if t == And {
      assert Evaluate(Combine(t, l, r), obj) == EvaluateAll(subs, obj);
      if subs == cl + cr { AllOfParts(cl, cr, obj); } else { AllOfParts(cr, cl, obj); }
    } else {
      assert Evaluate(Combine(t, l, r), obj) == EvaluateAny(subs, obj);
      if subs == cl + cr { AnyOfParts(cl, cr, obj); } else { AnyOfParts(cr, cl, obj); }
    }
  }

  /** The truth of a chain `b0 op1 b1 op2 b2 ...`, grouped from the left. */
  function FoldTruth(b: bool, joins: seq<Join>, obj: Value): bool
    requires forall i :: 0 <= i < |joins| ==> Evaluate(joins[i].operand, obj).Ok?
    decreases |joins|
  {
    if joins == [] then b
    else
      var last := joins[|joins| - 1];
      Connect(last.kind, FoldTruth(b, joins[..|joins| - 1], obj), Evaluate(last.operand, obj).value)
  }

  /**
   * When every operand of a parsed chain evaluates without raising, the chain evaluates
   * to the left-grouped combination of their truth values.
   */
  lemma {:induction false} FoldJoinsMeaning(first: Predicate, joins: seq<Join>, obj: Value)
    requires Evaluate(first, obj).Ok?
    requires forall i :: 0 <= i < |joins| ==> joins[i].kind != Not && Evaluate(joins[i].operand, obj).Ok?
    ensures Evaluate(FoldJoins(first, joins), obj) == Ok(FoldTruth(Evaluate(first, obj).value, joins, obj))
    decreases |joins|
  {
    if joins != [] {
      var last := joins[|joins| - 1];
      FoldJoinsMeaning(first, joins[..|joins| - 1], obj);
      CombineMeansConnective(last.kind, FoldJoins(first, joins[..|joins| - 1]), last.operand, obj);
    }
  }

  /**
   * The children of a parenthesised right operand are evaluated before the left
   * operand: in `FALSEPREDICATE AND (TRUEPREDICATE AND NOT TRUEPREDICATE)` the
   * negation is reached, and raises, although the left operand is already false.
   */
  lemma RightChildrenEvaluateFirst(obj: Value)
    ensures var r := Compound(And, [TruePredicate, NotPredicate(TruePredicate)]);
            && Evaluate(FalsePredicate, obj) == Ok(false)
            && Evaluate(r, obj) == Err(TypeError)
            && Evaluate(FoldJoins(FalsePredicate, [Join(And, r)]), obj) == Err(TypeError)
  {
    var n := NotPredicate(TruePredicate);
    var r := Compound(And, [TruePredicate, n]);
    assert AllBefore([TruePredicate, n], 1, obj, true);
    AndStopsAtFirstNotTrue([TruePredicate, n], 1, obj);
    var combined := [TruePredicate, n, FalsePredicate];
    assert FoldJoins(FalsePredicate, [Join(And, r)]) == Compound(And, combined);
    assert AllBefore(combined, 1, obj, true);
    AndStopsAtFirstNotTrue(combined, 1, obj);
  }

  // ---------------------------------------------------------------------------------
  // What the parser reads

  /**
   * How the parser read a predicate: which alternative it took at each point, with the
   * positions that the text alone does not fix (where each operand ended, and where the
   * left expression of a comparison started and ended).
   */
  datatype Reading =
    | GroupRead(inner: Reading, innerEnd: nat)
    | NotRead(child: Reading)
    | ValueRead(value: bool)
    | ComparisonRead(comparison: Predicate, negated: bool, leftFrom: nat, opAt: nat, optionsAt: nat, rightFrom: nat)
    | ConjunctionRead(first: Reading, ends: seq<nat>, joins: seq<JoinRead>)

  /** A connective of a conjunction and the reading of the operand after it. */
  datatype JoinRead = JoinRead(kind: CompoundType, operand: Reading)

  /** The predicate a reading builds. */
  function Denotes(d: Reading): Predicate
    decreases d
  {
    match d
    case GroupRead(inner, _) => Denotes(inner)
    case NotRead(child) => NotPredicate(Denotes(child))
    case ValueRead(v) => ValuePredicate(v)
    case ComparisonRead(c, negated, _, _, _, _) => if negated then NotPredicate(c) else c
    case ConjunctionRead(first, _, joins) =>
      FoldJoins(Denotes(first), seq(|joins|, i requires 0 <= i < |joins| => Join(joins[i].kind, Denotes(joins[i].operand))))
  }

  /**
   * The connective `hasKeyword` finds after the operand that ended at `prev`, with the
   * position its right operand is read from; None when no connective follows.
   */
  ghost function Connective(text: string, skip: set<string>, prev: nat): Option<(CompoundType, nat)>
    requires prev <= |text|
  {
    var at := SkipEndIn(text, skip, prev);
    var k := FirstKeywordIn(text, skip, at, ConjunctionKeys);
    if k < |ConjunctionKeys| then Some((if k < 2 then And else Or, at + |ConjunctionKeys[k]|)) else None
  }

  /**
   * `d` is how `parsePredicate` reads the text from `from` to `till`: operands with
   * connectives between them, as `ConjunctionAt` describes, until no connective follows
   * the last operand; `till` is at most past the skipped characters after it.
   */
  ghost predicate PredicateAt(text: string, skip: set<string>, d: Reading, from: nat, till: nat)
    decreases d, 4
  {
    ConjunctionAt(text, skip, d, from) &&
    var last := d.ends[|d.joins|];
    Connective(text, skip, last).None? && last <= till <= SkipEndIn(text, skip, last) && SkipEndIn(text, skip, till) == SkipEndIn(text, skip, last)
  }

  /**
   * `d` reads the loop of `parseConjunction` so far, from `from` on: the first operand
   * ends at `d.ends[0]`, and each connective follows the operand before it and is
   * followed by an operand that ends at the next of `d.ends`.
   */
  ghost predicate ConjunctionAt(text: string, skip: set<string>, d: Reading, from: nat)
    decreases d, 3
  {
    d.ConjunctionRead? && |d.ends| == |d.joins| + 1 &&
    (forall i :: 0 <= i < |d.ends| ==> d.ends[i] <= |text|) &&
    OperandAt(text, skip, d.first, from, d.ends[0]) &&
    forall i :: 0 <= i < |d.joins| ==> JoinAt(text, skip, d.joins[i], d.ends[i], d.ends[i + 1])
  }

  /** `j` reads the connective after the operand that ended at `prev`, then an operand up to `till`. */
  ghost predicate JoinAt(text: string, skip: set<string>, j: JoinRead, prev: nat, till: nat)
    decreases j, 3
  {
    prev <= |text| &&
    var c := Connective(text, skip, prev);
    c.Some? && c.value.0 == j.kind && OperandAt(text, skip, j.operand, c.value.1, till)
  }

  /** One more round of the loop of `parseConjunction`. */
  lemma ConjunctionExtend(text: string, skip: set<string>, d: Reading, from: nat, kind: CompoundType, operand: Reading, till: nat) returns (e: Reading)
    requires ConjunctionAt(text, skip, d, from) && till <= |text|
    requires JoinAt(text, skip, JoinRead(kind, operand), d.ends[|d.joins|], till)
    ensures e == ConjunctionRead(d.first, d.ends + [till], d.joins + [JoinRead(kind, operand)])
    ensures ConjunctionAt(text, skip, e, from)
  {
    e := ConjunctionRead(d.first, d.ends + [till], d.joins + [JoinRead(kind, operand)]);
    forall i | 0 <= i < |e.joins|
      ensures JoinAt(text, skip, e.joins[i], e.ends[i], e.ends[i + 1])
    {
      if i < |d.joins| {
        assert e.joins[i] == d.joins[i] && e.ends[i] == d.ends[i] && e.ends[i + 1] == d.ends[i + 1];
      } else {
        assert e.joins[i] == JoinRead(kind, operand) && e.ends[i] == d.ends[i] && e.ends[i + 1] == till;
      }
    }
  }

  /**
   * `d` is how `parseNot` reads the text from `from` to `till`: a predicate between
   * parentheses when `(` follows, and otherwise what `UnaryAt` describes.
   */
  ghost predicate OperandAt(text: string, skip: set<string>, d: Reading, from: nat, till: nat)
    decreases d, 2
  {
    from <= till <= |text| &&
    var q := SkipEndIn(text, skip, from);
    if q < |text| && text[q] == '(' then
      d.GroupRead? && d.innerEnd <= |text| && PredicateAt(text, skip, d.inner, q + 1, d.innerEnd) &&
      var close := SkipEndIn(text, skip, d.innerEnd);
      close < |text| && text[close] == ')' && till == close + 1
    else UnaryAt(text, skip, d, q, till)
  }

  /**
   * `d` is how `parseNot` reads the text from `q`, past the skipped characters, when no
   * parenthesis opens there: NOT or ! before an operand, or what `ValueOrComparisonAt`
   * describes.
   */
  ghost predicate UnaryAt(text: string, skip: set<string>, d: Reading, q: nat, till: nat)
    decreases d, 1
  {
    q <= till <= |text| &&
    var n := FirstKeywordIn(text, skip, q, NegationKeys);
    if n < |NegationKeys| then d.NotRead? && OperandAt(text, skip, d.child, q + |NegationKeys[n]|, till)
    else ValueOrComparisonAt(text, skip, d, q, till)
  }

  /** TRUEPREDICATE or FALSEPREDICATE at `q`, and otherwise a comparison. */
  ghost predicate ValueOrComparisonAt(text: string, skip: set<string>, d: Reading, q: nat, till: nat)
  {
    q <= till <= |text| &&
    var v := FirstKeywordIn(text, skip, q, ValueKeys);
    if v < |ValueKeys| then d == ValueRead(v == 0) && till == q + |ValueKeys[v]|
    else d.ComparisonRead? && ComparisonAt(text, skip, d.comparison, d.negated, d.leftFrom, d.opAt, d.optionsAt, d.rightFrom, q, till)
  }

  /** A value keyword read at `q`: its reading, and the constant predicate it builds. */
  lemma ValueReadIntro(text: string, skip: set<string>, v: nat, q: nat, till: nat)
    requires q <= |text| && v == FirstKeywordIn(text, skip, q, ValueKeys) && v < |ValueKeys| && till == q + |ValueKeys[v]|
    ensures ValueOrComparisonAt(text, skip, ValueRead(v == 0), q, till)
    ensures Denotes(ValueRead(v == 0)) == if v == 0 then TruePredicate else FalsePredicate
  {
  }

  /** A comparison read where no value keyword is: its reading, and the comparison it builds. */
  lemma ComparisonReadIntro(text: string, skip: set<string>, d: Reading, q: nat, till: nat)
    requires d.ComparisonRead? && q <= till <= |text| && FirstKeywordIn(text, skip, q, ValueKeys) == |ValueKeys|
    requires ComparisonAt(text, skip, d.comparison, d.negated, d.leftFrom, d.opAt, d.optionsAt, d.rightFrom, q, till)
    ensures ValueOrComparisonAt(text, skip, d, q, till)
    ensures Denotes(d) == if d.negated then NotPredicate(d.comparison) else d.comparison
  {
  }

  /**
   * `c` is the comparison `parseComparison` reads from `q` to `till`: the modifier
   * keyword at `q`, if any, then the left expression from `leftFrom` to `opAt`, the
   * operator and options that `OperatorRead` describes, and the right expression from
   * `rightFrom` up to `till`. `negated` says whether NONE or SOME was read.
   */
  ghost predicate ComparisonAt(text: string, skip: set<string>, c: Predicate, negated: bool, leftFrom: nat, opAt: nat, optionsAt: nat, rightFrom: nat, q: nat, till: nat)
  {
    q <= |text| && leftFrom <= opAt <= till <= |text| &&
    var m := FirstKeywordIn(text, skip, q, ModifierKeys);
    ModifierRead(text, skip, m, q, leftFrom) &&
    negated == Negates(m) && c.Comparison? && c.op.modifier == ModifierOf(m) &&
    ExpressionGrammar.ExpressionRead(text, skip, false, c.left, leftFrom, opAt) &&
    OperatorRead(text, skip, c.op.opType, c.op.options, opAt, optionsAt, rightFrom) &&
    ExpressionGrammar.ExpressionRead(text, skip, false, c.right, rightFrom, till)
  }

  /**
   * The operator of a comparison read after `opAt`: the first entry of the operator
   * table at the next keyword position, then, from `optionsAt` past the skipped
   * characters, the first option suffix that follows up to case, if any; the right
   * expression starts at `rightFrom`.
   */
  ghost predicate OperatorRead(text: string, skip: set<string>, opType: ComparisonType, options: int, opAt: nat, optionsAt: nat, rightFrom: nat)
    requires opAt <= |text|
  {
    var at := SkipEndIn(text, skip, opAt);
    var k := FirstKeywordIn(text, skip, at, OperatorKeys);
    k < |OperatorKeys| && opType == OperatorTypes[k] &&
    optionsAt == SkipEndIn(text, skip, at + |OperatorKeys[k]|) &&
    var j := FirstCaselessAt(text, optionsAt, OptionStrings);
    options == OptionValues[j] && rightFrom == optionsAt + (if j < |OptionStrings| then |OptionStrings[j]| else 0)
  }

  // ---------------------------------------------------------------------------------
  // The parser

  /** A comparison, or the negation of one. */
  predicate IsComparisonForm(p: Predicate) {
    p.Comparison? || (p.Compound? && p.kind == Not && |p.subpredicates| == 1 && p.subpredicates[0].Comparison?)
  }

  /** `parsePredicate`: a conjunction. */
  method ParsePredicate(sc: Scanner) returns (r: Result<Predicate, Error>, ghost d: Reading)
    requires sc.Valid() && sc.HasKeywords()
    modifies sc
    ensures sc.Valid() && sc.Advanced()
    ensures r.Ok? ==> old(sc.pos) < sc.pos && Flat(r.value)
    ensures r.Ok? ==> PredicateAt(sc.text, sc.skip, d, old(sc.pos), sc.pos) && r.value == Denotes(d) && !sc.caseSensitive
    decreases |sc.text| - sc.pos, 6
  {
    r, d := ParseConjunction(sc);
  }

  /**
   * `parseConjunction`: operands separated by AND, &&, OR or ||, combined from the left
   * with no precedence between AND and OR.
   */
  method ParseConjunction(sc: Scanner) returns (r: Result<Predicate, Error>, ghost d: Reading)
    requires sc.Valid() && sc.HasKeywords()
    modifies sc
    ensures sc.Valid() && sc.Advanced()
    ensures r.Ok? ==> old(sc.pos) < sc.pos && Flat(r.value)
    ensures r.Ok? ==> PredicateAt(sc.text, sc.skip, d, old(sc.pos), sc.pos) && r.value == Denotes(d) && !sc.caseSensitive
    decreases |sc.text| - sc.pos, 5
  {
    d := ValueRead(false);
    ghost var from := sc.pos;
    var res;
    ghost var fd;
    res, fd := ParseOperand(sc);
    if res.Err? {
      return Err(res.error), d;
    }
    var l := res.value;
    d := ConjunctionRead(fd, [sc.pos], []);
    DenotesOperand(fd, sc.pos);
    while true
      invariant sc.Valid() && sc.Advanced() && old(sc.pos) < sc.pos
      invariant Flat(l) && l == Denotes(d)
      invariant ConjunctionAt(sc.text, sc.skip, d, from) && d.ends[|d.joins|] == sc.pos
      decreases |sc.text| - sc.pos
    {
      var next;
      ghost var dj;
      next, dj := ParseJoin(sc);
      if next.None? {
        ConjunctionEnd(sc.text, sc.skip, d, from, sc.pos);
        return Ok(l), d;
      }
      if next.value.Err? {
        return Err(next.value.error), d;
      }
      var j := next.value.value;
      CombineIsFlat(j.kind, l, j.operand);
      DenotesJoin(d, JoinRead(j.kind, dj), sc.pos);
      d := ConjunctionExtend(sc.text, sc.skip, d, from, j.kind, dj, sc.pos);
      l := Combine(j.kind, l, j.operand);
    }
  }

  /** The loop of `parseConjunction` ends where no connective follows. */
  lemma ConjunctionEnd(text: string, skip: set<string>, d: Reading, from: nat, till: nat)
    requires ConjunctionAt(text, skip, d, from)
    requires var last := d.ends[|d.joins|];
             Connective(text, skip, last).None? && last <= till <= SkipEndIn(text, skip, last) && SkipEndIn(text, skip, till) == SkipEndIn(text, skip, last)
    ensures PredicateAt(text, skip, d, from, till)
  {
  }

  /** A conjunction reading of one operand builds that operand. */
  lemma DenotesOperand(first: Reading, end: nat)
    ensures Denotes(ConjunctionRead(first, [end], [])) == Denotes(first)
  {
    assert seq(0, i requires 0 <= i < 0 => Join(And, Denotes(first))) == [];
  }

  /** Reading one more connective and operand combines its operand into the fold. */
  lemma DenotesJoin(d: Reading, j: JoinRead, end: nat)
    requires d.ConjunctionRead?
    ensures Denotes(ConjunctionRead(d.first, d.ends + [end], d.joins + [j])) == Combine(j.kind, Denotes(d), Denotes(j.operand))
  {
    var js := seq(|d.joins|, i requires 0 <= i < |d.joins| => Join(d.joins[i].kind, Denotes(d.joins[i].operand)));
    var e := d.joins + [j];
    var es := seq(|e|, i requires 0 <= i < |e| => Join(e[i].kind, Denotes(e[i].operand)));
    assert es == js + [Join(j.kind, Denotes(j.operand))];
    FoldJoinsAppend(Denotes(d.first), js, Join(j.kind, Denotes(j.operand)));
  }

  /**
   * One round of the loop of `parseConjunction`: None when no connective follows,
   * otherwise the connective with the operand after it.
   */
  method ParseJoin(sc: Scanner) returns (next: Option<Result<Join, Error>>, ghost d: Reading)
    requires sc.Valid() && sc.HasKeywords()
    modifies sc
    ensures sc.Valid() && sc.Advanced() && !sc.caseSensitive
    ensures var c := Connective(sc.text, sc.skip, old(sc.pos));
            && (next.None? <==> c.None?)
            && (next.None? ==> sc.pos <= SkipEndIn(sc.text, sc.skip, old(sc.pos)) && SkipEndIn(sc.text, sc.skip, sc.pos) == SkipEndIn(sc.text, sc.skip, old(sc.pos)))
            && (next.Some? && next.value.Ok? ==>
                  c.Some? && next.value.value.kind == c.value.0 &&
                  OperandAt(sc.text, sc.skip, d, c.value.1, sc.pos) && next.value.value.operand == Denotes(d))
    ensures next.Some? && next.value.Ok? ==>
              old(sc.pos) < sc.pos && next.value.value.kind != Not && Flat(next.value.value.operand)
    decreases |sc.text| - sc.pos, 4
  {
    d := ValueRead(false);
    var connective := ParseConnective(sc);
    if connective.None? {
      return None, d;
    }
    var right;
    right, d := ParseOperand(sc);
    if right.Err? {
      return Some(Err(right.error)), d;
    }
    next := Some(Ok(Join(connective.value, right.value)));
  }

  /** An operand of a conjunction, as `parseNot` reads it. */
  method ParseOperand(sc: Scanner) returns (r: Result<Predicate, Error>, ghost d: Reading)
    requires sc.Valid() && sc.HasKeywords()
    modifies sc
    ensures sc.Valid() && sc.Advanced()
    ensures r.Ok? ==> old(sc.pos) < sc.pos && Flat(r.value)
    ensures r.Ok? ==> OperandAt(sc.text, sc.skip, d, old(sc.pos), sc.pos) && r.value == Denotes(d)
    decreases |sc.text| - sc.pos, 3
  {
    r, d := ParseNot(sc);
  }

  /** The `hasKeyword` helper of `parseConjunction`: AND or && for And, OR or || for Or. */
  method ParseConnective(sc: Scanner) returns (t: Option<CompoundType>)
    requires sc.Valid() && sc.HasKeywords()
    modifies sc
    ensures sc.Valid() && sc.Advanced() && !sc.caseSensitive
    ensures var c := Connective(sc.text, sc.skip, old(sc.pos));
            && (t.Some? <==> c.Some?)
            && (t.Some? ==> old(sc.pos) < sc.pos && t.value == c.value.0 && sc.pos == c.value.1)
            && (t.None? ==> sc.pos <= SkipEndIn(sc.text, sc.skip, old(sc.pos)) && SkipEndIn(sc.text, sc.skip, sc.pos) == SkipEndIn(sc.text, sc.skip, old(sc.pos)))
  {
    ghost var from := sc.pos;
    var k := sc.ScanFirstKeyword(ConjunctionKeys);
    assert k == FirstKeywordIn(sc.text, sc.skip, SkipEndIn(sc.text, sc.skip, from), ConjunctionKeys);
    if k == |ConjunctionKeys| {
      return None;
    }
    t := Some(if k < 2 then And else Or);
  }

  /**
   * `parseNot`: a parenthesised predicate, which must be closed; otherwise a negation,
   * a value predicate or a comparison, as `ParseUnary` reads them.
   */
  method ParseNot(sc: Scanner) returns (r: Result<Predicate, Error>, ghost d: Reading)
    requires sc.Valid() && sc.HasKeywords()
    modifies sc
    ensures sc.Valid() && sc.Advanced()
    ensures r.Ok? ==> old(sc.pos) < sc.pos && Flat(r.value)
    ensures r.Ok? ==> OperandAt(sc.text, sc.skip, d, old(sc.pos), sc.pos) && r.value == Denotes(d)
    ensures var q := SkipEndIn(sc.text, sc.skip, old(sc.pos));
            var paren := q < |sc.text| && sc.text[q] == '(';
            var n := FirstKeywordIn(sc.text, sc.skip, q, NegationKeys);
            var v := FirstKeywordIn(sc.text, sc.skip, q, ValueKeys);
            && (!paren && n < |NegationKeys| && r.Ok? ==> r.value.Compound? && r.value.kind == Not)
            && (!paren && n == |NegationKeys| && v < |ValueKeys| ==> r == Ok(if v == 0 then TruePredicate else FalsePredicate))
            && (!paren && n == |NegationKeys| && v == |ValueKeys| && r.Ok? ==> IsComparisonForm(r.value))
    decreases |sc.text| - sc.pos, 2
  {
    ghost var skip := sc.skip;
    ghost var from := sc.pos;
    ghost var q := SkipEndIn(sc.text, skip, sc.pos);
    ExpressionGrammar.CharScanned(sc, q, '(');
    var open := sc.ScanString("(");
    if open.Some? {
      assert q < |sc.text| && sc.text[q] == '(' && sc.pos == q + 1;
      r, d := ParseGroup(sc, from);
    } else {
      r, d := ParseUnary(sc);
      if r.Ok? {
        assert sc.skip == skip && from <= sc.pos && SkipEndIn(sc.text, skip, from) == q;
        UnaryOperand(sc.text, skip, d, from, sc.pos);
      }
    }
  }

  /**
   * The parenthesised branch of `parseNot`, once the `(` found past the skipped
   * characters from `from` is read: a predicate, then a `)`, whose absence is a
   * ValueError.
   */
  method ParseGroup(sc: Scanner, ghost from: nat) returns (r: Result<Predicate, Error>, ghost d: Reading)
    requires sc.Valid() && sc.HasKeywords() && from <= |sc.text|
    requires var q := SkipEndIn(sc.text, sc.skip, from); q < |sc.text| && sc.text[q] == '(' && sc.pos == q + 1
    modifies sc
    ensures sc.Valid() && sc.Advanced()
    ensures r.Ok? ==> Flat(r.value) && OperandAt(sc.text, sc.skip, d, from, sc.pos) && r.value == Denotes(d)
    decreases |sc.text| - sc.pos, 7
  {
    ghost var skip := sc.skip;
    var inner;
    ghost var di;
    inner, di := ParsePredicate(sc);
    ghost var innerEnd := sc.pos;
    d := di;
    if inner.Err? {
      return inner, d;
    }
    assert sc.skip == skip && PredicateAt(sc.text, skip, di, old(sc.pos), innerEnd);
    r, d := CloseGroup(sc, from, inner.value, di);
  }

  /** The `)` that closes the parenthesised predicate `p`, read as `di` up to the cursor. */
  method CloseGroup(sc: Scanner, ghost from: nat, p: Predicate, ghost di: Reading) returns (r: Result<Predicate, Error>, ghost d: Reading)
    requires sc.Valid() && from <= sc.pos
    requires var q := SkipEndIn(sc.text, sc.skip, from);
             q < |sc.text| && sc.text[q] == '(' && PredicateAt(sc.text, sc.skip, di, q + 1, sc.pos)
    requires Flat(p) && p == Denotes(di)
    modifies sc
    ensures sc.Valid() && sc.Advanced()
    ensures r.Ok? ==> Flat(r.value) && OperandAt(sc.text, sc.skip, d, from, sc.pos) && r.value == Denotes(d)
  {
    ghost var skip := sc.skip;
    ghost var q := SkipEndIn(sc.text, skip, from);
    ghost var innerEnd := sc.pos;
    ghost var closeAt := SkipEndIn(sc.text, skip, innerEnd);
    ExpressionGrammar.CharScanned(sc, closeAt, ')');
    var close := sc.ScanString(")");
    d := di;
    if close.None? {
      return Err(ValueError("Missing ) in compound predicate")), d;
    }
    assert sc.skip == skip && closeAt < |sc.text| && sc.text[closeAt] == ')' && sc.pos == closeAt + 1 && from <= closeAt;
    d := GroupRead(di, innerEnd);
    GroupOperand(sc.text, skip, di, innerEnd, from, q, closeAt);
    r := Ok(p);
  }

  /** A parenthesised predicate is an operand that denotes the predicate inside. */
  lemma GroupOperand(text: string, skip: set<string>, di: Reading, innerEnd: nat, from: nat, q: nat, close: nat)
    requires from <= |text| && innerEnd <= |text|
    requires q == SkipEndIn(text, skip, from) && q < |text| && text[q] == '(' && PredicateAt(text, skip, di, q + 1, innerEnd)
    requires close == SkipEndIn(text, skip, innerEnd) && close < |text| && text[close] == ')' && from <= close
    ensures OperandAt(text, skip, GroupRead(di, innerEnd), from, close + 1)
    ensures Denotes(GroupRead(di, innerEnd)) == Denotes(di)
  {
  }

  /** Where no parenthesis opens, an operand is what `UnaryAt` reads. */
  lemma UnaryOperand(text: string, skip: set<string>, d: Reading, from: nat, till: nat)
    requires from <= till <= |text|
    requires var q := SkipEndIn(text, skip, from);
             !(q < |text| && text[q] == '(') && UnaryAt(text, skip, d, q, till)
    ensures OperandAt(text, skip, d, from, till)
  {
  }

  /**
   * The rest of `parseNot`: NOT or ! before a negated operand, then TRUEPREDICATE or
   * FALSEPREDICATE, and otherwise a comparison.
   */
  method ParseUnary(sc: Scanner) returns (r: Result<Predicate, Error>, ghost d: Reading)
    requires sc.Valid() && sc.HasKeywords()
    modifies sc
    ensures sc.Valid() && sc.Advanced()
    ensures r.Ok? ==> old(sc.pos) < sc.pos && Flat(r.value)
    ensures r.Ok? ==> UnaryAt(sc.text, sc.skip, d, SkipEndIn(sc.text, sc.skip, old(sc.pos)), sc.pos) && r.value == Denotes(d)
    ensures var q := SkipEndIn(sc.text, sc.skip, old(sc.pos));
            var n := FirstKeywordIn(sc.text, sc.skip, q, NegationKeys);
            var v := FirstKeywordIn(sc.text, sc.skip, q, ValueKeys);
            && (n < |NegationKeys| && r.Ok? ==> r.value.Compound? && r.value.kind == Not)
            && (n == |NegationKeys| && v < |ValueKeys| ==> r == Ok(if v == 0 then TruePredicate else FalsePredicate))
            && (n == |NegationKeys| && v == |ValueKeys| && r.Ok? ==> IsComparisonForm(r.value))
    decreases |sc.text| - sc.pos, 1
  {
    ghost var skip := sc.skip;
    ghost var from := sc.pos;
    ghost var q := SkipEndIn(sc.text, skip, sc.pos);
    var n := sc.ScanFirstKeyword(NegationKeys);
    assert sc.skip == skip && n == FirstKeywordIn(sc.text, skip, q, NegationKeys);
    if n < |NegationKeys| {
      assert sc.pos == q + |NegationKeys[n]|;
      r, d := ParseNegated(sc, q, n);
    } else {
      assert SkipEndIn(sc.text, skip, sc.pos) == q;
      r, d := ParseValueOrComparison(sc);
    }
    assert sc.skip == skip && from <= sc.pos;
  }

  /** The NOT branch of `parseNot`, once the NOT or ! found at `q` is read. */
  method ParseNegated(sc: Scanner, ghost q: nat, ghost n: nat) returns (r: Result<Predicate, Error>, ghost d: Reading)
    requires sc.Valid() && sc.HasKeywords() && q <= |sc.text|
    requires n == FirstKeywordIn(sc.text, sc.skip, q, NegationKeys) && n < |NegationKeys|
    requires sc.pos == q + |NegationKeys[n]|
    modifies sc
    ensures sc.Valid() && sc.Advanced()
    ensures r.Ok? ==> Flat(r.value) && r.value.Compound? && r.value.kind == Not
    ensures r.Ok? ==> UnaryAt(sc.text, sc.skip, d, q, sc.pos) && r.value == Denotes(d)
    decreases |sc.text| - sc.pos, 3
  {
    ghost var skip := sc.skip;
    var inner;
    ghost var child;
    inner, child := ParseNot(sc);
    assert sc.skip == skip && old(sc.pos) <= sc.pos;
    if inner.Err? {
      return Err(inner.error), child;
    }
    d := NotRead(child);
    NotOperand(sc.text, skip, child, n, q, sc.pos);
    return Ok(NotPredicate(inner.value)), d;
  }

  /** NOT or ! before an operand reads as the negation of that operand. */
  lemma NotOperand(text: string, skip: set<string>, child: Reading, n: nat, q: nat, till: nat)
    requires q <= till <= |text| && n == FirstKeywordIn(text, skip, q, NegationKeys) && n < |NegationKeys|
    requires OperandAt(text, skip, child, q + |NegationKeys[n]|, till)
    ensures UnaryAt(text, skip, NotRead(child), q, till)
    ensures Denotes(NotRead(child)) == NotPredicate(Denotes(child))
  {
  }

  /** The end of `parseNot`: TRUEPREDICATE or FALSEPREDICATE, and otherwise a comparison. */
  method ParseValueOrComparison(sc: Scanner) returns (r: Result<Predicate, Error>, ghost d: Reading)
    requires sc.Valid() && sc.HasKeywords()
    modifies sc
    ensures sc.Valid() && sc.Advanced()
    ensures r.Ok? ==> old(sc.pos) < sc.pos && Flat(r.value)
    ensures r.Ok? ==> ValueOrComparisonAt(sc.text, sc.skip, d, SkipEndIn(sc.text, sc.skip, old(sc.pos)), sc.pos) && r.value == Denotes(d)
    ensures var v := FirstKeywordIn(sc.text, sc.skip, SkipEndIn(sc.text, sc.skip, old(sc.pos)), ValueKeys);
            && (v < |ValueKeys| ==> r == Ok(if v == 0 then TruePredicate else FalsePredicate))
            && (v == |ValueKeys| && r.Ok? ==> IsComparisonForm(r.value))
  {
    ghost var skip := sc.skip;
    ghost var from := sc.pos;
    ghost var q := SkipEndIn(sc.text, skip, sc.pos);
    var v := sc.ScanFirstKeyword(ValueKeys);
    assert sc.skip == skip && v == FirstKeywordIn(sc.text, skip, q, ValueKeys);
    if v < |ValueKeys| {
      d := ValueRead(v == 0);
      assert sc.pos == q + |ValueKeys[v]|;
      ValueReadIntro(sc.text, skip, v, q, sc.pos);
      return Ok(if v == 0 then TruePredicate else FalsePredicate), d;
    }
    assert SkipEndIn(sc.text, skip, sc.pos) == q;
    r, d := ParseComparisonRead(sc);
  }

  /** The comparison branch of `parseValueOrComparison`, taken where no value keyword is. */
  method ParseComparisonRead(sc: Scanner) returns (r: Result<Predicate, Error>, ghost d: Reading)
    requires sc.Valid() && sc.HasKeywords()
    requires FirstKeywordIn(sc.text, sc.skip, SkipEndIn(sc.text, sc.skip, sc.pos), ValueKeys) == |ValueKeys|
    modifies sc
    ensures sc.Valid() && sc.Advanced()
    ensures r.Ok? ==> old(sc.pos) < sc.pos && Flat(r.value) && IsComparisonForm(r.value)
    ensures r.Ok? ==> ValueOrComparisonAt(sc.text, sc.skip, d, SkipEndIn(sc.text, sc.skip, old(sc.pos)), sc.pos) && r.value == Denotes(d)
  {
    ghost var skip := sc.skip;
    ghost var from := sc.pos;
    ghost var q := SkipEndIn(sc.text, skip, sc.pos);
    var cmp;
    ghost var c, leftFrom, opAt, optionsAt, rightFrom;
    cmp, c, leftFrom, opAt, optionsAt, rightFrom := ParseComparison(sc);
    ghost var m := FirstKeywordIn(sc.text, skip, q, ModifierKeys);
    d := ComparisonRead(c, Negates(m), leftFrom, opAt, optionsAt, rightFrom);
    r := cmp;
    if r.Ok? {
      assert sc.skip == skip && from <= sc.pos && SkipEndIn(sc.text, skip, sc.pos) == sc.pos;
      SkipEndInBelow(sc.text, skip, from, sc.pos);
      ComparisonReadIntro(sc.text, skip, d, q, sc.pos);
    }
  }

  /**
   * `parseComparison`: an optional modifier, the left expression, an operator from the
   * table, optional options and the right expression. NONE and SOME wrap the comparison
   * in a negation; an operator missing from the table is a ValueError.
   */
  method ParseComparison(sc: Scanner) returns (r: Result<Predicate, Error>, ghost c: Predicate, ghost leftFrom: nat, ghost opAt: nat, ghost optionsAt: nat, ghost rightFrom: nat)
    requires sc.Valid() && sc.HasKeywords()
    modifies sc
    ensures sc.Valid() && sc.Advanced()
    ensures r.Ok? ==> old(sc.pos) < sc.pos && SkipEndIn(sc.text, sc.skip, sc.pos) == sc.pos
    ensures var q := SkipEndIn(sc.text, sc.skip, old(sc.pos));
            var m := FirstKeywordIn(sc.text, sc.skip, q, ModifierKeys);
            r.Ok? ==> && ComparisonAt(sc.text, sc.skip, c, Negates(m), leftFrom, opAt, optionsAt, rightFrom, q, sc.pos)
                      && c.Comparison? && c.op.modifier == ModifierOf(m) && 0 <= c.op.options <= 3
                      && r.value == (if Negates(m) then NotPredicate(c) else c)
    decreases |sc.text| - sc.pos, 1
  {
    c, leftFrom, opAt, optionsAt, rightFrom := FalsePredicate, 0, 0, 0, 0;
    ghost var q := SkipEndIn(sc.text, sc.skip, sc.pos);
    var m := sc.ScanFirstKeyword(ModifierKeys);
    leftFrom := sc.pos;
    assert ModifierRead(sc.text, sc.skip, m, q, leftFrom);
    var left := ExpressionGrammar.ParseExpression(sc);
    if left.Err? {
      return Err(left.error), c, leftFrom, opAt, optionsAt, rightFrom;
    }
    opAt := sc.pos;
    var operator;
    operator, optionsAt := ParseOperatorAndOptions(sc);
    if operator.Err? {
      return Err(operator.error), c, leftFrom, opAt, optionsAt, rightFrom;
    }
    var (opType, options) := operator.value;
    rightFrom := sc.pos;
    var rightExpression := ExpressionGrammar.ParseExpression(sc);
    if rightExpression.Err? {
      return Err(rightExpression.error), c, leftFrom, opAt, optionsAt, rightFrom;
    }
    var right := rightExpression.value;
    var comparison := Comparison(left.value, right, ComparisonOperator(opType, ModifierOf(m), options));
    c := comparison;
    r := Ok(if Negates(m) then NotPredicate(comparison) else comparison);
  }

  /** The operator and the options of `parseComparison`; the right expression follows them. */
  method ParseOperatorAndOptions(sc: Scanner) returns (r: Result<(ComparisonType, int), Error>, ghost optionsAt: nat)
    requires sc.Valid() && sc.HasKeywords()
    modifies sc
    ensures sc.Valid() && sc.Advanced()
    ensures r.Ok? ==> && old(sc.pos) < sc.pos && 0 <= r.value.1 <= 3
                      && OperatorRead(sc.text, sc.skip, r.value.0, r.value.1, old(sc.pos), optionsAt, sc.pos)
  {
    optionsAt := 0;
    ghost var opAt := sc.pos;
    ghost var skip := sc.skip;
    var opType := ParseOperator(sc);
    assert sc.skip == skip && opAt <= sc.pos && !sc.caseSensitive;
    if opType.Err? {
      return Err(opType.error), optionsAt;
    }
    ghost var at := SkipEndIn(sc.text, sc.skip, opAt);
    ghost var k := FirstKeywordIn(sc.text, sc.skip, at, OperatorKeys);
    ghost var mid := sc.pos;
    assert k < |OperatorKeys| && opType.value == OperatorTypes[k] && mid == at + |OperatorKeys[k]|;
    optionsAt := SkipEndIn(sc.text, skip, mid);
    var options := ParseOptions(sc);
    assert sc.skip == skip && mid <= sc.pos && !sc.caseSensitive;
    ghost var j := FirstCaselessAt(sc.text, optionsAt, OptionStrings);
    assert options == OptionValues[j] && sc.pos == optionsAt + (if j < |OptionStrings| then |OptionStrings[j]| else 0);
    r := Ok((opType.value, options));
    OperatorPieces(sc.text, skip, opType.value, options, opAt, at, k, mid, optionsAt, j, sc.pos);
  }

  /** The pieces `OperatorRead` is made of, put together. */
  lemma OperatorPieces(text: string, skip: set<string>, opType: ComparisonType, options: int, opAt: nat, at: nat, k: nat, mid: nat, optionsAt: nat, j: nat, rightFrom: nat)
    requires opAt <= |text| && at == SkipEndIn(text, skip, opAt)
    requires k == FirstKeywordIn(text, skip, at, OperatorKeys) && k < |OperatorKeys| && opType == OperatorTypes[k]
    requires mid == at + |OperatorKeys[k]| && mid <= |text| && optionsAt == SkipEndIn(text, skip, mid)
    requires j == FirstCaselessAt(text, optionsAt, OptionStrings) && options == OptionValues[j]
    requires rightFrom == optionsAt + (if j < |OptionStrings| then |OptionStrings[j]| else 0)
    ensures OperatorRead(text, skip, opType, options, opAt, optionsAt, rightFrom)
  {
  }

  /** Where the left expression of a comparison starts: after the modifier keyword, or past the skipped characters before `q`. */
  ghost predicate ModifierRead(text: string, skip: set<string>, m: nat, q: nat, leftFrom: nat)
    requires m <= |ModifierKeys| && q <= |text|
  {
    if m < |ModifierKeys| then leftFrom == q + |ModifierKeys[m]| else leftFrom <= q && SkipEndIn(text, skip, leftFrom) == q
  }

  /** The operator of a comparison: the first entry of the table read as a keyword. */
  method ParseOperator(sc: Scanner) returns (r: Result<ComparisonType, Error>)
    requires sc.Valid() && sc.HasKeywords()
    modifies sc
    ensures sc.Valid() && sc.Advanced() && !sc.caseSensitive
    ensures var at := SkipEndIn(sc.text, sc.skip, old(sc.pos));
            var k := FirstKeywordIn(sc.text, sc.skip, at, OperatorKeys);
            && (r.Ok? <==> k < |OperatorKeys|)
            && (r.Ok? ==> r.value == OperatorTypes[k] && sc.pos == at + |OperatorKeys[k]|)
            && (r.Err? ==> r.error.ValueError?)
  {
    var k := sc.ScanFirstKeyword(OperatorKeys);
    if k == |OperatorKeys| {
      return Err(ValueError("Invalid comparison predicate: " + sc.text[sc.pos..]));
    }
    r := Ok(OperatorTypes[k]);
  }

  /** The options of a comparison: the first suffix of the table that follows, or none. */
  method ParseOptions(sc: Scanner) returns (options: int)
    requires sc.Valid()
    modifies sc
    ensures sc.Valid() && sc.Advanced() && sc.caseSensitive == old(sc.caseSensitive)
    ensures var q := SkipEndIn(sc.text, sc.skip, old(sc.pos));
            var k := sc.FirstMatchAt(q, OptionStrings);
            && options == OptionValues[k]
            && sc.pos == q + (if k < |OptionStrings| then |OptionStrings[k]| else 0)
    ensures !sc.caseSensitive ==>
              var q := SkipEndIn(sc.text, sc.skip, old(sc.pos));
              var j := FirstCaselessAt(sc.text, q, OptionStrings);
              && options == OptionValues[j]
              && sc.pos == q + (if j < |OptionStrings| then |OptionStrings[j]| else 0)
    ensures 0 <= options <= 3
  {
    var k := sc.ScanFirstString(OptionStrings);
    options := OptionValues[k];
    if !sc.caseSensitive {
      CaselessScanned(sc, SkipEndIn(sc.text, sc.skip, old(sc.pos)), OptionStrings);
    }
  }
}
