/**
 * Rules and models (python/rules/rules.py): a rule pairs a specifier predicate with a
 * key and a value expression, and its priority comes from the shape of the specifier
 * and its weight.
 */
module Rules {
  import opened Wrappers
  import opened Values
  import opened PredicateTypes
  import opened Expressions
  import opened Predicates

  /** A rule as its constructor leaves it; nothing changes it afterwards. */
  datatype Rule = Rule(specifier: Predicate, key: string, value: Expression, weight: int, priority: int)

  /** The structural score of a specifier. */
  function Score(p: Predicate): (r: nat)
    ensures r >= 1
    ensures p.Comparison? ==> r == 2
    ensures p.ValuePredicate? ==> r == 1
    ensures p.Compound? ==> r > |p.subpredicates|
    decreases p, 1
  {
    match p
    case ValuePredicate(_) => 1
    case Comparison(_, _, _) => 2
    case Compound(_, subpredicates) => 1 + ScoreSum(subpredicates)
  }

  function ScoreSum(ps: seq<Predicate>): (r: nat)
    ensures r >= |ps|
    decreases ps, 0
  {
    if ps == [] then 0 else Score(ps[0]) + ScoreSum(ps[1..])
  }

  /** The scores of two runs of children add up. */
  lemma {:induction false} ScoreSumAppend(a: seq<Predicate>, b: seq<Predicate>)
    ensures ScoreSum(a + b) == ScoreSum(a) + ScoreSum(b)
    decreases |a|
  {
    if a == [] {
      assert a + b == b;
    } else {
      ScoreSumAppend(a[1..], b);
      assert (a + b)[0] == a[0];
      assert (a + b)[1..] == a[1..] + b;
    }
  }

  /** `priority`: the score, plus a thousand per unit of weight. */
  function Priority(specifier: Predicate, weight: int): (r: int)
    ensures weight == 0 ==> r == Score(specifier)
    ensures r - 1000 * weight == Score(specifier)
  {
    var score := Score(specifier);
    if weight != 0 then score + weight * 1000 else score
  }

  /**
   * `Rule(specifier, key, value, weight)`: a missing key raises ValueError; a missing
   * specifier is the true predicate and a missing value the constant None.
   */
  function NewRule(specifier: Option<Predicate>, key: Option<string>, value: Option<Expression>, weight: int): (r: Result<Rule, Error>)
    ensures key.None? <==> r.Err?
    ensures r.Err? ==> r.error.ValueError?
    ensures r.Ok? ==> r.value.key == key.value && r.value.weight == weight
    ensures r.Ok? ==> r.value.specifier == (if specifier.None? then TruePredicate else specifier.value)
    ensures r.Ok? ==> r.value.value == (if value.None? then Constant(VNone) else value.value)
    ensures r.Ok? ==> r.value.priority == Priority(r.value.specifier, weight)
  {
    if key.None? then Err(ValueError("key cannot be None"))
    else
      var p := if specifier.None? then TruePredicate else specifier.value;
      var v := if value.None? then Constant(VNone) else value.value;
      Ok(Rule(p, key.value, v, weight, Priority(p, weight)))
  }

  /** `canFireInContext(context)`: the specifier evaluated against the context. */
  function CanFire(rule: Rule, context: Value): (r: Result<bool, Error>)
    ensures r == Evaluate(rule.specifier, context)
    ensures rule.specifier.ValuePredicate? ==> r == Ok(rule.specifier.value)
  {
    Evaluate(rule.specifier, context)
  }

  /** `fire(context)`: the value expression evaluated against the context. */
  function Fire(rule: Rule, context: Value): (r: Result<Value, Error>)
    ensures r == Eval(rule.value, context)
    ensures rule.value.Constant? ==> r == Ok(rule.value.value)
  {
    Eval(rule.value, context)
  }

  /** A rule built without specifier and value can fire in any context and yields None. */
  lemma DefaultRuleFiresNone(key: string, weight: int, context: Value)
    ensures NewRule(None, Some(key), None, weight).Ok?
    ensures CanFire(NewRule(None, Some(key), None, weight).value, context) == Ok(true)
    ensures Fire(NewRule(None, Some(key), None, weight).value, context) == Ok(VNone)
    ensures NewRule(None, Some(key), None, weight).value.priority == 1 + 1000 * weight
  {
  }

  /** The rich comparisons between rules look at priority only. */
  predicate Less(a: Rule, b: Rule)
    ensures a == b ==> !Less(a, b)
  {
    a.priority < b.priority
  }

  predicate AtMost(a: Rule, b: Rule)
    ensures AtMost(a, b) <==> !Less(b, a)
  {
    a.priority <= b.priority
  }

  predicate Greater(a: Rule, b: Rule)
    ensures Greater(a, b) <==> Less(b, a)
  {
    a.priority > b.priority
  }

  predicate AtLeast(a: Rule, b: Rule)
    ensures AtLeast(a, b) <==> AtMost(b, a)
  {
    a.priority >= b.priority
  }

  /** Any rule built with weight at least one outranks any unweighted rule whose specifier scores below a thousand. */
  lemma WeightDominates(p: Predicate, q: Predicate, weight: int)
    requires weight >= 1 && Score(q) < 1000
    ensures Priority(p, weight) > Priority(q, 0)
  {
  }

  /** A model keeps its rules and a bucket map that nothing fills. */
  datatype Model = Model(rules: Option<seq<Rule>>, buckets: map<string, seq<Rule>>)

  function NewModel(rules: Option<seq<Rule>>): (r: Model)
    ensures r.rules == rules && r.buckets == map[]
  {
    Model(rules, map[])
  }

  /** `candidates(keyPath, context)`: the bucket for the key path, if any. */
  function Candidates(m: Model, keyPath: string, context: Value): (r: Option<seq<Rule>>)
    ensures r.Some? <==> keyPath in m.buckets
  {
    if keyPath in m.buckets then Some(m.buckets[keyPath]) else None
  }

  /** A model as constructed has no candidates for any key. */
  lemma NewModelHasNoCandidates(rules: Option<seq<Rule>>, keyPath: string, context: Value)
    ensures Candidates(NewModel(rules), keyPath, context).None?
  {
  }

  /** `inferrableKeys`: always None. */
  function InferrableKeys(m: Model): (r: Option<set<string>>)
    ensures r.None?
  {
    None
  }

  // The priorities the rule tests expect, for the specifiers their formats parse to.

  function KeyEquals(b: bool): Predicate {
    Comparison(KeyPath("key"), Constant(VBool(b)), ComparisonOperator(EqualTo, Direct, 0))
  }

  lemma PriorityExamples()
    ensures Priority(KeyEquals(true), 0) == 2
    ensures Priority(Compound(And, [KeyEquals(true), KeyEquals(false)]), 0) == 5
    ensures Priority(Compound(Or, [Compound(And, [KeyEquals(true), KeyEquals(false)]), KeyEquals(false)]), 0) == 8
    ensures Priority(TruePredicate, 0) == 1
    ensures Priority(KeyEquals(true), 1) == 1002
    ensures Priority(Compound(And, [KeyEquals(true), KeyEquals(false)]), 2) == 2005
    ensures Priority(Compound(Or, [Compound(And, [KeyEquals(true), KeyEquals(false)]), KeyEquals(false)]), 3) == 3008
    ensures Priority(TruePredicate, 4) == 4001
  {
    var andP := Compound(And, [KeyEquals(true), KeyEquals(false)]);
    assert ScoreSum([KeyEquals(false)]) == 2;
    assert ScoreSum([KeyEquals(true), KeyEquals(false)]) == 4;
    assert Score(andP) == 5;
    assert ScoreSum([andP, KeyEquals(false)]) == 7;
  }
}
