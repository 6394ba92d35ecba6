/**
 * Predicate nodes and their evaluation against an object (python/rules/predicates.py,
 * with the compound operator table of kevi/operators.py).
 */
module Predicates {
  import opened Wrappers
  import opened Values
  import opened PredicateTypes
  import opened Expressions
  import Operators

  datatype Predicate =
    | ValuePredicate(value: bool)
    | Comparison(left: Expression, right: Expression, op: ComparisonOperator)
    | Compound(kind: CompoundType, subpredicates: seq<Predicate>)

  const TruePredicate: Predicate := ValuePredicate(true)
  const FalsePredicate: Predicate := ValuePredicate(false)

  /** `predicateWithValue(v)`: one of the two shared value predicates, by truthiness. */
  function PredicateWithValue(v: Value): (r: Predicate)
    ensures r == TruePredicate || r == FalsePredicate
    ensures r.value == Truthy(v)
  {
    if Truthy(v) then TruePredicate else FalsePredicate
  }

  function AndPredicate(subpredicates: seq<Predicate>): (r: Predicate)
    ensures r.Compound? && r.kind == And && r.subpredicates == subpredicates
  {
    Compound(And, subpredicates)
  }

  function OrPredicate(subpredicates: seq<Predicate>): (r: Predicate)
    ensures r.Compound? && r.kind == Or && r.subpredicates == subpredicates
  {
    Compound(Or, subpredicates)
  }

  function NotPredicate(subpredicate: Predicate): (r: Predicate)
    ensures r.Compound? && r.kind == Not && r.subpredicates == [subpredicate]
  {
    Compound(Not, [subpredicate])
  }

  /** `ComparisonPredicate(left, right)` with the default modifier, type and options. */
  function DefaultComparison(left: Expression, right: Expression): (r: Predicate)
    ensures r.Comparison? && r.op.modifier == Direct && r.op.opType == EqualTo && r.op.options == 0
  {
    Comparison(left, right, ComparisonOperator(EqualTo, Direct, 0))
  }

  /**
   * `evaluateWithObject(obj)`. A comparison evaluates its left and then its right
   * expression and applies its operator. AND is `all` and OR is `any` over the lazily
   * evaluated children; NOT subscripts a generator and raises TypeError.
   */
  function Evaluate(p: Predicate, obj: Value): (r: Result<bool, Error>)
    ensures p.ValuePredicate? ==> r == Ok(p.value)
    ensures p.Compound? && p.kind == Not ==> r == Err(TypeError)
    ensures p.Compound? && p.kind == And && p.subpredicates == [] ==> r == Ok(true)
    ensures p.Compound? && p.kind == Or && p.subpredicates == [] ==> r == Ok(false)
    decreases p, 1
  {
    match p
    case ValuePredicate(v) => Ok(v)
    case Comparison(left, right, op) =>
      var l :- Eval(left, obj);
      var r :- Eval(right, obj);
      Operators.Perform(op, l, r)
    case Compound(kind, subpredicates) =>
      match kind
      case Not => Err(TypeError)
      case And => EvaluateAll(subpredicates, obj)
      case Or => EvaluateAny(subpredicates, obj)
  }

  /** `all(...)`: stops at the first child that is False or raises. */
  function EvaluateAll(ps: seq<Predicate>, obj: Value): Result<bool, Error>
    decreases ps, 0
  {
    if ps == [] then Ok(true)
    else
      var first :- Evaluate(ps[0], obj);
      if !first then Ok(false) else EvaluateAll(ps[1..], obj)
  }

  /** `any(...)`: stops at the first child that is True or raises. */
  function EvaluateAny(ps: seq<Predicate>, obj: Value): Result<bool, Error>
    decreases ps, 0
  {
    if ps == [] then Ok(false)
    else
      var first :- Evaluate(ps[0], obj);
      if first then Ok(true) else EvaluateAny(ps[1..], obj)
  }

  /** The children before position `k` all evaluate to `b`. */
  predicate AllBefore(ps: seq<Predicate>, k: nat, obj: Value, b: bool)
    requires k <= |ps|
  {
    forall j :: 0 <= j < k ==> Evaluate(ps[j], obj) == Ok(b)
  }

  /** The children before `k` evaluate to `b` exactly when the first does and those of the rest before `k - 1` do. */
  lemma AllBeforeShift(ps: seq<Predicate>, k: nat, obj: Value, b: bool)
    requires 1 <= k <= |ps|
    ensures AllBefore(ps, k, obj, b) <==> Evaluate(ps[0], obj) == Ok(b) && AllBefore(ps[1..], k - 1, obj, b)
  {
    assert forall j :: 1 <= j < k ==> ps[j] == ps[1..][j - 1];
  }

  /** AND is True exactly when every child is True. */
  lemma {:induction false} AndIsAll(ps: seq<Predicate>, obj: Value)
    ensures EvaluateAll(ps, obj) == Ok(true) <==> AllBefore(ps, |ps|, obj, true)
    decreases |ps|
  {
    if ps != [] {
      AndIsAll(ps[1..], obj);
      AllBeforeShift(ps, |ps|, obj, true);
    }
  }

  /**
   * The first child that is not True decides AND: False makes it False and an error
   * makes it raise that error, whatever the children after it would do.
   */
  lemma {:induction false} AndStopsAtFirstNotTrue(ps: seq<Predicate>, k: nat, obj: Value)
    requires k < |ps| && AllBefore(ps, k, obj, true) && Evaluate(ps[k], obj) != Ok(true)
    ensures EvaluateAll(ps, obj) == Evaluate(ps[k], obj)
    decreases k
  {
    if k > 0 {
      AllBeforeShift(ps, k, obj, true);
      AndStopsAtFirstNotTrue(ps[1..], k - 1, obj);
    }
  }

  /** OR is False exactly when every child is False. */
  lemma {:induction false} OrIsAny(ps: seq<Predicate>, obj: Value)
    ensures EvaluateAny(ps, obj) == Ok(false) <==> AllBefore(ps, |ps|, obj, false)
    decreases |ps|
  {
    if ps != [] {
      OrIsAny(ps[1..], obj);
      AllBeforeShift(ps, |ps|, obj, false);
    }
  }

  /**
   * The first child that is not False decides OR: True makes it True and an error
   * makes it raise that error, whatever the children after it would do.
   */
  lemma {:induction false} OrStopsAtFirstNotFalse(ps: seq<Predicate>, k: nat, obj: Value)
    requires k < |ps| && AllBefore(ps, k, obj, false) && Evaluate(ps[k], obj) != Ok(false)
    ensures EvaluateAny(ps, obj) == Evaluate(ps[k], obj)
    decreases k
  {
    if k > 0 {
      AllBeforeShift(ps, k, obj, false);
      OrStopsAtFirstNotFalse(ps[1..], k - 1, obj);
    }
  }

  /** NOT raises TypeError whatever its child would evaluate to. */
  lemma NotAlwaysRaises(p: Predicate, obj: Value)
    ensures Evaluate(NotPredicate(p), obj) == Err(TypeError)
  {
  }

  /** A comparison evaluates its left and then its right expression and applies its operator. */
  lemma ComparisonEvaluation(left: Expression, right: Expression, op: ComparisonOperator, obj: Value)
    requires Eval(left, obj).Ok? && Eval(right, obj).Ok?
    ensures Evaluate(Comparison(left, right, op), obj) == Operators.Perform(op, Eval(left, obj).value, Eval(right, obj).value)
  {
  }
}
