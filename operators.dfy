/**
 * The comparison operator table of kevi/operators.py: what each comparison type does
 * with the left and right values. The modifier and options are carried by the
 * operator but never consulted.
 */
module Operators {
  import opened Wrappers
  import opened Values
  import opened PredicateTypes
  import Strings

  /**
   * `performOperationUsingObjects(l, r)`. LIKE and SEL have no function in the table,
   * so calling it raises TypeError; ENDSWITH calls a string method that does not exist.
   */
  function Perform(op: ComparisonOperator, l: Value, r: Value): (res: Result<bool, Error>)
    ensures op.opType == EqualTo ==> res == Ok(Eq(l, r))
    ensures op.opType == NotEqualTo ==> res == Ok(!Eq(l, r))
    ensures op.opType == LessThan ==> res == Compare(l, r, false)
    ensures op.opType == LessThanOrEqual ==> res == Compare(l, r, true)
    ensures op.opType == GreaterThan ==> res == Compare(r, l, false)
    ensures op.opType == GreaterThanOrEqual ==> res == Compare(r, l, true)
    ensures op.opType == BeginsWith && !Truthy(l) ==> res == Ok(false)
    ensures op.opType == BeginsWith && Truthy(l) && l.VStr? && r.VStr? ==> res == Ok(Strings.StartsWith(l.s, r.s))
    ensures op.opType == EndsWith ==> res == (if Truthy(l) then Err(AttributeError) else Ok(false))
    ensures op.opType == In ==> res == (if Truthy(r) then Values.Contains(r, l) else Ok(false))
    ensures op.opType == Contains ==> res == (if Truthy(l) then Values.Contains(l, r) else Ok(false))
    ensures op.opType == Like || op.opType == CustomSelector ==> res == Err(TypeError)
  {
    match op.opType
    case LessThan => Compare(l, r, false)
    case LessThanOrEqual => Compare(l, r, true)
    case GreaterThan => CompareGreater(l, r, false)
    case GreaterThanOrEqual => CompareGreater(l, r, true)
    case EqualTo => Ok(Eq(l, r))
    case NotEqualTo => Ok(!Eq(l, r))
    case Matches =>
      if l.VStr? && r.VStr? then Err(NotModelled("regular expressions")) else Err(TypeError)
    case Like => Err(TypeError)
    case BeginsWith =>
      if !Truthy(l) then Ok(false)
      else if !l.VStr? then Err(AttributeError)
      else if !r.VStr? then Err(TypeError)
      else Ok(Strings.StartsWith(l.s, r.s))
    case EndsWith => if Truthy(l) then Err(AttributeError) else Ok(false)
    case In => if Truthy(r) then Values.Contains(r, l) else Ok(false)
    case CustomSelector => Err(TypeError)
    case Contains => if Truthy(l) then Values.Contains(l, r) else Ok(false)
    case Between =>
      // the chained comparison r[0] < l < r[1] stops after a first comparison that is False
      var low :- Subscript(r, VInt(0));
      var above :- Compare(low, l, false);
      if !above then Ok(false)
      else
        var high :- Subscript(r, VInt(1));
        Compare(l, high, false)
  }

  /** Only the operator type decides the outcome. */
  lemma ModifierAndOptionsAreIgnored(t: ComparisonType, m1: Modifier, o1: int, m2: Modifier, o2: int, l: Value, r: Value)
    ensures Perform(ComparisonOperator(t, m1, o1), l, r) == Perform(ComparisonOperator(t, m2, o2), l, r)
  {
  }

  /** `>` and `>=` are `<` and `<=` with the operands swapped. */
  lemma GreaterIsSwappedLess(m: Modifier, o: int, l: Value, r: Value)
    ensures Perform(ComparisonOperator(GreaterThan, m, o), l, r) == Perform(ComparisonOperator(LessThan, m, o), r, l)
    ensures Perform(ComparisonOperator(GreaterThanOrEqual, m, o), l, r) == Perform(ComparisonOperator(LessThanOrEqual, m, o), r, l)
  {
  }

  /** CONTAINS is IN with the operands swapped, whenever both sides are truthy. */
  lemma ContainsIsSwappedIn(m: Modifier, o: int, l: Value, r: Value)
    requires Truthy(l) && Truthy(r)
    ensures Perform(ComparisonOperator(Contains, m, o), l, r) == Perform(ComparisonOperator(In, m, o), r, l)
  {
  }

  /** `==` and `!=` always answer, and answer oppositely. */
  lemma EqualAndNotEqualDisagree(m: Modifier, o: int, l: Value, r: Value)
    ensures Perform(ComparisonOperator(EqualTo, m, o), l, r).Ok?
    ensures Perform(ComparisonOperator(NotEqualTo, m, o), l, r).Ok?
    ensures Perform(ComparisonOperator(EqualTo, m, o), l, r).value != Perform(ComparisonOperator(NotEqualTo, m, o), l, r).value
  {
  }

  /** On numbers, BETWEEN is the strict test low < l < high. */
  lemma BetweenIsStrict(m: Modifier, o: int, l: Value, low: Value, high: Value)
    requires IsNumber(l) && IsNumber(low) && IsNumber(high)
    ensures Perform(ComparisonOperator(Between, m, o), l, VList([low, high])) ==
            Ok(NumberValue(low) < NumberValue(l) < NumberValue(high))
  {
    assert Subscript(VList([low, high]), VInt(0)) == Ok(low);
    assert Subscript(VList([low, high]), VInt(1)) == Ok(high);
  }

  /** BETWEEN does not look at the upper bound once the lower one fails. */
  lemma BetweenStopsAtLowerBound(m: Modifier, o: int, l: Value, low: Value)
    requires IsNumber(l) && IsNumber(low) && NumberValue(l) <= NumberValue(low)
    ensures Perform(ComparisonOperator(Between, m, o), l, VList([low])) == Ok(false)
  {
    assert Subscript(VList([low]), VInt(0)) == Ok(low);
  }

  /** IN on a list is membership under `==`. */
  lemma InIsListMembership(m: Modifier, o: int, l: Value, items: seq<Value>)
    ensures Perform(ComparisonOperator(In, m, o), l, VList(items)) ==
            Ok(exists k :: 0 <= k < |items| && Eq(items[k], l))
  {
  }
}
