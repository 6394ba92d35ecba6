/**
 * The table of built-in functions that function expressions call
 * (kevi/expressions.py, the `_BuiltInFunctions` dictionary). Each entry is a
 * `VFunction(name)`; `Apply` says what calling it with a list of arguments does.
 */
module Builtins {
  import opened Wrappers
  import opened Values
  import Strings
  import Numbers
  import Kvc

  const BuiltinNames: set<string> := {
    "sum:", "count:", "min:", "max:", "average:", "first:", "_index", "last:",
    "fromObject:index:", "add:to:", "replace:from:to:", "from:subtract:", "multiply:by:",
    "divide:by:", "sqrt:", "raise:toPower:", "abs:", "now", "ln:", "exp:", "ceiling:",
    "random:", "modulus:by:", "chs", "valueForKeyPath:"
  }

  /** The table itself, as the dictionary value a function expression's operand evaluates to. */
  const BuiltinTable: Value := VDict(map name | name in BuiltinNames :: VFunction(name))

  /** The number of arguments an entry takes, when it is fixed; calling it with another number raises TypeError. */
  function FixedArity(name: string): Option<nat> {
    match name
    case "count:" => Some(1)
    case "average:" => Some(1)
    case "first:" => Some(1)
    case "last:" => Some(1)
    case "sqrt:" => Some(1)
    case "abs:" => Some(1)
    case "ln:" => Some(1)
    case "exp:" => Some(1)
    case "ceiling:" => Some(1)
    case "random:" => Some(1)
    case "chs" => Some(1)
    case "_index" => Some(2)
    case "fromObject:index:" => Some(2)
    case "add:to:" => Some(2)
    case "from:subtract:" => Some(2)
    case "multiply:by:" => Some(2)
    case "divide:by:" => Some(2)
    case "raise:toPower:" => Some(2)
    case "modulus:by:" => Some(2)
    case "valueForKeyPath:" => Some(2)
    case "replace:from:to:" => Some(3)
    case _ => None
  }

  /** `start + items[0] + items[1] + ...`, as `sum` adds them, left to right. */
  function SumFrom(items: seq<Value>, start: Value): Result<Value, Error>
    decreases |items|
  {
    if items == [] then Ok(start)
    else
      var next :- Add(start, items[0]);
      SumFrom(items[1..], next)
  }

  /** Reference definition: the arithmetic sum of integer values. */
  function IntegerSum(items: seq<Value>): int
    requires forall k :: 0 <= k < |items| ==> IsInteger(items[k])
  {
    if items == [] then 0 else IntegerValue(items[0]) + IntegerSum(items[1..])
  }

  /** `sum` over integers (and booleans) is their arithmetic sum. */
  lemma {:induction false} SumOfIntegers(items: seq<Value>, start: int)
    requires forall k :: 0 <= k < |items| ==> IsInteger(items[k])
    ensures SumFrom(items, VInt(start)) == Ok(VInt(start + IntegerSum(items)))
    decreases |items|
  {
    if items != [] {
      SumOfIntegers(items[1..], start + IntegerValue(items[0]));
    }
  }

  /** `sum` fails as soon as one addition fails: a string among numbers raises TypeError. */
  lemma SumOfStringFails(s: string, start: int)
    ensures SumFrom([VStr(s)], VInt(start)) == Err(TypeError)
  {
  }

  /** `sum(iterable[, start])`. */
  function Sum(args: seq<Value>): (r: Result<Value, Error>)
    ensures !(1 <= |args| <= 2) ==> r == Err(TypeError)
    ensures |args| == 2 && args[1].VStr? ==> r == Err(TypeError)
  {
    if !(1 <= |args| <= 2) then Err(TypeError)
    else if |args| == 2 && args[1].VStr? then Err(TypeError)
    else
      var items :- Iterate(args[0]);
      SumFrom(items, if |args| == 2 then args[1] else VInt(0))
  }

  /**
   * The running extreme of `best` and `items`: an item replaces it when it is
   * strictly smaller (`min`) or strictly greater (`max`), so the first of equal
   * extremes is kept.
   */
  function Extreme(items: seq<Value>, best: Value, greatest: bool): Result<Value, Error>
    decreases |items|
  {
    if items == [] then Ok(best)
    else
      var better :- if greatest then CompareGreater(items[0], best, false) else Compare(items[0], best, false);
      Extreme(items[1..], if better then items[0] else best, greatest)
  }

  /** On numbers, the extreme is one of the values and bounds all of them. */
  lemma {:induction false} ExtremeOfNumbers(items: seq<Value>, best: Value, greatest: bool)
    requires IsNumber(best) && forall k :: 0 <= k < |items| ==> IsNumber(items[k])
    ensures Extreme(items, best, greatest).Ok?
    ensures var m := Extreme(items, best, greatest).value;
            (m == best || m in items) && IsNumber(m) &&
            (if greatest then NumberValue(best) <= NumberValue(m) else NumberValue(m) <= NumberValue(best)) &&
            forall k :: 0 <= k < |items| ==>
              if greatest then NumberValue(items[k]) <= NumberValue(m) else NumberValue(m) <= NumberValue(items[k])
    decreases |items|
  {
    if items != [] {
      var next := if (if greatest then NumberValue(items[0]) > NumberValue(best) else NumberValue(items[0]) < NumberValue(best))
                  then items[0] else best;
      ExtremeOfNumbers(items[1..], next, greatest);
      var m := Extreme(items, best, greatest).value;
      assert m == Extreme(items[1..], next, greatest).value;
      assert forall k :: 1 <= k < |items| ==> items[k] == items[1..][k - 1];
    }
  }

  /** `min(...)` / `max(...)`: of one iterable argument, or of two or more arguments. */
  function MinMax(args: seq<Value>, greatest: bool): (r: Result<Value, Error>)
    ensures args == [] ==> r == Err(TypeError)
    ensures |args| == 1 && args[0] == VList([]) ==> r.Err? && r.error.ValueError?
  {
    if args == [] then Err(TypeError)
    else
      var items :- if |args| == 1 then Iterate(args[0]) else Ok(args);
      if items == [] then Err(ValueError(if greatest then "max() arg is an empty sequence" else "min() arg is an empty sequence"))
      else Extreme(items[1..], items[0], greatest)
  }

  /** `min` of a non-empty list of numbers is an element no greater than any element. */
  lemma MinOfNumbers(items: seq<Value>)
    requires items != [] && forall k :: 0 <= k < |items| ==> IsNumber(items[k])
    ensures var r := MinMax([VList(items)], false);
            r.Ok? && r.value in items && forall k :: 0 <= k < |items| ==> NumberValue(r.value) <= NumberValue(items[k])
  {
    ExtremeOfNumbers(items[1..], items[0], false);
    assert forall k :: 1 <= k < |items| ==> items[k] == items[1..][k - 1];
  }

  /** `max` of a non-empty list of numbers is an element no smaller than any element. */
  lemma MaxOfNumbers(items: seq<Value>)
    requires items != [] && forall k :: 0 <= k < |items| ==> IsNumber(items[k])
    ensures var r := MinMax([VList(items)], true);
            r.Ok? && r.value in items && forall k :: 0 <= k < |items| ==> NumberValue(items[k]) <= NumberValue(r.value)
  {
    ExtremeOfNumbers(items[1..], items[0], true);
    assert forall k :: 1 <= k < |items| ==> items[k] == items[1..][k - 1];
  }

  /** Python's `int(x)` of a float: the integer part, rounding towards zero. */
  function Truncate(x: real): (r: int)
    ensures x >= 0.0 ==> r as real <= x < r as real + 1.0
    ensures x < 0.0 ==> r as real - 1.0 < x <= r as real
  {
    if x >= 0.0 then x.Floor else -((-x).Floor)
  }

  /** Python's `int(v)` on the modelled values. */
  function ToInt(v: Value): (r: Result<int, Error>)
    ensures IsInteger(v) ==> r == Ok(IntegerValue(v))
    ensures v.VStr? ==> (r.Ok? <==> Numbers.PyInt(v.s).Some?)
    ensures !(IsNumber(v) || v.VStr?) ==> r == Err(TypeError)
  {
    match v
    case VBool(_) => Ok(IntegerValue(v))
    case VInt(i) => Ok(i)
    case VFloat(x) => Ok(Truncate(x))
    case VStr(s) =>
      (match Numbers.PyInt(s)
       case Some(i) => Ok(i)
       case None => Err(ValueError("invalid literal for int()")))
    case _ => Err(TypeError)
  }

  /** `math.fabs(x)`: the magnitude, as a float. */
  function FAbs(v: Value): (r: Result<Value, Error>)
    ensures IsNumber(v) <==> r.Ok?
    ensures r.Ok? ==> r.value.VFloat? && r.value.r >= 0.0 &&
                      (r.value.r == NumberValue(v) || r.value.r == -NumberValue(v))
  {
    if !IsNumber(v) then Err(TypeError)
    else if NumberValue(v) < 0.0 then Ok(VFloat(-NumberValue(v)))
    else Ok(VFloat(NumberValue(v)))
  }

  /** `math.ceil(x)`: the least integer not below `x`. */
  function Ceiling(v: Value): (r: Result<Value, Error>)
    ensures IsNumber(v) <==> r.Ok?
    ensures r.Ok? ==> r.value.VInt? && NumberValue(v) <= r.value.i as real < NumberValue(v) + 1.0
  {
    if !IsNumber(v) then Err(TypeError)
    else
      var x := NumberValue(v);
      Ok(VInt(if x.Floor as real == x then x.Floor else x.Floor + 1))
  }

  /** `a_str.replace(x, y)`: only a string has the method; its arguments must be strings. */
  function ReplaceIn(target: Value, x: Value, y: Value): (r: Result<Value, Error>)
    ensures !target.VStr? ==> r == Err(AttributeError)
    ensures target.VStr? && !(x.VStr? && y.VStr?) ==> r == Err(TypeError)
    ensures target.VStr? && x.VStr? && y.VStr? && x.s == y.s ==> r == Ok(target)
  {
    if !target.VStr? then Err(AttributeError)
    else if !(x.VStr? && y.VStr?) then Err(TypeError)
    else Ok(VStr(Strings.Replace(target.s, x.s, y.s)))
  }

  /** `kvc.valueForKeyPath(object, keyPath)`: the key path must be a string (`find` is a string method). */
  function KeyPathLookup(obj: Value, keyPath: Value): (r: Result<Value, Error>)
    ensures !keyPath.VStr? ==> r == Err(AttributeError)
    ensures keyPath.VStr? ==> r == Kvc.ValueForKeys(obj, Strings.Split(keyPath.s, '.'))
  {
    if !keyPath.VStr? then Err(AttributeError)
    else
      Kvc.ValueForKeyPathFollowsKeys(obj, keyPath.s);
      Kvc.ValueForKeyPath(obj, keyPath.s)
  }

  /** `sum(v) / len(v)`. */
  function Average(v: Value): (r: Result<Value, Error>)
    ensures r.Ok? ==> Length(v).Ok? && Length(v).value > 0
    ensures v == VList([]) ==> r == Err(ZeroDivisionError)
  {
    var total :- Sum([v]);
    var n :- Length(v);
    Divide(total, VInt(n))
  }

  /** Calling the table entry `name` with `args`. */
  function Apply(name: string, args: seq<Value>): (r: Result<Value, Error>)
    ensures FixedArity(name).Some? && |args| != FixedArity(name).value ==> r == Err(TypeError)
    ensures name !in BuiltinNames ==> r.Err? && r.error.NotModelled?
  {
    if FixedArity(name).Some? && |args| != FixedArity(name).value then Err(TypeError)
    else
      match name
      case "sum:" => Sum(args)
      case "count:" =>
        var n :- Length(args[0]);
        Ok(VInt(n))
      case "min:" => MinMax(args, false)
      case "max:" => MinMax(args, true)
      case "average:" => Average(args[0])
      case "first:" => Subscript(args[0], VInt(0))
      case "last:" => Subscript(args[0], VInt(-1))
      case "_index" =>
        var i :- ToInt(args[1]);
        Subscript(args[0], VInt(i))
      case "fromObject:index:" => Subscript(args[0], args[1])
      case "add:to:" => Add(args[0], args[1])
      case "replace:from:to:" => ReplaceIn(args[0], args[1], args[2])
      case "from:subtract:" => Subtract(args[0], args[1])
      case "multiply:by:" => Multiply(args[0], args[1])
      case "divide:by:" => Divide(args[0], args[1])
      case "modulus:by:" => Modulo(args[0], args[1])
      case "chs" => Negate(args[0])
      case "abs:" => FAbs(args[0])
      case "ceiling:" => Ceiling(args[0])
      case "valueForKeyPath:" => KeyPathLookup(args[0], args[1])
      case "sqrt:" =>
        if !IsNumber(args[0]) then Err(TypeError)
        else if NumberValue(args[0]) < 0.0 then Err(ValueError("math domain error"))
        else Err(NotModelled("floating-point square root"))
      case "ln:" =>
        if !IsNumber(args[0]) then Err(TypeError)
        else if NumberValue(args[0]) <= 0.0 then Err(ValueError("math domain error"))
        else Err(NotModelled("floating-point logarithm"))
      case "exp:" =>
        if !IsNumber(args[0]) then Err(TypeError) else Err(NotModelled("floating-point exponential"))
      case "raise:toPower:" =>
        if !IsNumber(args[0]) || !IsNumber(args[1]) then Err(TypeError) else Err(NotModelled("floating-point power"))
      case "now" => Err(NotModelled("a host callable (the uncalled datetime.datetime.now)"))
      case "random:" => Err(NotModelled("random numbers"))
      case _ => Err(NotModelled("a callable outside the built-in table"))
  }

  /** `first:` and `last:` pick the two ends of a non-empty list. */
  lemma FirstAndLast(items: seq<Value>)
    requires items != []
    ensures Apply("first:", [VList(items)]) == Ok(items[0])
    ensures Apply("last:", [VList(items)]) == Ok(items[|items| - 1])
  {
  }

  /** `_index` converts its index the way `int()` does: a float is truncated, a numeric string parsed. */
  lemma IndexConvertsWithInt(items: seq<Value>, index: Value)
    requires ToInt(index).Ok? && Position(ToInt(index).value, |items|).Some?
    ensures Apply("_index", [VList(items), index]) == Ok(items[Position(ToInt(index).value, |items|).value])
  {
    var i := ToInt(index).value;
    assert Subscript(VList(items), VInt(i)) == Ok(items[Position(i, |items|).value]);
  }

  lemma IndexExamples()
    ensures Apply("_index", [VList([VStr("a"), VStr("b"), VStr("c")]), VFloat(1.5)]) == Ok(VStr("b"))
    ensures Apply("_index", [VList([VStr("a"), VStr("b"), VStr("c")]), VFloat(-1.5)]) == Ok(VStr("c"))
    ensures Apply("_index", [VList([VStr("a")]), VNone]) == Err(TypeError)
  {
    assert Truncate(1.5) == 1;
    assert Truncate(-1.5) == -1;
  }

  /** `average:` of integers is their sum divided by their number; of nothing, a ZeroDivisionError. */
  lemma AverageOfIntegers(items: seq<Value>)
    requires forall k :: 0 <= k < |items| ==> IsInteger(items[k])
    ensures items != [] ==> Average(VList(items)) == Ok(VFloat(IntegerSum(items) as real / |items| as real))
    ensures items == [] ==> Average(VList(items)) == Err(ZeroDivisionError)
  {
    SumOfIntegers(items, 0);
    assert Sum([VList(items)]) == SumFrom(items, VInt(0));
  }

  lemma SumExamples()
    ensures Apply("sum:", [VList([VInt(1), VInt(2), VInt(3)])]) == Ok(VInt(6))
    ensures Apply("sum:", [VList([VInt(1), VInt(2)]), VInt(10)]) == Ok(VInt(13))
    ensures Apply("sum:", [VList([VStr("a")]), VStr("")]) == Err(TypeError)
  {
    SumOfIntegers([VInt(1), VInt(2), VInt(3)], 0);
    SumOfIntegers([VInt(1), VInt(2)], 10);
  }
}
