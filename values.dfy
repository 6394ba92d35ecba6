/**
 * The host values rules evaluate against, and the Python operators the
 * expression and predicate evaluators apply to them: truthiness, `==`,
 * ordering, `in`, subscripts, arithmetic and the set methods.
 */
module Values {
  import opened Wrappers
  import Strings

  datatype Value =
    | VNone
    | VBool(b: bool)
    | VInt(i: int)
    | VFloat(r: real)               // a Python float, as an exact rational
    | VStr(s: string)
    | VList(items: seq<Value>)
    | VDict(entries: map<string, Value>)
    | VSet(elems: set<Value>)
    | VFunction(name: string)       // the entry `name` of the built-in function table
    | VPathUtilities                // the pathutils module

  /** The Python exceptions the core raises. */
  datatype Error =
    | ValueError(message: string)
    | TypeError
    | KeyError
    | IndexError
    | AttributeError
    | NameError
    | UnboundLocalError
    | ZeroDivisionError
    | RecursionError
    | NotModelled(what: string)     // behaviour that depends on something outside this model

  predicate IsNumber(v: Value) {
    v.VBool? || v.VInt? || v.VFloat?
  }

  /** `bool` is a subclass of `int` in Python. */
  predicate IsInteger(v: Value) {
    v.VBool? || v.VInt?
  }

  function IntegerValue(v: Value): int
    requires IsInteger(v)
  {
    if v.VBool? then (if v.b then 1 else 0) else v.i
  }

  function NumberValue(v: Value): real
    requires IsNumber(v)
  {
    if v.VFloat? then v.r else IntegerValue(v) as real
  }

  /** Python's `bool(v)`: numbers are true when non-zero, and sized values when non-empty. */
  predicate Truthy(v: Value)
    ensures IsNumber(v) ==> (Truthy(v) <==> NumberValue(v) != 0.0)
    ensures Length(v).Ok? ==> (Truthy(v) <==> Length(v).value != 0)
  {
    match v
    case VNone => false
    case VBool(b) => b
    case VInt(i) => i != 0
    case VFloat(r) => r != 0.0
    case VStr(s) => s != ""
    case VList(items) => items != []
    case VDict(entries) => entries != map[]
    case VSet(elems) => elems != {}
    case VFunction(_) => true
    case VPathUtilities => true
  }

  predicate Hashable(v: Value) {
    !(v.VList? || v.VDict? || v.VSet?)
  }

  /**
   * The representative of `v` under Python's `==`: numbers of the three numeric
   * types that are numerically equal become the same value.
   */
  function Norm(v: Value): (r: Value)
    ensures IsNumber(v) <==> r.VFloat?
  {
    match v
    case VBool(_) => VFloat(NumberValue(v))
    case VInt(_) => VFloat(NumberValue(v))
    case VList(items) => VList(seq(|items|, k requires 0 <= k < |items| => Norm(items[k])))
    case VDict(entries) => VDict(map key | key in entries :: Norm(entries[key]))
    case VSet(elems) => VSet(set x | x in elems :: Norm(x))
    case _ => v
  }

  /** Python's `a == b`. */
  predicate Eq(a: Value, b: Value) {
    Norm(a) == Norm(b)
  }

  lemma EqIsNumericForNumbers(a: Value, b: Value)
    requires IsNumber(a) && IsNumber(b)
    ensures Eq(a, b) <==> NumberValue(a) == NumberValue(b)
  {
  }

  /** Lexicographic comparison of strings by code point (`<`, or `<=` when `orEqual`). */
  function StrCompare(s: string, t: string, orEqual: bool): bool {
    if s == "" || t == "" then (if orEqual then |s| <= |t| else |s| < |t|)
    else if s[0] != t[0] then s[0] < t[0]
    else StrCompare(s[1..], t[1..], orEqual)
  }

  /** Every element of `a` equals some element of `b`. */
  predicate SubsetEq(a: set<Value>, b: set<Value>) {
    forall x :: x in a ==> exists y :: y in b && Eq(x, y)
  }

  /**
   * Python's `a < b` (or `a <= b` when `orEqual`) on the modelled types: numbers
   * numerically, strings and lists lexicographically, sets by inclusion; any other
   * pairing raises TypeError.
   */
  function Compare(a: Value, b: Value, orEqual: bool): (r: Result<bool, Error>)
    ensures (IsNumber(a) && IsNumber(b)) ==>
              r == Ok(if orEqual then NumberValue(a) <= NumberValue(b) else NumberValue(a) < NumberValue(b))
    ensures !(IsNumber(a) && IsNumber(b)) && !(a.VStr? && b.VStr?) && !(a.VList? && b.VList?) && !(a.VSet? && b.VSet?) ==>
              r == Err(TypeError)
    decreases a
  {
    if IsNumber(a) && IsNumber(b) then
      Ok(if orEqual then NumberValue(a) <= NumberValue(b) else NumberValue(a) < NumberValue(b))
    else if a.VStr? && b.VStr? then Ok(StrCompare(a.s, b.s, orEqual))
    else if a.VList? && b.VList? then ListCompare(a.items, b.items, orEqual)
    else if a.VSet? && b.VSet? then
      Ok(SubsetEq(a.elems, b.elems) && (orEqual || !SubsetEq(b.elems, a.elems)))
    else Err(TypeError)
  }

  /** Lists: the first pair of elements that differ decides; otherwise the lengths do. */
  function ListCompare(xs: seq<Value>, ys: seq<Value>, orEqual: bool): Result<bool, Error>
    decreases xs
  {
    if xs == [] || ys == [] then Ok(if orEqual then |xs| <= |ys| else |xs| < |ys|)
    else if Eq(xs[0], ys[0]) then ListCompare(xs[1..], ys[1..], orEqual)
    else Compare(xs[0], ys[0], orEqual)
  }

  /** Python's `a > b` (or `a >= b`): the reflected comparison. */
  function CompareGreater(a: Value, b: Value, orEqual: bool): Result<bool, Error> {
    Compare(b, a, orEqual)
  }

  /** Python's `item in container`. */
  function Contains(container: Value, item: Value): (r: Result<bool, Error>)
    ensures container.VList? ==> r == Ok(exists k :: 0 <= k < |container.items| && Eq(container.items[k], item))
    ensures container.VStr? && !item.VStr? ==> r == Err(TypeError)
    ensures (container.VDict? || container.VSet?) && !Hashable(item) ==> r == Err(TypeError)
  {
    match container
    case VList(items) => Ok(exists k :: 0 <= k < |items| && Eq(items[k], item))
    case VStr(s) => if item.VStr? then Ok(Strings.FindSub(s, item.s) >= 0) else Err(TypeError)
    case VDict(entries) =>
      if !Hashable(item) then Err(TypeError) else Ok(item.VStr? && item.s in entries)
    case VSet(elems) =>
      if !Hashable(item) then Err(TypeError) else Ok(exists x :: x in elems && Eq(x, item))
    case _ => Err(TypeError)
  }

  /** The position a possibly negative index stands for in a sequence of length `n`, if any. */
  function Position(index: int, n: nat): (r: Option<nat>)
    ensures r.Some? ==> r.value < n && (r.value == index || r.value == index + n)
    ensures r.None? <==> (index >= n || index < -(n as int))
  {
    if 0 <= index < n then Some(index) else if -(n as int) <= index < 0 then Some(index + n) else None
  }

  /** Python's `obj[index]`. */
  function Subscript(obj: Value, index: Value): (r: Result<Value, Error>)
    ensures obj.VList? && IsInteger(index) ==>
              match Position(IntegerValue(index), |obj.items|)
              case Some(k) => r == Ok(obj.items[k])
              case None => r == Err(IndexError)
    ensures obj.VDict? && index.VStr? ==>
              r == (if index.s in obj.entries then Ok(obj.entries[index.s]) else Err(KeyError))
    ensures !(obj.VList? || obj.VStr? || obj.VDict?) ==> r == Err(TypeError)
  {
    match obj
    case VList(items) =>
      if !IsInteger(index) then Err(TypeError)
      else if Position(IntegerValue(index), |items|).None? then Err(IndexError)
      else Ok(items[Position(IntegerValue(index), |items|).value])
    case VStr(s) =>
      if !IsInteger(index) then Err(TypeError)
      else if Position(IntegerValue(index), |s|).None? then Err(IndexError)
      else Ok(VStr([s[Position(IntegerValue(index), |s|).value]]))
    case VDict(entries) =>
      if !Hashable(index) then Err(TypeError)
      else if index.VStr? && index.s in entries then Ok(entries[index.s])
      else Err(KeyError)
    case _ => Err(TypeError)
  }

  /** Python's `len(v)`. */
  function Length(v: Value): (r: Result<nat, Error>)
    ensures r.Ok? <==> (v.VStr? || v.VList? || v.VDict? || v.VSet?)
  {
    match v
    case VStr(s) => Ok(|s|)
    case VList(items) => Ok(|items|)
    case VDict(entries) => Ok(|entries|)
    case VSet(elems) => Ok(|elems|)
    case _ => Err(TypeError)
  }

  /**
   * Iterating over `v` in order. A dict or set that is not empty has an iteration
   * order that depends on hashing and insertion history, which is not modelled.
   */
  function Iterate(v: Value): (r: Result<seq<Value>, Error>)
    ensures v.VList? ==> r == Ok(v.items)
    ensures v.VStr? ==> r.Ok? && |r.value| == |v.s|
  {
    match v
    case VList(items) => Ok(items)
    case VStr(s) => Ok(seq(|s|, k requires 0 <= k < |s| => VStr([s[k]])))
    case VDict(entries) => if entries == map[] then Ok([]) else Err(NotModelled("dict iteration order"))
    case VSet(elems) => if elems == {} then Ok([]) else Err(NotModelled("set iteration order"))
    case _ => Err(TypeError)
  }

  predicate HasEqual(x: Value, s: set<Value>) {
    exists y :: y in s && Eq(x, y)
  }

  /** No two different elements of `s` are `==`, as in a set Python builds. */
  predicate NoTwoEqual(s: set<Value>) {
    forall x, y :: x in s && y in s && Eq(x, y) ==> x == y
  }

  /**
   * The set `set(items)` builds: each item in turn is added unless an `==`-equal
   * one is already there, so the first of equal items is the one kept.
   */
  function SetOfItems(items: seq<Value>): set<Value>
    decreases |items|
  {
    if items == [] then {}
    else
      var s := SetOfItems(items[..|items| - 1]);
      if HasEqual(items[|items| - 1], s) then s else s + {items[|items| - 1]}
  }

  /** `set(items)` holds items only. */
  lemma {:induction false} SetOfItemsWithin(items: seq<Value>)
    ensures forall x :: x in SetOfItems(items) ==> x in items
    decreases |items|
  {
    if items != [] {
      var init := items[..|items| - 1];
      SetOfItemsWithin(init);
      assert forall x :: x in init ==> x in items;
    }
  }

  /** `set(items)` holds an equal of every item. */
  lemma {:induction false} SetOfItemsCovers(items: seq<Value>)
    ensures forall k :: 0 <= k < |items| ==> HasEqual(items[k], SetOfItems(items))
    decreases |items|
  {
    if items != [] {
      var init := items[..|items| - 1];
      var last := items[|items| - 1];
      SetOfItemsCovers(init);
      var s := SetOfItems(init);
      var r := SetOfItems(items);
      assert s <= r;
      forall k | 0 <= k < |items|
        ensures HasEqual(items[k], r)
      {
        if k < |init| {
          assert items[k] == init[k] && HasEqual(init[k], s);
          var y :| y in s && Eq(init[k], y);
          assert y in r;
        } else if !HasEqual(last, s) {
          assert last in r && Eq(last, last);
        }
      }
    }
  }

  /** No two elements of `set(items)` are `==`. */
  lemma {:induction false} SetOfItemsHasNoTwoEqual(items: seq<Value>)
    ensures NoTwoEqual(SetOfItems(items))
    decreases |items|
  {
    if items != [] {
      SetOfItemsHasNoTwoEqual(items[..|items| - 1]);
    }
  }

  /** The elements `set(v)` would hold, as the set methods take them from their argument. */
  function Elements(v: Value): (r: Result<set<Value>, Error>)
    ensures v.VSet? ==> r == Ok(v.elems)
    ensures !(v.VSet? || v.VList? || v.VStr? || v.VDict?) ==> r == Err(TypeError)
  {
    match v
    case VSet(elems) => Ok(elems)
    case VList(items) =>
      if forall k :: 0 <= k < |items| ==> Hashable(items[k]) then Ok(SetOfItems(items))
      else Err(TypeError)
    case VStr(s) => Ok(set k | 0 <= k < |s| :: VStr([s[k]]))
    case VDict(entries) => Ok(set key | key in entries :: VStr(key))
    case _ => Err(TypeError)
  }

  /**
   * A list gives `set(items)`: only items, an equal of each, and a TypeError
   * exactly when an item is unhashable.
   */
  lemma ElementsOfList(items: seq<Value>)
    ensures Elements(VList(items)).Ok? <==> forall k :: 0 <= k < |items| ==> Hashable(items[k])
    ensures Elements(VList(items)).Ok? ==>
              (forall x :: x in Elements(VList(items)).value ==> x in items) &&
              (forall k :: 0 <= k < |items| ==> HasEqual(items[k], Elements(VList(items)).value))
  {
    SetOfItemsWithin(items);
    SetOfItemsCovers(items);
  }

  /** A string gives its characters, and a dict its keys. */
  lemma ElementsOfStringAndDict(v: Value)
    requires v.VStr? || v.VDict?
    ensures Elements(v).Ok?
    ensures v.VStr? ==> forall x :: x in Elements(v).value <==> (x.VStr? && |x.s| == 1 && x.s[0] in v.s)
    ensures v.VDict? ==> forall x :: x in Elements(v).value <==> (x.VStr? && x.s in v.entries)
  {
    if v.VStr? {
      var s := v.s;
      forall x: Value | x.VStr? && |x.s| == 1 && x.s[0] in s
        ensures x in Elements(v).value
      {
        var k :| 0 <= k < |s| && s[k] == x.s[0];
        assert x == VStr([s[k]]);
      }
    }
  }

  /** Apart from a host set, the elements taken from a value have no two `==`-equal ones. */
  lemma ElementsHaveNoTwoEqual(v: Value)
    requires !v.VSet? && Elements(v).Ok?
    ensures NoTwoEqual(Elements(v).value)
  {
    if v.VList? {
      SetOfItemsHasNoTwoEqual(v.items);
    }
  }

  /** `a.union(b)`: `a`, plus the elements of `b` not equal to one of `a`'s. */
  function Union(a: set<Value>, b: set<Value>): (r: set<Value>)
    ensures a <= r <= a + b
    ensures forall y :: y in b ==> HasEqual(y, r)
    ensures forall y :: y in r - a ==> y in b && !HasEqual(y, a)
  {
    var r := a + set y | y in b && !HasEqual(y, a);
    assert forall y :: y in b ==> HasEqual(y, r) by {
      forall y | y in b
        ensures HasEqual(y, r)
      {
        if HasEqual(y, a) {
          var z :| z in a && Eq(y, z);
          assert z in r;
        } else {
          assert y in r && Eq(y, y);
        }
      }
    }
    r
  }

  /** The three set methods keep a set free of `==`-equal pairs. */
  lemma SetMethodsKeepNoTwoEqual(a: set<Value>, b: set<Value>)
    requires NoTwoEqual(a)
    ensures NoTwoEqual(b) ==> NoTwoEqual(Union(a, b))
    ensures NoTwoEqual(Intersection(a, b))
    ensures NoTwoEqual(Difference(a, b))
  {
  }

  /** `a.intersection(b)`. */
  function Intersection(a: set<Value>, b: set<Value>): (r: set<Value>)
    ensures r <= a
    ensures forall x :: x in a ==> (x in r <==> HasEqual(x, b))
  {
    set x | x in a && HasEqual(x, b)
  }

  /** `a.difference(b)`. */
  function Difference(a: set<Value>, b: set<Value>): (r: set<Value>)
    ensures r <= a
    ensures forall x :: x in a ==> (x in r <==> !HasEqual(x, b))
  {
    set x | x in a && !HasEqual(x, b)
  }

  /** Python's `a + b`. */
  function Add(a: Value, b: Value): (r: Result<Value, Error>)
    ensures IsInteger(a) && IsInteger(b) ==> r == Ok(VInt(IntegerValue(a) + IntegerValue(b)))
    ensures a.VStr? && b.VStr? ==> r == Ok(VStr(a.s + b.s))
    ensures a.VList? && b.VList? ==> r == Ok(VList(a.items + b.items))
  {
    if IsInteger(a) && IsInteger(b) then Ok(VInt(IntegerValue(a) + IntegerValue(b)))
    else if IsNumber(a) && IsNumber(b) then Ok(VFloat(NumberValue(a) + NumberValue(b)))
    else if a.VStr? && b.VStr? then Ok(VStr(a.s + b.s))
    else if a.VList? && b.VList? then Ok(VList(a.items + b.items))
    else Err(TypeError)
  }

  /** Python's `a - b`; on two sets, the set difference. */
  function Subtract(a: Value, b: Value): (r: Result<Value, Error>)
    ensures IsInteger(a) && IsInteger(b) ==> r == Ok(VInt(IntegerValue(a) - IntegerValue(b)))
    ensures a.VSet? && b.VSet? ==> r == Ok(VSet(Difference(a.elems, b.elems)))
  {
    if IsInteger(a) && IsInteger(b) then Ok(VInt(IntegerValue(a) - IntegerValue(b)))
    else if IsNumber(a) && IsNumber(b) then Ok(VFloat(NumberValue(a) - NumberValue(b)))
    else if a.VSet? && b.VSet? then Ok(VSet(Difference(a.elems, b.elems)))
    else Err(TypeError)
  }

  /** `n` copies of `s` one after another (none when `n <= 0`). */
  function Repeat<T>(s: seq<T>, n: int): (r: seq<T>)
    ensures |r| == (if n <= 0 then 0 else n) * |s|
    ensures forall x :: x in r ==> x in s
    ensures n > 0 ==> r[..|s|] == s
    decreases n
  {
    if n <= 0 then []
    else
      var rest := Repeat(s, n - 1);
      assert (n - 1) * |s| + |s| == n * |s|;
      s + rest
  }

  /** Python's `a * b`, including the repetition of a string or list by an integer. */
  function Multiply(a: Value, b: Value): (r: Result<Value, Error>)
    ensures IsInteger(a) && IsInteger(b) ==> r == Ok(VInt(IntegerValue(a) * IntegerValue(b)))
    ensures a.VStr? && IsInteger(b) ==> r == Ok(VStr(Repeat(a.s, IntegerValue(b))))
    ensures a.VList? && IsInteger(b) ==> r == Ok(VList(Repeat(a.items, IntegerValue(b))))
  {
    if IsInteger(a) && IsInteger(b) then Ok(VInt(IntegerValue(a) * IntegerValue(b)))
    else if IsNumber(a) && IsNumber(b) then Ok(VFloat(NumberValue(a) * NumberValue(b)))
    else if a.VStr? && IsInteger(b) then Ok(VStr(Repeat(a.s, IntegerValue(b))))
    else if a.VList? && IsInteger(b) then Ok(VList(Repeat(a.items, IntegerValue(b))))
    else if IsInteger(a) && b.VStr? then Ok(VStr(Repeat(b.s, IntegerValue(a))))
    else if IsInteger(a) && b.VList? then Ok(VList(Repeat(b.items, IntegerValue(a))))
    else Err(TypeError)
  }

  /** Python's `a / b` (true division). */
  function Divide(a: Value, b: Value): (r: Result<Value, Error>)
    ensures IsNumber(a) && IsNumber(b) && NumberValue(b) != 0.0 ==>
              r == Ok(VFloat(NumberValue(a) / NumberValue(b)))
    ensures IsNumber(a) && IsNumber(b) && NumberValue(b) == 0.0 ==> r == Err(ZeroDivisionError)
  {
    if !(IsNumber(a) && IsNumber(b)) then Err(TypeError)
    else if NumberValue(b) == 0.0 then Err(ZeroDivisionError)
    else Ok(VFloat(NumberValue(a) / NumberValue(b)))
  }

  /** Python's integer `x % y`: the remainder takes the sign of the divisor. */
  function FloorMod(x: int, y: int): (r: int)
    requires y != 0
  {
    var m := x % y;
    if y < 0 && m != 0 then m + y else m
  }

  /** Python's integer `x // y`, rounding towards minus infinity. */
  function FloorDiv(x: int, y: int): int
    requires y != 0
  {
    if y < 0 && x % y != 0 then x / y - 1 else x / y
  }

  lemma FloorModIsRemainder(x: int, y: int)
    requires y != 0
    ensures y > 0 ==> 0 <= FloorMod(x, y) < y
    ensures y < 0 ==> y < FloorMod(x, y) <= 0
    ensures x == y * FloorDiv(x, y) + FloorMod(x, y)
  {
    var m := x % y;
    var q := x / y;
    assert x == y * q + m;
    if y < 0 && m != 0 {
      assert y * (q - 1) == y * q - y;
    }
  }

  /** Python's float `x % y`: `x - y * floor(x / y)`. */
  function RealMod(x: real, y: real): real
    requires y != 0.0
  {
    x - y * (x / y).Floor as real
  }

  /** Python's `a % b` on numbers. String formatting with `%` is not modelled. */
  function Modulo(a: Value, b: Value): (r: Result<Value, Error>)
    ensures IsInteger(a) && IsInteger(b) && IntegerValue(b) != 0 ==>
              r == Ok(VInt(FloorMod(IntegerValue(a), IntegerValue(b))))
    ensures IsNumber(a) && IsNumber(b) && NumberValue(b) == 0.0 ==> r == Err(ZeroDivisionError)
  {
    if a.VStr? then Err(NotModelled("printf-style string formatting"))
    else if !(IsNumber(a) && IsNumber(b)) then Err(TypeError)
    else if NumberValue(b) == 0.0 then Err(ZeroDivisionError)
    else if IsInteger(a) && IsInteger(b) then Ok(VInt(FloorMod(IntegerValue(a), IntegerValue(b))))
    else Ok(VFloat(RealMod(NumberValue(a), NumberValue(b))))
  }

  /** Python's unary `-v`. */
  function Negate(v: Value): (r: Result<Value, Error>)
    ensures IsNumber(v) <==> r.Ok?
    ensures r.Ok? ==> IsNumber(r.value) && NumberValue(r.value) == -NumberValue(v)
  {
    if IsInteger(v) then Ok(VInt(-IntegerValue(v)))
    else if v.VFloat? then Ok(VFloat(-v.r))
    else Err(TypeError)
  }
}
