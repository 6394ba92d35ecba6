/**
 * Expression nodes, their evaluation against an object and variable substitution
 * (kevi/expressions.py).
 */
module Expressions {
  import opened Wrappers
  import opened Values
  import Strings
  import Kvc
  import Builtins
  import PathUtilities

  /**
   * The set operation of a set expression. `Untyped` is the type a set expression gets
   * when it is rebuilt by substitution: the class attribute `expressionType` is
   * shadowed by a property that always returns None, and there is no method for None.
   */
  datatype SetKind = UnionSet | IntersectSet | MinusSet | Untyped

  datatype Expression =
    | Constant(value: Value)
    | Self
    | Variable(name: string)
    | KeyPath(path: string)           // `valueForKeyPath:` from the table, applied to [SELF, path]
    | Aggregate(items: seq<Expression>)
    | SetOp(kind: SetKind, left: Expression, right: Expression)
    | Function(operand: Expression, selector: Value, args: seq<Expression>)

  /** What a function node finds when it looks its selector up on its target. */
  datatype Callee = Builtin(name: string) | PathFunction(name: string) | NotCallable

  /** The name under which the `valueForKeyPath:` entry sits in the table. */
  const KeyPathSelector: string := "valueForKeyPath:"

  /** The variable that evaluates to the pathutils module. */
  const PathUtilitiesVariable: string := "_NSPathUtilities"

  /** The function node a key path stands for. */
  function KeyPathAsFunction(path: string): Expression {
    Function(Constant(Builtins.BuiltinTable), VStr(KeyPathSelector), [Self, Constant(VStr(path))])
  }

  /** The `keyPath` property: the path of a key-path node, None for every other node. */
  function KeyPathOf(e: Expression): (r: Option<string>)
    ensures r.Some? <==> e.KeyPath?
  {
    if e.KeyPath? then Some(e.path) else None
  }

  /**
   * `expressionForFunction(name, parameters)`. `FUNCTION` takes its operand from the
   * first parameter and its selector from evaluating the second against None; any other
   * name must be an entry of the built-in table.
   */
  function ExpressionForFunction(name: string, params: seq<Expression>): (r: Result<Expression, Error>)
    ensures name == "FUNCTION" && |params| < 2 ==> r.Err? && r.error.ValueError?
    ensures name != "FUNCTION" && name !in Builtins.BuiltinNames ==> r.Err? && r.error.ValueError?
    ensures name != "FUNCTION" && name in Builtins.BuiltinNames ==>
              r == Ok(Function(Constant(Builtins.BuiltinTable), VStr(name), params))
    ensures name == "FUNCTION" && |params| >= 2 ==>
              (r.Ok? <==> Eval(params[1], VNone).Ok?) &&
              (r.Ok? ==> r.value == Function(params[0], Eval(params[1], VNone).value, params[2..]))
  {
    if name == "FUNCTION" then
      if |params| < 2 then Err(ValueError("Insufficient parameters for custom function."))
      else
        var selector :- Eval(params[1], VNone);
        Ok(Function(params[0], selector, params[2..]))
    else if name !in Builtins.BuiltinNames then Err(ValueError("Function \"" + name + "\" not found"))
    else Ok(Function(Constant(Builtins.BuiltinTable), VStr(name), params))
  }

  /** The names the expression parser asks for that are not in the table. */
  lemma ParserOnlyNamesAreMissing(params: seq<Expression>)
    ensures ExpressionForFunction("_chs", params).Err?
    ensures ExpressionForFunction("_first", params).Err?
    ensures ExpressionForFunction("_last", params).Err?
    ensures ExpressionForFunction("count", params).Err?
  {
    forall name | name in Builtins.BuiltinNames
      ensures name != "_chs" && name != "_first" && name != "_last" && name != "count"
    {
      assert |name| != 4 || (name[0] != '_' && name[0] != 'c');
      assert |name| != 5 || (name[0] != '_' && name[0] != 'c');
      assert |name| != 6 || name[0] != '_' || name[1] == 'i';
    }
  }

  predicate IsSpecialName(s: string) {
    Strings.StartsWith(s, "__")
  }

  /**
   * `target[selector]` when the target is a dict, `getattr(target, selector)` otherwise.
   * Attributes of strings, numbers, lists and sets (their methods) are host reflection.
   */
  function Lookup(target: Value, selector: Value): (r: Result<Callee, Error>)
    ensures target.VDict? && selector.VStr? && selector.s in target.entries ==>
              r == Ok(if target.entries[selector.s].VFunction? then Builtin(target.entries[selector.s].name) else NotCallable)
    ensures target.VDict? && Hashable(selector) && !(selector.VStr? && selector.s in target.entries) ==> r == Err(KeyError)
    ensures !target.VDict? && !selector.VStr? ==> r == Err(TypeError)
  {
    if target.VDict? then
      if !Hashable(selector) then Err(TypeError)
      else if selector.VStr? && selector.s in target.entries then
        var f := target.entries[selector.s];
        Ok(if f.VFunction? then Builtin(f.name) else NotCallable)
      else Err(KeyError)
    else if !selector.VStr? then Err(TypeError)
    else if IsSpecialName(selector.s) then Err(NotModelled("special attributes"))
    else if target.VPathUtilities? then
      if selector.s in Kvc.PathUtilitiesFunctionNames then Ok(PathFunction(selector.s))
      else if selector.s == "pathSeparator" || selector.s == "re" then Ok(NotCallable)
      else Err(AttributeError)
    else if target.VNone? || target.VFunction? then Err(AttributeError)
    else Err(NotModelled("attributes of host values"))
  }

  /**
   * A path argument: None or a string. A value without a length fails at `len(path)`;
   * lists, dicts and sets get past it and are not modelled further.
   */
  function PathArgument(v: Value): (r: Result<Option<string>, Error>)
    ensures r.Ok? <==> v.VNone? || v.VStr?
    ensures r.Ok? ==> r.value == (if v.VNone? then None else Some(v.s))
    ensures Length(v).Err? && !v.VNone? ==> r == Err(TypeError)
  {
    if v.VNone? then Ok(None)
    else if v.VStr? then Ok(Some(v.s))
    else if Length(v).Err? then Err(TypeError)
    else Err(NotModelled("path utilities on lists, dicts and sets"))
  }

  function OptionalString(s: Option<string>): (r: Value)
    ensures s.None? <==> r.VNone?
  {
    if s.None? then VNone else VStr(s.value)
  }

  function StringList(parts: seq<string>): (r: Value)
    ensures r.VList? && |r.items| == |parts|
  {
    VList(seq(|parts|, k requires 0 <= k < |parts| => VStr(parts[k])))
  }

  /**
   * A components argument: None or a list of strings. A value without a length fails at
   * `len(components)`, and a list with an element that is not a string fails in `re.sub`
   * (every such element passes the `!= ''` filter); dicts and sets are not modelled.
   */
  function ComponentsArgument(v: Value): (r: Result<Option<seq<string>>, Error>)
    ensures v.VNone? ==> r == Ok(None)
    ensures v.VList? ==> (r.Ok? <==> forall k :: 0 <= k < |v.items| ==> v.items[k].VStr?)
    ensures v.VList? && r.Ok? ==>
              && r.value.Some? && |r.value.value| == |v.items|
              && forall k :: 0 <= k < |v.items| ==> v.items[k] == VStr(r.value.value[k])
    ensures v.VList? && r.Err? ==> r == Err(TypeError)
    ensures Length(v).Err? && !v.VNone? ==> r == Err(TypeError)
  {
    if v.VNone? then Ok(None)
    else if v.VList? then
      if forall k :: 0 <= k < |v.items| ==> v.items[k].VStr? then
        Ok(Some(seq(|v.items|, k requires 0 <= k < |v.items| => v.items[k].s)))
      else Err(TypeError)
    else if Length(v).Err? then Err(TypeError)
    else Err(NotModelled("path utilities on dicts and sets"))
  }

  /** Calling the pathutils function `name` with `args`. */
  function ApplyPathFunction(name: string, args: seq<Value>): (r: Result<Value, Error>)
    requires name in Kvc.PathUtilitiesFunctionNames
    ensures (if name == "appendPathComponent" then |args| != 2 else |args| != 1) ==> r == Err(TypeError)
    ensures name == "appendPathExtension" && |args| == 1 ==> r == Err(NameError)
    ensures name == "appendPathComponent" && |args| == 2 && args[0].VNone? ==>
              r == Ok(if args[1].VNone? then VStr("") else args[1])
    ensures name == "appendPathComponent" && |args| == 2 && !args[0].VNone? && args[1].VNone? ==>
              r == Ok(args[0])
    ensures && name == "appendPathComponent" && |args| == 2 && !args[0].VNone? && !args[1].VNone?
            && (Length(args[0]).Err? || (args[0].VStr? && Length(args[1]).Err?))
            ==> r == Err(TypeError)
    ensures && name !in {"appendPathComponent", "appendPathExtension", "standardizePath"} && |args| == 1
            && Length(args[0]).Err? && !args[0].VNone?
            ==> r == Err(TypeError)
    ensures name == "deletePathExtension" && args == [VNone] ==> r == Err(TypeError)
  {
    if name == "appendPathComponent" then
      if |args| != 2 then Err(TypeError)
      else if args[0].VNone? then Ok(if args[1].VNone? then VStr("") else args[1])
      else if args[1].VNone? then Ok(args[0])
      else
        var path :- PathArgument(args[0]);
        var component :- PathArgument(args[1]);
        Ok(VStr(PathUtilities.AppendPathComponent(path, component)))
    else if |args| != 1 then Err(TypeError)
    else match name
      case "pathWithComponents" =>
        var components :- ComponentsArgument(args[0]);
        var path :- PathUtilities.PathWithComponents(components);
        Ok(OptionalString(path))
      case "pathComponents" =>
        var path :- PathArgument(args[0]);
        var parts := PathUtilities.PathComponents(path);
        Ok(if parts.None? then VNone else StringList(parts.value))
      case "lastPathComponent" =>
        var path :- PathArgument(args[0]);
        Ok(OptionalString(PathUtilities.LastPathComponent(path)))
      case "deleteLastPathComponent" =>
        var path :- PathArgument(args[0]);
        Ok(OptionalString(PathUtilities.DeleteLastPathComponent(path)))
      case "pathExtension" =>
        var path :- PathArgument(args[0]);
        Ok(OptionalString(PathUtilities.PathExtension(path)))
      case "deletePathExtension" =>
        var path :- PathArgument(args[0]);
        if path.None? then Err(TypeError) else Ok(VStr(PathUtilities.DeletePathExtension(path.value)))
      case "appendPathExtension" => Err(NameError)
      case _ => Err(NotModelled("standardizePath"))
  }

  function Call(callee: Callee, args: seq<Value>): Result<Value, Error> {
    match callee
    case Builtin(name) => Builtins.Apply(name, args)
    case PathFunction(name) =>
      if name in Kvc.PathUtilitiesFunctionNames then ApplyPathFunction(name, args)
      else Err(AttributeError)
    case NotCallable => Err(TypeError)
  }

  /**
   * `expressionValueWithObject(obj)`. A function node evaluates its operand, looks the
   * selector up on it, evaluates its arguments left to right and calls what it found.
   */
  function Eval(e: Expression, obj: Value): (r: Result<Value, Error>)
    ensures e.Constant? ==> r == Ok(e.value)
    ensures e.Self? ==> r == Ok(obj)
    ensures e.Variable? ==> r == Ok(if e.name == PathUtilitiesVariable then VPathUtilities else VNone)
    ensures e.Aggregate? && r.Ok? ==> r.value.VList? && |r.value.items| == |e.items|
    decreases e, 1
  {
    match e
    case Constant(v) => Ok(v)
    case Self => Ok(obj)
    case Variable(name) => Ok(if name == PathUtilitiesVariable then VPathUtilities else VNone)
    case KeyPath(path) =>
      var callee :- Lookup(Builtins.BuiltinTable, VStr(KeyPathSelector));
      Call(callee, [obj, VStr(path)])
    case Aggregate(items) =>
      var values :- EvalAll(items, obj);
      Ok(VList(values))
    case SetOp(kind, left, right) =>
      var l :- Eval(left, obj);
      if !l.VSet? then Ok(VNone)
      else
        var rv :- Eval(right, obj);
        if kind == Untyped then Err(KeyError)
        else
          var elems :- Elements(rv);
          Ok(VSet(match kind
            case UnionSet => Union(l.elems, elems)
            case IntersectSet => Intersection(l.elems, elems)
            case _ => Difference(l.elems, elems)))
    case Function(operand, selector, args) =>
      var target :- Eval(operand, obj);
      var callee :- Lookup(target, selector);
      var values :- EvalAll(args, obj);
      Call(callee, values)
  }

  /** The values of `items`, left to right; the first failure wins. */
  function EvalAll(items: seq<Expression>, obj: Value): (r: Result<seq<Value>, Error>)
    ensures r.Ok? ==> |r.value| == |items|
    decreases items, 0
  {
    if items == [] then Ok([])
    else
      var first :- Eval(items[0], obj);
      var rest :- EvalAll(items[1..], obj);
      Ok([first] + rest)
  }

  /** Evaluating a list of expressions succeeds exactly when each one does, value for value. */
  lemma {:induction false} EvalAllIsPointwise(items: seq<Expression>, obj: Value)
    ensures EvalAll(items, obj).Ok? <==> forall k :: 0 <= k < |items| ==> Eval(items[k], obj).Ok?
    ensures EvalAll(items, obj).Ok? ==>
              forall k :: 0 <= k < |items| ==> Eval(items[k], obj).value == EvalAll(items, obj).value[k]
    decreases |items|
  {
    if items != [] {
      EvalAllIsPointwise(items[1..], obj);
      assert forall k :: 1 <= k < |items| ==> items[k] == items[1..][k - 1];
    }
  }

  /** An aggregate evaluates to the list of its items' values, in order. */
  lemma AggregateIsPointwise(items: seq<Expression>, obj: Value)
    ensures Eval(Aggregate(items), obj).Ok? <==> forall k :: 0 <= k < |items| ==> Eval(items[k], obj).Ok?
    ensures Eval(Aggregate(items), obj).Ok? ==>
              forall k :: 0 <= k < |items| ==> Eval(Aggregate(items), obj).value.items[k] == Eval(items[k], obj).value
  {
    EvalAllIsPointwise(items, obj);
  }

  /** When the left side is not a set, a set expression is None and its right side is never evaluated. */
  lemma SetOpWithoutLeftSet(kind: SetKind, left: Expression, right: Expression, obj: Value)
    requires Eval(left, obj).Ok? && !Eval(left, obj).value.VSet?
    ensures Eval(SetOp(kind, left, right), obj) == Ok(VNone)
  {
  }

  /** With a set on each side, a typed set expression is the union, intersection or difference. */
  lemma SetOpOnSets(kind: SetKind, left: Expression, right: Expression, obj: Value, a: set<Value>, b: set<Value>)
    requires Eval(left, obj) == Ok(VSet(a)) && Eval(right, obj) == Ok(VSet(b))
    ensures kind == UnionSet ==> Eval(SetOp(kind, left, right), obj) == Ok(VSet(Union(a, b)))
    ensures kind == IntersectSet ==> Eval(SetOp(kind, left, right), obj) == Ok(VSet(Intersection(a, b)))
    ensures kind == MinusSet ==> Eval(SetOp(kind, left, right), obj) == Ok(VSet(Difference(a, b)))
    ensures kind == Untyped ==> Eval(SetOp(kind, left, right), obj) == Err(KeyError)
  {
    assert Elements(VSet(b)) == Ok(b);
  }

  /** `set().union([1, True])` keeps one of the two `==`-equal items, the first. */
  lemma UnionKeepsFirstOfEqualItems()
    ensures Eval(SetOp(UnionSet, Constant(VSet({})), Constant(VList([VInt(1), VBool(true)]))), VNone)
            == Ok(VSet({VInt(1)}))
    ensures Length(VSet({VInt(1)})) == Ok(1)
  {
    var items := [VInt(1), VBool(true)];
    assert items[..1] == [VInt(1)] && [VInt(1)][..0] == [];
    assert SetOfItems([VInt(1)]) == {VInt(1)};
    assert Eq(VBool(true), VInt(1));
    assert SetOfItems(items) == {VInt(1)};
    assert Union({}, {VInt(1)}) == {VInt(1)};
  }

  lemma KeyPathEntry()
    ensures KeyPathSelector in Builtins.BuiltinNames
    ensures Builtins.BuiltinTable.entries[KeyPathSelector] == VFunction(KeyPathSelector)
  {
  }

  /**
   * A key-path node evaluates like the function node it stands for, and both give
   * `valueForKeyPath(obj, path)`.
   */
  lemma KeyPathIsValueForKeyPath(path: string, obj: Value)
    ensures Eval(KeyPath(path), obj) == Eval(KeyPathAsFunction(path), obj)
    ensures Eval(KeyPath(path), obj) == Kvc.ValueForKeyPath(obj, path)
  {
    KeyPathEntry();
    var callee := Builtin(KeyPathSelector);
    assert Lookup(Builtins.BuiltinTable, VStr(KeyPathSelector)) == Ok(callee);
    EvalAllIsPointwise([Self, Constant(VStr(path))], obj);
    assert EvalAll([Self, Constant(VStr(path))], obj).value == [obj, VStr(path)];
    assert Builtins.Apply(KeyPathSelector, [obj, VStr(path)]) == Builtins.KeyPathLookup(obj, VStr(path));
    Kvc.ValueForKeyPathFollowsKeys(obj, path);
  }

  /** A function node over the built-in table calls the entry with the evaluated arguments. */
  lemma BuiltinCall(name: string, args: seq<Expression>, obj: Value)
    requires name in Builtins.BuiltinNames
    ensures var r := Eval(Function(Constant(Builtins.BuiltinTable), VStr(name), args), obj);
            (EvalAll(args, obj).Err? ==> r == Err(EvalAll(args, obj).error)) &&
            (EvalAll(args, obj).Ok? ==> r == Builtins.Apply(name, EvalAll(args, obj).value))
  {
    assert Builtins.BuiltinTable.entries[name] == VFunction(name);
  }

  /** `sum:` over the constant list [1, 2, 3] is 6. */
  lemma SumFunctionExample(obj: Value)
    ensures ExpressionForFunction("sum:", [Constant(VList([VInt(1), VInt(2), VInt(3)]))]).Ok?
    ensures Eval(ExpressionForFunction("sum:", [Constant(VList([VInt(1), VInt(2), VInt(3)]))]).value, obj) == Ok(VInt(6))
  {
    var items := [VInt(1), VInt(2), VInt(3)];
    assert "sum:" in Builtins.BuiltinNames;
    BuiltinCall("sum:", [Constant(VList(items))], obj);
    EvalAllIsPointwise([Constant(VList(items))], obj);
    assert EvalAll([Constant(VList(items))], obj).value == [VList(items)];
    Builtins.SumExamples();
  }

  /** Whether an expression holds a function or key-path node anywhere. */
  predicate HasCall(e: Expression)
    decreases e, 1
  {
    match e
    case KeyPath(_) => true
    case Function(_, _, _) => true
    case Aggregate(items) => AnyHasCall(items)
    case SetOp(_, left, right) => HasCall(left) || HasCall(right)
    case _ => false
  }

  predicate AnyHasCall(items: seq<Expression>)
    decreases items, 0
  {
    items != [] && (HasCall(items[0]) || AnyHasCall(items[1..]))
  }

  /** Whether an expression holds a set node anywhere. */
  predicate HasSetOp(e: Expression)
    decreases e, 1
  {
    match e
    case SetOp(_, _, _) => true
    case Aggregate(items) => AnyHasSetOp(items)
    case _ => false
  }

  predicate AnyHasSetOp(items: seq<Expression>)
    decreases items, 0
  {
    items != [] && (HasSetOp(items[0]) || AnyHasSetOp(items[1..]))
  }

  /**
   * `_expressionWithSubstitutionVariables(vars)`. A variable with a value other than
   * None becomes that constant; constants and SELF stay; aggregates and set nodes are
   * rebuilt from their substituted parts (set nodes lose their type). Function and
   * key-path nodes substitute their parts and then call a module-level
   * `expressionForFunction` that does not exist, raising NameError.
   */
  function Substitute(e: Expression, vars: map<string, Value>): (r: Result<Expression, Error>)
    ensures r.Err? ==> r.error == NameError
    ensures e.Variable? ==>
              r == Ok(if e.name in vars && vars[e.name] != VNone then Constant(vars[e.name]) else e)
    ensures e.Constant? || e.Self? ==> r == Ok(e)
    ensures e.Aggregate? && r.Ok? ==> r.value.Aggregate? && |r.value.items| == |e.items|
    ensures e.Aggregate? ==> (r.Err? <==> SubstituteAll(e.items, vars).Err?)
    ensures e.Aggregate? && r.Ok? ==> r.value == Aggregate(SubstituteAll(e.items, vars).value)
    decreases e, 1
  {
    match e
    case Constant(_) => Ok(e)
    case Self => Ok(e)
    case Variable(name) =>
      Ok(if name in vars && vars[name] != VNone then Constant(vars[name]) else e)
    case KeyPath(_) => Err(NameError)   // its operand and arguments substitute without error
    case Aggregate(items) =>
      var items' :- SubstituteAll(items, vars);
      Ok(Aggregate(items'))
    case SetOp(_, left, right) =>
      var left' :- Substitute(left, vars);
      var right' :- Substitute(right, vars);
      Ok(SetOp(Untyped, left', right'))
    case Function(operand, _, args) =>
      var operand' :- Substitute(operand, vars);
      var args' :- SubstituteAll(args, vars);
      Err(NameError)
  }

  function SubstituteAll(items: seq<Expression>, vars: map<string, Value>): (r: Result<seq<Expression>, Error>)
    ensures r.Err? ==> r.error == NameError
    ensures r.Ok? ==> |r.value| == |items|
    ensures r.Ok? ==> forall i :: 0 <= i < |items| ==> Substitute(items[i], vars) == Ok(r.value[i])
    ensures r.Err? <==> exists i :: 0 <= i < |items| && Substitute(items[i], vars).Err?
    decreases items, 0
  {
    if items == [] then Ok([])
    else
      var first :- Substitute(items[0], vars);
      var rest :- SubstituteAll(items[1..], vars);
      Ok([first] + rest)
  }

  /** Substitution fails exactly on expressions that hold a function or key-path node. */
  lemma {:induction false} SubstituteFailsOnCalls(e: Expression, vars: map<string, Value>)
    ensures Substitute(e, vars).Err? <==> HasCall(e)
    decreases e, 1
  {
    match e
    case Aggregate(items) => SubstituteAllFailsOnCalls(items, vars);
    case SetOp(_, left, right) =>
      SubstituteFailsOnCalls(left, vars);
      SubstituteFailsOnCalls(right, vars);
    case Function(operand, _, args) =>
      SubstituteFailsOnCalls(operand, vars);
      SubstituteAllFailsOnCalls(args, vars);
    case _ =>
  }

  lemma {:induction false} SubstituteAllFailsOnCalls(items: seq<Expression>, vars: map<string, Value>)
    ensures SubstituteAll(items, vars).Err? <==> AnyHasCall(items)
    decreases items, 0
  {
    if items != [] {
      SubstituteFailsOnCalls(items[0], vars);
      SubstituteAllFailsOnCalls(items[1..], vars);
    }
  }

  /** Substituting the same variables twice gives what substituting once gave. */
  lemma {:induction false} SubstituteIdempotent(e: Expression, vars: map<string, Value>)
    requires Substitute(e, vars).Ok?
    ensures Substitute(Substitute(e, vars).value, vars) == Substitute(e, vars)
    decreases e, 1
  {
    match e
    case Aggregate(items) => SubstituteAllIdempotent(items, vars);
    case SetOp(_, left, right) =>
      SubstituteIdempotent(left, vars);
      SubstituteIdempotent(right, vars);
    case _ =>
  }

  lemma {:induction false} SubstituteAllIdempotent(items: seq<Expression>, vars: map<string, Value>)
    requires SubstituteAll(items, vars).Ok?
    ensures SubstituteAll(SubstituteAll(items, vars).value, vars) == SubstituteAll(items, vars)
    decreases items, 0
  {
    if items != [] {
      var once := SubstituteAll(items, vars).value;
      SubstituteIdempotent(items[0], vars);
      SubstituteAllIdempotent(items[1..], vars);
      assert once[0] == Substitute(items[0], vars).value;
      assert once[1..] == SubstituteAll(items[1..], vars).value;
    }
  }

  /** With no variables to substitute, an expression without calls or set nodes comes back unchanged. */
  lemma {:induction false} SubstituteNothing(e: Expression)
    requires !HasCall(e) && !HasSetOp(e)
    ensures Substitute(e, map[]) == Ok(e)
    decreases e, 1
  {
    match e
    case Aggregate(items) => SubstituteAllNothing(items);
    case _ =>
  }

  lemma {:induction false} SubstituteAllNothing(items: seq<Expression>)
    requires !AnyHasCall(items) && !AnyHasSetOp(items)
    ensures SubstituteAll(items, map[]) == Ok(items)
    decreases items, 0
  {
    if items != [] {
      SubstituteNothing(items[0]);
      SubstituteAllNothing(items[1..]);
      assert [items[0]] + items[1..] == items;
    }
  }

  /** A substituted variable evaluates to the value it was given, whatever the object. */
  lemma SubstitutedVariableEvaluates(name: string, vars: map<string, Value>, obj: Value)
    requires name in vars && vars[name] != VNone
    ensures Substitute(Variable(name), vars).Ok?
    ensures Eval(Substitute(Variable(name), vars).value, obj) == Ok(vars[name])
  {
  }
}
