/** Key-value coding: looking values up by key and by dotted key path (kevi/kvc.py). */
module Kvc {
  import opened Wrappers
  import opened Values
  import Strings

  /** The functions the pathutils module defines; looking one up by key calls it with no arguments. */
  const PathUtilitiesFunctionNames: set<string> := {
    "pathWithComponents", "pathComponents", "lastPathComponent", "deleteLastPathComponent",
    "appendPathComponent", "pathExtension", "deletePathExtension", "appendPathExtension",
    "standardizePath"
  }

  /**
   * `getattr(obj, key)` for an object that is neither a list nor a dict, calling the
   * attribute when it is callable. Attributes of strings, numbers and sets (their
   * methods, `real`, ...) and the special `__...__` attributes are host reflection.
   */
  function AttributeOf(obj: Value, key: string): (r: Result<Value, Error>)
    requires !obj.VList? && !obj.VDict?
    ensures (obj.VNone? || obj.VFunction?) && !Strings.StartsWith(key, "__") ==> r == Ok(VNone)
  {
    if Strings.StartsWith(key, "__") then Err(NotModelled("special attributes"))
    else match obj
      case VNone => Ok(VNone)
      case VFunction(_) => Ok(VNone)
      case VPathUtilities =>
        if key == "pathSeparator" then Ok(VStr("/"))
        else if key in PathUtilitiesFunctionNames then Err(TypeError)
        else if key == "re" then Err(NotModelled("the re module"))
        else Ok(VNone)
      case _ => Err(NotModelled("attributes of host values"))
  }

  /**
   * `valueForKey(obj, key)`: no value for an empty key; on a list, the list of the
   * lookups on its elements; on a dict, the entry (or None); otherwise the attribute.
   */
  function ValueForKey(obj: Value, key: string): (r: Result<Value, Error>)
    ensures key == "" ==> r == Ok(VNone)
    ensures key != "" && obj.VDict? ==> r == Ok(if key in obj.entries then obj.entries[key] else VNone)
    ensures key != "" && obj.VList? && r.Ok? ==> r.value.VList? && |r.value.items| == |obj.items|
    decreases obj, 1
  {
    if key == "" then Ok(VNone)
    else match obj
      case VList(items) =>
        var values :- ValueForKeyEach(items, key);
        Ok(VList(values))
      case VDict(entries) => Ok(if key in entries then entries[key] else VNone)
      case _ => AttributeOf(obj, key)
  }

  /** The lookups of `key` on each of `items`, in order; the first failure wins. */
  function ValueForKeyEach(items: seq<Value>, key: string): (r: Result<seq<Value>, Error>)
    requires key != ""
    ensures r.Ok? ==> |r.value| == |items|
    decreases items, 0
  {
    if items == [] then Ok([])
    else
      var first :- ValueForKey(items[0], key);
      var rest :- ValueForKeyEach(items[1..], key);
      Ok([first] + rest)
  }

  lemma {:induction false} ValueForKeyEachIsPointwise(items: seq<Value>, key: string)
    requires key != ""
    ensures ValueForKeyEach(items, key).Ok? <==> forall k :: 0 <= k < |items| ==> ValueForKey(items[k], key).Ok?
    ensures ValueForKeyEach(items, key).Ok? ==>
              forall k :: 0 <= k < |items| ==> ValueForKeyEach(items, key).value[k] == ValueForKey(items[k], key).value
  {
    if items != [] {
      ValueForKeyEachIsPointwise(items[1..], key);
      assert forall k :: 1 <= k < |items| ==> items[k] == items[1..][k - 1];
    }
  }

  /** `valueForKeyPath(obj, keyPath)`: look up the part before the first '.', then the rest. */
  function ValueForKeyPath(obj: Value, keyPath: string): (r: Result<Value, Error>)
    ensures '.' !in keyPath ==> r == ValueForKey(obj, keyPath)
    ensures keyPath == "" ==> r == Ok(VNone)
    decreases |keyPath|
  {
    var dot := Strings.FindChar(keyPath, '.', 0);
    if dot == -1 then ValueForKey(obj, keyPath)
    else
      var intermediate :- ValueForKey(obj, keyPath[..dot]);
      ValueForKeyPath(intermediate, keyPath[dot + 1..])
  }

  /** Reference definition: look the keys up one after another. */
  function ValueForKeys(obj: Value, keys: seq<string>): Result<Value, Error>
    requires |keys| >= 1
    decreases |keys|
  {
    if |keys| == 1 then ValueForKey(obj, keys[0])
    else
      var intermediate :- ValueForKey(obj, keys[0]);
      ValueForKeys(intermediate, keys[1..])
  }

  /** A key path is the sequence of its '.'-separated keys, looked up left to right. */
  lemma {:induction false} ValueForKeyPathFollowsKeys(obj: Value, keyPath: string)
    ensures ValueForKeyPath(obj, keyPath) == ValueForKeys(obj, Strings.Split(keyPath, '.'))
    decreases |keyPath|
  {
    var dot := Strings.FindChar(keyPath, '.', 0);
    if dot != -1 {
      var keys := Strings.Split(keyPath, '.');
      assert keys == [keyPath[..dot]] + Strings.Split(keyPath[dot + 1..], '.');
      assert keys[1..] == Strings.Split(keyPath[dot + 1..], '.');
      var first := ValueForKey(obj, keyPath[..dot]);
      if first.Ok? {
        ValueForKeyPathFollowsKeys(first.value, keyPath[dot + 1..]);
      }
    }
  }

  /**
   * On a list, a key path whose keys are all non-empty reaches into every element:
   * when the lookup succeeds, it is the list of the lookups on the elements.
   */
  lemma {:induction false} ValueForKeysOnList(items: seq<Value>, keys: seq<string>)
    requires |keys| >= 1 && forall k :: 0 <= k < |keys| ==> keys[k] != ""
    ensures ValueForKeys(VList(items), keys).Ok? ==>
              (forall k :: 0 <= k < |items| ==> ValueForKeys(items[k], keys).Ok?) &&
              ValueForKeys(VList(items), keys).value ==
                VList(seq(|items|, k requires 0 <= k < |items| => ValueForKeys(items[k], keys).value))
    decreases |keys|
  {
    var first := ValueForKey(VList(items), keys[0]);
    ValueForKeyEachIsPointwise(items, keys[0]);
    if |keys| > 1 && first.Ok? && ValueForKeys(first.value, keys[1..]).Ok? {
      var values := first.value.items;
      ValueForKeysOnList(values, keys[1..]);
    }
  }

  /** The key path of the test suite: `names.total` reaches the nested entry. */
  lemma NestedKeyPathExample()
    ensures var names := VDict(map["short" := VList([VStr("Ada"), VStr("Bob"), VStr("Jim")]), "total" := VInt(6)]);
            ValueForKeyPath(VDict(map["author" := VStr("Douglas Adams"), "names" := names]), "names.total") == Ok(VInt(6))
  {
    var names := VDict(map["short" := VList([VStr("Ada"), VStr("Bob"), VStr("Jim")]), "total" := VInt(6)]);
    var obj := VDict(map["author" := VStr("Douglas Adams"), "names" := names]);
    assert Strings.FindChar("names.total", '.', 0) == 5;
    assert "names.total"[..5] == "names";
    assert "names.total"[6..] == "total";
    assert Strings.FindChar("total", '.', 0) == -1;
  }
}
