/** JavaScript values as they appear in a generated webpack configuration, and
    the one operation the core applies to whole objects: `Object.assign`. */
module JsObjects {

  datatype Value =
    | Null
    | Bool(b: bool)
    | Number(n: int)
    | Str(s: string)
    | RegExp(source: string)
    | Array(items: seq<Value>)
    | Obj(fields: map<string, Value>)
    | ClassInstance(className: string, argument: Value)

  /** A plain object by its own enumerable properties (their order is not kept). */
  type Object = map<string, Value>

  /** `Object.assign(target, source)`: every own key of `source` is copied over
      `target`, every other key of `target` is left as it was. */
  function Assign(target: Object, source: Object): (r: Object)
    ensures r.Keys == target.Keys + source.Keys
    ensures forall k :: k in source ==> r[k] == source[k]
    ensures forall k :: k in target && k !in source ==> r[k] == target[k]
  {
    target + source
  }

  /** A string array. */
  function Strings(items: seq<string>): (r: Value)
    ensures r.Array? && |r.items| == |items|
    ensures forall i :: 0 <= i < |items| ==> r.items[i] == Str(items[i])
  {
    Array(seq(|items|, i requires 0 <= i < |items| => Str(items[i])))
  }
}
