/** The JavaScript values that reach the plugin through its configuration, and
    the language operations its code applies to them: truthiness, `typeof`,
    property reads, `??` and conversion to a string. */
module JsValues {
  import opened Wrappers
  import opened Host
  import Decimal

  /** A JavaScript value. An object is given by its own enumerable string-keyed
      properties in the order `Object.entries` lists them. */
  datatype JsValue =
    | Undefined
    | Null
    | Bool(b: bool)
    | Number(n: int)
    | Str(s: string)
    | Object(entries: seq<(string, JsValue)>)

  /** The values `!v` maps to false: exactly `undefined`, `null`, `false`, 0 and "". */
  predicate Truthy(v: JsValue)
    ensures !Truthy(v) <==> v in {Undefined, Null, Bool(false), Number(0), Str("")}
  {
    match v
    case Undefined => false
    case Null => false
    case Bool(b) => b
    case Number(n) => n != 0
    case Str(s) => s != ""
    case Object(_) => true
  }

  function TypeOf(v: JsValue): (t: string)
    ensures t == "object" <==> v.Object? || v.Null?
  {
    match v
    case Undefined => "undefined"
    case Null => "object"
    case Bool(_) => "boolean"
    case Number(_) => "number"
    case Str(_) => "string"
    case Object(_) => "object"
  }

  /** The values `??` replaces and whose properties cannot be read. */
  predicate IsNullish(v: JsValue) {
    v.Undefined? || v.Null?
  }

  /** `a ?? b` */
  function Coalesce(a: JsValue, b: JsValue): (r: JsValue)
    ensures !IsNullish(a) ==> r == a
    ensures IsNullish(a) ==> r == b
  {
    if IsNullish(a) then b else a
  }

  /** The value of the first entry named `key`, or `undefined`. */
  function Lookup(entries: seq<(string, JsValue)>, key: string): (r: JsValue)
    ensures (forall i :: 0 <= i < |entries| ==> entries[i].0 != key) ==> r == Undefined
    ensures (exists i :: 0 <= i < |entries| && entries[i].0 == key) ==>
      exists i :: 0 <= i < |entries| && entries[i] == (key, r) &&
        forall j :: 0 <= j < i ==> entries[j].0 != key
  {
    if entries == [] then Undefined
    else if entries[0].0 == key then entries[0].1
    else
      var r := Lookup(entries[1..], key);
      assert forall i :: 1 <= i < |entries| ==> entries[i] == entries[1..][i - 1];
      r
  }

  /** `v[key]` on a value whose properties can be read. Keys of primitives and
      inherited keys are not modelled: both read as `undefined`. */
  function Prop(v: JsValue, key: string): (r: JsValue)
    ensures r != Undefined ==> v.Object? && exists i :: 0 <= i < |v.entries| && v.entries[i] == (key, r)
    ensures v.Object? && HasOwnKey(v.entries, key) ==>
      exists i :: 0 <= i < |v.entries| && v.entries[i] == (key, r) &&
        forall j :: 0 <= j < i ==> v.entries[j].0 != key
  {
    if v.Object? then Lookup(v.entries, key) else Undefined
  }

  /** The object has an own property named `key`. */
  predicate HasOwnKey(entries: seq<(string, JsValue)>, key: string) {
    exists i :: 0 <= i < |entries| && entries[i].0 == key
  }

  /** An environment variable or a host option: a string or `undefined`. */
  function FromOptional(o: Option<string>): (v: JsValue)
    ensures v.Undefined? <==> o.None?
  {
    if o.Some? then Str(o.value) else Undefined
  }

  /** A value other than `undefined`, as the test of `mapOptional` sees it. */
  function Defined(v: JsValue): (r: Option<JsValue>)
    ensures r.None? <==> v.Undefined?
    ensures r.Some? ==> r.value == v
  {
    if v.Undefined? then None else Some(v)
  }

  /** `String(v)`, which `RegExp.prototype.exec` and template literals apply to
      a value. A plain object prints through the inherited `toString`. An object
      with an own `toString` entry, which in this model is never a function,
      falls back to the inherited `valueOf`, which returns the object itself,
      so the conversion throws a TypeError. */
  function ToJsString(v: JsValue): (r: Result<string, PluginError>)
    ensures r.Failure? <==> v.Object? && HasOwnKey(v.entries, "toString")
    ensures r.Failure? ==> r.error == NotConvertibleToString
    ensures v.Str? ==> r == Success(v.s)
    ensures r.Success? && !v.Str? ==> '/' !in r.value
  {
    match v
    case Undefined => Success("undefined")
    case Null => Success("null")
    case Bool(b) => Success(if b then "true" else "false")
    case Number(n) => Success(Decimal.IntToString(n))
    case Str(s) => Success(s)
    case Object(entries) =>
      if HasOwnKey(entries, "toString") then Failure(NotConvertibleToString) else Success("[object Object]")
  }
}
