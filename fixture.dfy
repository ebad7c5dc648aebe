/** The values a fixture's `data` holds once its JSON document is parsed: strings,
    integer numbers, booleans, null, arrays and objects. A lambda is not a separate
    kind of value: it is an object whose `__tag__` entry is the string "code". An
    object is the sequence of its own entries in the order JavaScript enumerates them. */
module Fixture {
  import opened Text

  datatype Value =
    | Str(s: string)
    | Num(n: int)
    | Bool(b: bool)
    | Null
    | List(items: seq<Value>)
    | Obj(entries: seq<(string, Value)>)

  type Entries = seq<(string, Value)>

  /** `typeof v === "object"`: true of null, arrays and objects. */
  predicate IsObjectType(v: Value)
  {
    v.Null? || v.List? || v.Obj?
  }

  /** Property access `obj[key]` on an object's entries. */
  function Lookup(entries: Entries, key: string): (r: Option<Value>)
    ensures r.Some? <==> exists i :: 0 <= i < |entries| && entries[i].0 == key
    ensures r.Some? ==> exists i :: 0 <= i < |entries| && entries[i] == (key, r.value)
  {
    if entries == [] then None
    else if entries[0].0 == key then Some(entries[0].1)
    else
      var r := Lookup(entries[1..], key);
      assert forall i :: 0 < i < |entries| ==> entries[i] == entries[1..][i - 1];
      assert r.Some? ==> entries[1..][0] == entries[1];
      r
  }

  /** A lambda as the fixtures write it: an object tagged as code, with its Bash body. */
  function Lambda(bash: string): Value
  {
    Obj([("__tag__", Str("code")), ("bash", Str(bash))])
  }

  /** JavaScript's ToBoolean: the empty string, zero, false and null are falsy. */
  predicate Truthy(v: Value)
  {
    match v
    case Str(s) => s != ""
    case Num(n) => n != 0
    case Bool(b) => b
    case Null => false
    case List(_) => true
    case Obj(_) => true
  }

  /** JavaScript's ToString as a template literal applies it: arrays join their
      elements with "," (null elements becoming ""), plain objects give "[object Object]". */
  function JsString(v: Value): string
    decreases v
  {
    match v
    case Str(s) => s
    case Num(n) => Decimal(n)
    case Bool(b) => if b then "true" else "false"
    case Null => "null"
    case List(items) =>
      Join(seq(|items|, i requires 0 <= i < |items| => if items[i].Null? then "" else JsString(items[i])), ",")
    case Obj(_) => "[object Object]"
  }
}
