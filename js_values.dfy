/**
 * The JavaScript values the worker handles: what `response.json()` can
 * produce from the record store's body, what reading a property of it gives,
 * and the truthiness and `||` rules the worker relies on.
 */
module JsValues {

  /** A value parsed from a JSON body. */
  datatype Json =
    | JNull
    | JBool(b: bool)
    | JNumber(n: real)
    | JString(s: string)
    | JArray(items: seq<Json>)
    | JObject(members: map<string, Json>)

  /**
   * The keys the worker reads from a record. None of them is a property that
   * arrays, strings or `Object.prototype` carry, so reading one of them is a
   * lookup of the object's own member and nothing else.
   */
  predicate WorkerKey(key: string) {
    key == "linkproduk" || key == "name" || key == "description" || key == "image"
  }

  /** A JavaScript value taken from a parsed body: `undefined` when a property is missing. */
  datatype JsValue = Undefined | Defined(json: Json)

  /** How a JavaScript expression completes: with a value, or by throwing an error with a message. */
  datatype Completion<T> = Normal(value: T) | Throw(message: string) {

    /** A thrown error propagates out of the enclosing expression. */
    predicate IsFailure() {
      Throw?
    }

    function PropagateFailure<U>(): Completion<U>
      requires Throw?
    {
      Throw(message)
    }

    function Extract(): T
      requires Normal?
    {
      value
    }
  }

  /** JavaScript truthiness: `undefined`, `null`, `false`, `0` (and `-0`) and `''` are falsy. */
  predicate Truthy(v: JsValue)
    ensures Truthy(v) ==> v.Defined? && v.json != JNull && v.json != JBool(false) && v.json != JString("")
    ensures v.Defined? && (v.json.JArray? || v.json.JObject?) ==> Truthy(v)
  {
    match v
    case Undefined => false
    case Defined(JNull) => false
    case Defined(JBool(b)) => b
    case Defined(JNumber(n)) => n != 0.0
    case Defined(JString(s)) => s != ""
    case Defined(JArray(_)) => true
    case Defined(JObject(_)) => true
  }

  /**
   * `data.key` for a parsed body that is not `null` and one of the keys the
   * worker reads: only an object carries such a key, as its own member; every
   * other kind of value reads as `undefined`.
   */
  function Property(data: Json, key: string): (r: JsValue)
    requires WorkerKey(key) && data != JNull
    ensures r.Defined? <==> data.JObject? && key in data.members
    ensures r.Defined? ==> r.json == data.members[key]
  {
    match data
    case JObject(members) => if key in members then Defined(members[key]) else Undefined
    case _ => Undefined
  }

  /** `v || fallback` with a string fallback. */
  function OrElse(v: JsValue, fallback: string): (r: JsValue)
    ensures Truthy(v) ==> r == v
    ensures !Truthy(v) ==> r == Defined(JString(fallback))
    ensures fallback != "" ==> Truthy(r)
  {
    if Truthy(v) then v else Defined(JString(fallback))
  }
}
