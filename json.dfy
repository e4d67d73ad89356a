/** The values `response.json()` can yield, and the two JavaScript operations the
    store applies to them: reading a property and testing truthiness. */
module Json {
  import opened Outcomes

  datatype Value =
    | Null
    | Bool(b: bool)
    | Number(n: real)
    | Str(s: string)
    | Array(items: seq<Value>)
    | Object(members: map<string, Value>)

  /** The property access `v.key`: it throws on `null`, gives the member of an
      object, and `undefined` (None) otherwise. Built-in properties of strings,
      arrays and prototypes are not modelled; the store reads only `success`. */
  function Member(v: Value, key: string): (r: Outcome<Option<Value>>)
    ensures r.Threw? <==> v.Null?
    ensures r.Threw? ==> r.error == TypeError
    ensures r.Done? && r.value.Some? <==> v.Object? && key in v.members
    ensures r.Done? && r.value.Some? ==> r.value.value == v.members[key]
  {
    match v
    case Null => Threw(TypeError)
    case Object(m) => Done(if key in m then Some(m[key]) else None)
    case _ => Done(None)
  }

  /** JavaScript truthiness of a property value; None stands for `undefined`. */
  predicate Truthy(v: Option<Value>)
  {
    match v
    case None => false
    case Some(x) =>
      match x
      case Null => false
      case Bool(b) => b
      case Number(n) => n != 0.0
      case Str(s) => s != ""
      case _ => true
  }

  /** The falsy values, as ECMAScript's ToBoolean lists them for the values a
      JSON body can hold: `undefined`, `null`, `false`, `0` and `""`. Everything
      else, empty arrays and objects included, is truthy. */
  lemma FalsyValues(v: Option<Value>)
    ensures !Truthy(v) <==>
              v == None || v == Some(Null) || v == Some(Bool(false)) ||
              v == Some(Number(0.0)) || v == Some(Str(""))
  {
  }
}
