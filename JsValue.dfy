/**
 * A JavaScript value as the parsers see it: what a YAML deserialiser returns,
 * or whatever a caller passes in place of a text. Numbers are integers here.
 */
module JsValue {

  import opened Options

  datatype Value =
    | Undefined
    | Null
    | Bool(b: bool)
    | Num(n: int)
    | Str(s: string)
    | Arr(items: seq<Value>)
    | Obj(fields: map<string, Value>)

  /** JavaScript truthiness (`if (v)`, `!v`, `v || d`). */
  predicate Truthy(v: Value) {
    match v
    case Undefined => false
    case Null => false
    case Bool(b) => b
    case Num(n) => n != 0
    case Str(s) => s != []
    case Arr(_) => true
    case Obj(_) => true
  }

  /** `a || b` */
  function Or(a: Value, b: Value): (r: Value)
    ensures Truthy(a) ==> r == a
    ensures !Truthy(a) ==> r == b
  {
    if Truthy(a) then a else b
  }

  /**
   * Property access `v.key`: undefined unless v is a mapping holding key.
   * (None of the keys the parsers read is a property of arrays or strings.)
   */
  function Get(v: Value, key: string): (r: Value)
    ensures r != Undefined ==> v.Obj? && key in v.fields && r == v.fields[key]
  {
    if v.Obj? && key in v.fields then v.fields[key] else Undefined
  }

  /** `v && typeof v === 'object'`: a mapping or an array (null is excluded by truthiness). */
  predicate IsObjectLike(v: Value) {
    v.Arr? || v.Obj?
  }

  /**
   * The guard every text extractor starts with, `!raw || typeof raw !== 'string'`:
   * the text when raw is a non-empty string, None otherwise.
   */
  function NonEmptyText(raw: Value): (t: Option<string>)
    ensures t.Some? <==> raw.Str? && raw.s != []
    ensures t.Some? ==> t.value == raw.s
  {
    if raw.Str? && raw.s != [] then Some(raw.s) else None
  }
}
