/**
 * JSON values as request bodies carry them, the lodash helpers the handlers
 * call on them, and Mongoose's cast of a value to a `String` schema path.
 */
module Json {
  import Strings

  /** A JSON value; numbers are integers in this model. */
  datatype Value =
    | Null
    | Bool(b: bool)
    | Num(n: int)
    | Str(s: string)
    | Arr(items: seq<Value>)
    | Obj(fields: map<string, Value>)

  /** A JSON object: a parsed request body, or a document turned into a plain object. */
  type Object = map<string, Value>

  /** A document id, in its 24-hex-digit string form (`toHexString()`). */
  type Id = string

  /** lodash `_.pick(obj, keys)`: the properties of `obj` named in `keys`, and no others (a parsed body has no inherited ones). */
  function Pick(obj: Object, keys: set<string>): (r: Object)
    ensures r.Keys == obj.Keys * keys
    ensures forall k :: k in r ==> r[k] == obj[k]
  {
    map k | k in obj.Keys * keys :: obj[k]
  }

  /** lodash `_.isBoolean(v) && v`: the property is present and is the boolean `true`. */
  predicate IsTrue(obj: Object, key: string) {
    key in obj && obj[key] == Bool(true)
  }

  /** What Mongoose makes of a value assigned to a `String` path. */
  datatype StringCast = Unset | Text(s: string) | CastError

  /** An object the cast treats as a document: its `_id` is a non-empty string. */
  predicate HasStringId(fields: map<string, Value>) {
    "_id" in fields && fields["_id"].Str? && fields["_id"].s != []
  }

  /**
   * Mongoose's `String` cast: `null` unsets the path, scalars become their
   * text, an object with a non-empty string `_id` becomes that `_id`, other
   * objects and arrays are refused.
   */
  function CastToString(v: Value): (r: StringCast)
    ensures r.CastError? <==> v.Arr? || (v.Obj? && !HasStringId(v.fields))
    ensures v.Obj? && HasStringId(v.fields) ==> r == Text(v.fields["_id"].s)
    ensures r.Unset? <==> v == Null
    ensures v.Str? ==> r == Text(v.s)
    ensures (v.Num? || v.Bool?) ==> r.Text? && r.s != [] && Strings.Trimmed(r.s)
    ensures v.Num? ==> r == Text(Strings.Decimal(v.n))
    ensures v.Bool? ==> r == Text(if v.b then "true" else "false")
  {
    match v
    case Null => Unset
    case Bool(b) => Text(if b then "true" else "false")
    case Num(n) => Text(Strings.Decimal(n))
    case Str(s) => Text(s)
    case Arr(_) => CastError
    case Obj(f) => if HasStringId(f) then Text(f["_id"].s) else CastError
  }
}
