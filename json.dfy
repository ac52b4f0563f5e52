/**
 * A decoded JSON document as Python holds it after `response.json()`, and
 * the few Python operations the handler applies to it: truth testing, the
 * `in` operator, subscription by a key and by the index 0.  Each operation
 * yields either its value or the exception Python raises.
 */
module Json {
  import opened Wrappers

  /** JSON values: a number written without fraction or exponent decodes to
      Python `int`, any other number (`1.0`, `1e3` included) to `float`. */
  datatype Value =
    | Null
    | Bool(b: bool)
    | Int(i: int)
    | Float(x: real)
    | Str(s: string)
    | Arr(items: seq<Value>)
    | Obj(fields: map<string, Value>)

  /** The Python exceptions the core can raise. */
  datatype Error =
    | KeyError(key: string)   // a dictionary lacks a key (the integer key 0 is written "0")
    // pandas' KeyError from `df[cols]`, whose message is one of two forms:
    | NoneOfColumns(requested: seq<string>)   // "None of [...] are in the [columns]": no requested column exists
    | ColumnsNotInIndex(missing: seq<string>) // "[...] not in index": these, some others existing
    | IndexError             // indexing an empty list or string
    | TypeError              // an operation applied to a value of the wrong kind
    | ValueError             // a year outside 1 to 9999, the DataFrame constructor rejected its input, or the body is not JSON
    | OverflowError          // a timestamp outside the platform's 64-bit time_t
    | RequestFailed          // the outbound request itself raised

  /** Python's truth value of a decoded JSON value (`if json_data:`). */
  predicate Truthy(v: Value)
    ensures !Truthy(v) <==>
      v == Null || v == Bool(false) || v == Int(0) || v == Float(0.0) || v == Str("") || v == Arr([]) || v == Obj(map[])
  {
    match v
    case Null => false
    case Bool(b) => b
    case Int(i) => i != 0
    case Float(x) => x != 0.0
    case Str(s) => s != ""
    case Arr(xs) => xs != []
    case Obj(m) => m != map[]
  }

  /** Whether `needle` occurs as a contiguous part of `hay`. */
  predicate IsSubstring(needle: string, hay: string)
    decreases |hay|
  {
    |needle| <= |hay| && (hay[..|needle|] == needle || IsSubstring(needle, hay[1..]))
  }

  /**
   * Python's `key in v`: a key of a dict, an element of a list, a substring
   * of a string; numbers, booleans and None do not support `in`.
   */
  function Contains(v: Value, key: string): (r: Result<bool, Error>)
    ensures v.Obj? ==> r == Ok(key in v.fields)
    ensures v.Arr? ==> r == Ok(Str(key) in v.items)
    ensures v.Str? ==> r == Ok(IsSubstring(key, v.s))
    ensures r.Err? <==> !(v.Obj? || v.Arr? || v.Str?)
    ensures r.Err? ==> r.error == TypeError
  {
    match v
    case Obj(m) => Ok(key in m)
    case Arr(xs) => Ok(Str(key) in xs)
    case Str(s) => Ok(IsSubstring(key, s))
    case _ => Err(TypeError)
  }

  /** Python's `v[key]` with a string key. */
  function Subscript(v: Value, key: string): (r: Result<Value, Error>)
    ensures r.Ok? <==> v.Obj? && key in v.fields
    ensures r.Ok? ==> r.value == v.fields[key]
    ensures v.Obj? && key !in v.fields ==> r == Err(KeyError(key))
  {
    match v
    case Obj(m) => if key in m then Ok(m[key]) else Err(KeyError(key))
    case _ => Err(TypeError)   // a list or string needs an integer index; scalars are not subscriptable
  }

  /** Python's `v[0]`. */
  function First(v: Value): (r: Result<Value, Error>)
    ensures r.Ok? <==> (v.Arr? && v.items != []) || (v.Str? && v.s != "")
    ensures v.Arr? && v.items != [] ==> r == Ok(v.items[0])
    ensures v.Arr? && v.items == [] ==> r == Err(IndexError)
  {
    match v
    case Arr(xs) => if xs == [] then Err(IndexError) else Ok(xs[0])
    case Str(s) => if s == "" then Err(IndexError) else Ok(Str([s[0]]))
    case Obj(_) => Err(KeyError("0"))   // JSON object keys are strings, never the integer 0
    case _ => Err(TypeError)
  }
}
