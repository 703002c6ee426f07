/** The Python values that travel as lookup values, statement parameters and
    row columns, with the built-ins the ORM applies to them: truth testing,
    `len(v)` and `list(v)` / `tuple(v)`. */
module Values {
  import opened Wrappers

  datatype Value =
    | PyNone
    | PyBool(b: bool)
    | PyInt(i: int)
    | PyStr(s: string)
    | PyTuple(items: seq<Value>)

  /** A database row: one value per selected column. */
  type Row = seq<Value>

  /** Python truth testing (`bool(v)`). */
  predicate Truthy(v: Value)
  {
    match v
    case PyNone => false
    case PyBool(b) => b
    case PyInt(i) => i != 0
    case PyStr(s) => s != ""
    case PyTuple(items) => items != []
  }

  /** `len(v)`: defined for strings and tuples, a TypeError otherwise. */
  function Length(v: Value): (r: Result<nat>)
    ensures r.Ok? <==> (v.PyStr? || v.PyTuple?)
    ensures v.PyTuple? ==> r == Ok(|v.items|)
    ensures v.PyStr? ==> r == Ok(|v.s|)
  {
    match v
    case PyStr(s) => Ok(|s|)
    case PyTuple(items) => Ok(|items|)
    case _ => Err(TypeError("object has no len()"))
  }

  /** The elements `list(v)` yields: a tuple's items or a string's characters. */
  function Elements(v: Value): (r: Result<seq<Value>>)
    ensures r.Ok? <==> (v.PyStr? || v.PyTuple?)
    ensures v.PyTuple? ==> r == Ok(v.items)
    ensures r.Ok? ==> Length(v) == Ok(|r.value|)
    ensures v.PyStr? && r.Ok? ==> forall k :: 0 <= k < |v.s| ==> r.value[k] == PyStr([v.s[k]])
  {
    match v
    case PyStr(s) => Ok(seq(|s|, k requires 0 <= k < |s| => PyStr([s[k]])))
    case PyTuple(items) => Ok(items)
    case _ => Err(TypeError("object is not iterable"))
  }
}
