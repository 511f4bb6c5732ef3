/**
  The Python values that flow through task parameters, keyword arguments and
  result rows, with the built-ins the modelled code applies to them: `len`,
  `isinstance(value, Iterable)` and positional indexing `value[i]`.
 */
module Values {
  import opened Wrappers

  /** A Python value. `VList` stands for both lists and tuples; dictionaries have string keys. */
  datatype Value =
    | VNone
    | VBool(b: bool)
    | VInt(i: int)
    | VReal(r: real)
    | VStr(s: string)
    | VList(items: seq<Value>)
    | VDict(entries: map<string, Value>)

  /** The exception classes raised by the modelled code. */
  datatype PyError =
    | TypeError
    | ValueError
    | IndexError
    | KeyError
    | IntegrityError
    | DoesNotExist

  /** `len(v)`, or `None` where Python raises TypeError. Strings count their characters. */
  function Len(v: Value): (n: Option<nat>)
    ensures n.Some? <==> (v.VStr? || v.VList? || v.VDict?)
  {
    match v
    case VStr(s) => Some(|s|)
    case VList(items) => Some(|items|)
    case VDict(entries) => Some(|entries|)
    case _ => None
  }

  /** `try: length = len(value) except: length = 1` */
  function LengthOf(v: Value): (n: nat)
    ensures Len(v).Some? ==> n == Len(v).value
    ensures Len(v).None? ==> n == 1
  {
    match Len(v)
    case Some(n) => n
    case None => 1
  }

  /** `isinstance(v, collections.abc.Iterable)` */
  predicate IsIterable(v: Value) {
    v.VStr? || v.VList? || v.VDict?
  }

  /** `v[i]` for a non-negative integer index. */
  function Index(v: Value, i: nat): (r: Result<Value, PyError>)
    ensures r.Ok? <==> (v.VStr? || v.VList?) && i < LengthOf(v)
    ensures r.Ok? && v.VStr? ==> r.value == VStr([v.s[i]])
    ensures r.Ok? && v.VList? ==> r.value == v.items[i]
  {
    match v
    case VStr(s) => if i < |s| then Ok(VStr([s[i]])) else Err(IndexError)
    case VList(items) => if i < |items| then Ok(items[i]) else Err(IndexError)
    case VDict(_) => Err(KeyError)
    case _ => Err(TypeError)
  }
}
