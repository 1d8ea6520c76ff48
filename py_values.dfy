/** The Python values the modelled code passes around as keyword arguments
    and as a backend's worker count. */
module PyValues {
  import opened PyText

  datatype Value = PyNone | PyBool(b: bool) | PyInt(i: int) | PyStr(s: string)

  /** `bool(v)`. */
  predicate Truthy(v: Value) {
    match v
    case PyNone => false
    case PyBool(b) => b
    case PyInt(i) => i != 0
    case PyStr(s) => s != []
  }

  /** `isinstance(v, int)`: Python's `bool` is a subclass of `int`. */
  predicate IsInt(v: Value) {
    v.PyInt? || v.PyBool?
  }

  /** The integer an `int` instance stands for (`True == 1`, `False == 0`). */
  function IntOf(v: Value): int
    requires IsInt(v)
  {
    match v
    case PyInt(i) => i
    case PyBool(b) => if b then 1 else 0
  }

  /** `repr(v)`. */
  function Repr(v: Value): string {
    match v
    case PyNone => "None"
    case PyBool(b) => if b then "True" else "False"
    case PyInt(i) => IntToString(i)
    case PyStr(s) => StrRepr(s)
  }
}
