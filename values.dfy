/** The Python values the answering code inspects: language-model responses, the
    `inputs` of a query, retrieved documents. Only what the code looks at is kept:
    the kind of a value, its items or entries, its attributes, its truthiness and
    what `str()` makes of it. */
module PyValues {

  datatype Option<+T> = None | Some(value: T) {
    function GetOr(default: T): T {
      match this
      case Some(v) => v
      case None => default
    }
  }

  /** A call or computation that either gives a value or raises with a message. */
  datatype Result<+T> = Ok(value: T) | Err(message: string)

  /** A Python value.
      - `shown` is what `str()` gives for a value whose text the language does not fix
        here (a non-empty container, an arbitrary object); `None` when `__str__` raises.
        The `shown` of an empty list, tuple or dict is not used.
      - `Dict` keys are strings; `Obj` is any object that is neither a str, a list, a
        tuple nor a dict, with the attributes it exposes (`hasattr` is key membership).
      - `Other` stands for the remaining built-in scalars (numbers, booleans, ...),
        which have no attributes and no length. */
  datatype Value =
    | NoneV
    | Str(s: string)
    | List(items: seq<Value>, shown: Option<string>)
    | Tuple(items: seq<Value>, shown: Option<string>)
    | Dict(entries: map<string, Value>, shown: Option<string>)
    | Obj(attrs: map<string, Value>, shown: Option<string>)
    | Other(truthy: bool, shown: Option<string>)

  /** Python truthiness, as used by `not x` and `x or y`. */
  predicate Truthy(v: Value) {
    match v
    case NoneV => false
    case Str(s) => s != ""
    case List(items, _) => items != []
    case Tuple(items, _) => items != []
    case Dict(entries, _) => entries != map[]
    case Obj(_, _) => true
    case Other(t, _) => t
  }

  /** `str(v)` (also what `format` gives for a value with the empty format spec);
      `None` when the conversion raises. */
  function Show(v: Value): Option<string> {
    match v
    case NoneV => Some("None")
    case Str(s) => Some(s)
    case List(items, shown) => if items == [] then Some("[]") else shown
    case Tuple(items, shown) => if items == [] then Some("()") else shown
    case Dict(entries, shown) => if entries == map[] then Some("{}") else shown
    case Obj(_, shown) => shown
    case Other(_, shown) => shown
  }

  /** `hasattr(v, name)`. */
  predicate HasAttr(v: Value, name: string) {
    v.Obj? && name in v.attrs
  }

  /** `getattr(v, name, default)`. */
  function GetAttr(v: Value, name: string, default: Value): Value {
    if HasAttr(v, name) then v.attrs[name] else default
  }

  /** `d.get(key, default)` on the entries of a dict. */
  function DictGet(entries: map<string, Value>, key: string, default: Value): Value {
    if key in entries then entries[key] else default
  }
}
