/** The dynamically typed values that flow through the seeding definitions
    and the API payloads: the Python values a JSON document or a fixture can
    hold, plus model instances identified by their model and primary key. */
module PyValue {
  import opened Common

  datatype Value =
    | NoneV
    | BoolV(b: bool)
    | IntV(i: int)
    /** A number with a fractional part, exact to three decimal places. */
    | DecimalV(thousandths: int)
    | StrV(s: string)
    | BytesV(data: seq<bv8>)
    /** A list or tuple. */
    | ListV(items: seq<Value>)
    /** A dict: its entries, and its keys in insertion order (the order that
        iterating over it yields). */
    | MappingV(entries: map<string, Value>, order: seq<string>)
    /** A saved model instance, e.g. a `Block` or a `User`. */
    | ObjectV(model: string, pk: nat)

  /** Python's truth value of `v`. */
  predicate Truthy(v: Value)
  {
    match v
    case NoneV => false
    case BoolV(b) => b
    case IntV(i) => i != 0
    case DecimalV(t) => t != 0
    case StrV(s) => s != []
    case BytesV(d) => d != []
    case ListV(xs) => xs != []
    case MappingV(es, _) => es != map[]
    case ObjectV(_, _) => true
  }

  /** Python's `a or b`: the first operand when it is truthy, else the second. */
  function Or(a: Value, b: Value): (r: Value)
    ensures Truthy(r) <==> Truthy(a) || Truthy(b)
    ensures r == a || r == b
    ensures Truthy(a) ==> r == a
  {
    if Truthy(a) then a else b
  }

  /** `d.get(key, default)`. */
  function GetOr(es: map<string, Value>, key: string, default: Value): (r: Value)
    ensures key !in es ==> r == default
    ensures key in es ==> r == es[key]
  {
    if key in es then es[key] else default
  }

  /** `str(v)` for the scalar values a key or a label is made of. Other values
      are rendered by a fixed placeholder. */
  function PyStr(v: Value): (s: string)
    ensures v.StrV? ==> s == v.s
    ensures v.IntV? ==> s == IntToString(v.i)
    ensures v.NoneV? ==> s == "None"
    ensures v.BoolV? ==> s == if v.b then "True" else "False"
  {
    match v
    case NoneV => "None"
    case BoolV(b) => if b then "True" else "False"
    case IntV(i) => IntToString(i)
    case StrV(s) => s
    case _ => "<object>"
  }
}
