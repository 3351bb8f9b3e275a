/** Cell and field values as the pipeline sees them, and the few Python
    behaviours on them that the parsers rely on: truthiness, `or`, `any`,
    `dict.get` and `list.index`. */
module Values {
  import opened Wrappers
  import opened DateTimes

  /** A cell of a sheet or CSV row, or a field of a ledger item.
      `Nil` is Python's None; `NaN` is the missing-value marker pandas puts in
      empty cells (a float, and truthy); numbers are exact reals. */
  datatype Value =
    | Nil
    | NaN
    | Str(s: string)
    | Num(x: real)
    | Stamp(dt: Timestamp)

  /** Python truthiness. */
  predicate Truthy(v: Value)
  {
    match v
    case Nil => false
    case NaN => true
    case Str(s) => s != []
    case Num(x) => x != 0.0
    case Stamp(_) => true
  }

  /** `a or b`. */
  function Or(a: Value, b: Value): (r: Value)
    ensures Truthy(a) ==> r == a
    ensures !Truthy(a) ==> r == b
  {
    if Truthy(a) then a else b
  }

  /** Python's `any(values)`. */
  predicate Any(vs: seq<Value>)
  {
    exists i :: 0 <= i < |vs| && Truthy(vs[i])
  }

  /** A ledger item or a CSV row: a dict from field names to values. */
  type Item = map<string, Value>

  /** `item.get(key, default)`. */
  function Get(item: Item, key: string, default: Value): (r: Value)
    ensures key in item ==> r == item[key]
    ensures key !in item ==> r == default
  {
    if key in item then item[key] else default
  }

  /** `values.index(v)`: the first position holding `v`, None for the
      ValueError raised when there is none. */
  function IndexOf(vs: seq<Value>, v: Value): (r: Option<nat>)
    ensures r.None? <==> v !in vs
    ensures r.Some? ==> r.value < |vs| && vs[r.value] == v && v !in vs[..r.value]
  {
    if vs == [] then None
    else if vs[0] == v then Some(0)
    else match IndexOf(vs[1..], v)
      case None => None
      case Some(i) =>
        assert vs[..i + 1] == [vs[0]] + vs[1..][..i];
        Some(i + 1)
  }
}
