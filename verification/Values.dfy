/** Values handled by both helpers: the fields of a record, the options a
    caller passes in, and whatever is handed to the JSON encoder. Ruby's
    dynamic objects are narrowed to the kinds the helpers branch on. */
module Values {

  /** An optional value; `None` stands for Ruby's `nil` (an absent key or argument). */
  datatype Option<+T> = None | Some(value: T)

  /** A field value. `Time` stands for the classes the localiser accepts
      (Time, Date, DateTime), as an abstract instant; `Hash` is a nested
      object or hash whose fields can be looked up by name. */
  datatype Value =
    | Nil
    | Bool(b: bool)
    | Int(i: int)
    | Str(s: string)
    | Time(t: int)
    | Hash(d: Dict)

  /** An object's attributes: their native order in `keys`, their values in `vals`. */
  datatype Dict = Dict(keys: seq<string>, vals: map<string, Value>)

  /** An attribute list as an object reports it: each name once, and
      exactly the names that have values. */
  predicate WellFormed(d: Dict)
  {
    && (forall i, j :: 0 <= i < j < |d.keys| ==> d.keys[i] != d.keys[j])
    && d.vals.Keys == set k | k in d.keys
  }

  /** The conversions the helpers borrow from Ruby and Rails, supplied by
      the caller: `to_s` as string interpolation uses it, `to_json`,
      the locale's date formatting, and the empty HTML element with a given id. */
  datatype Host = Host(
    toS: Value -> string,
    toJson: Value -> string,
    localize: int -> string,
    contentTag: (string, string) -> string)

  /** The empty hash `{}`. */
  const EmptyHash: Value := Hash(Dict([], map[]))

  /** Ruby's `h[k]`: the stored value, or `nil` when the key is absent. */
  function Get(m: map<string, Value>, k: string): (v: Value)
    ensures k in m ==> v == m[k]
    ensures k !in m ==> v == Nil
  {
    if k in m then m[k] else Nil
  }

  /** Ruby truthiness: everything except `nil` and `false`. */
  predicate Truthy(v: Value)
  {
    !(v.Nil? || v == Bool(false))
  }
}
