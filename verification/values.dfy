/** The Python values that cross the modelled interfaces: result records,
    details dictionaries, message payloads and context entries. */
module Values {
  import opened Wrappers
  import Dicts

  datatype Value =
    | Null
    | Bool(b: bool)
    | Int(i: int)
    | Str(s: string)
    | List(items: seq<Value>)
    | Dict(entries: Dicts.Dict<string, Value>)

  /** Python truthiness: `None`, `False`, `0`, `""`, `[]` and `{}` are false. */
  predicate Truthy(v: Value)
  {
    match v
    case Null => false
    case Bool(b) => b
    case Int(i) => i != 0
    case Str(s) => s != ""
    case List(items) => items != []
    case Dict(entries) => entries != []
  }

  /** Truthiness of an optional string field such as a node's task or id. */
  predicate Filled(o: Option<string>)
  {
    o.Some? && o.value != ""
  }

  /** `d[key]` on a dictionary value; `None` when absent or not a dictionary. */
  function Field(v: Value, key: string): Option<Value>
  {
    if v.Dict? then Dicts.Get(v.entries, key) else None
  }

  /** An optional string as a Python value (`None` or a `str`). */
  function OptStr(o: Option<string>): (v: Value)
    ensures v == Null <==> o.None?
  {
    match o
    case None => Null
    case Some(s) => Str(s)
  }

  /** Reads back an optional string written by `OptStr`. */
  function ReadOptStr(v: Value): Option<Option<string>>
  {
    match v
    case Null => Some(None)
    case Str(s) => Some(Some(s))
    case _ => None
  }

  /** A list of strings as a Python list. */
  function Strs(xs: seq<string>): (vs: seq<Value>)
    ensures |vs| == |xs|
    ensures forall i :: 0 <= i < |xs| ==> vs[i] == Str(xs[i])
  {
    seq(|xs|, i requires 0 <= i < |xs| => Str(xs[i]))
  }

  /** The `{"status": ..., "message": ...}` records the state handlers return. */
  function StatusRecord(status: string, message: string): (v: Value)
    ensures Field(v, "status") == Some(Str(status))
    ensures Field(v, "message") == Some(Str(message))
  {
    var entries := [("status", Str(status)), ("message", Str(message))];
    Dicts.GetFirst(entries, 1, "message");
    Dict(entries)
  }

  lemma OptStrRoundTrip(o: Option<string>)
    ensures ReadOptStr(OptStr(o)) == Some(o)
  {
  }
}
