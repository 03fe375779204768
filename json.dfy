/**
  Values produced by decoding a JSON reply, as the Python objects the analyzer
  stores in its result record. JSON `null` decodes to Python `None`.
*/
module Json {

  datatype Value =
    | Null                               // Python None
    | Bool(b: bool)
    | Int(i: int)
    | Float(x: real)
    | Str(s: string)
    | List(items: seq<Value>)
    | Dict(entries: map<string, Value>)

  /** `data.get(key)`: the stored value, or `None` when the key is absent. */
  function Get(data: map<string, Value>, key: string): (v: Value)
    ensures v == GetOr(data, key, Null)
    ensures v != Null ==> key in data
  {
    if key in data then data[key] else Null
  }

  /** `data.get(key, default)`. */
  function GetOr(data: map<string, Value>, key: string, default: Value): (v: Value)
    ensures key in data ==> v == data[key]
    ensures key !in data ==> v == default
    ensures v in data.Values || v == default
  {
    if key in data then data[key] else default
  }

  /** A list of strings, as the payload's `keywords` is meant to be. */
  function Strings(ws: seq<string>): (v: Value)
    ensures v.List? && |v.items| == |ws|
    ensures forall i :: 0 <= i < |ws| ==> v.items[i] == Str(ws[i])
  {
    if ws == [] then List([]) else List([Str(ws[0])] + Strings(ws[1..]).items)
  }
}
