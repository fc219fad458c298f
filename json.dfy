/**
 * The part of `serde_json::Value` the query parser reads. An object is the
 * sequence of its entries in iteration order (serde_json's default map iterates
 * in key order); `Get` finds the entry for a key as `Value::get` does.
 */
module Json {
  import opened Wrappers
  import opened Queries

  /** serde_json's number: a non-negative integer, a negative integer or a float. */
  datatype Number = PosInt(u: u64) | NegInt(i: int) | Float

  datatype Json =
    | Null
    | Bool(b: bool)
    | Number(n: Number)
    | String(s: string)
    | Array(items: seq<Json>)
    | Object(entries: seq<Member>)

  /** One `(key, value)` entry of an object. */
  datatype Member = Member(key: string, value: Json)

  /** A size that every nested value is strictly smaller in (used for termination). */
  function Size(v: Json): nat
    decreases v
  {
    match v
    case Array(items) => 1 + ItemsSize(items)
    case Object(entries) => 1 + EntriesSize(entries)
    case _ => 1
  }

  function ItemsSize(items: seq<Json>): nat
    decreases items
  {
    if items == [] then 0 else Size(items[0]) + ItemsSize(items[1..])
  }

  function EntriesSize(entries: seq<Member>): nat
    decreases entries
  {
    if entries == [] then 0 else Size(entries[0].value) + EntriesSize(entries[1..])
  }

  /** The value of the first entry named `key`. */
  function Lookup(entries: seq<Member>, key: string): (r: Option<Json>)
    ensures r.Some? <==> exists i :: 0 <= i < |entries| && entries[i].key == key
    ensures r.Some? ==> Size(r.value) <= EntriesSize(entries)
    ensures r.Some? ==> exists i :: 0 <= i < |entries| && entries[i].key == key && entries[i].value == r.value
    decreases entries
  {
    if entries == [] then None
    else if entries[0].key == key then Some(entries[0].value)
    else
      var r := Lookup(entries[1..], key);
      assert r.Some? ==> exists i :: 0 <= i < |entries[1..]| && entries[1..][i].key == key && entries[1..][i].value == r.value;
      assert forall i :: 1 <= i < |entries| ==> entries[i] == entries[1..][i - 1];
      r
  }

  /** `Value::get(key)`: the entry's value when `v` is an object that has `key`, otherwise nothing. */
  function Get(v: Json, key: string): (r: Option<Json>)
    ensures r.Some? ==> Size(r.value) < Size(v)
    ensures r.Some? <==> v.Object? && exists i :: 0 <= i < |v.entries| && v.entries[i].key == key
  {
    if v.Object? then Lookup(v.entries, key) else None
  }

  /** `v[key]`: like `Get`, with `Null` in place of a missing value. */
  function Index(v: Json, key: string): Json
  {
    match Get(v, key)
    case Some(x) => x
    case None => Null
  }

  function AsU64(v: Json): Option<u64>
  {
    if v.Number? && v.n.PosInt? then Some(v.n.u) else None
  }

  function AsStr(v: Json): Option<string>
  {
    if v.String? then Some(v.s) else None
  }

  function AsBool(v: Json): Option<bool>
  {
    if v.Bool? then Some(v.b) else None
  }
}
