/**
 * JSON values as the handler sees them after `JSON.parse`, and the
 * JavaScript notions it applies to them (property read, truthiness,
 * object spread).
 */
module JsonValue {
  import opened Wrappers

  /** A parsed JSON value. Numbers are modelled as integers. */
  datatype Json =
    | Null
    | Bool(b: bool)
    | Num(n: int)
    | Str(s: string)
    | Arr(elems: seq<Json>)
    | Obj(fields: seq<(string, Json)>)

  /** No key occurs twice among the entries. */
  ghost predicate DistinctKeys(entries: seq<(string, Json)>) {
    forall i, j :: 0 <= i < j < |entries| ==> entries[i].0 != entries[j].0
  }

  /**
   * A parsed JSON object: its own properties in `Object.keys` order,
   * each key once (a later duplicate in the text only replaces the value).
   */
  type JsonObject = entries: seq<(string, Json)> | DistinctKeys(entries)

  /** The keys of a list of entries. */
  function KeySet(entries: seq<(string, Json)>): set<string> {
    set i | 0 <= i < |entries| :: entries[i].0
  }

  /** The object as an unordered attribute map. */
  function AsMap(o: JsonObject): (m: map<string, Json>)
    ensures m.Keys == KeySet(o)
    ensures forall i :: 0 <= i < |o| ==> m[o[i].0] == o[i].1
  {
    map i | 0 <= i < |o| :: o[i].0 := o[i].1
  }

  /** The property read `o[key]`: `None` when the object has no such own property. */
  function Property(o: JsonObject, key: string): (r: Option<Json>)
    ensures r.Some? <==> key in KeySet(o)
    ensures forall i :: 0 <= i < |o| && o[i].0 == key ==> r == Some(o[i].1)
  {
    var m := AsMap(o);
    if key in m then Some(m[key]) else None
  }

  /** JavaScript truthiness of a property read: undefined, null, false, 0 and "" are falsy. */
  predicate Truthy(v: Option<Json>) {
    match v
    case None => false
    case Some(Null) => false
    case Some(Bool(b)) => b
    case Some(Num(n)) => n != 0
    case Some(Str(s)) => s != ""
    case Some(_) => true
  }

  /** The falsy values are exactly undefined, null, false, 0 and the empty string. */
  lemma FalsyValues(v: Option<Json>)
    ensures !Truthy(v) <==> v in {None, Some(Null), Some(Bool(false)), Some(Num(0)), Some(Str(""))}
  {
  }
}
