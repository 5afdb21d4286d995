/**
 * The values `json.loads` can return, and the parser itself as an
 * uninterpreted oracle: a total function from text to either a value or
 * the message of the exception it raised.
 */
module JsonValue {
  import opened Util
  import opened PyText

  /**
   * A decoded JSON value. An object keeps its members in insertion order
   * with distinct keys, as a Python dict does; a number keeps its literal.
   */
  datatype Json =
    | JNull
    | JBool(b: bool)
    | JNumber(literal: string)
    | JString(str: string)
    | JArray(items: seq<Json>)
    | JObject(members: seq<(string, Json)>)

  /** The outcome of `json.loads`: a value, or the message of the exception raised. */
  datatype Parsed = Parsed(value: Json) | ParseError(message: string)

  type Parser = string -> Parsed

  /** The value stored under `key` among `members`, if any. */
  function Lookup(members: seq<(string, Json)>, key: string): (r: Option<Json>)
    ensures r.Some? <==> exists k :: 0 <= k < |members| && members[k].0 == key
    ensures r.Some? ==> exists k :: 0 <= k < |members| && members[k] == (key, r.value)
  {
    if members == [] then None
    else if members[0].0 == key then Some(members[0].1)
    else
      var r := Lookup(members[1..], key);
      assert forall k :: 0 <= k < |members| - 1 ==> members[1..][k] == members[k + 1];
      r
  }

  /**
   * Python's `value[key]` with a string key: the member's value, or None
   * where Python raises (KeyError for a missing key, TypeError for a value
   * that is not a dict).
   */
  function Get(value: Json, key: string): (r: Option<Json>)
    ensures r.Some? <==> value.JObject? && exists k :: 0 <= k < |value.members| && value.members[k].0 == key
    ensures r.Some? ==> exists k :: 0 <= k < |value.members| && value.members[k] == (key, r.value)
  {
    if value.JObject? then Lookup(value.members, key) else None
  }

  /** Python's `isinstance(value, list)`. */
  predicate IsList(value: Json) { value.JArray? }

  /** Whether Python can use the value as a dict key (lists and dicts cannot be hashed). */
  predicate Hashable(value: Json) { !value.JArray? && !value.JObject? }

  /** A list of Python strings as the JSON list it would be serialised to. */
  function Strings(xs: seq<string>): (r: seq<Json>)
    ensures |r| == |xs|
    ensures forall k :: 0 <= k < |xs| ==> r[k] == JString(xs[k])
  {
    if xs == [] then [] else [JString(xs[0])] + Strings(xs[1..])
  }

  /** The string keys of an object's members, in order. */
  function Keys(members: seq<(string, Json)>): (r: seq<string>)
    ensures |r| == |members|
    ensures forall k :: 0 <= k < |members| ==> r[k] == members[k].0
  {
    if members == [] then [] else [members[0].0] + Keys(members[1..])
  }

  /** The Python strings of a list whose items are all strings; None when one is not. */
  function StringItems(items: seq<Json>): (r: Option<seq<string>>)
    ensures r.Some? <==> forall k :: 0 <= k < |items| ==> items[k].JString?
    ensures r.Some? ==> |r.value| == |items| && forall k :: 0 <= k < |items| ==> r.value[k] == items[k].str
  {
    if items == [] then Some([])
    else if !items[0].JString? then None
    else match StringItems(items[1..])
      case None => None
      case Some(rest) => Some([items[0].str] + rest)
  }

  /**
   * The strings Python's `sep.join(value)` iterates over: the items of a list
   * (each must be a str), the characters of a string, or the keys of a dict.
   * None where `join` raises TypeError.
   */
  function JoinOperands(value: Json): (r: Option<seq<string>>)
    ensures value.JString? ==> r.Some? && |r.value| == |value.str|
    ensures value.JString? ==> forall k :: 0 <= k < |value.str| ==> r.value[k] == [value.str[k]]
    ensures value.JArray? ==> r == StringItems(value.items)
    ensures value.JObject? ==> r == Some(Keys(value.members))
    ensures value.JNull? || value.JBool? || value.JNumber? ==> r.None?
  {
    match value
    case JString(s) => Some(seq(|s|, k requires 0 <= k < |s| => [s[k]]))
    case JArray(items) => StringItems(items)
    case JObject(members) => Some(Keys(members))
    case _ => None
  }
}
