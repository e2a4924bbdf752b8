/** Parsed JSON as the web client sees it, with the JavaScript operations the client
    applies to such values: property access, truthiness, `??` and `String(…)`. An absent
    property (`undefined`) is `None`. */
module JsValue {
  import opened Common

  /** Numbers are integers in this model. */
  datatype Json =
    | JNull
    | JBool(b: bool)
    | JNum(n: int)
    | JStr(s: string)
    | JArr(elems: seq<Json>)
    | JObj(members: seq<(string, Json)>)

  /** The value of the first member named `key`. */
  function Lookup(members: seq<(string, Json)>, key: string): (r: Option<Json>)
    ensures r.Some? <==> exists i :: 0 <= i < |members| && members[i].0 == key
  {
    if members == [] then None
    else if members[0].0 == key then Some(members[0].1)
    else
      var r := Lookup(members[1..], key);
      assert r.Some? <==> exists i :: 0 <= i < |members[1..]| && members[1..][i].0 == key;
      assert forall i :: 1 <= i < |members| ==> members[i] == members[1..][i - 1];
      r
  }

  /** `v?.key` (and `v.key` where `v` is known to be defined): only objects have members. */
  function Member(v: Option<Json>, key: string): Option<Json>
  {
    if v.Some? && v.value.JObj? then Lookup(v.value.members, key) else None
  }

  /** `null` or `undefined`. */
  predicate Nullish(v: Option<Json>)
  {
    v.None? || v.value.JNull?
  }

  /** `a ?? b` */
  function Coalesce(a: Option<Json>, b: Option<Json>): (r: Option<Json>)
    ensures !Nullish(a) ==> r == a
    ensures Nullish(a) ==> r == b
  {
    if Nullish(a) then b else a
  }

  predicate Truthy(v: Option<Json>)
  {
    match v
    case None => false
    case Some(JNull) => false
    case Some(JBool(b)) => b
    case Some(JNum(n)) => n != 0
    case Some(JStr(s)) => s != ""
    case Some(_) => true
  }

  /** `String(v)` for a defined value; array elements that are `null` print as "". */
  function ToText(v: Json): string
  {
    match v
    case JNull => "null"
    case JBool(b) => if b then "true" else "false"
    case JNum(n) => IntToString(n)
    case JStr(s) => s
    case JArr(es) => JoinElements(es)
    case JObj(_) => "[object Object]"
  }

  /** `Array.prototype.toString`: the elements joined by commas. */
  function JoinElements(es: seq<Json>): string
    decreases es
  {
    if es == [] then ""
    else
      var head := if es[0].JNull? then "" else ToText(es[0]);
      if |es| == 1 then head else head + "," + JoinElements(es[1..])
  }

  /** `String(v)` including `undefined`. */
  function ToTextOpt(v: Option<Json>): string
  {
    if v.None? then "undefined" else ToText(v.value)
  }

  /** `Object.keys(v)` for an object or an array; `None` is the `TypeError` it throws for
      `null`. Other values (which the client never passes) give `[]`. */
  function KeysOf(v: Json): Option<seq<string>>
  {
    match v
    case JNull => None
    case JObj(ms) => Some(MemberNames(ms))
    case JArr(es) => Some(IndexNames(|es|))
    case _ => Some([])
  }

  function MemberNames(ms: seq<(string, Json)>): (r: seq<string>)
    ensures |r| == |ms| && forall i :: 0 <= i < |ms| ==> r[i] == ms[i].0
  {
    if ms == [] then [] else [ms[0].0] + MemberNames(ms[1..])
  }

  /** "0", "1", … "n-1" */
  function IndexNames(n: nat): (r: seq<string>)
    ensures |r| == n && forall i :: 0 <= i < n ==> r[i] == NatToString(i)
  {
    if n == 0 then [] else IndexNames(n - 1) + [NatToString(n - 1)]
  }

  /** `typeof v === "object"`: objects, arrays and `null`. */
  predicate IsObjectType(v: Option<Json>)
  {
    v.Some? && (v.value.JNull? || v.value.JObj? || v.value.JArr?)
  }
}
