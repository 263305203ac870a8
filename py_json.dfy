/**
 * Decoded JSON values, as Python's `json` module hands them to the scrapers,
 * together with the few Python operations the scrapers apply to them:
 * `key in v`, `v[key]`, `v.get(key, default)`, `for x in v`, truthiness and
 * hashability (whether a value may be a dictionary key).
 *
 * Every operation that Python may answer with an exception returns a
 * `Result`; its `Err` message stands for `str(e)` of that exception.
 */
module PyJson {
  import opened Wrappers

  /** A JSON value. An object keeps its fields in insertion order, as a decoded dict does. */
  datatype Json =
    | JNull
    | JBool(b: bool)
    | JNum(n: real)
    | JStr(s: string)
    | JArr(elems: seq<Json>)
    | JObj(fields: seq<Field>)

  datatype Field = Field(key: string, value: Json)

  /** Python's name for the type of a decoded value, used in error messages. */
  function TypeName(v: Json): string {
    match v
    case JNull => "NoneType"
    case JBool(_) => "bool"
    case JNum(_) => "float"
    case JStr(_) => "str"
    case JArr(_) => "list"
    case JObj(_) => "dict"
  }

  /** The value stored under `key`, if the object has that key. */
  function Lookup(fields: seq<Field>, key: string): (r: Option<Json>)
    ensures r.Some? <==> exists i :: 0 <= i < |fields| && fields[i].key == key
    ensures r.Some? ==> exists i :: 0 <= i < |fields| && fields[i] == Field(key, r.value)
  {
    if fields == [] then None
    else if fields[0].key == key then Some(fields[0].value)
    else Lookup(fields[1..], key)
  }

  predicate HasKey(v: Json, key: string) {
    v.JObj? && Lookup(v.fields, key).Some?
  }

  /** `v.get(key, default)` for a dict; the default for anything else (used only on dicts). */
  function FieldOr(v: Json, key: string, default: Json): Json {
    match v
    case JObj(fs) => Lookup(fs, key).GetOr(default)
    case _ => default
  }

  /** `k in s` for two strings: `k` occurs as a contiguous piece of `s`. */
  predicate IsSubstring(k: string, s: string)
    decreases |s|
  {
    (|k| <= |s| && s[..|k|] == k) || (s != [] && IsSubstring(k, s[1..]))
  }

  /**
   * `key in v`: key membership for a dict, element membership for a list,
   * substring for a string; a TypeError for numbers, booleans and None.
   */
  function In(key: string, v: Json): (r: Result<bool>)
    ensures v.JObj? ==> r == Ok(HasKey(v, key))
    ensures r.Err? <==> v.JNull? || v.JBool? || v.JNum?
  {
    match v
    case JObj(fs) => Ok(Lookup(fs, key).Some?)
    case JArr(es) => Ok(JStr(key) in es)
    case JStr(s) => Ok(IsSubstring(key, s))
    case _ => Err("argument of type '" + TypeName(v) + "' is not iterable")
  }

  /** `v[key]` with a string key: only a dict that has the key answers. */
  function Index(v: Json, key: string): (r: Result<Json>)
    ensures r.Ok? <==> HasKey(v, key)
    ensures r.Ok? ==> r.value == FieldOr(v, key, JNull)
  {
    match v
    case JObj(fs) =>
      (match Lookup(fs, key)
       case Some(x) => Ok(x)
       case None => Err("'" + key + "'"))
    case JArr(_) => Err("list indices must be integers or slices, not str")
    case JStr(_) => Err("string indices must be integers, not 'str'")
    case _ => Err("'" + TypeName(v) + "' object is not subscriptable")
  }

  /** `v.get(key, default)`: only a dict has a `get` method. */
  function Get(v: Json, key: string, default: Json): (r: Result<Json>)
    ensures r.Ok? <==> v.JObj?
    ensures r.Ok? ==> r.value == FieldOr(v, key, default)
  {
    match v
    case JObj(fs) => Ok(Lookup(fs, key).GetOr(default))
    case _ => Err("'" + TypeName(v) + "' object has no attribute 'get'")
  }

  /**
   * `for x in v`: the elements of a list, the keys of a dict, the one-character
   * strings of a string; a TypeError for numbers, booleans and None.
   */
  function Iterate(v: Json): (r: Result<seq<Json>>)
    ensures v.JArr? ==> r == Ok(v.elems)
    ensures r.Err? <==> v.JNull? || v.JBool? || v.JNum?
    ensures v.JObj? ==> r.Ok? && |r.value| == |v.fields|
                        && forall i :: 0 <= i < |v.fields| ==> r.value[i] == JStr(v.fields[i].key)
    ensures v.JStr? ==> r.Ok? && |r.value| == |v.s|
                        && forall i :: 0 <= i < |v.s| ==> r.value[i] == JStr([v.s[i]])
  {
    match v
    case JArr(es) => Ok(es)
    case JObj(fs) => Ok(seq(|fs|, i requires 0 <= i < |fs| => JStr(fs[i].key)))
    case JStr(s) => Ok(seq(|s|, i requires 0 <= i < |s| => JStr([s[i]])))
    case _ => Err("'" + TypeName(v) + "' object is not iterable")
  }

  /** Python truthiness of a decoded value. */
  predicate Truthy(v: Json): (b: bool)
    ensures v.JNull? ==> !b
    ensures v.JStr? ==> (b <==> |v.s| > 0)
    ensures v.JArr? ==> (b <==> |v.elems| > 0)
    ensures v.JObj? ==> (b <==> |v.fields| > 0)
  {
    match v
    case JNull => false
    case JBool(b) => b
    case JNum(n) => n != 0.0
    case JStr(s) => s != ""
    case JArr(es) => es != []
    case JObj(fs) => fs != []
  }

  /** Lists and dicts cannot be dictionary keys; every other decoded value can. */
  predicate Hashable(v: Json) {
    !v.JArr? && !v.JObj?
  }

  /**
   * `if key in node: for child in node[key]`: the children of `node` under
   * `key`, none when the key is absent, and the first exception otherwise.
   */
  function Children(node: Json, key: string): (r: Result<seq<Json>>)
    ensures node.JObj? && !HasKey(node, key) ==> r == Ok([])
    ensures node.JObj? && HasKey(node, key) && FieldOr(node, key, JNull).JArr? ==>
              r == Ok(FieldOr(node, key, JNull).elems)
  {
    match In(key, node)
    case Err(e) => Err(e)
    case Ok(present) =>
      if !present then Ok([])
      else
        match Index(node, key)
        case Err(e) => Err(e)
        case Ok(v) => Iterate(v)
  }
}
