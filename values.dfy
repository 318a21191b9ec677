/** Python and JSON values as the metric evaluators see them, and the few
    Python operations on them that the evaluators perform, each with the
    exception it raises when the value has the wrong shape. */
module Values {

  datatype Option<+T> = None | Some(value: T)

  /** A JSON value as `json.loads` produces it, restricted to the kinds the
      evaluators read: null, booleans, strings and objects. */
  datatype Json = JNull | JBool(b: bool) | JStr(s: string) | JObj(fields: map<string, Json>)

  /** One parsed prediction line: a JSON object. */
  type Record = map<string, Json>

  /** The Python exceptions the core raises, explicitly or through builtins. */
  datatype Error = ValueError | RuntimeError | KeyError | TypeError | IndexError

  /** How a call ended: normally, or by raising. */
  datatype Status = Done | Raised(error: Error)

  datatype Result<T> = Ok(value: T) | Err(error: Error)

  /** Python's `bool(j)`. */
  predicate Truthy(j: Json) {
    match j
    case JNull => false
    case JBool(b) => b
    case JStr(s) => s != ""
    case JObj(m) => m != map[]
  }

  /** A Python bool used as an int. */
  function Flag(b: bool): nat {
    if b then 1 else 0
  }

  /** `any(js)`. */
  predicate AnyTruthy(js: seq<Json>) {
    exists i :: 0 <= i < |js| && Truthy(js[i])
  }

  /** `all([j is None for j in js])`. */
  predicate AllNull(js: seq<Json>) {
    forall i :: 0 <= i < |js| ==> js[i] == JNull
  }

  /** `j[key]` with a string key: only an object can be indexed by one. */
  function Subscript(j: Json, key: string): Result<Json> {
    match j
    case JObj(m) => if key in m then Ok(m[key]) else Err(KeyError)
    case _ => Err(TypeError)
  }

  /** `elem[outer][inner]` for a record `elem`. */
  function Lookup2(elem: Record, outer: string, inner: string): Result<Json> {
    if outer !in elem then Err(KeyError) else Subscript(elem[outer], inner)
  }

  /** Whether `t` occurs in `s` as a contiguous substring. */
  predicate IsSubstring(t: string, s: string)
    decreases |s|
  {
    t <= s || (|s| > 0 && IsSubstring(t, s[1..]))
  }

  /** `key in j`: a key test on an object, a substring test on a string, and
      a TypeError on null and booleans, which are not iterable. */
  function Contains(j: Json, key: string): Result<bool> {
    match j
    case JObj(m) => Ok(key in m)
    case JStr(s) => Ok(IsSubstring(key, s))
    case _ => Err(TypeError)
  }

  /** `n + j` for an int counter `n`: only a boolean can be added. */
  function AddFlag(n: int, j: Json): (r: Result<int>)
    ensures r.Ok? <==> j.JBool?
    ensures r.Ok? ==> r.value == n + Flag(j.b) && n <= r.value <= n + 1
    ensures r.Err? ==> r.error == TypeError
  {
    match j
    case JBool(b) => Ok(n + Flag(b))
    case _ => Err(TypeError)
  }

  /** `len(j)`. */
  function Length(j: Json): Result<nat> {
    match j
    case JStr(s) => Ok(|s|)
    case JObj(m) => Ok(|m|)
    case _ => Err(TypeError)
  }

  /** `[elem[key] for elem in preds]`: raises KeyError at the first record
      without the key. */
  function Column(preds: seq<Record>, key: string): (r: Result<seq<Json>>)
    ensures r.Ok? <==> forall i :: 0 <= i < |preds| ==> key in preds[i]
    ensures r.Ok? ==> |r.value| == |preds| && forall i :: 0 <= i < |preds| ==> r.value[i] == preds[i][key]
    ensures r.Err? ==> r.error == KeyError
  {
    if |preds| == 0 then Ok([])
    else if key !in preds[0] then Err(KeyError)
    else
      match Column(preds[1..], key)
      case Err(e) => Err(e)
      case Ok(rest) => Ok([preds[0][key]] + rest)
  }

  /** Some record holds a truthy value under the key. */
  predicate SomeTruthy(preds: seq<Record>, key: string) {
    exists i :: 0 <= i < |preds| && key in preds[i] && Truthy(preds[i][key])
  }

  /** `any([elem[key] for elem in preds])` over records that all hold the key. */
  lemma AnyTruthyColumn(preds: seq<Record>, key: string)
    requires forall i :: 0 <= i < |preds| ==> key in preds[i]
    ensures Column(preds, key).Ok?
    ensures AnyTruthy(Column(preds, key).value) == SomeTruthy(preds, key)
  {
    var col := Column(preds, key).value;
    if AnyTruthy(col) {
      var i :| 0 <= i < |col| && Truthy(col[i]);
      assert Truthy(preds[i][key]);
    }
    if exists i :: 0 <= i < |preds| && Truthy(preds[i][key]) {
      var i :| 0 <= i < |preds| && Truthy(preds[i][key]);
      assert Truthy(col[i]);
    }
  }

  /** Every record holding the key holds null under it. */
  predicate AllNullAt(preds: seq<Record>, key: string) {
    forall i :: 0 <= i < |preds| && key in preds[i] ==> preds[i][key] == JNull
  }

  /** `all([elem[key] is None for elem in preds])` over records that all
      hold the key. */
  lemma AllNullColumn(preds: seq<Record>, key: string)
    requires forall i :: 0 <= i < |preds| ==> key in preds[i]
    ensures Column(preds, key).Ok?
    ensures AllNull(Column(preds, key).value) == AllNullAt(preds, key)
  {
    var col := Column(preds, key).value;
    if AllNull(col) {
      forall i | 0 <= i < |preds| && key in preds[i]
        ensures preds[i][key] == JNull
      {
        assert col[i] == preds[i][key];
      }
    }
    if AllNullAt(preds, key) {
      forall i | 0 <= i < |col|
        ensures col[i] == JNull
      {
        assert col[i] == preds[i][key];
      }
    }
  }

  /** Whether `elem[outer][inner]` exists. */
  predicate HasNested(elem: Record, outer: string, inner: string) {
    outer in elem && elem[outer].JObj? && inner in elem[outer].fields
  }

  /** `[elem[outer][inner] for elem in preds]`: raises at the first record
      where the lookup fails; a KeyError only where a key is really absent. */
  function NestedColumn(preds: seq<Record>, outer: string, inner: string): (r: Result<seq<Json>>)
    ensures r.Ok? <==> forall i :: 0 <= i < |preds| ==> HasNested(preds[i], outer, inner)
    ensures r.Ok? ==> |r.value| == |preds| && forall i :: 0 <= i < |preds| ==> r.value[i] == preds[i][outer].fields[inner]
    ensures r == Err(KeyError) ==> exists i :: 0 <= i < |preds| && (outer !in preds[i] || (preds[i][outer].JObj? && inner !in preds[i][outer].fields))
    ensures r.Err? ==> r.error == KeyError || r.error == TypeError
  {
    if |preds| == 0 then Ok([])
    else
      match Lookup2(preds[0], outer, inner)
      case Err(e) => Err(e)
      case Ok(v) =>
        match NestedColumn(preds[1..], outer, inner)
        case Err(e) =>
          assert forall i :: 1 <= i < |preds| ==> preds[1..][i - 1] == preds[i];
          Err(e)
        case Ok(rest) => Ok([v] + rest)
  }

  /** Some record holds a truthy value under the nested key. */
  predicate SomeNestedTruthy(preds: seq<Record>, outer: string, inner: string) {
    exists i :: 0 <= i < |preds| && HasNested(preds[i], outer, inner) && Truthy(preds[i][outer].fields[inner])
  }

  /** `any([elem[outer][inner] for elem in preds])` over records that all
      hold the nested key. */
  lemma AnyTruthyNested(preds: seq<Record>, outer: string, inner: string)
    requires forall i :: 0 <= i < |preds| ==> HasNested(preds[i], outer, inner)
    ensures NestedColumn(preds, outer, inner).Ok?
    ensures AnyTruthy(NestedColumn(preds, outer, inner).value) == SomeNestedTruthy(preds, outer, inner)
  {
    var col := NestedColumn(preds, outer, inner).value;
    if AnyTruthy(col) {
      var i :| 0 <= i < |col| && Truthy(col[i]);
      assert Truthy(preds[i][outer].fields[inner]);
    }
    if exists i :: 0 <= i < |preds| && Truthy(preds[i][outer].fields[inner]) {
      var i :| 0 <= i < |preds| && Truthy(preds[i][outer].fields[inner]);
      assert Truthy(col[i]);
    }
  }
}
