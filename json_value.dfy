/** The values `JSON.parse` produces, which is what the dashboard reads back from the browser's
    storage, and the JavaScript operations its defensive code applies to them: truthiness,
    property access (`x?.key`), `Array.isArray`, `typeof x === 'object'` and `Array.includes`.
    Numbers are integers in this model. */
module JsonValue {
  import opened Wrappers

  datatype Json =
    | JNull
    | JBool(b: bool)
    | JNum(n: int)
    | JStr(s: string)
    | JArr(items: seq<Json>)
    | JObj(fields: map<string, Json>)

  /** JavaScript truthiness of a parsed value. */
  predicate Truthy(j: Json) {
    match j
    case JNull => false
    case JBool(b) => b
    case JNum(n) => n != 0
    case JStr(s) => s != ""
    case JArr(_) => true
    case JObj(_) => true
  }

  /** Truthiness of a property that may be absent (`undefined` is falsy). */
  predicate TruthyOpt(o: Option<Json>) { o.Some? && Truthy(o.value) }

  /** `j?.key`: only objects carry named properties after `JSON.parse`. */
  function Field(j: Json, key: string): (r: Option<Json>)
    ensures r.Some? <==> j.JObj? && key in j.fields
  {
    if j.JObj? && key in j.fields then Some(j.fields[key]) else None
  }

  /** `Array.isArray(j)`. */
  predicate IsArray(j: Json) { j.JArr? }

  /** `j && typeof j === 'object'`: arrays and objects, not null. */
  predicate IsObjectLike(j: Json) { j.JArr? || j.JObj? }

  /** `typeof j === 'string'`. */
  predicate IsString(o: Option<Json>) { o.Some? && o.value.JStr? }

  /** `arr.includes(v)` on parsed values: primitives compare by value; objects and arrays
      coming from `JSON.parse` are distinct references and never equal. `undefined` never
      occurs in a parsed array. */
  predicate Includes(arr: seq<Json>, v: Option<Json>) {
    v.Some? && !IsObjectLike(v.value) && v.value in arr
  }

  /** `a === b` on values read from parsed JSON (`None` is `undefined`): primitives compare by
      value, distinct parsed objects and arrays are never identical. */
  predicate StrictEquals(a: Option<Json>, b: Option<Json>) {
    a == b && (a.None? || !IsObjectLike(a.value))
  }

  /** `xs.filter(p)`. */
  function Filter(xs: seq<Json>, p: Json -> bool): (r: seq<Json>)
    ensures |r| <= |xs|
    ensures forall x :: x in r <==> x in xs && p(x)
  {
    if |xs| == 0 then []
    else (if p(xs[0]) then [xs[0]] else []) + Filter(xs[1..], p)
  }

  /** `filter` keeps the order and the repetitions of what it keeps: filtering a concatenation
      filters each part. */
  lemma {:induction false} FilterAppend(xs: seq<Json>, ys: seq<Json>, p: Json -> bool)
    ensures Filter(xs + ys, p) == Filter(xs, p) + Filter(ys, p)
  {
    if |xs| > 0 {
      assert (xs + ys)[0] == xs[0];
      assert (xs + ys)[1..] == xs[1..] + ys;
      FilterAppend(xs[1..], ys, p);
    } else {
      assert xs + ys == ys;
    }
  }

  /** A single element is kept exactly when it satisfies the predicate. */
  lemma FilterSingle(x: Json, p: Json -> bool)
    ensures Filter([x], p) == if p(x) then [x] else []
  {
    assert [x][1..] == [];
  }

  /** Adds a property when its value is defined: `JSON.stringify` drops `undefined` ones. */
  function WithOpt(fields: map<string, Json>, key: string, v: Option<Json>): map<string, Json> {
    if v.Some? then fields[key := v.value] else fields - {key}
  }
}
