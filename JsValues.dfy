/** The JavaScript values the SDK passes around: JSON-like response payloads
    and the flat query-parameter records that the request builders produce.
    JavaScript truthiness and string conversion are written out here because
    the source's `||`, `if (x)` and template literals depend on them. */
module JsValues {
  import opened Wrappers
  import opened Text

  /** A decoded JSON payload. Numbers are integers in this model. */
  datatype Json =
    | JNull
    | JBool(b: bool)
    | JNum(n: int)
    | JStr(s: string)
    | JArr(elems: seq<Json>)
    | JObj(fields: map<string, Json>)

  /** JavaScript truthiness: null, false, 0 and "" are falsy. */
  predicate Truthy(j: Json) {
    match j
    case JNull => false
    case JBool(b) => b
    case JNum(n) => n != 0
    case JStr(s) => s != ""
    case _ => true
  }

  /** The falsy values of JavaScript that a JSON payload can hold. */
  lemma FalsyValues(j: Json)
    ensures !Truthy(j) <==> j == JNull || j == JBool(false) || j == JNum(0) || j == JStr("")
  {
  }

  /** `j?.name`: only an object has the named property. */
  function Field(j: Json, name: string): (r: Option<Json>)
    ensures r.Some? <==> j.JObj? && name in j.fields
  {
    if j.JObj? && name in j.fields then Some(j.fields[name]) else None
  }

  /** `String(j)`, as a template literal renders a value. */
  function ToJsString(j: Json): string
    decreases j
  {
    match j
    case JNull => "null"
    case JBool(b) => if b then "true" else "false"
    case JNum(n) => IntToString(n)
    case JStr(s) => s
    case JObj(_) => "[object Object]"
    case JArr(elems) =>
      // Array.prototype.join renders null elements as empty strings
      JoinWithCommas(seq(|elems|, i requires 0 <= i < |elems| =>
        if elems[i].JNull? then "" else ToJsString(elems[i])))
  }

  function JoinWithCommas(parts: seq<string>): string {
    if parts == [] then ""
    else if |parts| == 1 then parts[0]
    else parts[0] + "," + JoinWithCommas(parts[1..])
  }

  /** A value the request builders put into a query parameter. */
  datatype ParamValue = PStr(text: string) | PNum(num: int)

  /** An insertion-ordered parameter record, as a JavaScript object literal. */
  type Params = seq<(string, ParamValue)>

  predicate ParamTruthy(v: ParamValue) {
    match v
    case PStr(t) => t != ""
    case PNum(x) => x != 0
  }

  function ParamText(v: ParamValue): string {
    match v
    case PStr(t) => t
    case PNum(x) => IntToString(x)
  }

  /** `o ?? d`: only a missing value is replaced; 0 and "" are kept. */
  function Coalesce<T>(o: Option<T>, d: T): (r: T)
    ensures o.Some? ==> r == o.value
    ensures o.None? ==> r == d
  {
    if o.Some? then o.value else d
  }

  /** Every key occurs once, as in an object literal. */
  predicate DistinctKeys(p: Params) {
    forall i, j :: 0 <= i < j < |p| ==> p[i].0 != p[j].0
  }

  function Keys(p: Params): (ks: seq<string>)
    ensures |ks| == |p| && forall i :: 0 <= i < |p| ==> ks[i] == p[i].0
  {
    if p == [] then [] else [p[0].0] + Keys(p[1..])
  }

  /** `p[key]`: the value stored under `key`, if any. */
  function Lookup(p: Params, key: string): (r: Option<ParamValue>)
    ensures r.Some? ==> exists i :: 0 <= i < |p| && p[i] == (key, r.value)
    ensures r.None? <==> forall i :: 0 <= i < |p| ==> p[i].0 != key
  {
    if p == [] then None
    else if p[0].0 == key then Some(p[0].1)
    else Lookup(p[1..], key)
  }

  /** A property name that is an array index: the canonical decimal form
      (no leading zero) of an integer below 2^32 - 1. */
  predicate IsArrayIndex(name: string) {
    && |name| > 0 && DigitString(name)
    && (name[0] != '0' || |name| == 1)
    && IndexValue(name) < 0xFFFF_FFFF
  }

  predicate DigitString(s: string) {
    s == [] || (IsDigit(s[0]) && DigitString(s[1..]))
  }

  /** The number a digit string denotes, most significant digit first. */
  function IndexValue(s: string): int {
    if s == [] then 0 else 10 * IndexValue(s[..|s| - 1]) + ((s[|s| - 1] as int) - ('0' as int))
  }

  predicate AllIndexNames(p: Params) {
    p == [] || (IsArrayIndex(p[0].0) && AllIndexNames(p[1..]))
  }

  predicate NoIndexNames(p: Params) {
    p == [] || (!IsArrayIndex(p[0].0) && NoIndexNames(p[1..]))
  }

  /** Each member's index is at most the next one's. */
  predicate SortedByIndex(p: Params) {
    |p| <= 1 || (IndexValue(p[0].0) <= IndexValue(p[1].0) && SortedByIndex(p[1..]))
  }

  /** The members whose names are array indices, in insertion order. */
  function IndexPart(p: Params): (r: Params)
    ensures AllIndexNames(r)
  {
    if p == [] then []
    else if IsArrayIndex(p[0].0) then
      var rest := IndexPart(p[1..]);
      assert ([p[0]] + rest)[1..] == rest;
      [p[0]] + rest
    else IndexPart(p[1..])
  }

  /** The members whose names are not array indices, in insertion order. */
  function OtherPart(p: Params): (r: Params)
    ensures NoIndexNames(r)
  {
    if p == [] then []
    else if IsArrayIndex(p[0].0) then OtherPart(p[1..])
    else
      var rest := OtherPart(p[1..]);
      assert ([p[0]] + rest)[1..] == rest;
      [p[0]] + rest
  }

  lemma {:induction false} PartsSplit(p: Params)
    ensures multiset(IndexPart(p)) + multiset(OtherPart(p)) == multiset(p)
  {
    if p != [] {
      PartsSplit(p[1..]);
      assert p == [p[0]] + p[1..];
    }
  }

  lemma {:induction false} IndexPartAppend(a: Params, b: Params)
    ensures IndexPart(a + b) == IndexPart(a) + IndexPart(b)
  {
    if a == [] {
      assert a + b == b;
    } else {
      IndexPartAppend(a[1..], b);
      assert (a + b)[0] == a[0] && (a + b)[1..] == a[1..] + b;
    }
  }

  lemma {:induction false} OtherPartAppend(a: Params, b: Params)
    ensures OtherPart(a + b) == OtherPart(a) + OtherPart(b)
  {
    if a == [] {
      assert a + b == b;
    } else {
      OtherPartAppend(a[1..], b);
      assert (a + b)[0] == a[0] && (a + b)[1..] == a[1..] + b;
    }
  }

  lemma {:induction false} OtherPartOfIndexNames(p: Params)
    requires AllIndexNames(p)
    ensures OtherPart(p) == []
  {
    if p != [] {
      OtherPartOfIndexNames(p[1..]);
    }
  }

  lemma {:induction false} OtherPartOfPlainNames(p: Params)
    ensures NoIndexNames(p) ==> OtherPart(p) == p && IndexPart(p) == []
  {
    if p != [] && NoIndexNames(p) {
      OtherPartOfPlainNames(p[1..]);
      assert p == [p[0]] + p[1..];
    }
  }

  /** Places an array-index member among sorted ones, before the first
      larger index. */
  function InsertByIndex(kv: (string, ParamValue), p: Params): (r: Params)
    requires IsArrayIndex(kv.0) && AllIndexNames(p)
    ensures AllIndexNames(r) && |r| == |p| + 1
    ensures r[0] == kv || (p != [] && r[0] == p[0])
    ensures SortedByIndex(p) ==> SortedByIndex(r)
  {
    if p == [] || IndexValue(kv.0) <= IndexValue(p[0].0) then
      assert ([kv] + p)[1..] == p;
      [kv] + p
    else
      var rest := InsertByIndex(kv, p[1..]);
      assert ([p[0]] + rest)[1..] == rest;
      assert SortedByIndex(p) && |p| > 1 ==> p[1..][0] == p[1];
      [p[0]] + rest
  }

  lemma {:induction false} InsertIsPermutation(kv: (string, ParamValue), p: Params)
    requires IsArrayIndex(kv.0) && AllIndexNames(p)
    ensures multiset(InsertByIndex(kv, p)) == multiset(p) + multiset{kv}
  {
    if p != [] && IndexValue(p[0].0) < IndexValue(kv.0) {
      InsertIsPermutation(kv, p[1..]);
      assert p == [p[0]] + p[1..];
    }
  }

  /** Insertion sort of array-index members by their index. */
  function SortByIndex(p: Params): (r: Params)
    requires AllIndexNames(p)
    ensures AllIndexNames(r) && SortedByIndex(r) && |r| == |p|
  {
    if p == [] then [] else InsertByIndex(p[0], SortByIndex(p[1..]))
  }

  lemma {:induction false} SortIsPermutation(p: Params)
    requires AllIndexNames(p)
    ensures multiset(SortByIndex(p)) == multiset(p)
  {
    if p != [] {
      SortIsPermutation(p[1..]);
      InsertIsPermutation(p[0], SortByIndex(p[1..]));
      assert p == [p[0]] + p[1..];
    }
  }

  lemma {:induction false} PartsLength(p: Params)
    ensures |IndexPart(p)| + |OtherPart(p)| == |p|
  {
    if p != [] {
      PartsLength(p[1..]);
    }
  }

  /** The order in which `JSON.stringify` visits an object's own names:
      array indices in ascending order, then the other names in insertion
      order (`PropertyOrderShape` states this). */
  function PropertyOrder(p: Params): (r: Params)
    ensures |r| == |p|
  {
    PartsLength(p);
    SortByIndex(IndexPart(p)) + OtherPart(p)
  }

  /** The visiting order is a permutation: first the array-index members,
      sorted by index, then the other members in their insertion order. */
  lemma PropertyOrderShape(p: Params)
    ensures var r := PropertyOrder(p);
            var k := |IndexPart(p)|;
            && multiset(r) == multiset(p)
            && k <= |r|
            && AllIndexNames(r[..k]) && SortedByIndex(r[..k])
            && NoIndexNames(r[k..]) && r[k..] == OtherPart(p)
  {
    var sorted := SortByIndex(IndexPart(p));
    var r := sorted + OtherPart(p);
    PartsSplit(p);
    SortIsPermutation(IndexPart(p));
    assert r[..|sorted|] == sorted && r[|sorted|..] == OtherPart(p);
  }

  lemma PropertyOrderOfPlainNames(p: Params)
    requires NoIndexNames(p)
    ensures PropertyOrder(p) == p
  {
    OtherPartOfPlainNames(p);
    assert [] + p == p;
  }

  /** One member is visited as it is. */
  lemma PartsOfOne(kv: (string, ParamValue))
    ensures IndexPart([kv]) == if IsArrayIndex(kv.0) then [kv] else []
    ensures OtherPart([kv]) == if IsArrayIndex(kv.0) then [] else [kv]
    ensures IsArrayIndex(kv.0) ==> SortByIndex([kv]) == [kv]
  {
    assert [kv][1..] == [];
  }

  /** `JSON.stringify` of a flat parameter record, names in property order.
      Escaping of quotes inside strings is not modelled. */
  function Serialize(p: Params): (r: string)
    ensures |r| >= 2 && r[0] == '{' && r[|r| - 1] == '}'
    ensures r[1..|r| - 1] == Members(PropertyOrder(p))
    ensures p == [] <==> r == "{}"
  {
    var q := PropertyOrder(p);
    assert |q| == |p|;
    "{" + Members(q) + "}"
  }

  /** The members joined by ',' in the order given; a non-empty list starts with its first member. */
  function Members(p: Params): (r: string)
    ensures p == [] <==> r == []
    ensures p != [] ==> IsPrefix(Member(p[0]), r)
  {
    if p == [] then ""
    else
      var tail := if |p| == 1 then "" else "," + Members(p[1..]);
      PartsOfConcat(Member(p[0]), tail, "");
      assert Member(p[0]) + tail + "" == Member(p[0]) + tail;
      Member(p[0]) + tail
  }

  /** `"key":value`: the key in quotes, a colon, then the value. */
  function Member(kv: (string, ParamValue)): (r: string)
    ensures IsPrefix("\"" + kv.0 + "\":", r)
    ensures r[|kv.0| + 3..] == ValueJson(kv.1)
  {
    PartsOfConcat("\"" + kv.0 + "\":", ValueJson(kv.1), "");
    "\"" + kv.0 + "\":" + ValueJson(kv.1)
  }

  function ValueJson(v: ParamValue): string {
    match v
    case PStr(t) => "\"" + t + "\""
    case PNum(x) => IntToString(x)
  }
}
