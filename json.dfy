/** JSON values as the parser of the protocol hands them over. */
module JsonValues {
  import opened Wrappers

  /** A JSON value. Numbers carry an integer only: no rule of this codec looks at them. */
  datatype Json =
    | JNull
    | JBool(b: bool)
    | JNumber(n: int)
    | JString(str: string)
    | JArray(elems: seq<Json>)
    | JObject(members: seq<(string, Json)>)

  /** `a[i]` in JavaScript: reading past the end gives `undefined`. */
  function At(a: seq<Json>, i: nat): (r: Option<Json>)
  {
    if i < |a| then Some(a[i]) else None
  }

  /** `typeof v === 'string'` */
  predicate IsString(v: Option<Json>)
  {
    v.Some? && v.value.JString?
  }

  /** `typeof v === 'boolean'` */
  predicate IsBoolean(v: Option<Json>)
  {
    v.Some? && v.value.JBool?
  }

  /** `Array.isArray(v)` */
  predicate IsArray(v: Option<Json>)
  {
    v.Some? && v.value.JArray?
  }

  /** A character outside the Basic Multilingual Plane: two UTF-16 code units. */
  predicate Astral(c: char)
  {
    c as int >= 0x1_0000
  }

  /** JavaScript's `s.length`: the number of UTF-16 code units of `s`. */
  function JsLength(s: string): (n: nat)
    ensures |s| <= n <= 2 * |s|
  {
    if s == [] then 0 else (if Astral(s[0]) then 2 else 1) + JsLength(s[1..])
  }

  /** Within the Basic Multilingual Plane, `.length` counts characters. */
  lemma {:induction false} JsLengthBmp(s: string)
    requires forall i | 0 <= i < |s| :: !Astral(s[i])
    ensures JsLength(s) == |s|
  {
    if s != [] {
      assert forall i | 0 <= i < |s[1..]| :: s[1..][i] == s[i + 1];
      JsLengthBmp(s[1..]);
    }
  }

  /** Outside it, `.length` counts two per character. */
  lemma {:induction false} JsLengthAstral(s: string)
    requires forall i | 0 <= i < |s| :: Astral(s[i])
    ensures JsLength(s) == 2 * |s|
  {
    if s != [] {
      assert forall i | 0 <= i < |s[1..]| :: s[1..][i] == s[i + 1];
      JsLengthAstral(s[1..]);
    }
  }
}
