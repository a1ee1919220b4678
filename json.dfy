/** JSON values as JavaScript sees them after `JSON.parse`, with the few
    operators the core applies to them: property access, `??`, truthiness,
    `typeof`, `Array.isArray` and `String(...)`. */
module JsonValue {
  import opened Wrappers
  import opened Text

  /** Numbers are integers in this model (see README, "Left out"). */
  datatype Json =
    | JNull
    | JBool(b: bool)
    | JNum(n: int)
    | JStr(s: string)
    | JArr(items: seq<Json>)
    | JObj(fields: map<string, Json>)

  /** `v.key` (or `v?.key`) for the named keys the core reads; `None` is
      `undefined`. Only objects carry such keys. */
  function Prop(v: Json, key: string): Option<Json> {
    if v.JObj? && key in v.fields then Some(v.fields[key]) else None
  }

  /** `x === null || x === undefined` */
  predicate Nullish(o: Option<Json>) {
    o.None? || o.value.JNull?
  }

  /** JavaScript truthiness. */
  predicate Truthy(v: Json) {
    match v
    case JNull => false
    case JBool(b) => b
    case JNum(n) => n != 0
    case JStr(s) => s != ""
    case _ => true
  }

  /** `typeof v === "object" && v !== null` (arrays included). */
  predicate IsObject(v: Json) {
    v.JArr? || v.JObj?
  }

  /** `Array.isArray(x)` for a possibly missing value. */
  predicate IsArray(o: Option<Json>) {
    o.Some? && o.value.JArr?
  }

  /** Key `keys[i]` is the first of `keys` whose value is neither null nor
      undefined. */
  ghost predicate FirstPresent(v: Json, keys: seq<string>, i: int) {
    && 0 <= i < |keys|
    && !Nullish(Prop(v, keys[i]))
    && forall j :: 0 <= j < i ==> Nullish(Prop(v, keys[j]))
  }

  /** `v.k0 ?? v.k1 ?? ... ?? dflt`: the first key present with a non-null
      value wins, even when that value is falsy (`""`, `0`, `false`). */
  function Coalesce(v: Json, keys: seq<string>, dflt: Json): (r: Json)
    ensures (forall i :: 0 <= i < |keys| ==> Nullish(Prop(v, keys[i]))) ==> r == dflt
    ensures forall i :: FirstPresent(v, keys, i) ==> r == Prop(v, keys[i]).value
  {
    if |keys| == 0 then dflt
    else if !Nullish(Prop(v, keys[0])) then Prop(v, keys[0]).value
    else
      FirstPresentTail(v, keys);
      Coalesce(v, keys[1..], dflt)
  }

  /** `v.a ?? v.b ?? dflt`, case by case. */
  lemma CoalescePair(v: Json, a: string, b: string, dflt: Json)
    ensures !Nullish(Prop(v, a)) ==> Coalesce(v, [a, b], dflt) == Prop(v, a).value
    ensures Nullish(Prop(v, a)) && !Nullish(Prop(v, b)) ==> Coalesce(v, [a, b], dflt) == Prop(v, b).value
    ensures Nullish(Prop(v, a)) && Nullish(Prop(v, b)) ==> Coalesce(v, [a, b], dflt) == dflt
  {
    assert [a, b][1..] == [b];
    assert [b][1..] == [];
  }

  /** When the first key is null or absent, the first key present is found
      among the others. */
  lemma FirstPresentTail(v: Json, keys: seq<string>)
    requires keys != [] && Nullish(Prop(v, keys[0]))
    ensures forall i :: FirstPresent(v, keys, i) ==> i > 0 && FirstPresent(v, keys[1..], i - 1)
    ensures (forall i :: 0 <= i < |keys| ==> Nullish(Prop(v, keys[i])))
            ==> forall i :: 0 <= i < |keys[1..]| ==> Nullish(Prop(v, keys[1..][i]))
  {
    forall i | FirstPresent(v, keys, i) ensures i > 0 && FirstPresent(v, keys[1..], i - 1) {
      assert forall j :: 0 <= j < i - 1 ==> keys[1..][j] == keys[j + 1];
    }
  }

  /** `typeof x === "number" ? x : ...` */
  function NumberOf(o: Option<Json>): Option<int> {
    if o.Some? && o.value.JNum? then Some(o.value.n) else None
  }

  function DigitChar(d: nat): char
    requires d < 10
  {
    "0123456789"[d]
  }

  function NatToString(n: nat): string
    decreases n
  {
    if n < 10 then [DigitChar(n)] else NatToString(n / 10) + [DigitChar(n % 10)]
  }

  function IntToString(n: int): string {
    if n < 0 then "-" + NatToString(-n) else NatToString(n)
  }

  /** `String(v)` (equal to `v.toString()` for a value that is not null):
      arrays join their elements with `,` and show null elements as "". */
  function JsString(v: Json): string
    decreases v, 1
  {
    match v
    case JNull => "null"
    case JBool(b) => if b then "true" else "false"
    case JNum(n) => IntToString(n)
    case JStr(s) => s
    case JArr(_) => JoinElements(v, 0)
    case JObj(_) => "[object Object]"
  }

  function JoinElements(v: Json, i: nat): string
    requires v.JArr? && i <= |v.items|
    decreases v, 0, |v.items| - i
  {
    if i == |v.items| then ""
    else
      var e := if v.items[i].JNull? then "" else JsString(v.items[i]);
      if i + 1 == |v.items| then e else e + "," + JoinElements(v, i + 1)
  }

  /** `Array.isArray(x) ? x.map(String) : []` */
  function StringList(o: Option<Json>): (r: seq<string>)
    ensures IsArray(o) ==> |r| == |o.value.items|
    ensures IsArray(o) ==> forall k :: 0 <= k < |r| ==> r[k] == JsString(o.value.items[k])
    ensures !IsArray(o) ==> r == []
  {
    if IsArray(o) then seq(|o.value.items|, k requires 0 <= k < |o.value.items| => JsString(o.value.items[k]))
    else []
  }

  /** The JSON array of the strings `xs`. */
  function StringsToJson(xs: seq<string>): (r: Json)
    ensures r.JArr? && |r.items| == |xs|
    ensures forall k :: 0 <= k < |xs| ==> r.items[k] == JStr(xs[k])
  {
    JArr(seq(|xs|, k requires 0 <= k < |xs| => JStr(xs[k])))
  }

  /** Coercing a JSON array of strings back with `map(String)` returns the
      strings unchanged. */
  lemma StringListOfStrings(xs: seq<string>)
    ensures StringList(Some(StringsToJson(xs))) == xs
  {
  }
}
