/** The JavaScript values the app handles: numbers, JSON values and plain
    objects used as ordered records. */
module JsValues {
  import opened Wrappers
  import opened Text

  /** A JavaScript number. Float formatting is outside the model, so a finite
      number carries the runtime's renderings of itself: `String(x)`,
      `x.toFixed(2)` and `x.toFixed(4)`. */
  datatype Num = Finite(value: real, text: string, fixed2: string, fixed4: string) | NaN

  /** `String(x)`. */
  function NumText(n: Num): string
  {
    match n
    case Finite(_, t, _, _) => t
    case NaN => "NaN"
  }

  /** `x.toFixed(2)`. */
  function Fixed2(n: Num): string
  {
    match n
    case Finite(_, _, f, _) => f
    case NaN => "NaN"
  }

  /** `x.toFixed(4)`. */
  function Fixed4(n: Num): string
  {
    match n
    case Finite(_, _, _, f) => f
    case NaN => "NaN"
  }

  /** `x === 0` (true for both zeros, false for NaN). */
  predicate IsZero(n: Num)
  {
    n.Finite? && n.value == 0.0
  }

  /** `a <= b` on numbers; false whenever either side is NaN. */
  predicate NumLe(a: Num, b: Num)
  {
    a.Finite? && b.Finite? && a.value <= b.value
  }

  /** An integer as the runtime renders it (for magnitudes below 10^21). */
  function IntNum(i: int): (n: Num)
    ensures n.Finite? && n.value == i as real
    ensures NumText(n) == IntToString(i)
  {
    Finite(i as real, IntToString(i), IntToString(i) + ".00", IntToString(i) + ".0000")
  }

  /** `Number(s)` (also written `+s`) on a string holding an optionally signed
      decimal integer, surrounded by optional white space; the blank string is 0.
      Any other string is NaN in this model (see README: fractional, exponent,
      hexadecimal and Infinity numerals are not read). */
  function JsNumber(s: string): Num
  {
    var t := Trim(s);
    if |t| == 0 then IntNum(0)
    else
      var negative := t[0] == '-';
      var digits := if t[0] == '-' || t[0] == '+' then t[1..] else t;
      if |digits| == 0 || !AllDigits(digits) then NaN
      else
        var magnitude: int := DigitsValue(digits);
        IntNum(if negative then -magnitude else magnitude)
  }

  /** `Number(String(i)) == i`: an integer written with `toString` reads back. */
  lemma JsNumberRoundTrip(i: int)
    ensures JsNumber(IntToString(i)) == IntNum(i)
  {
    var magnitude := if i < 0 then -i else i;
    var digits := NatToString(magnitude);
    NatToStringValue(magnitude);
    var s := IntToString(i);
    assert s == (if i < 0 then "-" + digits else digits);
    assert s[|s| - 1] == digits[|digits| - 1];
    TrimIdentity(s);
    if i < 0 {
      assert s[1..] == digits;
    } else {
      assert s[0] == digits[0];
    }
  }

  /** A JSON value as JavaScript sees it, plus `undefined` (a missing key). An
      object or array carries its `String()` rendering. */
  datatype Json =
    | Undefined
    | Null
    | Bool(b: bool)
    | Number(n: Num)
    | Str(s: string)
    | Object(rendered: string)

  /** `String(v)`. */
  function ToStr(v: Json): string
  {
    match v
    case Undefined => "undefined"
    case Null => "null"
    case Bool(b) => if b then "true" else "false"
    case Number(n) => NumText(n)
    case Str(s) => s
    case Object(r) => r
  }

  /** JavaScript truthiness. */
  predicate Truthy(v: Json)
  {
    match v
    case Undefined => false
    case Null => false
    case Bool(b) => b
    case Number(n) => n.Finite? && n.value != 0.0
    case Str(s) => s != ""
    case Object(_) => true
  }

  /* ---------------- plain objects as ordered lists of entries --------------- */

  /** A plain object: its entries in `Object.entries` order. */
  type Entries<V> = seq<(string, V)>

  /** `Object.keys(o)`. */
  function KeysOf<V>(e: Entries<V>): (r: seq<string>)
    ensures |r| == |e| && forall i :: 0 <= i < |e| ==> r[i] == e[i].0
  {
    if |e| == 0 then [] else [e[0].0] + KeysOf(e[1..])
  }

  /** No key appears twice, as in every JavaScript object. */
  predicate DistinctKeys<V>(e: Entries<V>)
  {
    forall i, j :: 0 <= i < j < |e| ==> e[i].0 != e[j].0
  }

  /** `o[k]`: the value under `k`, or `None` (undefined) when there is no such key. */
  function Get<V>(e: Entries<V>, k: string): (r: Option<V>)
    ensures r.None? <==> k !in KeysOf(e)
    ensures r.Some? ==> exists i :: 0 <= i < |e| && e[i] == (k, r.value)
  {
    if |e| == 0 then None
    else if e[0].0 == k then Some(e[0].1)
    else Get(e[1..], k)
  }

  /** In an object with distinct keys, looking up the key of an entry gives its value. */
  lemma GetEntry<V>(e: Entries<V>, i: int)
    requires DistinctKeys(e) && 0 <= i < |e|
    ensures Get(e, e[i].0) == Some(e[i].1)
  {
    if i > 0 {
      GetEntry(e[1..], i - 1);
    }
  }
}
