/** The JavaScript reading of the same JSON values: truthiness, `a || b`,
    property reads (`x.key`, `x[key]`) and `String(x)`. `undefined`, the
    value of a missing property, is `None`. */
module JsValues {
  import opened Options
  import opened Text
  import opened Json

  /** JavaScript truthiness: unlike Python, empty arrays and objects are
      true. */
  predicate JsTruthy(v: Json) {
    match v
    case JNull => false
    case JBool(b) => b
    case JInt(i) => i != 0
    case JReal(r) => r != 0.0
    case JStr(s) => s != []
    case JArr(_) => true
    case JObj(_) => true
  }

  /** A possibly undefined value is truthy. */
  predicate JsTrue(v: Option<Json>) {
    v.Some? && JsTruthy(v.value)
  }

  /** `a || b`. */
  function JsOr(a: Option<Json>, b: Option<Json>): (r: Option<Json>)
    ensures JsTrue(r) <==> JsTrue(a) || JsTrue(b)
  {
    if JsTrue(a) then a else b
  }

  /** `a || b` where `b` is defined: the result is always defined. */
  function OrValue(a: Option<Json>, b: Json): (r: Json)
    ensures Some(r) == JsOr(a, Some(b))
    ensures JsTruthy(r) <==> JsTrue(a) || JsTruthy(b)
  {
    if JsTrue(a) then a.value else b
  }

  /** An array index: the canonical decimal form of an integer below
      2^32 - 1. */
  predicate IsArrayIndex(s: string) {
    |s| >= 1 && (forall i :: 0 <= i < |s| ==> IsAsciiDigit(s[i])) && (s[0] != '0' || |s| == 1)
    && DigitsValue(s) < 0xFFFF_FFFF
  }

  /** The numeric value of an array-index key (0 for other keys). */
  function IndexValue(s: string): nat {
    if IsArrayIndex(s) then DigitsValue(s) else 0
  }

  /** Every index below 2^32 - 1 has a canonical key that reads back as
      itself... */
  lemma IndexKeyRoundTrip(n: nat)
    requires n < 0xFFFF_FFFF
    ensures IsArrayIndex(NatToString(n)) && IndexValue(NatToString(n)) == n
  {
    NatToStringRoundTrip(n);
  }

  /** ... and that key is the only one: an array-index key is the decimal
      form of its value. */
  lemma IndexKeyCanonical(s: string)
    requires IsArrayIndex(s)
    ensures NatToString(IndexValue(s)) == s
  {
    CanonicalDigits(s);
  }

  lemma {:induction false} CanonicalDigits(s: string)
    requires |s| >= 1 && (forall i :: 0 <= i < |s| ==> IsAsciiDigit(s[i])) && (s[0] != '0' || |s| == 1)
    ensures NatToString(DigitsValue(s)) == s
    ensures |s| > 1 ==> DigitsValue(s) >= 10
    decreases |s|
  {
    if |s| > 1 {
      var init := s[..|s| - 1];
      CanonicalDigits(init);
      assert init[0] == s[0];
      if |init| == 1 {
        assert DigitsValue(init) == s[0] as int - '0' as int;
      }
      var d := s[|s| - 1] as int - '0' as int;
      assert DigitsValue(s) == DigitsValue(init) * 10 + d;
      assert DigitsValue(s) / 10 == DigitsValue(init) && DigitsValue(s) % 10 == d;
      assert [DigitChar(d)] == [s[|s| - 1]];
      assert s == init + [s[|s| - 1]];
    } else {
      assert DigitsValue(s) == DigitsValue(s[..0]) * 10 + (s[0] as int - '0' as int);
      assert [DigitChar(DigitsValue(s))] == s;
    }
  }

  /** `v[key]` for a value other than `null` and `undefined` (reading a
      property of those throws, and callers check for them first). Own
      properties only: objects read their fields, arrays and strings
      their elements and `length`. Every fixed key the website reads is
      an own-property name; the inherited members a computed key can
      reach are `InheritedString` below. */
  function JsProp(v: Json, key: string): (r: Option<Json>)
    ensures v.JObj? ==> r == Get(v, key)
    ensures v.JArr? && IsArrayIndex(key) && IndexValue(key) < |v.items| ==> r == Some(v.items[IndexValue(key)])
    ensures (v.JNull? || v.JBool? || v.JInt? || v.JReal?) ==> r.None?
  {
    match v
    case JObj(_) => Get(v, key)
    case JArr(a) =>
      if key == "length" then Some(JInt(|a|))
      else if IsArrayIndex(key) && IndexValue(key) < |a| then Some(a[IndexValue(key)])
      else None
    case JStr(s) =>
      if key == "length" then Some(JInt(|s|))
      else if IsArrayIndex(key) && IndexValue(key) < |s| then Some(JStr([s[IndexValue(key)]]))
      else None
    case _ => None
  }

  /** `String(v)`: strings as they are; `null`, `undefined`, booleans
      and integers of fewer than 22 digits in their usual spelling; an
      object as `[object Object]`; an array as its elements' texts joined
      by commas, `null` elements as empty; every other value (fractions,
      exponent forms) through `show`. */
  function JsString(v: Option<Json>, show: Json -> string): (r: string)
    ensures v.Some? && v.value.JStr? ==> r == v.value.s
    ensures v.None? ==> r == "undefined"
    ensures v.Some? && v.value.JInt? && -1_000_000_000_000_000_000_000 < v.value.i < 1_000_000_000_000_000_000_000 ==>
      r == IntToString(v.value.i)
    ensures v.Some? && v.value.JObj? ==> r == "[object Object]"
    ensures v.Some? && v.value.JArr? && v.value.items == [] ==> r == ""
  {
    match v
    case None => "undefined"
    case Some(value) => JsText(value, show)
  }

  /** `String(v)` of a defined value. */
  function JsText(v: Json, show: Json -> string): string
    decreases v
  {
    match v
    case JStr(s) => s
    case JNull => "null"
    case JBool(b) => if b then "true" else "false"
    case JInt(i) =>
      if -1_000_000_000_000_000_000_000 < i < 1_000_000_000_000_000_000_000 then IntToString(i) else show(v)
    case JReal(_) => show(v)
    case JObj(_) => "[object Object]"
    case JArr(a) => Join(ElementTexts(a, show), ",")
  }

  /** The texts `JsText` joins for the elements of an array. */
  function ElementTexts(a: seq<Json>, show: Json -> string): (r: seq<string>)
    ensures |r| == |a|
    ensures forall k :: 0 <= k < |a| && a[k].JStr? ==> r[k] == a[k].s
  {
    seq(|a|, k requires 0 <= k < |a| => if a[k].JNull? then "" else JsText(a[k], show))
  }

  /** An array of strings prints as the strings joined by commas. */
  lemma ArrayOfStrings(ws: seq<string>, show: Json -> string)
    ensures JsString(Some(JArr(seq(|ws|, k requires 0 <= k < |ws| => JStr(ws[k])))), show) == Join(ws, ",")
  {
    var a := seq(|ws|, k requires 0 <= k < |ws| => JStr(ws[k]));
    StringTexts(a, ws, show);
    ArrayText(a, show);
  }

  /** An array prints as its elements' texts joined by commas. */
  lemma ArrayText(a: seq<Json>, show: Json -> string)
    ensures JsString(Some(JArr(a)), show) == Join(ElementTexts(a, show), ",")
  {
  }

  /** The element texts of an array of strings are the strings. */
  lemma StringTexts(a: seq<Json>, ws: seq<string>, show: Json -> string)
    requires |a| == |ws| && forall k :: 0 <= k < |a| ==> a[k] == JStr(ws[k])
    ensures ElementTexts(a, show) == ws
  {
    var texts := ElementTexts(a, show);
    forall k | 0 <= k < |ws|
      ensures texts[k] == ws[k]
    {
      assert a[k].JStr?;
    }
  }

  /** The string-named members every object and array inherits from
      `Object.prototype`. */
  const ObjectProtoNames: set<string> := {"constructor", "__proto__", "__defineGetter__", "__defineSetter__",
    "__lookupGetter__", "__lookupSetter__", "hasOwnProperty", "isPrototypeOf", "propertyIsEnumerable",
    "toLocaleString", "toString", "valueOf"}

  /** `String(f)` of a built-in function named `name`, spelled as V8
      spells it. */
  function NativeFunctionText(name: string): string {
    "function " + name + "() { [native code] }"
  }

  /** `String(v[key])` when `key` names no own property of the object or
      array `v` but one of the members it inherits from `Object.prototype`.
      Those members are functions, except `__proto__`, which is the
      prototype itself: `Object.prototype`, which prints as
      `[object Object]`, or `Array.prototype`, an empty array, which
      prints as the empty string. An array's `constructor` is `Array`. */
  function InheritedString(v: Json, key: string): (r: Option<string>)
    ensures r.Some? <==> (v.JObj? || v.JArr?) && JsProp(v, key).None? && key in ObjectProtoNames
  {
    if !(v.JObj? || v.JArr?) || JsProp(v, key).Some? || key !in ObjectProtoNames then None
    else if key == "__proto__" then Some(if v.JObj? then "[object Object]" else "")
    else if key == "constructor" then Some(NativeFunctionText(if v.JObj? then "Object" else "Array"))
    else Some(NativeFunctionText(key))
  }

  /** An object without an own `constructor` reads the inherited
      `Object`, and one without an own `toString` the inherited method;
      an array reads `Array` instead. */
  lemma InheritedMembers(fields: seq<(string, Json)>, items: seq<Json>)
    requires Get(JObj(fields), "constructor").None? && Get(JObj(fields), "toString").None?
    ensures InheritedString(JObj(fields), "constructor") == Some(NativeFunctionText("Object"))
    ensures InheritedString(JObj(fields), "toString") == Some(NativeFunctionText("toString"))
    ensures InheritedString(JArr(items), "constructor") == Some(NativeFunctionText("Array"))
    ensures InheritedString(JArr(items), "__proto__") == Some("")
  {
    assert !IsArrayIndex("constructor") by { assert !IsAsciiDigit("constructor"[0]); }
    assert !IsArrayIndex("__proto__") by { assert !IsAsciiDigit("__proto__"[0]); }
    assert "constructor"[0] != "__proto__"[0] && "constructor"[0] != "length"[0];
    assert "toString"[0] != "__proto__"[0] && "toString"[0] != "constructor"[0];
    assert "__proto__"[0] != "length"[0];
    assert "constructor" in ObjectProtoNames && "toString" in ObjectProtoNames && "__proto__" in ObjectProtoNames;
  }
}
