/** JavaScript values as the valuation code meets them after `JSON.parse`, and the
    built-in coercions and string operations it relies on. */
module Js {

  datatype Option<+T> = None | Some(value: T)

  /** A parsed JSON value. An object is the list of its own enumerable properties
      in `Object.entries` order (a JavaScript object never holds one key twice).
      A number is carried as its JavaScript rendering `String(n)`, which is all the
      valuation code ever looks at: it coerces numbers through strings. */
  datatype Json =
    | JNull
    | JBool(b: bool)
    | JNum(repr: string)
    | JStr(s: string)
    | JArr(elems: seq<Json>)
    | JObj(props: seq<Prop>)

  datatype Prop = Prop(key: string, value: Json)

  /** The first property named `key`, or None (JavaScript `undefined`). */
  function Lookup(props: seq<Prop>, key: string): (r: Option<Json>)
    ensures r.Some? ==> exists i :: 0 <= i < |props| && props[i] == Prop(key, r.value)
    ensures r.None? <==> forall i :: 0 <= i < |props| ==> props[i].key != key
  {
    if props == [] then None
    else if props[0].key == key then Some(props[0].value)
    else
      var r := Lookup(props[1..], key);
      assert forall i :: 1 <= i < |props| ==> props[i] == props[1..][i - 1];
      r
  }

  /** Optional-chained property access `v?.key`: undefined unless `v` is an object.
      None of the property names the valuation code reads is a built-in property of
      strings, numbers, booleans or arrays. */
  function Get(v: Option<Json>, key: string): Option<Json>
  {
    match v
    case Some(JObj(props)) => Lookup(props, key)
    case _ => None
  }

  /** JavaScript truthiness of a possibly undefined value. JSON numbers render as
      "0" exactly when they are zero. */
  predicate Truthy(v: Option<Json>)
  {
    match v
    case None => false
    case Some(JNull) => false
    case Some(JBool(b)) => b
    case Some(JNum(repr)) => repr != "0"
    case Some(JStr(s)) => s != ""
    case Some(JArr(_)) => true
    case Some(JObj(_)) => true
  }

  /** `a || b` on possibly undefined values: one of the two operands, truthy
      exactly when one of them is, and the left one whenever it is truthy. */
  function Or(a: Option<Json>, b: Option<Json>): (r: Option<Json>)
    ensures r == a || r == b
    ensures Truthy(r) <==> Truthy(a) || Truthy(b)
    ensures Truthy(a) ==> r == a
    ensures !Truthy(a) ==> r == b
  {
    if Truthy(a) then a else b
  }

  /** `x == null`: null or undefined. */
  predicate Nullish(v: Option<Json>)
  {
    v.None? || v.value.JNull?
  }

  /** `String(v)`. An array joins its elements with commas, writing null as the
      empty string; a plain object renders as "[object Object]". An object with
      its own `toString` entry, on which `String` throws, is not told apart. */
  function ToStr(v: Json): string
    decreases v, 1
  {
    match v
    case JNull => "null"
    case JBool(b) => if b then "true" else "false"
    case JNum(repr) => repr
    case JStr(s) => s
    case JArr(elems) => Join(elems)
    case JObj(_) => "[object Object]"
  }

  function Join(elems: seq<Json>): string
    decreases elems, 0
  {
    if elems == [] then ""
    else
      var first := if elems[0].JNull? then "" else ToStr(elems[0]);
      if |elems| == 1 then first else first + "," + Join(elems[1..])
  }

  /** A UTF-16 code unit. */
  newtype CodeUnit = n: int | 0 <= n < 0x1_0000

  /** The UTF-16 code units of one character: the character itself inside the
      Basic Multilingual Plane, above it a high and a low surrogate from which
      the character is recovered. */
  function Utf16(c: char): (r: seq<CodeUnit>)
    ensures |r| == (if c as int < 0x1_0000 then 1 else 2)
    ensures |r| == 1 ==> r[0] as int == c as int
    ensures |r| == 2 ==>
      && 0xD800 <= r[0] as int < 0xDC00 <= r[1] as int < 0xE000
      && 0x1_0000 + (r[0] as int - 0xD800) * 0x400 + (r[1] as int - 0xDC00) == c as int
  {
    var n := c as int;
    if n < 0x1_0000 then [n as CodeUnit]
    else
      var v := n - 0x1_0000;
      [(0xD800 + v / 0x400) as CodeUnit, (0xDC00 + v % 0x400) as CodeUnit]
  }

  /** A JavaScript string is a sequence of UTF-16 code units; `length`, `slice` and
      `charCodeAt` work on these. */
  function CodeUnits(s: string): (r: seq<CodeUnit>)
    ensures |r| >= |s|
    ensures (forall i :: 0 <= i < |s| ==> s[i] as int < 0x1_0000) ==>
      |r| == |s| && forall i :: 0 <= i < |s| ==> r[i] as int == s[i] as int
  {
    if s == [] then [] else Utf16(s[0]) + CodeUnits(s[1..])
  }

  /** A string's code units are those of its characters, one after another. */
  lemma {:induction false} CodeUnitsConcat(a: string, b: string)
    ensures CodeUnits(a + b) == CodeUnits(a) + CodeUnits(b)
  {
    if a == [] {
      assert a + b == b;
    } else {
      assert (a + b)[0] == a[0];
      assert (a + b)[1..] == a[1..] + b;
      CodeUnitsConcat(a[1..], b);
    }
  }

  /** The characters of the regular-expression class `\s`, which are also the
      characters `String.prototype.trim` removes. */
  predicate IsSpace(c: char)
  {
    c == '\t' || c == '\n' || c == '\U{000B}' || c == '\U{000C}' || c == '\r' || c == ' '
    || c == '\U{00A0}' || c == '\U{1680}' || ('\U{2000}' <= c <= '\U{200A}')
    || c == '\U{2028}' || c == '\U{2029}' || c == '\U{202F}' || c == '\U{205F}'
    || c == '\U{3000}' || c == '\U{FEFF}'
  }

  /** `\d`: ASCII digits only. */
  predicate IsDigit(c: char)
  {
    '0' <= c <= '9'
  }

  /** `s.trim()`: see `TrimIsSlice` for what is removed. */
  function Trim(s: string): (r: string)
    ensures |r| <= |s|
    ensures r != [] ==> !IsSpace(r[0]) && !IsSpace(r[|r| - 1])
    ensures forall i :: 0 <= i < |s| && !IsSpace(s[i]) ==> r != []
  {
    if s == [] then []
    else if IsSpace(s[0]) then Trim(s[1..])
    else if IsSpace(s[|s| - 1]) then Trim(s[..|s| - 1])
    else s
  }

  /** Only whitespace lies before `a` and from `b` on. */
  predicate SpaceOutside(s: string, a: nat, b: nat)
    requires a <= b <= |s|
  {
    && (forall i :: 0 <= i < a ==> IsSpace(s[i]))
    && (forall i :: b <= i < |s| ==> IsSpace(s[i]))
  }

  /** The trimmed text is a slice of the original with only whitespace cut
      off either end, and (by `Trim`'s contract) it neither starts nor ends with
      whitespace. */
  lemma {:induction false} TrimIsSlice(s: string)
    ensures exists a, b :: 0 <= a <= b <= |s| && Trim(s) == s[a..b] && SpaceOutside(s, a, b)
    decreases |s|
  {
    if s == [] {
      assert Trim(s) == s[0..0] && SpaceOutside(s, 0, 0);
    } else if IsSpace(s[0]) {
      var t := s[1..];
      assert Trim(s) == Trim(t);
      TrimIsSlice(t);
      var a, b :| 0 <= a <= b <= |t| && Trim(t) == t[a..b] && SpaceOutside(t, a, b);
      SpaceBefore(s, t, a, b);
    } else if IsSpace(s[|s| - 1]) {
      var t := s[..|s| - 1];
      assert Trim(s) == Trim(t);
      TrimIsSlice(t);
      var a, b :| 0 <= a <= b <= |t| && Trim(t) == t[a..b] && SpaceOutside(t, a, b);
      SpaceAfter(s, t, a, b);
    } else {
      assert Trim(s) == s[0..|s|] && SpaceOutside(s, 0, |s|);
    }
  }

  lemma SpaceBefore(s: string, t: string, a: nat, b: nat)
    requires s != [] && IsSpace(s[0]) && t == s[1..] && a <= b <= |t|
    requires SpaceOutside(t, a, b)
    ensures t[a..b] == s[a + 1..b + 1] && SpaceOutside(s, a + 1, b + 1)
  {
    forall i | 0 <= i < a + 1 ensures IsSpace(s[i]) {
      if i > 0 { assert s[i] == t[i - 1]; }
    }
    forall i | b + 1 <= i < |s| ensures IsSpace(s[i]) {
      assert s[i] == t[i - 1];
    }
  }

  lemma SpaceAfter(s: string, t: string, a: nat, b: nat)
    requires s != [] && IsSpace(s[|s| - 1]) && t == s[..|s| - 1] && a <= b <= |t|
    requires SpaceOutside(t, a, b)
    ensures t[a..b] == s[a..b] && SpaceOutside(s, a, b)
  {
    forall i | 0 <= i < a ensures IsSpace(s[i]) {
      assert s[i] == t[i];
    }
    forall i | b <= i < |s| ensures IsSpace(s[i]) {
      if i < |t| { assert s[i] == t[i]; }
    }
  }

  /** `s.replace(/[^\d]/g, "")`: only digits remain; a text of digits is kept
      whole and a text without digits vanishes. With `DigitsOfConcat` this says
      every digit is kept, in order. */
  function DigitsOf(s: string): (r: string)
    ensures forall i :: 0 <= i < |r| ==> IsDigit(r[i])
    ensures |r| <= |s|
    ensures (forall i :: 0 <= i < |s| ==> IsDigit(s[i])) ==> r == s
    ensures (forall i :: 0 <= i < |s| ==> !IsDigit(s[i])) ==> r == []
  {
    if s == [] then []
    else (if IsDigit(s[0]) then [s[0]] else []) + DigitsOf(s[1..])
  }

  /** The digits of a concatenation are the digits of each part, in order. */
  lemma {:induction false} DigitsOfConcat(a: string, b: string)
    ensures DigitsOf(a + b) == DigitsOf(a) + DigitsOf(b)
  {
    if a == [] {
      assert a + b == b;
    } else {
      assert (a + b)[0] == a[0];
      assert (a + b)[1..] == a[1..] + b;
      DigitsOfConcat(a[1..], b);
    }
  }

  /** The value of a string of decimal digits (leading zeros allowed). */
  function DigitsValue(ds: string): nat
    requires forall i :: 0 <= i < |ds| ==> IsDigit(ds[i])
  {
    if ds == [] then 0
    else
      assert IsDigit(ds[|ds| - 1]);
      DigitsValue(ds[..|ds| - 1]) * 10 + (ds[|ds| - 1] as int - '0' as int)
  }

  function Pow10(n: nat): (r: nat)
    ensures r >= 1
  {
    if n == 0 then 1 else 10 * Pow10(n - 1)
  }
}
