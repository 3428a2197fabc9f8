/** The tolerant number coercion shared by the valuation endpoint (`asNum`,
    `pickNum`) and the form's copy of `pickNum`. */
module Coerce {
  import opened Js

  /** The characters `/[^\d.-]/g` keeps. */
  predicate IsNumChar(c: char)
  {
    IsDigit(c) || c == '.' || c == '-'
  }

  predicate AllDigits(s: string)
  {
    forall i :: 0 <= i < |s| ==> IsDigit(s[i])
  }

  /** `s.replace(/[^\d.-]/g, '')` */
  function StripNumeric(s: string): (r: string)
    ensures forall i :: 0 <= i < |r| ==> IsNumChar(r[i])
    ensures |r| <= |s|
  {
    if s == [] then []
    else (if IsNumChar(s[0]) then [s[0]] else []) + StripNumeric(s[1..])
  }

  /** Index of the first '.', or |t| when there is none. */
  function FirstDot(t: string): (d: nat)
    ensures d <= |t|
    ensures forall i :: 0 <= i < d ==> t[i] != '.'
    ensures d < |t| ==> t[d] == '.'
  {
    if t == [] then 0 else if t[0] == '.' then 0 else 1 + FirstDot(t[1..])
  }

  /** `Number(t)` for a numeral without sign: digits with at most one decimal
      point and at least one digit; anything else is NaN (None). */
  function UnsignedOf(t: string): Option<real>
  {
    var d := FirstDot(t);
    var whole := t[..d];
    var frac := if d < |t| then t[d + 1..] else [];
    if AllDigits(whole) && AllDigits(frac) && |whole| + |frac| > 0 then
      Some(Decimal(whole, frac))
    else None
  }

  /** The value of the numeral `whole.frac`. */
  function Decimal(whole: string, frac: string): (x: real)
    requires AllDigits(whole) && AllDigits(frac)
    ensures frac == [] ==> x == DigitsValue(whole) as real
  {
    var f := DigitsValue(frac) as real / Pow10(|frac|) as real;
    assert frac == [] ==> f == 0.0;
    DigitsValue(whole) as real + f
  }

  /** `Number(t)` for a string made only of digits, '.' and '-': the empty string
      is 0, an optional leading minus sign negates, and no exponent can occur. */
  function NumberOf(t: string): Option<real>
  {
    if t == [] then Some(0.0)
    else if t[0] == '-' then
      match UnsignedOf(t[1..])
      case Some(x) => Some(-x)
      case None => None
    else UnsignedOf(t)
  }

  /** `asNum`: undefined for null and undefined; otherwise the string form stripped
      of everything but digits, '.' and '-', read as a number; NaN becomes undefined. */
  function AsNum(x: Option<Json>): (r: Option<real>)
    ensures Nullish(x) ==> r.None?
  {
    if Nullish(x) then None else NumberOf(StripNumeric(ToStr(x.value)))
  }

  /** The first present value of `ns`. */
  function FirstSome(ns: seq<Option<real>>): (r: Option<real>)
    ensures r.None? <==> forall i :: 0 <= i < |ns| ==> ns[i].None?
    ensures r.Some? ==> exists i :: 0 <= i < |ns| && ns[i] == r
                                 && forall j :: 0 <= j < i ==> ns[j].None?
  {
    if ns == [] then None
    else if ns[0].Some? then ns[0]
    else
      var r := FirstSome(ns[1..]);
      assert forall i :: 1 <= i < |ns| ==> ns[i] == ns[1..][i - 1];
      r
  }

  /** `pickNum(...xs)`: the coercion of the first candidate that coerces. */
  function FirstNum(xs: seq<Option<Json>>): (r: Option<real>)
    ensures r.None? <==> forall i :: 0 <= i < |xs| ==> AsNum(xs[i]).None?
    ensures r.Some? ==> exists i :: 0 <= i < |xs| && AsNum(xs[i]) == r
                                 && forall j :: 0 <= j < i ==> AsNum(xs[j]).None?
  {
    var ns := seq(|xs|, i requires 0 <= i < |xs| => AsNum(xs[i]));
    assert forall i :: 0 <= i < |xs| ==> ns[i] == AsNum(xs[i]);
    FirstSome(ns)
  }

  /** The loop of `pickNum`, returning as soon as a candidate coerces. */
  method PickNum(xs: seq<Option<Json>>) returns (r: Option<real>)
    ensures r == FirstNum(xs)
  {
    for i := 0 to |xs|
      invariant forall j :: 0 <= j < i ==> AsNum(xs[j]).None?
    {
      var n := AsNum(xs[i]);
      if n.Some? {
        FirstNumAt(xs, i);
        return n;
      }
    }
    return None;
  }

  /** The candidate after a run of non-coercible ones decides `pickNum`. */
  lemma FirstNumAt(xs: seq<Option<Json>>, i: nat)
    requires i < |xs| && AsNum(xs[i]).Some?
    requires forall j :: 0 <= j < i ==> AsNum(xs[j]).None?
    ensures FirstNum(xs) == AsNum(xs[i])
  {
    var r := FirstNum(xs);
    assert r.Some?;
    var k :| 0 <= k < |xs| && AsNum(xs[k]) == r && forall j :: 0 <= j < k ==> AsNum(xs[j]).None?;
    assert k == i;
  }

  /** The decimal rendering of a natural number. */
  function Render(n: nat): (s: string)
    ensures s != [] && AllDigits(s)
  {
    if n < 10 then [('0' as int + n) as char]
    else Render(n / 10) + [('0' as int + n % 10) as char]
  }

  lemma {:induction false} RenderValue(n: nat)
    ensures DigitsValue(Render(n)) == n
  {
    var s := Render(n);
    if n >= 10 {
      RenderValue(n / 10);
      assert s[..|s| - 1] == Render(n / 10);
    }
  }

  lemma {:induction false} StripKeepsDigits(s: string)
    requires forall i :: 0 <= i < |s| ==> s[i] != '.' && s[i] != '-'
    ensures StripNumeric(s) == DigitsOf(s)
  {
    if s != [] {
      StripKeepsDigits(s[1..]);
    }
  }

  lemma AllDigitsNumber(t: string)
    requires AllDigits(t)
    ensures NumberOf(t) == Some(DigitsValue(t) as real)
  {
    if t != [] {
      assert t[0] != '-';
      var d := FirstDot(t);
      assert forall i :: 0 <= i < |t| ==> t[i] != '.';
      assert d == |t|;
      assert t[..d] == t;
      assert UnsignedOf(t) == Some(Decimal(t, []));
    }
  }

  /** A value with no '.' and no '-' in its string form always coerces, to the
      number its digits spell; spaces, currency and other noise are ignored. */
  lemma NoiseIgnored(s: string)
    requires forall i :: 0 <= i < |s| ==> s[i] != '.' && s[i] != '-'
    ensures AsNum(Some(JStr(s))) == Some(DigitsValue(DigitsOf(s)) as real)
  {
    StripKeepsDigits(s);
    AllDigitsNumber(DigitsOf(s));
  }

  /** Rendering a count and coercing it back gives the count, whatever noise
      without digits, '.' or '-' (a currency, spaces) surrounds it. */
  lemma RenderRoundTrip(n: nat, prefix: string, suffix: string)
    requires forall i :: 0 <= i < |prefix| ==> !IsNumChar(prefix[i])
    requires forall i :: 0 <= i < |suffix| ==> !IsNumChar(suffix[i])
    ensures AsNum(Some(JStr(prefix + Render(n) + suffix))) == Some(n as real)
  {
    StripConcat(prefix, Render(n));
    StripConcat(prefix + Render(n), suffix);
    StripNothing(prefix);
    StripNothing(suffix);
    StripDigits(Render(n));
    assert StripNumeric(prefix + Render(n) + suffix) == Render(n);
    AllDigitsNumber(Render(n));
    RenderValue(n);
  }

  lemma {:induction false} StripConcat(a: string, b: string)
    ensures StripNumeric(a + b) == StripNumeric(a) + StripNumeric(b)
  {
    if a == [] {
      assert a + b == b;
    } else {
      assert (a + b)[0] == a[0];
      assert (a + b)[1..] == a[1..] + b;
      StripConcat(a[1..], b);
    }
  }

  lemma {:induction false} StripNothing(s: string)
    requires forall i :: 0 <= i < |s| ==> !IsNumChar(s[i])
    ensures StripNumeric(s) == []
  {
    if s != [] {
      StripNothing(s[1..]);
    }
  }

  lemma {:induction false} StripDigits(s: string)
    requires AllDigits(s)
    ensures StripNumeric(s) == s
  {
    if s != [] {
      StripDigits(s[1..]);
    }
  }

  /** A price written with spaces and a currency suffix. */
  lemma PriceWithNoise()
    ensures AsNum(Some(JStr("120 000 kr"))) == Some(120000.0)
  {
    PriceStripped();
    PriceDigits();
    PriceNumber("120000");
  }

  lemma PriceNumber(t: string)
    requires t == "120000"
    ensures NumberOf(t) == Some(120000.0)
  {
    AllDigitsNumber(t);
    PriceDigits();
  }

  lemma PriceStripped()
    ensures StripNumeric("120 000 kr") == "120000"
  {
  }

  lemma PriceDigits()
    ensures DigitsValue("120000") == 120000
  {
    assert DigitsValue("12") == 12 by { assert "12"[..1] == "1"; }
    assert DigitsValue("120") == 120 by { assert "120"[..2] == "12"; }
    assert DigitsValue("1200") == 1200 by { assert "1200"[..3] == "120"; }
    assert DigitsValue("12000") == 12000 by { assert "12000"[..4] == "1200"; }
    assert "120000"[..5] == "12000";
  }

  /** A bare currency leaves an empty remainder, which reads as 0, not undefined;
      so does a boolean. */
  lemma EmptyRemainderIsZero(currency: string)
    requires currency == "kr"
    ensures AsNum(Some(JStr(currency))) == Some(0.0)
    ensures AsNum(Some(JBool(true))) == Some(0.0)
  {
    NoDigitsIsZero(currency);
    NoDigitsIsZero("true");
  }

  lemma NoDigitsIsZero(s: string)
    requires forall i :: 0 <= i < |s| ==> !IsNumChar(s[i])
    ensures AsNum(Some(JStr(s))) == Some(0.0)
  {
    NoiseIgnored(s);
    assert DigitsOf(s) == [];
  }

  /** Remainders that are not decimal numerals are undefined, as are null and
      undefined themselves. */
  lemma MalformedIsMissing()
    ensures AsNum(Some(JStr("1.2.3"))) == None
    ensures AsNum(Some(JStr("-"))) == None
    ensures AsNum(Some(JStr("1-2"))) == None
    ensures AsNum(Some(JNull)) == None && AsNum(None) == None
  {
    TwoDots("1.2.3");
    LoneMinus("-");
    InnerMinus("1-2");
  }

  lemma {:induction false} StripAllNum(s: string)
    requires forall i :: 0 <= i < |s| ==> IsNumChar(s[i])
    ensures StripNumeric(s) == s
  {
    if s != [] {
      StripAllNum(s[1..]);
    }
  }

  lemma TwoDots(t: string)
    requires t == "1.2.3"
    ensures AsNum(Some(JStr(t))) == None
  {
    StripAllNum(t);
    assert t[0] != '.' && t[1] == '.';
    assert FirstDot(t) == 1;
    var frac := t[2..];
    assert frac == "2.3";
    assert frac[1] == '.';
    assert !AllDigits(frac);
    assert UnsignedOf(t) == None;
  }

  lemma LoneMinus(t: string)
    requires t == "-"
    ensures AsNum(Some(JStr(t))) == None
  {
    StripAllNum(t);
    assert t[1..] == [];
    assert FirstDot([]) == 0;
    assert UnsignedOf([]) == None;
  }

  lemma InnerMinus(t: string)
    requires t == "1-2"
    ensures AsNum(Some(JStr(t))) == None
  {
    StripAllNum(t);
    assert forall i :: 0 <= i < |t| ==> t[i] != '.';
    assert FirstDot(t) == 3;
    var whole := t[..3];
    assert whole == "1-2";
    assert whole[1] == '-';
    assert !AllDigits(whole);
    assert UnsignedOf(t) == None;
  }

  /** A signed decimal keeps its sign and fraction. */
  lemma SignedDecimal()
    ensures AsNum(Some(JStr("-12.5"))) == Some(-12.5)
  {
    SignedStripped();
    SignedUnsigned();
  }

  lemma SignedStripped()
    ensures StripNumeric("-12.5") == "-12.5"
  {
    assert "-12.5" == "-12" + ".5";
    StripConcat("-12", ".5");
  }

  lemma SignedUnsigned()
    ensures UnsignedOf("12.5") == Some(12.5)
  {
    assert FirstDot("12.5") == 2;
    assert "12.5"[..2] == "12" && "12.5"[3..] == "5";
    assert DigitsValue("12") == 12 by { assert "12"[..1] == "1"; }
  }
}
