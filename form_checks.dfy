/** The sell form's field checks, the per-step validation, the input sanitisers
    of the year and mileage fields, and the reading of a valuation answer. */
module FormChecks {
  import opened Js
  import opened Coerce
  import opened Plate
  import Extract

  /* ---------- year, mileage, phone ---------- */

  const YearMin: nat := 1950
  const YearMax: nat := 2026

  /** `Number(String(y).replace(/[^\d]/g, ""))`: no digits reads as 0. */
  function DigitNumber(s: string): nat
  {
    DigitsValue(DigitsOf(s))
  }

  /** `isValidYear`: the digits of the text spell a year from 1950 to 2026. */
  predicate IsValidYear(y: string)
  {
    YearMin <= DigitNumber(y) <= YearMax
  }

  /** `mileageOk`: at least one digit, and at most 1 500 000. */
  predicate MileageOk(m: string)
  {
    |DigitsOf(m)| > 0 && DigitNumber(m) <= 1500000
  }

  /** `isValidPhone`: the digits form `0` and 8 to 10 more digits, or `46` and
      9 to 10 more. */
  predicate IsValidPhone(s: string)
  {
    var d := DigitsOf(s);
    (|d| >= 1 && d[0] == '0' && 9 <= |d| <= 11)
    || (|d| >= 2 && d[0] == '4' && d[1] == '6' && 11 <= |d| <= 12)
  }

  /** Only the digits of a field are judged: spaces, dashes and a leading `+`
      make no difference. */
  lemma OnlyDigitsCount(s: string)
    ensures IsValidYear(s) <==> IsValidYear(DigitsOf(s))
    ensures MileageOk(s) <==> MileageOk(DigitsOf(s))
    ensures IsValidPhone(s) <==> IsValidPhone(DigitsOf(s))
  {
    var d := DigitsOf(s);
    assert DigitsOf(d) == d;
  }

  /** Text without digits is never a year, a mileage or a phone number; in
      particular the empty field is rejected. */
  lemma NoDigitsRejected(s: string)
    requires DigitsOf(s) == []
    ensures !IsValidYear(s) && !MileageOk(s) && !IsValidPhone(s)
  {
  }

  /** A mobile number in its national and its international form; five digits
      are too few. */
  lemma MobilePhone(s: string)
    requires s == "0701234567" || s == "46701234567"
    ensures IsValidPhone(s)
  {
    assert DigitsOf(s) == s;
  }

  lemma ShortPhone(s: string)
    requires s == "12345"
    ensures !IsValidPhone(s)
  {
    assert DigitsOf(s) == s;
  }

  /* ---------- e-mail ---------- */

  /** No whitespace and no `@`: `[^\s@]*`. */
  predicate Plain(t: string)
  {
    forall i :: 0 <= i < |t| ==> !IsSpace(t[i]) && t[i] != '@'
  }

  /** `/^[^\s@]+@[^\s@]+\.[^\s@]{2,}$/`: split at the `@` (position `a`) and at a
      `.` (position `k`) into three non-empty plain parts, the last of at least
      two UTF-16 code units, since a pattern without the `u` flag matches code
      units. */
  predicate EmailMatch(s: string)
  {
    exists a, k :: 0 < a && a + 1 < k < |s| && s[a] == '@' && s[k] == '.'
      && LongTopLevel(s[k + 1..])
      && Plain(s[..a]) && Plain(s[a + 1..k]) && Plain(s[k + 1..])
  }

  /** `[^\s@]{2,}` counts UTF-16 code units: two characters, or one outside the
      Basic Multilingual Plane (see `LongTopLevelInCodeUnits`). */
  predicate LongTopLevel(t: string)
  {
    |t| >= 2 || (|t| == 1 && t[0] as int >= 0x1_0000)
  }

  lemma LongTopLevelInCodeUnits(t: string)
    ensures LongTopLevel(t) <==> |CodeUnits(t)| >= 2
  {
    if |t| == 1 {
      assert CodeUnits(t) == Utf16(t[0]) + CodeUnits(t[1..]);
      assert t[1..] == [];
    }
  }

  /** `isValidEmail`: empty, or matching the pattern. */
  predicate IsValidEmail(s: string)
  {
    s == "" || EmailMatch(s)
  }

  /** The same condition said plainly: no whitespace, exactly one `@`, something
      before it, and after it a `.` with at least one character before it and at
      least two code units after it. */
  predicate EmailShape(s: string)
  {
    && (forall i :: 0 <= i < |s| ==> !IsSpace(s[i]))
    && (exists a :: 0 < a < |s| && s[a] == '@'
          && (forall j :: 0 <= j < |s| && j != a ==> s[j] != '@')
          && DotInDomain(s, a))
  }

  predicate DotInDomain(s: string, a: nat)
  {
    exists k :: a + 1 < k < |s| && s[k] == '.' && LongTopLevel(s[k + 1..])
  }

  lemma EmailMatchIsShape(s: string)
    ensures EmailMatch(s) <==> EmailShape(s)
  {
    if EmailMatch(s) {
      MatchHasShape(s);
    }
    if EmailShape(s) {
      ShapeMatches(s);
    }
  }

  lemma MatchHasShape(s: string)
    requires EmailMatch(s)
    ensures EmailShape(s)
  {
    var a, k :| 0 < a && a + 1 < k < |s| && s[a] == '@' && s[k] == '.'
      && LongTopLevel(s[k + 1..])
      && Plain(s[..a]) && Plain(s[a + 1..k]) && Plain(s[k + 1..]);
    forall j | 0 <= j < |s| && j != a
      ensures !IsSpace(s[j]) && s[j] != '@'
    {
      if j < a {
        assert s[..a][j] == s[j];
      } else if j < k {
        assert s[a + 1..k][j - a - 1] == s[j];
      } else if j > k {
        assert s[k + 1..][j - k - 1] == s[j];
      }
    }
    assert DotInDomain(s, a);
  }

  lemma ShapeMatches(s: string)
    requires EmailShape(s)
    ensures EmailMatch(s)
  {
    var a :| 0 < a < |s| && s[a] == '@'
      && (forall j :: 0 <= j < |s| && j != a ==> s[j] != '@')
      && DotInDomain(s, a);
    var k :| a + 1 < k < |s| && s[k] == '.' && LongTopLevel(s[k + 1..]);
    assert Plain(s[..a]);
    assert Plain(s[a + 1..k]);
    assert Plain(s[k + 1..]);
  }

  /** The empty address is accepted (the field is optional). */
  lemma EmptyEmail()
    ensures IsValidEmail("")
  {
  }

  lemma EmailAccepted()
    ensures IsValidEmail("a@b.se")
  {
    var s := "a@b.se";
    assert Plain(s[..1]) && Plain(s[2..3]) && Plain(s[4..]);
    assert 0 < 1 && 1 + 1 < 3 < |s| && s[1] == '@' && s[3] == '.';
    assert LongTopLevel(s[4..]);
  }

  /** A top-level domain of one character outside the Basic Multilingual Plane
      is two code units long, and so long enough. */
  lemma AstralTopLevel(s: string)
    requires s == "a@b.\U{1F600}"
    ensures IsValidEmail(s)
  {
    var top := s[4..];
    assert top == ['\U{1F600}'];
    assert Plain(s[..1]) && Plain(s[2..3]) && Plain(top);
    assert 0 < 1 && 1 + 1 < 3 < |s| && s[1] == '@' && s[3] == '.';
  }

  /** Two `@`s, or a top-level domain of one letter, are refused. */
  lemma TwoAts()
    ensures !IsValidEmail("a@b@c.se")
  {
    var s := "a@b@c.se";
    EmailMatchIsShape(s);
    assert s[1] == '@' && s[3] == '@';
  }

  lemma ShortTopLevel(s: string)
    requires s == "a@b.s"
    ensures !IsValidEmail(s)
  {
    EmailMatchIsShape(s);
  }

  /* ---------- the form and its steps ---------- */

  /** The form fields the checks read. */
  datatype Form = Form(reg: string, brand: string, model: string, year: string, mileage: string,
                       contactName: string, contactEmail: string, contactPhone: string)

  function EmptyForm(): Form
  {
    Form("", "", "", "", "", "", "", "")
  }

  /** The keys of the errors object. */
  datatype FieldName = Reg | Brand | Model | Year | Mileage | ContactName | ContactPhone | ContactEmail

  /** `f[k]`: the text of field `k`. */
  function FieldValue(form: Form, f: FieldName): string
  {
    match f
    case Reg => form.reg
    case Brand => form.brand
    case Model => form.model
    case Year => form.year
    case Mileage => form.mileage
    case ContactName => form.contactName
    case ContactPhone => form.contactPhone
    case ContactEmail => form.contactEmail
  }

  /** Length in UTF-16 code units of the trimmed text. */
  function TrimmedLength(s: string): nat
  {
    |CodeUnits(Trim(s))|
  }

  /** The step of the form a field belongs to. */
  function StepOf(f: FieldName): nat
  {
    match f
    case Reg | Brand | Model | Year | Mileage => 0
    case ContactName | ContactPhone | ContactEmail => 2
  }

  /** The field's own check rejects what the form holds. */
  predicate Fails(form: Form, f: FieldName)
  {
    match f
    case Reg => !IsValidPlate(form.reg)
    case Brand => TrimmedLength(form.brand) < 2
    case Model => Trim(form.model) == ""
    case Year => !IsValidYear(form.year)
    case Mileage => !MileageOk(form.mileage)
    case ContactName => TrimmedLength(form.contactName) < 2
    case ContactPhone => !IsValidPhone(form.contactPhone)
    case ContactEmail => !IsValidEmail(form.contactEmail)
  }

  /** No field is named twice: the keys of an object. */
  predicate NoDuplicates(fields: seq<FieldName>)
  {
    forall i, j :: 0 <= i < j < |fields| ==> fields[i] != fields[j]
  }

  /** `fields` with those whose check fails kept, in order. */
  function Failing(form: Form, fields: seq<FieldName>): (errs: seq<FieldName>)
    ensures forall f :: f in errs <==> f in fields && Fails(form, f)
    ensures NoDuplicates(fields) ==> NoDuplicates(errs)
  {
    if fields == [] then []
    else (if Fails(form, fields[0]) then [fields[0]] else []) + Failing(form, fields[1..])
  }

  /** The fields each step checks, in the order it checks them. */
  function StepFields(step: nat): (fields: seq<FieldName>)
    ensures forall f :: f in fields <==> StepOf(f) == step
  {
    if step == 0 then [Reg, Brand, Model, Year, Mileage]
    else if step == 2 then [ContactName, ContactPhone, ContactEmail]
    else []
  }

  /** `validateCurrentStep(s)`: the fields in error, in the order the errors
      object receives them. A field is reported exactly when it belongs to the
      step and its check fails; the middle step has no checks. */
  function ValidateStep(form: Form, step: nat): (errs: seq<FieldName>)
    ensures forall f :: f in errs <==> StepOf(f) == step && Fails(form, f)
    ensures NoDuplicates(errs)
    ensures step == 1 ==> errs == []
  {
    Failing(form, StepFields(step))
  }

  /** `canNext` */
  predicate CanNext(form: Form, step: nat)
  {
    if step == 0 then
      && IsValidPlate(form.reg)
      && TrimmedLength(form.brand) >= 2
      && TrimmedLength(form.model) >= 1
      && IsValidYear(form.year)
      && MileageOk(form.mileage)
    else if step == 1 then true
    else
      && TrimmedLength(form.contactName) >= 2
      && IsValidPhone(form.contactPhone)
      && IsValidEmail(form.contactEmail)
  }

  /** The step's checks find nothing exactly when `canNext` holds, for each of
      the three steps. */
  lemma ValidateMatchesCanNext(form: Form, step: nat)
    requires step <= 2
    ensures ValidateStep(form, step) == [] <==> CanNext(form, step)
  {
    assert Trim(form.model) == "" <==> TrimmedLength(form.model) < 1 by {
      if Trim(form.model) != "" {
        assert |CodeUnits(Trim(form.model))| >= |Trim(form.model)|;
      }
    }
    var errs := ValidateStep(form, step);
    if step == 0 {
      if errs == [] {
        assert !Fails(form, Reg) && !Fails(form, Brand) && !Fails(form, Model);
        assert !Fails(form, Year) && !Fails(form, Mileage);
      } else {
        assert errs[0] in errs;
      }
    } else if step == 2 {
      if errs == [] {
        assert !Fails(form, ContactName) && !Fails(form, ContactPhone) && !Fails(form, ContactEmail);
      } else {
        assert errs[0] in errs;
      }
    }
  }

  /* ---------- input sanitisers ---------- */

  /** The year field keeps its first four digits. */
  function YearInput(v: string): (r: string)
    ensures |r| <= 4
    ensures forall i :: 0 <= i < |r| ==> IsDigit(r[i])
    ensures |DigitsOf(v)| <= 4 ==> r == DigitsOf(v)
    ensures |DigitsOf(v)| > 4 ==> r == DigitsOf(v)[..4]
    ensures |v| <= 4 && (forall i :: 0 <= i < |v| ==> IsDigit(v[i])) ==> r == v
  {
    var d := DigitsOf(v);
    if |d| <= 4 then d else d[..4]
  }

  /** The mileage field keeps its digits: every typed digit, in order (see
      `Js.DigitsOf` and `Js.DigitsOfConcat`), and nothing else. */
  function MileageInput(v: string): (r: string)
    ensures forall i :: 0 <= i < |r| ==> IsDigit(r[i])
    ensures r == DigitsOf(v)
    ensures (forall i :: 0 <= i < |v| ==> IsDigit(v[i])) ==> r == v
  {
    DigitsOf(v)
  }

  /** Typing into the year and mileage fields again changes nothing, and their
      checks see the same digits as before. */
  lemma InputsStable(v: string)
    ensures YearInput(YearInput(v)) == YearInput(v)
    ensures MileageInput(MileageInput(v)) == MileageInput(v)
    ensures MileageOk(MileageInput(v)) <==> MileageOk(v)
  {
    assert DigitsOf(YearInput(v)) == YearInput(v);
    assert DigitsOf(MileageInput(v)) == MileageInput(v);
  }

  /* ---------- reading a valuation answer ---------- */

  /** `raw?.result ?? raw ?? {}` */
  function Source(raw: Option<Json>): (src: Json)
    ensures !Nullish(Get(raw, "result")) ==> src == Get(raw, "result").value
    ensures Nullish(Get(raw, "result")) && !Nullish(raw) ==> src == raw.value
    ensures Nullish(Get(raw, "result")) && Nullish(raw) ==> src == JObj([])
  {
    var r := Get(raw, "result");
    if !Nullish(r) then r.value else if !Nullish(raw) then raw.value else JObj([])
  }

  /** The client's `pickNum` over three fields of the answer. */
  function Pick(src: Json, k1: string, k2: string, k3: string): Option<real>
  {
    FirstNum([Get(Some(src), k1), Get(Some(src), k2), Get(Some(src), k3)])
  }

  function BaseOf(src: Json): Option<real> { Pick(src, "basePrice", "base", "market") }
  function DeductionOf(src: Json): Option<real> { Pick(src, "deduction", "minus", "delta") }
  function FinalOf(src: Json): Option<real> { Pick(src, "finalPrice", "final", "price") }

  /** `normalizeValuationPayload(raw)`: base, deduction and final from the first
      coercible of their candidate fields; a missing final price is derived from
      the other two when both are there, and is kept when found. */
  function NormalizeValuationPayload(raw: Option<Json>): (v: Extract.Valuation)
    ensures v.basePrice == BaseOf(Source(raw)) && v.deduction == DeductionOf(Source(raw))
    ensures v.finalPrice == Extract.DeriveFinal(v.basePrice, v.deduction, FinalOf(Source(raw)))
  {
    var src := Source(raw);
    var base, deduction, final := BaseOf(src), DeductionOf(src), FinalOf(src);
    Extract.Valuation(base, deduction, Extract.DeriveFinal(base, deduction, final))
  }

  /** The client's final price: the one found when there is one, else base minus
      deduction when both are there, else missing. */
  lemma PayloadFinal(raw: Option<Json>, base: Option<real>, deduction: Option<real>, final: Option<real>)
    requires base == BaseOf(Source(raw)) && deduction == DeductionOf(Source(raw))
    requires final == FinalOf(Source(raw))
    ensures final.Some? ==> NormalizeValuationPayload(raw).finalPrice == final
    ensures final.None? && base.Some? && deduction.Some? ==>
      NormalizeValuationPayload(raw).finalPrice == Some(base.value - deduction.value)
    ensures final.None? && (base.None? || deduction.None?) ==> NormalizeValuationPayload(raw).finalPrice.None?
  {
    var d := Extract.DeriveFinal(base, deduction, final);
    assert NormalizeValuationPayload(raw).finalPrice == d;
  }

  /** One price as the endpoint's JSON answer writes it: `null`, or a finite
      number as `String(x)` writes it without exponent (an optional minus sign,
      the whole part, and the fraction digits when there are any). */
  datatype Written = Null | Number(negative: bool, whole: nat, frac: string)

  predicate WellWritten(w: Written)
  {
    w.Number? ==> AllDigits(w.frac)
  }

  /** The JSON text of a written price. */
  function WrittenJson(w: Written): Json
  {
    if w.Null? then JNull else JNum(WrittenText(w))
  }

  function WrittenText(w: Written): string
    requires w.Number?
  {
    (if w.negative then "-" else "") + (Render(w.whole) + (if w.frac == [] then "" else "." + w.frac))
  }

  /** The value a written price stands for: missing for `null`, otherwise the
      signed decimal `whole.frac`. */
  function WrittenValue(w: Written): Option<real>
    requires WellWritten(w)
  {
    match w
    case Null => None
    case Number(negative, whole, frac) =>
      var x := Decimal(Render(whole), frac);
      Some(if negative then -x else x)
  }

  /** The client's `asNum` reads a written price back as the value it stands for:
      `null` as missing, and any sign and fraction kept. */
  lemma WrittenRoundTrip(w: Written)
    requires WellWritten(w)
    ensures AsNum(Some(WrittenJson(w))) == WrittenValue(w)
  {
    if w.Number? {
      WrittenStrips(w);
      WrittenNumber(w);
    }
  }

  lemma WrittenStrips(w: Written)
    requires w.Number? && WellWritten(w)
    ensures StripNumeric(WrittenText(w)) == WrittenText(w)
  {
    var sign := if w.negative then "-" else "";
    var tail := if w.frac == [] then "" else "." + w.frac;
    WrittenChars(sign, Render(w.whole), tail, w.frac, WrittenText(w));
    StripAllNum(WrittenText(w));
  }

  lemma WrittenNumber(w: Written)
    requires w.Number? && WellWritten(w)
    ensures NumberOf(WrittenText(w)) == WrittenValue(w)
  {
    var sign := if w.negative then "-" else "";
    var r := Render(w.whole);
    var tail := if w.frac == [] then "" else "." + w.frac;
    UnsignedWritten(r, w.frac, r + tail);
    SignedWritten(sign, r + tail, WrittenText(w), Decimal(r, w.frac));
  }

  lemma SignedWritten(sign: string, digits: string, t: string, x: real)
    requires sign == "-" || sign == ""
    requires digits != [] && IsDigit(digits[0])
    requires UnsignedOf(digits) == Some(x)
    requires t == sign + digits
    ensures NumberOf(t) == Some(if sign == "-" then -x else x)
  {
    if sign == "-" {
      assert t[0] == '-' && t[1..] == digits;
    } else {
      assert t == digits;
    }
  }

  lemma WrittenChars(sign: string, r: string, tail: string, frac: string, t: string)
    requires sign == "-" || sign == ""
    requires AllDigits(r) && AllDigits(frac)
    requires tail == "" || tail == "." + frac
    requires t == sign + (r + tail)
    ensures forall i :: 0 <= i < |t| ==> IsNumChar(t[i])
  {
    forall i | 0 <= i < |t| ensures IsNumChar(t[i]) {
      if i < |sign| {
        assert t[i] == '-';
      } else if i < |sign| + |r| {
        assert t[i] == r[i - |sign|];
      } else if i == |sign| + |r| {
        assert t[i] == '.';
      } else {
        assert t[i] == frac[i - |sign| - |r| - 1];
      }
    }
  }

  lemma UnsignedWritten(r: string, frac: string, digits: string)
    requires r != [] && AllDigits(r) && AllDigits(frac)
    requires digits == r + (if frac == [] then "" else "." + frac)
    ensures UnsignedOf(digits) == Some(Decimal(r, frac))
    ensures digits != [] && IsDigit(digits[0])
  {
    assert digits[0] == r[0];
    if frac == [] {
      assert digits == r;
      NoDot(r);
    } else {
      DotAfter(r, "." + frac, digits);
      assert digits[|r| + 1..] == frac;
    }
  }

  lemma NoDot(r: string)
    requires AllDigits(r)
    ensures FirstDot(r) == |r|
  {
    assert forall i :: 0 <= i < |r| ==> r[i] != '.';
  }

  lemma DotAfter(r: string, tail: string, digits: string)
    requires AllDigits(r) && tail != [] && tail[0] == '.'
    requires digits == r + tail
    ensures FirstDot(digits) == |r| && digits[..|r|] == r
  {
    assert digits[|r|] == '.';
    assert forall i :: 0 <= i < |r| ==> digits[i] == r[i] != '.';
  }

  /** The three prices of a valuation as the endpoint's answer carries them. */
  function Answer(base: Written, deduction: Written, final: Written): Json
  {
    JObj([Prop("basePrice", WrittenJson(base)), Prop("deduction", WrittenJson(deduction)),
          Prop("finalPrice", WrittenJson(final))])
  }

  /** What the endpoint sends, the client reads back: each price as the value it
      stands for, `null` as missing, with the client's own derivation of a
      missing final price. The endpoint never sends a final price it could
      still derive (`Extract.DeriveFinal`), and for such answers the client reads
      back exactly the three prices sent. */
  lemma AnswerRoundTrip(base: Written, deduction: Written, final: Written)
    requires WellWritten(base) && WellWritten(deduction) && WellWritten(final)
    ensures var b, d, f := WrittenValue(base), WrittenValue(deduction), WrittenValue(final);
      NormalizeValuationPayload(Some(Answer(base, deduction, final)))
        == Extract.Valuation(b, d, Extract.DeriveFinal(b, d, f))
    ensures var b, d, f := WrittenValue(base), WrittenValue(deduction), WrittenValue(final);
      f.Some? || b.None? || d.None? ==>
        NormalizeValuationPayload(Some(Answer(base, deduction, final))) == Extract.Valuation(b, d, f)
  {
    var ans := Answer(base, deduction, final);
    AnswerFields(ans, base, deduction, final);
    PickWritten(ans, "basePrice", "base", "market", base);
    PickWritten(ans, "deduction", "minus", "delta", deduction);
    PickWritten(ans, "finalPrice", "final", "price", final);
  }

  lemma AnswerFields(ans: Json, base: Written, deduction: Written, final: Written)
    requires ans == Answer(base, deduction, final)
    ensures Source(Some(ans)) == ans
    ensures Get(Some(ans), "basePrice") == Some(WrittenJson(base))
    ensures Get(Some(ans), "deduction") == Some(WrittenJson(deduction))
    ensures Get(Some(ans), "finalPrice") == Some(WrittenJson(final))
    ensures forall k :: k in ["base", "market", "minus", "delta", "final", "price"] ==> Get(Some(ans), k) == None
  {
    var props := ans.props;
    assert props[1..] == [props[1], props[2]];
    assert props[2..] == [props[2]];
    assert Get(Some(ans), "result") == None;
  }

  lemma PickWritten(src: Json, k1: string, k2: string, k3: string, w: Written)
    requires WellWritten(w)
    requires Get(Some(src), k1) == Some(WrittenJson(w))
    requires Get(Some(src), k2) == None && Get(Some(src), k3) == None
    ensures Pick(src, k1, k2, k3) == WrittenValue(w)
  {
    var xs := [Get(Some(src), k1), Get(Some(src), k2), Get(Some(src), k3)];
    WrittenRoundTrip(w);
    if w.Number? {
      FirstNumAt(xs, 0);
    } else {
      assert forall i :: 0 <= i < |xs| ==> AsNum(xs[i]).None?;
    }
  }

  /** A wrapped answer `{result: x}` reads like `x` itself, when `x` has no
      `result` of its own. */
  lemma ResultUnwrapped(x: Json)
    requires !x.JNull? && Nullish(Get(Some(x), "result"))
    ensures NormalizeValuationPayload(Some(JObj([Prop("result", x)])))
         == NormalizeValuationPayload(Some(x))
  {
    var raw := Some(JObj([Prop("result", x)]));
    assert Get(raw, "result") == Some(x);
    assert Source(raw) == x;
    assert Source(Some(x)) == x;
  }

  /** Nothing to read (undefined or null) gives nothing. */
  lemma NothingToNormalize(raw: Option<Json>)
    requires Nullish(raw)
    ensures NormalizeValuationPayload(raw) == Extract.Valuation(None, None, None)
  {
    var src := Source(raw);
    assert src == JObj([]);
    NothingPicked(src, "basePrice", "base", "market");
    NothingPicked(src, "deduction", "minus", "delta");
    NothingPicked(src, "finalPrice", "final", "price");
  }

  lemma NothingPicked(src: Json, k1: string, k2: string, k3: string)
    requires src == JObj([])
    ensures Pick(src, k1, k2, k3).None?
  {
    var xs := [Get(Some(src), k1), Get(Some(src), k2), Get(Some(src), k3)];
    assert forall i :: 0 <= i < |xs| ==> xs[i].None?;
  }
}
