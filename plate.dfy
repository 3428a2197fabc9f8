/** Swedish registration plates: the normalisation both the form and the
    valuation endpoint apply, the two spellings of the plate pattern, the
    registration input sanitiser and the preview formatter. */
module Plate {
  import opened Js

  /** `toUpperCase` on the characters that can end up in a plate: a-z and
      å, ä, ö. Every other character is left as it is. */
  function UpperChar(c: char): char
  {
    if 'a' <= c <= 'z' then (c as int - 32) as char
    else if c == 'å' then 'Å'
    else if c == 'ä' then 'Ä'
    else if c == 'ö' then 'Ö'
    else c
  }

  /** `toUpperCase`: exactly the lower-case plate letters change, each to its
      upper-case letter, and nothing is left to upper-case. */
  function Upper(s: string): (r: string)
    ensures |r| == |s|
    ensures forall i :: 0 <= i < |s| ==> r[i] == UpperChar(s[i])
    ensures forall i :: 0 <= i < |s| ==> (r[i] != s[i] <==> IsLowerPlateLetter(s[i]))
    ensures forall i :: 0 <= i < |s| ==> (IsPlateLetter(r[i]) <==> IsPlateLetter(s[i]) || IsLowerPlateLetter(s[i]))
    ensures forall i :: 0 <= i < |r| ==> UpperChar(r[i]) == r[i]
  {
    seq(|s|, i requires 0 <= i < |s| => UpperChar(s[i]))
  }

  /** `[a-zåäö]` */
  predicate IsLowerPlateLetter(c: char)
  {
    'a' <= c <= 'z' || c == 'å' || c == 'ä' || c == 'ö'
  }

  /** `[A-ZÅÄÖ]` */
  predicate IsPlateLetter(c: char)
  {
    'A' <= c <= 'Z' || c == 'Å' || c == 'Ä' || c == 'Ö'
  }

  /** `[A-ZÅÄÖ]` under the `i` flag: the character's upper case is in the class. */
  predicate IsPlateLetterIgnoringCase(c: char)
  {
    IsPlateLetter(UpperChar(c))
  }

  /** Exactly three plate letters followed by three digits, or by two digits
      and a plate letter: `^[A-ZÅÄÖ]{3}(?:\d{3}|\d{2}[A-ZÅÄÖ])$`. */
  predicate PlateShape(p: string)
  {
    && |p| == 6
    && IsPlateLetter(p[0]) && IsPlateLetter(p[1]) && IsPlateLetter(p[2])
    && IsDigit(p[3]) && IsDigit(p[4])
    && (IsDigit(p[5]) || IsPlateLetter(p[5]))
  }

  /** `.replace(/[\s-]/g, "")`: no separator is left, a text of separators only
      vanishes, and (with `NothingToDrop` and `DropSeparatorsConcat`) every other
      character is kept, in order. */
  function DropSeparators(s: string): (r: string)
    ensures |r| <= |s|
    ensures forall i :: 0 <= i < |r| ==> !IsSpace(r[i]) && r[i] != '-'
    ensures (forall i :: 0 <= i < |s| ==> IsSpace(s[i]) || s[i] == '-') ==> r == []
  {
    if s == [] then []
    else (if IsSpace(s[0]) || s[0] == '-' then [] else [s[0]]) + DropSeparators(s[1..])
  }

  /** `cleanPlate`, and the normalisation the endpoint applies to the posted plate:
      upper case, then whitespace and hyphens removed. */
  function Clean(s: string): string
  {
    DropSeparators(Upper(s))
  }

  /** `isValidPlate`: the cleaned text matches
      `/^(?=.{6}$)[A-ZÅÄÖ]{3}(?:\d{3}|\d{2}[A-ZÅÄÖ])$/i`. The look-ahead asks for
      six characters none of which ends a line. */
  predicate IsValidPlate(s: string)
  {
    var p := Clean(s);
    && |p| == 6
    && (forall i :: 0 <= i < 6 ==> !IsLineTerminator(p[i]))
    && IsPlateLetterIgnoringCase(p[0]) && IsPlateLetterIgnoringCase(p[1])
    && IsPlateLetterIgnoringCase(p[2])
    && IsDigit(p[3]) && IsDigit(p[4])
    && (IsDigit(p[5]) || IsPlateLetterIgnoringCase(p[5]))
  }

  /** The characters `.` does not match. */
  predicate IsLineTerminator(c: char)
  {
    c == '\n' || c == '\r' || c == '\U{2028}' || c == '\U{2029}'
  }

  lemma {:induction false} UpperIdempotentChar(c: char)
    ensures UpperChar(UpperChar(c)) == UpperChar(c)
  {
  }

  lemma {:induction false} DropSeparatorsConcat(a: string, b: string)
    ensures DropSeparators(a + b) == DropSeparators(a) + DropSeparators(b)
  {
    if a == [] {
      assert a + b == b;
    } else {
      assert (a + b)[0] == a[0];
      assert (a + b)[1..] == a[1..] + b;
      DropSeparatorsConcat(a[1..], b);
    }
  }

  lemma {:induction false} DroppedFrom(s: string)
    ensures forall i :: 0 <= i < |DropSeparators(s)| ==> DropSeparators(s)[i] in s
  {
    if s != [] {
      DroppedFrom(s[1..]);
    }
  }

  lemma {:induction false} KeptFrom(s: string)
    ensures forall i :: 0 <= i < |KeepRegChars(s)| ==> KeepRegChars(s)[i] in s
  {
    if s != [] {
      KeptFrom(s[1..]);
    }
  }

  /** Every character of a cleaned plate is already upper case. */
  lemma CleanIsUpper(s: string)
    ensures forall i :: 0 <= i < |Clean(s)| ==> UpperChar(Clean(s)[i]) == Clean(s)[i]
  {
    var u := Upper(s);
    DroppedFrom(u);
    forall i | 0 <= i < |Clean(s)| ensures UpperChar(Clean(s)[i]) == Clean(s)[i] {
      var j :| 0 <= j < |u| && u[j] == Clean(s)[i];
      UpperIdempotentChar(s[j]);
    }
  }

  /** Cleaning twice is cleaning once. */
  lemma {:induction false} CleanIdempotent(s: string)
    ensures Clean(Clean(s)) == Clean(s)
  {
    var p := Clean(s);
    CleanIsUpper(s);
    assert Upper(p) == p;
    NothingToDrop(p);
  }

  /** A text already in plate shape is its own cleaning. */
  lemma CleanKeepsPlate(p: string)
    requires PlateShape(p)
    ensures Clean(p) == p
  {
    assert Upper(p) == p;
    NothingToDrop(p);
  }

  lemma {:induction false} NothingToDrop(p: string)
    requires forall i :: 0 <= i < |p| ==> !IsSpace(p[i]) && p[i] != '-'
    ensures DropSeparators(p) == p
  {
    if p != [] {
      NothingToDrop(p[1..]);
    }
  }

  /** The form's check and the endpoint's check agree: `isValidPlate(s)` holds
      exactly when the endpoint accepts `s` as posted. */
  lemma ClientAgreesWithServer(s: string)
    ensures IsValidPlate(s) <==> PlateShape(Clean(s))
  {
    var p := Clean(s);
    CleanIsUpper(s);
    if |p| == 6 {
      assert forall i :: 0 <= i < 6 ==> !IsSpace(p[i]);
      assert forall i :: 0 <= i < 6 ==> IsPlateLetterIgnoringCase(p[i]) == IsPlateLetter(p[i]);
    }
  }

  /** The worked examples: spaces and lower case are normalised away; a
      two-letter prefix is refused. */
  lemma PlateExampleSpaced()
    ensures Clean("abc 123") == "ABC123" && PlateShape(Clean("abc 123"))
  {
    var u := Upper("abc 123");
    assert |u| == 7;
    assert u[0] == 'A' && u[1] == 'B' && u[2] == 'C' && u[3] == ' '
        && u[4] == '1' && u[5] == '2' && u[6] == '3';
    assert u == "ABC 123";
    SpacedDropped(u);
  }

  lemma SpacedDropped(s: string)
    requires s == "ABC 123"
    ensures DropSeparators(s) == "ABC123"
  {
    var letters, space, digits := s[..3], s[3..4], s[4..];
    assert s == letters + space + digits;
    assert DropSeparators(space) == [] by {
      assert IsSpace(space[0]) && space[1..] == [];
    }
    NothingToDrop(letters);
    NothingToDrop(digits);
    DropSeparatorsConcat(letters + space, digits);
    DropSeparatorsConcat(letters, space);
    assert letters + digits == "ABC123";
  }

  lemma PlateExampleShortPrefix()
    ensures !PlateShape(Clean("AB1234"))
  {
    var u := Upper("AB1234");
    assert |u| == 6;
    assert u[0] == 'A' && u[1] == 'B' && u[2] == '1';
    assert u == "AB1234";
    NothingToDrop(u);
  }

  /* ---------- the registration input sanitiser ---------- */

  /** `[A-ZÅÄÖ0-9]` under the `i` flag. */
  predicate IsRegChar(c: char)
  {
    IsPlateLetterIgnoringCase(c) || IsDigit(c)
  }

  /** `.replace(/[^A-ZÅÄÖ0-9]/gi, "")`: only plate letters (either case) and
      digits remain; a text of them is kept whole, and with `KeepRegCharsConcat`
      every one of them is kept, in order. */
  function KeepRegChars(s: string): (r: string)
    ensures |r| <= |s|
    ensures forall i :: 0 <= i < |r| ==> IsRegChar(r[i])
    ensures (forall i :: 0 <= i < |s| ==> IsRegChar(s[i])) ==> r == s
    ensures (forall i :: 0 <= i < |s| ==> !IsRegChar(s[i])) ==> r == []
  {
    if s == [] then []
    else (if IsRegChar(s[0]) then [s[0]] else []) + KeepRegChars(s[1..])
  }

  lemma {:induction false} KeepRegCharsConcat(a: string, b: string)
    ensures KeepRegChars(a + b) == KeepRegChars(a) + KeepRegChars(b)
  {
    if a == [] {
      assert a + b == b;
    } else {
      assert (a + b)[0] == a[0];
      assert (a + b)[1..] == a[1..] + b;
      KeepRegCharsConcat(a[1..], b);
    }
  }

  /** The registration field's change handler:
      `value.toUpperCase().replace(/[^A-ZÅÄÖ0-9]/gi, "").slice(0, 6)`. Every kept
      character is one UTF-16 code unit, so the slice keeps six characters. */
  function Sanitize(s: string): (r: string)
    ensures |r| <= 6
    ensures forall i :: 0 <= i < |r| ==> IsPlateLetter(r[i]) || IsDigit(r[i])
    ensures |r| == if |KeepRegChars(Upper(s))| < 6 then |KeepRegChars(Upper(s))| else 6
    ensures r == KeepRegChars(Upper(s))[..|r|]
  {
    var kept := KeepRegChars(Upper(s));
    KeptAreUpper(s);
    if |kept| <= 6 then kept else kept[..6]
  }

  lemma KeptAreUpper(s: string)
    ensures forall i :: 0 <= i < |KeepRegChars(Upper(s))| ==>
      IsPlateLetter(KeepRegChars(Upper(s))[i]) || IsDigit(KeepRegChars(Upper(s))[i])
  {
    var u := Upper(s);
    var k := KeepRegChars(u);
    KeptFrom(u);
    forall i | 0 <= i < |k| ensures IsPlateLetter(k[i]) || IsDigit(k[i]) {
      var j :| 0 <= j < |u| && u[j] == k[i];
      UpperIdempotentChar(s[j]);
    }
  }

  /** What the registration field holds is already clean, and sanitising it again
      changes nothing. */
  lemma SanitizeStable(s: string)
    ensures Clean(Sanitize(s)) == Sanitize(s)
    ensures Sanitize(Sanitize(s)) == Sanitize(s)
  {
    var r := Sanitize(s);
    assert Upper(r) == r;
    NothingToDrop(r);
    KeepAll(r);
  }

  lemma {:induction false} KeepAll(r: string)
    requires forall i :: 0 <= i < |r| ==> IsPlateLetter(r[i]) || IsDigit(r[i])
    ensures KeepRegChars(r) == r
  {
    if r != [] {
      KeepAll(r[1..]);
    }
  }

  /** Typing a valid plate with spaces, hyphens or lower case into the
      registration field stores exactly the plate the endpoint would validate. */
  lemma SanitizeKeepsValidPlate(s: string)
    requires PlateShape(Clean(s))
    ensures Sanitize(s) == Clean(s)
  {
    var kept := KeepRegChars(Upper(s));
    FiltersAgree(Upper(s));
    assert kept == Clean(s) && |kept| == 6;
    assert kept[..6] == kept;
  }

  lemma {:induction false} FiltersAgree(u: string)
    requires forall i :: 0 <= i < |DropSeparators(u)| ==>
      IsPlateLetter(DropSeparators(u)[i]) || IsDigit(DropSeparators(u)[i])
    ensures KeepRegChars(u) == DropSeparators(u)
  {
    if u != [] {
      var head := if IsSpace(u[0]) || u[0] == '-' then [] else [u[0]];
      assert DropSeparators(u) == head + DropSeparators(u[1..]);
      assert DropSeparators(u[1..]) == DropSeparators(u)[|head|..];
      if head != [] {
        assert DropSeparators(u)[0] == u[0];
      } else {
        assert !IsRegChar(u[0]);
      }
      FiltersAgree(u[1..]);
    }
  }

  /* ---------- the preview formatter ---------- */

  /** `plateForPreview`: a six-unit plate in either pattern (case ignored) is
      shown as its three letters, a space, and the rest; anything else is
      shown cleaned but otherwise as typed. */
  function PlateForPreview(raw: string): string
  {
    var p := Clean(raw);
    if |CodeUnits(p)| != 6 then p
    else if IsLettersThenDigits(p) then p[..3] + " " + p[3..]
    else if IsLettersDigitsLetter(p) then p[..3] + " " + p[3..5] + p[5..]
    else p
  }

  /** `/^[A-ZÅÄÖ]{3}\d{3}$/i` */
  predicate IsLettersThenDigits(p: string)
  {
    && |p| == 6
    && IsPlateLetterIgnoringCase(p[0]) && IsPlateLetterIgnoringCase(p[1])
    && IsPlateLetterIgnoringCase(p[2])
    && IsDigit(p[3]) && IsDigit(p[4]) && IsDigit(p[5])
  }

  /** `/^[A-ZÅÄÖ]{3}\d{2}[A-ZÅÄÖ]$/i` */
  predicate IsLettersDigitsLetter(p: string)
  {
    && |p| == 6
    && IsPlateLetterIgnoringCase(p[0]) && IsPlateLetterIgnoringCase(p[1])
    && IsPlateLetterIgnoringCase(p[2])
    && IsDigit(p[3]) && IsDigit(p[4]) && IsPlateLetterIgnoringCase(p[5])
  }

  /** A cleaned text whose length is not six, or that is not a plate, is shown
      exactly as cleaned. */
  lemma PreviewOfNonPlate(raw: string)
    requires !PlateShape(Clean(raw))
    ensures PlateForPreview(raw) == Clean(raw)
  {
    var p := Clean(raw);
    CleanIsUpper(raw);
    if |p| == 6 {
      assert forall i :: 0 <= i < 6 ==> IsPlateLetterIgnoringCase(p[i]) == IsPlateLetter(p[i]);
    }
  }

  lemma PreviewOfOtherLength(raw: string)
    requires |CodeUnits(Clean(raw))| != 6
    ensures PlateForPreview(raw) == Clean(raw)
  {
  }

  /** A valid plate previews as its first three characters, a space and its last
      three. */
  lemma PreviewOfPlate(raw: string)
    requires PlateShape(Clean(raw))
    ensures PlateForPreview(raw) == Clean(raw)[..3] + " " + Clean(raw)[3..]
  {
    var p := Clean(raw);
    CleanIsUpper(raw);
    assert forall i :: 0 <= i < 6 ==> IsPlateLetterIgnoringCase(p[i]) == IsPlateLetter(p[i]);
    assert forall i :: 0 <= i < 6 ==> p[i] as int < 0x1_0000;
    assert p[3..5] + p[5..] == p[3..];
  }

  /** Cleaning the preview gives back the cleaned input: the preview only adds the
      separating space. */
  lemma PreviewCleansBack(raw: string)
    ensures Clean(PlateForPreview(raw)) == Clean(raw)
  {
    var p := Clean(raw);
    CleanIdempotent(raw);
    if PlateShape(p) {
      PreviewOfPlate(raw);
      SpaceCleansAway(p[..3], p[3..]);
      assert p[..3] + p[3..] == p;
    } else {
      PreviewOfNonPlate(raw);
    }
  }

  lemma SpaceCleansAway(a: string, b: string)
    ensures Clean(a + " " + b) == Clean(a + b)
  {
    assert Upper(a + " " + b) == Upper(a) + " " + Upper(b);
    assert Upper(a + b) == Upper(a) + Upper(b);
    DropSeparatorsConcat(Upper(a) + " ", Upper(b));
    DropSeparatorsConcat(Upper(a), " ");
    DropSeparatorsConcat(Upper(a), Upper(b));
  }
}
