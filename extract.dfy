/** `extractValuation`: the three prices read from the first dataset item, each
    from a prioritised list of fields with a tree search as fallback, and a final
    price derived from the other two when none was found. */
module Extract {
  import opened Js
  import opened Coerce
  import opened DeepFind

  /** The words of the fallback key patterns, in lower case. */
  const BaseWords: seq<string> := ["base", "market", "list", "valuation"]
  const DeductionWords: seq<string> := ["deduction", "minus", "avdrag", "delta"]
  const FinalWords: seq<string> :=
    ["privateamount", "final", "price", "offer", "bud", "slut", "prelim", "amount"]

  /** `keyRe.test` for `/\b(w1|...)\b/i`. */
  function Pattern(words: seq<string>): string -> bool
  {
    k => KeyMatches(k, words)
  }

  /** `it.f` and `it?.valuation?.f`. */
  function Field(it: Json, f: string): Option<Json>
  {
    Get(Some(it), f)
  }

  function Nested(it: Json, f: string): Option<Json>
  {
    Get(Get(Some(it), "valuation"), f)
  }

  function BaseCandidates(it: Json): seq<Option<Json>>
  {
    [Field(it, "basePrice"), Field(it, "base"), Field(it, "market"), Field(it, "marketPrice"),
     Nested(it, "base"), Nested(it, "market"), Field(it, "listPrice"), Field(it, "valuationAmount")]
  }

  function DeductionCandidates(it: Json): seq<Option<Json>>
  {
    [Field(it, "deduction"), Field(it, "minus"), Field(it, "delta"), Nested(it, "deduction")]
  }

  function FinalCandidates(it: Json): seq<Option<Json>>
  {
    [Field(it, "finalPrice"), Field(it, "final"), Field(it, "offer"), Field(it, "price"),
     Field(it, "privateAmount"), Field(it, "finalAmount"), Field(it, "amount"),
     Nested(it, "final"), Nested(it, "price")]
  }

  /** `pickNum(...candidates) ?? deepFind(it, pattern)`: the first candidate that
      coerces; failing all, some matching key anywhere in the item; missing only
      when neither exists. */
  function PickOrFind(it: Json, candidates: seq<Option<Json>>, words: seq<string>): (r: Option<real>)
    ensures FirstNum(candidates).Some? ==> r == FirstNum(candidates)
    ensures FirstNum(candidates).None? ==> r == Find(it, Pattern(words))
    ensures r.None? <==>
      (forall i :: 0 <= i < |candidates| ==> AsNum(candidates[i]).None?) && !AnyHit(it, Pattern(words))
    ensures FirstNum(candidates).None? && r.Some? ==> HitIn(it, r.value, Pattern(words))
  {
    FindSpec(it, Pattern(words));
    match FirstNum(candidates)
    case Some(n) => Some(n)
    case None => Find(it, Pattern(words))
  }

  datatype Valuation = Valuation(basePrice: Option<real>, deduction: Option<real>, finalPrice: Option<real>)

  /** Reading a property of a null first item throws a TypeError. */
  datatype Extracted = NullItem | Extracted(valuation: Valuation)

  /** `Array.isArray(items) && items.length ? items[0] : {}` */
  function FirstItem(items: Json): (it: Json)
    ensures !items.JArr? || items.elems == [] ==> it == JObj([])
    ensures items.JArr? && items.elems != [] ==> it == items.elems[0]
  {
    if items.JArr? && |items.elems| > 0 then items.elems[0] else JObj([])
  }

  /** `if (final == null && base != null && deduction != null) final = base - deduction` */
  function DeriveFinal(base: Option<real>, deduction: Option<real>, final: Option<real>): (r: Option<real>)
    ensures r != final <==> final.None? && base.Some? && deduction.Some?
    ensures r != final ==> r == Some(base.value - deduction.value)
    ensures r.None? <==> final.None? && (base.None? || deduction.None?)
  {
    if final.None? && base.Some? && deduction.Some? then Some(base.value - deduction.value) else final
  }

  /** The valuation read from a non-null item: base and deduction are the first
      coercible candidate, else what the search finds; a final price found
      either way is kept, and otherwise derived. */
  function ItemValuation(it: Json): Valuation
  {
    var base := PickOrFind(it, BaseCandidates(it), BaseWords);
    var deduction := PickOrFind(it, DeductionCandidates(it), DeductionWords);
    var final := PickOrFind(it, FinalCandidates(it), FinalWords);
    Valuation(base, deduction, DeriveFinal(base, deduction, final))
  }

  /** `extractValuation(items)`: the valuation of the first item, or a failure
      when that item is null. */
  function ExtractValuation(items: Json): (r: Extracted)
    ensures r.NullItem? <==> FirstItem(items) == JNull
  {
    var it := FirstItem(items);
    if it.JNull? then NullItem else Extracted(ItemValuation(it))
  }

  /** A final price is missing exactly when no candidate coerces, no key in the
      item matches the final pattern, and base or deduction is missing too. */
  lemma FinalMissing(items: Json)
    requires ExtractValuation(items).Extracted?
    ensures var it, v := FirstItem(items), ExtractValuation(items).valuation;
      v.finalPrice.None? <==>
        && (forall i :: 0 <= i < |FinalCandidates(it)| ==> AsNum(FinalCandidates(it)[i]).None?)
        && !AnyHit(it, Pattern(FinalWords))
        && (v.basePrice.None? || v.deduction.None?)
  {
    var it := FirstItem(items);
    var found := PickOrFind(it, FinalCandidates(it), FinalWords);
    assert found.None? <==>
      (forall i :: 0 <= i < |FinalCandidates(it)| ==> AsNum(FinalCandidates(it)[i]).None?)
      && !AnyHit(it, Pattern(FinalWords));
  }

  /** Non-array or empty datasets are read as an empty item: nothing is found. */
  lemma EmptyDataset(items: Json)
    requires !items.JArr? || items.elems == []
    ensures ExtractValuation(items) == Extracted(Valuation(None, None, None))
  {
    var it := FirstItem(items);
    assert it == JObj([]);
    EmptyPick(BaseCandidates(it), BaseWords);
    EmptyPick(DeductionCandidates(it), DeductionWords);
    EmptyPick(FinalCandidates(it), FinalWords);
    var r := ExtractValuation(items);
    assert r.Extracted?;
  }

  /** Nothing to pick and nothing to find in an empty item. */
  lemma EmptyPick(candidates: seq<Option<Json>>, words: seq<string>)
    requires forall i :: 0 <= i < |candidates| ==> Nullish(candidates[i])
    ensures PickOrFind(JObj([]), candidates, words).None?
  {
    EmptyFind(words);
    assert forall i :: 0 <= i < |candidates| ==> AsNum(candidates[i]).None?;
  }

  lemma EmptyFind(words: seq<string>)
    ensures Find(JObj([]), Pattern(words)).None?
  {
    FindSpec(JObj([]), Pattern(words));
  }

  /* ---------- the key patterns ---------- */

  /** camelCase and snake_case keys are single words to `\b`: they never match a
      pattern word unless they are one. */
  lemma CamelCaseMisses()
    ensures !KeyMatches("basePrice", BaseWords)
    ensures !KeyMatches("market_price", BaseWords)
  {
    WholeWordKey("basePrice", BaseWords);
    assert Lower("basePrice")[4] == 'p';
    WholeWordKey("market_price", BaseWords);
    assert |Lower("market_price")| == 12;
  }

  /** Case is ignored. */
  lemma CaseIgnored()
    ensures KeyMatches("Market", BaseWords)
    ensures KeyMatches("privateAmount", FinalWords)
  {
    assert WordAt("Market", BaseWords[1], 0);
    assert WordAt("privateAmount", FinalWords[0], 0);
  }

  /** A word set off by a space matches. */
  lemma SpacedWordMatches()
    ensures KeyMatches("Private amount", FinalWords)
  {
    assert WordAt("Private amount", FinalWords[7], 8);
  }

  /* ---------- a worked item ---------- */

  /** The item `{"base": b, "deduction": d}`. */
  function BaseAndDeduction(b: string, d: string): Json
  {
    JObj([Prop("base", JNum(b)), Prop("deduction", JNum(d))])
  }

  lemma ExampleBase(it: Json, b: string, d: string)
    requires it == BaseAndDeduction(b, d)
    requires AllDigits(b)
    ensures PickOrFind(it, BaseCandidates(it), BaseWords) == Some(DigitsValue(b) as real)
  {
    CoerceDigits(b, DigitsValue(b));
    var xs := BaseCandidates(it);
    assert xs[0] == Field(it, "basePrice") == None by {
      assert it.props[0].key != "basePrice" && it.props[1].key != "basePrice";
    }
    assert xs[1] == Field(it, "base") == Some(JNum(b));
    FirstNumAt(xs, 1);
  }

  lemma ExampleDeduction(it: Json, b: string, d: string)
    requires it == BaseAndDeduction(b, d)
    requires AllDigits(d)
    ensures PickOrFind(it, DeductionCandidates(it), DeductionWords) == Some(DigitsValue(d) as real)
  {
    CoerceDigits(d, DigitsValue(d));
    assert it.props[1..] == [Prop("deduction", JNum(d))];
    assert Js.Lookup(it.props[1..], "deduction") == Some(JNum(d));
    assert it.props[0].key != "deduction";
    assert Field(it, "deduction") == Some(JNum(d));
    FirstNumAt(DeductionCandidates(it), 0);
  }

  lemma ExampleFinal(it: Json, b: string, d: string)
    requires it == BaseAndDeduction(b, d)
    ensures PickOrFind(it, FinalCandidates(it), FinalWords).None?
  {
    assert Nested(it, "final").None? && Nested(it, "price").None?;
    forall i | 0 <= i < |FinalCandidates(it)| ensures FinalCandidates(it)[i].None? {
    }
    NoFinalKey(it, b, d);
  }

  lemma NoFinalKey(it: Json, b: string, d: string)
    requires it == BaseAndDeduction(b, d)
    ensures !AnyHit(it, Pattern(FinalWords))
  {
    NotFinalWord("base");
    NotFinalWord("deduction");
    assert EntryMiss(it, 0, Pattern(FinalWords));
    assert EntryMiss(it, 1, Pattern(FinalWords));
    NoEntryHit(it, Pattern(FinalWords));
  }

  lemma NotFinalWord(k: string)
    requires k == "base" || k == "deduction"
    ensures !KeyMatches(k, FinalWords)
  {
    WholeWordKey(k, FinalWords);
    assert Lower(k) == k;
  }

  /** `{"base": 100000, "deduction": 15000}` gives a final price of 85000. */
  lemma DerivedFinal()
    ensures ExtractValuation(JArr([BaseAndDeduction("100000", "15000")]))
         == Extracted(Valuation(Some(100000.0), Some(15000.0), Some(85000.0)))
  {
    Value100000("100000");
    Value15000("15000");
    var it := BaseAndDeduction("100000", "15000");
    ExampleBase(it, "100000", "15000");
    ExampleDeduction(it, "100000", "15000");
    ExampleFinal(it, "100000", "15000");
    assert FirstItem(JArr([it])) == it;
    assert DeriveFinal(Some(100000.0), Some(15000.0), None) == Some(85000.0);
  }

  lemma Value100000(t: string)
    requires t == "100000"
    ensures AllDigits(t) && DigitsValue(t) == 100000
  {
    assert DigitsValue("10") == 10 by { assert "10"[..1] == "1"; }
    assert DigitsValue("100") == 100 by { assert "100"[..2] == "10"; }
    assert DigitsValue("1000") == 1000 by { assert "1000"[..3] == "100"; }
    assert DigitsValue("10000") == 10000 by { assert "10000"[..4] == "1000"; }
    assert t[..5] == "10000";
  }

  lemma Value15000(t: string)
    requires t == "15000"
    ensures AllDigits(t) && DigitsValue(t) == 15000
  {
    assert DigitsValue("15") == 15 by { assert "15"[..1] == "1"; }
    assert DigitsValue("150") == 150 by { assert "150"[..2] == "15"; }
    assert DigitsValue("1500") == 1500 by { assert "1500"[..3] == "150"; }
    assert t[..4] == "1500";
  }

  /** A JSON number written with digits only coerces to its value. */
  lemma CoerceDigits(t: string, n: nat)
    requires AllDigits(t) && DigitsValue(t) == n
    ensures AsNum(Some(JNum(t))) == Some(n as real)
  {
    StripDigits(t);
    AllDigitsNumber(t);
  }
}
