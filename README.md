# Car valuation and sell form, modelled in Dafny

This project models the two pieces of logic behind a Swedish "sell your car"
site.

The first is the valuation endpoint `POST /api/valuation`. In order, it:

- normalises and checks the posted registration plate;
- starts a provider actor, retrying once with a raw body when the provider asks
  for it;
- routes the provider's answers to the status codes 500, 400, 202, 502 and 200;
- reads the base price, deduction and final price from the first dataset item;
- derives a dealer offer, using an undercut percentage drawn deterministically
  from the plate.

The second is the client form. It covers:

- the plate, year, mileage, e-mail and phone checks;
- the per-step validation and `canNext`;
- the Next and Back buttons;
- the plate preview;
- the registration, year and mileage input sanitisers;
- the client's reading of a valuation answer.

Modules, one per concern:

- `Js` (js.dfy): JSON values as `JSON.parse` returns them, plus the JavaScript
  built-ins the code relies on:
  - property access and `||`;
  - `String(v)` (except the throw listed under "Left out"), `trim` and `\s`;
  - UTF-16 code units.
- `Coerce` (coerce.dfy): `asNum` and `pickNum`; the method `PickNum` is the
  loop with its early return.
- `DeepFind` (deep_find.dfy): the fallback search. The search is the function
  `Find`; the method `DeepFind` is the explicit-stack loop, proved equal to it.
  Soundness, completeness and "own entries first" are proved about `Find`.
- `Extract` (extract.dfy): `extractValuation`.
- `Offer` (offer.dfy):
  - `stableRand` on 32-bit bit-vectors (FNV-1a, `Math.imul`, JavaScript's
    truncating `%`);
  - `clampPct`, the undercut bounds and the dealer offer.
- `Plate` (plate.dfy):
  - `cleanPlate` and both spellings of the plate pattern;
  - the registration sanitiser and `plateForPreview`.
- `Handler` (handler.dfy):
  - `startActor`: the function `Start` and the method `StartActor`, which
    reassigns the reply;
  - the handler `Post`: its two checks, then `Run` for everything after them.
- `FormChecks` (form_checks.dfy):
  - the field checks, `validateCurrentStep` and `canNext`;
  - the year and mileage sanitisers;
  - `normalizeValuationPayload`.
- `Wizard` (sell_form.dfy): the page state as a class `SellForm` with the
  fields `step`, `form` and `errors`. Its methods are Next, Back and typing into
  a field.

The provider's answers are inputs. Each request the handler sends is answered
by one `Reply`. A reply carries `res.ok`, the status, the body text, and the
parsed body, or None when `JSON.parse` throws. A request whose `fetch` or
`res.text()` rejects is answered `Rejected`; the handler's `catch` then turns it
into a 500. The environment is a `Config`.

The handler prices with the draw `stableRand` computes as written, which can be
negative (see "## Findings"). `Handler.IntendedPriced` is the pricing with the
draw read unsigned, as the function's comment intends.

## Model

| member | source | states |
|---|---|---|
| Js.Lookup | app/api/valuation/route.ts:77-84 | a property read finds the entry with that key; undefined exactly when no entry has the key |
| Js.Or | app/api/valuation/route.ts:42 | `a \|\| b` is one of its operands; it is truthy exactly when one of them is; it is `a` when `a` is truthy and `b` otherwise |
| Js.Trim | app/page.tsx:392-393 | the trimmed text is no longer and neither starts nor ends with whitespace |
| Js.TrimIsSlice | app/page.tsx:392-393 | the trimmed text is a contiguous piece of the input, and everything cut off before and after it is whitespace |
| Js.DigitsOf | app/page.tsx:202 | `replace(/[^\d]/g, "")` keeps only digits and never lengthens; a text of digits is kept whole and a text without digits vanishes |
| Js.DigitsOfConcat | app/page.tsx:202 | the digits of a concatenation are those of each part, in order; with `DigitsOf`, every digit is kept and nothing else |
| Js.CodeUnits | app/api/valuation/route.ts:114-115 | a string has at least as many UTF-16 units as characters; inside the Basic Multilingual Plane exactly as many, each the character's own value |
| Js.Utf16 | app/api/valuation/route.ts:114-115 | a character below U+10000 is one unit of its own value; above, a high and a low surrogate that decode back to it |
| Js.CodeUnitsConcat | app/api/valuation/route.ts:114-115 | the units of a concatenation are those of each part, in order |
| Coerce.AsNum | app/api/valuation/route.ts:52-56 | null and undefined coerce to missing |
| Coerce.StripNumeric | app/api/valuation/route.ts:54 | only digits, `.` and `-` survive the strip |
| Coerce.AllDigitsNumber | app/api/valuation/route.ts:54 | `Number` of a digit string is the value its digits spell |
| Coerce.NoiseIgnored | app/api/valuation/route.ts:52-56 | a value without `.` or `-` coerces to the number its digits spell, whatever else surrounds them |
| Coerce.RenderRoundTrip | app/api/valuation/route.ts:52-56 | a count written in decimal, with non-numeric noise around it, coerces back to that count |
| Coerce.PriceWithNoise | app/api/valuation/route.ts:52-56 | `"120 000 kr"` coerces to 120000 |
| Coerce.EmptyRemainderIsZero | app/api/valuation/route.ts:54-55 | `"kr"` and `true` leave an empty remainder, which is 0, not missing |
| Coerce.NoDigitsIsZero | app/api/valuation/route.ts:52-56 | any value whose string form has no digit, `.` or `-` coerces to 0 |
| Coerce.MalformedIsMissing | app/api/valuation/route.ts:52-56 | `"1.2.3"`, `"-"`, `"1-2"`, null and undefined are missing |
| Coerce.SignedDecimal | app/api/valuation/route.ts:54 | `"-12.5"` keeps its sign and fraction |
| Coerce.FirstNum | app/api/valuation/route.ts:57 | missing exactly when no candidate coerces; otherwise the coercion of one of the candidates (which one is fixed by `FirstNumAt`) |
| Coerce.PickNum | app/api/valuation/route.ts:57 | the loop with early return computes `FirstNum` |
| Coerce.FirstNumAt | app/api/valuation/route.ts:57 | the first coercible candidate after a run of misses decides the pick |
| DeepFind.DeepFind | app/api/valuation/route.ts:58-69 | the explicit-stack loop returns what `Find` returns, and terminates by the total size of the stacked trees |
| DeepFind.FindSpec | app/api/valuation/route.ts:58-69 | missing exactly when no entry anywhere in the tree has a matching key and a coercible value; a found number is such an entry's value; a hit among the object's own entries wins over anything nested |
| DeepFind.SearchSound | app/api/valuation/route.ts:59-68 | whatever the search from a stack returns is the value of a matching entry in one of the stacked trees |
| DeepFind.SearchComplete | app/api/valuation/route.ts:59-68 | a search from a stack that finds nothing leaves no hit in any stacked tree |
| DeepFind.ScanFirst | app/api/valuation/route.ts:63-65 | when the popped object has a direct hit among its remaining entries, the scan returns the first of them, before anything pushed is searched |
| DeepFind.WholeWordKey | app/api/valuation/route.ts:85 | a key made of word characters matches `\b(...)\b/i` exactly when its lower case is one of the words |
| Extract.CamelCaseMisses | app/api/valuation/route.ts:85 | `basePrice` and `market_price` never match the base pattern |
| Extract.CaseIgnored | app/api/valuation/route.ts:104 | `Market` and `privateAmount` match, ignoring case |
| Extract.SpacedWordMatches | app/api/valuation/route.ts:104 | a key with a pattern word set off by a space matches |
| Extract.PickOrFind | app/api/valuation/route.ts:75-104 | the first coercible candidate field wins; only when every candidate misses is the item searched; missing exactly when all candidates miss and no key in the item matches; a number found by the search belongs to a matching entry |
| Extract.FirstItem | app/api/valuation/route.ts:72 | a non-empty array gives its first element; a non-array or empty dataset is read as `{}` |
| Extract.DeriveFinal | app/api/valuation/route.ts:106 | the final price changes exactly when it was missing and base and deduction are both there, and then becomes base minus deduction; it stays missing exactly when one of those is missing too |
| Extract.ExtractValuation | app/api/valuation/route.ts:71-109 | extraction fails (the property read throws) exactly when the first item is null |
| Extract.FinalMissing | app/api/valuation/route.ts:93-106 | the final price is missing exactly when no final candidate coerces, no key matches the final pattern, and base or deduction is missing |
| Extract.EmptyDataset | app/api/valuation/route.ts:72-108 | a non-array or empty dataset yields three missing prices |
| Extract.DerivedFinal | app/api/valuation/route.ts:71-109 | `[{base: 100000, deduction: 15000}]` gives base 100000, deduction 15000 and final price 85000 |
| Offer.TruncRem | app/api/valuation/route.ts:118 | JavaScript `%`: the remainder has the dividend's sign and is smaller than the divisor |
| Offer.TruncDivision | app/api/valuation/route.ts:118 | the remainder is the dividend less the divisor times the quotient truncated toward zero |
| Offer.HashValue | app/api/valuation/route.ts:113-117 | the number `h` holds: the unsigned offset basis 2166136261 for the empty seed, otherwise the signed 32-bit reading of the FNV-1a bits |
| Offer.HashIsSigned | app/api/valuation/route.ts:113-117 | after one round `h` lies in [-2^31, 2^31) and differs from the unsigned hash bits by 0 or 2^32 |
| Offer.StableRandOf | app/api/valuation/route.ts:112-119 | as written, the draw lies strictly between -1 and 1 |
| Offer.StableRand | app/api/valuation/route.ts:112-119 | the loop over the code units computes `StableRandOf`, a function of the seed alone |
| Offer.NumeratorBound | app/api/valuation/route.ts:118 | `h % 10000` is below 10000 in absolute value for every seed, and 6261 for the empty seed |
| Offer.StableRandEmpty | app/api/valuation/route.ts:112-119 | the empty seed draws 0.6261 |
| Offer.NegativeDraw | app/api/valuation/route.ts:112-119 | the plate `AAA111` draws -0.3621 |
| Offer.StableRandUnsigned | app/api/valuation/route.ts:111-119 | read unsigned, as the "0..1" comment intends, the draw lies in [0, 1) |
| Offer.ReadingsAgree | app/api/valuation/route.ts:113-118 | both readings agree for the empty seed and whenever the hash has no sign bit |
| Offer.ClampPct | app/api/valuation/route.ts:121-123 | the result lies in [0, 0.95]; a non-finite input gives 0; a value inside stays; values below or above go to the nearer end |
| Offer.Bounds | app/api/valuation/route.ts:191-192 | `lo <= hi` within [0, 0.95], and `{lo, hi}` are the two clamped settings |
| Offer.BoundsSymmetric | app/api/valuation/route.ts:191-192 | swapping the two settings gives the same `lo` and `hi` |
| Offer.Pct | app/api/valuation/route.ts:195 | a draw in [0, 1] keeps the undercut between `lo` and `hi`; a negative draw puts it below `lo` whenever `lo < hi`; a draw in [-1, 1] keeps it at most `hi` and at most the width of the bounds below `lo` |
| Offer.PctBelowMin | app/api/valuation/route.ts:191-195 | with the default bounds 0.30 and 0.40, the as-written draw for `AAA111` gives an undercut of 0.26379 |
| Offer.Round | app/api/valuation/route.ts:200 | `Math.round` gives the integer within half of its argument, halves rounded up |
| Offer.DealerOffer | app/api/valuation/route.ts:198-201 | null exactly when the final price is missing; otherwise a non-negative multiple of 500, within 250 of `final * (1 - pct)` when that is not negative, and 0 when it is negative |
| Offer.OfferAboveFinal | app/api/valuation/route.ts:198-201 | a final price of 400 with a 30% undercut gives an offer of 500, above the final price |
| Plate.Upper | app/page.tsx:198 | the length is kept; exactly the lower-case plate letters change; a character is a plate letter afterwards exactly when it was one in either case; nothing is left to upper-case |
| Plate.DropSeparators | app/page.tsx:198 | no whitespace and no hyphen is left, the text never grows, and a text of separators only vanishes |
| Plate.NothingToDrop | app/page.tsx:198 | a text without whitespace or hyphens is kept whole |
| Plate.DropSeparatorsConcat | app/page.tsx:198 | dropping separators from a concatenation drops them from each part, in order; with `NothingToDrop`, every other character is kept |
| Plate.CleanKeepsPlate | app/api/valuation/route.ts:134-137 | a text already in plate shape is its own normalisation |
| Plate.CleanIsUpper | app/page.tsx:198 | every character of a cleaned plate is already upper case |
| Plate.CleanIdempotent | app/page.tsx:198 | cleaning twice is cleaning once |
| Plate.ClientAgreesWithServer | app/page.tsx:196-199 | the form's case-insensitive check with its look-ahead accepts exactly the texts the endpoint's pattern accepts after the same normalisation |
| Plate.PlateExampleSpaced | app/api/valuation/route.ts:134-137 | `abc 123` is normalised to `ABC123`, which has the plate shape |
| Plate.PlateExampleShortPrefix | app/api/valuation/route.ts:134-137 | `AB1234` is refused |
| Plate.Sanitize | app/page.tsx:659-666 | the registration field holds the first six (or all, when fewer) of the typed characters that are plate letters or digits, upper-cased |
| Plate.KeepRegChars | app/page.tsx:664 | only plate letters (either case) and digits remain; a text of them is kept whole, and a text without them vanishes |
| Plate.KeepRegCharsConcat | app/page.tsx:664 | filtering a concatenation filters each part, in order; with `KeepRegChars`, every plate letter and digit is kept |
| Plate.SanitizeStable | app/page.tsx:659-666 | what the field holds is already clean, and sanitising it again changes nothing |
| Plate.SanitizeKeepsValidPlate | app/page.tsx:659-666 | typing a valid plate with spaces, hyphens or lower case stores exactly its cleaned form |
| Plate.PreviewOfNonPlate | app/page.tsx:550-556 | a cleaned text that is not a plate is previewed as the cleaned text |
| Plate.PreviewOfOtherLength | app/page.tsx:552 | a cleaned text whose length is not six is previewed as the cleaned text |
| Plate.PreviewOfPlate | app/page.tsx:553-554 | a plate is previewed as its first three characters, a space, and its last three |
| Plate.PreviewCleansBack | app/page.tsx:550-556 | cleaning the preview gives back the cleaned input |
| Handler.StartActor | app/api/valuation/route.ts:32-49 | a second start request is sent exactly when the first was answered, refused, and its error message names `input.`; the reply kept is then the retry's, else the first |
| Handler.NoRetryAfterSuccess | app/api/valuation/route.ts:43 | a successful first start is never retried |
| Handler.RetryOnInputError | app/api/valuation/route.ts:42-47 | an error message naming `Input.` in any case, after any prefix, triggers the retry |
| Handler.NoRetryWithoutInputMessage | app/api/valuation/route.ts:42-43 | a refused first start whose error message does not name `input.` is not retried |
| Handler.Slice400 | app/api/valuation/route.ts:162 | the first `min(400, length)` code units of the text, in order |
| Handler.PricedAt | app/api/valuation/route.ts:190-214 | a 200 answer carrying the extracted base price, deduction and final price, the run id and the raw item; its bounds are the ordered clamped settings, its undercut is `lo + (hi - lo) * t`, and its dealer offer is computed from that undercut and the final price |
| Handler.Priced | app/api/valuation/route.ts:188-214 | an extracted valuation is always answered with 200, with the ordered clamped bounds and the undercut drawn by the signed `stableRand` seeded with `String(plate \|\| runId \|\| "")` |
| Handler.IntendedPriced | app/api/valuation/route.ts:111-119 | with the draw read unsigned, the undercut lies between `offerMin` and `offerMax` |
| Handler.Post | app/api/valuation/route.ts:127-218 | at most three requests reach the provider |
| Handler.Run | app/api/valuation/route.ts:142-214 | after the checks the answer is never the token or plate error, and one to three requests are sent |
| Handler.MissingTokenFirst | app/api/valuation/route.ts:129-131 | without a token the answer is 500 before anything else, with no request sent |
| Handler.PlateGate | app/api/valuation/route.ts:133-139 | with a token the answer is 400 exactly when the normalised plate lacks the plate shape, and then no request is sent |
| Handler.FailedStart | app/api/valuation/route.ts:156-165 | a refused start is 202 pending with the run's id and status exactly when the run is RUNNING or READY, and otherwise 502 with the first 400 units of the reply; no request follows the start requests |
| Handler.UnfinishedRun | app/api/valuation/route.ts:167-170 | a started run that has not SUCCEEDED is 202 pending with the run's id and status |
| Handler.FailedDataset | app/api/valuation/route.ts:181-186 | a failed dataset request is 502 with its status code and at most 400 units of its body |
| Handler.RejectedRequest | app/api/valuation/route.ts:215-217 | a start or dataset request that rejects ends in the catch: 500 |
| Handler.RunSucceeds | app/api/valuation/route.ts:152-214 | after the checks the answer is 200 exactly when the run started and SUCCEEDED, the dataset came back, and its first item is not null |
| Handler.OnlySuccessIs200 | app/api/valuation/route.ts:127-218 | the answer is 200 exactly on the full success path: token, plate, started run that SUCCEEDED, dataset, non-null first item |
| Handler.ValuationStatus | app/api/valuation/route.ts:188-217 | a valuation is answered 200 when extracted and 500 when extraction threw |
| Handler.ValuedResponse | app/api/valuation/route.ts:190-214 | in a 200 answer the bounds are the ordered clamped settings within [0, 0.95], the dealer offer is there exactly when the final price is, and the undercut is the as-written draw seeded with the plate: at most `offerMax`, but possibly up to the width of the bounds below `offerMin` |
| Handler.ValuedFromDataset | app/api/valuation/route.ts:176-213 | after a run that SUCCEEDED and a dataset that came back, the 200 answer carries the valuation extracted from the dataset's first item, the dealer offer computed from its final price, the run id, and that item as `rawItem` |
| Handler.UndercutBelowMin | app/api/valuation/route.ts:191-195 | posting `AAA111` with the default bounds gets a 200 answer with `offerPct` 0.26379, below its own `offerMin` 0.30 |
| FormChecks.OnlyDigitsCount | app/page.tsx:201-214 | the year, mileage and phone checks see only the digits of the field |
| FormChecks.NoDigitsRejected | app/page.tsx:201-214 | a field without digits, the empty field included, is never a valid year, mileage or phone number |
| FormChecks.MobilePhone | app/page.tsx:209-214 | `0701234567` and its international form `46701234567` are valid phone numbers |
| FormChecks.ShortPhone | app/page.tsx:209-214 | five digits are too few |
| FormChecks.EmailMatchIsShape | app/page.tsx:206-207 | the pattern matches exactly when there is no whitespace, exactly one `@` with something before it, and after it a `.` with at least one character before and two UTF-16 code units after |
| FormChecks.LongTopLevelInCodeUnits | app/page.tsx:207 | the top-level part is long enough exactly when it has at least two UTF-16 code units |
| FormChecks.EmptyEmail | app/page.tsx:206-207 | the empty address is accepted |
| FormChecks.EmailAccepted | app/page.tsx:206-207 | `a@b.se` is accepted |
| FormChecks.TwoAts | app/page.tsx:206-207 | an address with two `@`s is refused |
| FormChecks.ShortTopLevel | app/page.tsx:206-207 | a one-letter top-level domain is refused |
| FormChecks.AstralTopLevel | app/page.tsx:206-207 | a top-level domain of one character outside the Basic Multilingual Plane is two code units, and accepted |
| FormChecks.Failing | app/page.tsx:388-402 | the fields kept are exactly the listed ones whose check fails, each once |
| FormChecks.StepFields | app/page.tsx:388-400 | a step checks exactly the fields that belong to it |
| FormChecks.ValidateStep | app/page.tsx:388-402 | a field is reported exactly when it belongs to the step and its check fails, each at most once; the middle step reports nothing |
| FormChecks.ValidateMatchesCanNext | app/page.tsx:388-426 | for each of the three steps, validation finds nothing exactly when `canNext` holds |
| FormChecks.YearInput | app/page.tsx:698-701 | the year field holds the first four digits typed (all of them when there are at most four); typed digits alone are kept as they are |
| FormChecks.MileageInput | app/page.tsx:714-717 | the mileage field holds every digit typed, in order, and nothing else; typed digits alone are kept as they are |
| FormChecks.InputsStable | app/page.tsx:698-717 | sanitising the year or mileage again changes nothing, and the mileage check is not affected by the sanitiser |
| FormChecks.NormalizeValuationPayload | app/page.tsx:249-259 | base and deduction are the first coercible of their three fields in the source; the final price follows `Extract.DeriveFinal`'s rule |
| FormChecks.PayloadFinal | app/page.tsx:253-257 | the final price is the one found when there is one, else base minus deduction when both are there, else missing |
| FormChecks.WrittenRoundTrip | app/page.tsx:236-238 | a price as the endpoint writes it (`null`, or a number with any sign and fraction) is read back by the client's `asNum` as the value it stands for, `null` as missing |
| FormChecks.AnswerRoundTrip | app/page.tsx:249-259 | the endpoint's `{basePrice, deduction, finalPrice}`, each `null` or a number of any sign and fraction, reads back as those values with the client's derivation of a missing final price; and exactly as sent whenever the final price is present or cannot be derived, as in every answer the endpoint builds |
| FormChecks.ResultUnwrapped | app/page.tsx:250 | `{result: x}` reads like `x`, when `x` has no `result` of its own |
| FormChecks.NothingToNormalize | app/page.tsx:250-259 | undefined or null gives three missing prices |
| Wizard.Without | app/page.tsx:340-345 | the copied errors lose exactly the edited field's key, are unchanged when it had none, and keep each key once |
| Wizard.WithField | app/page.tsx:339 | the edited field holds the typed text and every other field is as it was |
| Wizard.SellForm.constructor | app/page.tsx:173-190 | the page opens on the first step with an empty form and no errors |
| Wizard.SellForm.Next | app/page.tsx:429-440 | with errors on the current step they become the errors and the step stays; otherwise the errors are cleared and the step moves on, capped at 2; the step only ever moves by one, only when `canNext` held, and always when `canNext` held below the last step; the fields never change |
| Wizard.SellForm.Prev | app/page.tsx:442 | one step back, floored at 0; fields and errors unchanged; the step stays in 0..2 |
| Wizard.SellForm.Edit | app/page.tsx:330-346 | the field takes the typed text, its error is removed and no other error is touched |
| Wizard.SellForm.EditReg | app/page.tsx:659-666 | the registration field takes the sanitised text; the errors are not cleared |
| Wizard.SellForm.EditYear | app/page.tsx:698-701 | the year field takes its first four digits; the errors are not cleared |
| Wizard.SellForm.EditMileage | app/page.tsx:714-717 | the mileage field takes its digits; the errors are not cleared |
| Wizard.Walk | app/page.tsx:415-440 | after filling in the first step, pressing Next twice reaches the last step exactly when `canNext` holds for the first step |

## Left out

- Network I/O:
  - the start request, its retry and the dataset request are inputs (`Reply`), and no URL is built;
  - the leads route, `postLead`, `fetchValuationByPlate` and the sequencing in `onSubmit` are not part of this model.
- `JSON.parse` and `req.json()` are inputs: the parsed value, or None when parsing throws.
- `encodeURIComponent(runId)` in the dataset URL can throw on an unpaired surrogate; that path is not modelled.
- The environment is a `Config` (token and the two undercut settings as `Number(...)`, None when not finite); the build, memory, timeout and proxy settings only shape URLs and are left out.
- IEEE-754 doubles:
  - prices and percentages are exact reals;
  - `Number()` of very long digit strings does not overflow to Infinity here;
  - `String(n)` of a number is carried as its rendering, with no exponent form.
- `toUpperCase` is modelled for a-z and å, ä, ö only; other characters are left as they are.
- Error message texts, `errorSummary` and `focusFirstError` (DOM focus) are left out; the errors object is modelled by its keys in insertion order.
- Fields with no checks (fuel, gearbox, owners, condition, description, the three checkboxes), photos and object URLs, the progress ring, the overlay timer and the number formatting helpers are left out.
- Js.ToStr: `String(v)` (and a regular expression's `test`, which converts its argument the same way) throws a TypeError for an object that has its own `toString` entry, such as `{"toString": 1}`, and for an array holding one; in the endpoint the `catch` then answers 500. The model renders every object as "[object Object]", so a plate, a price or a start error message of that form is read as that text (a 400 for such a plate, a price of 0, no retry) rather than answered with 500.
- Js.Lookup: a parsed object is its list of entries, and a property read finds the first entry with the key; `JSON.parse` keeps the last of repeated keys, so an object with a repeated key is read from the other entry here.
- Handler.RawItem: `items?.[0]` of a string dataset would be its first character; the model answers null for every dataset that is neither an array nor an object.
- Offer.Signed: no range is stated for it; only the draw built on it has a stated range.
- DeepFind.FirstDirect: carries no contract of its own; the property that own entries win is stated on `Find` by `DeepFind.FindSpec`.
- Handler.ValuationStatus: stated for any extraction result; the link to a null first item is made by `Extract.ExtractValuation` and used in `Handler.RunSucceeds`.

## Findings

| source | as written | input that shows it | evidently intended | confidence | as-written member | corrected member |
|---|---|---|---|---|---|---|
| app/api/valuation/route.ts:112-119 | `h ^=` and `Math.imul` leave `h` a signed 32-bit integer, and `%` keeps the sign, so the draw can be negative (`Offer.NegativeDraw`) | posting the plate `AAA111` draws -0.3621; with the default bounds 0.30 and 0.40 the answer's `offerPct` is 0.26379, below its `offerMin` | a draw in [0, 1), as the comment "0..1" says, so that `offerMin <= offerPct <= offerMax` (the hash read unsigned, `h >>> 0`) | not executed | Handler.UndercutBelowMin | Handler.IntendedPriced |
