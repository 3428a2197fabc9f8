/** `POST /api/valuation`: the plate check, the actor start with its one retry,
    the routing of the provider's answers to status codes, and the valuation
    response. The provider's answers are inputs: each request the handler makes
    is answered by one `Reply`. */
module Handler {
  import opened Js
  import opened Plate
  import opened Extract
  import opened Offer
  import DeepFind

  /** One answer of the provider: `res.ok`, `res.status`, the body text, and the
      body parsed as JSON, None when `JSON.parse` throws; or `Rejected` when the
      `fetch` or the `res.text()` after it rejects, which throws out of the
      handler into its `catch`. */
  datatype Reply =
    | Reply(ok: bool, status: int, text: string, parsed: Option<Json>)
    | Rejected

  /** `json` after `let json = null; try { json = JSON.parse(text) } catch {}` */
  function JsonOf(r: Reply): Json
  {
    if r.Reply? && r.parsed.Some? then r.parsed.value else JNull
  }

  /* ---------- startActor ---------- */

  /** `s` contains `input.`, ignoring ASCII case (`/input\./i`). */
  predicate MentionsInput(s: string)
  {
    exists i :: 0 <= i <= |s| && InputAt(s, i)
  }

  predicate InputAt(s: string, i: nat)
  {
    i + 6 <= |s| && DeepFind.Lower(s[i..i + 6]) == "input."
  }

  /** `/input\./i.test(json?.error?.message || '')`: the actor's error message asks
      for the input fields at the top level. */
  predicate NeedsRaw(json: Json)
  {
    var m := Or(Get(Get(Some(json), "error"), "message"), Some(JStr("")));
    MentionsInput(ToStr(m.value))
  }

  /** The first start request was answered, refused, and its error message
      names `input.`: the actor wants its input as the raw body. */
  predicate WantsRaw(first: Reply)
  {
    first.Reply? && !first.ok && NeedsRaw(JsonOf(first))
  }

  /** The reply `startActor` settles on and the number of start requests sent. */
  function Start(first: Reply, retry: Reply): (Reply, nat)
  {
    if WantsRaw(first) then (retry, 2) else (first, 1)
  }

  /** `startActor`, reassigning `res`, `text` and `json` on the retry: the retry is
      sent exactly when the first start was refused with an error naming
      `input.`, and its reply then replaces the first. */
  method StartActor(first: Reply, retry: Reply) returns (run: Reply, requests: nat)
    ensures requests == 2 <==> WantsRaw(first)
    ensures requests == 1 <==> !WantsRaw(first)
    ensures run == if requests == 2 then retry else first
    ensures (run, requests) == Start(first, retry)
  {
    var res := first;
    requests := 1;
    if res.Reply? {
      var needsRaw := NeedsRaw(JsonOf(res));
      if !res.ok && needsRaw {
        res := retry;
        requests := 2;
      }
    }
    run := res;
  }

  /** A successful first start is never retried, whatever its body says. */
  lemma NoRetryAfterSuccess(first: Reply, retry: Reply)
    requires first.Reply? && first.ok
    ensures Start(first, retry) == (first, 1)
  {
  }

  /** A refused first start whose error message does not name `input.` (or that
      has no message at all) is not retried either. */
  lemma NoRetryWithoutInputMessage(first: Reply, retry: Reply, message: string)
    requires first.Reply? && !first.ok
    requires JsonOf(first) == JObj([Prop("error", JObj([Prop("message", JStr(message))]))])
    requires !MentionsInput(message)
    ensures Start(first, retry) == (first, 1)
  {
    var error := JObj([Prop("message", JStr(message))]);
    assert Get(Some(JsonOf(first)), "error") == Some(error);
    assert Get(Some(error), "message") == Some(JStr(message));
    if message == "" {
      assert !MentionsInput("");
    }
  }

  /** An error message naming an input field, in any case, triggers the retry. */
  lemma RetryOnInputError(first: Reply, retry: Reply, prefix: string)
    requires first.Reply? && !first.ok
    requires JsonOf(first) == JObj([Prop("error", JObj([Prop("message", JStr(prefix + "Input.plate is required"))]))])
    ensures Start(first, retry) == (retry, 2)
  {
    var s := prefix + "Input.plate is required";
    var error := JObj([Prop("message", JStr(s))]);
    assert Get(Some(JsonOf(first)), "error") == Some(error);
    assert Get(Some(error), "message") == Some(JStr(s));
    assert s[|prefix|..|prefix| + 6] == "Input.";
    assert DeepFind.Lower(s[|prefix|..|prefix| + 6]) == "input.";
    assert InputAt(s, |prefix|);
    assert NeedsRaw(JsonOf(first));
  }

  /* ---------- the handler ---------- */

  /** The configuration the handler reads from the environment. The undercut
      bounds are `Number(...)` of the settings, None when that is NaN or
      infinite. */
  datatype Config = Config(token: string, undercutMin: Option<real>, undercutMax: Option<real>)

  /** The default undercut bounds, 0.30 and 0.40. */
  function DefaultConfig(token: string): Config
  {
    Config(token, Some(0.30), Some(0.40))
  }

  /** What the provider answers: the start request, its raw-body retry, and the
      dataset request. */
  datatype Provider = Provider(start: Reply, retry: Reply, dataset: Reply)

  datatype Response =
    | MissingToken
    | BadPlate
    | Pending(runId: Option<Json>, status: Json)
    | StartFailed(details: seq<CodeUnit>)
    | DatasetFailed(statusCode: int, body: seq<CodeUnit>)
    | Valued(runId: Option<Json>, basePrice: Option<real>, deduction: Option<real>,
             finalPrice: Option<real>, dealerOffer: Option<int>, offerPct: real,
             offerMin: real, offerMax: real, rawItem: Json)
    | Crashed

  function StatusCode(r: Response): int
  {
    match r
    case MissingToken => 500
    case BadPlate => 400
    case Pending(_, _) => 202
    case StartFailed(_) => 502
    case DatasetFailed(_, _) => 502
    case Valued(_, _, _, _, _, _, _, _, _) => 200
    case Crashed => 500
  }

  /** `String(body?.plate || '').toUpperCase().replace(/[\s-]/g, '')`; a body
      that is not JSON reads as `{}`. */
  function BodyPlate(body: Option<Json>): string
  {
    var b := if body.Some? then body.value else JObj([]);
    var v := Or(Get(Some(b), "plate"), Some(JStr("")));
    Clean(ToStr(v.value))
  }

  /** `s.slice(0, 400)` in code units. */
  function Slice400(s: string): (r: seq<CodeUnit>)
    ensures |r| <= 400
    ensures |r| == if |CodeUnits(s)| < 400 then |CodeUnits(s)| else 400
    ensures r == CodeUnits(s)[..|r|]
  {
    var u := CodeUnits(s);
    if |u| <= 400 then u else u[..400]
  }

  /** `run.json?.data?.id || run.json?.data?.idShort` */
  function RunId(json: Json): Option<Json>
  {
    var data := Get(Some(json), "data");
    Or(Get(data, "id"), Get(data, "idShort"))
  }

  /** `run.json?.data?.status || 'UNKNOWN'` */
  function RunStatus(json: Json): Json
  {
    Or(Get(Get(Some(json), "data"), "status"), Some(JStr("UNKNOWN"))).value
  }

  /** `String(plate || runId || "")` */
  function Seed(plate: string, runId: Option<Json>): string
  {
    if plate != "" then plate else if Truthy(runId) then ToStr(runId.value) else ""
  }

  /** `items?.[0] ?? null` for an array or an object; other datasets give null. */
  function RawItem(items: Json): Json
  {
    match items
    case JArr(elems) => if elems != [] then elems[0] else JNull
    case JObj(props) =>
      var v := Js.Lookup(props, "0");
      if v.Some? then v.value else JNull
    case _ => JNull
  }

  /** The 200 answer for an extracted valuation and a draw `t`. */
  function PricedAt(config: Config, runId: Option<Json>, v: Extract.Valuation, items: Json, t: real): (r: Response)
    ensures r.Valued?
    ensures (r.offerMin, r.offerMax) == Bounds(config.undercutMin, config.undercutMax)
    ensures r.offerPct == Pct(r.offerMin, r.offerMax, t)
    ensures r.dealerOffer == DealerOffer(v.finalPrice, r.offerPct)
    ensures r.basePrice == v.basePrice && r.deduction == v.deduction && r.finalPrice == v.finalPrice
    ensures r.runId == runId && r.rawItem == RawItem(items)
  {
    var (lo, hi) := Bounds(config.undercutMin, config.undercutMax);
    var pct := Pct(lo, hi, t);
    Valued(runId, v.basePrice, v.deduction, v.finalPrice, DealerOffer(v.finalPrice, pct),
           pct, lo, hi, RawItem(items))
  }

  /** The handler's pricing, with the draw `stableRand` returns as written: the
      signed `Offer.StableRandOf`, so a negative draw puts the undercut below
      `offerMin` (see `UndercutBelowMin`). */
  function Priced(config: Config, plate: string, runId: Option<Json>, v: Extract.Valuation, items: Json): (r: Response)
    ensures r.Valued?
    ensures (r.offerMin, r.offerMax) == Bounds(config.undercutMin, config.undercutMax)
    ensures r.offerPct == Pct(r.offerMin, r.offerMax, StableRandOf(Seed(plate, runId)))
  {
    PricedAt(config, runId, v, items, StableRandOf(Seed(plate, runId)))
  }

  /** The pricing as `stableRand`'s comment intends it, with the draw read
      unsigned (`Offer.StableRandUnsigned`). */
  function IntendedPriced(config: Config, plate: string, runId: Option<Json>, v: Extract.Valuation, items: Json): (r: Response)
    ensures r.Valued?
    ensures r.offerMin <= r.offerPct <= r.offerMax
  {
    PricedAt(config, runId, v, items, StableRandUnsigned(Seed(plate, runId)))
  }

  /** The valuation response for a succeeded run, given what `extractValuation`
      made of its dataset: destructuring a failed extraction throws. */
  function Valuation(config: Config, plate: string, runId: Option<Json>, e: Extracted, items: Json): Response
  {
    match e
    case NullItem => Crashed
    case Extracted(v) => Priced(config, plate, runId, v, items)
  }

  /** The handler: the response, and the number of requests sent to the
      provider. The token and the plate are checked before anything is sent. */
  function Post(config: Config, body: Option<Json>, provider: Provider): (r: (Response, nat))
    ensures r.1 <= 3
  {
    if config.token == "" then (MissingToken, 0)
    else
      var plate := BodyPlate(body);
      if !PlateShape(plate) then (BadPlate, 0)
      else Run(config, plate, provider)
  }

  /** The handler after its checks: start the actor, route the run's answer,
      fetch the dataset and price its first item. It never answers as the
      checks do, and it sends the start request (and its retry) and at most one
      dataset request. */
  function Run(config: Config, plate: string, provider: Provider): (r: (Response, nat))
    ensures !r.0.MissingToken? && !r.0.BadPlate?
    ensures 1 <= r.1 <= 3
  {
    var (run, starts) := Start(provider.start, provider.retry);
    var json := JsonOf(run);
    var runId := RunId(json);
    var status := RunStatus(json);
    if run.Rejected? then (Crashed, starts)
    else if !run.ok then
      if status == JStr("RUNNING") || status == JStr("READY") then (Pending(runId, status), starts)
      else (StartFailed(Slice400(run.text)), starts)
    else if status != JStr("SUCCEEDED") then (Pending(runId, status), starts)
    else
      var ds := provider.dataset;
      var items := if ds.Reply? && ds.parsed.Some? then ds.parsed.value else JArr([]);
      if ds.Rejected? then (Crashed, starts + 1)
      else if !ds.ok then (DatasetFailed(ds.status, Slice400(ds.text)), starts + 1)
      else (Valuation(config, plate, runId, ExtractValuation(items), items), starts + 1)
  }

  /* ---------- routing ---------- */

  /** Without a token the answer is 500, before anything else. */
  lemma MissingTokenFirst(config: Config, body: Option<Json>, provider: Provider)
    requires config.token == ""
    ensures Post(config, body, provider) == (MissingToken, 0)
    ensures StatusCode(Post(config, body, provider).0) == 500
  {
  }

  /** With a token, the answer is 400 exactly when the normalised plate is not
      three plate letters and three digits or two digits and a letter; then the
      provider is never called. */
  lemma PlateGate(config: Config, body: Option<Json>, provider: Provider)
    requires config.token != ""
    ensures StatusCode(Post(config, body, provider).0) == 400 <==> !PlateShape(BodyPlate(body))
    ensures !PlateShape(BodyPlate(body)) ==> Post(config, body, provider).1 == 0
  {
  }

  /** A start that was refused is pending (202) when the run is still RUNNING or
      READY, with the run's id and status, and otherwise a 502 carrying the
      first 400 code units of the reply. */
  lemma FailedStart(config: Config, plate: string, provider: Provider)
    requires Start(provider.start, provider.retry).0.Reply?
    requires !Start(provider.start, provider.retry).0.ok
    ensures var run := Start(provider.start, provider.retry).0;
      var status := RunStatus(JsonOf(run));
      var r := Run(config, plate, provider).0;
      && (StatusCode(r) == 202 <==> status == JStr("RUNNING") || status == JStr("READY"))
      && (StatusCode(r) == 502 <==> !(status == JStr("RUNNING") || status == JStr("READY")))
      && (StatusCode(r) == 202 ==> r == Pending(RunId(JsonOf(run)), status))
      && (StatusCode(r) == 502 ==> r == StartFailed(Slice400(run.text)))
    ensures Run(config, plate, provider).1 == Start(provider.start, provider.retry).1
  {
  }

  /** A start that succeeded but whose run has not SUCCEEDED is pending, with the
      run's id and status. */
  lemma UnfinishedRun(config: Config, plate: string, provider: Provider)
    requires Start(provider.start, provider.retry).0.Reply?
    requires Start(provider.start, provider.retry).0.ok
    requires RunStatus(JsonOf(Start(provider.start, provider.retry).0)) != JStr("SUCCEEDED")
    ensures var json := JsonOf(Start(provider.start, provider.retry).0);
      Run(config, plate, provider).0 == Pending(RunId(json), RunStatus(json))
    ensures StatusCode(Run(config, plate, provider).0) == 202
  {
  }

  /** A failed dataset request is a 502 with its status code. */
  lemma FailedDataset(config: Config, plate: string, provider: Provider)
    requires Start(provider.start, provider.retry).0.Reply?
    requires Start(provider.start, provider.retry).0.ok
    requires RunStatus(JsonOf(Start(provider.start, provider.retry).0)) == JStr("SUCCEEDED")
    requires provider.dataset.Reply? && !provider.dataset.ok
    ensures Run(config, plate, provider).0 ==
      DatasetFailed(provider.dataset.status, Slice400(provider.dataset.text))
  {
  }

  /** A request that rejects throws into the handler's `catch`: a 500. */
  lemma RejectedRequest(config: Config, plate: string, provider: Provider)
    requires var run := Start(provider.start, provider.retry).0;
      || run.Rejected?
      || (run.ok && RunStatus(JsonOf(run)) == JStr("SUCCEEDED") && provider.dataset.Rejected?)
    ensures Run(config, plate, provider).0 == Crashed
    ensures StatusCode(Run(config, plate, provider).0) == 500
  {
  }

  /** After the checks, the answer is 200 exactly when the run started and
      SUCCEEDED, the dataset came back, and its first item is not null. */
  lemma RunSucceeds(config: Config, plate: string, provider: Provider)
    ensures StatusCode(Run(config, plate, provider).0) == 200 <==>
      var run := Start(provider.start, provider.retry).0;
      var ds := provider.dataset;
      && run.Reply? && run.ok
      && RunStatus(JsonOf(run)) == JStr("SUCCEEDED")
      && ds.Reply? && ds.ok
      && FirstItem(if ds.parsed.Some? then ds.parsed.value else JArr([])) != JNull
  {
    var run := Start(provider.start, provider.retry).0;
    var ds := provider.dataset;
    if run.Reply? && run.ok && RunStatus(JsonOf(run)) == JStr("SUCCEEDED") && ds.Reply? && ds.ok {
      var items := if ds.parsed.Some? then ds.parsed.value else JArr([]);
      ValuationStatus(config, plate, RunId(JsonOf(run)), ExtractValuation(items), items);
    }
  }

  /** Only a fully successful path answers 200: token, plate, a started run that
      SUCCEEDED, a dataset, and a first item that is not null. */
  lemma OnlySuccessIs200(config: Config, body: Option<Json>, provider: Provider)
    ensures StatusCode(Post(config, body, provider).0) == 200 <==>
      var run := Start(provider.start, provider.retry).0;
      var ds := provider.dataset;
      && config.token != ""
      && PlateShape(BodyPlate(body))
      && run.Reply? && run.ok
      && RunStatus(JsonOf(run)) == JStr("SUCCEEDED")
      && ds.Reply? && ds.ok
      && FirstItem(if ds.parsed.Some? then ds.parsed.value else JArr([])) != JNull
  {
    RunSucceeds(config, BodyPlate(body), provider);
  }

  /** The last step answers 200 for an extracted valuation and 500 when the
      extraction failed. */
  lemma ValuationStatus(config: Config, plate: string, runId: Option<Json>, e: Extracted, items: Json)
    ensures StatusCode(Valuation(config, plate, runId, e, items)) == 200 <==> e.Extracted?
    ensures StatusCode(Valuation(config, plate, runId, e, items)) == 500 <==> e.NullItem?
  {
  }

  /** In a 200 answer the bounds are ordered within [0, 0.95], the dealer offer is
      there exactly when the final price is, and the undercut is drawn with the
      plate itself as seed: at most `offerMax`, but as much as the width of the
      bounds below `offerMin`, since the draw lies in (-1, 1). */
  lemma ValuedResponse(config: Config, plate: string, provider: Provider)
    requires PlateShape(plate)
    requires Run(config, plate, provider).0.Valued?
    ensures var r := Run(config, plate, provider).0;
      && (r.offerMin, r.offerMax) == Bounds(config.undercutMin, config.undercutMax)
      && 0.0 <= r.offerMin <= r.offerMax <= 0.95
      && (r.dealerOffer.None? <==> r.finalPrice.None?)
      && r.offerPct == Pct(r.offerMin, r.offerMax, StableRandOf(plate))
      && r.offerMin - (r.offerMax - r.offerMin) <= r.offerPct <= r.offerMax
  {
  }

  /** A 200 answer carries the valuation extracted from the dataset's first item
      (the dataset read as `[]` when its body is not JSON), the run's id, that
      item as `rawItem`, and the dealer offer computed from the final price and
      the undercut. */
  lemma ValuedFromDataset(config: Config, plate: string, provider: Provider, items: Json, v: Extract.Valuation)
    requires var run := Start(provider.start, provider.retry).0;
      run.Reply? && run.ok && RunStatus(JsonOf(run)) == JStr("SUCCEEDED")
    requires provider.dataset.Reply? && provider.dataset.ok
    requires items == if provider.dataset.parsed.Some? then provider.dataset.parsed.value else JArr([])
    requires ExtractValuation(items) == Extracted(v)
    ensures var r := Run(config, plate, provider).0;
      && r.Valued?
      && r.basePrice == v.basePrice && r.deduction == v.deduction && r.finalPrice == v.finalPrice
      && r.dealerOffer == DealerOffer(v.finalPrice, r.offerPct)
      && r.runId == RunId(JsonOf(Start(provider.start, provider.retry).0))
      && r.rawItem == RawItem(items)
  {
  }

  /** As written, the plate AAA111 with the default bounds is answered with an
      undercut of 0.26379, below its own `offerMin` of 0.30. */
  lemma UndercutBelowMin(token: string, plate: string, provider: Provider)
    requires token != "" && plate == "AAA111"
    requires Post(DefaultConfig(token), Some(JObj([Prop("plate", JStr(plate))])), provider).0.Valued?
    ensures var r := Post(DefaultConfig(token), Some(JObj([Prop("plate", JStr(plate))])), provider).0;
      r.offerMin == 0.30 && r.offerPct == 0.26379 && r.offerPct < r.offerMin
  {
    PostedPlate(plate);
    ValuedResponse(DefaultConfig(token), plate, provider);
    PctBelowMin();
  }

  lemma PostedPlate(plate: string)
    requires plate == "AAA111"
    ensures BodyPlate(Some(JObj([Prop("plate", JStr(plate))]))) == plate
    ensures PlateShape(plate)
  {
    var body := JObj([Prop("plate", JStr(plate))]);
    assert Get(Some(body), "plate") == Some(JStr(plate));
    assert PlateShape(plate);
    CleanKeepsPlate(plate);
  }
}
