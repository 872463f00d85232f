/** The service layer of services/gemini.ts: the post-processing around its three calls to
    the generative service (plan analysis, plan image, visual compliance audit). The calls
    themselves and `JSON.parse` are the fields of a `Backend`: total functions from the
    request to what the call returns or the message of what it throws. */
module Gemini {
  import opened Wrappers
  import opened Types
  import opened JsText

  /** A value returned by `JSON.parse`, as far as the two callers look into it: the analysis
      stage reads named fields, the compliance stage asks whether it is an array. */
  datatype Json =
    | JNull
    | JArray(elements: seq<BylawCheck>)
    | JObject(fields: RawAnalysis)
    | JPrimitive                       // a number, string or boolean

  /** The analysis fields of a parsed object. A text field is None when it is absent or not a
      string; a number field holds `Number(field)`, None standing for NaN; `roomDimensions`
      is Some exactly when `Array.isArray` holds of it. */
  datatype RawAnalysis = RawAnalysis(
    visualPrompt: Option<string>,
    distributionLogic: Option<string>,
    roomDimensions: Option<seq<RoomDimension>>,
    totalUtilizedArea: Option<real>,
    efficiencyScore: Option<real>)

  const Absent: RawAnalysis := RawAnalysis(None, None, None, None, None)

  /** One content part of an image response; only its inline data matters here. */
  datatype InlineData = InlineData(mimeType: Option<string>, data: Option<string>)
  datatype Part = Part(inlineData: Option<InlineData>)

  /** What the compliance stage sends along with its instruction: the image payload decoded
      from the data URI (undefined when the URI has no comma) and the jurisdiction. */
  datatype VisionRequest = VisionRequest(mimeType: string, data: Option<string>, country: string)

  /** The external collaborators. `analyze` answers the text of the analysis response
      (None when it has none), `render` the parts of the first candidate (None when the
      response has no candidate, content or parts), `inspect` the text of the audit response. */
  datatype Backend = Backend(
    analyze: UserRequirements -> Result<Option<string>>,
    render: string -> Result<Option<seq<Part>>>,
    inspect: VisionRequest -> Result<Option<string>>,
    parseJson: string -> Result<Json>)

  const NoDataMessage: string := "No data received from analysis model"
  const NoImageMessage: string := "The AI model returned text but no image."
  /** The TypeError a JavaScript engine (V8 wording) raises when `parsedData` is null. */
  const NullFieldMessage: string := "Cannot read properties of null (reading 'totalUtilizedArea')"
  const DefaultVisualPrompt: string := "A standard residential floor plan."
  const DefaultDistributionLogic: string := "Layout based on standard practices."
  const DefaultMimeType: string := "image/png"
  const NeutralScore: real := 88.0
  const CappedScore: real := 99.0
  const ImagePromptSuffix: string :=
    " Render strictly as a rectangular architectural floor plan. Do not use circular shapes,"
    + " do not use a circular vignette, do not use a round frame. The image must fill the"
    + " rectangular canvas. High quality, blueprint aesthetic, precise lines, white background,"
    + " high contrast, technical drawing with dimension lines and room labels clearly visible."
  const FallbackCheck: BylawCheck :=
    BylawCheck(
      "Automated Visual Inspection",
      Warning,
      "Could not complete visual verification of bylaws. Please manually review the plan.")

  // ---------------------------------------------------------------------------------------
  // Response normalisation

  const Fence: string := "```"
  const JsonFence: string := "```json"

  /** The fence removal applied to trimmed text that starts with three backticks: one leading
      "```json", then one leading "```", then one trailing "```", each only where present. */
  function StripFences(s: string): string {
    if StartsWith(s, Fence) then
      var a := if StartsWith(s, JsonFence) then s[|JsonFence|..] else s;
      var b := if StartsWith(a, Fence) then a[|Fence|..] else a;
      if EndsWith(b, Fence) then b[..|b| - |Fence|] else b
    else s
  }

  /** The text handed to `JSON.parse`: the response trimmed, then stripped of fences. */
  function CleanResponse(text: string): string {
    StripFences(Trim(text))
  }

  /** Whatever the fences, the stripped text is a piece of the text it came from. */
  lemma StripFencesIsInfix(s: string)
    ensures IsInfix(StripFences(s), s)
  {
    if StartsWith(s, Fence) {
      var i := if StartsWith(s, JsonFence) then |JsonFence| else 0;
      var a := s[i..];
      assert a == (if StartsWith(s, JsonFence) then s[|JsonFence|..] else s);
      var j := if StartsWith(a, Fence) then i + |Fence| else i;
      var b := s[j..];
      assert b == (if StartsWith(a, Fence) then a[|Fence|..] else a);
      var k := if EndsWith(b, Fence) then |s| - |Fence| else |s|;
      assert s[j..k] == (if EndsWith(b, Fence) then b[..|b| - |Fence|] else b);
      assert InfixAt(s[j..k], s, j);
    } else {
      assert InfixAt(s, s, 0);
    }
  }

  /** The text reaching the parser is a piece of the raw response. */
  lemma CleanResponseIsInfix(text: string)
    ensures IsInfix(CleanResponse(text), text)
  {
    var t := Trim(text);
    TrimIsInfix(text);
    StripFencesIsInfix(t);
    var i: nat :| InfixAt(t, text, i);
    InfixTransitive(CleanResponse(text), t, text, i);
  }

  /** Trimmed text that does not open with a fence reaches the parser unchanged; text
      already free of surrounding whitespace and fences is passed on as it is. */
  lemma UnfencedPassesThrough(text: string)
    requires !StartsWith(Trim(text), Fence)
    ensures CleanResponse(text) == Trim(text)
    ensures (text == [] || (!IsWhitespace(text[0]) && !IsWhitespace(text[|text| - 1])))
            ==> CleanResponse(text) == text
  {
    if text == [] || (!IsWhitespace(text[0]) && !IsWhitespace(text[|text| - 1])) {
      TrimUnchanged(text);
    }
  }

  /** "```json" + B + "```" hands exactly B to the parser, unless B itself opens with a fence
      (the second leading replacement would then take that one too). */
  lemma JsonFenceStripped(body: string)
    requires !StartsWith(body, Fence)
    ensures StripFences(JsonFence + body + Fence) == body
  {
    var s := JsonFence + body + Fence;
    assert StartsWith(s, Fence) && StartsWith(s, JsonFence);
    var a := s[|JsonFence|..];
    assert a == body + Fence;
    if StartsWith(a, Fence) {
      // only a body of at most two backticks gets here
      assert |body| < 3;
      var b := a[|Fence|..];
      assert b == body by {
        forall k | 0 <= k < |body| ensures b[k] == body[k] {
          assert a[k] == '`' && a[k + 3] == '`';
        }
      }
      assert !EndsWith(b, Fence);
    } else {
      assert EndsWith(a, Fence);
      assert a[..|a| - |Fence|] == body;
    }
  }

  /** "```" + B + "```" hands exactly B to the parser when B does not open with "json". */
  lemma PlainFenceStripped(body: string)
    requires !StartsWith(body, "json")
    ensures StripFences(Fence + body + Fence) == body
  {
    var s := Fence + body + Fence;
    assert StartsWith(s, Fence);
    assert !StartsWith(s, JsonFence) by {
      if |body| >= 4 {
        assert s[3..7] == body[..4];
      } else {
        assert s[3 + |body|] == '`';
      }
    }
    var b := s[|Fence|..];
    assert b == body + Fence;
    assert EndsWith(b, Fence);
    assert b[..|b| - |Fence|] == body;
  }

  /** The first `JSON.parse`, and on its failure the single retry on the text from the first
      `{` to the last `}` (JavaScript `substring`, which swaps its bounds when the first
      `{` lies beyond the last `}`); without either brace the first error is rethrown. */
  function ParseWithRecovery(s: string, parse: string -> Result<Json>): Result<Json> {
    match parse(s)
    case Ok(v) => Ok(v)
    case Err(e) =>
      var firstBrace := IndexOf(s, '{');
      var lastBrace := LastIndexOf(s, '}');
      if firstBrace != -1 && lastBrace != -1 then parse(Substring(s, firstBrace, lastBrace + 1))
      else Err(e)
  }

  /** A text the parser accepts is never touched by the recovery. */
  lemma ParsedFirstTime(s: string, parse: string -> Result<Json>)
    requires parse(s).Ok?
    ensures ParseWithRecovery(s, parse) == parse(s)
  {
  }

  /** When the first parse fails and a `{` comes at or before the last `}`, the retry parses
      exactly the slice from the first `{` to the last `}` inclusive. */
  lemma BraceSliceRetried(s: string, parse: string -> Result<Json>)
    requires parse(s).Err?
    requires '{' in s && '}' in s && IndexOf(s, '{') <= LastIndexOf(s, '}')
    ensures var first, last := IndexOf(s, '{'), LastIndexOf(s, '}');
            && ParseWithRecovery(s, parse) == parse(s[first..last + 1])
            && s[first..last + 1][0] == '{' && s[first..last + 1][last - first] == '}'
            && '{' !in s[..first] && '}' !in s[last + 1..]
  {
  }

  /** When the first parse fails and a brace of either kind is missing, its error is rethrown. */
  lemma MissingBraceRethrows(s: string, parse: string -> Result<Json>)
    requires parse(s).Err?
    requires '{' !in s || '}' !in s
    ensures ParseWithRecovery(s, parse) == Err(parse(s).message)
  {
  }

  /** When every `}` precedes the first `{`, the swapped `substring` bounds make the retry parse
      the text strictly between the last `}` and the first `{`, which holds no brace. */
  lemma SwappedSliceRetried(s: string, parse: string -> Result<Json>)
    requires parse(s).Err?
    requires '{' in s && '}' in s && LastIndexOf(s, '}') < IndexOf(s, '{')
    ensures var first, last := IndexOf(s, '{'), LastIndexOf(s, '}');
            && ParseWithRecovery(s, parse) == parse(s[last + 1..first])
            && '{' !in s[last + 1..first] && '}' !in s[last + 1..first]
  {
    var first, last := IndexOf(s, '{'), LastIndexOf(s, '}');
    assert s[last + 1..first] == s[..first][last + 1..];
    assert s[last + 1..first] == s[last + 1..][..first - last - 1];
  }

  // ---------------------------------------------------------------------------------------
  // Analysis stage

  /** `Math.round`: the nearest integer, halves rounded up. */
  function Round(x: real): (r: int)
    ensures r as real - 0.5 <= x < r as real + 0.5
  {
    (x + 0.5).Floor
  }

  /** JavaScript truthiness of a number: neither 0 nor NaN. */
  predicate Truthy(n: Option<real>) {
    n.Some? && n.value != 0.0
  }

  /** `Number(parsed.totalUtilizedArea) || Math.round(totalArea * 0.90)`. */
  function UtilizedArea(parsed: Option<real>, totalArea: int): real {
    if Truthy(parsed) then parsed.value else Round(totalArea as real * 0.9) as real
  }

  /** The efficiency score: a truthy parsed score as it is; otherwise the utilised share of
      the total area in percent, rounded, with anything above 100 read as 99, when both
      areas are positive; otherwise the neutral 88. */
  function EfficiencyScore(parsed: Option<real>, utilized: real, totalArea: int): real {
    if Truthy(parsed) then parsed.value
    else if utilized > 0.0 && totalArea > 0 then
      var score := Round(utilized / totalArea as real * 100.0);
      if score > 100 then CappedScore else score as real
    else NeutralScore
  }

  /** The field record read off a parsed value; property reads on anything but an object
      give undefined. */
  function FieldsOf(v: Json): RawAnalysis {
    if v.JObject? then v.fields else Absent
  }

  /** The JavaScript `||` on a text field. */
  function TextOr(field: Option<string>, default: string): string {
    if field.Some? && field.value != "" then field.value else default
  }

  /** The analysis record built from the parsed value; reading a field of `null` throws. */
  function ShapeAnalysis(parsed: Json, totalArea: int): (r: Result<PlanAnalysis>)
    ensures r.Err? <==> parsed.JNull?
    ensures r.Err? ==> r.message == NullFieldMessage
    ensures r.Ok? ==> && r.value.bylawCompliance == []
                      && r.value.visualPrompt != ""
                      && r.value.distributionLogic != ""
  {
    if parsed.JNull? then Err(NullFieldMessage)
    else
      var raw := FieldsOf(parsed);
      var utilized := UtilizedArea(raw.totalUtilizedArea, totalArea);
      Ok(PlanAnalysis(
        visualPrompt := TextOr(raw.visualPrompt, DefaultVisualPrompt),
        distributionLogic := TextOr(raw.distributionLogic, DefaultDistributionLogic),
        roomDimensions := if raw.roomDimensions.Some? then raw.roomDimensions.value else [],
        bylawCompliance := [],
        totalUtilizedArea := utilized,
        efficiencyScore := EfficiencyScore(raw.efficiencyScore, utilized, totalArea)))
  }

  /** `generatePlanAnalysis` after its service call. */
  function GeneratePlanAnalysis(req: UserRequirements, backend: Backend): Result<PlanAnalysis> {
    match backend.analyze(req)
    case Err(e) => Err(e)
    case Ok(text) =>
      if text.None? || text.value == "" then Err(NoDataMessage)
      else
        match ParseWithRecovery(CleanResponse(text.value), backend.parseJson)
        case Err(e) => Err(e)
        case Ok(v) => ShapeAnalysis(v, req.totalArea)
  }

  /** A failed call is passed on with its message; an empty body is rejected; otherwise the
      parser sees the cleaned text (and possibly its brace slice). */
  lemma AnalysisOutcomes(req: UserRequirements, backend: Backend)
    ensures backend.analyze(req).Err? ==>
              GeneratePlanAnalysis(req, backend) == Err(backend.analyze(req).message)
    ensures backend.analyze(req) == Ok(None) || backend.analyze(req) == Ok(Some("")) ==>
              GeneratePlanAnalysis(req, backend) == Err(NoDataMessage)
    ensures backend.analyze(req).Ok? && backend.analyze(req).value.Some? && backend.analyze(req).value.value != "" ==>
              var parsed := ParseWithRecovery(CleanResponse(backend.analyze(req).value.value), backend.parseJson);
              && (parsed.Err? ==> GeneratePlanAnalysis(req, backend) == Err(parsed.message))
              && (parsed.Ok? ==> GeneratePlanAnalysis(req, backend) == ShapeAnalysis(parsed.value, req.totalArea))
  {
  }

  /** The utilised area is the parsed one when it is a non-zero number, else 90% of the
      total area, rounded. */
  lemma UtilizedAreaRule(parsed: Option<real>, totalArea: int)
    ensures Truthy(parsed) ==> UtilizedArea(parsed, totalArea) == parsed.value
    ensures !Truthy(parsed) ==>
              var u := UtilizedArea(parsed, totalArea);
              && u == u.Floor as real
              && u - 0.5 <= totalArea as real * 0.9 < u + 0.5
  {
  }

  /** A truthy parsed score is kept without any range check. */
  lemma ParsedScoreKept(parsed: Option<real>, utilized: real, totalArea: int)
    requires Truthy(parsed)
    ensures EfficiencyScore(parsed, utilized, totalArea) == parsed.value
  {
  }

  /** A recomputed score is an integer in [0, 100]: the rounded percentage when that is at
      most 100 (so exactly 100 stays 100), and 99 when it is above. */
  lemma RecomputedScoreInRange(parsed: Option<real>, utilized: real, totalArea: int)
    requires !Truthy(parsed) && utilized > 0.0 && totalArea > 0
    ensures var score := EfficiencyScore(parsed, utilized, totalArea);
            var percent := Round(utilized / totalArea as real * 100.0);
            && 0.0 <= score <= 100.0
            && score == score.Floor as real
            && (percent <= 100 ==> score == percent as real)
            && (percent > 100 ==> score == CappedScore)
  {
    var ratio := utilized / totalArea as real;
    assert ratio > 0.0 by {
      assert utilized == ratio * totalArea as real;
    }
  }

  /** Without a truthy parsed score and without two positive areas the score is 88. */
  lemma NeutralScoreFallback(parsed: Option<real>, utilized: real, totalArea: int)
    requires !Truthy(parsed) && (utilized <= 0.0 || totalArea <= 0)
    ensures EfficiencyScore(parsed, utilized, totalArea) == NeutralScore
  {
  }

  /** Worked examples: 950 of 1000 gives 95, 1200 of 1000 gives 99 rather than 120, and a zero
      total area with no utilised area gives 88. */
  lemma ScoreExamples()
    ensures EfficiencyScore(None, UtilizedArea(Some(950.0), 1000), 1000) == 95.0
    ensures EfficiencyScore(None, UtilizedArea(Some(1200.0), 1000), 1000) == 99.0
    ensures EfficiencyScore(None, UtilizedArea(None, 0), 0) == 88.0
  {
    assert Round(950.0 / 1000.0 * 100.0) == 95;
    assert Round(1200.0 / 1000.0 * 100.0) == 120;
  }

  /** Every field of the analysis record gets a value: the two texts fall back to their
      defaults when missing or empty, the room list is the parsed array or empty, the
      compliance list is empty until the audit fills it. */
  lemma AnalysisDefaults(parsed: Json, totalArea: int)
    requires !parsed.JNull?
    ensures var raw, a := FieldsOf(parsed), ShapeAnalysis(parsed, totalArea).value;
            && (raw.visualPrompt.Some? && raw.visualPrompt.value != "" ==> a.visualPrompt == raw.visualPrompt.value)
            && (raw.visualPrompt.None? || raw.visualPrompt.value == "" ==> a.visualPrompt == DefaultVisualPrompt)
            && (raw.distributionLogic.Some? && raw.distributionLogic.value != "" ==> a.distributionLogic == raw.distributionLogic.value)
            && (raw.distributionLogic.None? || raw.distributionLogic.value == "" ==> a.distributionLogic == DefaultDistributionLogic)
            && (raw.roomDimensions.Some? ==> a.roomDimensions == raw.roomDimensions.value)
            && (raw.roomDimensions.None? ==> a.roomDimensions == [])
            && a.totalUtilizedArea == UtilizedArea(raw.totalUtilizedArea, totalArea)
            && a.efficiencyScore == EfficiencyScore(raw.efficiencyScore, a.totalUtilizedArea, totalArea)
  {
  }

  // ---------------------------------------------------------------------------------------
  // Image stage

  /** The instruction sent for the image: the visual description and a fixed suffix. */
  function ImagePrompt(visualPrompt: string): (r: string)
    ensures StartsWith(r, visualPrompt) && |r| == |visualPrompt| + |ImagePromptSuffix|
    ensures r[|visualPrompt|..] == ImagePromptSuffix
  {
    visualPrompt + ImagePromptSuffix
  }

  /** A part qualifies when it has inline data whose `data` is a non-empty string. */
  predicate HasImage(p: Part) {
    p.inlineData.Some? && p.inlineData.value.data.Some? && p.inlineData.value.data.value != ""
  }

  function DataUri(mimeType: string, data: string): string {
    "data:" + mimeType + ";base64," + data
  }

  /** The data URI of a qualifying part; an absent or empty MIME type reads as PNG. */
  function PartUri(p: Part): string
    requires HasImage(p)
  {
    var mime := p.inlineData.value.mimeType;
    DataUri(if mime.Some? && mime.value != "" then mime.value else DefaultMimeType,
            p.inlineData.value.data.value)
  }

  /** The image found by scanning the parts in order. */
  function ScanParts(parts: seq<Part>): Result<string> {
    if |parts| == 0 then Err(NoImageMessage)
    else if HasImage(parts[0]) then Ok(PartUri(parts[0]))
    else ScanParts(parts[1..])
  }

  /** The scan answers the data URI of the first qualifying part. */
  lemma {:induction false} ScanFindsFirst(parts: seq<Part>, k: nat)
    requires k < |parts| && HasImage(parts[k])
    requires forall j :: 0 <= j < k ==> !HasImage(parts[j])
    ensures ScanParts(parts) == Ok(PartUri(parts[k]))
  {
    if k > 0 {
      ScanFindsFirst(parts[1..], k - 1);
    }
  }

  /** With no qualifying part the scan raises the no-image error. */
  lemma {:induction false} ScanFindsNone(parts: seq<Part>)
    requires forall j :: 0 <= j < |parts| ==> !HasImage(parts[j])
    ensures ScanParts(parts) == Err(NoImageMessage)
  {
    if |parts| > 0 {
      ScanFindsNone(parts[1..]);
    }
  }

  /** The image stage: the call's error is passed on; a response without parts, or whose
      parts carry no image, raises the no-image error. */
  function ImageStage(visualPrompt: string, backend: Backend): Result<string> {
    match backend.render(ImagePrompt(visualPrompt))
    case Err(e) => Err(e)
    case Ok(parts) => if parts.None? then Err(NoImageMessage) else ScanParts(parts.value)
  }

  /** `generatePlanImage` after its service call: the `for` loop with early return. */
  method GeneratePlanImage(visualPrompt: string, backend: Backend) returns (r: Result<string>)
    ensures r == ImageStage(visualPrompt, backend)
  {
    var response := backend.render(ImagePrompt(visualPrompt));
    if response.Err? {
      return Err(response.message);
    }
    var parts := response.value;
    if parts.Some? {
      var i := 0;
      while i < |parts.value|
        invariant 0 <= i <= |parts.value|
        invariant ScanParts(parts.value[i..]) == ScanParts(parts.value)
      {
        var part := parts.value[i];
        if HasImage(part) {
          return Ok(PartUri(part));
        }
        assert parts.value[i..][1..] == parts.value[i + 1..];
        i := i + 1;
      }
    }
    return Err(NoImageMessage);
  }

  // ---------------------------------------------------------------------------------------
  // Compliance stage

  datatype DataUriParts = DataUriParts(mimeType: string, data: Option<string>)

  /** `imageUrl.split(',')[1]` and `imageUrl.split(':')[1].split(';')[0]`; None when the URL
      has no colon, where reading `split` of undefined throws. */
  function SplitDataUri(url: string): Option<DataUriParts> {
    var commaPieces := Split(url, ',');
    var data := if |commaPieces| > 1 then Some(commaPieces[1]) else None;
    var colonPieces := Split(url, ':');
    if |colonPieces| > 1 then Some(DataUriParts(Split(colonPieces[1], ';')[0], data))
    else None
  }

  /** The payload half: the piece after the only comma is the payload. */
  lemma DataUriPayload(mimeType: string, data: string)
    requires ',' !in mimeType && ',' !in data
    ensures Split(DataUri(mimeType, data), ',') == ["data:" + mimeType + ";base64", data]
  {
    var head := "data:" + mimeType + ";base64";
    assert DataUri(mimeType, data) == head + [','] + data;
    SplitAfter(head, data, ',');
  }

  /** The MIME half: the piece after the first colon, cut at its first semicolon. */
  lemma DataUriMimeType(mimeType: string, data: string)
    requires ':' !in mimeType && ';' !in mimeType
    ensures |Split(DataUri(mimeType, data), ':')| > 1
    ensures Split(Split(DataUri(mimeType, data), ':')[1], ';')[0] == mimeType
  {
    var tail := "base64," + data;
    var rest := mimeType + [';'] + tail;
    assert DataUri(mimeType, data) == "data" + [':'] + rest;
    SplitAfter("data", rest, ':');
    SplitHeadPrefix(mimeType + [';'], tail, ':');
    var piece := Split(rest, ':')[0];
    assert piece == mimeType + [';'] + Split(tail, ':')[0];
    SplitAfter(mimeType, Split(tail, ':')[0], ';');
  }

  /** Splitting a data URI built by the image stage gives back its MIME type and payload,
      provided the MIME type has no `:`, `;` or `,` and the payload no `,` (base64 has none). */
  lemma DataUriRoundTrip(mimeType: string, data: string)
    requires ':' !in mimeType && ';' !in mimeType && ',' !in mimeType
    requires ',' !in data
    ensures SplitDataUri(DataUri(mimeType, data)) == Some(DataUriParts(mimeType, Some(data)))
  {
    DataUriPayload(mimeType, data);
    DataUriMimeType(mimeType, data);
  }

  /** The image stage's default MIME type survives the round trip. */
  lemma DefaultMimeTypeRoundTrip(data: string)
    requires ',' !in data
    ensures SplitDataUri(DataUri(DefaultMimeType, data)) == Some(DataUriParts(DefaultMimeType, Some(data)))
  {
    DataUriRoundTrip(DefaultMimeType, data);
  }

  /** `validatePlanWithVision` after its service call. Every failure (no colon in the URL,
      the call throwing, no text, the parse failing) yields the single fallback finding; a
      parsed value that is not an array yields no findings. */
  function ValidatePlanWithVision(imageUrl: string, req: UserRequirements, backend: Backend): (r: seq<BylawCheck>)
  {
    match SplitDataUri(imageUrl)
    case None => [FallbackCheck]
    case Some(uri) =>
      match backend.inspect(VisionRequest(uri.mimeType, uri.data, req.country))
      case Err(_) => [FallbackCheck]
      case Ok(text) =>
        if text.None? then [FallbackCheck]
        else
          match backend.parseJson(CleanResponse(text.value))
          case Err(_) => [FallbackCheck]
          case Ok(v) => if v.JArray? then v.elements else []
  }

  /** The audit of a URL the image stage built sends that image's own MIME type and payload. */
  lemma VisionRequestCarriesImage(p: Part, req: UserRequirements)
    requires HasImage(p)
    requires var mime := p.inlineData.value.mimeType;
             mime.Some? ==> ':' !in mime.value && ';' !in mime.value && ',' !in mime.value
    requires ',' !in p.inlineData.value.data.value
    ensures var mime := p.inlineData.value.mimeType;
            SplitDataUri(PartUri(p)) ==
              Some(DataUriParts(if mime.Some? && mime.value != "" then mime.value else DefaultMimeType,
                                Some(p.inlineData.value.data.value)))
  {
    var mime := p.inlineData.value.mimeType;
    DataUriRoundTrip(if mime.Some? && mime.value != "" then mime.value else DefaultMimeType,
                     p.inlineData.value.data.value);
  }

  /** The compliance stage's outcomes: exactly one "Automated Visual Inspection" warning on any
      failure, the parsed array when there is one, and nothing for any other parsed value. */
  lemma VisionOutcomes(imageUrl: string, req: UserRequirements, backend: Backend)
    ensures SplitDataUri(imageUrl).None? ==> ValidatePlanWithVision(imageUrl, req, backend) == [FallbackCheck]
    ensures SplitDataUri(imageUrl).Some? ==>
              var uri := SplitDataUri(imageUrl).value;
              var reply := backend.inspect(VisionRequest(uri.mimeType, uri.data, req.country));
              && (reply.Err? || reply.value.None? ==>
                    ValidatePlanWithVision(imageUrl, req, backend) == [FallbackCheck])
              && (reply.Ok? && reply.value.Some? ==>
                    var parsed := backend.parseJson(CleanResponse(reply.value.value));
                    && (parsed.Err? ==> ValidatePlanWithVision(imageUrl, req, backend) == [FallbackCheck])
                    && (parsed.Ok? && parsed.value.JArray? ==>
                          ValidatePlanWithVision(imageUrl, req, backend) == parsed.value.elements)
                    && (parsed.Ok? && !parsed.value.JArray? ==>
                          ValidatePlanWithVision(imageUrl, req, backend) == []))
    ensures FallbackCheck.rule == "Automated Visual Inspection" && FallbackCheck.status == Warning
  {
  }
}
