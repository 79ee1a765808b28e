/** `analyzeMedia` of services/geminiService.ts: one call of the analysis
    engine, in either of its two modes. The network reply, the abort signal
    and `JSON.parse` are inputs; everything the function does with them is
    modelled: mode resolution, the prompt's variable parts, the two abort
    checkpoints, the extraction of the JSON text, the per-mode validation with
    its in-place backfill of descriptions, and the fallback to a sentinel
    result for every error other than an abort. */
module GeminiService {
  import opened Common
  import opened Text
  import opened Js
  import opened Types
  import opened CleanJson

  // ---------------------------------------------------------------------
  // Mode resolution
  // ---------------------------------------------------------------------

  /** The third argument: a platform string, a settings object, or nothing. */
  datatype Arg3 = PlatformArg(platform: Platform) | SettingsArg(settings: BrandSettings) | Omitted

  /** The arguments of one call (the abort signal is passed separately). */
  datatype Call = Call(
    base64Data: string,
    mimeType: string,
    arg3: Arg3,
    arg4: Option<BrandSettings>,
    arg5: Option<string>)

  datatype Mode = Legacy | ViralEngine

  /** The four constants computed from the arguments. */
  datatype Context = Context(
    mode: Mode,
    platform: Option<Platform>,
    brandSettings: Option<BrandSettings>,
    musicMood: Option<string>)

  /** The viral engine is selected exactly when the third argument is a
      string; in legacy mode that argument is the brand settings and the
      platform and music mood are undefined. */
  function ResolveMode(c: Call): (ctx: Context)
    ensures ctx.mode == ViralEngine <==> c.arg3.PlatformArg?
    ensures ctx.mode == ViralEngine ==>
      ctx.platform == Some(c.arg3.platform) && ctx.brandSettings == c.arg4 && ctx.musicMood == c.arg5
    ensures ctx.mode == Legacy ==>
      && ctx.platform.None? && ctx.musicMood.None?
      && ctx.brandSettings == (if c.arg3.SettingsArg? then Some(c.arg3.settings) else None)
  {
    match c.arg3
    case PlatformArg(p) => Context(ViralEngine, Some(p), c.arg4, c.arg5)
    case SettingsArg(b) => Context(Legacy, None, Some(b), None)
    case Omitted => Context(Legacy, None, None, None)
  }

  // ---------------------------------------------------------------------
  // The prompt's variable parts
  // ---------------------------------------------------------------------

  /** `v || d` on a possibly undefined string. */
  function OrElse(v: Option<string>, d: string): (r: string)
    ensures r == d <==> v.None? || v.value == "" || v.value == d
    ensures r != d ==> v == Some(r)
  {
    if v.Some? && v.value != "" then v.value else d
  }

  /** `${x}` of a possibly undefined platform. */
  function PlatformText(p: Option<Platform>): string {
    match p
    case Some(q) => q.Name()
    case None => "undefined"
  }

  /** `${brandSettings?.includeLinkInBio}` */
  function FlagText(b: Option<BrandSettings>): string {
    match b
    case None => "undefined"
    case Some(s) => if s.includeLinkInBio then "true" else "false"
  }

  function NicheOf(b: Option<BrandSettings>): Option<string> {
    if b.Some? then Some(b.value.niche) else None
  }

  function PersonalityOf(b: Option<BrandSettings>): Option<string> {
    if b.Some? then Some(b.value.personality) else None
  }

  const MusicInstructionHead := "- IMPORTANT: User requested Music Vibe: \""
  const MusicInstructionTail :=
    "\". STRICTLY prioritize audio that fuses this vibe with the specific content variants below."

  const CtaYes := "YES (Append 'Link in Bio')"
  const CtaNo := "NO"

  /** The holes of the two prompt templates, filled; the fixed prose around
      them is not modelled. */
  datatype Prompt =
    | ViralPrompt(
        media: string, platform: string, niche: string, musicInstruction: string,
        horrorVibe: string, humorVibe: string, historicalVibe: string,
        personality: string, cta: string)
    | LegacyPrompt(media: string, niche: string, personality: string, ctaCondition: string)

  /** The music line of the viral prompt: present only for a truthy mood. */
  function MusicInstruction(mood: Option<string>): (r: string)
    ensures r != "" <==> mood.Some? && mood.value != ""
    ensures r != "" ==> r == MusicInstructionHead + mood.value + MusicInstructionTail
  {
    if mood.Some? && mood.value != "" then MusicInstructionHead + mood.value + MusicInstructionTail else ""
  }

  function BuildPrompt(mimeType: string, ctx: Context): (p: Prompt)
    ensures p.ViralPrompt? <==> ctx.mode == ViralEngine
    ensures p.media == (if StartsWith(mimeType, "video/") then "VIDEO" else "IMAGE")
    ensures p.niche == OrElse(NicheOf(ctx.brandSettings), "General")
    ensures p.ViralPrompt? ==>
      && p.platform == PlatformText(ctx.platform)
      && p.musicInstruction == MusicInstruction(ctx.musicMood)
      && p.horrorVibe == OrElse(ctx.musicMood, "Dark")
      && p.humorVibe == OrElse(ctx.musicMood, "Upbeat")
      && p.historicalVibe == OrElse(ctx.musicMood, "Classical")
      && p.personality == OrElse(PersonalityOf(ctx.brandSettings), "Neutral")
      && (p.cta == CtaYes <==> ctx.brandSettings.Some? && ctx.brandSettings.value.includeLinkInBio)
      && (p.cta == CtaYes || p.cta == CtaNo)
    ensures p.LegacyPrompt? ==>
      && p.personality == OrElse(PersonalityOf(ctx.brandSettings), "Analytical")
      && p.ctaCondition == FlagText(ctx.brandSettings)
  {
    var media := if StartsWith(mimeType, "video/") then "VIDEO" else "IMAGE";
    var niche := OrElse(NicheOf(ctx.brandSettings), "General");
    match ctx.mode
    case ViralEngine =>
      ViralPrompt(
        media, PlatformText(ctx.platform), niche, MusicInstruction(ctx.musicMood),
        OrElse(ctx.musicMood, "Dark"), OrElse(ctx.musicMood, "Upbeat"), OrElse(ctx.musicMood, "Classical"),
        OrElse(PersonalityOf(ctx.brandSettings), "Neutral"),
        if ctx.brandSettings.Some? && ctx.brandSettings.value.includeLinkInBio then CtaYes else CtaNo)
    case Legacy =>
      LegacyPrompt(media, niche, OrElse(PersonalityOf(ctx.brandSettings), "Analytical"), FlagText(ctx.brandSettings))
  }

  const ModelName := "gemini-2.5-flash"
  const ThinkingBudget := 16384

  /** The tools the model may use. */
  datatype Tool = GoogleSearch

  /** What is sent to the model: the inline media, the prompt, and the
      configuration (model, tools, thinking budget). */
  datatype Request = Request(data: string, mimeType: string, prompt: Prompt, model: string, tools: seq<Tool>, thinkingBudget: int)

  function MakeRequest(c: Call): (r: Request)
    ensures r.data == c.base64Data && r.mimeType == c.mimeType
    ensures r.model == ModelName && r.thinkingBudget == ThinkingBudget
    ensures r.tools == [GoogleSearch]
    ensures r.prompt == BuildPrompt(c.mimeType, ResolveMode(c))
  {
    Request(c.base64Data, c.mimeType, BuildPrompt(c.mimeType, ResolveMode(c)), ModelName, [GoogleSearch], ThinkingBudget)
  }

  // ---------------------------------------------------------------------
  // Errors
  // ---------------------------------------------------------------------

  /** The errors the `try` block can raise, other than an abort. */
  datatype Fault =
    | TransportFailed    // the model call itself threw
    | EmptyResponse      // "Empty response from Elia Engine."
    | InvalidJson        // JSON.parse threw a SyntaxError
    | MalformedData      // "Malformed Analysis Data"
    | PropertyTypeError  // a property read or write on a value that has none

  /** What reaches the `catch`. */
  datatype Thrown = AbortError | OtherError(fault: Fault)

  // ---------------------------------------------------------------------
  // Viral validation and backfill
  // ---------------------------------------------------------------------

  const VariantKeys: seq<string> := ["horror", "humor", "historical"]

  function DefaultDescription(k: string): string {
    "A " + k + " themed viral post."
  }

  /** One iteration of the `forEach`: read `variants[k].description` and, when
      it is falsy, write the default into it. */
  function BackfillOne(variants: map<string, Json>, k: string): Result<map<string, Json>, JsError> {
    var entry := Field(variants, k);
    match GetProp(entry, "description")
    case Failure(e) => Failure(e)
    case Success(d) =>
      if Truthy(d) then Success(variants)
      else
        match SetProp(entry, "description", JString(DefaultDescription(k)))
        case Failure(e) => Failure(e)
        case Success(v) => Success(variants[k := v])
  }

  /** The whole `forEach` over `keys`; the first error ends it. */
  function BackfillAll(variants: map<string, Json>, keys: seq<string>): Result<map<string, Json>, JsError>
    decreases |keys|
  {
    if keys == [] then Success(variants)
    else
      match BackfillOne(variants, keys[0])
      case Failure(e) => Failure(e)
      case Success(m) => BackfillAll(m, keys[1..])
  }

  /** The viral branch of validation, applied to the parsed value. */
  function CheckViral(parsed: Json): Result<Json, Fault> {
    match GetProp(Some(parsed), "variants")
    case Failure(_) => Failure(PropertyTypeError)
    case Success(v) =>
      if !Truthy(v) then Failure(MalformedData)
      else
        match GetProp(v, "horror")
        case Failure(_) => Failure(PropertyTypeError)
        case Success(h) =>
          if !Truthy(h) then Failure(MalformedData)
          else
            match BackfillAll(Props(v.value), VariantKeys)
            case Failure(_) => Failure(PropertyTypeError)
            case Success(m) => Success(WithProps(parsed, Props(parsed)["variants" := WithProps(v.value, m)]))
  }

  /** The legacy branch of validation: the parsed value is returned as is. */
  function CheckLegacy(parsed: Json): Result<Json, Fault> {
    match GetProp(Some(parsed), "options")
    case Failure(_) => Failure(PropertyTypeError)
    case Success(o) =>
      if !Truthy(o) then Failure(MalformedData)
      else
        match GetProp(Some(parsed), "score")
        case Failure(_) => Failure(PropertyTypeError)
        case Success(s) => if !Truthy(s) then Failure(MalformedData) else Success(parsed)
  }

  function Validate(mode: Mode, parsed: Json): Result<Json, Fault> {
    match mode
    case ViralEngine => CheckViral(parsed)
    case Legacy => CheckLegacy(parsed)
  }

  /** The viral validation with its `forEach` as a loop that writes into the
      variants object in place. */
  method ValidateViral(parsed: Json) returns (r: Result<Json, Fault>)
    ensures r == CheckViral(parsed)
  {
    var variants := GetProp(Some(parsed), "variants");
    if variants.Failure? {
      return Failure(PropertyTypeError);
    }
    var v := variants.value;
    if !Truthy(v) {
      return Failure(MalformedData);
    }
    var horror := GetProp(v, "horror");
    if horror.Failure? {
      return Failure(PropertyTypeError);
    }
    if !Truthy(horror.value) {
      return Failure(MalformedData);
    }
    var fields := Props(v.value);
    var i := 0;
    while i < |VariantKeys|
      invariant 0 <= i <= |VariantKeys|
      invariant BackfillAll(fields, VariantKeys[i..]) == BackfillAll(Props(v.value), VariantKeys)
    {
      var k := VariantKeys[i];
      assert VariantKeys[i..][0] == k && VariantKeys[i..][1..] == VariantKeys[i + 1..];
      var entry := Field(fields, k);
      var description := GetProp(entry, "description");
      if description.Failure? {
        return Failure(PropertyTypeError);
      }
      if !Truthy(description.value) {
        var written := SetProp(entry, "description", JString(DefaultDescription(k)));
        if written.Failure? {
          return Failure(PropertyTypeError);
        }
        fields := fields[k := written.value];
      }
      i := i + 1;
    }
    return Success(WithProps(parsed, Props(parsed)["variants" := WithProps(v.value, fields)]));
  }

  // ---------------------------------------------------------------------
  // Sentinels
  // ---------------------------------------------------------------------

  function ErrorVariant(style: Style): ContentVariant {
    ContentVariant(style, "Error generating content.", "N/A", "Error", "N/A", [])
  }

  /** The viral result returned for every failure other than an abort. */
  function ViralSentinel(): ViralResult {
    ViralResult(
      0, "Analysis Failed", ScoreBreakdown(0, 0, 0),
      Variants(ErrorVariant(Horror), ErrorVariant(Humor), ErrorVariant(Historical)),
      Some(["AI Model Overload - Try Again"]))
  }

  function ErrorOption(kind: OptionKind): PostOption {
    PostOption("Error", "N/A", "N/A", [], kind)
  }

  /** The legacy result returned for every failure other than an abort. */
  function LegacySentinel(): LegacyResult {
    LegacyResult(
      Visuals("Error", [], []),
      Score(0, false, false, "Service Unavailable"),
      PostOptions(ErrorOption(Viral), ErrorOption(Niche)),
      CompetitorData("N/A", "N/A", "N/A"),
      Some(["Network Error"]))
  }

  function SentinelJson(mode: Mode): Json {
    match mode
    case ViralEngine => ViralJson(ViralSentinel())
    case Legacy => LegacyJson(LegacySentinel())
  }

  // ---------------------------------------------------------------------
  // One call
  // ---------------------------------------------------------------------

  /** The `try` block after the request was sent: `response` is the reply
      text, or None when the model call threw. */
  function Attempt(mode: Mode, abortedAfter: bool, response: Option<string>,
                   parse: string -> Option<Json>): Result<Json, Thrown>
  {
    match response
    case None => Failure(OtherError(TransportFailed))
    case Some(text) =>
      if abortedAfter then Failure(AbortError)
      else if text == "" then Failure(OtherError(EmptyResponse))
      else
        match parse(CleanJsonSpec(text))
        case None => Failure(OtherError(InvalidJson))
        case Some(parsed) =>
          match Validate(mode, parsed)
          case Failure(f) => Failure(OtherError(f))
          case Success(v) => Success(v)
  }

  /** The promise settles by rejecting with AbortError or by resolving to a value. */
  datatype Settled = Aborted | Returned(value: Json)

  /** The request sent to the model, if any, and how the call settled. */
  datatype Outcome = Outcome(sent: Option<Request>, settled: Settled)

  /** The whole call: `abortedBefore` and `abortedAfter` are the state of the
      signal at the two checkpoints. */
  function Analysis(c: Call, abortedBefore: bool, abortedAfter: bool, response: Option<string>,
                    parse: string -> Option<Json>): Outcome
  {
    var mode := ResolveMode(c).mode;
    if abortedBefore then Outcome(None, Aborted)
    else
      match Attempt(mode, abortedAfter, response, parse)
      case Success(v) => Outcome(Some(MakeRequest(c)), Returned(v))
      case Failure(AbortError) => Outcome(Some(MakeRequest(c)), Aborted)
      case Failure(OtherError(_)) => Outcome(Some(MakeRequest(c)), Returned(SentinelJson(mode)))
  }

  method AnalyzeMedia(c: Call, abortedBefore: bool, abortedAfter: bool, response: Option<string>,
                      parse: string -> Option<Json>) returns (out: Outcome)
    ensures out == Analysis(c, abortedBefore, abortedAfter, response, parse)
  {
    var mode := ResolveMode(c).mode;
    if abortedBefore {
      return Outcome(None, Aborted);
    }
    var request := MakeRequest(c);
    var attempt: Result<Json, Thrown>;
    if response.None? {
      attempt := Failure(OtherError(TransportFailed));
    } else if abortedAfter {
      attempt := Failure(AbortError);
    } else if response.value == "" {
      attempt := Failure(OtherError(EmptyResponse));
    } else {
      var text := Clean(response.value);
      var parsed := parse(text);
      if parsed.None? {
        attempt := Failure(OtherError(InvalidJson));
      } else {
        var checked: Result<Json, Fault>;
        if mode == ViralEngine {
          checked := ValidateViral(parsed.value);
        } else {
          checked := CheckLegacy(parsed.value);
        }
        assert checked == Validate(mode, parsed.value);
        attempt := if checked.Failure? then Failure(OtherError(checked.error)) else Success(checked.value);
      }
    }
    assert attempt == Attempt(mode, abortedAfter, response, parse);
    match attempt {
      case Success(v) => out := Outcome(Some(request), Returned(v));
      case Failure(AbortError) => out := Outcome(Some(request), Aborted);
      case Failure(OtherError(_)) => out := Outcome(Some(request), Returned(SentinelJson(mode)));
    }
  }

  // ---------------------------------------------------------------------
  // Properties of validation
  // ---------------------------------------------------------------------

  /** A variant slot the `forEach` can pass: reading `description` from it
      and writing into it both succeed. */
  predicate Backfillable(x: Option<Json>) {
    x.Some? && HasProps(x.value)
  }

  /** The intended effect on one variant: an object or array whose
      description is falsy gets the default one; anything else is left as
      it is. */
  function Backfilled(x: Json, k: string): Json {
    if HasProps(x) && !Truthy(Field(Props(x), "description"))
    then WithProps(x, Props(x)["description" := JString(DefaultDescription(k))])
    else x
  }

  /** The variants object after the whole `forEach` over distinct `keys`. */
  function BackfilledMap(m: map<string, Json>, keys: seq<string>): map<string, Json> {
    map f | f in m :: if f in keys then Backfilled(m[f], f) else m[f]
  }

  /** The parsed value is of the shape the viral branch accepts. */
  predicate ViralShaped(parsed: Json) {
    && "variants" in Props(parsed) && HasProps(Props(parsed)["variants"])
    && var vf := Props(Props(parsed)["variants"]);
       Backfillable(Field(vf, "horror")) && Backfillable(Field(vf, "humor")) && Backfillable(Field(vf, "historical"))
  }

  /** `parsed.variants` is present and `parsed.variants.horror` is truthy. */
  predicate HasHorror(parsed: Json) {
    && "variants" in Props(parsed) && HasProps(Props(parsed)["variants"])
    && Truthy(Field(Props(Props(parsed)["variants"]), "horror"))
  }

  lemma BackfillOneSpec(m: map<string, Json>, k: string)
    ensures BackfillOne(m, k).Success? <==> Backfillable(Field(m, k))
    ensures BackfillOne(m, k).Success? ==> BackfillOne(m, k).value == m[k := Backfilled(m[k], k)]
  {
    if Backfillable(Field(m, k)) && Truthy(GetProp(Field(m, k), "description").value) {
      assert m[k := m[k]] == m;
    }
  }

  /** After the first key is backfilled, the other keys see their slots unchanged. */
  lemma BackfillFirstKeepsRest(m: map<string, Json>, keys: seq<string>)
    requires |keys| > 0 && keys[0] in m
    requires forall i, j :: 0 <= i < j < |keys| ==> keys[i] != keys[j]
    ensures var m1 := m[keys[0] := Backfilled(m[keys[0]], keys[0])];
      forall i :: 1 <= i < |keys| ==> Field(m1, keys[i]) == Field(m, keys[i])
  {
  }

  /** Backfilling the first key, then the rest, is backfilling them all. */
  lemma BackfilledMapStep(m: map<string, Json>, keys: seq<string>)
    requires |keys| > 0 && keys[0] in m
    requires forall i, j :: 0 <= i < j < |keys| ==> keys[i] != keys[j]
    ensures BackfilledMap(m[keys[0] := Backfilled(m[keys[0]], keys[0])], keys[1..]) == BackfilledMap(m, keys)
  {
    var k, rest := keys[0], keys[1..];
    var m1 := m[k := Backfilled(m[k], k)];
    assert k !in rest by {
      forall i | 0 <= i < |rest| ensures rest[i] != k { assert rest[i] == keys[i + 1]; }
    }
    forall f | f in m ensures BackfilledMap(m1, rest)[f] == BackfilledMap(m, keys)[f] {
      assert f in keys <==> f == k || f in rest;
    }
    assert BackfilledMap(m1, rest).Keys == BackfilledMap(m, keys).Keys;
  }

  lemma {:induction false} BackfillAllSpec(m: map<string, Json>, keys: seq<string>)
    requires forall i, j :: 0 <= i < j < |keys| ==> keys[i] != keys[j]
    ensures BackfillAll(m, keys).Success? <==> forall i :: 0 <= i < |keys| ==> Backfillable(Field(m, keys[i]))
    ensures BackfillAll(m, keys).Success? ==> BackfillAll(m, keys).value == BackfilledMap(m, keys)
    decreases |keys|
  {
    if keys == [] {
      assert BackfilledMap(m, keys) == m;
    } else {
      var k := keys[0];
      var rest := keys[1..];
      BackfillOneSpec(m, k);
      if Backfillable(Field(m, k)) {
        var m1 := m[k := Backfilled(m[k], k)];
        assert BackfillAll(m, keys) == BackfillAll(m1, rest);
        BackfillAllSpec(m1, rest);
        BackfillFirstKeepsRest(m, keys);
        assert (forall i :: 0 <= i < |rest| ==> Backfillable(Field(m1, rest[i])))
           <==> (forall i :: 0 <= i < |keys| ==> Backfillable(Field(m, keys[i]))) by {
          forall i | 0 <= i < |rest| ensures Backfillable(Field(m1, rest[i])) == Backfillable(Field(m, keys[i + 1])) {
            assert rest[i] == keys[i + 1];
          }
        }
        BackfilledMapStep(m, keys);
      } else {
        assert BackfillAll(m, keys).Failure?;
      }
    }
  }

  lemma VariantKeysDistinct()
    ensures forall i, j :: 0 <= i < j < |VariantKeys| ==> VariantKeys[i] != VariantKeys[j]
  {
  }

  /** The viral branch accepts exactly the values of `ViralShaped`. */
  lemma CheckViralSucceedsIff(parsed: Json)
    ensures CheckViral(parsed).Success? <==> ViralShaped(parsed)
  {
    if "variants" in Props(parsed) && HasProps(Props(parsed)["variants"]) {
      var vf := Props(Props(parsed)["variants"]);
      VariantKeysDistinct();
      BackfillAllSpec(vf, VariantKeys);
      AllVariantsBackfillable(vf);
    }
  }

  /** The value an accepted one is returned as: the same value, its
      `variants` updated in place by the backfill. */
  function BackfilledValue(parsed: Json): Json
    requires ViralShaped(parsed)
  {
    var vin := Props(parsed)["variants"];
    WithProps(parsed, Props(parsed)["variants" := WithProps(vin, BackfilledMap(Props(vin), VariantKeys))])
  }

  /** An accepted value comes back with its variants backfilled. */
  lemma CheckViralValue(parsed: Json)
    requires CheckViral(parsed).Success?
    ensures ViralShaped(parsed)
    ensures CheckViral(parsed).value == BackfilledValue(parsed)
  {
    CheckViralSucceedsIff(parsed);
    var vf := Props(Props(parsed)["variants"]);
    VariantKeysDistinct();
    BackfillAllSpec(vf, VariantKeys);
  }

  /** The viral branch accepts exactly the values of `ViralShaped`, and then
      returns them with the variants backfilled and every other property kept. */
  lemma CheckViralAcceptsIff(parsed: Json)
    ensures CheckViral(parsed).Success? <==> ViralShaped(parsed)
    ensures CheckViral(parsed).Success? ==> CheckViral(parsed).value == BackfilledValue(parsed)
  {
    CheckViralSucceedsIff(parsed);
    if CheckViral(parsed).Success? {
      CheckViralValue(parsed);
    }
  }

  /** The `forEach` condition over the three keys, spelled out. */
  lemma AllVariantsBackfillable(vf: map<string, Json>)
    ensures (forall i :: 0 <= i < |VariantKeys| ==> Backfillable(Field(vf, VariantKeys[i])))
      <==> Backfillable(Field(vf, "horror")) && Backfillable(Field(vf, "humor")) && Backfillable(Field(vf, "historical"))
  {
    assert VariantKeys[0] == "horror" && VariantKeys[1] == "humor" && VariantKeys[2] == "historical";
  }

  /** Which error the viral branch raises: a TypeError for `null` and for a
      variant slot that cannot take a description; "Malformed Analysis Data"
      when `variants` or `variants.horror` is missing. */
  lemma CheckViralFaults(parsed: Json)
    ensures CheckViral(parsed) == Failure(MalformedData) <==> !parsed.JNull? && !HasHorror(parsed)
    ensures CheckViral(parsed) == Failure(PropertyTypeError) <==> parsed.JNull? || (HasHorror(parsed) && !ViralShaped(parsed))
  {
    CheckViralAcceptsIff(parsed);
  }

  /** One variant after backfill, object or array alike: its description is
      the old one when that is truthy and the default one otherwise; its
      other properties, and an array's elements, are kept. */
  lemma BackfilledSpec(x: Json, k: string)
    requires HasProps(x)
    ensures var y := Backfilled(x, k);
      && HasProps(y) && y.JObject? == x.JObject? && (x.JArray? ==> y.items == x.items)
      && Props(y).Keys == Props(x).Keys + {"description"}
      && (forall f :: f in Props(x) && f != "description" ==> Props(y)[f] == Props(x)[f])
      && Field(Props(y), "description")
           == (if Truthy(Field(Props(x), "description")) then Field(Props(x), "description")
               else Some(JString(DefaultDescription(k))))
      && Truthy(Field(Props(y), "description"))
  {
  }

  /** Each variant slot after backfill: a falsy description becomes the
      default one, anything else in the slot is untouched; the value and
      its variants keep their kind and every other property. */
  lemma CheckViralBackfills(parsed: Json, k: string)
    requires CheckViral(parsed).Success?
    requires k in VariantKeys
    ensures var r := CheckViral(parsed).value;
      && HasProps(parsed) && HasProps(r) && r.JObject? == parsed.JObject?
      && Props(r).Keys == Props(parsed).Keys
      && (forall f :: f in Props(parsed) && f != "variants" ==> Props(r)[f] == Props(parsed)[f])
      && var vin, vout := Props(parsed)["variants"], Props(r)["variants"];
         && HasProps(vin) && HasProps(vout) && vout.JObject? == vin.JObject?
         && Props(vout).Keys == Props(vin).Keys
         && (forall f :: f in Props(vin) && f !in VariantKeys ==> Props(vout)[f] == Props(vin)[f])
         && k in Props(vin) && Props(vout)[k] == Backfilled(Props(vin)[k], k)
         && Truthy(Field(Props(Props(vout)[k]), "description"))
  {
    CheckViralAcceptsIff(parsed);
    var vin := Props(parsed)["variants"];
    assert Backfillable(Field(Props(vin), k));
    BackfilledSpec(Props(vin)[k], k);
  }

  /** A `horror` variant that is an array without a description, as
      `JSON.parse` gives one, gets the default description written onto it;
      the array keeps its elements and other properties. */
  lemma ArrayVariantGetsDescription(parsed: Json, xs: seq<Json>, p: map<string, Json>)
    requires CheckViral(parsed).Success? && "variants" in Props(parsed)
    requires Field(Props(Props(parsed)["variants"]), "horror") == Some(JArray(xs, p))
    requires "description" !in p
    ensures Props(Props(CheckViral(parsed).value)["variants"])["horror"]
         == JArray(xs, p["description" := JString(DefaultDescription("horror"))])
  {
    CheckViralValue(parsed);
    var vin := Props(parsed)["variants"];
    var bf := BackfilledMap(Props(vin), VariantKeys);
    assert Props(Props(CheckViral(parsed).value)["variants"]) == bf;
    assert "horror" in VariantKeys;
    assert bf["horror"] == Backfilled(JArray(xs, p), "horror");
  }

  lemma BackfilledIdempotent(x: Json, k: string)
    ensures Backfilled(Backfilled(x, k), k) == Backfilled(x, k)
  {
    if HasProps(x) && !Truthy(Field(Props(x), "description")) {
      assert Field(Props(Backfilled(x, k)), "description") == Some(JString(DefaultDescription(k)));
    }
  }

  /** Backfilling the variants object twice is backfilling it once. */
  lemma BackfilledMapIdempotent(vf: map<string, Json>)
    ensures BackfilledMap(BackfilledMap(vf, VariantKeys), VariantKeys) == BackfilledMap(vf, VariantKeys)
  {
    var bf := BackfilledMap(vf, VariantKeys);
    forall f | f in bf ensures BackfilledMap(bf, VariantKeys)[f] == bf[f] {
      BackfilledIdempotent(vf[f], f);
    }
  }

  /** Backfilling keeps every variant slot that could take a description. */
  lemma BackfilledMapBackfillable(vf: map<string, Json>, k: string)
    requires k in VariantKeys && Backfillable(Field(vf, k))
    ensures Backfillable(Field(BackfilledMap(vf, VariantKeys), k))
  {
  }

  /** Validating an already validated value changes nothing. */
  lemma CheckViralIdempotent(parsed: Json)
    requires CheckViral(parsed).Success?
    ensures CheckViral(CheckViral(parsed).value) == Success(CheckViral(parsed).value)
  {
    CheckViralAcceptsIff(parsed);
    var r := CheckViral(parsed).value;
    var vin := Props(parsed)["variants"];
    var vf := Props(vin);
    var bf := BackfilledMap(vf, VariantKeys);
    var vout := WithProps(vin, bf);
    assert r == WithProps(parsed, Props(parsed)["variants" := vout]);
    assert Props(r)["variants"] == vout;
    BackfilledMapBackfillable(vf, "horror");
    BackfilledMapBackfillable(vf, "humor");
    BackfilledMapBackfillable(vf, "historical");
    assert ViralShaped(r);
    CheckViralAcceptsIff(r);
    BackfilledMapIdempotent(vf);
    WithPropsLaws(vin, bf, bf);
    assert WithProps(vout, BackfilledMap(bf, VariantKeys)) == vout;
    assert Props(r)["variants" := vout] == Props(r);
    WithPropsLaws(r, Props(r), Props(r));
  }

  /** The legacy branch accepts an object with truthy `options` and `score`
      and returns it unchanged, whatever else it holds; `null` is a TypeError. */
  lemma CheckLegacyAcceptsIff(parsed: Json)
    ensures CheckLegacy(parsed).Success? <==>
      HasProps(parsed) && Truthy(Field(Props(parsed), "options")) && Truthy(Field(Props(parsed), "score"))
    ensures CheckLegacy(parsed).Success? ==> CheckLegacy(parsed).value == parsed
    ensures CheckLegacy(parsed).Failure? ==>
      CheckLegacy(parsed).error == (if parsed.JNull? then PropertyTypeError else MalformedData)
  {
  }

  /** A variant of the viral sentinel already has a truthy description. */
  lemma ErrorVariantStable(style: Style, k: string)
    ensures Backfilled(VariantJson(ErrorVariant(style)), k) == VariantJson(ErrorVariant(style))
  {
    var f := VariantJson(ErrorVariant(style)).fields;
    assert Field(f, "description") == Some(JString("Error generating content."));
  }

  /** The variants object of the viral sentinel. */
  lemma ViralSentinelVariants()
    ensures var j := ViralJson(ViralSentinel());
      && ViralShaped(j)
      && BackfilledMap(Props(Props(j)["variants"]), VariantKeys) == Props(Props(j)["variants"])
  {
    var j := ViralJson(ViralSentinel());
    var vf := Props(Props(j)["variants"]);
    assert vf == map[
      "horror" := VariantJson(ErrorVariant(Horror)),
      "humor" := VariantJson(ErrorVariant(Humor)),
      "historical" := VariantJson(ErrorVariant(Historical))];
    ErrorVariantStable(Horror, "horror");
    ErrorVariantStable(Humor, "humor");
    ErrorVariantStable(Historical, "historical");
    assert BackfilledMap(vf, VariantKeys) == vf;
  }

  lemma ViralSentinelPasses()
    ensures CheckViral(ViralJson(ViralSentinel())) == Success(ViralJson(ViralSentinel()))
  {
    var j := ViralJson(ViralSentinel());
    ViralSentinelVariants();
    CheckViralAcceptsIff(j);
    var v := Props(j)["variants"];
    WithPropsLaws(v, Props(v), Props(v));
    assert Props(j)["variants" := v] == Props(j);
    WithPropsLaws(j, Props(j), Props(j));
  }

  lemma LegacySentinelPasses()
    ensures CheckLegacy(LegacyJson(LegacySentinel())) == Success(LegacyJson(LegacySentinel()))
  {
    var f := LegacyJson(LegacySentinel()).fields;
    assert "options" in f && f["options"].JObject?;
    assert "score" in f && f["score"].JObject?;
    CheckLegacyAcceptsIff(LegacyJson(LegacySentinel()));
  }

  /** Each sentinel passes the validation of its own mode unchanged. */
  lemma SentinelsPass(mode: Mode)
    ensures Validate(mode, SentinelJson(mode)) == Success(SentinelJson(mode))
  {
    ViralSentinelPasses();
    LegacySentinelPasses();
  }

  // ---------------------------------------------------------------------
  // Properties of one call
  // ---------------------------------------------------------------------

  /** A request is sent exactly when the signal was not aborted at the first
      checkpoint; the prompt is built then, from the resolved mode. */
  lemma NoRequestIffAbortedBefore(c: Call, abortedBefore: bool, abortedAfter: bool,
                                  response: Option<string>, parse: string -> Option<Json>)
    ensures var out := Analysis(c, abortedBefore, abortedAfter, response, parse);
      && (out.sent.None? <==> abortedBefore)
      && (abortedBefore ==> out.settled.Aborted?)
      && (!abortedBefore ==> out.sent == Some(MakeRequest(c)))
  {
  }

  /** The call rejects with AbortError exactly when the signal was aborted
      before the request, or after a reply came back; a transport failure
      reaches the `catch` first and yields the sentinel instead. */
  lemma AbortedIff(c: Call, abortedBefore: bool, abortedAfter: bool,
                   response: Option<string>, parse: string -> Option<Json>)
    ensures Analysis(c, abortedBefore, abortedAfter, response, parse).settled.Aborted?
        <==> abortedBefore || (response.Some? && abortedAfter)
  {
  }

  /** Every error other than an abort resolves to the sentinel of the mode:
      a transport failure, an empty reply, text `JSON.parse` rejects, or a
      value validation rejects. */
  lemma FailureYieldsSentinel(c: Call, abortedAfter: bool, response: Option<string>,
                              parse: string -> Option<Json>)
    requires response.None? || !abortedAfter
    requires || response.None?
             || response == Some("")
             || parse(CleanJsonSpec(response.value)).None?
             || Validate(ResolveMode(c).mode, parse(CleanJsonSpec(response.value)).value).Failure?
    ensures Analysis(c, false, abortedAfter, response, parse).settled == Returned(SentinelJson(ResolveMode(c).mode))
  {
  }

  /** A reply that survives extraction, parsing and validation is returned
      as validated. */
  lemma SuccessReturnsValidated(c: Call, text: string, parse: string -> Option<Json>)
    requires text != "" && parse(CleanJsonSpec(text)).Some?
    requires Validate(ResolveMode(c).mode, parse(CleanJsonSpec(text)).value).Success?
    ensures Analysis(c, false, false, Some(text), parse).settled
         == Returned(Validate(ResolveMode(c).mode, parse(CleanJsonSpec(text)).value).value)
  {
  }

  /** Whatever the call resolves to passes its own mode's validation
      unchanged; in viral mode it is therefore of the viral shape. */
  lemma ReturnedPassesCheck(c: Call, abortedBefore: bool, abortedAfter: bool,
                            response: Option<string>, parse: string -> Option<Json>)
    requires Analysis(c, abortedBefore, abortedAfter, response, parse).settled.Returned?
    ensures var mode, v := ResolveMode(c).mode, Analysis(c, abortedBefore, abortedAfter, response, parse).settled.value;
      && Validate(mode, v) == Success(v)
      && (mode == ViralEngine ==> ViralShaped(v))
  {
    var mode := ResolveMode(c).mode;
    var v := Analysis(c, abortedBefore, abortedAfter, response, parse).settled.value;
    if v == SentinelJson(mode) {
      SentinelsPass(mode);
    } else {
      var parsed := parse(CleanJsonSpec(response.value)).value;
      if mode == ViralEngine {
        CheckViralIdempotent(parsed);
      } else {
        CheckLegacyAcceptsIff(parsed);
      }
    }
    if mode == ViralEngine {
      CheckViralAcceptsIff(v);
    }
  }
}
