/** The records of types.ts and the constants of constants.ts, with the JSON
    image of the two analysis result shapes. */
module Types {
  import opened Common
  import opened Js

  /** The platform discriminator `'TikTok' | 'Instagram'`. */
  datatype Platform = TikTok | Instagram {
    function Name(): string {
      match this
      case TikTok => "TikTok"
      case Instagram => "Instagram"
    }
  }

  datatype ConnectedAccounts = ConnectedAccounts(tiktok: bool, instagram: bool)

  /** A brand profile. */
  datatype BrandSettings = BrandSettings(
    id: string,
    name: string,
    connectedAccounts: ConnectedAccounts,
    niche: string,
    personality: string,
    includeLinkInBio: bool)

  /** DEFAULT_PROFILE */
  const DefaultProfile := BrandSettings(
    "default", "Default Identity", ConnectedAccounts(false, false), "General", "Informative", false)

  // ---- Legacy analysis result (LyraAnalysisResult) ----

  datatype OptionKind = Viral | Niche {
    function Name(): string {
      match this
      case Viral => "Viral"
      case Niche => "Niche"
    }
  }

  datatype PostOption = PostOption(
    hookOverlay: string, caption: string, audio: string, hashtags: seq<string>, kind: OptionKind)

  datatype Visuals = Visuals(aesthetic: string, colors: seq<string>, objects: seq<string>)

  datatype Score = Score(total: int, isAestheticTrending: bool, isAudioRising: bool, breakdown: string)

  datatype PostOptions = PostOptions(viral: PostOption, niche: PostOption)

  datatype CompetitorData = CompetitorData(hook: string, topic: string, recommendation: string)

  datatype LegacyResult = LegacyResult(
    visuals: Visuals,
    score: Score,
    options: PostOptions,
    competitor: CompetitorData,
    warnings: Option<seq<string>>)

  // ---- Viral engine result (ViralResult) ----

  datatype Style = Horror | Humor | Historical {
    function Name(): string {
      match this
      case Horror => "Horror"
      case Humor => "Humor"
      case Historical => "Historical"
    }
  }

  datatype ContentVariant = ContentVariant(
    style: Style,
    description: string,
    hookOverlay: string,
    caption: string,
    audioRecommendation: string,
    hashtags: seq<string>)

  datatype ScoreBreakdown = ScoreBreakdown(quality: int, trendMatch: int, hookFactor: int)

  datatype Variants = Variants(horror: ContentVariant, humor: ContentVariant, historical: ContentVariant)

  datatype ViralResult = ViralResult(
    viralScore: int,
    detectedAesthetic: string,
    scoreBreakdown: ScoreBreakdown,
    variants: Variants,
    warnings: Option<seq<string>>)

  // ---- History (HistoryItem); `id` and `date` are kept as their string forms ----

  datatype HistoryItem = HistoryItem(
    id: string, date: string, platform: string, viralScore: int, mainAesthetic: string, songSelected: string)

  // ---- JSON images, with the property names the TypeScript interfaces use ----

  function WithWarnings(fields: map<string, Json>, warnings: Option<seq<string>>): map<string, Json> {
    match warnings
    case None => fields
    case Some(ws) => fields["warnings" := Strings(ws)]
  }

  function PostOptionJson(o: PostOption): Json {
    JObject(map[
      "hook_overlay" := JString(o.hookOverlay),
      "caption" := JString(o.caption),
      "audio" := JString(o.audio),
      "hashtags" := Strings(o.hashtags),
      "type" := JString(o.kind.Name())])
  }

  function LegacyJson(r: LegacyResult): Json {
    JObject(WithWarnings(map[
      "visuals" := JObject(map[
        "aesthetic" := JString(r.visuals.aesthetic),
        "colors" := Strings(r.visuals.colors),
        "objects" := Strings(r.visuals.objects)]),
      "score" := JObject(map[
        "total" := JNumber(r.score.total),
        "isAestheticTrending" := JBool(r.score.isAestheticTrending),
        "isAudioRising" := JBool(r.score.isAudioRising),
        "breakdown" := JString(r.score.breakdown)]),
      "options" := JObject(map[
        "viral" := PostOptionJson(r.options.viral),
        "niche" := PostOptionJson(r.options.niche)]),
      "competitor" := JObject(map[
        "hook" := JString(r.competitor.hook),
        "topic" := JString(r.competitor.topic),
        "recommendation" := JString(r.competitor.recommendation)])], r.warnings))
  }

  function VariantJson(v: ContentVariant): Json {
    JObject(map[
      "style" := JString(v.style.Name()),
      "description" := JString(v.description),
      "hook_overlay" := JString(v.hookOverlay),
      "caption" := JString(v.caption),
      "audio_recommendation" := JString(v.audioRecommendation),
      "hashtags" := Strings(v.hashtags)])
  }

  function ViralJson(r: ViralResult): Json {
    JObject(WithWarnings(map[
      "viralScore" := JNumber(r.viralScore),
      "detectedAesthetic" := JString(r.detectedAesthetic),
      "scoreBreakdown" := JObject(map[
        "quality" := JNumber(r.scoreBreakdown.quality),
        "trendMatch" := JNumber(r.scoreBreakdown.trendMatch),
        "hookFactor" := JNumber(r.scoreBreakdown.hookFactor)]),
      "variants" := JObject(map[
        "horror" := VariantJson(r.variants.horror),
        "humor" := VariantJson(r.variants.humor),
        "historical" := VariantJson(r.variants.historical)])], r.warnings))
  }
}
