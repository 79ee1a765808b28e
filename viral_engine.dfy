/** The viral engine screen: the call it makes to the analysis service, the
    text it copies for a post, the publish step and the bounded history it
    saves to local storage. */
module ViralEngine {
  import opened Common
  import opened Js
  import opened Types
  import opened Text
  import opened GeminiService

  // ---------------------------------------------------------------------
  // Music mood and the service call
  // ---------------------------------------------------------------------

  /** MUSIC_MOODS, in display order. */
  function MusicMoods(): seq<string> {
    ["Auto-Match", "Phonk/Dark", "High Energy/Gym", "Lo-Fi/Chill", "Cinematic/Epic",
     "Meme/Funny", "Suspense/Thriller", "Viral Pop", "Classical/Orchestral"]
  }

  const AutoMatch := "Auto-Match"

  /** The fifth argument of the call: "Auto-Match" becomes `undefined`. */
  function MoodArgument(mood: string): (r: Option<string>)
    ensures r.None? <==> mood == AutoMatch
    ensures r.Some? ==> r.value == mood
  {
    if mood == AutoMatch then None else Some(mood)
  }

  /** The call `handleAnalyze` makes: the platform string third, the brand
      settings fourth, the mapped mood fifth. */
  function EngineCall(base64Data: string, mimeType: string, platform: Platform, settings: BrandSettings, mood: string): Call {
    Call(base64Data, mimeType, PlatformArg(platform), Some(settings), MoodArgument(mood))
  }

  /** The service runs in viral-engine mode with the screen's platform,
      settings and mapped mood. */
  lemma EngineCallIsViral(base64Data: string, mimeType: string, platform: Platform, settings: BrandSettings, mood: string)
    ensures ResolveMode(EngineCall(base64Data, mimeType, platform, settings, mood))
      == Context(ViralEngine, Some(platform), Some(settings), MoodArgument(mood))
  {
  }

  /** For every mood of the picker, the prompt carries the music instruction
      exactly when the mood is not "Auto-Match", and the three vibe holes
      fall back to their defaults exactly then. */
  lemma MoodReachesPrompt(m: nat, base64Data: string, mimeType: string, platform: Platform, settings: BrandSettings)
    requires m < |MusicMoods()|
    ensures var mood := MusicMoods()[m];
      var p := BuildPrompt(mimeType, ResolveMode(EngineCall(base64Data, mimeType, platform, settings, mood)));
      && p.ViralPrompt?
      && (p.musicInstruction != "" <==> mood != AutoMatch)
      && (mood != AutoMatch ==> p.musicInstruction == MusicInstructionHead + mood + MusicInstructionTail)
      && p.horrorVibe == (if mood == AutoMatch then "Dark" else mood)
      && p.humorVibe == (if mood == AutoMatch then "Upbeat" else mood)
      && p.historicalVibe == (if mood == AutoMatch then "Classical" else mood)
  {
    var mood := MusicMoods()[m];
    assert mood != "";
    EngineCallIsViral(base64Data, mimeType, platform, settings, mood);
  }

  // ---------------------------------------------------------------------
  // Account check and publishing
  // ---------------------------------------------------------------------

  /** `isAccountConnected`: the flag of the selected platform. */
  function IsAccountConnected(settings: BrandSettings, platform: Platform): (connected: bool)
    ensures platform == TikTok ==> (connected <==> settings.connectedAccounts.tiktok)
    ensures platform == Instagram ==> (connected <==> settings.connectedAccounts.instagram)
  {
    match platform
    case TikTok => settings.connectedAccounts.tiktok
    case Instagram => settings.connectedAccounts.instagram
  }

  /** The page opened for an unlinked platform. */
  function PublishUrl(platform: Platform): (url: string)
    ensures url == "https://www.tiktok.com/upload" <==> platform == TikTok
    ensures url == "https://www.instagram.com/" <==> platform == Instagram
  {
    match platform
    case TikTok => "https://www.tiktok.com/upload"
    case Instagram => "https://www.instagram.com/"
  }

  /** The typed variant of a vibe. */
  function VariantOf(vs: Variants, vibe: Style): (v: ContentVariant)
    ensures vibe == Horror ==> v == vs.horror
    ensures vibe == Humor ==> v == vs.humor
    ensures vibe == Historical ==> v == vs.historical
  {
    match vibe
    case Horror => vs.horror
    case Humor => vs.humor
    case Historical => vs.historical
  }

  /** The key of a vibe under `variants`. */
  function VibeKey(vibe: Style): (k: string)
    ensures k in VariantKeys
    ensures k == "horror" <==> vibe == Horror
    ensures k == "humor" <==> vibe == Humor
    ensures k == "historical" <==> vibe == Historical
  {
    match vibe
    case Horror => "horror"
    case Humor => "humor"
    case Historical => "historical"
  }

  /** `result.variants[activeVibe]` on the stored result value: it throws
      exactly when `variants` is `undefined` or `null`. */
  function ContentOf(result: Json, vibe: Style): (r: Result<Option<Json>, JsError>)
    ensures r.Failure? <==> !("variants" in Props(result) && Props(result)["variants"] != JNull)
    ensures r.Success? ==> r.value == Field(Props(Props(result)["variants"]), VibeKey(vibe))
    ensures r.Success? && r.value.Some? ==> HasProps(Props(result)["variants"])
  {
    match GetProp(Some(result), "variants")
    case Failure(e) => Failure(e)
    case Success(vs) => GetProp(vs, VibeKey(vibe))
  }

  /** The typed post body: caption, a blank line, then the hashtags joined
      by spaces, or nothing when there are no hashtags. */
  function PostBody(caption: string, hashtags: Option<seq<string>>): string {
    caption + "\n\n" + (if hashtags.Some? then Join(hashtags.value, " ") else "")
  }

  /** `tags?.join(sep) ?? ""`: `undefined` and `null` give the empty
      string, an array its joined elements, and anything else throws
      because it has no `join` method (None). */
  function OptionalJoin(tags: Option<Json>, sep: string): (r: Option<string>)
    ensures r.None? <==> tags.Some? && !tags.value.JNull? && !tags.value.JArray?
    ensures tags.None? || tags == Some(JNull) ==> r == Some("")
    ensures tags.Some? && tags.value.JArray? ==> r == Some(JoinItems(tags.value.items, sep))
  {
    match tags
    case None => Some("")
    case Some(JNull) => Some("")
    case Some(JArray(xs, _)) => Some(JoinItems(xs, sep))
    case Some(_) => None
  }

  /** The `postBody` template on the variant value read from the result;
      None when building it throws. */
  function PostBodyOf(content: Option<Json>): (r: Option<string>)
    ensures r.None? <==> content.None? || content == Some(JNull) || OptionalJoin(Hashtags(content), " ").None?
  {
    match GetProp(content, "caption")
    case Failure(_) => None
    case Success(caption) =>
      match OptionalJoin(Hashtags(content), " ")
      case None => None
      case Some(tags) => Some(TemplateText(caption) + "\n\n" + tags)
  }

  /** `content.hashtags`, `undefined` when `content` has none to read. */
  function Hashtags(content: Option<Json>): Option<Json> {
    match GetProp(content, "hashtags")
    case Failure(_) => None
    case Success(h) => h
  }

  /** On a typed variant the template gives the typed post body. */
  lemma PostBodyOfVariant(v: ContentVariant)
    ensures PostBodyOf(Some(VariantJson(v))) == Some(PostBody(v.caption, Some(v.hashtags)))
  {
    JoinStrings(v.hashtags, " ");
  }

  /** A variant object without hashtags, or with `null` ones, gives the
      caption (or "undefined" without one) and a blank line. */
  lemma PostBodyOfMissingTags(fields: map<string, Json>)
    requires "hashtags" !in fields || fields["hashtags"] == JNull
    ensures PostBodyOf(Some(JObject(fields))) == Some(PostBody(TemplateText(Field(fields, "caption")), None))
    ensures "caption" !in fields ==> PostBodyOf(Some(JObject(fields))) == Some("undefined\n\n")
  {
    if "caption" !in fields {
      assert TemplateText(Field(fields, "caption")) == "undefined";
      assert PostBody("undefined", None) == "undefined" + "\n\n" + "";
      assert "undefined" + "\n\n" + "" == "undefined\n\n";
    }
  }

  /** The "copy all" text of a typed variant: hook, caption, audio and
      space-joined hashtags, separated by blank lines. */
  function CopyAll(v: ContentVariant): string {
    v.hookOverlay + "\n\n" + v.caption + "\n\n" + v.audioRecommendation + "\n\n" + Join(v.hashtags, " ")
  }

  /** The "copy all" template on the variant value read from the result;
      `hashtags.join` is called without `?.`, so anything but an array
      throws (None). */
  function CopyAllOf(content: Option<Json>): (r: Option<string>)
    ensures r.Some? <==> content.Some? && HasProps(content.value) && Hashtags(content).Some? && Hashtags(content).value.JArray?
  {
    match GetProp(content, "hook_overlay")
    case Failure(_) => None
    case Success(hook) =>
      match Hashtags(content)
      case Some(JArray(tags, _)) =>
        Some(TemplateText(hook) + "\n\n" + TemplateText(Field(Props(content.value), "caption")) + "\n\n"
          + TemplateText(Field(Props(content.value), "audio_recommendation")) + "\n\n" + JoinItems(tags, " "))
      case _ => None
  }

  /** On a typed variant the template gives the typed "copy all" text. */
  lemma CopyAllOfVariant(v: ContentVariant)
    ensures CopyAllOf(Some(VariantJson(v))) == Some(CopyAll(v))
  {
    JoinStrings(v.hashtags, " ");
  }

  const ClipboardDenied := "Clipboard access denied."

  function NotLinkedMessage(platform: Platform): string {
    platform.Name() + " not linked. Content copied to clipboard."
  }

  /** What one press of the publish button does: the text put on the
      clipboard, whether the upload animation starts, the page opened and
      the error message left on screen (None when the handler sets none). */
  datatype Publish = Publish(clipboard: string, uploading: bool, page: Option<string>, message: Option<string>)

  /** `handleSmartPublish` on the stored result (None while there is none);
      `clipboardFails` is whether the clipboard write is refused. Nothing
      happens (None) without a truthy result, or when reading the variant
      or building the post body throws. */
  function SmartPublish(result: Option<Json>, vibe: Style, settings: BrandSettings, platform: Platform, clipboardFails: bool): (r: Option<Publish>)
    ensures r.Some? <==> (Truthy(result) && ContentOf(result.value, vibe).Success?
                          && PostBodyOf(ContentOf(result.value, vibe).value).Some?)
    ensures r.Some? ==>
      && r.value.clipboard == PostBodyOf(ContentOf(result.value, vibe).value).value
      && (r.value.uploading <==> IsAccountConnected(settings, platform))
      && (r.value.page.Some? <==> !IsAccountConnected(settings, platform))
      && (r.value.page.Some? ==> r.value.page.value == PublishUrl(platform))
      && (!IsAccountConnected(settings, platform) ==> r.value.message == Some(NotLinkedMessage(platform)))
      && (IsAccountConnected(settings, platform) ==> r.value.message == if clipboardFails then Some(ClipboardDenied) else None)
  {
    if !Truthy(result) then None
    else match ContentOf(result.value, vibe)
      case Failure(_) => None
      case Success(content) =>
        match PostBodyOf(content)
        case None => None
        case Some(body) =>
          var copied := if clipboardFails then Some(ClipboardDenied) else None;
          if IsAccountConnected(settings, platform) then Some(Publish(body, true, None, copied))
          else Some(Publish(body, false, Some(PublishUrl(platform)), Some(NotLinkedMessage(platform))))
  }

  /** On a value of the shape the analysis returns in viral mode, the
      result is truthy and reading the selected variant does not throw and
      gives an object or array. */
  lemma ShapedContentReadable(result: Json, vibe: Style)
    requires ViralShaped(result)
    ensures Truthy(Some(result))
    ensures ContentOf(result, vibe).Success? && Backfillable(ContentOf(result, vibe).value)
  {
  }

  /** On a typed result, the variant read is the typed variant of the vibe,
      and publishing copies its typed post body. */
  lemma PublishTypedResult(res: ViralResult, vibe: Style, settings: BrandSettings, platform: Platform, clipboardFails: bool)
    ensures ContentOf(ViralJson(res), vibe) == Success(Some(VariantJson(VariantOf(res.variants, vibe))))
    ensures var r := SmartPublish(Some(ViralJson(res)), vibe, settings, platform, clipboardFails);
      var v := VariantOf(res.variants, vibe);
      r.Some? && r.value.clipboard == PostBody(v.caption, Some(v.hashtags))
  {
    var f := ViralJson(res).fields;
    assert "variants" in f && f["variants"] != JNull;
    PostBodyOfVariant(VariantOf(res.variants, vibe));
  }

  /** Two strings joined with a separator. */
  lemma JoinTwo(a: string, b: string, sep: string)
    ensures Join([a, b], sep) == a + sep + b
  {
    assert [a, b][1..] == [b];
  }

  /** Splitting the post body at the blank line gives back the caption and
      the hashtag line, when neither holds a line break; splitting the
      hashtag line at spaces gives back the hashtags, when none holds a
      space. */
  lemma PostBodySplits(caption: string, hashtags: seq<string>)
    requires '\n' !in caption && forall i :: 0 <= i < |hashtags| ==> '\n' !in hashtags[i]
    ensures Split(PostBody(caption, Some(hashtags)), "\n\n") == [caption, Join(hashtags, " ")]
    ensures |hashtags| > 0 && (forall i :: 0 <= i < |hashtags| ==> ' ' !in hashtags[i]) ==>
      Split(Join(hashtags, " "), " ") == hashtags
  {
    var tags := Join(hashtags, " ");
    JoinNoChar(hashtags, " ", '\n');
    JoinTwo(caption, tags, "\n\n");
    var parts := [caption, tags];
    forall i | 0 <= i < |parts| ensures "\n\n"[0] !in parts[i] {}
    SplitJoin(parts, "\n\n");
    if |hashtags| > 0 && (forall i :: 0 <= i < |hashtags| ==> ' ' !in hashtags[i]) {
      SplitJoin(hashtags, " ");
    }
  }

  /** Without hashtags the body is the caption and a blank line. */
  lemma PostBodyWithoutTags(caption: string)
    ensures PostBody(caption, None) == caption + "\n\n"
    ensures PostBody(caption, Some([])) == caption + "\n\n"
  {
  }

  /** A character absent from the parts and the separator is absent from the join. */
  lemma {:induction false} JoinNoChar(parts: seq<string>, sep: string, c: char)
    requires c !in sep && forall i :: 0 <= i < |parts| ==> c !in parts[i]
    ensures c !in Join(parts, sep)
    decreases |parts|
  {
    if |parts| > 1 {
      JoinNoChar(parts[1..], sep, c);
      assert Join(parts, sep) == parts[0] + sep + Join(parts[1..], sep);
    }
  }

  /** The "copy all" text is the four fields joined with blank lines, and
      splitting it at the blank lines gives them back when none holds a
      line break. */
  lemma CopyAllSplits(v: ContentVariant)
    requires '\n' !in v.hookOverlay && '\n' !in v.caption && '\n' !in v.audioRecommendation
    requires forall i :: 0 <= i < |v.hashtags| ==> '\n' !in v.hashtags[i]
    ensures Split(CopyAll(v), "\n\n") == [v.hookOverlay, v.caption, v.audioRecommendation, Join(v.hashtags, " ")]
  {
    var tags := Join(v.hashtags, " ");
    JoinNoChar(v.hashtags, " ", '\n');
    var parts := [v.hookOverlay, v.caption, v.audioRecommendation, tags];
    assert parts[1..] == [v.caption, v.audioRecommendation, tags];
    assert parts[1..][1..] == [v.audioRecommendation, tags];
    JoinTwo(v.audioRecommendation, tags, "\n\n");
    assert Join(parts, "\n\n") == CopyAll(v);
    forall i | 0 <= i < |parts| ensures "\n\n"[0] !in parts[i] {}
    SplitJoin(parts, "\n\n");
  }

  // ---------------------------------------------------------------------
  // The bounded history
  // ---------------------------------------------------------------------

  /** The history array once the new record is in: the oldest item is
      dropped first when more than 50 are stored. */
  function Capped<T>(h: seq<T>, x: T): seq<T> {
    (if |h| > 50 then h[1..] else h) + [x]
  }

  /** The parsed history array, changed in place by `shift` and `push`. */
  class BrainHistory {
    var items: seq<Json>

    constructor(items0: seq<Json>)
      ensures items == items0
    {
      items := items0;
    }

    /** `history.shift()`: drops the first item; an empty array stays empty. */
    method Shift()
      modifies this
      ensures items == if |old(items)| == 0 then [] else old(items)[1..]
    {
      if |items| > 0 {
        items := items[1..];
      }
    }

    /** `history.push(x)` */
    method Push(x: Json)
      modifies this
      ensures items == old(items) + [x]
    {
      items := items + [x];
    }

    /** The list operation of `handleSaveToBrain`. */
    method Save(x: Json)
      modifies this
      ensures items == Capped(old(items), x)
      ensures |old(items)| <= 51 ==> |items| <= 51
    {
      if |items| > 50 {
        Shift();
      }
      Push(x);
      CappedShape(old(items), x);
    }
  }

  /** A save keeps the length when more than 50 items are stored and adds
      one otherwise; the new item is last; the items before it are the
      newest of the old ones, in their order, so at most the oldest is lost. */
  lemma CappedShape<T>(h: seq<T>, x: T)
    ensures |Capped(h, x)| == if |h| > 50 then |h| else |h| + 1
    ensures Capped(h, x)[|Capped(h, x)| - 1] == x
    ensures Capped(h, x)[..|Capped(h, x)| - 1] == h[|h| + 1 - |Capped(h, x)|..]
    ensures |h| <= 51 ==> |Capped(h, x)| <= 51
  {
    var r := Capped(h, x);
    assert r[..|r| - 1] == (if |h| > 50 then h[1..] else h);
  }

  /** The cap is 51, not 50: a stored history of 50 grows to 51. */
  lemma FiftyGrowsToFiftyOne<T>(h: seq<T>, x: T)
    requires |h| == 50
    ensures |Capped(h, x)| == 51
  {
    CappedShape(h, x);
  }

  /** The saved record: the named own properties that `...result` copies,
      with `fileData`, `timestamp` and `platform` set, and no other field. */
  function SaveRecord(result: Json, thumbnail: string, timestamp: string, platform: Platform): (j: Json)
    ensures j.JObject?
    ensures j.fields.Keys == Props(result).Keys + {"fileData", "timestamp", "platform"}
    ensures j.fields["fileData"] == JString(thumbnail)
      && j.fields["timestamp"] == JString(timestamp)
      && j.fields["platform"] == JString(platform.Name())
    ensures forall k :: k in Props(result) && k !in {"fileData", "timestamp", "platform"} ==>
      j.fields[k] == Props(result)[k]
  {
    JObject(Props(result) + map[
      "fileData" := JString(thumbnail),
      "timestamp" := JString(timestamp),
      "platform" := JString(platform.Name())])
  }

  /** The stored history as read back: missing or empty storage is `[]`; a
      value that does not parse, or parses to something other than an
      array, makes the list operation throw (None). */
  function StoredHistory(stored: Option<string>, parse: string -> Option<Json>): Option<seq<Json>> {
    if stored.None? || stored.value == "" then Some([])
    else match parse(stored.value)
      case Some(JArray(items, _)) => Some(items)
      case _ => None
  }

  const StorageFull := "Storage full. Clear history in Brain tab."

  /** What a press of "save" leaves behind: nothing (no result or no file),
      the new stored history, or the storage error message. */
  datatype SaveOutcome = NotSaved | Saved(history: seq<Json>) | SaveFailed(message: string)

  /** `handleSaveToBrain` as a function of its inputs. `quotaExceeded` is
      whether `localStorage.setItem` throws. */
  function SaveSpec(result: Option<Json>, hasFile: bool, thumbnail: string, timestamp: string,
                    platform: Platform, stored: Option<string>, parse: string -> Option<Json>, quotaExceeded: bool): SaveOutcome
  {
    if !Truthy(result) || !hasFile then NotSaved
    else match StoredHistory(stored, parse)
      case None => SaveFailed(StorageFull)
      case Some(h) =>
        if quotaExceeded then SaveFailed(StorageFull)
        else Saved(Capped(h, SaveRecord(result.value, thumbnail, timestamp, platform)))
  }

  method SaveToBrain(result: Option<Json>, hasFile: bool, thumbnail: string, timestamp: string,
                     platform: Platform, stored: Option<string>, parse: string -> Option<Json>, quotaExceeded: bool)
    returns (o: SaveOutcome)
    ensures o == SaveSpec(result, hasFile, thumbnail, timestamp, platform, stored, parse, quotaExceeded)
  {
    if !Truthy(result) || !hasFile {
      return NotSaved;
    }
    var record := SaveRecord(result.value, thumbnail, timestamp, platform);
    var parsed := if stored.None? || stored.value == "" then Some(JArray([], map[])) else parse(stored.value);
    if !(parsed.Some? && parsed.value.JArray?) {
      return SaveFailed(StorageFull);
    }
    var history := new BrainHistory(parsed.value.items);
    history.Save(record);
    if quotaExceeded {
      return SaveFailed(StorageFull);
    }
    o := Saved(history.items);
  }

  /** A save succeeds exactly when there is a result and a file, the stored
      history reads back as an array and storage accepts it; then the record
      is last, carries the platform, and a history of at most 51 stays so. */
  lemma SaveSpecOutcome(result: Option<Json>, hasFile: bool, thumbnail: string, timestamp: string,
                        platform: Platform, stored: Option<string>, parse: string -> Option<Json>, quotaExceeded: bool)
    ensures var o := SaveSpec(result, hasFile, thumbnail, timestamp, platform, stored, parse, quotaExceeded);
      && (o.NotSaved? <==> !Truthy(result) || !hasFile)
      && (o.Saved? <==> Truthy(result) && hasFile && StoredHistory(stored, parse).Some? && !quotaExceeded)
      && (o.SaveFailed? ==> o.message == StorageFull)
      && (o.Saved? ==>
            var h := StoredHistory(stored, parse).value;
            && |o.history| > 0
            && o.history[|o.history| - 1] == SaveRecord(result.value, thumbnail, timestamp, platform)
            && o.history[|o.history| - 1].fields["platform"] == JString(platform.Name())
            && (|h| <= 51 ==> |o.history| <= 51))
  {
    if Truthy(result) && hasFile && StoredHistory(stored, parse).Some? && !quotaExceeded {
      CappedShape(StoredHistory(stored, parse).value, SaveRecord(result.value, thumbnail, timestamp, platform));
    }
  }

  /** A first save of a result object, with nothing stored, stores just the record. */
  lemma FirstSave(result: Json, thumbnail: string, timestamp: string, platform: Platform,
                  parse: string -> Option<Json>)
    requires result.JObject?
    ensures SaveSpec(Some(result), true, thumbnail, timestamp, platform, None, parse, false)
      == Saved([SaveRecord(result, thumbnail, timestamp, platform)])
  {
  }
}
