# Elia.PRO analysis core, modelled in Dafny

This project models the logic of the Elia.PRO content assistant: a React front end that sends a photo or video to a generative model and turns the reply into posting advice. The model covers four files of the repository:

- **`services/geminiService.ts` (`analyzeMedia`).**
  - **Mode.** The third argument selects the mode: a platform string means the viral engine, anything else the legacy analysis.
  - **Abort.** An abort signal is checked before the model call and again after it.
  - **Prompt.** The holes of each prompt template are filled, with their defaults.
  - **Reply text.** JSON is pulled out of the reply by `cleanJson`. That takes the capture of the last fenced block matched by `/```(?:json)?\s*(\{[\s\S]*?\})\s*```/g`. Failing that, it takes the text from the first `{` to the last `}`. Failing that, it takes the raw text.
  - **Validation.** The parsed value is validated per mode, and missing variant descriptions are backfilled.
  - **Sentinel.** Every failure other than an abort becomes the fixed sentinel result of its mode.
- **`App.tsx`.**
  - The brand profiles: the active-settings fallback chain, and update, create and delete on the profile list.
  - The check that rejects an "incomplete" legacy result. That check is the only caller of the legacy mode.
- **`components/TheBrain.tsx`.**
  - The top aesthetic: the highest average score, compared by integer cross-multiplication.
  - The five most frequent aesthetics.
  - The seven most recent items, the newest-first table and the colour band of a score.
- **`components/ViralEngine.tsx`.**
  - The call the screen makes: a platform string, and "Auto-Match" sent as no mood.
  - The connected-account flag and the upload page.
  - The post body and the "copy all" text.
  - The history saved to local storage, capped by `shift` and `push` on the parsed array.

## How the model is built

Each source file has its own module (`gemini_service.dfy`, `app.dfy`, `the_brain.dfy`, `viral_engine.dfy`). Supporting modules:

- `clean_json.dfy`: the reply-text scan.
- `js.dfy`: JSON values and the JavaScript rules for truthiness and property reads and writes.
- `text.dfy`: `\s`, `startsWith`, `join`, and a `split` used to state round trips.
- `types.dfy`: `types.ts`, `constants.ts`, and the JSON image of each result type.
- `common.dfy`: `Option`, `Result`.

Where the source works step by step, the model does too.

- **Loops with specifications.** The source's loops are methods with loop invariants, each proved equal to a specification function:
  - the regex scan and the two `indexOf` searches (`CleanJson.Clean`);
  - the in-place `forEach` that backfills descriptions (`GeminiService.ValidateViral`);
  - the counting loops and the arg-max loop of the analytics (`TheBrain.TopAesthetic`, `TheBrain.AestheticData`).
- **Properties.** What the source promises is proved about those specification functions as lemmas.
- **The saved history array** is a class whose `Shift` and `Push` methods change it in place (`ViralEngine.BrainHistory`).
- **Pure code stays pure.** The profile operations in `App.tsx` build new arrays with `map`, `filter` and spreads, so they are functions.

### Inputs outside the model

Things outside the program become inputs:

- The model's reply is `Option<string>`; `None` means the call threw.
- `JSON.parse` is a parameter `string -> Option<Json>`; `None` means a syntax error.
- The abort signal is two booleans: aborted before the call, and aborted when the reply arrives.
- The new profile's id, the timestamp, the thumbnail and the stored history string are parameters.
- Whether the clipboard or the storage quota fails is a boolean.

### Where the code and its description differ

The model follows the code in each of the cases below. The lines under "## Left out" name the inputs the model assumes away instead: aesthetics named after `Object.prototype` properties, and scores that are not whole numbers.

- **History cap.**
  - The comment in `handleSaveToBrain` speaks of the last 50 items.
  - The code shifts only when more than 50 are stored and then pushes, so the history settles at 51 items.
  - `ViralEngine.FiftyGrowsToFiftyOne` states this.
- **Deleting a profile.**
  - The delete guard counts profiles, not distinct ids.
  - A list of two profiles that share the deleted id is emptied, and the active id becomes "default".
  - `App.DuplicateIdsEmptyTheList` exhibits this.
  - With distinct ids, at least one profile always remains (`App.DeleteKeepsOneProfile`).
- **Legacy success values.** A legacy success is the parsed value itself, so it may carry any further fields. The only requirement is that `options` and `score` are truthy.
- **Late abort after a transport failure.** When the model call throws and the signal was aborted meanwhile, the second abort check is never reached: the result is the sentinel, not an AbortError.
- **The "Analysis Failed" check in `App.tsx`.**
  - This check compares the legacy `score.breakdown` with "Analysis Failed".
  - The legacy sentinel's breakdown is "Service Unavailable", so that comparison never matches the sentinel.
  - The sentinel is still caught by its aesthetic, "Error" (`App.LegacySentinelTripsCheck`).

## Model

| member | source | states |
|---|---|---|
| GeminiService.ResolveMode | services/geminiService.ts:23-26 | viral mode exactly when the third argument is a platform; then platform, settings and mood are arguments 3–5; in legacy mode platform and mood are undefined and the settings are the third argument when it is a settings object |
| GeminiService.OrElse | services/geminiService.ts:39 | `v \|\| d` on an optional string: the default exactly when the value is missing, empty or the default itself, otherwise the value |
| GeminiService.MusicInstruction | services/geminiService.ts:47 | the music line is non-empty exactly when the mood is truthy, and then embeds the mood |
| GeminiService.BuildPrompt | services/geminiService.ts:32-117 | the template matches the mode; VIDEO exactly for a `video/` MIME prefix; niche defaults to "General"; personality defaults to "Neutral" (viral) or "Analytical" (legacy); CTA is YES exactly when the link-in-bio flag is set, else NO; vibe holes default to Dark/Upbeat/Classical |
| GeminiService.PlatformText | services/geminiService.ts:38 | definition of `${platform}` in the viral template, "undefined" when there is no platform; its use is stated by `BuildPrompt` |
| GeminiService.NicheOf | services/geminiService.ts:39 | definition of `brandSettings?.niche`, undefined without settings; `BuildPrompt` states the "General" fallback in both templates |
| GeminiService.PersonalityOf | services/geminiService.ts:70 | definition of `brandSettings?.personality`, undefined without settings; `BuildPrompt` states the "Neutral" and "Analytical" fallbacks |
| GeminiService.FlagText | services/geminiService.ts:103 | definition of `${brandSettings?.includeLinkInBio}`: "true", "false", or "undefined" without settings; its use is stated by `BuildPrompt` |
| GeminiService.MakeRequest | services/geminiService.ts:119-133 | the request carries the media data, MIME type, the built prompt, model "gemini-2.5-flash", `googleSearch` as its only tool and thinking budget 16384 |
| GeminiService.ValidateViral | services/geminiService.ts:162-167 | the in-place backfill loop over the three variant keys computes the viral validation result, errors included |
| GeminiService.BackfillOne | services/geminiService.ts:165 | definition of one `forEach` iteration; its properties are stated by `BackfillOneSpec` |
| GeminiService.DefaultDescription | services/geminiService.ts:165 | definition of the text `A ${k} themed viral post.`; `BackfilledSpec` and `ArrayVariantGetsDescription` state where it is written |
| GeminiService.Backfillable | services/geminiService.ts:165 | definition of a variant slot whose `description` can be read and written, an object or an array; `BackfillOneSpec` and `BackfillAllSpec` state that backfill succeeds exactly on these |
| GeminiService.Backfilled | services/geminiService.ts:165 | definition of one variant's intended backfill; its properties are stated by `BackfilledSpec` and `BackfilledIdempotent` |
| GeminiService.BackfilledSpec | services/geminiService.ts:165 | an object or array variant keeps its kind, its elements and its other properties, and its description is the old one when truthy, the default one otherwise; it is truthy afterwards |
| GeminiService.BackfillOneSpec | services/geminiService.ts:165 | one backfill step succeeds exactly when the variant is an object or array, and then replaces only that variant by its backfilled form, the description written onto an array included |
| GeminiService.BackfillAll | services/geminiService.ts:164-166 | definition of the whole `forEach`, stopping at the first error; its properties are stated by `BackfillAllSpec` |
| GeminiService.BackfilledMap | services/geminiService.ts:164-166 | definition of the variants after the intended backfill; its properties are stated by `BackfillAllSpec` and `BackfilledMapIdempotent` |
| GeminiService.BackfillAllSpec | services/geminiService.ts:164-166 | the whole `forEach` over distinct keys succeeds exactly when every keyed variant, object or array, can be written, and then yields every keyed variant backfilled and every other property unchanged |
| GeminiService.BackfillFirstKeepsRest | services/geminiService.ts:164-165 | with distinct keys, backfilling the first key leaves the slots of the other keys as they were |
| GeminiService.BackfilledMapStep | services/geminiService.ts:164-166 | backfilling the first key and then the remaining keys is the same as backfilling all of them |
| GeminiService.VariantKeysDistinct | services/geminiService.ts:164 | the three keys of the `forEach` (`VariantKeys`: horror, humor, historical) are distinct |
| GeminiService.AllVariantsBackfillable | services/geminiService.ts:164-165 | the condition taken over the key list is the same condition on horror, humor and historical by name |
| GeminiService.BackfilledMapBackfillable | services/geminiService.ts:164-166 | a variant slot that could be backfilled still can after the whole backfill |
| GeminiService.CheckViral | services/geminiService.ts:162-167 | definition of the viral branch of validation; its properties are stated by `CheckViralAcceptsIff`, `CheckViralFaults`, `CheckViralBackfills` and `CheckViralIdempotent` |
| GeminiService.ViralShaped | services/geminiService.ts:163-165 | definition of the values the viral branch accepts; `CheckViralAcceptsIff` proves it is exactly those |
| GeminiService.HasHorror | services/geminiService.ts:163 | definition of passing the guard: `variants` is present and its `horror` entry is truthy; `CheckViralFaults` states that failing it on a non-null value is the "Malformed Analysis Data" error |
| GeminiService.BackfilledValue | services/geminiService.ts:162-167 | definition of the value returned for an accepted one; `CheckViralAcceptsIff` proves the check returns it |
| GeminiService.CheckViralAcceptsIff | services/geminiService.ts:163-167 | the viral check succeeds exactly when `variants` is an object or array whose horror, humor and historical entries can all be written; the result is the parsed value with its variants backfilled in place, a description written onto an array variant included |
| GeminiService.CheckViralSucceedsIff | services/geminiService.ts:162-167 | the viral check succeeds exactly on the values of `ViralShaped` |
| GeminiService.CheckViralValue | services/geminiService.ts:162-167 | an accepted value is of the accepted shape and comes back as its backfilled form, `BackfilledValue` |
| GeminiService.CheckViralFaults | services/geminiService.ts:163-165 | a missing or falsy `variants` or `horror` is the "Malformed Analysis Data" error; a null value or a missing humor/historical object is a TypeError |
| GeminiService.CheckViralBackfills | services/geminiService.ts:164-167 | on success the result and its variants keep their kind and their keys; non-variant properties are unchanged; each variant, object or array, is backfilled, so its description is truthy |
| GeminiService.ArrayVariantGetsDescription | services/geminiService.ts:163-165 | a `horror` array without a description passes, and the default description is written onto it and kept, with the array's elements |
| GeminiService.BackfilledIdempotent | services/geminiService.ts:165 | backfilling a variant twice is the same as once |
| GeminiService.BackfilledMapIdempotent | services/geminiService.ts:164-166 | backfilling the variants object twice is the same as once |
| GeminiService.CheckViralIdempotent | services/geminiService.ts:162-167 | a value the viral check accepted passes it again unchanged |
| GeminiService.CheckLegacy | services/geminiService.ts:169-170 | definition of the legacy branch of validation; its properties are stated by `CheckLegacyAcceptsIff` |
| GeminiService.CheckLegacyAcceptsIff | services/geminiService.ts:169-170 | the legacy check succeeds exactly when `options` and `score` are truthy own properties of an object or array, returning the value unchanged; a null value is a TypeError, every other failure "Malformed Analysis Data" |
| GeminiService.Validate | services/geminiService.ts:162-171 | definition of the per-mode validation: the viral check in viral mode, the legacy check otherwise; its properties are stated by `CheckViralAcceptsIff`, `CheckLegacyAcceptsIff`, `SentinelsPass` and `ReturnedPassesCheck` |
| GeminiService.ErrorVariant | services/geminiService.ts:184-186 | definition of a sentinel variant: description "Error generating content.", hook and audio "N/A", caption "Error", no hashtags; `ErrorVariantStable` states that backfill leaves it alone |
| GeminiService.ViralSentinel | services/geminiService.ts:179-189 | definition of the viral fallback result: score 0, aesthetic "Analysis Failed", three error variants and the warning "AI Model Overload - Try Again"; its properties are stated by `ViralSentinelVariants` and `ViralSentinelPasses` |
| GeminiService.ErrorOption | services/geminiService.ts:195-196 | definition of a sentinel post option: hook "Error", caption and audio "N/A", no hashtags, of the given type; `LegacySentinelPasses` states the result holding it passes |
| GeminiService.LegacySentinel | services/geminiService.ts:191-200 | definition of the legacy fallback result: aesthetic "Error", breakdown "Service Unavailable", the warning "Network Error"; its properties are stated by `LegacySentinelPasses` and `App.LegacySentinelTripsCheck` |
| GeminiService.SentinelJson | services/geminiService.ts:178-200 | definition of the mode's sentinel as the JSON value returned; its properties are stated by `SentinelsPass`, `FailureYieldsSentinel` and `App.AppNeverShowsSentinel` |
| GeminiService.ErrorVariantStable | services/geminiService.ts:184-186 | a sentinel variant already has a truthy description, so backfill leaves it alone |
| GeminiService.ViralSentinelVariants | services/geminiService.ts:178-189 | the viral sentinel has the shape the viral check accepts, and backfill does not change its variants |
| GeminiService.ViralSentinelPasses | services/geminiService.ts:178-189 | the viral sentinel passes the viral check unchanged |
| GeminiService.LegacySentinelPasses | services/geminiService.ts:191-200 | the legacy sentinel passes the legacy check unchanged |
| GeminiService.SentinelsPass | services/geminiService.ts:173-200 | in both modes the sentinel passes its own mode's validation unchanged |
| GeminiService.AnalyzeMedia | services/geminiService.ts:14-202 | the method that checks the first abort, sends the request, checks the second abort, cleans, parses and validates computes the specified outcome |
| GeminiService.Attempt | services/geminiService.ts:134-175 | definition of the `try` block after the request and of what reaches the `catch`; its properties are stated by `FailureYieldsSentinel` and `SuccessReturnsValidated` |
| GeminiService.Analysis | services/geminiService.ts:28-202 | definition of a whole call; its properties are stated by `NoRequestIffAbortedBefore`, `AbortedIff`, `FailureYieldsSentinel`, `SuccessReturnsValidated` and `ReturnedPassesCheck` |
| GeminiService.NoRequestIffAbortedBefore | services/geminiService.ts:28-30 | no request is sent exactly when the signal is aborted before the call, and that call ends in AbortError; otherwise the request sent is the built one |
| GeminiService.AbortedIff | services/geminiService.ts:135-174 | the call ends in AbortError exactly when aborted before it, or aborted when a reply arrived; the catch rethrows it instead of returning a sentinel |
| GeminiService.FailureYieldsSentinel | services/geminiService.ts:140-200 | a transport failure, an empty reply, a parse error or failed validation (with no late abort) returns the mode's sentinel |
| GeminiService.SuccessReturnsValidated | services/geminiService.ts:139-171 | a non-empty reply that parses and validates returns the validated value |
| GeminiService.ReturnedPassesCheck | services/geminiService.ts:160-200 | whatever value is returned passes the validation of its mode; in viral mode it has all three variants, each an object or an array |
| CleanJson.SkipSpaces | services/geminiService.ts:144 | greedy `\s*`: every skipped character is whitespace and the one after is not |
| CleanJson.FenceAt | services/geminiService.ts:144 | definition of a fence "```" (`Fence`) at an index, the two fences of the regex; `OpenAt`, `CloseFrom` and `BodyCloses` state how the match uses it |
| CleanJson.JsonTagAt | services/geminiService.ts:144 | definition of the optional `json` tag at an index; `BlockMatches` states that a block matches with the tag and without it |
| CleanJson.BraceAfter | services/geminiService.ts:144 | `\s*\{` from an index: a brace found lies at or after that index and holds `{` |
| CleanJson.OpenAt | services/geminiService.ts:144 | an opening match starts with a fence and points to a `{` after it |
| CleanJson.CloseFrom | services/geminiService.ts:144 | the lazy capture ends at a `}` followed by whitespace and a closing fence |
| CleanJson.MatchAt | services/geminiService.ts:144 | a match at `i` starts with a fence and captures text from a `{` to a `}` |
| CleanJson.LastMatchFrom | services/geminiService.ts:144-148 | definition of the global scan that steps over each match and keeps the latest; `LastMatchFromMatches` proves that it ends with the last element of the `matchAll` list |
| CleanJson.Braced | services/geminiService.ts:144 | definition of a match whose capture lies inside the string and runs from a `{` to a `}`; `MatchBounds`, `LastOfMatchesBraced` and `LastFencedBlockShape` state that matches have it |
| CleanJson.MatchBounds | services/geminiService.ts:144-148 | every match the scan keeps lies inside the string and runs from a `{` to a `}` |
| CleanJson.ScansHit | services/geminiService.ts:144-145 | where a match starts, the `matchAll` list begins with it and goes on from its end, and the scan jumps to its end keeping it |
| CleanJson.ScansMiss | services/geminiService.ts:144-145 | where no match starts, both the `matchAll` list and the scan move on by one position |
| CleanJson.ScanSkips | services/geminiService.ts:144-145 | text whose characters are not backticks starts no match, so the scan passes over it unchanged |
| CleanJson.PlainStep | services/geminiService.ts:144-145 | a slice holding no backtick leaves the scan's outcome unchanged when the scan starts after it |
| CleanJson.CloseFromSkips | services/geminiService.ts:144 | the lazy capture passes over every `}` that no whitespace-and-fence follows |
| CleanJson.MatchOfParts | services/geminiService.ts:144 | a match is an opening that reaches a `{`, followed by a closing found after that brace |
| CleanJson.Substring | services/geminiService.ts:155 | `substring(a, b)` is the slice between the bounds, swapped when `b < a` |
| CleanJson.IndexOfChar | services/geminiService.ts:152 | `indexOf`: -1 or an index holding the character, with no earlier occurrence |
| CleanJson.IndexFrom | services/geminiService.ts:152 | the first index at or after a start holding the character, with none before it; -1 when no such index exists |
| CleanJson.LastIndexOfChar | services/geminiService.ts:153 | `lastIndexOf`: -1 or an index holding the character, with no later occurrence |
| CleanJson.LastBelow | services/geminiService.ts:153 | the last index below a bound holding the character, with none between it and the bound; -1 when no such index exists |
| CleanJson.SkipSpacesFrom | services/geminiService.ts:144 | the whitespace-skipping loop computes `\s*` |
| CleanJson.OpenAtIndex | services/geminiService.ts:144 | the loop for the opening part of the regex computes it |
| CleanJson.CloseFromIndex | services/geminiService.ts:144 | the lazy-capture loop computes the closing part of the regex |
| CleanJson.MatchAtIndex | services/geminiService.ts:144 | the loop for one match attempt computes the regex's match at that index |
| CleanJson.FindLastBlock | services/geminiService.ts:144-149 | the global scan computes the capture of the last match |
| CleanJson.IndexOf | services/geminiService.ts:152 | the search loop computes `indexOf` |
| CleanJson.LastIndexOf | services/geminiService.ts:153 | the backward search loop computes `lastIndexOf` |
| CleanJson.Clean | services/geminiService.ts:142-158 | the whole cleaner computes its specification: the last fenced block, else the brace slice, else the input |
| CleanJson.CleanJsonSpec | services/geminiService.ts:142-158 | definition of `cleanJson`; `Clean` computes it, and its cases are stated by `LastFencedBlockIsLastMatch` and `BraceFallbackSpec` |
| CleanJson.Matches | services/geminiService.ts:144-145 | definition of the `matchAll` list; its properties are stated by `MatchesAreMatches`, `MatchesInOrder`, `NoMatchBeforeFirst`, `NoMatchBetween`, `NoMatchAfterLast` and `MatchesNoneIff` |
| CleanJson.LastFencedBlock | services/geminiService.ts:145-148 | definition of the last match's capture; its properties are stated by `LastFencedBlockIsLastMatch`, `LastFencedBlockExists` and `LastFencedBlockShape` |
| CleanJson.MatchesAreMatches | services/geminiService.ts:144-145 | every element of the `matchAll` list is the regex's match at its own start, at or after where the scan began |
| CleanJson.MatchesInOrder | services/geminiService.ts:144-145 | each listed match ends at or before the next one starts, so the matches do not overlap |
| CleanJson.NoMatchBeforeFirst | services/geminiService.ts:144-145 | no match starts before the first listed match, nor anywhere when the list is empty |
| CleanJson.NoMatchBetween | services/geminiService.ts:144-145 | no match starts between the end of one listed match and the start of the next |
| CleanJson.NoMatchAfterLast | services/geminiService.ts:144-145 | no match starts after the end of the last listed match |
| CleanJson.NoMatchIn | services/geminiService.ts:144-145 | definition of "no match starts in [a, b)", position by position; `NoMatchInMeans` states what it means |
| CleanJson.NoMatchInMeans | services/geminiService.ts:144-145 | the position-by-position "no match in the range" means that no position of the range starts a match |
| CleanJson.MatchesNoneIff | services/geminiService.ts:144-147 | the `matchAll` list is empty exactly when no position starts a match |
| CleanJson.LastMatchFromMatches | services/geminiService.ts:145-148 | the left-to-right scan that keeps the latest match ends with the last element of the `matchAll` list |
| CleanJson.LastFencedBlockIsLastMatch | services/geminiService.ts:145-148 | the block chosen is the capture of the last element of the `matchAll` list; there is none exactly when the list is empty |
| CleanJson.LastFencedBlockExists | services/geminiService.ts:147 | a fenced block is found exactly when the regex matches somewhere |
| CleanJson.LastFencedBlockShape | services/geminiService.ts:144-148 | the block found starts with `{` and ends with `}` |
| CleanJson.LastOfMatchesBraced | services/geminiService.ts:145-148 | the last element of the `matchAll` list runs from a `{` to a `}` inside the string |
| CleanJson.BraceFallbackSpec | services/geminiService.ts:151-157 | with no match: a missing brace gives the input unchanged; first `{` before last `}` gives the inclusive slice from one to the other; last `}` before first `{` gives the swapped slice, which holds no brace |
| CleanJson.NoBacktickNoBlock | services/geminiService.ts:144-151 | text without a backtick has no fenced block, so the fallback applies |
| CleanJson.EmbeddedObject | services/geminiService.ts:151-156 | an object surrounded by text with no braces or backticks is extracted exactly |
| CleanJson.Block | services/geminiService.ts:144 | definition of a fenced block: a fence, an optional `json` tag, `{`, a body, `}` and a fence; its properties are stated by `BlockMatches`, `SingleBlock` and `LastOfTwoBlocks` |
| CleanJson.NoEarlyClose | services/geminiService.ts:144 | definition of a body in which no `}` is followed by whitespace and a fence; `BodyCloses` and `BlockMatches` state that the lazy capture then runs to the block's own `}` |
| CleanJson.BlockOpens | services/geminiService.ts:144 | the opening part of the regex matches a block at its start and points to the block's `{` |
| CleanJson.BlockChars | services/geminiService.ts:144 | a block's characters, position by position: the fence, the tag, `{`, the body, `}` and the closing fence |
| CleanJson.BlockCloses | services/geminiService.ts:144 | the lazy closing part stops at the block's `}` and ends after its closing fence |
| CleanJson.CloseAtBrace | services/geminiService.ts:144 | the lazy capture stops at the first `}` that whitespace and a fence follow, and ends after that fence |
| CleanJson.SkipSpacesIn | services/geminiService.ts:144 | `\s*` inside a body embedded in a longer string skips as it does in the body alone |
| CleanJson.FenceIn | services/geminiService.ts:144 | a fence starts at a position of an embedded body exactly when it starts there in the body alone |
| CleanJson.BodyHasNoClose | services/geminiService.ts:144 | a body with no early close, embedded in a longer string, has no `}` there that whitespace and a fence follow |
| CleanJson.BlockBody | services/geminiService.ts:144 | a block's body lies between its `{` and a `}` that the closing fence follows |
| CleanJson.BlockCapture | services/geminiService.ts:144 | the characters between a block's tag and its closing fence are its braces and body |
| CleanJson.BlockStep | services/geminiService.ts:144-145 | the scan steps over a whole block in one match whose capture is the block's braces and body |
| CleanJson.BlockMatches | services/geminiService.ts:144 | a fenced block, tagged `json` or not, is a regex match at its start, with the capture and end given, when its body holds no `}` that optional whitespace and a fence follow |
| CleanJson.BodyCloses | services/geminiService.ts:144 | the lazy capture runs over every `}` of the body that no fence follows, and stops at the `}` the closing fence follows |
| CleanJson.LastOfTwoBlocks | services/geminiService.ts:143-148 | of a draft block followed by an answer block, with no backtick elsewhere and no `}` in either body that whitespace and a fence follow, the cleaner returns the answer |
| CleanJson.ScanChain | services/geminiService.ts:143-148 | a scan that passes prose, a match, prose, a match and prose ends with the second match |
| CleanJson.CleanOfLastMatch | services/geminiService.ts:142-148 | when the scan ends with a match, `cleanJson` returns that match's capture |
| CleanJson.SingleBlock | services/geminiService.ts:144-148 | a reply that is one fenced block gives back its braces and body |
| CleanJson.NestedObjectBlock | services/geminiService.ts:144-148 | a block holding a nested object is returned whole, the inner `}` included |
| Js.Props | components/ViralEngine.tsx:214-215 | definition of the named own properties of an object or array, which `...result` copies; primitives have none |
| Js.Truthy | services/geminiService.ts:163 | definition of the truthiness `!x` tests on a possibly undefined value: undefined, null, false, 0 and "" are falsy, objects and arrays truthy; its uses are stated by `CheckViralFaults`, `CheckLegacyAcceptsIff`, `BackfilledSpec` and `ViralEngine.SmartPublish` |
| Js.Field | services/geminiService.ts:163 | definition of an own property read, undefined when the key is absent; `GetProp` states how property reads use it |
| Js.HasProps | services/geminiService.ts:165 | definition of the values that carry named properties, objects and arrays; `GetProp` and `SetProp` state that reads find and writes succeed only on them |
| Js.WithProps | services/geminiService.ts:165 | replacing the named properties keeps an array's elements and the kind of value, and the new properties are read back |
| Js.WithPropsLaws | services/geminiService.ts:165 | replacing the properties by the value's own changes nothing, and a second replacement overrides the first |
| Js.GetProp | services/geminiService.ts:163 | reading a property throws exactly on undefined or null; a value found is an own property of an object or array; an object yields its field; a primitive yields undefined |
| Js.SetProp | services/geminiService.ts:165 | writing a property succeeds exactly on an object or array; afterwards the property reads back as the value written, every other property reads as before, and an array keeps its elements |
| Js.TemplateText | components/ViralEngine.tsx:188 | `${v}` renders a string as itself and `undefined` as "undefined" |
| Js.JoinStrings | components/ViralEngine.tsx:188 | `join` on a JSON array of strings is joining the strings |
| Js.Strings | types.ts:6 | a `string[]` as a JSON array has one element per string and no named properties |
| Js.DigitsText | components/ViralEngine.tsx:188 | the decimal rendering of a whole number is non-empty and made of digits |
| Js.ToText | components/ViralEngine.tsx:188 | definition of `${v}` for each kind of value: an array joins its rendered elements with commas, an object is "[object Object]"; `TemplateText` states the string and undefined cases |
| Js.ItemText | components/ViralEngine.tsx:188 | definition of an array element as `join` renders it, with null as ""; `JoinStrings` states the case of strings |
| Js.JoinItems | components/ViralEngine.tsx:188 | definition of `xs.join(sep)` on JSON elements; its properties are stated by `JoinStrings` and `ViralEngine.OptionalJoin` |
| Text.SplitJoin | components/ViralEngine.tsx:188 | splitting a join by its separator gives the parts back, when the separator's first character does not occur in them |
| Text.IsSpace | services/geminiService.ts:144 | definition of the characters `\s` matches, JavaScript's white space and line terminators; `CleanJson.SkipSpaces` states that `\s*` skips exactly these |
| Text.StartsWith | services/geminiService.ts:32 | definition of `startsWith`; `GeminiService.BuildPrompt` states that the template says VIDEO exactly for a `video/` prefix |
| Text.Join | components/ViralEngine.tsx:188 | definition of `parts.join(sep)`; its properties are stated by `SplitJoin`, `Js.JoinStrings` and `ViralEngine.JoinNoChar` |
| Text.FindFrom | components/ViralEngine.tsx:188 | the first occurrence of the separator at or after a start, with none between the start and it |
| Text.OccursAt | components/ViralEngine.tsx:188 | definition of an occurrence of a separator at an index; `FindFrom` states the first one |
| Text.NotOccursAt | components/ViralEngine.tsx:188 | an occurrence starts with the separator's first character |
| Text.Split | components/ViralEngine.tsx:188 | splitting by a separator gives at least one part; `SplitJoin` states that it undoes `join` |
| Text.NoOccurrenceWithoutFirstChar | components/ViralEngine.tsx:188 | a string that lacks the separator's first character contains no occurrence of the separator |
| Types.Platform.Name | services/geminiService.ts:13 | definition of the platform strings 'TikTok' and 'Instagram', as the viral prompt and the "not linked" message render them |
| Types.OptionKind.Name | types.ts:7 | definition of the post option types 'Viral' and 'Niche' |
| Types.Style.Name | types.ts:57 | definition of the variant styles 'Horror', 'Humor' and 'Historical' |
| Types.WithWarnings | types.ts:33 | definition of the optional `warnings` field: absent when there are none, otherwise an array of strings |
| Types.PostOptionJson | types.ts:2-8 | definition of a `PostOption` as the JSON object the service returns; `GeminiService.LegacySentinelPasses` states that the sentinel built from it passes |
| Types.LegacyJson | types.ts:16-34 | definition of a `LyraAnalysisResult` as a JSON object; `GeminiService.LegacySentinelPasses` and `App.LegacySentinelTripsCheck` state what the checks make of the sentinel |
| Types.VariantJson | types.ts:56-63 | definition of a `ContentVariant` as a JSON object; its uses are stated by `GeminiService.ErrorVariantStable`, `ViralEngine.PostBodyOfVariant` and `ViralEngine.CopyAllOfVariant` |
| Types.ViralJson | types.ts:65-79 | definition of a `ViralResult` as a JSON object; its uses are stated by `GeminiService.ViralSentinelPasses` and `ViralEngine.PublishTypedResult` |
| App.FindIndex | App.tsx:35 | `find`: the index of the first profile with the id, or none when no profile has it |
| App.FindProfile | App.tsx:35 | definition of `profiles.find(p => p.id === activeProfileId)`, the profile at `FindIndex`; `RemoveKeepsFirst` states that deleting another id keeps it |
| App.FindIndexSameIds | App.tsx:35-46 | two lists that hold the same ids position by position are searched alike |
| App.ActiveSettings | App.tsx:35 | the profile with the active id, else the first profile, else the default profile |
| App.HandleUpdateProfile | App.tsx:45-47 | definition of `handleUpdateProfile`; its properties are stated by `UpdateKeepsIds`, `UpdateThenActive` and `UpdateIdempotent` |
| App.UpdateProfile | App.tsx:46 | same length; exactly the profiles with the updated id are replaced; the others are untouched |
| App.UpdateKeepsIds | App.tsx:46 | the update keeps every id in its place, so a search by id finds the same index |
| App.UpdateThenActive | App.tsx:35-46 | updating the active profile makes it the active settings; updating another leaves the active settings unchanged |
| App.UpdateIdempotent | App.tsx:46 | applying an update twice equals applying it once |
| App.NewProfile | App.tsx:51 | definition of `{ ...DEFAULT_PROFILE, id: newId, name: 'New Brand Identity' }` over `Types.DefaultProfile`; `CreateSelectsNewProfile` states that it differs from the default only in id and name |
| App.HandleCreateProfile | App.tsx:50-53 | one profile is appended after the old ones; it is the default profile with the new id and the name "New Brand Identity"; its id becomes active |
| App.CreateSelectsNewProfile | App.tsx:50-53 | with a fresh id, the new profile becomes the active settings and differs from the default only in id and name |
| App.RemoveId | App.tsx:59 | `filter`: no kept profile has the id; a profile is kept exactly when it was present with another id |
| App.RemoveIdAppend | App.tsx:59 | filtering distributes over concatenation, so the kept profiles stay in order |
| App.RemoveAbsentId | App.tsx:59 | filtering an absent id changes nothing |
| App.RepairedId | App.tsx:62 | definition of `newProfiles[0]?.id \|\| 'default'`; `DeleteRepairsActive` states which profile it selects |
| App.HandleDeleteProfile | App.tsx:57-64 | definition of `handleDeleteProfile`; its properties are stated by `DeleteGuard`, `DeleteRepairsActive`, `DeleteKeepsActiveId`, `DeleteKeepsActiveSettings`, `DeleteWithStaleActiveId`, `DeleteKeepsOneProfile` and `DuplicateIdsEmptyTheList` |
| App.DeleteGuard | App.tsx:58 | with at most one profile, delete changes nothing |
| App.DeleteRepairsActive | App.tsx:59-63 | deleting the active profile makes the first remaining profile active when its id is non-empty; an empty first id falls back to "default", which selects the first remaining profile unless one has id "default"; with none left the id is "default" and the settings the default profile |
| App.RemoveKeepsFirst | App.tsx:59 | deleting another id keeps the first profile with a given id |
| App.DeleteKeepsActiveId | App.tsx:57-63 | deleting another id never changes the active id, whatever the profiles; the list becomes the filtered one unless the guard refuses |
| App.DeleteKeepsActiveSettings | App.tsx:59-63 | deleting another id, while the active id names a profile, keeps the active id and the active settings |
| App.RemoveIdFrom | App.tsx:59 | the filter keeps only profiles of the list, none with the removed id |
| App.DeleteWithStaleActiveId | App.tsx:57-63 | when the active id names no profile, deleting another id keeps it naming none, and the active settings are the first remaining profile or the default one |
| App.DeleteKeepsOneProfile | App.tsx:58-59 | with distinct ids and more than one profile, delete leaves at least one |
| App.DuplicateIdsEmptyTheList | App.tsx:58-62 | two profiles sharing the deleted id are both removed, leaving an empty list and the active id "default" |
| App.AppCall | App.tsx:79 | definition of `analyzeMedia(base64Data, file.type, activeSettings)`; `AppCallIsLegacy` states that it runs in legacy mode with the active settings |
| App.AppCallIsLegacy | App.tsx:79 | the app's call runs in legacy mode with the active settings |
| App.IncompleteData | App.tsx:82 | definition of the incomplete-data check, including the TypeError of reading from a missing `visuals` or `score`; its properties are stated by `LegacySentinelTripsCheck` and `AppNeverShowsSentinel` |
| App.HandleAnalyze | App.tsx:75-96 | definition of the analysis handler after the file is read, ending in a `Shown`: the result, an error message (`IncompleteMessage` for incomplete data) or a TypeError's message; its properties are stated by `AppCallIsLegacy` and `AppNeverShowsSentinel` |
| App.LegacySentinelTripsCheck | App.tsx:82 | the legacy sentinel is reported incomplete |
| App.AppNeverShowsSentinel | App.tsx:75-96 | the app never shows the sentinel or an abort message; any result shown passed the legacy check and is complete; any service failure shows the incomplete-data message |
| TheBrain.Lookup | components/TheBrain.tsx:25 | finds the first entry of the aesthetic, or none when it is absent |
| TheBrain.AddItem | components/TheBrain.tsx:25-27 | definition of one step of the counting loop; `AddExisting` and `AddNew` state that it keeps the tally correct |
| TheBrain.Count | components/TheBrain.tsx:26 | definition of the number of items of an aesthetic, what `count` should reach; `CountSnoc` states how one more item changes it |
| TheBrain.ScoreSum | components/TheBrain.tsx:27 | definition of the sum of the scores of an aesthetic's items, what `scoreSum` should reach; `CountSnoc` and `AbsentScoresNothing` state its properties |
| TheBrain.SumCounts | components/TheBrain.tsx:23-28 | definition of the sum of the counts; `TalliesSpec` states that it is the history length |
| TheBrain.DistinctNames | components/TheBrain.tsx:23 | definition of "no aesthetic has two entries", as the keys of the `counts` record; `TalliesSpec` states that the loop keeps it |
| TheBrain.TalliesOf | components/TheBrain.tsx:23-28 | definition of a correct tally of a history; `TalliesSpec`, `AddExisting` and `AddNew` state that the counting loop keeps it |
| TheBrain.SumCountsUpdate | components/TheBrain.tsx:26 | replacing one entry changes the sum of counts by the difference of the two counts |
| TheBrain.SumCountsAppend | components/TheBrain.tsx:25 | appending an entry adds its count to the sum of counts |
| TheBrain.LookupSameNames | components/TheBrain.tsx:25 | lists with the same names at the same positions are looked up alike |
| TheBrain.LookupAppend | components/TheBrain.tsx:25 | after an entry with a new name is appended, that name is found at the end and every other name where it was |
| TheBrain.BumpedEntries | components/TheBrain.tsx:26-27 | bumping the matching entry makes every count and score sum those of the longer history |
| TheBrain.AbsentScoresNothing | components/TheBrain.tsx:27 | an aesthetic that never occurs has a score sum of 0 |
| TheBrain.Tallies | components/TheBrain.tsx:23-28 | definition of the counting loop's result; its properties are stated by `TalliesSpec`, `AddExisting`, `AddNew` and `CountSnoc` |
| TheBrain.TalliesSpec | components/TheBrain.tsx:23-28 | after the counting loop there is one entry per aesthetic that occurs, with its count and score sum, and the counts sum to the history length |
| TheBrain.AddExisting | components/TheBrain.tsx:25-27 | counting an item whose aesthetic is already present keeps the tally correct |
| TheBrain.AddNew | components/TheBrain.tsx:25-27 | counting an item with a new aesthetic keeps the tally correct |
| TheBrain.CountSnoc | components/TheBrain.tsx:26-27 | one more item adds one to its aesthetic's count and its score to that aesthetic's sum |
| TheBrain.TopAesthetic | components/TheBrain.tsx:21-41 | the counting loop and the strict-`>` arg-max loop compute the specified top aesthetic |
| TheBrain.TopAestheticSpec | components/TheBrain.tsx:21-41 | definition of `topAesthetic`; `TopAesthetic` computes it and `TopAestheticIsArgmax` states its properties |
| TheBrain.Beats | components/TheBrain.tsx:34-35 | definition of `avg > highestAvg` between two entries, by integer cross-multiplication; `TopAestheticIsArgmax` states the choice in its terms |
| TheBrain.Exceeds | components/TheBrain.tsx:31-35 | definition of the test of the arg-max loop, where `highestAvg` starts at 0; `TakeStep` and `SkipStep` state what each outcome keeps |
| TheBrain.BestFrom | components/TheBrain.tsx:33-39 | definition of the arg-max loop from an entry on; a choice is an index of the entries, and `BestFromSpec` states which |
| TheBrain.BestName | components/TheBrain.tsx:30-37 | definition of `best`: "N/A" while no entry is taken, the taken entry's aesthetic after; `TopAestheticIsArgmax` states its value |
| TheBrain.BestSoFar | components/TheBrain.tsx:33-39 | definition of the arg-max loop's invariant: the entry taken beats every earlier one and no later one seen beats it; `BestFromSpec` states that the loop ends with it |
| TheBrain.PositiveBeats | components/TheBrain.tsx:35 | an average above 0 beats one at or below 0 |
| TheBrain.BeatsPositive | components/TheBrain.tsx:35 | beating an average above 0 needs an average above 0 |
| TheBrain.TakeStep | components/TheBrain.tsx:35-37 | taking an entry that passes the test keeps the loop invariant, with that entry as the choice |
| TheBrain.SkipStep | components/TheBrain.tsx:35 | passing over an entry that fails the test keeps the loop invariant |
| TheBrain.BestFromSpec | components/TheBrain.tsx:33-39 | the scan's choice beats every earlier entry, is beaten by none, and exists exactly when some average exceeds 0 |
| TheBrain.TopAestheticIsArgmax | components/TheBrain.tsx:22-39 | empty history gives "N/A"; "N/A" also when no average is positive; otherwise the chosen aesthetic occurs, has a positive sum, has the greatest average, and strictly beats every entry before it (first wins ties) |
| TheBrain.Bars | components/TheBrain.tsx:56-57 | one bar per entry, with its name and count |
| TheBrain.FindBarOfTallies | components/TheBrain.tsx:56-57 | a bar is found by name at the index of its entry |
| TheBrain.FindBar | components/TheBrain.tsx:54 | a bar found for a name is the first bar of that name; none is found exactly when no bar has it |
| TheBrain.Take | components/TheBrain.tsx:59 | `slice(0, n)`: the first min(n, length) bars |
| TheBrain.InsertPerm | components/TheBrain.tsx:58 | inserting into the sorted list adds exactly that bar |
| TheBrain.InsertSorted | components/TheBrain.tsx:58 | inserting keeps the list ordered by non-increasing count |
| TheBrain.Insert | components/TheBrain.tsx:58 | definition of inserting one bar into a list sorted by count, ahead of bars of equal count; its properties are stated by `InsertPerm`, `InsertSorted` and `InsertWithCount` |
| TheBrain.NonIncreasing | components/TheBrain.tsx:58 | definition of the order `(a, b) => b.count - a.count` sorts into; `SortByCountSpec` states that the sort reaches it |
| TheBrain.WithCount | components/TheBrain.tsx:58 | definition of the bars of one count, in order; `SortByCountStable` states that the sort keeps them in order |
| TheBrain.InsertBound | components/TheBrain.tsx:58 | inserting a bar keeps every count within a bound that the bar and the list already respect |
| TheBrain.InsertWithCount | components/TheBrain.tsx:58 | insertion puts the bar ahead of every bar of the same count and keeps the others of that count in order |
| TheBrain.SortByCount | components/TheBrain.tsx:58 | definition of the stable sort by count, as insertion sort; its properties are stated by `SortByCountSpec` and `SortByCountStable` |
| TheBrain.SortByCountSpec | components/TheBrain.tsx:58 | the sort gives a permutation ordered by non-increasing count |
| TheBrain.SortByCountStable | components/TheBrain.tsx:58 | the sort is stable: bars of equal count keep their order |
| TheBrain.AestheticData | components/TheBrain.tsx:51-60 | the counting loop, sort and slice compute the specified bars |
| TheBrain.AestheticDataSpec | components/TheBrain.tsx:51-60 | definition of `aestheticData`; `AestheticData` computes it and `AestheticDataIsTopFive` states its properties |
| TheBrain.SortedBarsOfHistory | components/TheBrain.tsx:52-58 | each sorted bar's count is the number of items of its aesthetic, above 0, and no two bars share a name |
| TheBrain.LeftOutIsSmaller | components/TheBrain.tsx:58-59 | a bar left out by `slice(0, 5)` has a count no larger than any bar kept |
| TheBrain.DistinctBarsSorted | components/TheBrain.tsx:58 | sorting bars with distinct names keeps the names distinct |
| TheBrain.MultiplicityOfDistinct | components/TheBrain.tsx:57 | a bar occurs exactly once in a list whose names are distinct |
| TheBrain.AestheticDataIsTopFive | components/TheBrain.tsx:52-59 | at most 5 bars, distinct names, non-increasing counts, each count is that aesthetic's number of items, and every bar left out has a count no greater than any bar kept |
| TheBrain.RecentPerformance | components/TheBrain.tsx:44-48 | definition of the chart data; its property is stated by `RecentPerformanceWindow` |
| TheBrain.RecentPerformanceWindow | components/TheBrain.tsx:44-48 | the chart holds the last min(7, n) items in their original order, with score and platform |
| TheBrain.Reversed | components/TheBrain.tsx:172 | `slice().reverse()` keeps the length; its properties are stated by `ReversedIndex` and `ReversedTwice` |
| TheBrain.ReversedIndex | components/TheBrain.tsx:172 | row i of the table is history item n-1-i |
| TheBrain.ReversedTwice | components/TheBrain.tsx:172 | reversing twice gives the history back |
| TheBrain.ScoreColour | components/TheBrain.tsx:181 | green exactly above 80, yellow exactly in 51..80, red exactly at 50 or below |
| TheBrain.Colour.Rank | components/TheBrain.tsx:181 | definition of the order of the colour bands, red below yellow below green; `ScoreColourMonotone` states that scores keep it |
| TheBrain.ScoreColourMonotone | components/TheBrain.tsx:181 | a higher score never gets a lower colour band |
| ViralEngine.MoodArgument | components/ViralEngine.tsx:168 | "Auto-Match" is sent as undefined; every other mood unchanged |
| ViralEngine.MusicMoods | components/ViralEngine.tsx:32-42 | definition of the nine moods in display order, "Auto-Match" first; `MoodReachesPrompt` states for each one what reaches the prompt |
| ViralEngine.EngineCall | components/ViralEngine.tsx:163-170 | definition of the screen's `analyzeMediaService` call; its properties are stated by `EngineCallIsViral` and `MoodReachesPrompt` |
| ViralEngine.EngineCallIsViral | components/ViralEngine.tsx:163-170 | the screen's call runs in viral mode with its platform, settings and mapped mood |
| ViralEngine.MoodReachesPrompt | components/ViralEngine.tsx:163-168 | for each of the nine moods, the prompt has the music line exactly when the mood is not "Auto-Match", and the vibe holes take the mood or their defaults |
| ViralEngine.IsAccountConnected | components/ViralEngine.tsx:149 | the connected flag of the selected platform: TikTok's for TikTok, Instagram's for Instagram |
| ViralEngine.PublishUrl | components/ViralEngine.tsx:200 | the TikTok upload page exactly for TikTok, the Instagram home page exactly for Instagram |
| ViralEngine.VariantOf | components/ViralEngine.tsx:187 | the typed variant of the selected vibe |
| ViralEngine.VibeKey | components/ViralEngine.tsx:187 | each vibe reads its own key of `variants`, one of the three the service backfills |
| ViralEngine.ContentOf | components/ViralEngine.tsx:187 | `result.variants[activeVibe]` throws exactly when `variants` is undefined or null; otherwise it is the vibe's own property, found only on an object or array |
| ViralEngine.OptionalJoin | components/ViralEngine.tsx:188 | `?.join(" ") ?? ""`: undefined or null give "", an array its joined elements, any other value throws |
| ViralEngine.Hashtags | components/ViralEngine.tsx:188 | definition of `content.hashtags`, undefined when `content` has no such property; `PostBodyOf` and `CopyAllOf` state when it throws |
| ViralEngine.PostBody | components/ViralEngine.tsx:188 | definition of the post body of a typed variant; its properties are stated by `PostBodyOfVariant`, `PostBodySplits` and `PostBodyWithoutTags` |
| ViralEngine.CopyAll | components/ViralEngine.tsx:498 | definition of the "copy all" text of a typed variant; its properties are stated by `CopyAllOfVariant` and `CopyAllSplits` |
| ViralEngine.NotLinkedMessage | components/ViralEngine.tsx:202 | definition of `${platform} not linked. Content copied to clipboard.`; `SmartPublish` states that it is shown exactly when the account is not connected |
| ViralEngine.PostBodyOf | components/ViralEngine.tsx:188 | building the post body throws exactly when the variant is undefined or null, or its hashtags are neither nullish nor an array |
| ViralEngine.PostBodyOfVariant | components/ViralEngine.tsx:188 | on a well-typed variant the template gives the caption, a blank line and the space-joined hashtags |
| ViralEngine.PostBodyOfMissingTags | components/ViralEngine.tsx:188 | missing or null hashtags leave the caption text and a blank line; a missing caption renders as "undefined" |
| ViralEngine.CopyAllOf | components/ViralEngine.tsx:496-498 | the "copy all" text exists exactly when the variant is an object or array whose hashtags are an array, since `join` is called without `?.` |
| ViralEngine.CopyAllOfVariant | components/ViralEngine.tsx:496-498 | on a well-typed variant the template gives hook, caption, audio and hashtags separated by blank lines |
| ViralEngine.SmartPublish | components/ViralEngine.tsx:185-205 | nothing happens without a truthy result or when reading the variant or building the body throws; otherwise the post body is copied; uploading starts exactly when the platform's account flag is set; the platform page opens exactly when it is not, with the "not linked" message; a clipboard failure shows its message otherwise |
| ViralEngine.ShapedContentReadable | components/ViralEngine.tsx:186-187 | on a value of the shape the service returns in viral mode, the result is truthy and reading the selected variant gives an object or array without throwing |
| ViralEngine.PublishTypedResult | components/ViralEngine.tsx:185-189 | on a well-typed result, the variant read is the typed variant of the vibe, and publishing happens and copies its post body |
| ViralEngine.PostBodySplits | components/ViralEngine.tsx:188 | the post body splits at the blank line into the caption and the joined hashtags, and those split back into the hashtags when none holds a space |
| ViralEngine.PostBodyWithoutTags | components/ViralEngine.tsx:188 | missing or empty hashtags leave the caption and a blank line |
| ViralEngine.CopyAllSplits | components/ViralEngine.tsx:496-498 | the "copy all" text splits at blank lines into hook, caption, audio and joined hashtags |
| ViralEngine.JoinTwo | components/ViralEngine.tsx:188 | joining two strings puts the separator between them |
| ViralEngine.JoinNoChar | components/ViralEngine.tsx:188 | a character absent from every part and from the separator is absent from the join |
| ViralEngine.BrainHistory.constructor | components/ViralEngine.tsx:222 | the array holds the parsed history |
| ViralEngine.BrainHistory.Shift | components/ViralEngine.tsx:225 | `shift` drops the first item; an empty array stays empty |
| ViralEngine.BrainHistory.Push | components/ViralEngine.tsx:227 | `push` appends the item |
| ViralEngine.BrainHistory.Save | components/ViralEngine.tsx:225-227 | the array becomes the capped history, and an array of at most 51 items stays at most 51 |
| ViralEngine.Capped | components/ViralEngine.tsx:224-227 | definition of the history after `shift` and `push`; its properties are stated by `BrainHistory.Save`, `CappedShape` and `FiftyGrowsToFiftyOne` |
| ViralEngine.CappedShape | components/ViralEngine.tsx:225-227 | over 50 items keeps the length, otherwise adds one; the new item is last; the items before it are the newest old ones, in order |
| ViralEngine.FiftyGrowsToFiftyOne | components/ViralEngine.tsx:224-227 | a save onto exactly 50 items gives 51 |
| ViralEngine.SaveRecord | components/ViralEngine.tsx:214-219 | the record's keys are the result's named own properties plus `fileData`, `timestamp` and `platform`; those three hold the thumbnail, timestamp and platform; every other field is the result's, unchanged |
| ViralEngine.StoredHistory | components/ViralEngine.tsx:221-222 | definition of the history read back: `[]` when storage is empty, the array parsed, or a throw for anything else; used by `SaveSpecOutcome` |
| ViralEngine.SaveSpec | components/ViralEngine.tsx:207-235 | definition of `handleSaveToBrain`; `SaveToBrain` computes it, and its properties are stated by `SaveSpecOutcome` and `FirstSave` |
| ViralEngine.SaveToBrain | components/ViralEngine.tsx:207-235 | the save handler, using the in-place array, computes the specified outcome |
| ViralEngine.SaveSpecOutcome | components/ViralEngine.tsx:207-235 | nothing is saved exactly without a truthy result or a file; a save succeeds exactly when the stored history parses to an array and the quota holds; every failure shows "Storage full"; after a save the record is last, with its platform, and at most 51 items remain |
| ViralEngine.FirstSave | components/ViralEngine.tsx:221-228 | with nothing stored, saving a result object makes the history just the new record |

## Left out

- The model call (`generateContent`), `console.error` and the text of the system instruction, because they are an external service, logging and prose. The reply is an input; the request records the model, the tool list and the thinking budget.
- GeminiService.BuildPrompt: states the filled holes of both prompt templates, not their prose, because only the holes carry logic.
- `JSON.parse` and `JSON.stringify`, because they are library code. Parsing is a parameter. The saved history is the array handed to `JSON.stringify`; stringifying would drop a named property on an array (a description written onto an array variant), which the model keeps.
- The `AbortController` lifecycle in `ViralEngine.tsx` (superseding a running analysis, unmount), because it is asynchronous. Only the two checkpoints in `analyzeMedia` remain.
- `localStorage`, `FileReader`, base64 conversion, `createThumbnail`, the clipboard, `window.open`, timers and `Date`, because they are browser I/O. Their values are parameters or booleans.
- JavaScript numbers are modelled as integers, because the model has no floating point; averages are then compared by cross-multiplication. This is a modelling choice: `viralScore` is a `number` (`types.ts:86`), so fractional and NaN scores are not captured, and `Js.ToText` renders only whole numbers.
- TheBrain.Tallies: an aesthetic named after an `Object.prototype` property (`constructor`, `toString`, `__proto__`, ...) is assumed not to occur. In the source, `topAesthetic` finds the inherited value truthy, creates no entry and so never counts that aesthetic. `aestheticData` stores a string such as "function Object() { [native code] }1" as its count, or nothing at all for `__proto__`.
- `Object.entries` order is taken as first insertion order. This differs only for keys that look like integers.
- Js.GetProp: inherited properties, an array's `length` and its index keys are not modelled, because none of the names the core reads (`variants`, `horror`, `caption`, `hashtags`, ...) is numeric, `length` or on a built-in prototype.
- ViralEngine.SaveRecord: spreading an array or a string into the saved record would also copy its index keys; the model copies only named own properties. A value the viral check accepts has a named `variants` property, which `JSON.parse` gives only to an object, so these values do not reach the save.
- ViralEngine.SmartPublish: a handler that throws and one that returns early are both "nothing happens" (None); the rejected promise is not modelled.
- `response.text` being undefined is treated like an empty reply.
- The viral screen's "Analysis interrupted" message. It is shown when `fileToBase64` rejects (`ViralEngine.tsx:105`, awaited at `ViralEngine.tsx:162`); that path is left out with `FileReader`. The other way to reach it, `analyzeMedia` rejecting with something other than AbortError, does not occur in the model.
- The UI-only files (`BrandDNA.tsx`, `ScanAndScore.tsx`, `TheLab.tsx`, `CompetitorSpy.tsx`, `UpgradeModal.tsx`, `Navbar.tsx`, `ui/Card.tsx`, `ui/ProgressBar.tsx`), because they are rendering, simulated flows or floating-point geometry.
- The date formatting of the chart and the table, because it depends on locale.
