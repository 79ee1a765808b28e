/** The profile list of App.tsx (create, update, delete, and the active
    profile with its fallback rule) and the check `handleAnalyze` makes on
    the value the analysis engine returns. */
module App {
  import opened Common
  import opened Js
  import opened Types
  import opened GeminiService

  /** The two pieces of state the profile handlers change. */
  datatype ProfileState = ProfileState(profiles: seq<BrandSettings>, activeProfileId: string)

  // ---------------------------------------------------------------------
  // Active settings
  // ---------------------------------------------------------------------

  /** `profiles.findIndex(p => p.id === id)`, as an option. */
  function FindIndex(ps: seq<BrandSettings>, id: string): (r: Option<nat>)
    ensures r.Some? ==> r.value < |ps| && ps[r.value].id == id
    ensures r.Some? ==> forall j :: 0 <= j < r.value ==> ps[j].id != id
    ensures r.None? ==> forall j :: 0 <= j < |ps| ==> ps[j].id != id
  {
    if |ps| == 0 then None
    else if ps[0].id == id then Some(0)
    else
      match FindIndex(ps[1..], id)
      case None => None
      case Some(k) => Some(k + 1)
  }

  /** `profiles.find(p => p.id === id)` */
  function FindProfile(ps: seq<BrandSettings>, id: string): Option<BrandSettings> {
    match FindIndex(ps, id)
    case None => None
    case Some(k) => Some(ps[k])
  }

  /** `find(...) || profiles[0] || DEFAULT_PROFILE`: the first profile with
      the active id, else the first profile, else the default one. */
  function ActiveSettings(st: ProfileState): (r: BrandSettings)
    ensures FindIndex(st.profiles, st.activeProfileId).Some? ==>
      r.id == st.activeProfileId && r == st.profiles[FindIndex(st.profiles, st.activeProfileId).value]
    ensures FindIndex(st.profiles, st.activeProfileId).None? && |st.profiles| > 0 ==> r == st.profiles[0]
    ensures |st.profiles| == 0 ==> r == DefaultProfile
  {
    match FindProfile(st.profiles, st.activeProfileId)
    case Some(p) => p
    case None => if |st.profiles| > 0 then st.profiles[0] else DefaultProfile
  }

  // ---------------------------------------------------------------------
  // Update
  // ---------------------------------------------------------------------

  /** `prev.map(p => p.id === updated.id ? updated : p)` */
  function UpdateProfile(ps: seq<BrandSettings>, updated: BrandSettings): (r: seq<BrandSettings>)
    ensures |r| == |ps|
    ensures forall i :: 0 <= i < |ps| && ps[i].id == updated.id ==> r[i] == updated
    ensures forall i :: 0 <= i < |ps| && ps[i].id != updated.id ==> r[i] == ps[i]
  {
    if |ps| == 0 then []
    else [if ps[0].id == updated.id then updated else ps[0]] + UpdateProfile(ps[1..], updated)
  }

  function HandleUpdateProfile(st: ProfileState, updated: BrandSettings): ProfileState {
    st.(profiles := UpdateProfile(st.profiles, updated))
  }

  /** Every id keeps its position under update, so a search by id finds the
      same place. */
  lemma UpdateKeepsIds(ps: seq<BrandSettings>, updated: BrandSettings, id: string)
    ensures FindIndex(UpdateProfile(ps, updated), id) == FindIndex(ps, id)
  {
    var r := UpdateProfile(ps, updated);
    assert forall i :: 0 <= i < |ps| ==> r[i].id == ps[i].id;
    FindIndexSameIds(ps, r, id);
  }

  lemma {:induction false} FindIndexSameIds(a: seq<BrandSettings>, b: seq<BrandSettings>, id: string)
    requires |a| == |b| && forall i :: 0 <= i < |a| ==> a[i].id == b[i].id
    ensures FindIndex(a, id) == FindIndex(b, id)
    decreases |a|
  {
    if |a| > 0 {
      FindIndexSameIds(a[1..], b[1..], id);
    }
  }

  /** Updating the active profile makes it the active settings; updating
      another profile that is not the fallback leaves them unchanged. */
  lemma UpdateThenActive(st: ProfileState, updated: BrandSettings)
    ensures var after := HandleUpdateProfile(st, updated);
      && (updated.id == st.activeProfileId && FindIndex(st.profiles, updated.id).Some? ==>
            ActiveSettings(after) == updated)
      && (updated.id != st.activeProfileId && FindIndex(st.profiles, st.activeProfileId).Some? ==>
            ActiveSettings(after) == ActiveSettings(st))
  {
    UpdateKeepsIds(st.profiles, updated, st.activeProfileId);
  }

  /** Applying the same update twice is the same as applying it once. */
  lemma UpdateIdempotent(ps: seq<BrandSettings>, updated: BrandSettings)
    ensures UpdateProfile(UpdateProfile(ps, updated), updated) == UpdateProfile(ps, updated)
  {
  }

  // ---------------------------------------------------------------------
  // Create
  // ---------------------------------------------------------------------

  /** `{ ...DEFAULT_PROFILE, id: newId, name: 'New Brand Identity' }` */
  function NewProfile(newId: string): BrandSettings {
    DefaultProfile.(id := newId, name := "New Brand Identity")
  }

  /** Append the new profile and make its id active; `newId` is the
      timestamp string the source takes from the clock. */
  function HandleCreateProfile(st: ProfileState, newId: string): (r: ProfileState)
    ensures |r.profiles| == |st.profiles| + 1
    ensures r.profiles[..|st.profiles|] == st.profiles
    ensures r.profiles[|st.profiles|] == NewProfile(newId)
    ensures r.activeProfileId == newId
  {
    ProfileState(st.profiles + [NewProfile(newId)], newId)
  }

  /** A fresh id makes the new profile the active settings; it differs from
      the default profile only in its id and name. */
  lemma CreateSelectsNewProfile(st: ProfileState, newId: string)
    requires forall i :: 0 <= i < |st.profiles| ==> st.profiles[i].id != newId
    ensures ActiveSettings(HandleCreateProfile(st, newId)) == NewProfile(newId)
    ensures NewProfile(newId).(id := DefaultProfile.id, name := DefaultProfile.name) == DefaultProfile
  {
    var ps := HandleCreateProfile(st, newId).profiles;
    assert ps[|st.profiles|].id == newId;
    assert FindIndex(ps, newId).Some?;
  }

  // ---------------------------------------------------------------------
  // Delete
  // ---------------------------------------------------------------------

  /** `profiles.filter(p => p.id !== id)` */
  function RemoveId(ps: seq<BrandSettings>, id: string): (r: seq<BrandSettings>)
    ensures |r| <= |ps|
    ensures forall i :: 0 <= i < |r| ==> r[i].id != id
    ensures forall p :: p in r <==> p in ps && p.id != id
  {
    if |ps| == 0 then []
    else if ps[0].id == id then RemoveId(ps[1..], id)
    else [ps[0]] + RemoveId(ps[1..], id)
  }

  /** The filter keeps order: it works piece by piece over a concatenation. */
  lemma {:induction false} RemoveIdAppend(a: seq<BrandSettings>, b: seq<BrandSettings>, id: string)
    ensures RemoveId(a + b, id) == RemoveId(a, id) + RemoveId(b, id)
    decreases |a|
  {
    if |a| > 0 {
      assert (a + b)[0] == a[0];
      assert (a + b)[1..] == a[1..] + b;
      RemoveIdAppend(a[1..], b, id);
    } else {
      assert a + b == b;
    }
  }

  /** Removing an id that no profile has changes nothing. */
  lemma {:induction false} RemoveAbsentId(ps: seq<BrandSettings>, id: string)
    requires forall i :: 0 <= i < |ps| ==> ps[i].id != id
    ensures RemoveId(ps, id) == ps
    decreases |ps|
  {
    if |ps| > 0 {
      RemoveAbsentId(ps[1..], id);
    }
  }

  /** `newProfiles[0]?.id || 'default'` */
  function RepairedId(ps: seq<BrandSettings>): string {
    if |ps| > 0 && ps[0].id != "" then ps[0].id else "default"
  }

  /** The delete handler: refused while at most one profile exists; the
      active id is repaired when it was the one deleted. */
  function HandleDeleteProfile(st: ProfileState, id: string): ProfileState {
    if |st.profiles| <= 1 then st
    else
      var remaining := RemoveId(st.profiles, id);
      ProfileState(remaining, if st.activeProfileId == id then RepairedId(remaining) else st.activeProfileId)
  }

  /** At most one profile: delete does nothing. */
  lemma DeleteGuard(st: ProfileState, id: string)
    requires |st.profiles| <= 1
    ensures HandleDeleteProfile(st, id) == st
  {
  }

  /** After deleting the active profile, the first remaining profile (when
      its id is not empty) becomes the active settings; when its id is
      empty the id falls back to 'default', which selects the profile of
      that id if one remains and the first remaining profile otherwise;
      with none left the id is 'default' and the settings are the default
      profile. */
  lemma DeleteRepairsActive(st: ProfileState, id: string)
    requires |st.profiles| > 1 && st.activeProfileId == id
    ensures var after := HandleDeleteProfile(st, id);
      && after.profiles == RemoveId(st.profiles, id)
      && (|after.profiles| > 0 && after.profiles[0].id != "" ==>
            after.activeProfileId == after.profiles[0].id && ActiveSettings(after) == after.profiles[0])
      && (|after.profiles| > 0 && after.profiles[0].id == "" ==> after.activeProfileId == "default")
      && (|after.profiles| > 0 && after.profiles[0].id == "" && FindIndex(after.profiles, "default").None? ==>
            ActiveSettings(after) == after.profiles[0])
      && (|after.profiles| == 0 ==> after.activeProfileId == "default" && ActiveSettings(after) == DefaultProfile)
  {
  }

  /** Removing another id keeps the first profile with `target` the first one. */
  lemma {:induction false} RemoveKeepsFirst(ps: seq<BrandSettings>, id: string, target: string)
    requires id != target && FindIndex(ps, target).Some?
    ensures FindProfile(RemoveId(ps, id), target) == FindProfile(ps, target)
    decreases |ps|
  {
    if ps[0].id != target {
      RemoveKeepsFirst(ps[1..], id, target);
    }
  }

  /** Deleting an id other than the active one never changes the active id. */
  lemma DeleteKeepsActiveId(st: ProfileState, id: string)
    requires id != st.activeProfileId
    ensures HandleDeleteProfile(st, id).activeProfileId == st.activeProfileId
    ensures HandleDeleteProfile(st, id).profiles == if |st.profiles| <= 1 then st.profiles else RemoveId(st.profiles, id)
  {
  }

  /** Deleting an id other than the active one leaves the active settings
      unchanged whenever the active id names a profile. */
  lemma DeleteKeepsActiveSettings(st: ProfileState, id: string)
    requires id != st.activeProfileId && FindIndex(st.profiles, st.activeProfileId).Some?
    ensures HandleDeleteProfile(st, id).activeProfileId == st.activeProfileId
    ensures ActiveSettings(HandleDeleteProfile(st, id)) == ActiveSettings(st)
  {
    if |st.profiles| > 1 {
      RemoveKeepsFirst(st.profiles, id, st.activeProfileId);
    }
  }

  /** The filter keeps only profiles of the list, none with the removed id. */
  lemma {:induction false} RemoveIdFrom(ps: seq<BrandSettings>, id: string)
    ensures forall p :: p in RemoveId(ps, id) ==> p in ps && p.id != id
    decreases |ps|
  {
    if |ps| > 0 {
      RemoveIdFrom(ps[1..], id);
    }
  }

  /** When the active id names no profile (it is stale), deleting another
      profile keeps it stale: the active settings are then the first
      remaining profile, or the default one when none remains. */
  lemma DeleteWithStaleActiveId(st: ProfileState, id: string)
    requires id != st.activeProfileId && FindIndex(st.profiles, st.activeProfileId).None?
    ensures var after := HandleDeleteProfile(st, id);
      && FindIndex(after.profiles, st.activeProfileId).None?
      && ActiveSettings(after) == if |after.profiles| > 0 then after.profiles[0] else DefaultProfile
  {
    var after := HandleDeleteProfile(st, id);
    if |st.profiles| > 1 {
      RemoveIdFrom(st.profiles, id);
      forall j | 0 <= j < |after.profiles|
        ensures after.profiles[j].id != st.activeProfileId
      {
        assert after.profiles[j] in st.profiles;
      }
    }
  }

  /** With at least one profile whose id differs from the deleted one, the
      list stays non-empty; in particular with two or more profiles and
      distinct ids. */
  lemma DeleteKeepsOneProfile(st: ProfileState, id: string)
    requires |st.profiles| > 1
    requires forall i, j :: 0 <= i < j < |st.profiles| ==> st.profiles[i].id != st.profiles[j].id
    ensures |HandleDeleteProfile(st, id).profiles| > 0
  {
    var ps := st.profiles;
    var p := if ps[0].id != id then ps[0] else ps[1];
    assert p in ps && p.id != id;
  }

  /** The guard counts profiles, not ids: two profiles with the same id are
      both removed and the list becomes empty. */
  lemma DuplicateIdsEmptyTheList()
    ensures var p := DefaultProfile.(id := "x");
      HandleDeleteProfile(ProfileState([p, p], "x"), "x") == ProfileState([], "default")
  {
    var p := DefaultProfile.(id := "x");
    assert RemoveId([p, p], "x") == [];
  }

  // ---------------------------------------------------------------------
  // The check on the analysis result
  // ---------------------------------------------------------------------

  /** `data.visuals.aesthetic === "Error" || data.score.breakdown === "Analysis Failed"`,
      with `||` evaluating its right side only when the left is false; a
      TypeError when `visuals` or `score` is missing. */
  function IncompleteData(data: Json): Result<bool, JsError> {
    match GetProp(Some(data), "visuals")
    case Failure(e) => Failure(e)
    case Success(visuals) =>
      match GetProp(visuals, "aesthetic")
      case Failure(e) => Failure(e)
      case Success(a) =>
        if a == Some(JString("Error")) then Success(true)
        else
          match GetProp(Some(data), "score")
          case Failure(e) => Failure(e)
          case Success(score) =>
            match GetProp(score, "breakdown")
            case Failure(e) => Failure(e)
            case Success(b) => Success(b == Some(JString("Analysis Failed")))
  }

  const IncompleteMessage := "Elia.PRO Engine returned incomplete data. The AI model might be overloaded."

  /** What `handleAnalyze` ends up showing. */
  datatype Shown =
    | ShowResult(data: Json)
    | ShowError(message: string)
    | ShowTypeError  // the message of a runtime TypeError, which the engine words

  /** The call `analyzeMedia(base64Data, file.type, activeSettings)`. */
  function AppCall(st: ProfileState, base64Data: string, mimeType: string): Call {
    Call(base64Data, mimeType, SettingsArg(ActiveSettings(st)), None, None)
  }

  /** `handleAnalyze` after the file was read: no abort signal is passed, so
      both checkpoints see it unaborted. */
  function HandleAnalyze(st: ProfileState, base64Data: string, mimeType: string,
                         response: Option<string>, parse: string -> Option<Json>): Shown
  {
    match Analysis(AppCall(st, base64Data, mimeType), false, false, response, parse).settled
    case Aborted => ShowError("Aborted")
    case Returned(data) =>
      match IncompleteData(data)
      case Failure(_) => ShowTypeError
      case Success(incomplete) => if incomplete then ShowError(IncompleteMessage) else ShowResult(data)
  }

  /** The app always calls the legacy mode, with the active settings. */
  lemma AppCallIsLegacy(st: ProfileState, base64Data: string, mimeType: string)
    ensures ResolveMode(AppCall(st, base64Data, mimeType)).mode == Legacy
    ensures ResolveMode(AppCall(st, base64Data, mimeType)).brandSettings == Some(ActiveSettings(st))
  {
  }

  /** The legacy sentinel always trips the check, through its aesthetic. */
  lemma LegacySentinelTripsCheck()
    ensures IncompleteData(SentinelJson(Legacy)) == Success(true)
  {
    var j := LegacyJson(LegacySentinel());
    var visuals := j.fields["visuals"];
    assert Field(j.fields, "visuals") == Some(visuals);
    assert Field(visuals.fields, "aesthetic") == Some(JString("Error"));
  }

  /** Every failure of the engine call ends as the incomplete-data message,
      and a result is only shown when it passed the legacy validation and
      the check. */
  lemma AppNeverShowsSentinel(st: ProfileState, base64Data: string, mimeType: string,
                              response: Option<string>, parse: string -> Option<Json>)
    ensures var shown := HandleAnalyze(st, base64Data, mimeType, response, parse);
      && shown != ShowResult(SentinelJson(Legacy))
      && shown != ShowError("Aborted")
      && (shown.ShowResult? ==>
            CheckLegacy(shown.data) == Success(shown.data) && IncompleteData(shown.data) == Success(false))
    ensures Attempt(Legacy, false, response, parse).Failure? ==>
      HandleAnalyze(st, base64Data, mimeType, response, parse) == ShowError(IncompleteMessage)
  {
    var c := AppCall(st, base64Data, mimeType);
    AbortedIff(c, false, false, response, parse);
    LegacySentinelTripsCheck();
    if Analysis(c, false, false, response, parse).settled.Returned? {
      ReturnedPassesCheck(c, false, false, response, parse);
    }
  }
}
