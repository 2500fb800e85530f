/** The front end's settings store: AI settings and user preferences, a
    loading flag and an error message, persisted in the browser's local
    storage under 'ai-settings' and 'user-settings'. Local storage is a map
    from key to what `JSON.parse` makes of the stored text; whether a write
    succeeds is a parameter. */
module SettingsStore {
  import opened Wrappers
  import opened Text
  import opened Errors

  datatype Theme = Light | Dark | Auto
  datatype Language = ZhTW | En

  /** `temperature` is only stored, never computed with. */
  datatype AISettings = AISettings(
    openaiApiKey: string, aiAssistanceEnabled: bool, model: string, temperature: real, maxTokens: int)

  datatype UserSettings = UserSettings(
    displayName: string, avatar: string, theme: Theme, language: Language, timezone: string)

  /** A partial record (`Partial<...>`, or what was parsed from storage):
      `None` leaves the field as it is. */
  datatype AIPatch = AIPatch(
    openaiApiKey: Option<string>, aiAssistanceEnabled: Option<bool>, model: Option<string>,
    temperature: Option<real>, maxTokens: Option<int>)

  datatype UserPatch = UserPatch(
    displayName: Option<string>, avatar: Option<string>, theme: Option<Theme>,
    language: Option<Language>, timezone: Option<string>)

  /** What `JSON.parse` makes of a stored text: AI fields, user fields, the
      empty string (which is skipped), or text that does not parse. */
  datatype Stored = AiJson(ai: AIPatch) | UserJson(user: UserPatch) | EmptyText | Unparsable

  const AiKey := "ai-settings"
  const UserKey := "user-settings"

  const DefaultAI := AISettings([], false, "gpt-3.5-turbo", 0.7, 1000)
  const DefaultUser := UserSettings([], [], Light, ZhTW, "Asia/Taipei")

  const LoadFailed := "載入設定失敗"
  const SaveAIFailed := "儲存 AI 設定失敗"
  const SaveUserFailed := "儲存用戶設定失敗"

  function Pick<T>(p: Option<T>, current: T): T
  {
    if p.Some? then p.value else current
  }

  /** `{ ...current, ...patch }`. */
  function MergeAI(current: AISettings, patch: AIPatch): (s: AISettings)
    ensures patch.openaiApiKey.Some? ==> s.openaiApiKey == patch.openaiApiKey.value
    ensures patch.openaiApiKey.None? ==> s.openaiApiKey == current.openaiApiKey
    ensures patch.aiAssistanceEnabled.Some? ==> s.aiAssistanceEnabled == patch.aiAssistanceEnabled.value
    ensures patch.aiAssistanceEnabled.None? ==> s.aiAssistanceEnabled == current.aiAssistanceEnabled
    ensures patch.model.Some? ==> s.model == patch.model.value
    ensures patch.model.None? ==> s.model == current.model
    ensures patch.temperature.Some? ==> s.temperature == patch.temperature.value
    ensures patch.temperature.None? ==> s.temperature == current.temperature
    ensures patch.maxTokens.Some? ==> s.maxTokens == patch.maxTokens.value
    ensures patch.maxTokens.None? ==> s.maxTokens == current.maxTokens
  {
    AISettings(
      Pick(patch.openaiApiKey, current.openaiApiKey),
      Pick(patch.aiAssistanceEnabled, current.aiAssistanceEnabled),
      Pick(patch.model, current.model),
      Pick(patch.temperature, current.temperature),
      Pick(patch.maxTokens, current.maxTokens))
  }

  function MergeUser(current: UserSettings, patch: UserPatch): (s: UserSettings)
    ensures patch.displayName.Some? ==> s.displayName == patch.displayName.value
    ensures patch.displayName.None? ==> s.displayName == current.displayName
    ensures patch.avatar.Some? ==> s.avatar == patch.avatar.value
    ensures patch.avatar.None? ==> s.avatar == current.avatar
    ensures patch.theme.Some? ==> s.theme == patch.theme.value
    ensures patch.theme.None? ==> s.theme == current.theme
    ensures patch.language.Some? ==> s.language == patch.language.value
    ensures patch.language.None? ==> s.language == current.language
    ensures patch.timezone.Some? ==> s.timezone == patch.timezone.value
    ensures patch.timezone.None? ==> s.timezone == current.timezone
  {
    UserSettings(
      Pick(patch.displayName, current.displayName),
      Pick(patch.avatar, current.avatar),
      Pick(patch.theme, current.theme),
      Pick(patch.language, current.language),
      Pick(patch.timezone, current.timezone))
  }

  /** The record as it is written to storage (every field present). */
  function AIRecord(s: AISettings): AIPatch
  {
    AIPatch(Some(s.openaiApiKey), Some(s.aiAssistanceEnabled), Some(s.model), Some(s.temperature), Some(s.maxTokens))
  }

  function UserRecord(s: UserSettings): UserPatch
  {
    UserPatch(Some(s.displayName), Some(s.avatar), Some(s.theme), Some(s.language), Some(s.timezone))
  }

  /** What is saved loads back: merging a stored full record into any state
      gives that record. */
  lemma SavedRecordsLoadBack(current: AISettings, saved: AISettings, currentUser: UserSettings, savedUser: UserSettings)
    ensures MergeAI(current, AIRecord(saved)) == saved
    ensures MergeUser(currentUser, UserRecord(savedUser)) == savedUser
  {
  }

  /** Two merges in a row are one merge with the later patch winning. */
  lemma MergeAITwice(current: AISettings, p: AIPatch, q: AIPatch)
    ensures MergeAI(MergeAI(current, p), q) == MergeAI(current, AIPatch(
      if q.openaiApiKey.Some? then q.openaiApiKey else p.openaiApiKey,
      if q.aiAssistanceEnabled.Some? then q.aiAssistanceEnabled else p.aiAssistanceEnabled,
      if q.model.Some? then q.model else p.model,
      if q.temperature.Some? then q.temperature else p.temperature,
      if q.maxTokens.Some? then q.maxTokens else p.maxTokens))
  {
  }

  /** `isAIEnabled`. */
  predicate IsAIEnabled(s: AISettings)
  {
    s.aiAssistanceEnabled && Trim(s.openaiApiKey) != []
  }

  /** `hasValidAPIKey`. */
  predicate HasValidAPIKey(s: AISettings)
  {
    Trim(s.openaiApiKey) != [] && StartsWith(s.openaiApiKey, "sk-")
  }

  /** The blank-key test in `hasValidAPIKey` adds nothing: a key that starts
      with "sk-" is never blank. */
  lemma ValidKeyIsPrefix(s: AISettings)
    ensures HasValidAPIKey(s) <==> StartsWith(s.openaiApiKey, "sk-")
  {
    if StartsWith(s.openaiApiKey, "sk-") {
      assert s.openaiApiKey[0] == 's';
      BlankIffAllSpace(s.openaiApiKey);
      assert !IsSpace(s.openaiApiKey[0]);
    }
  }

  /** The default settings have AI switched off and no valid key. */
  lemma DefaultsAreOff()
    ensures !IsAIEnabled(DefaultAI) && !HasValidAPIKey(DefaultAI)
  {
  }

  /** `testAPIKey`'s guard and outcome: a key without the "sk-" prefix is
      rejected before any call; otherwise the answer of the connection test
      (`connection`, `None` when the call fails) decides. */
  function TestAPIKey(apiKey: string, connection: Option<bool>): (r: Result<bool, Failure>)
    ensures r.Failure? <==> !StartsWith(apiKey, "sk-")
    ensures r.Failure? ==> r.error == PlainError("API Key 格式不正確")
    ensures r.Success? ==> (r.value <==> connection == Some(true))
  {
    if !StartsWith(apiKey, "sk-") then Failure(PlainError("API Key 格式不正確"))
    else Success(connection == Some(true))
  }

  /** The AI part of a stored text (fields of another record are ignored). */
  function AIPart(v: Stored): AIPatch
  {
    if v.AiJson? then v.ai else AIPatch(None, None, None, None, None)
  }

  function UserPart(v: Stored): UserPatch
  {
    if v.UserJson? then v.user else UserPatch(None, None, None, None, None)
  }

  /** A stored text that `if (saved)` lets through. */
  predicate Present(storage: map<string, Stored>, key: string)
  {
    key in storage && storage[key] != EmptyText
  }

  class Settings {
    var ai: AISettings
    var user: UserSettings
    var loading: bool
    var error: Option<string>
    /** The browser's local storage. */
    var storage: map<string, Stored>

    constructor (storage: map<string, Stored>)
      ensures ai == DefaultAI && user == DefaultUser && !loading && error == None
      ensures this.storage == storage
    {
      ai := DefaultAI;
      user := DefaultUser;
      loading := false;
      error := None;
      this.storage := storage;
    }

    /** `loadSettings`: overlays the AI record, then the user record; the
        first text that does not parse stops the load with an error. */
    method LoadSettings()
      modifies this
      ensures storage == old(storage) && !loading
      ensures var aiBad := Present(storage, AiKey) && storage[AiKey] == Unparsable;
        var userBad := Present(storage, UserKey) && storage[UserKey] == Unparsable;
        (error == (if aiBad || userBad then Some(LoadFailed) else None))
        && (ai == (if aiBad || !Present(storage, AiKey) then old(ai) else MergeAI(old(ai), AIPart(storage[AiKey]))))
        && (user == (if aiBad || userBad || !Present(storage, UserKey) then old(user)
                     else MergeUser(old(user), UserPart(storage[UserKey]))))
    {
      loading := true;
      error := None;
      if Present(storage, AiKey) {
        if storage[AiKey] == Unparsable {
          error := Some(LoadFailed);
          loading := false;
          return;
        }
        ai := MergeAI(ai, AIPart(storage[AiKey]));
      }
      if Present(storage, UserKey) {
        if storage[UserKey] == Unparsable {
          error := Some(LoadFailed);
          loading := false;
          return;
        }
        user := MergeUser(user, UserPart(storage[UserKey]));
      }
      loading := false;
    }

    /** `saveAISettings`: the merge happens first and stays even when the
        write (`writable`) fails; then the error is set and the call fails. */
    method SaveAISettings(patch: AIPatch, writable: bool) returns (ok: bool)
      modifies this
      ensures ai == MergeAI(old(ai), patch) && user == old(user) && !loading && ok == writable
      ensures writable ==> storage == old(storage)[AiKey := AiJson(AIRecord(ai))] && error == None
      ensures !writable ==> storage == old(storage) && error == Some(SaveAIFailed)
    {
      loading := true;
      error := None;
      ai := MergeAI(ai, patch);
      if writable {
        storage := storage[AiKey := AiJson(AIRecord(ai))];
        ok := true;
      } else {
        error := Some(SaveAIFailed);
        ok := false;
      }
      loading := false;
    }

    method SaveUserSettings(patch: UserPatch, writable: bool) returns (ok: bool)
      modifies this
      ensures user == MergeUser(old(user), patch) && ai == old(ai) && !loading && ok == writable
      ensures writable ==> storage == old(storage)[UserKey := UserJson(UserRecord(user))] && error == None
      ensures !writable ==> storage == old(storage) && error == Some(SaveUserFailed)
    {
      loading := true;
      error := None;
      user := MergeUser(user, patch);
      if writable {
        storage := storage[UserKey := UserJson(UserRecord(user))];
        ok := true;
      } else {
        error := Some(SaveUserFailed);
        ok := false;
      }
      loading := false;
    }

    /** `resetSettings`: both records back to their defaults and both keys
        removed; the flags are untouched. */
    method ResetSettings()
      modifies this
      ensures ai == DefaultAI && user == DefaultUser
      ensures storage == old(storage) - {AiKey, UserKey}
      ensures loading == old(loading) && error == old(error)
    {
      ai := DefaultAI;
      user := DefaultUser;
      storage := storage - {AiKey, UserKey};
    }
  }
}
