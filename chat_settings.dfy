/**
 * `ChatSettingsService`: the per-user chat-settings table with create, find-or-create, patch
 * and delete. The table is a sequence of rows; lookups take the first row of the user.
 */
module ChatSettings {
  import opened Wrappers
  import opened Seqs
  import opened Http
  import opened ChatSettingsDto

  /** The column defaults. */
  const DefaultModel := "openai/gpt-oss-20b"
  const DefaultTemperature := 0.7
  const DefaultMaxTokens := 4096.0
  const DefaultTopP := 0.0
  const DefaultTopK := 0.0
  const DefaultFrequencyPenalty := 0.0
  const DefaultPresencePenalty := 0.0

  /** A row of `chat_settings`; the times are those of the create and update date columns. */
  datatype Settings = Settings(
    settingsId: string,
    model: string,
    systemPrompt: Option<string>,
    temperature: real,
    maxTokens: real,
    topP: real,
    topK: real,
    frequencyPenalty: real,
    presencePenalty: real,
    userId: string,
    createdAt: int,
    updatedAt: int)

  /** The row `create` saves: each value the DTO supplies, the column default for the rest. */
  function NewSettings(dto: CreateSettingsDto, id: string, now: int): (s: Settings)
    ensures s.settingsId == id && s.userId == dto.userId && s.createdAt == now && s.updatedAt == now
    ensures s.model == dto.settings.model.GetOr(DefaultModel)
    ensures s.systemPrompt == dto.settings.systemPrompt.GetOr(None)
    ensures s.temperature == dto.settings.temperature.GetOr(DefaultTemperature)
    ensures s.maxTokens == dto.settings.maxTokens.GetOr(DefaultMaxTokens)
    ensures s.topP == dto.settings.topP.GetOr(DefaultTopP)
    ensures s.topK == dto.settings.topK.GetOr(DefaultTopK)
    ensures s.frequencyPenalty == dto.settings.frequencyPenalty.GetOr(DefaultFrequencyPenalty)
    ensures s.presencePenalty == dto.settings.presencePenalty.GetOr(DefaultPresencePenalty)
  {
    var p := dto.settings;
    Settings(id, p.model.GetOr(DefaultModel), p.systemPrompt.GetOr(None), p.temperature.GetOr(DefaultTemperature),
             p.maxTokens.GetOr(DefaultMaxTokens), p.topP.GetOr(DefaultTopP), p.topK.GetOr(DefaultTopK),
             p.frequencyPenalty.GetOr(DefaultFrequencyPenalty), p.presencePenalty.GetOr(DefaultPresencePenalty),
             dto.userId, now, now)
  }

  /** Settings made for a user from nothing but the id carry every default. */
  lemma {:induction false} DefaultSettingsValues(userId: string, id: string, now: int)
    ensures var s := NewSettings(CreateSettingsDto(EmptyPatch, userId), id, now);
      s.model == "openai/gpt-oss-20b" && s.systemPrompt.None? && s.temperature == 0.7 && s.maxTokens == 4096.0
      && s.topP == 0.0 && s.topK == 0.0 && s.frequencyPenalty == 0.0 && s.presencePenalty == 0.0
  {
  }

  /** `Object.assign(settings, dto)` then save: supplied values overwrite, the rest and the row's identity stay. */
  function ApplyPatch(s: Settings, p: SettingsPatch, now: int): (r: Settings)
    ensures r.settingsId == s.settingsId && r.userId == s.userId && r.createdAt == s.createdAt && r.updatedAt == now
    ensures r.model == p.model.GetOr(s.model)
    ensures p.systemPrompt.Some? ==> r.systemPrompt == p.systemPrompt.value
    ensures p.systemPrompt.None? ==> r.systemPrompt == s.systemPrompt
    ensures r.temperature == p.temperature.GetOr(s.temperature)
    ensures r.maxTokens == p.maxTokens.GetOr(s.maxTokens)
    ensures r.topP == p.topP.GetOr(s.topP)
    ensures r.topK == p.topK.GetOr(s.topK)
    ensures r.frequencyPenalty == p.frequencyPenalty.GetOr(s.frequencyPenalty)
    ensures r.presencePenalty == p.presencePenalty.GetOr(s.presencePenalty)
  {
    s.(model := p.model.GetOr(s.model),
       systemPrompt := p.systemPrompt.GetOr(s.systemPrompt),
       temperature := p.temperature.GetOr(s.temperature),
       maxTokens := p.maxTokens.GetOr(s.maxTokens),
       topP := p.topP.GetOr(s.topP),
       topK := p.topK.GetOr(s.topK),
       frequencyPenalty := p.frequencyPenalty.GetOr(s.frequencyPenalty),
       presencePenalty := p.presencePenalty.GetOr(s.presencePenalty),
       updatedAt := now)
  }

  /** An update with `"systemPrompt": null` removes the prompt and leaves every other value. */
  lemma NullClearsSystemPrompt(s: Settings, now: int)
    ensures ValidateUpdate(map["systemPrompt" := JNull]).Success?
    ensures ApplyPatch(s, ValidateUpdate(map["systemPrompt" := JNull]).value, now) == s.(systemPrompt := None, updatedAt := now)
  {
    NullSystemPromptAccepted();
  }

  /** The empty patch only touches the update time. */
  lemma EmptyPatchChangesNothing(s: Settings, now: int)
    ensures ApplyPatch(s, EmptyPatch, now) == s.(updatedAt := now)
  {
  }

  /** A row whose numeric values all lie in the intervals the DTOs check. */
  predicate SettingsInRange(s: Settings) {
    InRange(s.temperature, TemperatureRange) && InRange(s.maxTokens, MaxTokensRange)
    && InRange(s.topP, TopPRange) && InRange(s.topK, TopKRange)
    && InRange(s.frequencyPenalty, PenaltyRange) && InRange(s.presencePenalty, PenaltyRange)
  }

  ghost predicate AllInRange(rows: seq<Settings>) {
    forall i :: 0 <= i < |rows| ==> SettingsInRange(rows[i])
  }

  /** The defaults lie in range, so a row made from a validated DTO does. */
  lemma {:induction false} NewSettingsInRange(dto: CreateSettingsDto, id: string, now: int)
    requires PatchInRange(dto.settings)
    ensures SettingsInRange(NewSettings(dto, id, now))
  {
  }

  /** A validated patch keeps a row in range. */
  lemma ApplyPatchInRange(s: Settings, p: SettingsPatch, now: int)
    requires SettingsInRange(s) && PatchInRange(p)
    ensures SettingsInRange(ApplyPatch(s, p, now))
  {
  }

  function OfUser(userId: string): Settings -> bool {
    (s: Settings) => s.userId == userId
  }

  function NotOfUser(userId: string): Settings -> bool {
    (s: Settings) => s.userId != userId
  }

  const SettingsNotFound := HttpError(NotFound, "Chat settings not found")

  class ChatSettingsService {
    var rows: seq<Settings>

    constructor ()
      ensures rows == []
    {
      rows := [];
    }

    /** `create`: saves one new row; several rows per user are possible. */
    method Create(dto: CreateSettingsDto, id: string, now: int) returns (s: Settings)
      modifies this
      ensures s == NewSettings(dto, id, now) && rows == old(rows) + [s]
      ensures old(AllInRange(rows)) && PatchInRange(dto.settings) ==> AllInRange(rows)
    {
      if PatchInRange(dto.settings) {
        NewSettingsInRange(dto, id, now);
      }
      s := NewSettings(dto, id, now);
      rows := rows + [s];
    }

    /** `findByUserId`: the user's first row, or `null`. */
    function FindByUserId(userId: string): (r: Option<Settings>)
      reads this
      ensures r.Some? ==> r.value in rows && r.value.userId == userId
      ensures r.None? <==> forall i :: 0 <= i < |rows| ==> rows[i].userId != userId
    {
      Find(rows, OfUser(userId))
    }

    /** `findOrCreateByUserId`: the existing row unchanged, or one new row with every default. */
    method FindOrCreateByUserId(userId: string, id: string, now: int) returns (s: Settings)
      modifies this
      ensures old(FindByUserId(userId)).Some? ==> s == old(FindByUserId(userId)).value && rows == old(rows)
      ensures old(FindByUserId(userId)).None? ==>
                s == NewSettings(CreateSettingsDto(EmptyPatch, userId), id, now) && rows == old(rows) + [s]
      ensures s.userId == userId && FindByUserId(userId) == Some(s)
      ensures old(AllInRange(rows)) ==> AllInRange(rows)
    {
      var found := FindByUserId(userId);
      if found.Some? {
        return found.value;
      }
      s := Create(CreateSettingsDto(EmptyPatch, userId), id, now);
      assert rows[|rows| - 1] == s;
    }

    /** `update`: 404 when the user has no row; otherwise the user's first row is patched and saved. */
    method Update(userId: string, patch: SettingsPatch, now: int) returns (r: Result<Settings, HttpError>)
      modifies this
      ensures var k := FindIndex(old(rows), OfUser(userId));
        if k < 0 then r == Failure(SettingsNotFound) && rows == old(rows)
        else r == Success(ApplyPatch(old(rows)[k], patch, now)) && rows == old(rows)[k := r.value]
      ensures old(AllInRange(rows)) && PatchInRange(patch) ==> AllInRange(rows)
    {
      var k := FindIndex(rows, OfUser(userId));
      if k < 0 {
        return Failure(SettingsNotFound);
      }
      if AllInRange(rows) && PatchInRange(patch) {
        ApplyPatchInRange(rows[k], patch, now);
      }
      rows := rows[k := ApplyPatch(rows[k], patch, now)];
      r := Success(rows[k]);
    }

    /** `delete`: removes every row of the user; 404 when there was none. */
    method Delete(userId: string) returns (r: Result<(), HttpError>)
      modifies this
      ensures rows == Filter(old(rows), NotOfUser(userId))
      ensures r.Failure? <==> forall i :: 0 <= i < |old(rows)| ==> old(rows)[i].userId != userId
      ensures r.Failure? ==> r.error == SettingsNotFound && rows == old(rows)
    {
      var kept := Filter(rows, NotOfUser(userId));
      var affected := |rows| - |kept|;
      FilterFull(rows, NotOfUser(userId));
      rows := kept;
      if affected == 0 {
        return Failure(SettingsNotFound);
      }
      r := Success(());
    }
  }

  /** `getSettings` twice: the second call finds the row the first returned and adds nothing. */
  method FindOrCreateTwice(service: ChatSettingsService, userId: string, id1: string, id2: string, now: int)
    returns (first: Settings, second: Settings)
    modifies service
    ensures first == second
    ensures |service.rows| <= |old(service.rows)| + 1
  {
    first := service.FindOrCreateByUserId(userId, id1, now);
    ghost var between := service.rows;
    second := service.FindOrCreateByUserId(userId, id2, now);
    assert service.rows == between;
  }
}
