/** Writing session preferences into the configuration file and reading the defaults back
    (backend/src/config_support.rs, `sync_codex_toml_with_preferences` and `read_codex_toml_defaults`). */
module TomlSync {
  import opened Text
  import opened TomlValues
  import opened TomlReader
  import opened TomlUpsert
  import opened TomlLaws
  import opened TomlFrame

  // ----- chains of edits -----

  datatype KeyEdit = KeyEdit(section: Option<string>, key: string, value: Option<string>)

  function Apply(raw: string, edit: KeyEdit): string {
    Upsert(raw, edit.section, edit.key, edit.value)
  }

  function ApplyAll(raw: string, edits: seq<KeyEdit>): string
    decreases |edits|
  {
    if edits == [] then raw else ApplyAll(Apply(raw, edits[0]), edits[1..])
  }

  predicate Targets(edit: KeyEdit, section: Option<string>, key: string) {
    edit.section == section && edit.key == key
  }

  predicate WellFormed(edits: seq<KeyEdit>) {
    && (forall e <- edits :: IsSectionName(e.section) && IsBareKey(e.key))
    && (forall i, j | 0 <= i < j < |edits| :: !Targets(edits[j], edits[i].section, edits[i].key))
  }

  predicate WritesOneLine(edit: KeyEdit) {
    edit.value.Some? ==> OneLine(edit.value.value)
  }

  function Written(value: Option<string>): Option<string> {
    match value
    case None => None
    case Some(v) => Some(ValueText(Split(v)[0]))
  }

  /** No value of the chain leaves the section it is written to or sets the key. */
  predicate LeavesAlone(edits: seq<KeyEdit>, section: Option<string>, key: string) {
    forall e <- edits :: LeavesSection(e.section, e.value) && LeavesKey(e.section, e.value, section, key)
  }

  lemma OneLineLeavesAlone(edits: seq<KeyEdit>, section: Option<string>, key: string)
    requires forall e <- edits :: WritesOneLine(e)
    ensures LeavesAlone(edits, section, key)
  {
    forall e <- edits ensures LeavesSection(e.section, e.value) && LeavesKey(e.section, e.value, section, key) {
      OneLineHasNoRest(e.value);
    }
  }

  lemma {:induction false} ReadUnmanaged(raw: string, edits: seq<KeyEdit>, section: Option<string>, key: string)
    requires WellFormed(edits) && IsBareKey(key) && LeavesAlone(edits, section, key)
    requires forall e <- edits :: !Targets(e, section, key)
    ensures Get(ApplyAll(raw, edits), section, key) == Get(raw, section, key)
    decreases |edits|
  {
    hide LeavesSection, LeavesKey;
    if edits != [] {
      assert edits[0] in edits && forall e <- edits[1..] :: e in edits;
      ReadUnmanaged(Apply(raw, edits[0]), edits[1..], section, key);
      OtherKeyStays(raw, edits[0].section, edits[0].key, edits[0].value, section, key);
    }
  }

  /** What one edit of a chain wrote is what is read at the end, provided no later value spans
      several lines. */
  lemma {:induction false} ReadManaged(raw: string, edits: seq<KeyEdit>, i: nat)
    requires WellFormed(edits) && i < |edits|
    requires forall j | i < j < |edits| :: WritesOneLine(edits[j])
    ensures Get(ApplyAll(raw, edits), edits[i].section, edits[i].key) == Written(edits[i].value)
    decreases i
  {
    var edit := edits[0];
    assert edit in edits && edits[i] in edits && forall e <- edits[1..] :: e in edits;
    if i > 0 {
      ReadManaged(Apply(raw, edit), edits[1..], i - 1);
    } else {
      OneLineLeavesAlone(edits[1..], edit.section, edit.key);
      ReadUnmanaged(Apply(raw, edit), edits[1..], edit.section, edit.key);
      if edit.value.Some? {
        ReadBack(raw, edit.section, edit.key, edit.value.value);
      } else {
        Deletion(raw, edit.section, edit.key);
      }
    }
  }

  // ----- preferences -----

  datatype Preferences = Preferences(
    model: Option<string>,
    modelContextWindow: Option<int>,
    personality: Option<string>,
    approvalPolicy: Option<string>,
    sandboxMode: Option<string>,
    speed: Option<string>,
    mode: Option<string>,
    effort: Option<string>,
    networkAccess: Option<bool>,
    autoApproveMode: Option<string>,
    languageBridgeEnabled: Option<bool>,
    languageBridgeOutputLanguage: Option<string>)

  /** The context window arrives as an `i64`. */
  predicate InRange(p: Preferences) {
    p.modelContextWindow.Some? ==> I64_MIN <= p.modelContextWindow.value <= I64_MAX
  }

  function NonBlank(value: Option<string>): Option<string> {
    if value.Some? && !IsBlank(value.value) then value else None
  }

  function OneOf(value: Option<string>, allowed: set<string>): Option<string> {
    if value.Some? && value.value in allowed then value else None
  }

  function Positive(value: Option<int>): (r: Option<int>)
    ensures r.Some? ==> r.value > 0
  {
    if value.Some? && value.value > 0 then value else None
  }

  const PERSONALITIES := {"none", "friendly", "pragmatic"}
  const TIERS := {"fast", "flex"}
  const APPROVALS := {"manual", "turn", "session"}

  predicate IsLanguageChar(c: char) {
    'A' <= c <= 'Z' || 'a' <= c <= 'z' || '0' <= c <= '9' || c == '-' || c == '_' || c == ' '
    || c == '(' || c == ')' || c == '/' || c == '.'
  }

  function KeepLanguageChars(s: string): (r: string)
    ensures forall c <- r :: IsLanguageChar(c)
  {
    if s == "" then ""
    else (if IsLanguageChar(s[0]) then [s[0]] else "") + KeepLanguageChars(s[1..])
  }

  function NormalLanguage(value: string): (r: string)
    ensures OneLine(r)
  {
    var kept := KeepLanguageChars(Trim(value));
    var normalized := if |kept| > 48 then kept[..48] else kept;
    assert forall c <- normalized :: c in kept;
    if normalized == "" then "auto" else normalized
  }

  function OutputLanguage(p: Preferences): Option<string> {
    if p.languageBridgeOutputLanguage.None? then None
    else NonBlank(Some(NormalLanguage(p.languageBridgeOutputLanguage.value)))
  }

  function EffortKey(p: Preferences): string {
    if p.mode == Some("plan") then "plan_mode_reasoning_effort" else "model_reasoning_effort"
  }

  function Printed(value: Option<string>): Option<string> {
    if value.Some? then Some(Stringify(value.value)) else None
  }

  const SANDBOX: Option<string> := Some("sandbox_workspace_write")
  const WEBUI: Option<string> := Some("codex_webui")
  const MEMORIES: Option<string> := Some("memories")

  /** The eleven upserts, in order. */
  function SyncEdits(p: Preferences): seq<KeyEdit> {
    var window := Positive(p.modelContextWindow);
    [ KeyEdit(None, "model", Printed(NonBlank(p.model))),
      KeyEdit(None, "model_context_window", if window.Some? then Some(NatText(window.value)) else None),
      KeyEdit(None, "personality", Printed(OneOf(p.personality, PERSONALITIES))),
      KeyEdit(None, "approval_policy", Printed(p.approvalPolicy)),
      KeyEdit(None, "sandbox_mode", Printed(p.sandboxMode)),
      KeyEdit(None, "service_tier", Printed(OneOf(p.speed, TIERS))),
      KeyEdit(None, EffortKey(p), Printed(NonBlank(p.effort))),
      KeyEdit(SANDBOX, "network_access", Some(BoolText(p.networkAccess.GetOr(false)))),
      KeyEdit(WEBUI, "auto_approve", Printed(OneOf(p.autoApproveMode, APPROVALS))),
      KeyEdit(WEBUI, "language_bridge", Some(BoolText(p.languageBridgeEnabled.GetOr(false)))),
      KeyEdit(WEBUI, "language_bridge_output_language", Printed(OutputLanguage(p))) ]
  }

  const SCHEMA_HEADER := "#:schema https://" + "developers.openai.com" + "/codex/config-schema.json"

  /** A file that is missing or blank starts from the schema comment. */
  function Prepared(raw: string): string {
    if IsBlank(raw) then SCHEMA_HEADER + "\n" else raw
  }

  function SyncText(raw: string, p: Preferences): string {
    ApplyAll(Prepared(raw), SyncEdits(p))
  }

  method UpsertAll(existing: string, edits: seq<KeyEdit>) returns (raw: string)
    ensures raw == ApplyAll(existing, edits)
  {
    raw := existing;
    for i := 0 to |edits|
      invariant ApplyAll(raw, edits[i..]) == ApplyAll(existing, edits)
    {
      assert edits[i..][0] == edits[i] && edits[i..][1..] == edits[i + 1..];
      raw := UpsertTomlValue(raw, edits[i].section, edits[i].key, edits[i].value);
    }
  }

  method SyncCodexToml(existing: string, p: Preferences) returns (raw: string)
    ensures raw == SyncText(existing, p)
  {
    raw := existing;
    if IsBlank(raw) {
      raw := SCHEMA_HEADER + "\n";
    }
    raw := UpsertAll(raw, SyncEdits(p));
  }

  // ----- reading the defaults -----

  datatype Defaults = Defaults(
    model: Option<string>,
    modelContextWindow: Option<int>,
    modelReasoningEffort: Option<string>,
    planModeReasoningEffort: Option<string>,
    personality: Option<string>,
    approvalPolicy: Option<string>,
    sandboxMode: Option<string>,
    serviceTier: string,
    networkAccess: Option<bool>,
    autoApproveMode: Option<string>,
    languageBridgeEnabled: Option<bool>,
    languageBridgeOutputLanguage: Option<string>,
    memories: MemoryDefaults)

  datatype MemoryDefaults = MemoryDefaults(
    disableOnExternalContext: Option<bool>,
    generateMemories: Option<bool>,
    useMemories: Option<bool>,
    maxRawMemoriesForConsolidation: Option<int>,
    maxUnusedDays: Option<int>,
    maxRolloutAgeDays: Option<int>,
    maxRolloutsPerStartup: Option<int>,
    minRolloutIdleHours: Option<int>,
    minRateLimitRemainingPercent: Option<int>,
    extractModel: Option<string>,
    consolidationModel: Option<string>)

  function GetString(raw: string, section: Option<string>, key: string): Option<string> {
    ParseString(Get(raw, section, key))
  }

  function GetBool(raw: string, section: Option<string>, key: string): Option<bool> {
    ParseBool(Get(raw, section, key))
  }

  function GetInteger(raw: string, section: Option<string>, key: string): Option<int> {
    ParseInteger(Get(raw, section, key))
  }

  // The keys of the section that only reading knows.
  const DISABLE_ON_EXTERNAL_CONTEXT: string := "disable_on_external_context"
  const NO_MEMORIES_IF_MCP_OR_WEB_SEARCH: string := "no_memories_if_mcp_or_web_search"
  const GENERATE_MEMORIES: string := "generate_memories"
  const USE_MEMORIES: string := "use_memories"
  const MAX_RAW_MEMORIES_FOR_CONSOLIDATION: string := "max_raw_memories_for_consolidation"
  const MAX_UNUSED_DAYS: string := "max_unused_days"
  const MAX_ROLLOUT_AGE_DAYS: string := "max_rollout_age_days"
  const MAX_ROLLOUTS_PER_STARTUP: string := "max_rollouts_per_startup"
  const MIN_ROLLOUT_IDLE_HOURS: string := "min_rollout_idle_hours"
  const MIN_RATE_LIMIT_REMAINING_PERCENT: string := "min_rate_limit_remaining_percent"
  const EXTRACT_MODEL: string := "extract_model"
  const CONSOLIDATION_MODEL: string := "consolidation_model"

  predicate IsMemoryKey(key: string) {
    IsMemoryFlag(key) || IsMemoryLimit(key) || key == EXTRACT_MODEL || key == CONSOLIDATION_MODEL
  }

  predicate IsMemoryFlag(key: string) {
    || key == DISABLE_ON_EXTERNAL_CONTEXT || key == NO_MEMORIES_IF_MCP_OR_WEB_SEARCH
    || key == GENERATE_MEMORIES || key == USE_MEMORIES
  }

  predicate IsMemoryLimit(key: string) {
    || key == MAX_RAW_MEMORIES_FOR_CONSOLIDATION || key == MAX_UNUSED_DAYS || key == MAX_ROLLOUT_AGE_DAYS
    || key == MAX_ROLLOUTS_PER_STARTUP || key == MIN_ROLLOUT_IDLE_HOURS || key == MIN_RATE_LIMIT_REMAINING_PERCENT
  }

  function ReadMemories(raw: string): MemoryDefaults {
    var disable := GetBool(raw, MEMORIES, DISABLE_ON_EXTERNAL_CONTEXT);
    MemoryDefaults(
      if disable.Some? then disable else GetBool(raw, MEMORIES, NO_MEMORIES_IF_MCP_OR_WEB_SEARCH),
      GetBool(raw, MEMORIES, GENERATE_MEMORIES),
      GetBool(raw, MEMORIES, USE_MEMORIES),
      GetInteger(raw, MEMORIES, MAX_RAW_MEMORIES_FOR_CONSOLIDATION),
      GetInteger(raw, MEMORIES, MAX_UNUSED_DAYS),
      GetInteger(raw, MEMORIES, MAX_ROLLOUT_AGE_DAYS),
      GetInteger(raw, MEMORIES, MAX_ROLLOUTS_PER_STARTUP),
      GetInteger(raw, MEMORIES, MIN_ROLLOUT_IDLE_HOURS),
      GetInteger(raw, MEMORIES, MIN_RATE_LIMIT_REMAINING_PERCENT),
      GetString(raw, MEMORIES, EXTRACT_MODEL),
      GetString(raw, MEMORIES, CONSOLIDATION_MODEL))
  }

  function ReadDefaults(raw: string): Defaults {
    Defaults(
      GetString(raw, None, "model"),
      Positive(GetInteger(raw, None, "model_context_window")),
      GetString(raw, None, "model_reasoning_effort"),
      GetString(raw, None, "plan_mode_reasoning_effort"),
      OneOf(GetString(raw, None, "personality"), PERSONALITIES),
      GetString(raw, None, "approval_policy"),
      GetString(raw, None, "sandbox_mode"),
      OneOf(GetString(raw, None, "service_tier"), TIERS).GetOr("auto"),
      GetBool(raw, SANDBOX, "network_access"),
      OneOf(GetString(raw, WEBUI, "auto_approve"), APPROVALS),
      GetBool(raw, WEBUI, "language_bridge"),
      GetString(raw, WEBUI, "language_bridge_output_language"),
      ReadMemories(raw))
  }

  /** The defaults a synchronised file should give: the normalised preferences, and everything
      that is not synchronised as it was before. */
  function Expected(before: Defaults, p: Preferences): Defaults {
    var plan := p.mode == Some("plan");
    Defaults(
      NonBlank(p.model),
      Positive(p.modelContextWindow),
      if plan then before.modelReasoningEffort else NonBlank(p.effort),
      if plan then NonBlank(p.effort) else before.planModeReasoningEffort,
      OneOf(p.personality, PERSONALITIES),
      p.approvalPolicy,
      p.sandboxMode,
      OneOf(p.speed, TIERS).GetOr("auto"),
      Some(p.networkAccess.GetOr(false)),
      OneOf(p.autoApproveMode, APPROVALS),
      Some(p.languageBridgeEnabled.GetOr(false)),
      OutputLanguage(p),
      before.memories)
  }

  predicate OptionalOneLine(value: Option<string>) {
    value.Some? ==> OneLine(value.value)
  }

  /** The four preferences that are written as they come. */
  predicate FreeTextOneLine(p: Preferences) {
    && OptionalOneLine(NonBlank(p.model))
    && OptionalOneLine(p.approvalPolicy)
    && OptionalOneLine(p.sandboxMode)
    && OptionalOneLine(NonBlank(p.effort))
  }

  // ----- the theorem -----

  lemma PreparedReadsAsBefore(raw: string, section: Option<string>, key: string)
    requires IsBareKey(key)
    ensures Get(Prepared(raw), section, key) == Get(raw, section, key)
  {
    if IsBlank(raw) {
      GetReadsParts(raw, section, key);
      BlankIsPadding(raw);
      SplitKeepsPadding(raw);
      BlankReadsNone(Split(raw), None, section, key);
      SchemaHeaderIsComment();
      CommentReadsNone(SCHEMA_HEADER, section, key);
    }
  }

  lemma SchemaHeaderIsComment()
    ensures SCHEMA_HEADER[0] == '#' && OneLine(SCHEMA_HEADER)
  {
    var a, b, c := "#:schema https://", "developers.openai.com", "/codex/config-schema.json";
    assert OneLine(a);
    assert OneLine(b);
    assert OneLine(c);
    assert SCHEMA_HEADER == a + b + c && a[0] == '#';
  }

  lemma BlankIsPadding(s: string)
    requires IsBlank(s)
    ensures Padding(s)
  {
    var front := TrimStartSplits(s);
    TrimStartIsBare(s);
    var core := TrimStart(s);
    var pad := TrimEndSplits(core);
    assert core == pad;
    assert core == "" || core[0] in core;
    assert s == front + core;
  }

  lemma {:induction false} SplitKeepsPadding(s: string)
    requires Padding(s)
    ensures forall l <- Split(s) :: Padding(l)
  {
    if s != "" {
      assert s[0] in s && forall c <- s[1..] :: c in s;
      SplitKeepsPadding(s[1..]);
      var rest := Split(s[1..]);
      assert rest[0] in rest && forall l <- rest[1..] :: l in rest;
    }
  }

  lemma {:induction false} BlankReadsNone(lines: seq<string>, current: Option<string>, section: Option<string>,
                                          key: string)
    requires IsBareKey(key) && forall l <- lines :: Padding(l)
    ensures Read(lines, current, section, key) == None
  {
    if lines != [] {
      assert lines[0] in lines && forall l <- lines[1..] :: l in lines;
      TrimStartPadding(lines[0]);
      BlankReadsNone(lines[1..], current, section, key);
    }
  }

  lemma CommentReadsNone(line: string, section: Option<string>, key: string)
    requires IsBareKey(key) && line != "" && line[0] == '#' && OneLine(line)
    ensures Get(line + "\n", section, key) == None
  {
    GetReadsParts(line + "\n", section, key);
    assert line + "\n" == line + "\n" + "";
    SplitAtBreak(line, "");
    SplitOneLine(line);
    assert key[0] in key;
    TrimEndKeepsFirst('#', line[1..]);
    assert line == ['#'] + line[1..];
    assert ([line] + [""])[1..] == [""];
    ReadBlanks([""], None, section, key);
  }

  lemma TopLevelKeysAreBare()
    ensures IsBareKey("model") && IsBareKey("model_context_window") && IsBareKey("personality")
    ensures IsBareKey("approval_policy") && IsBareKey("sandbox_mode") && IsBareKey("service_tier")
  {
  }

  lemma EffortKeysAreBare()
    ensures IsBareKey("plan_mode_reasoning_effort") && IsBareKey("model_reasoning_effort")
  {
  }

  lemma SectionKeysAreBare()
    ensures IsBareKey("network_access") && IsBareKey("auto_approve")
    ensures IsBareKey("language_bridge") && IsBareKey("language_bridge_output_language")
  {
  }

  lemma SectionsAreNames()
    ensures IsSectionName(SANDBOX) && IsSectionName(WEBUI)
  {
  }

  /** Enough about the eleven targets to tell them apart. */
  ghost predicate Distinguished(e: seq<KeyEdit>) {
    && |e| == 11
    && |e[0].key| == 5 && |e[1].key| == 20 && |e[2].key| == 11 && |e[3].key| == 15 && |e[4].key| == 12
    && |e[5].key| == 12 && |e[6].key| in {22, 26} && |e[7].key| == 14 && |e[8].key| == 12
    && |e[9].key| == 15 && |e[10].key| == 31 && e[4].key[1] != e[5].key[1]
    && (forall i | 0 <= i < 7 :: e[i].section.None?)
    && (forall i | 7 <= i < 11 :: e[i].section.Some?)
  }

  lemma SyncEditsDistinguished(p: Preferences)
    ensures Distinguished(SyncEdits(p))
  {
  }

  lemma DistinguishedAreDistinct(e: seq<KeyEdit>, i: nat, j: nat)
    requires Distinguished(e) && i < j < 11
    ensures !Targets(e[j], e[i].section, e[i].key)
  {
  }

  lemma SyncTargets(p: Preferences)
    ensures forall e <- SyncEdits(p) :: IsSectionName(e.section) && IsBareKey(e.key)
  {
    TopLevelKeysAreBare();
    EffortKeysAreBare();
    SectionKeysAreBare();
    SectionsAreNames();
  }

  lemma SyncEditsWellFormed(p: Preferences)
    ensures WellFormed(SyncEdits(p))
  {
    var e := SyncEdits(p);
    SyncTargets(p);
    SyncEditsDistinguished(p);
    forall i, j | 0 <= i < j < |e| ensures !Targets(e[j], e[i].section, e[i].key) {
      DistinguishedAreDistinct(e, i, j);
    }
  }

  lemma FixedTextsAreOneLine(p: Preferences)
    ensures OptionalOneLine(OneOf(p.personality, PERSONALITIES))
    ensures OptionalOneLine(OneOf(p.speed, TIERS))
    ensures OptionalOneLine(OneOf(p.autoApproveMode, APPROVALS))
    ensures OptionalOneLine(OutputLanguage(p))
    ensures forall b: bool :: OneLine(BoolText(b))
    ensures forall n: nat :: OneLine(NatText(n))
  {
    assert forall s | s in PERSONALITIES + TIERS + APPROVALS :: OneLine(s);
  }

  lemma PrintedIsOneLine(value: Option<string>)
    ensures OptionalOneLine(Printed(value)) <==> OptionalOneLine(value)
  {
    if value.Some? {
      PrintedLineParses(value.value);
    }
  }

  lemma FreeTextWrites(p: Preferences)
    ensures var e := SyncEdits(p);
            && (WritesOneLine(e[0]) <==> OptionalOneLine(NonBlank(p.model)))
            && (WritesOneLine(e[3]) <==> OptionalOneLine(p.approvalPolicy))
            && (WritesOneLine(e[4]) <==> OptionalOneLine(p.sandboxMode))
            && (WritesOneLine(e[6]) <==> OptionalOneLine(NonBlank(p.effort)))
  {
    PrintedIsOneLine(NonBlank(p.model));
    PrintedIsOneLine(p.approvalPolicy);
    PrintedIsOneLine(p.sandboxMode);
    PrintedIsOneLine(NonBlank(p.effort));
  }

  lemma FixedWrites(p: Preferences)
    ensures forall i | 0 <= i < 11 && i !in {0, 3, 4, 6} :: WritesOneLine(SyncEdits(p)[i])
  {
    FixedTextsAreOneLine(p);
    PrintedIsOneLine(OneOf(p.personality, PERSONALITIES));
    PrintedIsOneLine(OneOf(p.speed, TIERS));
    PrintedIsOneLine(OneOf(p.autoApproveMode, APPROVALS));
    PrintedIsOneLine(OutputLanguage(p));
  }

  /** Only four of the edits can write more than one line. */
  lemma SyncWrites(p: Preferences)
    ensures var e := SyncEdits(p);
            && (WritesOneLine(e[0]) <==> OptionalOneLine(NonBlank(p.model)))
            && (WritesOneLine(e[3]) <==> OptionalOneLine(p.approvalPolicy))
            && (WritesOneLine(e[4]) <==> OptionalOneLine(p.sandboxMode))
            && (WritesOneLine(e[6]) <==> OptionalOneLine(NonBlank(p.effort)))
            && forall i | 0 <= i < 11 && i !in {0, 3, 4, 6} :: WritesOneLine(e[i])
  {
    FreeTextWrites(p);
    FixedWrites(p);
  }

  ghost predicate OneLineFrom(p: Preferences, i: nat) {
    forall j | i <= j < 11 :: WritesOneLine(SyncEdits(p)[j])
  }

  /** A string that was written is read back if and only if it is one line. */
  lemma ReadSyncedString(raw: string, p: Preferences, i: nat, value: Option<string>)
    requires i < 11 && OneLineFrom(p, i + 1) && SyncEdits(p)[i].value == Printed(value)
    ensures GetString(SyncText(raw, p), SyncEdits(p)[i].section, SyncEdits(p)[i].key) == value
            <==> OptionalOneLine(value)
  {
    SyncEditsWellFormed(p);
    ReadManaged(Prepared(raw), SyncEdits(p), i);
    if value.Some? {
      PrintedLineParses(value.value);
    }
  }

  lemma ReadSyncedText(raw: string, p: Preferences, i: nat, text: string)
    requires i < 11 && OneLineFrom(p, i) && SyncEdits(p)[i].value == Some(text)
    ensures Get(SyncText(raw, p), SyncEdits(p)[i].section, SyncEdits(p)[i].key) == Some(ValueText(text))
  {
    SyncEditsWellFormed(p);
    ReadManaged(Prepared(raw), SyncEdits(p), i);
    assert WritesOneLine(SyncEdits(p)[i]);
    SplitOneLine(text);
  }

  /** A key that the synchronisation does not manage. */
  predicate IsUnmanaged(p: Preferences, section: Option<string>, key: string) {
    IsBareKey(key) && forall e <- SyncEdits(p) :: !Targets(e, section, key)
  }

  lemma UnmanagedStays(raw: string, p: Preferences, section: Option<string>, key: string)
    requires IsUnmanaged(p, section, key) && LeavesAlone(SyncEdits(p), section, key)
    ensures Get(SyncText(raw, p), section, key) == Get(raw, section, key)
  {
    hide LeavesAlone, SyncEdits, Get, IsBareKey;
    SyncEditsWellFormed(p);
    PreparedReadsAsBefore(raw, section, key);
    ReadUnmanaged(Prepared(raw), SyncEdits(p), section, key);
  }

  lemma OneLinesLeaveAlone(p: Preferences, section: Option<string>, key: string)
    requires OneLineFrom(p, 0)
    ensures LeavesAlone(SyncEdits(p), section, key)
  {
    var e := SyncEdits(p);
    assert forall x <- e :: WritesOneLine(x) by {
      assert forall i | 0 <= i < |e| :: WritesOneLine(e[i]);
    }
    OneLineLeavesAlone(e, section, key);
  }

  lemma SyncedFreeText(raw: string, p: Preferences)
    requires FreeTextOneLine(p)
    ensures var t := SyncText(raw, p);
            && GetString(t, None, "model") == NonBlank(p.model)
            && GetString(t, None, "approval_policy") == p.approvalPolicy
            && GetString(t, None, "sandbox_mode") == p.sandboxMode
            && GetString(t, None, EffortKey(p)) == NonBlank(p.effort)
  {
    SyncWrites(p);
    ReadSyncedString(raw, p, 0, NonBlank(p.model));
    ReadSyncedString(raw, p, 3, p.approvalPolicy);
    ReadSyncedString(raw, p, 4, p.sandboxMode);
    ReadSyncedString(raw, p, 6, NonBlank(p.effort));
  }

  lemma SyncedChoices(raw: string, p: Preferences)
    requires OneLineFrom(p, 0)
    ensures var t := SyncText(raw, p);
            && GetString(t, None, "personality") == OneOf(p.personality, PERSONALITIES)
            && GetString(t, None, "service_tier") == OneOf(p.speed, TIERS)
            && GetString(t, WEBUI, "auto_approve") == OneOf(p.autoApproveMode, APPROVALS)
            && GetString(t, WEBUI, "language_bridge_output_language") == OutputLanguage(p)
  {
    FixedTextsAreOneLine(p);
    hide OneOf, OutputLanguage, GetString, Stringify, OptionalOneLine, SyncText, WritesOneLine;
    ReadSyncedString(raw, p, 2, OneOf(p.personality, PERSONALITIES));
    ReadSyncedString(raw, p, 5, OneOf(p.speed, TIERS));
    ReadSyncedString(raw, p, 8, OneOf(p.autoApproveMode, APPROVALS));
    ReadSyncedString(raw, p, 10, OutputLanguage(p));
  }

  lemma SyncedWindow(raw: string, p: Preferences)
    requires OneLineFrom(p, 0) && InRange(p)
    ensures Positive(GetInteger(SyncText(raw, p), None, "model_context_window")) == Positive(p.modelContextWindow)
  {
    var window := Positive(p.modelContextWindow);
    if window.Some? {
      ReadSyncedText(raw, p, 1, NatText(window.value));
      IntegerRoundTrip(window.value);
    } else {
      SyncEditsWellFormed(p);
      ReadManaged(Prepared(raw), SyncEdits(p), 1);
    }
  }

  lemma SyncedFlag(raw: string, p: Preferences, i: nat, flag: bool)
    requires i < 11 && OneLineFrom(p, 0) && SyncEdits(p)[i].value == Some(BoolText(flag))
    ensures GetBool(SyncText(raw, p), SyncEdits(p)[i].section, SyncEdits(p)[i].key) == Some(flag)
  {
    ReadSyncedText(raw, p, i, BoolText(flag));
    BoolRoundTrip(flag);
  }

  lemma MemoryFlagIsBare(key: string)
    requires IsMemoryFlag(key)
    ensures IsBareKey(key)
  {
  }

  lemma MemoryLimitIsBare(key: string)
    requires IsMemoryLimit(key)
    ensures IsBareKey(key)
  {
  }

  lemma MemoryKeyIsBare(key: string)
    requires IsMemoryKey(key)
    ensures IsBareKey(key)
  {
    hide IsMemoryFlag, IsMemoryLimit;
    if IsMemoryFlag(key) {
      MemoryFlagIsBare(key);
    } else if IsMemoryLimit(key) {
      MemoryLimitIsBare(key);
    }
  }

  /** No key of the memories section is managed, so each reads as before. */
  lemma MemoryKeyUnchanged(raw: string, p: Preferences, key: string)
    requires OneLineFrom(p, 0) && IsMemoryKey(key)
    ensures Get(SyncText(raw, p), MEMORIES, key) == Get(raw, MEMORIES, key)
  {
    hide IsMemoryKey;
    MemoryKeyIsBare(key);
    assert forall e <- SyncEdits(p) :: !Targets(e, MEMORIES, key);
    OneLinesLeaveAlone(p, MEMORIES, key);
    UnmanagedStays(raw, p, MEMORIES, key);
  }

  lemma MemoriesUnchanged(raw: string, p: Preferences)
    requires OneLineFrom(p, 0)
    ensures ReadMemories(SyncText(raw, p)) == ReadMemories(raw)
  {
    forall key | IsMemoryKey(key) ensures Get(SyncText(raw, p), MEMORIES, key) == Get(raw, MEMORIES, key) {
      MemoryKeyUnchanged(raw, p, key);
    }
  }

  lemma OtherEffortUnchanged(raw: string, p: Preferences)
    requires OneLineFrom(p, 0)
    ensures var other := if p.mode == Some("plan") then "model_reasoning_effort" else "plan_mode_reasoning_effort";
            GetString(SyncText(raw, p), None, other) == GetString(raw, None, other)
  {
    var other := if p.mode == Some("plan") then "model_reasoning_effort" else "plan_mode_reasoning_effort";
    EffortKeysAreBare();
    SyncEditsDistinguished(p);
    var e := SyncEdits(p);
    assert |other| in {22, 26} && |other| != |EffortKey(p)| && e[6].key == EffortKey(p);
    assert forall i | 0 <= i < 11 :: !Targets(e[i], None, other);
    OneLinesLeaveAlone(p, None, other);
    UnmanagedStays(raw, p, None, other);
  }

  lemma SyncReadsBack(raw: string, p: Preferences)
    requires InRange(p) && FreeTextOneLine(p)
    ensures ReadDefaults(SyncText(raw, p)) == Expected(ReadDefaults(raw), p)
  {
    SyncWrites(p);
    SyncedFreeText(raw, p);
    SyncedChoices(raw, p);
    SyncedWindow(raw, p);
    SyncedFlag(raw, p, 7, p.networkAccess.GetOr(false));
    SyncedFlag(raw, p, 9, p.languageBridgeEnabled.GetOr(false));
    MemoriesUnchanged(raw, p);
    OtherEffortUnchanged(raw, p);
  }

  lemma SyncLosesText(raw: string, p: Preferences)
    requires !FreeTextOneLine(p)
    ensures var t := SyncText(raw, p);
            || GetString(t, None, EffortKey(p)) != NonBlank(p.effort)
            || GetString(t, None, "sandbox_mode") != p.sandboxMode
            || GetString(t, None, "approval_policy") != p.approvalPolicy
            || GetString(t, None, "model") != NonBlank(p.model)
  {
    SyncWrites(p);
    if !OptionalOneLine(NonBlank(p.effort)) {
      ReadSyncedString(raw, p, 6, NonBlank(p.effort));
    } else if !OptionalOneLine(p.sandboxMode) {
      ReadSyncedString(raw, p, 4, p.sandboxMode);
    } else if !OptionalOneLine(p.approvalPolicy) {
      ReadSyncedString(raw, p, 3, p.approvalPolicy);
    } else {
      ReadSyncedString(raw, p, 0, NonBlank(p.model));
    }
  }

  /** Reading the synchronised file gives exactly the normalised preferences, and everything else
      as before, if and only if no preference that is written as it comes spans several lines. */
  lemma SyncExact(raw: string, p: Preferences)
    requires InRange(p)
    ensures ReadDefaults(SyncText(raw, p)) == Expected(ReadDefaults(raw), p) <==> FreeTextOneLine(p)
  {
    if FreeTextOneLine(p) {
      SyncReadsBack(raw, p);
    } else {
      SyncLosesText(raw, p);
    }
  }
}
