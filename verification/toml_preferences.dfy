/** What becomes of the preferences on their way into the configuration file and back, told value by value. */
module TomlPreferences {
  import opened Text
  import opened TomlValues
  import opened TomlReader
  import opened TomlSync

  // ----- blank texts -----

  lemma BlankIsSpace(s: string)
    ensures IsBlank(s) <==> forall c <- s :: IsSpace(c)
  {
    if IsBlank(s) {
      BlankIsPadding(s);
    }
    if forall c <- s :: IsSpace(c) {
      SpaceIsBlank(s);
    }
  }

  lemma SpaceIsBlank(s: string)
    requires forall c <- s :: IsSpace(c)
    ensures IsBlank(s)
  {
    TrimStartOfPadded(s, "");
    assert s + "" == s;
  }

  // ----- the output language -----

  /** The characters that the name of a language may have. */
  predicate MayName(c: char) {
    'A' <= c <= 'Z' || 'a' <= c <= 'z' || '0' <= c <= '9' || c in ['-', '_', ' ', '(', ')', '/', '.']
  }

  /** A stretch of such characters, and a stretch of others behind it. */
  datatype Stretch = Stretch(kept: string, dropped: string)

  predicate AreStretches(parts: seq<Stretch>) {
    forall p <- parts :: (forall c <- p.kept :: MayName(c)) && forall c <- p.dropped :: !MayName(c)
  }

  function Whole(parts: seq<Stretch>): string {
    if parts == [] then "" else parts[0].kept + parts[0].dropped + Whole(parts[1..])
  }

  function Kept(parts: seq<Stretch>): string {
    if parts == [] then "" else parts[0].kept + Kept(parts[1..])
  }

  lemma NamesAlike(c: char)
    ensures MayName(c) <==> IsLanguageChar(c)
  {
  }

  lemma {:induction false} KeepsAll(s: string, rest: string)
    requires forall c <- s :: MayName(c)
    ensures KeepLanguageChars(s + rest) == s + KeepLanguageChars(rest)
  {
    if s == "" {
      assert s + rest == rest && s + KeepLanguageChars(rest) == KeepLanguageChars(rest);
    } else {
      assert s[0] in s && forall c <- s[1..] :: c in s;
      NamesAlike(s[0]);
      KeepsAll(s[1..], rest);
      assert (s + rest)[1..] == s[1..] + rest;
      assert [s[0]] + (s[1..] + KeepLanguageChars(rest)) == s + KeepLanguageChars(rest);
    }
  }

  lemma {:induction false} DropsAll(s: string, rest: string)
    requires forall c <- s :: !MayName(c)
    ensures KeepLanguageChars(s + rest) == KeepLanguageChars(rest)
  {
    if s == "" {
      assert s + rest == rest;
    } else {
      assert s[0] in s && forall c <- s[1..] :: c in s;
      NamesAlike(s[0]);
      DropsAll(s[1..], rest);
      assert (s + rest)[1..] == s[1..] + rest;
    }
  }

  lemma {:induction false} KeepsStretches(parts: seq<Stretch>)
    requires AreStretches(parts)
    ensures KeepLanguageChars(Whole(parts)) == Kept(parts)
  {
    if parts != [] {
      assert parts[0] in parts && forall p <- parts[1..] :: p in parts;
      var rest := Whole(parts[1..]);
      assert parts[0].kept + parts[0].dropped + rest == parts[0].kept + (parts[0].dropped + rest);
      KeepsAll(parts[0].kept, parts[0].dropped + rest);
      DropsAll(parts[0].dropped, rest);
      KeepsStretches(parts[1..]);
    }
  }

  /** Of the trimmed name of a language the letters, digits and a few marks are kept, the first 48 of them;
      and `auto` stands for nothing. */
  lemma LanguageIs(value: string, parts: seq<Stretch>)
    requires AreStretches(parts) && Trim(value) == Whole(parts)
    ensures NormalLanguage(value)
         == if Kept(parts) == "" then "auto" else if |Kept(parts)| <= 48 then Kept(parts) else Kept(parts)[..48]
  {
    KeepsStretches(parts);
  }

  /** Every text is made of such stretches. */
  lemma {:induction false} InStretches(s: string) returns (parts: seq<Stretch>)
    ensures AreStretches(parts) && Whole(parts) == s
  {
    if s == "" {
      parts := [];
    } else {
      var rest := InStretches(s[1..]);
      var first := if MayName(s[0]) then Stretch([s[0]], "") else Stretch("", [s[0]]);
      parts := [first] + rest;
      assert parts[1..] == rest && s == [s[0]] + s[1..];
    }
  }

  // ----- the file that is not there yet -----

  /** A file that is missing, or white space only, begins with the schema comment; any other is taken as
      it is. */
  lemma StartsWithSchema(raw: string, p: Preferences)
    ensures SyncText(raw, p)
         == if forall c <- raw :: IsSpace(c)
            then ApplyAll("#:schema https://" + "developers.openai.com" + "/codex/config-schema.json" + "\n",
                          SyncEdits(p))
            else ApplyAll(raw, SyncEdits(p))
  {
    hide ApplyAll, SyncEdits, IsBlank;
    BlankIsSpace(raw);
  }

  // ----- the defaults read back -----

  /** What a synchronised file gives, when the texts that are written as they come are of one line each. */
  lemma DefaultsComeBack(raw: string, p: Preferences)
    requires InRange(p) && FreeTextOneLine(p)
    ensures var d := ReadDefaults(SyncText(raw, p));
            && d.model == (if p.model.Some? && exists c <- p.model.value :: !IsSpace(c) then p.model else None)
            && d.modelContextWindow == (if p.modelContextWindow.Some? && p.modelContextWindow.value > 0
                                        then p.modelContextWindow else None)
            && d.personality == (if p.personality in [Some("none"), Some("friendly"), Some("pragmatic")]
                                 then p.personality else None)
            && d.approvalPolicy == p.approvalPolicy && d.sandboxMode == p.sandboxMode
            && d.serviceTier == (if p.speed == Some("fast") then "fast" else if p.speed == Some("flex") then "flex"
                                 else "auto")
            && d.networkAccess == Some(p.networkAccess.Some? && p.networkAccess.value)
            && d.autoApproveMode == (if p.autoApproveMode in [Some("manual"), Some("turn"), Some("session")]
                                     then p.autoApproveMode else None)
            && d.languageBridgeEnabled == Some(p.languageBridgeEnabled.Some? && p.languageBridgeEnabled.value)
            && d.memories == ReadDefaults(raw).memories
    ensures var effort := if p.effort.Some? && exists c <- p.effort.value :: !IsSpace(c) then p.effort else None;
            var d, before := ReadDefaults(SyncText(raw, p)), ReadDefaults(raw);
            if p.mode == Some("plan") then
              d.planModeReasoningEffort == effort && d.modelReasoningEffort == before.modelReasoningEffort
            else d.modelReasoningEffort == effort && d.planModeReasoningEffort == before.planModeReasoningEffort
    ensures var language := ReadDefaults(SyncText(raw, p)).languageBridgeOutputLanguage;
            if p.languageBridgeOutputLanguage.None? then language.None?
            else var l := NormalLanguage(p.languageBridgeOutputLanguage.value);
                 language == if exists c <- l :: !IsSpace(c) then Some(l) else None
  {
    hide SyncText, ReadDefaults, NormalLanguage, FreeTextOneLine, IsBlank;
    SyncExact(raw, p);
    NotBlank(p.model);
    NotBlank(p.effort);
    if p.languageBridgeOutputLanguage.Some? {
      NotBlank(Some(NormalLanguage(p.languageBridgeOutputLanguage.value)));
    }
  }

  lemma NotBlank(value: Option<string>)
    ensures NonBlank(value) == if value.Some? && exists c <- value.value :: !IsSpace(c) then value else None
  {
    if value.Some? {
      BlankIsSpace(value.value);
    }
  }

  /** Each memory setting is read from its own key. */
  lemma MemoriesAreRead(raw: string)
    ensures var m, section := ReadDefaults(raw).memories, Some("memories");
            && m.generateMemories == ParseBool(Get(raw, section, "generate_memories"))
            && m.useMemories == ParseBool(Get(raw, section, "use_memories"))
            && m.maxRawMemoriesForConsolidation
               == ParseInteger(Get(raw, section, "max_raw_memories_for_consolidation"))
            && m.maxUnusedDays == ParseInteger(Get(raw, section, "max_unused_days"))
            && m.maxRolloutAgeDays == ParseInteger(Get(raw, section, "max_rollout_age_days"))
            && m.maxRolloutsPerStartup == ParseInteger(Get(raw, section, "max_rollouts_per_startup"))
            && m.minRolloutIdleHours == ParseInteger(Get(raw, section, "min_rollout_idle_hours"))
            && m.minRateLimitRemainingPercent
               == ParseInteger(Get(raw, section, "min_rate_limit_remaining_percent"))
            && m.extractModel == ParseString(Get(raw, section, "extract_model"))
            && m.consolidationModel == ParseString(Get(raw, section, "consolidation_model"))
    ensures var m, section := ReadDefaults(raw).memories, Some("memories");
            var named, former := ParseBool(Get(raw, section, "disable_on_external_context")),
                                 ParseBool(Get(raw, section, "no_memories_if_mcp_or_web_search"));
            m.disableOnExternalContext == if named.Some? then named else former
  {
    hide Get, ParseBool, ParseInteger, ParseString;
  }
}
