/** Synchronising once more changes nothing. */
module TomlAgain {
  import opened Text
  import opened TomlValues
  import opened TomlReader
  import opened TomlUpsert
  import opened TomlLaws
  import opened TomlFrame
  import opened TomlSync

  // ----- lines on which an edit has been made -----

  /** Every line that sets the key is this one; without a line, none sets it. */
  predicate AllHitsAre(lines: seq<string>, current: Option<string>, section: Option<string>, key: string,
                       line: Option<string>) {
    lines == [] ||
    ((Hit(lines[0], current, section, key) ==> line == Some(lines[0]))
     && AllHitsAre(lines[1..], NextSection(current, lines[0]), section, key, line))
  }

  lemma {:induction false} HitsConcat(a: seq<string>, b: seq<string>, current: Option<string>, section: Option<string>,
                                      key: string, line: Option<string>)
    ensures AllHitsAre(a + b, current, section, key, line)
       <==> AllHitsAre(a, current, section, key, line) && AllHitsAre(b, SectionAfter(a, current), section, key, line)
  {
    if a == [] {
      assert a + b == b;
    } else {
      HitsConcat(a[1..], b, NextSection(current, a[0]), section, key, line);
      assert (a + b)[0] == a[0] && (a + b)[1..] == a[1..] + b;
    }
  }

  /** Such lines are what rewriting them gives. */
  lemma {:induction false} HitsStay(lines: seq<string>, current: Option<string>, section: Option<string>, key: string,
                                    line: string)
    ensures AllHitsAre(lines, current, section, key, Some(line))
            <==> ReplaceHits(lines, current, section, key, [line]) == lines
  {
    if lines != [] {
      var next := NextSection(current, lines[0]);
      HitsStay(lines[1..], next, section, key, line);
      var head := if Hit(lines[0], current, section, key) then line else lines[0];
      var rest := ReplaceHits(lines[1..], next, section, key, [line]);
      assert ([head] + rest)[0] == head && ([head] + rest)[1..] == rest;
      assert [lines[0]] + lines[1..] == lines;
    }
  }

  lemma {:induction false} NoHits(lines: seq<string>, current: Option<string>, section: Option<string>, key: string)
    ensures AllHitsAre(lines, current, section, key, None) <==> !HasHit(lines, current, section, key)
  {
    if lines != [] {
      NoHits(lines[1..], NextSection(current, lines[0]), section, key);
    }
  }

  lemma {:induction false} BlanksHitNothing(blanks: seq<string>, current: Option<string>, section: Option<string>,
                                            key: string, line: Option<string>)
    requires forall l <- blanks :: l == ""
    ensures AllHitsAre(blanks, current, section, key, line)
  {
    if blanks != [] {
      assert blanks[0] in blanks && forall l <- blanks[1..] :: l in blanks;
      BlanksHitNothing(blanks[1..], NextSection(current, blanks[0]), section, key, line);
    }
  }

  lemma HitsInTidy(lines: seq<string>, section: Option<string>, key: string, line: Option<string>)
    ensures AllHitsAre(Tidy(lines), None, section, key, line) <==> AllHitsAre(lines, None, section, key, line)
  {
    if lines == [] {
      BlanksHitNothing([""], None, section, key, line);
    } else {
      var blanks := TidySplits(lines);
      HitsConcat(Tidy(lines), blanks, None, section, key, line);
      BlanksHitNothing(blanks, SectionAfter(Tidy(lines), None), section, key, line);
    }
  }

  // ----- another edit -----

  /** Lines that a reader of the key passes over, within its section or not. */
  predicate Passes(block: seq<string>, section': Option<string>, section: Option<string>, key: string) {
    forall l <- block :: SectionName(l).None? && !Hit(l, section', section, key)
  }

  lemma {:induction false} PassedOver(block: seq<string>, rest: seq<string>, section': Option<string>,
                                      section: Option<string>,
                                      key: string, line: Option<string>)
    requires Passes(block, section', section, key) && AllHitsAre(rest, section', section, key, line)
    ensures AllHitsAre(block + rest, section', section, key, line)
  {
    if block == [] {
      assert block + rest == rest;
    } else {
      assert block[0] in block && forall l <- block[1..] :: l in block;
      PassedOver(block[1..], rest, section', section, key, line);
      assert (block + rest)[0] == block[0] && (block + rest)[1..] == block[1..] + rest;
    }
  }

  lemma {:induction false} HitsReplaced(lines: seq<string>, current: Option<string>, section': Option<string>,
                                        key': string,
                                        block: seq<string>, section: Option<string>, key: string, line: Option<string>)
    requires Passes(block, section', section, key) && AllHitsAre(lines, current, section, key, line)
    ensures AllHitsAre(ReplaceHits(lines, current, section', key', block), current, section, key, line)
  {
    if lines != [] {
      var next := NextSection(current, lines[0]);
      HitsReplaced(lines[1..], next, section', key', block, section, key, line);
      var rest := ReplaceHits(lines[1..], next, section', key', block);
      if Hit(lines[0], current, section', key') {
        PassedOver(block, rest, section', section, key, line);
      } else {
        assert ([lines[0]] + rest)[1..] == rest;
      }
    }
  }

  lemma {:induction false} HitsInserted(lines: seq<string>, current: Option<string>, section': Option<string>,
                                        block: seq<string>, section: Option<string>, key: string, line: Option<string>)
    requires Passes(block, section', section, key) && AllHitsAre(lines, current, section, key, line)
    requires HasSection(lines, current, section')
    ensures AllHitsAre(InsertAtEnd(lines, current, section', block), current, section, key, line)
  {
    if current == section' && (lines == [] || SectionName(lines[0]).Some?) {
      PassedOver(block, lines, section', section, key, line);
    } else {
      var next := NextSection(current, lines[0]);
      HitsInserted(lines[1..], next, section', block, section, key, line);
      var rest := InsertAtEnd(lines[1..], next, section', block);
      assert ([lines[0]] + rest)[0] == lines[0] && ([lines[0]] + rest)[1..] == rest;
    }
  }

  lemma OpeningHitsNothing(lines: seq<string>, section': Option<string>, current: Option<string>,
                           section: Option<string>,
                           key: string, line: Option<string>)
    requires IsSectionName(section') && section'.Some?
    ensures var opening := NewSection(lines, section');
            AllHitsAre(opening, current, section, key, line) && SectionAfter(opening, current) == section'
  {
    var opening, header := NewSection(lines, section'), [HeaderLine(section'.value)];
    HeaderLineReads(section'.value);
    HeaderBegins(HeaderLine(section'.value), section', current, section, key, line);
    hide HeaderLine, SectionName, MatchesKey;
    if |opening| == 2 {
      assert opening == [""] + header;
      BlanksHitNothing([""], current, section, key, line);
      HitsConcat([""], header, current, section, key, line);
      SectionAfterConcat([""], header, current);
      BlankIsNoHeader(current);
    } else {
      assert opening == header;
    }
  }

  lemma HeaderBegins(h: string, section': Option<string>, current: Option<string>, section: Option<string>,
                     key: string, line: Option<string>)
    requires SectionName(h) == section' && section'.Some?
    ensures AllHitsAre([h], current, section, key, line) && SectionAfter([h], current) == section'
  {
    hide SectionName, MatchesKey;
    var lines := [h];
    assert lines[1..] == [] && lines[0] == h;
    assert NextSection(current, h) == section' && SectionAfter(lines[1..], section') == section';
  }

  lemma BlankIsNoHeader(current: Option<string>)
    ensures SectionAfter([""], current) == current
  {
    assert [""][1..] == [];
  }

  lemma HitsAppended(lines: seq<string>, section': Option<string>, block: seq<string>, section: Option<string>,
                     key: string,
                     line: Option<string>)
    requires IsSectionName(section') && section'.Some?
    requires Passes(block, section', section, key) && AllHitsAre(lines, None, section, key, line)
    ensures AllHitsAre(lines + NewSection(lines, section') + block, None, section, key, line)
  {
    var current, opening := SectionAfter(lines, None), NewSection(lines, section');
    assert block + [] == block;
    PassedOver(block, [], section', section, key, line);
    hide NewSection, AllHitsAre, SectionAfter, Passes;
    OpeningHitsNothing(lines, section', current, section, key, line);
    HitsConcat(opening, block, current, section, key, line);
    HitsConcat(lines, opening + block, None, section, key, line);
    assert lines + opening + block == lines + (opening + block);
  }

  lemma KeyLinePasses(section': Option<string>, key': string, value: string, section: Option<string>, key: string)
    requires IsBareKey(key') && IsBareKey(key) && (section', key') != (section, key)
    ensures Passes([KeyLine(key', value)], section', section, key)
  {
    KeyLineReads(key', value);
    if MatchesKey(KeyLine(key', value), key) {
      KeyIsUnique(KeyLine(key', value), key', key);
    }
  }

  lemma HitsEdited(lines: seq<string>, other: KeyEdit, section: Option<string>, key: string, line: Option<string>)
    requires IsSectionName(other.section) && IsBareKey(other.key) && IsBareKey(key) && !Targets(other, section, key)
    requires AllHitsAre(lines, None, section, key, line)
    ensures AllHitsAre(Edit(lines, other.section, other.key, other.value), None, section, key, line)
  {
    if other.value.None? {
      HitsReplaced(lines, None, other.section, other.key, [], section, key, line);
    } else {
      var block := [KeyLine(other.key, other.value.value)];
      KeyLinePasses(other.section, other.key, other.value.value, section, key);
      if HasHit(lines, None, other.section, other.key) {
        HitsReplaced(lines, None, other.section, other.key, block, section, key, line);
      } else if HasSection(lines, None, other.section) {
        HitsInserted(lines, None, other.section, block, section, key, line);
      } else {
        HitsAppended(lines, other.section, block, section, key, line);
      }
    }
  }

  // ----- texts on which an edit has been made -----

  /** The edit writes one line, not ending in a carriage return. */
  predicate WritesNormal(e: KeyEdit) {
    e.value.Some? ==> IsNormal(KeyLine(e.key, e.value.value))
  }

  function LineOf(e: KeyEdit): Option<string> {
    if e.value.Some? then Some(KeyLine(e.key, e.value.value)) else None
  }

  /** The text is printed from its lines, and these are as the edit leaves them. */
  ghost predicate IsMade(text: string, e: KeyEdit) {
    && text == Join(NormalLines(text)) + "\n"
    && AllHitsAre(NormalLines(text), None, e.section, e.key, LineOf(e))
    && (e.value.Some? ==> HasHit(NormalLines(text), None, e.section, e.key))
  }

  /** Making it again changes nothing. */
  lemma MadeStays(text: string, e: KeyEdit)
    requires IsMade(text, e)
    ensures Apply(text, e) == text
  {
    var lines := NormalLines(text);
    if e.value.Some? {
      HitsStay(lines, None, e.section, e.key, KeyLine(e.key, e.value.value));
    } else {
      NoHits(lines, None, e.section, e.key);
      ReplaceNothing(lines, None, e.section, e.key, []);
    }
    TidyTwice(DropCrsEach(Split(text)));
  }

  /** An edit prints the text from the edited lines. */
  lemma AppliedLines(raw: string, e: KeyEdit)
    requires IsSectionName(e.section) && IsBareKey(e.key) && WritesNormal(e)
    ensures var edited := Tidy(Edit(NormalLines(raw), e.section, e.key, e.value));
            NormalLines(Apply(raw, e)) == edited && Apply(raw, e) == Join(edited) + "\n"
  {
    var lines := NormalLines(raw);
    if e.value.Some? {
      KeyOfNormal(e.key, e.value.value);
      NormalLinesOfUpsert(raw, e.section, e.key, e.value.value);
    } else {
      var edited := ReplaceHits(lines, None, e.section, e.key, []);
      NormalLinesAreNormal(raw);
      DeletedAreAmong(lines, None, e.section, e.key);
      var kept := if edited == [] then [""] else edited;
      assert Tidy(edited) == Tidy(kept);
      assert forall l <- kept :: IsNormal(l);
      NormalLinesOfText(kept);
      DropCrsOfNormal(kept);
    }
  }

  lemma KeyOfNormal(key: string, value: string)
    requires IsNormal(KeyLine(key, value))
    ensures OneLine(value) && DropCrs(KeyLine(key, value)) == KeyLine(key, value)
  {
    assert forall c <- value :: c in KeyLine(key, value);
  }

  lemma EditIsMade(raw: string, e: KeyEdit)
    requires IsSectionName(e.section) && IsBareKey(e.key) && WritesNormal(e)
    ensures IsMade(Apply(raw, e), e)
  {
    hide Upsert;
    var lines := NormalLines(raw);
    var edited := Edit(lines, e.section, e.key, e.value);
    AppliedLines(raw, e);
    if e.value.Some? {
      var line := KeyLine(e.key, e.value.value);
      KeyLineReads(e.key, e.value.value);
      ReplaceEdited(lines, e.section, e.key, line, [line]);
      HitsStay(edited, None, e.section, e.key, line);
      HasHitInTidy(edited, e.section, e.key);
    } else {
      ReadDeleted(lines, None, e.section, e.key);
      NoHits(edited, None, e.section, e.key);
    }
    HitsInTidy(edited, e.section, e.key, LineOf(e));
  }

  /** It stays made when another is. */
  lemma StaysMade(text: string, e: KeyEdit, other: KeyEdit)
    requires IsMade(text, e) && WritesNormal(other) && !Targets(other, e.section, e.key)
    requires IsBareKey(e.key) && IsSectionName(other.section) && IsBareKey(other.key)
    ensures IsMade(Apply(text, other), e)
  {
    hide IsBareKey, IsSectionName, Upsert, Edit;
    var lines := NormalLines(text);
    AppliedLines(text, other);
    HitsEdited(lines, other, e.section, e.key, LineOf(e));
    HitsInTidy(Edit(lines, other.section, other.key, other.value), e.section, e.key, LineOf(e));
    OtherHitStays(text, e, other);
  }

  lemma OtherHitStays(text: string, e: KeyEdit, other: KeyEdit)
    requires WritesNormal(other) && !Targets(other, e.section, e.key)
    requires IsBareKey(e.key) && IsSectionName(other.section) && IsBareKey(other.key)
    ensures HasHit(NormalLines(Apply(text, other)), None, e.section, e.key)
            <==> HasHit(NormalLines(text), None, e.section, e.key)
  {
    if other.value.Some? {
      KeyOfNormal(other.key, other.value.value);
    }
    OneLineHasNoRest(other.value);
    OtherKeyStays(text, other.section, other.key, other.value, e.section, e.key);
    GetReadsNormalLines(text, e.section, e.key);
    GetReadsNormalLines(Apply(text, other), e.section, e.key);
    NoHitReadsNone(NormalLines(text), None, e.section, e.key);
    NoHitReadsNone(NormalLines(Apply(text, other)), None, e.section, e.key);
  }

  // ----- chains -----

  predicate WriteNormal(edits: seq<KeyEdit>) {
    forall e <- edits :: WritesNormal(e)
  }

  lemma {:induction false} StaysMadeAlong(text: string, e: KeyEdit, edits: seq<KeyEdit>)
    requires IsMade(text, e) && IsBareKey(e.key) && WellFormed(edits) && WriteNormal(edits)
    requires forall other <- edits :: !Targets(other, e.section, e.key)
    ensures IsMade(ApplyAll(text, edits), e)
    decreases |edits|
  {
    hide IsMade, WritesNormal, IsBareKey, IsSectionName, Upsert;
    if edits != [] {
      assert edits[0] in edits && forall x <- edits[1..] :: x in edits;
      StaysMade(text, e, edits[0]);
      StaysMadeAlong(Apply(text, edits[0]), e, edits[1..]);
    }
  }

  /** At the end of a chain of edits of different keys all of them are made. */
  lemma {:induction false} AllMade(raw: string, edits: seq<KeyEdit>, i: nat)
    requires WellFormed(edits) && WriteNormal(edits) && i < |edits|
    ensures IsMade(ApplyAll(raw, edits), edits[i])
    decreases i
  {
    hide IsMade, WritesNormal, IsBareKey, IsSectionName, Upsert;
    assert edits[0] in edits && edits[i] in edits && forall x <- edits[1..] :: x in edits;
    if i > 0 {
      AllMade(Apply(raw, edits[0]), edits[1..], i - 1);
    } else {
      EditIsMade(raw, edits[0]);
      StaysMadeAlong(Apply(raw, edits[0]), edits[0], edits[1..]);
    }
  }

  lemma {:induction false} MadeStayAlong(text: string, edits: seq<KeyEdit>)
    requires forall e <- edits :: IsMade(text, e)
    ensures ApplyAll(text, edits) == text
    decreases |edits|
  {
    hide IsMade, Upsert;
    if edits != [] {
      assert edits[0] in edits && forall e <- edits[1..] :: e in edits;
      MadeStays(text, edits[0]);
      MadeStayAlong(text, edits[1..]);
    }
  }

  /** A chain of edits of different keys, each of one line, changes nothing when it is made again. */
  lemma ChainTwice(raw: string, edits: seq<KeyEdit>)
    requires WellFormed(edits) && WriteNormal(edits)
    ensures ApplyAll(ApplyAll(raw, edits), edits) == ApplyAll(raw, edits)
  {
    hide IsMade, WriteNormal, WellFormed, Upsert;
    forall e <- edits ensures IsMade(ApplyAll(raw, edits), e) {
      var i :| 0 <= i < |edits| && edits[i] == e;
      AllMade(raw, edits, i);
    }
    MadeStayAlong(ApplyAll(raw, edits), edits);
  }

  // ----- the synchronisation -----

  /** The value, if any, does not end in a carriage return. */
  predicate EndsWell(value: Option<string>) {
    value.Some? ==> value.value != "" && value.value[|value.value| - 1] != '\r'
  }

  lemma PrintedEndsWell(value: Option<string>)
    ensures EndsWell(Printed(value))
  {
    if value.Some? {
      assert Stringify(value.value)[|Stringify(value.value)| - 1] == '"';
    }
  }

  lemma NumberEndsWell(n: nat)
    ensures EndsWell(Some(NatText(n)))
  {
    assert NatText(n)[|NatText(n)| - 1] in NatText(n);
  }

  lemma FlagEndsWell(b: bool)
    ensures EndsWell(Some(BoolText(b)))
  {
  }

  lemma NoReturnAtEnd(p: Preferences)
    ensures forall e <- SyncEdits(p) :: EndsWell(e.value)
  {
    hide EndsWell, Printed, NatText, BoolText, OneOf, NonBlank, OutputLanguage, Positive;
    PrintedEndsWell(NonBlank(p.model));
    PrintedEndsWell(OneOf(p.personality, PERSONALITIES));
    PrintedEndsWell(p.approvalPolicy);
    PrintedEndsWell(p.sandboxMode);
    PrintedEndsWell(OneOf(p.speed, TIERS));
    PrintedEndsWell(NonBlank(p.effort));
    PrintedEndsWell(OneOf(p.autoApproveMode, APPROVALS));
    PrintedEndsWell(OutputLanguage(p));
    FlagEndsWell(p.networkAccess.GetOr(false));
    FlagEndsWell(p.languageBridgeEnabled.GetOr(false));
    NoneEndsWell();
    if Positive(p.modelContextWindow).Some? {
      NumberEndsWell(Positive(p.modelContextWindow).value);
    }
  }

  lemma NoneEndsWell()
    ensures EndsWell(None)
  {
  }

  lemma NormalKeyLine(key: string, value: string)
    requires IsBareKey(key) && OneLine(value) && EndsWell(Some(value))
    ensures IsNormal(KeyLine(key, value))
  {
    KeyLineIsOneLine(key, value);
    assert KeyLine(key, value)[|KeyLine(key, value)| - 1] == value[|value| - 1];
  }

  lemma SyncWritesNormal(p: Preferences)
    requires FreeTextOneLine(p)
    ensures WriteNormal(SyncEdits(p))
  {
    var edits := SyncEdits(p);
    assert |edits| == 11;
    SyncWrites(p);
    NoReturnAtEnd(p);
    SyncTargets(p);
    hide SyncEdits, IsBareKey, OneLine, KeyLine, EndsWell;
    forall e <- edits ensures WritesNormal(e) {
      var i :| 0 <= i < 11 && edits[i] == e;
      assert WritesOneLine(edits[i]);
      if e.value.Some? {
        NormalKeyLine(e.key, e.value.value);
      }
    }
  }

  lemma BlankReads(raw: string, section: Option<string>, key: string)
    requires IsBlank(raw) && IsBareKey(key)
    ensures Get(raw, section, key).None?
  {
    GetReadsParts(raw, section, key);
    BlankIsPadding(raw);
    SplitKeepsPadding(raw);
    BlankReadsNone(Split(raw), None, section, key);
  }

  lemma FlagIsWritten(p: Preferences)
    ensures |SyncEdits(p)| == 11 && IsBareKey(SyncEdits(p)[7].key)
    ensures SyncEdits(p)[7].value == Some(BoolText(p.networkAccess.GetOr(false)))
  {
    SyncTargets(p);
    hide IsBareKey, Stringify, NatText, OneOf, NonBlank, OutputLanguage, Positive;
  }

  lemma SyncedIsNotBlank(raw: string, p: Preferences)
    requires FreeTextOneLine(p)
    ensures Prepared(SyncText(raw, p)) == SyncText(raw, p)
  {
    FlagIsWritten(p);
    SyncWrites(p);
    hide SyncEdits, SyncText, IsBareKey, Get, IsBlank, WritesOneLine, OptionalOneLine, NonBlank;
    SyncedFlag(raw, p, 7, p.networkAccess.GetOr(false));
    if IsBlank(SyncText(raw, p)) {
      BlankReads(SyncText(raw, p), SyncEdits(p)[7].section, SyncEdits(p)[7].key);
    }
  }

  /** With preferences of one line, synchronising a synchronised file changes nothing. */
  lemma SyncTwice(raw: string, p: Preferences)
    requires FreeTextOneLine(p)
    ensures SyncText(SyncText(raw, p), p) == SyncText(raw, p)
  {
    hide SyncEdits, FreeTextOneLine, WriteNormal, WellFormed, ApplyAll;
    SyncEditsWellFormed(p);
    SyncWritesNormal(p);
    SyncedIsNotBlank(raw, p);
    ChainTwice(Prepared(raw), SyncEdits(p));
  }
}
