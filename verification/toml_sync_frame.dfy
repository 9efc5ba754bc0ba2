/** What synchronising the preferences does to the keys that it does not manage: nothing, exactly when
    no preference that is written as it comes brings a line with it that starts a section or sets
    such a key. */
module TomlSyncFrame {
  import opened Text
  import opened TomlValues
  import opened TomlReader
  import opened TomlUpsert
  import opened TomlLaws
  import opened TomlFrame
  import opened TomlSync

  // ----- a value of the chain that sets another key -----

  /** It is set at the end, whichever value of the chain it came with. */
  lemma {:induction false} ShownByChain(raw: string, edits: seq<KeyEdit>, section: Option<string>, key: string)
    requires WellFormed(edits) && IsBareKey(key)
    requires forall e <- edits :: LeavesSection(e.section, e.value) && !Targets(e, section, key)
    requires !LeavesAlone(edits, section, key)
    ensures Get(ApplyAll(raw, edits), section, key).Some?
    decreases |edits|
  {
    hide LeavesSection, LeavesKey, Get, IsBareKey;
    var edit, more := edits[0], edits[1..];
    assert edit in edits && forall e <- more :: e in edits;
    if LeavesAlone(more, section, key) {
      assert forall e <- edits :: e == edit || e in more;
      OneLineHasRest(edit, section, key);
      OtherKeyShows(raw, edit.section, edit.key, edit.value.value, section, key);
      ReadUnmanaged(Apply(raw, edit), more, section, key);
    } else {
      ShownByChain(Apply(raw, edit), more, section, key);
    }
  }

  lemma OneLineHasRest(edit: KeyEdit, section: Option<string>, key: string)
    requires !LeavesKey(edit.section, edit.value, section, key)
    ensures edit.value.Some?
  {
  }

  // ----- a value of the chain that leaves its section -----

  /** The text begins with a line for each of two keys. */
  predicate Heads(raw: string, key: string, other: string) {
    var lines := Split(raw);
    |lines| >= 2 && lines[..2] == [KeyLine(key, "1"), KeyLine(other, "1")]
  }

  lemma {:induction false} TidyKeeps(lines: seq<string>, n: nat)
    requires 0 < n <= |lines| && lines[n - 1] != ""
    ensures n <= |Tidy(lines)| && Tidy(lines)[..n] == lines[..n]
  {
    if |lines| > 1 && lines[|lines| - 1] == "" {
      TidyKeeps(lines[..|lines| - 1], n);
    }
  }

  lemma HeadLine(key: string)
    requires IsBareKey(key)
    ensures var line := KeyLine(key, "1");
            && line != "" && OneLine(line) && DropCrs(line) == line && Split(line) == [line]
            && SectionName(line).None? && MatchesKey(line, key)
  {
    var line := KeyLine(key, "1");
    KeyLineIsOneLine(key, "1");
    SplitOneLine(line);
    KeyLineReads(key, "1");
    assert line[|line| - 1] == '1';
  }

  lemma HeadsNormal(raw: string, key: string, other: string)
    requires IsBareKey(key) && IsBareKey(other) && Heads(raw, key, other)
    ensures var lines := NormalLines(raw);
            |lines| >= 2 && lines == [KeyLine(key, "1"), KeyLine(other, "1")] + lines[2..]
  {
    hide KeyLine;
    HeadLine(key);
    HeadLine(other);
    var parts := Split(raw);
    assert parts[0] == parts[..2][0] && parts[1] == parts[..2][1];
    var lines := DropCrsEach(parts);
    assert lines[..2] == [KeyLine(key, "1"), KeyLine(other, "1")];
    TidyKeeps(lines, 2);
  }

  lemma {:induction false} InsertedBehind(front: seq<string>, more: seq<string>, section: Option<string>,
                                          block: seq<string>)
    requires forall l <- front :: SectionName(l).None?
    ensures InsertAtEnd(front + more, None, section, block) == front + InsertAtEnd(more, None, section, block)
  {
    if front == [] {
      assert front + more == more;
    } else {
      assert front[0] in front && forall l <- front[1..] :: l in front;
      InsertedBehind(front[1..], more, section, block);
      assert (front + more)[0] == front[0] && (front + more)[1..] == front[1..] + more;
    }
  }

  lemma NoHeadHit(key: string, section: Option<string>, edited: string)
    requires IsBareKey(key) && IsBareKey(edited) && (section, edited) != (None, key)
    ensures !Hit(KeyLine(key, "1"), None, section, edited)
  {
    HeadLine(key);
    if MatchesKey(KeyLine(key, "1"), edited) {
      KeyIsUnique(KeyLine(key, "1"), key, edited);
    }
  }

  /** Editing another key works behind the two lines. */
  lemma EditBehindHeads(lines: seq<string>, key: string, other: string, section: Option<string>, edited: string,
                        value: Option<string>)
    requires IsBareKey(key) && IsBareKey(other) && IsBareKey(edited)
    requires (section, edited) != (None, key) && (section, edited) != (None, other)
    requires |lines| >= 2 && lines == [KeyLine(key, "1"), KeyLine(other, "1")] + lines[2..]
    ensures var r := Edit(lines, section, edited, value);
            |r| >= 2 && r[..2] == [KeyLine(key, "1"), KeyLine(other, "1")]
  {
    hide KeyLine, SectionName, MatchesKey;
    var k, o, more := KeyLine(key, "1"), KeyLine(other, "1"), lines[2..];
    var block := if value.Some? then [KeyLine(edited, value.value)] else [];
    HeadLine(key);
    HeadLine(other);
    NoHeadHit(key, section, edited);
    NoHeadHit(other, section, edited);
    ReplaceHitsConcat([k, o], more, None, section, edited, block);
    assert [k, o][1..] == [o];
    assert ReplaceHits([o], None, section, edited, block) == [o] + [] == [o];
    assert ReplaceHits([k, o], None, section, edited, block) == [k] + [o] == [k, o];
    InsertedBehind([k, o], more, section, block);
  }

  lemma HeadsStay(raw: string, key: string, other: string, section: Option<string>, edited: string,
                  value: Option<string>)
    requires IsBareKey(key) && IsBareKey(other) && IsBareKey(edited) && Heads(raw, key, other)
    requires (section, edited) != (None, key) && (section, edited) != (None, other)
    ensures Heads(Upsert(raw, section, edited, value), key, other)
  {
    hide KeyLine;
    HeadsNormal(raw, key, other);
    EditBehindHeads(NormalLines(raw), key, other, section, edited, value);
    HeadsOfText(Edit(NormalLines(raw), section, edited, value), key, other);
  }

  lemma HeadsOfText(edited: seq<string>, key: string, other: string)
    requires IsBareKey(key) && IsBareKey(other)
    requires |edited| >= 2 && edited[..2] == [KeyLine(key, "1"), KeyLine(other, "1")]
    ensures Heads(Join(Tidy(edited)) + "\n", key, other)
  {
    hide KeyLine, Join, Split, SplitAll, Tidy, IsBareKey, DropCrs, SectionName, MatchesKey;
    var k, o, kept := KeyLine(key, "1"), KeyLine(other, "1"), Tidy(edited);
    HeadLine(key);
    HeadLine(other);
    assert edited[1] == edited[..2][1];
    TidyKeeps(edited, 2);
    assert kept == [k, o] + kept[2..];
    SplitText(kept);
    SplitAllConcat([k, o], kept[2..]);
    assert OneLineEach([k, o]);
    SplitAllOneLine([k, o]);
  }

  lemma SplitText(lines: seq<string>)
    requires lines != []
    ensures Split(Join(lines) + "\n") == SplitAll(lines) + [""]
  {
    assert Join(lines) + "\n" == Join(lines) + "\n" + "";
    SplitAtBreak(Join(lines), "");
    SplitJoin(lines);
  }

  /** A header is never followed by top level lines again. */
  lemma {:induction false} NeverTopLevelAgain(lines: seq<string>, current: Option<string>, key: string)
    requires current.Some?
    ensures Read(lines, current, None, key).None?
  {
    if lines != [] {
      NeverTopLevelAgain(lines[1..], NextSection(current, lines[0]), key);
    }
  }

  /** The line behind a key is lost when the key's new value brings a header. */
  lemma HeadIsLost(raw: string, key: string, other: string, value: string)
    requires IsBareKey(key) && IsBareKey(other) && key != other && Heads(raw, key, other)
    requires !LeavesSection(None, Some(value)) && LeavesKey(None, Some(value), None, other)
    ensures Get(Upsert(raw, None, key, Some(value)), None, other).None?
  {
    hide KeyLine;
    var lines, block := NormalLines(raw), Split(KeyLine(key, value));
    HeadsNormal(raw, key, other);
    HeadLine(key);
    GetReadsEdit(raw, None, key, Some(value), None, other);
    SplitEdit(raw, None, key, value);
    KeyBlockReads(None, key, value, None, other);
    var rest := ReplaceHits(lines[1..], None, None, key, block);
    assert lines[0] == KeyLine(key, "1");
    assert Edited(lines, None, key, block) == block + rest;
    ReadConcat(block, rest, None, None, other);
    NeverTopLevelAgain(rest, SectionAfter(block, None), other);
  }

  /** So it is at the end of the chain, the value that brings the last header being at `last`. */
  lemma {:induction false} LostByChain(raw: string, edits: seq<KeyEdit>, last: nat, other: string)
    requires WellFormed(edits) && IsBareKey(other) && last < |edits|
    requires edits[last].section.None? && !LeavesSection(None, edits[last].value)
    requires forall j | last < j < |edits| :: LeavesSection(edits[j].section, edits[j].value)
    requires forall e <- edits :: !Targets(e, None, other) && LeavesKey(e.section, e.value, None, other)
    requires Heads(raw, edits[last].key, other)
    ensures Get(ApplyAll(raw, edits), None, other).None?
    decreases |edits|
  {
    hide LeavesSection, LeavesKey, Get, IsBareKey, Heads, IsSectionName, Upsert;
    var edit, more := edits[0], edits[1..];
    assert edit in edits && edits[last] in edits && forall e <- more :: e in edits;
    if last == 0 {
      assert edit.value.Some? by { NoneLeavesSection(); }
      HeadIsLost(raw, edit.key, other, edit.value.value);
      assert forall e <- more :: LeavesSection(e.section, e.value);
      ReadUnmanaged(Apply(raw, edit), more, None, other);
    } else {
      assert !Targets(edits[last], edit.section, edit.key);
      HeadsStay(raw, edits[last].key, other, edit.section, edit.key, edit.value);
      LostByChain(Apply(raw, edit), more, last - 1, other);
    }
  }

  lemma NoneLeavesSection()
    ensures LeavesSection(None, None)
  {
  }

  // ----- a key that no value sets -----

  function Size(edits: seq<KeyEdit>): nat {
    if edits == [] then 0 else |edits[0].key| + |edits[0].value.GetOr("")| + Size(edits[1..])
  }

  lemma {:induction false} SizeBounds(edits: seq<KeyEdit>)
    ensures forall e <- edits :: |e.key| <= Size(edits) && |e.value.GetOr("")| <= Size(edits)
  {
    if edits != [] {
      SizeBounds(edits[1..]);
      assert forall e <- edits :: e == edits[0] || e in edits[1..];
    }
  }

  lemma {:induction false} LinesAreShorter(s: string)
    ensures forall l <- Split(s) :: |l| <= |s|
  {
    if s != "" {
      LinesAreShorter(s[1..]);
      var ls := Split(s[1..]);
      assert ls[0] in ls && forall l <- ls[1..] :: l in ls;
    }
  }

  lemma ShortLineMisses(line: string, key: string)
    requires |line| < |key|
    ensures !MatchesKey(line, key)
  {
    var pad := TrimStartSplits(line);
  }

  lemma {:induction false} ShortLinesMiss(lines: seq<string>, current: Option<string>, section: Option<string>,
                                          key: string)
    requires forall l <- lines :: |l| < |key|
    ensures Read(lines, current, section, key).None?
  {
    if lines != [] {
      assert lines[0] in lines && forall l <- lines[1..] :: l in lines;
      ShortLineMisses(lines[0], key);
      ShortLinesMiss(lines[1..], NextSection(current, lines[0]), section, key);
    }
  }

  /** A key longer than all that is written. */
  function FarKey(edits: seq<KeyEdit>): (key: string)
    ensures IsBareKey(key) && |key| == Size(edits) + 1
  {
    seq(Size(edits) + 1, _ => 'z')
  }

  lemma FarKeyIsFar(edits: seq<KeyEdit>)
    ensures forall e <- edits, section: Option<string> :: !Targets(e, section, FarKey(edits))
    ensures forall e <- edits :: LeavesKey(e.section, e.value, None, FarKey(edits))
  {
    hide FarKey;
    SizeBounds(edits);
    forall e <- edits ensures LeavesKey(e.section, e.value, None, FarKey(edits)) {
      LinesAreShorter(e.value.GetOr(""));
      assert forall l <- Rest(e.value) :: l in Split(e.value.GetOr(""));
      ShortLinesMiss(Rest(e.value), e.section, None, FarKey(edits));
    }
  }

  // ----- the frame of the synchronisation -----

  /** No text that is written starts a section behind its first line or sets an unmanaged key there. */
  ghost predicate KeepsToManaged(p: Preferences) {
    && (forall e <- SyncEdits(p) :: LeavesSection(e.section, e.value))
    && forall section, key | IsUnmanaged(p, section, key) :: LeavesAlone(SyncEdits(p), section, key)
  }

  /** Whatever the file, every unmanaged key of every section reads as before. */
  ghost predicate LeavesUnmanaged(p: Preferences) {
    forall raw, section, key | IsUnmanaged(p, section, key) ::
      Get(SyncText(raw, p), section, key) == Get(raw, section, key)
  }

  /** Synchronising leaves all that it does not manage alone, in every file, exactly when the texts it
      writes keep to the keys that it manages. */
  lemma SyncFrame(p: Preferences)
    ensures LeavesUnmanaged(p) <==> KeepsToManaged(p)
  {
    hide SyncText, SyncEdits, Get, LeavesAlone, LeavesSection, LeavesUnmanaged, IsUnmanaged;
    if KeepsToManaged(p) {
      AllUnmanagedStay(p);
    } else if e :| e in SyncEdits(p) && !LeavesSection(e.section, e.value) {
      SectionIsLost(p, e);
    } else {
      var section, key :| IsUnmanaged(p, section, key) && !LeavesAlone(SyncEdits(p), section, key);
      UnmanagedIsSet("", p, section, key);
      EmptyIsBefore(p, section, key);
      OneUnmanagedLost("", p, section, key);
    }
  }

  lemma AllUnmanagedStay(p: Preferences)
    requires KeepsToManaged(p)
    ensures LeavesUnmanaged(p)
  {
    hide SyncText, SyncEdits, Get, LeavesAlone, LeavesSection, IsUnmanaged;
    forall raw, section, key | IsUnmanaged(p, section, key)
      ensures Get(SyncText(raw, p), section, key) == Get(raw, section, key)
    {
      UnmanagedStays(raw, p, section, key);
    }
  }

  lemma OneUnmanagedLost(raw: string, p: Preferences, section: Option<string>, key: string)
    requires IsUnmanaged(p, section, key) && Get(SyncText(raw, p), section, key) != Get(raw, section, key)
    ensures !LeavesUnmanaged(p)
  {
    hide SyncText, SyncEdits, Get, IsUnmanaged;
  }

  lemma EmptyIsBefore(p: Preferences, section: Option<string>, key: string)
    requires IsUnmanaged(p, section, key)
    ensures Get("", section, key).None?
  {
    EmptyReadsNone(section, key);
  }

  /** An unmanaged key that a written text sets is set in every synchronised file. */
  lemma UnmanagedIsSet(raw: string, p: Preferences, section: Option<string>, key: string)
    requires IsUnmanaged(p, section, key) && !LeavesAlone(SyncEdits(p), section, key)
    requires forall e <- SyncEdits(p) :: LeavesSection(e.section, e.value)
    ensures Get(SyncText(raw, p), section, key).Some?
  {
    hide SyncEdits, Get, LeavesAlone, LeavesSection, IsBareKey;
    SyncEditsWellFormed(p);
    ShownByChain(Prepared(raw), SyncEdits(p), section, key);
  }

  lemma {:induction false} LastThatLeaves(edits: seq<KeyEdit>, n: nat) returns (last: nat)
    requires n <= |edits|
    requires forall j | n <= j < |edits| :: LeavesSection(edits[j].section, edits[j].value)
    requires exists e <- edits :: !LeavesSection(e.section, e.value)
    ensures last < |edits| && !LeavesSection(edits[last].section, edits[last].value)
    ensures forall j | last < j < |edits| :: LeavesSection(edits[j].section, edits[j].value)
  {
    hide LeavesSection;
    if n > 0 && LeavesSection(edits[n - 1].section, edits[n - 1].value) {
      last := LastThatLeaves(edits, n - 1);
    } else {
      last := n - 1;
    }
  }

  lemma TopLevelLeaves(p: Preferences, i: nat)
    requires i < 11 && !LeavesSection(SyncEdits(p)[i].section, SyncEdits(p)[i].value)
    ensures SyncEdits(p)[i].section.None?
  {
    if i >= 7 {
      FixedWrites(p);
      OneLineHasNoRest(SyncEdits(p)[i].value);
    }
  }

  lemma HeadsText(key: string, other: string)
    requires IsBareKey(key) && IsBareKey(other) && key != other
    ensures var raw := Join([KeyLine(key, "1"), KeyLine(other, "1")]);
            Heads(raw, key, other) && !IsBlank(raw) && Get(raw, None, other).Some?
  {
    var k, o := KeyLine(key, "1"), KeyLine(other, "1");
    var raw := Join([k, o]);
    HeadLine(key);
    HeadLine(other);
    SplitJoin([k, o]);
    SplitAllOneLine([k, o]);
    GetReadsParts(raw, None, other);
    NoHeadHit(key, None, other);
    assert [k, o][1..] == [o];
    assert key[0] in key && raw == [key[0]] + raw[1..];
    KeyLineShape(key[0], raw[1..]);
    TrimEndKeepsFirst(key[0], raw[1..]);
  }

  /** A text that starts a section loses its reader the line behind. */
  lemma SectionIsLost(p: Preferences, e: KeyEdit)
    requires e in SyncEdits(p) && !LeavesSection(e.section, e.value)
    ensures !LeavesUnmanaged(p)
  {
    var edits := SyncEdits(p);
    assert |edits| == 11;
    hide SyncEdits, LeavesSection, LeavesKey, Get, Heads, IsBareKey, LeavesUnmanaged, FarKey;
    SyncEditsWellFormed(p);
    FarKeyIsFar(edits);
    var last := LastThatLeaves(edits, 11);
    TopLevelLeaves(p, last);
    var key, other := edits[last].key, FarKey(edits);
    var raw := Join([KeyLine(key, "1"), KeyLine(other, "1")]);
    assert edits[last] in edits && !Targets(edits[last], None, other);
    HeadsText(key, other);
    LostByChain(raw, edits, last, other);
    OneUnmanagedLost(raw, p, None, other);
  }

  /** Preferences of one line keep to the managed keys. */
  lemma OneLinesKeepToManaged(p: Preferences)
    requires FreeTextOneLine(p)
    ensures KeepsToManaged(p)
  {
    SyncWrites(p);
    assert OneLineFrom(p, 0);
    forall section, key ensures LeavesAlone(SyncEdits(p), section, key) {
      OneLinesLeaveAlone(p, section, key);
    }
    assert LeavesAlone(SyncEdits(p), None, "a");
  }

  // ----- a preference that sets another key -----

  /** A model name of two lines whose second ends in a comment mark. */
  function LeakyModel(key: string): string {
    "x\n" + KeyLine(key, "5 #")
  }

  lemma {:induction false} PlainEscape(s: string)
    requires forall c <- s :: c != '\\' && c != '"'
    ensures Escape(s) == s
  {
    if s != "" {
      assert s[0] in s && forall c <- s[1..] :: c in s;
      PlainEscape(s[1..]);
      assert s == [s[0]] + s[1..];
    }
  }

  lemma QuotesAround(mark: string, first: string, key: string, last: string)
    ensures mark + (first + "\n" + KeyLine(key, last)) + mark == mark + first + "\n" + KeyLine(key, last + mark)
  {
  }

  lemma LeakyLineIsPlain(key: string)
    requires IsBareKey(key)
    ensures Escape(KeyLine(key, "5 #")) == KeyLine(key, "5 #")
  {
    hide Escape;
    assert forall c <- key :: IsKeyChar(c);
    PlainEscape(KeyLine(key, "5 #"));
  }

  lemma LeakyModelIsPrinted(key: string)
    requires IsBareKey(key)
    ensures Stringify(LeakyModel(key)) == "\"x" + "\n" + KeyLine(key, "5 #\"")
  {
    hide Escape, KeyLine, Stringify, IsBareKey;
    var line := KeyLine(key, "5 #");
    assert LeakyModel(key) == "x" + "\n" + line;
    EscapeBreak("x", line);
    PlainEscape("x");
    LeakyLineIsPlain(key);
    StringifyIsEscape(LeakyModel(key));
    QuotesAround("\"", "x", key, "5 #");
    assert "\"" + "x" == "\"x" && "5 #" + "\"" == "5 #\"";
  }

  lemma LeakyModelEdit(p: Preferences, key: string)
    requires IsBareKey(key) && p.model == Some(LeakyModel(key))
    ensures SyncEdits(p)[0] == KeyEdit(None, "model", Some("\"x" + "\n" + KeyLine(key, "5 #\"")))
  {
    hide Stringify, KeyLine;
    TrimEndKeepsFirst('x', LeakyModel(key)[1..]);
    assert LeakyModel(key) == ['x'] + LeakyModel(key)[1..];
    LeakyModelIsPrinted(key);
  }

  lemma FiveIsRead()
    ensures ValueText(Split("5 #\"")[0]) == "5"
  {
    SplitOneLine("5 #\"");
    UncommentedCons('5', " #\"", false, None);
    UncommentedCons(' ', "#\"", false, None);
    UncommentedCons('#', "\"", false, None);
    assert "5 #\"" == ['5'] + " #\"" && " #\"" == [' '] + "#\"" && "#\"" == ['#'] + "\"";
    assert Uncommented("5 #\"", false, None) == "5 ";
    TrimOfPadded("5", " ");
    TrimBare("5");
    assert "5" + " " == "5 ";
  }

  lemma OtherTextsLeaveAlone(p: Preferences, section: Option<string>, key: string)
    requires OptionalOneLine(p.approvalPolicy) && OptionalOneLine(p.sandboxMode) && OptionalOneLine(NonBlank(p.effort))
    ensures LeavesAlone(SyncEdits(p)[1..], section, key)
  {
    SyncWrites(p);
    var more := SyncEdits(p)[1..];
    assert forall i | 0 <= i < |more| :: WritesOneLine(SyncEdits(p)[i + 1]) && more[i] == SyncEdits(p)[i + 1];
    OneLineLeavesAlone(more, section, key);
  }

  /** With such a model name, an unmanaged key that was not set before is read from the synchronised file. */
  lemma ModelSetsAnotherKey(raw: string, p: Preferences, key: string)
    requires IsUnmanaged(p, None, key) && Get(raw, None, key).None?
    requires p.model == Some(LeakyModel(key))
    requires OptionalOneLine(p.approvalPolicy) && OptionalOneLine(p.sandboxMode) && OptionalOneLine(NonBlank(p.effort))
    ensures Get(SyncText(raw, p), None, key) == Some("5")
    ensures !KeepsToManaged(p)
  {
    hide LeavesAlone, Get, IsBareKey, OptionalOneLine, LeakyModel, KeyLine, ValueText, LeavesSection;
    LeakyModelEdit(p, key);
    OtherTextsLeaveAlone(p, None, key);
    SyncEditsWellFormed(p);
    PreparedReadsAsBefore(raw, None, key);
    FiveIsRead();
    FirstEditShows(Prepared(raw), SyncEdits(p), "\"x", key, "5 #\"");
    if KeepsToManaged(p) {
      UnmanagedStays(raw, p, None, key);
    }
  }

  lemma FirstEditShows(raw: string, edits: seq<KeyEdit>, first: string, key: string, second: string)
    requires WellFormed(edits) && edits != [] && LeavesAlone(edits[1..], None, key)
    requires edits[0].section == None && edits[0].value == Some(first + "\n" + KeyLine(key, second)) && OneLine(first)
    requires IsBareKey(key) && Get(raw, None, key).None? && forall e <- edits :: !Targets(e, None, key)
    ensures Get(ApplyAll(raw, edits), None, key) == Some(ValueText(Split(second)[0]))
  {
    hide Get, IsBareKey, LeavesAlone, KeyLine, Upsert, OneLine, ValueText;
    assert edits[0] in edits && forall e <- edits[1..] :: e in edits;
    assert !Targets(edits[0], None, key);
    SecondLineSetsAnotherKey(raw, None, edits[0].key, first, key, second);
    ReadUnmanaged(Apply(raw, edits[0]), edits[1..], None, key);
  }
}
