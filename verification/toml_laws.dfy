/** What reading sees after a key has been set or deleted: the round trip and the cases in which
    it fails, deletion, and the last write winning. */
module TomlLaws {
  import opened Text
  import opened TomlValues
  import opened TomlReader
  import opened TomlUpsert

  // ----- from text to lines -----

  lemma GetReadsNormalLines(raw: string, section: Option<string>, key: string)
    ensures Get(raw, section, key) == Read(NormalLines(raw), None, section, key)
  {
    GetReadsParts(raw, section, key);
    var parts := Split(raw);
    var lines := DropCrsEach(parts);
    forall i | 0 <= i < |parts| ensures ReadAlike(parts[i], lines[i]) {
      DropCrsReadsAlike(parts[i]);
    }
    ReadAlikeLines(parts, lines, None, section, key);
    ReadTidy(lines, section, key);
  }

  lemma {:induction false} DropCrsSplits(line: string) returns (pad: string)
    ensures line == DropCrs(line) + pad && Padding(pad)
  {
    if line != "" && line[|line| - 1] == '\r' {
      var p := DropCrsSplits(line[..|line| - 1]);
      pad := p + "\r";
      assert line == line[..|line| - 1] + "\r";
    } else {
      pad := "";
    }
  }

  lemma DropCrsReadsAlike(line: string)
    ensures ReadAlike(line, DropCrs(line))
  {
    var pad := DropCrsSplits(line);
    PaddedReadsAlike(DropCrs(line), pad);
  }

  lemma ReadTidy(lines: seq<string>, section: Option<string>, key: string)
    ensures Read(Tidy(lines), None, section, key) == Read(lines, None, section, key)
  {
    if lines == [] {
      ReadBlanks([""], None, section, key);
    } else {
      var blanks := TidySplits(lines);
      ReadConcat(Tidy(lines), blanks, None, section, key);
      ReadBlanks(blanks, SectionAfter(Tidy(lines), None), section, key);
    }
  }

  /** Reading the edited text is reading the edited lines, an inserted value counting as as many
      lines as it spans. */
  lemma GetReadsEdit(raw: string, section: Option<string>, key: string, value: Option<string>,
                     section': Option<string>, key': string)
    ensures Get(Upsert(raw, section, key, value), section', key')
         == Read(SplitAll(Edit(NormalLines(raw), section, key, value)), None, section', key')
  {
    var edited := Edit(NormalLines(raw), section, key, value);
    var kept := Tidy(edited);
    var text := Upsert(raw, section, key, value);
    assert text == Join(kept) + "\n" + "";
    SplitAtBreak(Join(kept), "");
    SplitJoin(kept);
    GetReadsParts(text, section', key');
    ReadConcat(SplitAll(kept), [""], None, section', key');
    ReadBlanks([""], SectionAfter(SplitAll(kept), None), section', key');
    if edited == [] {
      ReadBlanks([""], None, section', key');
      assert SplitAll([""]) == [""];
    } else {
      var blanks := TidySplits(edited);
      SplitAllConcat(kept, blanks);
      SplitAllOneLine(blanks);
      ReadConcat(SplitAll(kept), blanks, None, section', key');
      ReadBlanks(blanks, SectionAfter(SplitAll(kept), None), section', key');
    }
  }

  lemma {:induction false} SplitReplaced(lines: seq<string>, current: Option<string>, section: Option<string>,
                                         key: string, block: seq<string>)
    requires OneLineEach(lines)
    ensures SplitAll(ReplaceHits(lines, current, section, key, block))
         == ReplaceHits(lines, current, section, key, SplitAll(block))
  {
    if lines != [] {
      var next := NextSection(current, lines[0]);
      assert lines[0] in lines && forall l <- lines[1..] :: l in lines;
      SplitReplaced(lines[1..], next, section, key, block);
      var head := if Hit(lines[0], current, section, key) then block else [lines[0]];
      SplitAllConcat(head, ReplaceHits(lines[1..], next, section, key, block));
      SplitAllOneLine([lines[0]]);
    }
  }

  lemma {:induction false} SplitInserted(lines: seq<string>, current: Option<string>, section: Option<string>,
                                         line: string)
    requires OneLineEach(lines)
    ensures SplitAll(InsertAtEnd(lines, current, section, [line])) == InsertAtEnd(lines, current, section, Split(line))
  {
    assert SplitAll([line]) == Split(line) + [] == Split(line);
    if current == section && (lines == [] || SectionName(lines[0]).Some?) {
      SplitAllConcat([line], lines);
      SplitAllOneLine(lines);
    } else if lines != [] {
      var next := NextSection(current, lines[0]);
      assert lines[0] in lines && forall l <- lines[1..] :: l in lines;
      SplitInserted(lines[1..], next, section, line);
      SplitAllConcat([lines[0]], InsertAtEnd(lines[1..], next, section, [line]));
      SplitAllOneLine([lines[0]]);
    }
  }

  lemma SplitAppended(lines: seq<string>, section: Option<string>, line: string)
    requires OneLineEach(lines) && IsSectionName(section)
    ensures SplitAll(lines + NewSection(lines, section) + [line]) == lines + NewSection(lines, section) + Split(line)
  {
    var front := lines + NewSection(lines, section);
    SplitAllConcat(front, [line]);
    assert OneLine(HeaderLine(section.GetOr("")));
    SplitAllOneLine(front);
    assert SplitAll([line]) == Split(line) + [] == Split(line);
  }

  /** The edited lines with `block` for the new line. */
  function Edited(lines: seq<string>, section: Option<string>, key: string, block: seq<string>): seq<string> {
    if HasHit(lines, None, section, key) then ReplaceHits(lines, None, section, key, block)
    else if HasSection(lines, None, section) then InsertAtEnd(lines, None, section, block)
    else lines + NewSection(lines, section) + block
  }

  lemma SplitEdit(raw: string, section: Option<string>, key: string, value: string)
    requires IsSectionName(section)
    ensures SplitAll(Edit(NormalLines(raw), section, key, Some(value)))
         == Edited(NormalLines(raw), section, key, Split(KeyLine(key, value)))
  {
    var lines := NormalLines(raw);
    NormalLinesAreNormal(raw);
    assert forall l <- lines :: IsNormal(l);
    SplitReplaced(lines, None, section, key, [KeyLine(key, value)]);
    assert SplitAll([KeyLine(key, value)]) == Split(KeyLine(key, value));
    SplitInserted(lines, None, section, KeyLine(key, value));
    SplitAppended(lines, section, KeyLine(key, value));
  }

  // ----- reading back -----

  lemma {:induction false} ReadReplaced(lines: seq<string>, current: Option<string>, section: Option<string>,
                                        key: string, block: seq<string>)
    requires block != [] && Hit(block[0], section, section, key) && HasHit(lines, current, section, key)
    ensures Read(ReplaceHits(lines, current, section, key, block), current, section, key)
         == Some(ValueText(AfterEquals(block[0])))
  {
    var edited := ReplaceHits(lines, current, section, key, block);
    if Hit(lines[0], current, section, key) {
      assert edited[0] == block[0];
    } else {
      var next := NextSection(current, lines[0]);
      ReadReplaced(lines[1..], next, section, key, block);
      assert edited[0] == lines[0] && edited[1..] == ReplaceHits(lines[1..], next, section, key, block);
    }
  }

  lemma {:induction false} ReadInserted(lines: seq<string>, current: Option<string>, section: Option<string>,
                                        key: string, block: seq<string>)
    requires block != [] && Hit(block[0], section, section, key)
    requires !HasHit(lines, current, section, key) && HasSection(lines, current, section)
    ensures Read(InsertAtEnd(lines, current, section, block), current, section, key)
         == Some(ValueText(AfterEquals(block[0])))
  {
    var edited := InsertAtEnd(lines, current, section, block);
    if current == section && (lines == [] || SectionName(lines[0]).Some?) {
      assert edited[0] == block[0];
    } else {
      var next := NextSection(current, lines[0]);
      ReadInserted(lines[1..], next, section, key, block);
      assert edited[0] == lines[0] && edited[1..] == InsertAtEnd(lines[1..], next, section, block);
    }
  }

  lemma {:induction false} NoHitReadsNone(lines: seq<string>, current: Option<string>, section: Option<string>,
                                          key: string)
    ensures Read(lines, current, section, key).None? <==> !HasHit(lines, current, section, key)
    ensures !HasSection(lines, current, section) ==> !HasHit(lines, current, section, key)
  {
    if lines != [] {
      NoHitReadsNone(lines[1..], NextSection(current, lines[0]), section, key);
    }
  }

  lemma {:induction false} NoSectionAfter(lines: seq<string>, current: Option<string>, section: Option<string>)
    requires !HasSection(lines, current, section)
    ensures SectionAfter(lines, current) != section
  {
    if lines != [] {
      NoSectionAfter(lines[1..], NextSection(current, lines[0]), section);
    }
  }

  /** Reading a block appended in a section of its own is reading the block in that section,
      unless an earlier line answers. */
  lemma ReadAppended(lines: seq<string>, section: Option<string>, block: seq<string>,
                     section': Option<string>, key': string)
    requires IsSectionName(section) && section.Some?
    ensures Read(lines + NewSection(lines, section) + block, None, section', key')
         == (var before := Read(lines, None, section', key');
             if before.Some? then before else Read(block, section, section', key'))
  {
    var current := SectionAfter(lines, None);
    var opening := NewSection(lines, section);
    HeaderLineReads(section.value);
    assert lines + opening + block == lines + (opening + block);
    ReadConcat(lines, opening + block, None, section', key');
    ReadConcat(opening, block, current, section', key');
    var header := [HeaderLine(section.value)];
    if |opening| == 2 {
      assert opening == [""] + header;
      ReadConcat([""], header, current, section', key');
      SectionAfterConcat([""], header, current);
    }
    assert Read(header, current, section', key') == None && SectionAfter(header, current) == section;
    assert Read([""], current, section', key') == None && SectionAfter([""], current) == current;
  }

  lemma ReadBackLines(lines: seq<string>, section: Option<string>, key: string, block: seq<string>)
    requires IsSectionName(section) && block != [] && Hit(block[0], section, section, key)
    ensures Read(Edited(lines, section, key, block), None, section, key) == Some(ValueText(AfterEquals(block[0])))
  {
    if HasHit(lines, None, section, key) {
      ReadReplaced(lines, None, section, key, block);
    } else if HasSection(lines, None, section) {
      ReadInserted(lines, None, section, key, block);
    } else {
      NoHitReadsNone(lines, None, section, key);
      ReadAppended(lines, section, block, section, key);
    }
  }

  lemma SplitKeyLine(key: string, value: string)
    requires IsBareKey(key)
    ensures Split(KeyLine(key, value))[0] == KeyLine(key, Split(value)[0])
  {
    assert forall c <- key :: IsKeyChar(c);
    SplitPrefix(key + " = ", value);
  }

  /** After setting a key, reading it gives the value's first line as the value scanner sees it. */
  lemma ReadBack(raw: string, section: Option<string>, key: string, value: string)
    requires IsSectionName(section) && IsBareKey(key)
    ensures Get(Upsert(raw, section, key, Some(value)), section, key) == Some(ValueText(Split(value)[0]))
  {
    GetReadsEdit(raw, section, key, Some(value), section, key);
    SplitEdit(raw, section, key, value);
    SplitKeyLine(key, value);
    KeyLineReads(key, Split(value)[0]);
    ReadBackLines(NormalLines(raw), section, key, Split(KeyLine(key, value)));
  }

  /** The round trip of strings holds for every text exactly when the string has no line feed. */
  lemma StringRoundTrip(raw: string, section: Option<string>, key: string, value: string)
    requires IsSectionName(section) && IsBareKey(key)
    ensures ParseString(Get(Upsert(raw, section, key, Some(Stringify(value))), section, key)) == Some(value)
       <==> OneLine(value)
  {
    ReadBack(raw, section, key, Stringify(value));
    PrintedLineParses(value);
  }

  lemma PrintedLineParses(value: string)
    ensures ParseString(Some(ValueText(Split(Stringify(value))[0]))) == Some(value) <==> OneLine(value)
    ensures OneLine(Stringify(value)) <==> OneLine(value)
  {
    StringifyIsEscape(value);
    EscapeOneLine(value);
    if OneLine(value) {
      SplitOneLine(Stringify(value));
      ParseStringify(value);
    } else {
      StringifyCut(value);
      ParseCutString(Split(value)[0]);
    }
  }

  lemma {:induction false} SplitFirst(s: string)
    requires !OneLine(s)
    ensures OneLine(Split(s)[0]) && Split(s)[0] + "\n" <= s
  {
    SplitIsOneLineEach(s);
    assert Split(s)[0] in Split(s);
    JoinSplit(s);
  }

  lemma StringifyCut(value: string)
    requires !OneLine(value)
    ensures OneLine(Split(value)[0]) && Split(Stringify(value))[0] == "\"" + Escape(Split(value)[0])
  {
    hide Escape, Stringify;
    var first := Split(value)[0];
    SplitFirst(value);
    var rest := value[|first| + 1..];
    assert value == first + "\n" + rest;
    EscapeBreak(first, rest);
    StringifyIsEscape(value);
    EscapeOneLine(first);
    var head, tail := "\"" + Escape(first), Escape(rest) + "\"";
    assert Stringify(value) == head + "\n" + tail;
    SplitAtBreak(head, tail);
    SplitOneLine(head);
  }

  lemma EscapeBreak(first: string, rest: string)
    ensures Escape(first + "\n" + rest) == Escape(first) + "\n" + Escape(rest)
  {
    var value := first + "\n" + rest;
    EscapeSplit(value, |first|);
    assert value[..|first|] == first && value[|first|..] == "\n" + rest;
    assert ("\n" + rest)[1..] == rest && EscapeChar(LF) == "\n";
  }

  lemma KeyLineIsOneLine(key: string, value: string)
    requires IsBareKey(key) && OneLine(value)
    ensures OneLine(KeyLine(key, value))
  {
    assert forall c <- key :: IsKeyChar(c);
  }

  // ----- deletion -----

  lemma {:induction false} ReadDeleted(lines: seq<string>, current: Option<string>, section: Option<string>,
                                       key: string)
    ensures !HasHit(ReplaceHits(lines, current, section, key, []), current, section, key)
  {
    if lines != [] {
      var next := NextSection(current, lines[0]);
      ReadDeleted(lines[1..], next, section, key);
      var rest := ReplaceHits(lines[1..], next, section, key, []);
      if Hit(lines[0], current, section, key) {
        assert [] + rest == rest;
      } else {
        assert ([lines[0]] + rest)[1..] == rest;
      }
    }
  }

  /** After a deletion the key reads as absent, and no line of its section sets it any more. */
  lemma Deletion(raw: string, section: Option<string>, key: string)
    ensures Get(Upsert(raw, section, key, None), section, key) == None
    ensures !HasHit(NormalLines(Upsert(raw, section, key, None)), None, section, key)
  {
    var lines := NormalLines(raw);
    NormalLinesAreNormal(raw);
    assert forall l <- lines :: IsNormal(l);
    GetReadsEdit(raw, section, key, None, section, key);
    SplitReplaced(lines, None, section, key, []);
    ReadDeleted(lines, None, section, key);
    NoHitReadsNone(ReplaceHits(lines, None, section, key, []), None, section, key);
    GetReadsNormalLines(Upsert(raw, section, key, None), section, key);
    NoHitReadsNone(NormalLines(Upsert(raw, section, key, None)), None, section, key);
  }

  // ----- two edits of one key -----

  lemma {:induction false} DropCrsOfNormal(lines: seq<string>)
    requires AllNormal(lines)
    ensures DropCrsEach(lines) == lines
  {
    if lines != [] {
      assert lines[0] in lines && forall l <- lines[1..] :: l in lines;
      DropCrsOfNormal(lines[1..]);
    }
  }

  lemma {:induction false} DropCrsConcat(a: seq<string>, b: seq<string>)
    ensures DropCrsEach(a + b) == DropCrsEach(a) + DropCrsEach(b)
  {
  }

  lemma {:induction false} DropCrsReplaced(lines: seq<string>, current: Option<string>, section: Option<string>,
                                           key: string, line: string)
    requires AllNormal(lines)
    ensures DropCrsEach(ReplaceHits(lines, current, section, key, [line]))
         == ReplaceHits(lines, current, section, key, [DropCrs(line)])
  {
    if lines != [] {
      var next := NextSection(current, lines[0]);
      assert lines[0] in lines && forall l <- lines[1..] :: l in lines;
      DropCrsReplaced(lines[1..], next, section, key, line);
      var head := if Hit(lines[0], current, section, key) then [line] else [lines[0]];
      DropCrsConcat(head, ReplaceHits(lines[1..], next, section, key, [line]));
      DropCrsOfNormal([lines[0]]);
    }
  }

  lemma {:induction false} DropCrsInserted(lines: seq<string>, current: Option<string>, section: Option<string>,
                                           line: string)
    requires AllNormal(lines)
    ensures DropCrsEach(InsertAtEnd(lines, current, section, [line])) == InsertAtEnd(lines, current, section,
          [DropCrs(line)])
  {
    if current == section && (lines == [] || SectionName(lines[0]).Some?) {
      DropCrsConcat([line], lines);
      DropCrsOfNormal(lines);
    } else if lines != [] {
      var next := NextSection(current, lines[0]);
      assert lines[0] in lines && forall l <- lines[1..] :: l in lines;
      DropCrsInserted(lines[1..], next, section, line);
      DropCrsConcat([lines[0]], InsertAtEnd(lines[1..], next, section, [line]));
      DropCrsOfNormal([lines[0]]);
    }
  }

  lemma NormalLinesOfText(edited: seq<string>)
    requires OneLineEach(edited) && edited != []
    ensures NormalLines(Join(Tidy(edited)) + "\n") == Tidy(DropCrsEach(edited))
  {
    var kept := Tidy(edited);
    var blanks := TidySplits(edited);
    assert forall l <- kept :: l in edited;
    assert Join(kept) + "\n" == Join(kept) + "\n" + "";
    SplitAtBreak(Join(kept), "");
    SplitJoin(kept);
    SplitAllOneLine(kept);
    DropCrsConcat(kept, [""]);
    DropCrsConcat(kept, blanks);
    assert forall l <- blanks :: IsNormal(l);
    DropCrsOfNormal(blanks);
    DropCrsOfNormal([""]);
    TidyOfBlanks(DropCrsEach(kept), [""]);
    TidyOfBlanks(DropCrsEach(kept), blanks);
  }

  lemma NormalLinesOfUpsert(raw: string, section: Option<string>, key: string, value: string)
    requires IsSectionName(section) && IsBareKey(key) && OneLine(value)
    ensures NormalLines(Upsert(raw, section, key, Some(value)))
         == Tidy(Edited(NormalLines(raw), section, key, [DropCrs(KeyLine(key, value))]))
  {
    var lines, line := NormalLines(raw), KeyLine(key, value);
    var edited := Edited(lines, section, key, [line]);
    NormalLinesAreNormal(raw);
    assert forall l <- lines :: IsNormal(l);
    KeyLineIsOneLine(key, value);
    EditedIsOneLineEach(lines, section, key, line);
    DropCrsEdited(lines, section, key, line);
    EditedIsNotEmpty(lines, section, key, line);
    NormalLinesOfText(edited);
  }

  lemma EditedIsNotEmpty(lines: seq<string>, section: Option<string>, key: string, line: string)
    requires lines != []
    ensures Edited(lines, section, key, [line]) != []
  {
  }

  lemma DropCrsEdited(lines: seq<string>, section: Option<string>, key: string, line: string)
    requires AllNormal(lines) && IsSectionName(section)
    ensures DropCrsEach(Edited(lines, section, key, [line])) == Edited(lines, section, key, [DropCrs(line)])
  {
    DropCrsReplaced(lines, None, section, key, line);
    DropCrsInserted(lines, None, section, line);
    DropCrsAppended(lines, section, line);
  }

  lemma DropCrsAppended(lines: seq<string>, section: Option<string>, line: string)
    requires AllNormal(lines) && IsSectionName(section)
    ensures DropCrsEach(lines + NewSection(lines, section) + [line]) == lines + NewSection(lines,
          section) + [DropCrs(line)]
  {
    var front := lines + NewSection(lines, section);
    DropCrsConcat(front, [line]);
    var header := HeaderLine(section.GetOr(""));
    assert header[|header| - 1] == ']' && OneLine(header);
    DropCrsOfNormal(front);
  }

  lemma EditedIsOneLineEach(lines: seq<string>, section: Option<string>, key: string, line: string)
    requires OneLineEach(lines) && IsSectionName(section) && OneLine(line)
    ensures OneLineEach(Edited(lines, section, key, [line]))
  {
    var edited := Edited(lines, section, key, [line]);
    SplitReplaced(lines, None, section, key, [line]);
    SplitInserted(lines, None, section, line);
    SplitAppended(lines, section, line);
    SplitOneLine(line);
    assert SplitAll([line]) == [line];
    SplitAllIsOneLineEach(edited);
  }

  lemma {:induction false} SplitAllIsOneLineEach(lines: seq<string>)
    ensures OneLineEach(SplitAll(lines))
  {
    if lines != [] {
      SplitIsOneLineEach(lines[0]);
      SplitAllIsOneLineEach(lines[1..]);
    }
  }

  lemma {:induction false} ReplaceReplaced(lines: seq<string>, current: Option<string>, section: Option<string>,
                                           key: string, line: string, block: seq<string>)
    requires Hit(line, section, section, key)
    ensures ReplaceHits(ReplaceHits(lines, current, section, key, [line]), current, section, key, block)
         == ReplaceHits(lines, current, section, key, block)
    ensures HasHit(ReplaceHits(lines, current, section, key, [line]), current, section, key)
       <==> HasHit(lines, current, section, key)
  {
    if lines != [] {
      var next := NextSection(current, lines[0]);
      ReplaceReplaced(lines[1..], next, section, key, line, block);
      var head := if Hit(lines[0], current, section, key) then line else lines[0];
      var rest := ReplaceHits(lines[1..], next, section, key, [line]);
      assert ([head] + rest)[0] == head && ([head] + rest)[1..] == rest;
    }
  }

  lemma {:induction false} ReplaceInserted(lines: seq<string>, current: Option<string>, section: Option<string>,
                                           key: string, line: string, block: seq<string>)
    requires Hit(line, section, section, key)
    requires !HasHit(lines, current, section, key) && HasSection(lines, current, section)
    ensures ReplaceHits(InsertAtEnd(lines, current, section, [line]), current, section, key, block)
         == InsertAtEnd(lines, current, section, block)
    ensures HasHit(InsertAtEnd(lines, current, section, [line]), current, section, key)
  {
    var inserted := InsertAtEnd(lines, current, section, [line]);
    if current == section && (lines == [] || SectionName(lines[0]).Some?) {
      assert inserted[0] == line && inserted[1..] == lines;
      ReplaceNothing(lines, current, section, key, block);
    } else {
      var next := NextSection(current, lines[0]);
      ReplaceInserted(lines[1..], next, section, key, line, block);
      assert inserted[0] == lines[0] && inserted[1..] == InsertAtEnd(lines[1..], next, section, [line]);
    }
  }

  lemma {:induction false} ReplaceNothing(lines: seq<string>, current: Option<string>, section: Option<string>,
                                          key: string, block: seq<string>)
    requires !HasHit(lines, current, section, key)
    ensures ReplaceHits(lines, current, section, key, block) == lines
  {
    if lines != [] {
      ReplaceNothing(lines[1..], NextSection(current, lines[0]), section, key, block);
    }
  }

  lemma ReplaceAppended(lines: seq<string>, section: Option<string>, key: string, line: string, block: seq<string>)
    requires IsSectionName(section) && !HasSection(lines, None, section)
    requires Hit(line, section, section, key)
    ensures var appended := lines + NewSection(lines, section) + [line];
            && ReplaceHits(appended, None, section, key, block) == lines + NewSection(lines, section) + block
            && Read(appended, None, section, key).Some?
  {
    var current, opening := SectionAfter(lines, None), NewSection(lines, section);
    HeaderLineReads(section.value);
    NoSectionAfter(lines, None, section);
    NoHitReadsNone(lines, None, section, key);
    ReplaceNothing(lines, None, section, key, block);
    assert lines + opening + [line] == lines + (opening + [line]);
    assert lines + opening + block == lines + (opening + block);
    ReplaceHitsConcat(lines, opening + [line], None, section, key, block);
    ReplaceHitsConcat(opening, [line], current, section, key, block);
    ReadAppended(lines, section, [line], section, key);
    assert ReplaceHits([line], section, section, key, block) == block + [] == block;
    ReplaceOpening(lines, section, key, current, block);
  }

  lemma ReplaceOpening(lines: seq<string>, section: Option<string>, key: string, current: Option<string>,
                       block: seq<string>)
    requires IsSectionName(section) && section.Some?
    ensures var opening := NewSection(lines, section);
            SectionAfter(opening, current) == section && ReplaceHits(opening, current, section, key, block) == opening
  {
    var header := HeaderLine(section.value);
    HeaderLineReads(section.value);
    assert SectionAfter([header], current) == section;
    assert ReplaceHits([header], current, section, key, block) == [header] + ReplaceHits([], section, section, key,
          block);
    BlanksAreNoHits([""], current, section, key, block);
    assert SectionAfter([""], current) == current;
    SectionAfterConcat([""], [header], current);
    ReplaceHitsConcat([""], [header], current, section, key, block);
  }

  /** Editing lines that were already edited for the same key is editing the original lines. */
  lemma ReplaceEdited(lines: seq<string>, section: Option<string>, key: string, line: string, block: seq<string>)
    requires IsSectionName(section) && Hit(line, section, section, key)
    ensures ReplaceHits(Edited(lines, section, key, [line]), None, section, key, block) == Edited(lines, section, key,
          block)
    ensures HasHit(Edited(lines, section, key, [line]), None, section, key)
  {
    var edited := Edited(lines, section, key, [line]);
    if HasHit(lines, None, section, key) {
      ReplaceReplaced(lines, None, section, key, line, block);
    } else if HasSection(lines, None, section) {
      ReplaceInserted(lines, None, section, key, line, block);
    } else {
      ReplaceAppended(lines, section, key, line, block);
    }
    NoHitReadsNone(edited, None, section, key);
  }

  lemma HasHitInTidy(lines: seq<string>, section: Option<string>, key: string)
    ensures HasHit(Tidy(lines), None, section, key) <==> HasHit(lines, None, section, key)
  {
    ReadTidy(lines, section, key);
    NoHitReadsNone(lines, None, section, key);
    NoHitReadsNone(Tidy(lines), None, section, key);
  }

  lemma DroppedLineHits(section: Option<string>, key: string, value: string)
    requires IsBareKey(key)
    ensures Hit(DropCrs(KeyLine(key, value)), section, section, key)
  {
    KeyLineReads(key, value);
    DropCrsReadsAlike(KeyLine(key, value));
    assert MatchesKey(KeyLine(key, value), key) == MatchesKey(DropCrs(KeyLine(key, value)), key);
  }

  /** The last write wins: setting a key twice gives the very text that setting it once with the
      second value gives. With equal values, repeating an upsert changes nothing. */
  lemma LastWriteWins(raw: string, section: Option<string>, key: string, first: string, second: string)
    requires IsSectionName(section) && IsBareKey(key) && OneLine(first)
    ensures Upsert(Upsert(raw, section, key, Some(first)), section, key, Some(second))
         == Upsert(raw, section, key, Some(second))
  {
    var lines, line := NormalLines(raw), DropCrs(KeyLine(key, first));
    var block := [KeyLine(key, second)];
    var edited := Edited(lines, section, key, [line]);
    NormalLinesOfUpsert(raw, section, key, first);
    DroppedLineHits(section, key, first);
    ReplaceEdited(lines, section, key, line, block);
    HasHitInTidy(edited, section, key);
    TidyBeforeReplace(edited, section, key, block);
  }

  /** Deleting a key after setting it gives the text that deleting it gives, when the section was
      there before; a section created for the key stays behind, empty. */
  lemma DeleteAfterSet(raw: string, section: Option<string>, key: string, value: string)
    requires IsSectionName(section) && IsBareKey(key) && OneLine(value)
    ensures var lines := NormalLines(raw);
            var text := Upsert(Upsert(raw, section, key, Some(value)), section, key, None);
            if HasSection(lines, None, section) then text == Upsert(raw, section, key, None)
            else text == Join(lines + NewSection(lines, section)) + "\n"
  {
    var lines, line := NormalLines(raw), DropCrs(KeyLine(key, value));
    NormalLinesOfUpsert(raw, section, key, value);
    DroppedLineHits(section, key, value);
    ReplaceEdited(lines, section, key, line, []);
    TidyBeforeReplace(Edited(lines, section, key, [line]), section, key, []);
    NoHitReadsNone(lines, None, section, key);
    if HasHit(lines, None, section, key) {
    } else if HasSection(lines, None, section) {
      InsertNothing(lines, None, section);
      ReplaceNothing(lines, None, section, key, []);
    } else {
      TidyNewSection(lines, section);
      assert lines + NewSection(lines, section) + [] == lines + NewSection(lines, section);
    }
  }

  lemma {:induction false} TidyTwice(lines: seq<string>)
    ensures Tidy(Tidy(lines)) == Tidy(lines)
  {
    if |lines| > 1 && lines[|lines| - 1] == "" {
      TidyTwice(lines[..|lines| - 1]);
    }
  }

  lemma {:induction false} DeletedAreAmong(lines: seq<string>, current: Option<string>, section: Option<string>,
                                           key: string)
    ensures forall l <- ReplaceHits(lines, current, section, key, []) :: l in lines
  {
    if lines != [] {
      DeletedAreAmong(lines[1..], NextSection(current, lines[0]), section, key);
    }
  }

  /** Deleting a key once more changes nothing. */
  lemma DeleteTwice(raw: string, section: Option<string>, key: string)
    ensures Upsert(Upsert(raw, section, key, None), section, key, None) == Upsert(raw, section, key, None)
  {
    var lines := NormalLines(raw);
    var edited := ReplaceHits(lines, None, section, key, []);
    var text := Upsert(raw, section, key, None);
    Deletion(raw, section, key);
    NormalLinesAreNormal(raw);
    DeletedAreAmong(lines, None, section, key);
    var kept := if edited == [] then [""] else edited;
    assert Tidy(edited) == Tidy(kept);
    assert forall l <- kept :: IsNormal(l);
    NormalLinesOfText(kept);
    DropCrsOfNormal(kept);
    ReplaceNothing(NormalLines(text), None, section, key, []);
    TidyTwice(edited);
  }

  lemma TidyNewSection(lines: seq<string>, section: Option<string>)
    ensures Tidy(lines + NewSection(lines, section)) == lines + NewSection(lines, section)
  {
    var all := lines + NewSection(lines, section);
    assert all[|all| - 1] == HeaderLine(section.GetOr(""));
  }

  lemma {:induction false} InsertNothing(lines: seq<string>, current: Option<string>, section: Option<string>)
    requires HasSection(lines, current, section)
    ensures InsertAtEnd(lines, current, section, []) == lines
  {
    if current == section && (lines == [] || SectionName(lines[0]).Some?) {
    } else {
      InsertNothing(lines[1..], NextSection(current, lines[0]), section);
    }
  }

  // ----- the text as it is written -----

  lemma {:induction false} CrsAreDropped(line: string) returns (crs: string)
    ensures line == DropCrs(line) + crs && (forall c <- crs :: c == '\r')
    ensures DropCrs(line) != "" ==> DropCrs(line)[|DropCrs(line)| - 1] != '\r'
  {
    if line != "" && line[|line| - 1] == '\r' {
      var rest := CrsAreDropped(line[..|line| - 1]);
      crs := rest + "\r";
      assert line == line[..|line| - 1] + "\r";
    } else {
      crs := "";
    }
  }

  lemma {:induction false} TidyDropsBlanks(lines: seq<string>)
    requires lines != []
    ensures Tidy(lines) <= lines && forall i | |Tidy(lines)| <= i < |lines| :: lines[i] == ""
    ensures |Tidy(lines)| > 1 ==> Tidy(lines)[|Tidy(lines)| - 1] != ""
  {
    if |lines| > 1 && lines[|lines| - 1] == "" {
      TidyDropsBlanks(lines[..|lines| - 1]);
    }
  }

  /** The lines that are edited are those of the file without the carriage returns they end in; only empty
      ones at the end are left out, and never the last one there is. */
  lemma NormalLinesAre(raw: string)
    ensures var parts, lines := Split(raw), NormalLines(raw);
            && 0 < |lines| <= |parts| && (|lines| > 1 ==> lines[|lines| - 1] != "")
            && (forall i | 0 <= i < |lines| :: IsWithoutCrs(parts[i], lines[i]))
            && forall i | |lines| <= i < |parts| :: IsWithoutCrs(parts[i], "")
  {
    hide DropCrs, Split, Tidy, IsWithoutCrs;
    var parts := Split(raw);
    var whole := DropCrsEach(parts);
    TidyDropsBlanks(whole);
    forall i | 0 <= i < |parts| ensures IsWithoutCrs(parts[i], whole[i]) {
      WithoutCrs(parts[i]);
    }
  }

  lemma WithoutCrs(part: string)
    ensures IsWithoutCrs(part, DropCrs(part))
  {
    hide DropCrs;
    var crs := CrsAreDropped(part);
    assert part[..|DropCrs(part)|] == DropCrs(part);
    assert forall i | 0 <= i < |crs| :: crs[i] in crs;
    assert forall i | |DropCrs(part)| <= i < |part| :: part[i] == crs[i - |DropCrs(part)|];
  }

  predicate IsWithoutCrs(part: string, line: string) {
    line <= part && (forall i | |line| <= i < |part| :: part[i] == '\r')
    && (line != "" ==> line[|line| - 1] != '\r')
  }

  /** What an empty file becomes: an empty line stays in front, a section gets its header, and the text
      ends with a line feed. */
  lemma EmptyFileGets(section: string, key: string, value: string)
    requires key != ""
    ensures Upsert("", None, key, Some(value)) == "\n" + key + " = " + value + "\n"
    ensures Upsert("", Some(section), key, Some(value)) == "\n[" + section + "]\n" + key + " = " + value + "\n"
  {
    hide *;
    var line, header := KeyLine(key, value), HeaderLine(section);
    EmptyIsOneLine();
    EmptyEdits(section, key, value);
    Shapes(section, key, value);
    Ends([""], line);
    Ends(["", header], line);
    TwoLines("", line);
    ThreeLines("", header, line);
    UpsertIs("", None, key, Some(value));
    UpsertIs("", Some(section), key, Some(value));
    assert [""] + [line] == ["", line] && ["", header] + [line] == ["", header, line];
  }

  lemma EmptyIsOneLine()
    ensures NormalLines("") == [""]
  {
  }

  lemma UpsertIs(raw: string, section: Option<string>, key: string, value: Option<string>)
    ensures Upsert(raw, section, key, value) == Join(Tidy(Edit(NormalLines(raw), section, key, value))) + "\n"
  {
  }

  lemma Ends(lines: seq<string>, line: string)
    requires line != "" || lines == []
    ensures Tidy(lines + [line]) == lines + [line]
  {
  }

  lemma Shapes(section: string, key: string, value: string)
    ensures KeyLine(key, value) != ""
    ensures "" + "\n" + KeyLine(key, value) + "\n" == "\n" + key + " = " + value + "\n"
    ensures "" + "\n" + (HeaderLine(section) + "\n" + KeyLine(key, value)) + "\n"
         == "\n[" + section + "]\n" + key + " = " + value + "\n"
  {
  }

  lemma ThreeLines(a: string, b: string, c: string)
    ensures Join([a, b, c]) == a + "\n" + (b + "\n" + c)
  {
    assert [a, b, c][1..] == [b, c];
    TwoLines(b, c);
  }

  lemma EmptyEdits(section: string, key: string, value: string)
    requires key != ""
    ensures Edit([""], None, key, Some(value)) == ["", KeyLine(key, value)]
    ensures Edit([""], Some(section), key, Some(value)) == ["", HeaderLine(section), KeyLine(key, value)]
  {
    var line, lines := KeyLine(key, value), [""];
    assert lines[1..] == [] && lines[0] == "" && !MatchesKey("", key) && SectionName("").None?;
    assert !HasHit(lines[1..], None, None, key) && !HasHit(lines[1..], None, Some(section), key);
    assert !HasHit(lines, None, None, key) && !HasHit(lines, None, Some(section), key);
    assert InsertAtEnd(lines[1..], None, None, [line]) == [line] + [];
    assert InsertAtEnd(lines, None, None, [line]) == [""] + ([line] + []);
    assert !HasSection(lines[1..], None, Some(section));
    assert !HasSection(lines, None, Some(section));
  }

  lemma TwoLines(a: string, b: string)
    ensures Join([a, b]) == a + "\n" + b
  {
    assert [a, b][1..] == [b];
  }
}
