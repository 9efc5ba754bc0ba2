/** What setting or deleting one key does to the reading of every other key: nothing, exactly when
    the lines that its value adds set no other key and stay in the section. And what such lines do to
    a second write of the key. */
module TomlFrame {
  import opened Text
  import opened TomlValues
  import opened TomlReader
  import opened TomlUpsert
  import opened TomlLaws

  /** The lines that a value adds to the file behind the line of its key. */
  function Rest(value: Option<string>): seq<string> {
    if value.Some? then Split(value.value)[1..] else []
  }

  /** Behind the value one still stands in the section of its key. */
  predicate LeavesSection(section: Option<string>, value: Option<string>) {
    SectionAfter(Rest(value), section) == section
  }

  /** The lines of the value do not set the key. */
  predicate LeavesKey(section: Option<string>, value: Option<string>, section': Option<string>, key': string) {
    Read(Rest(value), section, section', key').None?
  }

  lemma OneLineHasNoRest(value: Option<string>)
    requires value.Some? ==> OneLine(value.value)
    ensures Rest(value) == []
  {
    if value.Some? {
      SplitOneLine(value.value);
    }
  }

  lemma SplitKeyBlock(key: string, value: string)
    requires IsBareKey(key)
    ensures Split(KeyLine(key, value)) == [KeyLine(key, Split(value)[0])] + Rest(Some(value))
  {
    assert forall c <- key :: IsKeyChar(c);
    SplitPrefix(key + " = ", value);
  }

  /** To the reader of another key, a printed key with its value is no more than the lines behind the first. */
  lemma KeyBlockReads(section: Option<string>, key: string, value: string, section': Option<string>, key': string)
    requires IsBareKey(key) && IsBareKey(key') && (section', key') != (section, key)
    ensures var block := Split(KeyLine(key, value));
            && SectionAfter(block, section) == SectionAfter(Rest(Some(value)), section)
            && Read(block, section, section', key') == Read(Rest(Some(value)), section, section', key')
  {
    var line := KeyLine(key, Split(value)[0]);
    SplitKeyBlock(key, value);
    KeyLineReads(key, Split(value)[0]);
    if MatchesKey(line, key') {
      KeyIsUnique(line, key, key');
    }
    assert ([line] + Rest(Some(value)))[1..] == Rest(Some(value));
  }

  // ----- a block that the reader does not notice -----

  predicate Quiet(block: seq<string>, section: Option<string>, section': Option<string>, key': string) {
    SectionAfter(block, section) == section && Read(block, section, section', key').None?
  }

  lemma {:induction false} ReadOtherReplaced(lines: seq<string>, current: Option<string>, section: Option<string>,
                                             key: string, block: seq<string>, section': Option<string>, key': string)
    requires Quiet(block, section, section', key')
    requires IsBareKey(key) && IsBareKey(key') && (section', key') != (section, key)
    ensures Read(ReplaceHits(lines, current, section, key, block), current, section', key')
         == Read(lines, current, section', key')
  {
    if lines != [] {
      var next := NextSection(current, lines[0]);
      ReadOtherReplaced(lines[1..], next, section, key, block, section', key');
      var rest := ReplaceHits(lines[1..], next, section, key, block);
      if Hit(lines[0], current, section, key) {
        if section' == section && MatchesKey(lines[0], key') {
          KeyIsUnique(lines[0], key, key');
        }
        ReadConcat(block, rest, section, section', key');
      } else {
        assert ([lines[0]] + rest)[1..] == rest;
      }
    }
  }

  lemma {:induction false} ReadOtherInserted(lines: seq<string>, current: Option<string>, section: Option<string>,
                                             block: seq<string>, section': Option<string>, key': string)
    requires Quiet(block, section, section', key') && HasSection(lines, current, section)
    ensures Read(InsertAtEnd(lines, current, section, block), current, section', key')
         == Read(lines, current, section', key')
  {
    if current == section && (lines == [] || SectionName(lines[0]).Some?) {
      ReadConcat(block, lines, section, section', key');
    } else {
      var next := NextSection(current, lines[0]);
      ReadOtherInserted(lines[1..], next, section, block, section', key');
      assert ([lines[0]] + InsertAtEnd(lines[1..], next, section, block))[1..] == InsertAtEnd(lines[1..], next,
            section, block);
    }
  }

  lemma ReadOtherEdited(lines: seq<string>, section: Option<string>, key: string, block: seq<string>,
                        section': Option<string>, key': string)
    requires IsSectionName(section) && IsBareKey(key) && IsBareKey(key') && (section', key') != (section, key)
    requires Quiet(block, section, section', key')
    ensures Read(Edited(lines, section, key, block), None, section', key') == Read(lines, None, section', key')
  {
    if HasHit(lines, None, section, key) {
      ReadOtherReplaced(lines, None, section, key, block, section', key');
    } else if HasSection(lines, None, section) {
      ReadOtherInserted(lines, None, section, block, section', key');
    } else {
      ReadAppended(lines, section, block, section', key');
    }
  }

  /** A key that the value does not set reads as before, if the value stays in its section. */
  lemma OtherKeyStays(raw: string, section: Option<string>, key: string, value: Option<string>,
                      section': Option<string>, key': string)
    requires IsSectionName(section) && IsBareKey(key) && IsBareKey(key') && (section', key') != (section, key)
    requires LeavesSection(section, value) && LeavesKey(section, value, section', key')
    ensures Get(Upsert(raw, section, key, value), section', key') == Get(raw, section', key')
  {
    var lines := NormalLines(raw);
    GetReadsNormalLines(raw, section', key');
    GetReadsEdit(raw, section, key, value, section', key');
    if value.None? {
      NormalLinesAreNormal(raw);
      assert forall l <- lines :: IsNormal(l);
      SplitReplaced(lines, None, section, key, []);
      ReadOtherReplaced(lines, None, section, key, [], section', key');
    } else {
      SplitEdit(raw, section, key, value.value);
      KeyBlockReads(section, key, value.value, section', key');
      ReadOtherEdited(lines, section, key, Split(KeyLine(key, value.value)), section', key');
    }
  }

  // ----- a block that sets another key -----

  lemma {:induction false} ReadShownReplaced(lines: seq<string>, current: Option<string>, section: Option<string>,
                                             key: string, block: seq<string>, section': Option<string>, key': string)
    requires HasHit(lines, current, section, key) && Read(block, section, section', key').Some?
    ensures var edited := ReplaceHits(lines, current, section, key, block);
            && Read(edited, current, section', key').Some?
            && (Read(lines, current, section', key').None? ==>
                  Read(edited, current, section', key') == Read(block, section, section', key'))
  {
    var next := NextSection(current, lines[0]);
    var rest := ReplaceHits(lines[1..], next, section, key, block);
    if Hit(lines[0], current, section, key) {
      ReadConcat(block, rest, section, section', key');
    } else {
      ReadShownReplaced(lines[1..], next, section, key, block, section', key');
      assert ([lines[0]] + rest)[1..] == rest;
    }
  }

  lemma {:induction false} ReadShownInserted(lines: seq<string>, current: Option<string>, section: Option<string>,
                                             block: seq<string>, section': Option<string>, key': string)
    requires HasSection(lines, current, section) && Read(block, section, section', key').Some?
    ensures var edited := InsertAtEnd(lines, current, section, block);
            && Read(edited, current, section', key').Some?
            && (Read(lines, current, section', key').None? ==>
                  Read(edited, current, section', key') == Read(block, section, section', key'))
  {
    if current == section && (lines == [] || SectionName(lines[0]).Some?) {
      ReadConcat(block, lines, section, section', key');
    } else {
      var next := NextSection(current, lines[0]);
      var rest := InsertAtEnd(lines[1..], next, section, block);
      ReadShownInserted(lines[1..], next, section, block, section', key');
      assert ([lines[0]] + rest)[1..] == rest;
    }
  }

  lemma ReadShownEdited(lines: seq<string>, section: Option<string>, key: string, block: seq<string>,
                        section': Option<string>, key': string)
    requires IsSectionName(section) && Read(block, section, section', key').Some?
    ensures var edited := Edited(lines, section, key, block);
            && Read(edited, None, section', key').Some?
            && (Read(lines, None, section', key').None? ==>
                  Read(edited, None, section', key') == Read(block, section, section', key'))
  {
    if HasHit(lines, None, section, key) {
      ReadShownReplaced(lines, None, section, key, block, section', key');
    } else if HasSection(lines, None, section) {
      ReadShownInserted(lines, None, section, block, section', key');
    } else {
      ReadAppended(lines, section, block, section', key');
    }
  }

  /** A key that the value does set is set in every text, and read with the value's own text for it
      where it was not set before. */
  lemma OtherKeyShows(raw: string, section: Option<string>, key: string, value: string,
                      section': Option<string>, key': string)
    requires IsSectionName(section) && IsBareKey(key) && IsBareKey(key') && (section', key') != (section, key)
    requires !LeavesKey(section, Some(value), section', key')
    ensures var text := Upsert(raw, section, key, Some(value));
            && Get(text, section', key').Some?
            && (Get(raw, section', key').None?
                ==> Get(text, section', key') == Read(Rest(Some(value)), section, section', key'))
  {
    GetReadsNormalLines(raw, section', key');
    GetReadsEdit(raw, section, key, Some(value), section', key');
    SplitEdit(raw, section, key, value);
    KeyBlockReads(section, key, value, section', key');
    ReadShownEdited(NormalLines(raw), section, key, Split(KeyLine(key, value)), section', key');
  }

  /** A second line `other = second` in a value sets the other key, wherever the value was put. */
  lemma SecondLineSetsAnotherKey(raw: string, section: Option<string>, key: string, first: string, other: string,
                                 second: string)
    requires IsSectionName(section) && IsBareKey(key) && IsBareKey(other) && key != other && OneLine(first)
    requires Get(raw, section, other) == None
    ensures var value := first + "\n" + KeyLine(other, second);
            Get(Upsert(raw, section, key, Some(value)), section, other) == Some(ValueText(Split(second)[0]))
  {
    SecondLineReads(section, first, other, second);
    OtherKeyShows(raw, section, key, first + "\n" + KeyLine(other, second), section, other);
  }

  lemma SecondLineReads(section: Option<string>, first: string, other: string, second: string)
    requires IsBareKey(other) && OneLine(first)
    ensures Read(Rest(Some(first + "\n" + KeyLine(other, second))), section, section, other)
            == Some(ValueText(Split(second)[0]))
  {
    SplitAtBreak(first, KeyLine(other, second));
    SplitOneLine(first);
    SplitKeyBlock(other, second);
    KeyLineReads(other, Split(second)[0]);
  }

  // ----- a block that leaves the section -----

  /** A key of the same section, set in the line behind. */
  function Neighbour(key: string): string {
    if key == "a" then "b" else "a"
  }

  /** The lines that begin the section in a text of its own. */
  function Front(section: Option<string>): seq<string> {
    if section.Some? then [HeaderLine(section.value)] else []
  }

  /** A text whose section sets the key and then its neighbour. */
  function Neighbours(section: Option<string>, key: string): seq<string> {
    Front(section) + [KeyLine(key, "1"), KeyLine(Neighbour(key), "1")]
  }

  lemma NeighboursAreNormal(section: Option<string>, key: string)
    requires IsSectionName(section) && IsBareKey(key)
    ensures NormalLines(Join(Neighbours(section, key))) == Neighbours(section, key)
  {
    var lines := Neighbours(section, key);
    KeyLineIsOneLine(key, "1");
    KeyLineIsOneLine(Neighbour(key), "1");
    var k, n := KeyLine(key, "1"), KeyLine(Neighbour(key), "1");
    assert k[|k| - 1] == '1' && n[|n| - 1] == '1';
    if section.Some? {
      var h := HeaderLine(section.value);
      assert h[|h| - 1] == ']' && OneLine(h);
    }
    NormalLinesOfJoin(lines);
  }

  lemma NeighboursEdited(section: Option<string>, key: string, block: seq<string>)
    requires IsSectionName(section) && IsBareKey(key)
    ensures var lines, front := Neighbours(section, key), Front(section);
            && Read(lines, None, section, Neighbour(key)).Some?
            && Edited(lines, section, key, block) == front + (block + [KeyLine(Neighbour(key), "1")])
            && SectionAfter(front, None) == section && Read(front, None, section, Neighbour(key)).None?
  {
    var front := Front(section);
    var k, n := KeyLine(key, "1"), KeyLine(Neighbour(key), "1");
    KeyLineReads(key, "1");
    KeyLineReads(Neighbour(key), "1");
    if MatchesKey(n, key) {
      KeyIsUnique(n, key, Neighbour(key));
    }
    if section.Some? {
      HeaderLineReads(section.value);
    }
    ReplaceHitsConcat(front, [k, n], None, section, key, block);
    ReadConcat(front, [k, n], None, section, Neighbour(key));
    NoHitReadsNone(front + [k, n], None, section, key);
    ReadConcat(front, [k, n], None, section, key);
    assert [k, n][1..] == [n];
    assert ReplaceHits([n], section, section, key, block) == [n] + [] == [n];
    assert ReplaceHits(front, None, section, key, block) == front + [] == front;
  }

  /** The key behind a value that leaves the section is lost to its reader. */
  lemma NeighbourIsLost(section: Option<string>, key: string, value: string)
    requires IsSectionName(section) && IsBareKey(key) && !LeavesSection(section, Some(value))
    requires LeavesKey(section, Some(value), section, Neighbour(key))
    ensures var raw, other := Join(Neighbours(section, key)), Neighbour(key);
            Get(raw, section, other).Some? && Get(Upsert(raw, section, key, Some(value)), section, other).None?
  {
    var raw, other := Join(Neighbours(section, key)), Neighbour(key);
    var block, n := Split(KeyLine(key, value)), KeyLine(Neighbour(key), "1");
    var front := Front(section);
    GetReadsNormalLines(raw, section, other);
    GetReadsEdit(raw, section, key, Some(value), section, other);
    NeighboursAreNormal(section, key);
    SplitEdit(raw, section, key, value);
    NeighboursEdited(section, key, block);
    ReadConcat(front, block + [n], None, section, other);
    KeyBlockReads(section, key, value, section, other);
    ReadConcat(block, [n], section, section, other);
  }

  // ----- the frame -----

  /** The lines that the value adds set no other key and stay in the section. */
  ghost predicate KeepsToItself(section: Option<string>, key: string, value: Option<string>) {
    && LeavesSection(section, value)
    && forall section', key' | IsBareKey(key') && (section', key') != (section, key) ::
      LeavesKey(section, value, section', key')
  }

  /** Whatever the text, every other key of every section reads as before. */
  ghost predicate LeavesOthers(section: Option<string>, key: string, value: Option<string>) {
    forall raw, section', key' | IsBareKey(key') && (section', key') != (section, key) ::
      Get(Upsert(raw, section, key, value), section', key') == Get(raw, section', key')
  }

  /** Setting or deleting a key leaves the reading of all others alone, in every text, exactly when
      the value keeps to itself. */
  lemma Frame(section: Option<string>, key: string, value: Option<string>)
    requires IsSectionName(section) && IsBareKey(key)
    ensures LeavesOthers(section, key, value) <==> KeepsToItself(section, key, value)
  {
    if KeepsToItself(section, key, value) {
      forall raw, section', key' | IsBareKey(key') && (section', key') != (section, key)
        ensures Get(Upsert(raw, section, key, value), section', key') == Get(raw, section', key')
      {
        OtherKeyStays(raw, section, key, value, section', key');
      }
    } else {
      FrameFails(section, key, value);
    }
  }

  lemma OneLoss(raw: string, section: Option<string>, key: string, value: Option<string>,
                section': Option<string>, key': string)
    requires IsBareKey(key') && (section', key') != (section, key)
    requires Get(Upsert(raw, section, key, value), section', key') != Get(raw, section', key')
    ensures !LeavesOthers(section, key, value)
  {
    hide Get, Upsert, IsBareKey;
  }

  lemma FrameFails(section: Option<string>, key: string, value: Option<string>)
    requires IsSectionName(section) && IsBareKey(key) && !KeepsToItself(section, key, value)
    ensures !LeavesOthers(section, key, value)
  {
    hide Get, Upsert, LeavesOthers;
    if section', key' :|
         IsBareKey(key') && (section', key') != (section, key) && !LeavesKey(section, value, section', key') {
      OtherKeyShows("", section, key, value.value, section', key');
      EmptyReadsNone(section', key');
      OneLoss("", section, key, value, section', key');
    } else {
      assert LeavesKey(section, value, section, Neighbour(key));
      NeighbourIsLost(section, key, value.value);
      OneLoss(Join(Neighbours(section, key)), section, key, value, section, Neighbour(key));
    }
  }

  lemma EmptyReadsNone(section: Option<string>, key: string)
    requires IsBareKey(key)
    ensures Get("", section, key).None?
  {
    GetReadsParts("", section, key);
    ReadBlanks([""], None, section, key);
  }

  // ----- the last write -----

  lemma SplitWritten(lines: seq<string>)
    requires lines != [] && lines[|lines| - 1] != ""
    ensures Split(Join(Tidy(lines)) + "\n") == SplitAll(lines) + [""]
  {
    hide Split, Join, SplitAll;
    assert Tidy(lines) == lines;
    assert Join(lines) + "\n" == Join(lines) + "\n" + "";
    SplitAtBreak(Join(lines), "");
    SplitJoin(lines);
    assert Split("") == [""] by { SplitOneLine(""); }
  }

  lemma SplitMiddle(front: seq<string>, line: string, last: string)
    requires OneLineEach(front) && OneLine(last)
    ensures SplitAll(front + ([line] + [last])) == front + Split(line) + [last]
  {
    assert SplitAll([line]) == Split(line) + [] == Split(line);
    hide Split, SplitAll, OneLine;
    SplitAllConcat(front, [line] + [last]);
    SplitAllConcat([line], [last]);
    SplitAllOneLine(front);
    SplitAllOneLine([last]);
    assert front + (Split(line) + [last]) == front + Split(line) + [last];
  }

  lemma FrontIsOneLine(section: Option<string>)
    requires IsSectionName(section)
    ensures OneLineEach(Front(section))
  {
  }

  lemma NeighbourLine(key: string)
    requires IsBareKey(key)
    ensures var n := KeyLine(Neighbour(key), "1");
            n != "" && OneLine(n) && DropCrs(n) == n && !MatchesKey(n, key)
  {
    var n := KeyLine(Neighbour(key), "1");
    KeyLineIsOneLine(Neighbour(key), "1");
    assert n[|n| - 1] == '1';
    KeyLineReads(Neighbour(key), "1");
    if MatchesKey(n, key) {
      KeyIsUnique(n, key, Neighbour(key));
    }
  }

  /** The text after the key of the two neighbours has been set. */
  lemma NeighboursSet(section: Option<string>, key: string, value: string)
    requires IsSectionName(section) && IsBareKey(key)
    ensures Split(Upsert(Join(Neighbours(section, key)), section, key, Some(value)))
         == Front(section) + Split(KeyLine(key, value)) + [KeyLine(Neighbour(key), "1")] + [""]
  {
    hide KeyLine, Split, Join, SplitAll, Neighbours, Front, IsBareKey, OneLine, MatchesKey, DropCrs, Read,
         SectionAfter, Tidy;
    var line, n := KeyLine(key, value), KeyLine(Neighbour(key), "1");
    NeighboursAreNormal(section, key);
    NeighboursEdited(section, key, [line]);
    NeighbourLine(key);
    FrontIsOneLine(section);
    var edited := Front(section) + ([line] + [n]);
    assert edited[|edited| - 1] == n;
    SplitWritten(edited);
    SplitMiddle(Front(section), line, n);
    WrittenAs(Join(Neighbours(section, key)), section, key, value, edited);
  }

  lemma WrittenAs(raw: string, section: Option<string>, key: string, value: string, edited: seq<string>)
    requires Edited(NormalLines(raw), section, key, [KeyLine(key, value)]) == edited
    ensures Upsert(raw, section, key, Some(value)) == Join(Tidy(edited)) + "\n"
  {
    hide KeyLine, Join, Tidy, NormalLines;
  }

  /** Replacing lines by one that spans several makes no fewer of them. */
  lemma {:induction false} ReplacedLineCount(lines: seq<string>, current: Option<string>, section: Option<string>,
                                             key: string, line: string)
    ensures |SplitAll(ReplaceHits(lines, current, section, key, [line]))| >= |lines|
    ensures HasHit(lines, current, section, key) ==>
              |SplitAll(ReplaceHits(lines, current, section, key, [line]))| >= |lines| - 1 + |Split(line)|
  {
    if lines != [] {
      var next := NextSection(current, lines[0]);
      ReplacedLineCount(lines[1..], next, section, key, line);
      var head := if Hit(lines[0], current, section, key) then line else lines[0];
      SplitAllConcat([head], ReplaceHits(lines[1..], next, section, key, [line]));
      assert SplitAll([head]) == Split(head) + [] == Split(head);
    }
  }

  /** Setting the key again where the first value left several lines leaves some of them. */
  lemma SetAgain(raw: string, section: Option<string>, key: string, value: string, last: string)
    requires IsSectionName(section) && IsBareKey(key) && HasHit(NormalLines(raw), None, section, key)
    requires var lines := NormalLines(raw); lines[|lines| - 1] == last && last != "" && !MatchesKey(last, key)
    ensures |Split(Upsert(raw, section, key, Some(value)))| >= |NormalLines(raw)| + |Split(KeyLine(key, value))|
  {
    var lines, line := NormalLines(raw), KeyLine(key, value);
    var front := lines[..|lines| - 1];
    assert lines == front + [last];
    var edited := ReplaceHits(lines, None, section, key, [line]);
    assert ReplaceHits([last], SectionAfter(front, None), section, key, [line]) == [last] + [] == [last];
    WrittenAs(raw, section, key, value, edited);
    hide KeyLine, Split, Join, SplitAll, IsBareKey, MatchesKey, Tidy, NormalLines, ReplaceHits, HasHit, Upsert;
    ReplaceHitsConcat(front, [last], None, section, key, [line]);
    assert edited[|edited| - 1] == last;
    SplitWritten(edited);
    ReplacedLineCount(lines, None, section, key, line);
  }

  lemma NeighboursSetLines(section: Option<string>, key: string, value: string)
    requires IsSectionName(section) && IsBareKey(key)
    ensures var text, n := Upsert(Join(Neighbours(section, key)), section, key, Some(value)),
            KeyLine(Neighbour(key), "1");
            && NormalLines(text) == DropCrsEach(Front(section) + Split(KeyLine(key, value)) + [n])
            && NormalLines(text)[|NormalLines(text)| - 1] == n
  {
    hide KeyLine, Split, Join, Neighbours, Front, IsBareKey, OneLine, MatchesKey, Upsert;
    var n := KeyLine(Neighbour(key), "1");
    var body := Front(section) + Split(KeyLine(key, value)) + [n];
    NeighboursSet(section, key, value);
    NeighbourLine(key);
    DropCrsConcat(body, [""]);
    assert DropCrs("") == "";
    assert DropCrsEach(body)[|body| - 1] == DropCrs(body[|body| - 1]);
    TidyOfBlanks(DropCrsEach(body), DropCrsEach([""]));
  }

  lemma KeyIsSet(raw: string, section: Option<string>, key: string, value: string)
    requires IsSectionName(section) && IsBareKey(key)
    ensures HasHit(NormalLines(Upsert(raw, section, key, Some(value))), None, section, key)
  {
    hide Upsert, NormalLines, HasHit;
    var text := Upsert(raw, section, key, Some(value));
    ReadBack(raw, section, key, value);
    GetReadsNormalLines(text, section, key);
    NoHitReadsNone(NormalLines(text), None, section, key);
  }

  lemma SeveralLines(key: string, value: string)
    requires IsBareKey(key) && !OneLine(value)
    ensures |Split(KeyLine(key, value))| >= 2
  {
    SplitKeyBlock(key, value);
    SplitIsOneLineEach(value);
  }

  lemma FirstWriteShows(section: Option<string>, key: string, first: string, second: string)
    requires IsSectionName(section) && IsBareKey(key) && !OneLine(first)
    ensures var raw := Join(Neighbours(section, key));
            Upsert(Upsert(raw, section, key, Some(first)), section, key, Some(second)) != Upsert(raw, section, key,
                  Some(second))
  {
    hide *;
    var raw, n := Join(Neighbours(section, key)), KeyLine(Neighbour(key), "1");
    NeighboursSetLines(section, key, first);
    NeighboursSet(section, key, second);
    NeighbourLine(key);
    SeveralLines(key, first);
    KeyIsSet(raw, section, key, first);
    SetAgain(Upsert(raw, section, key, Some(first)), section, key, second, n);
  }

  /** The last write wins, in every text, exactly when the first value is one line. */
  lemma LastWriteWinsExactly(section: Option<string>, key: string, first: string, second: string)
    requires IsSectionName(section) && IsBareKey(key)
    ensures (forall raw :: Upsert(Upsert(raw, section, key, Some(first)), section, key, Some(second))
                        == Upsert(raw, section, key, Some(second)))
       <==> OneLine(first)
  {
    hide Upsert, OneLine;
    if OneLine(first) {
      forall raw ensures Upsert(Upsert(raw, section, key, Some(first)), section, key, Some(second)) == Upsert(raw,
            section, key, Some(second)) {
        LastWriteWins(raw, section, key, first, second);
      }
    } else {
      FirstWriteShows(section, key, first, second);
    }
  }
}
