/** Setting and deleting one key of one section in the text of a configuration file
    (backend/src/config_support.rs, `upsert_toml_value`). */
module TomlUpsert {
  import opened Text
  import opened TomlValues
  import opened TomlReader

  // ----- normalised lines -----

  /** `trim_end_matches('\r')`. */
  function DropCrs(line: string): string {
    if line != "" && line[|line| - 1] == '\r' then DropCrs(line[..|line| - 1]) else line
  }

  function DropCrsEach(lines: seq<string>): (r: seq<string>)
    ensures |r| == |lines| && forall i | 0 <= i < |r| :: r[i] == DropCrs(lines[i])
  {
    if lines == [] then [] else [DropCrs(lines[0])] + DropCrsEach(lines[1..])
  }

  /** Drops empty lines at the end, keeping at least one line. */
  function Tidy(lines: seq<string>): (r: seq<string>)
    ensures |r| > 0
  {
    if lines == [] then [""]
    else if |lines| > 1 && lines[|lines| - 1] == "" then Tidy(lines[..|lines| - 1])
    else lines
  }

  function NormalLines(raw: string): (lines: seq<string>)
    ensures |lines| > 0
  {
    Tidy(DropCrsEach(Split(raw)))
  }

  method PopBlankLines(lines: seq<string>) returns (kept: seq<string>)
    requires lines != []
    ensures kept == Tidy(lines)
  {
    kept := lines;
    while |kept| > 1 && kept[|kept| - 1] == ""
      invariant |kept| > 0
      invariant Tidy(kept) == Tidy(lines)
      decreases |kept|
    {
      kept := kept[..|kept| - 1];
    }
  }

  method NormalizeTomlLines(raw: string) returns (lines: seq<string>)
    ensures lines == NormalLines(raw)
  {
    lines := PopBlankLines(DropCrsEach(Split(raw)));
  }

  // ----- the edit on lines -----

  predicate HasHit(lines: seq<string>, current: Option<string>, section: Option<string>, key: string) {
    lines != [] &&
    (Hit(lines[0], current, section, key) || HasHit(lines[1..], NextSection(current, lines[0]), section, key))
  }

  /** Puts `block` in the place of every line that sets the key. */
  function ReplaceHits(lines: seq<string>, current: Option<string>, section: Option<string>, key: string,
                       block: seq<string>): seq<string> {
    if lines == [] then []
    else
      (if Hit(lines[0], current, section, key) then block else [lines[0]])
      + ReplaceHits(lines[1..], NextSection(current, lines[0]), section, key, block)
  }

  predicate HasSection(lines: seq<string>, current: Option<string>, section: Option<string>) {
    current == section || (lines != [] && HasSection(lines[1..], NextSection(current, lines[0]), section))
  }

  /** Puts `block` at the end of the first stretch of lines that belongs to the section. */
  function InsertAtEnd(lines: seq<string>, current: Option<string>, section: Option<string>,
                       block: seq<string>): seq<string> {
    if current == section && (lines == [] || SectionName(lines[0]).Some?) then block + lines
    else if lines == [] then []
    else [lines[0]] + InsertAtEnd(lines[1..], NextSection(current, lines[0]), section, block)
  }

  /** The lines a new section is set off with. */
  function NewSection(lines: seq<string>, section: Option<string>): seq<string> {
    (if lines != [] && lines[|lines| - 1] != "" then [""] else []) + [HeaderLine(section.GetOr(""))]
  }

  function Edit(lines: seq<string>, section: Option<string>, key: string, value: Option<string>): seq<string> {
    match value
    case None => ReplaceHits(lines, None, section, key, [])
    case Some(v) =>
      if HasHit(lines, None, section, key) then ReplaceHits(lines, None, section, key, [KeyLine(key, v)])
      else if HasSection(lines, None, section) then InsertAtEnd(lines, None, section, [KeyLine(key, v)])
      else lines + NewSection(lines, section) + [KeyLine(key, v)]
  }

  function Upsert(raw: string, section: Option<string>, key: string, value: Option<string>): string {
    Join(Tidy(Edit(NormalLines(raw), section, key, value))) + "\n"
  }

  // ----- the method -----

  /** The first line at or after which the section's first stretch of lines is over. */
  function EndOf(lines: seq<string>, current: Option<string>, section: Option<string>): (i: nat)
    ensures i <= |lines|
  {
    if lines == [] then 0
    else if current == section && SectionName(lines[0]).Some? then 0
    else 1 + EndOf(lines[1..], NextSection(current, lines[0]), section)
  }

  lemma {:induction false} InsertAtEndOf(lines: seq<string>, current: Option<string>, section: Option<string>,
                                         block: seq<string>)
    requires HasSection(lines, current, section)
    ensures var i := EndOf(lines, current, section);
            InsertAtEnd(lines, current, section, block) == lines[..i] + block + lines[i..]
  {
    if lines == [] || (current == section && SectionName(lines[0]).Some?) {
      assert lines[..0] + block + lines[0..] == block + lines;
    } else {
      var next := NextSection(current, lines[0]);
      InsertAtEndOf(lines[1..], next, section, block);
      var i := EndOf(lines[1..], next, section);
      assert lines[..i + 1] == [lines[0]] + lines[1..][..i] && lines[i + 1..] == lines[1..][i..];
    }
  }

  function CountHits(lines: seq<string>, current: Option<string>, section: Option<string>, key: string): nat {
    if lines == [] then 0
    else
      (if Hit(lines[0], current, section, key) then 1 else 0)
      + CountHits(lines[1..], NextSection(current, lines[0]), section, key)
  }

  /** What the scan knows about sections before line `i`: the current one, whether and where
      the wanted one started, and where its first stretch ended (the line count if it has not). */
  ghost predicate SectionsSeen(lines: seq<string>, i: nat, current: Option<string>, section: Option<string>,
                               start: Option<nat>, end: nat)
  {
    && i <= |lines| && end <= |lines|
    && (current == section ==> start.Some?)
    && (start.None? ==> end == |lines|)
    && (start.Some? && section.Some? ==> start.value < i && start.value < EndOf(lines, None, section))
    && (section.None? ==> start.Some?)
    && (HasSection(lines, None, section) <==> start.Some? || HasSection(lines[i..], current, section))
    && EndOf(lines, None, section) == (if end < |lines| then end else i + EndOf(lines[i..], current, section))
    && (end < |lines| ==> end < i)
  }

  lemma SectionsSeenAtStart(lines: seq<string>, section: Option<string>)
    ensures SectionsSeen(lines, 0, None, section, if section.None? then Some(0) else None, |lines|)
  {
    assert lines[0..] == lines;
  }

  lemma SectionsSeenStep(lines: seq<string>, i: nat, current: Option<string>, section: Option<string>,
                         start: Option<nat>, end: nat)
    requires SectionsSeen(lines, i, current, section, start, end) && i < |lines|
    ensures var name := SectionName(lines[i]);
            SectionsSeen(lines, i + 1, NextSection(current, lines[i]), section,
                         if name.Some? && section.Some? && start.None? && name == section then Some(i) else start,
                         if name.Some? && current == section && end == |lines| then i else end)
  {
    var next := NextSection(current, lines[i]);
    assert lines[i..][0] == lines[i] && lines[i..][1..] == lines[i + 1..];
    assert HasSection(lines[i..], current, section)
           <==> current == section || HasSection(lines[i + 1..], next, section);
    assert next == section ==> HasSection(lines[i + 1..], next, section);
  }

  /** What the scan has done about the key before line `i`, `current` being the section there:
      it has found a hit or not, and has rewritten each one it found as `block`. */
  ghost predicate HitsSeen(base: seq<string>, lines: seq<string>, i: nat, current: Option<string>,
                           section: Option<string>, key: string, found: bool, block: seq<string>)
  {
    && i <= |base| == |lines| && lines[i..] == base[i..]
    && (HasHit(base, None, section, key) <==> found || HasHit(base[i..], current, section, key))
    && (!found ==> lines == base)
    && ReplaceHits(base, None, section, key, block) == lines[..i] + ReplaceHits(base[i..], current, section, key, block)
  }

  lemma HitsSeenStep(base: seq<string>, lines: seq<string>, i: nat, current: Option<string>,
                     section: Option<string>, key: string, found: bool, block: seq<string>)
    requires HitsSeen(base, lines, i, current, section, key, found, block) && i < |base|
    ensures lines[i] == base[i]
    ensures !Hit(base[i], current, section, key) ==>
              HitsSeen(base, lines, i + 1, NextSection(current, base[i]), section, key, found, block)
    ensures Hit(base[i], current, section, key) && |block| == 1 ==>
              HitsSeen(base, lines[i := block[0]], i + 1, NextSection(current, base[i]), section, key, true, block)
  {
    assert lines[i..][0] == base[i..][0];
    assert base[i..][1..] == base[i + 1..] && lines[i + 1..] == lines[i..][1..];
    var rest := ReplaceHits(base[i + 1..], NextSection(current, base[i]), section, key, block);
    if !Hit(base[i], current, section, key) {
      assert lines[..i] + ([base[i]] + rest) == lines[..i + 1] + rest;
    } else if |block| == 1 {
      var next := lines[i := block[0]];
      assert block == [block[0]];
      assert lines[..i] + (block + rest) == next[..i + 1] + rest;
      assert next[i + 1..] == base[i + 1..];
    }
  }

  lemma SectionAfterNext(lines: seq<string>, i: nat)
    requires i < |lines|
    ensures SectionAfter(lines[..i + 1], None) == NextSection(SectionAfter(lines[..i], None), lines[i])
  {
    assert lines[..i + 1] == lines[..i] + [lines[i]];
    SectionAfterConcat(lines[..i], [lines[i]], None);
  }

  lemma {:induction false} SectionAfterConcat(a: seq<string>, b: seq<string>, current: Option<string>)
    ensures SectionAfter(a + b, current) == SectionAfter(b, SectionAfter(a, current))
  {
    if a == [] {
      assert a + b == b;
    } else {
      SectionAfterConcat(a[1..], b, NextSection(current, a[0]));
      assert (a + b)[0] == a[0] && (a + b)[1..] == a[1..] + b;
    }
  }

  /** The state of the scan before line `i`. */
  ghost predicate Scanning(base: seq<string>, lines: seq<string>, i: nat, current: Option<string>,
                           section: Option<string>, key: string, start: Option<nat>, end: nat,
                           found: bool, block: seq<string>)
  {
    && SectionsSeen(base, i, current, section, start, end)
    && HitsSeen(base, lines, i, current, section, key, found, block)
    && current == SectionAfter(base[..i], None)
  }

  lemma ScanningStep(base: seq<string>, lines: seq<string>, i: nat, current: Option<string>,
                     section: Option<string>, key: string, start: Option<nat>, end: nat,
                     found: bool, block: seq<string>)
    requires Scanning(base, lines, i, current, section, key, start, end, found, block) && i < |base|
    ensures lines[i] == base[i]
    ensures var name := SectionName(base[i]);
            name.Some? ==>
              Scanning(base, lines, i + 1, name, section, key,
                       if section.Some? && start.None? && name == section then Some(i) else start,
                       if current == section && end == |lines| then i else end, found, block)
    ensures SectionName(base[i]).None? && !Hit(base[i], current, section, key) ==>
              Scanning(base, lines, i + 1, current, section, key, start, end, found, block)
    ensures Hit(base[i], current, section, key) && |block| == 1 ==>
              Scanning(base, lines[i := block[0]], i + 1, current, section, key, start, end, true, block)
  {
    SectionsSeenStep(base, i, current, section, start, end);
    HitsSeenStep(base, lines, i, current, section, key, found, block);
    SectionAfterNext(base, i);
  }

  datatype ScanState = ScanState(lines: seq<string>, current: Option<string>, start: Option<nat>, end: nat,
                                 replaced: bool)

  function ScanStep(st: ScanState, i: nat, section: Option<string>, key: string, value: Option<string>): (r: ScanState)
    requires i < |st.lines|
    ensures |r.lines| == |st.lines|
  {
    var name := SectionName(st.lines[i]);
    if name.Some? then
      ScanState(st.lines, name,
                if section.Some? && st.start.None? && name == section then Some(i) else st.start,
                if st.current == section && st.end == |st.lines| then i else st.end,
                st.replaced)
    else if st.current == section && MatchesKey(st.lines[i], key) then
      st.(lines := if value.Some? then st.lines[i := KeyLine(key, value.value)] else st.lines, replaced := true)
    else st
  }

  /** The scan's variables before line `i`. */
  function ScanUpTo(base: seq<string>, i: nat, section: Option<string>, key: string,
                    value: Option<string>): (st: ScanState)
    requires i <= |base|
    ensures |st.lines| == |base|
  {
    if i == 0 then ScanState(base, None, if section.None? then Some(0) else None, |base|, false)
    else ScanStep(ScanUpTo(base, i - 1, section, key, value), i - 1, section, key, value)
  }

  ghost predicate ScanningAt(base: seq<string>, st: ScanState, i: nat, section: Option<string>, key: string,
                             block: seq<string>) {
    Scanning(base, st.lines, i, st.current, section, key, st.start, st.end, st.replaced, block)
  }

  lemma ScanStepKeeps(base: seq<string>, st: ScanState, i: nat, section: Option<string>, key: string,
                      value: Option<string>)
    requires i < |base| == |st.lines|
    requires var block := if value.Some? then [KeyLine(key, value.value)] else [];
             ScanningAt(base, st, i, section, key, block)
    ensures var block := if value.Some? then [KeyLine(key, value.value)] else [];
            var next := ScanStep(st, i, section, key, value);
            value.Some? || !next.replaced ==> ScanningAt(base, next, i + 1, section, key, block)
  {
    ScanningStep(base, st.lines, i, st.current, section, key, st.start, st.end, st.replaced,
                 if value.Some? then [KeyLine(key, value.value)] else []);
  }

  lemma {:induction false} ScanUpToIsScanning(base: seq<string>, i: nat, section: Option<string>, key: string,
                                              value: Option<string>)
    requires i <= |base|
    requires value.None? ==> !ScanUpTo(base, i, section, key, value).replaced
    ensures var block := if value.Some? then [KeyLine(key, value.value)] else [];
            ScanningAt(base, ScanUpTo(base, i, section, key, value), i, section, key, block)
  {
    if i == 0 {
      SectionsSeenAtStart(base, section);
      assert base[0..] == base;
    } else {
      ScanUpToIsScanning(base, i - 1, section, key, value);
      ScanStepKeeps(base, ScanUpTo(base, i - 1, section, key, value), i - 1, section, key, value);
    }
  }

  /** What a complete scan hands to the rest of the edit. */
  ghost predicate ScanResult(base: seq<string>, lines: seq<string>, section: Option<string>, key: string,
                             value: Option<string>, start: Option<nat>, end: nat, found: bool)
  {
    && lines != []
    && (value.None? ==> !found)
    && (found || value.None? ==> lines == Edit(base, section, key, value))
    && (!found ==> lines == base && !HasHit(base, None, section, key))
    && SectionsSeen(base, |base|, SectionAfter(base, None), section, start, end)
  }

  lemma ScanDone(base: seq<string>, section: Option<string>, key: string, value: Option<string>)
    requires base != []
    requires value.None? ==> !ScanUpTo(base, |base|, section, key, value).replaced
    ensures var st := ScanUpTo(base, |base|, section, key, value);
            ScanResult(base, st.lines, section, key, value, st.start, st.end, st.replaced)
  {
    ScanUpToIsScanning(base, |base|, section, key, value);
    var st := ScanUpTo(base, |base|, section, key, value);
    assert base[|base|..] == [] && base[..|base|] == base && st.lines[..|base|] + [] == st.lines;
  }

  lemma ScanStopsAtHit(base: seq<string>, i: nat, section: Option<string>, key: string)
    requires i < |base| && !ScanUpTo(base, i, section, key, None).replaced
    ensures var st := ScanUpTo(base, i, section, key, None);
            st.lines[i] == base[i] && st.current == SectionAfter(base[..i], None)
  {
    ScanUpToIsScanning(base, i, section, key, None);
  }

  /** One pass over the lines: rewrites every line that sets the key or, when there is no value
      to write, stops at the first one with its index in `doomed`. */
  method ScanForKey(base: seq<string>, section: Option<string>, key: string, value: Option<string>)
    returns (lines: seq<string>, sectionStart: Option<nat>, sectionEnd: nat, replaced: bool, doomed: Option<nat>)
    requires base != []
    ensures doomed.Some? ==>
              && value.None? && doomed.value < |base|
              && Hit(base[doomed.value], SectionAfter(base[..doomed.value], None), section, key)
    ensures doomed.None? ==> ScanResult(base, lines, section, key, value, sectionStart, sectionEnd, replaced)
  {
    lines, replaced, doomed := base, false, None;
    var currentSection: Option<string> := None;
    sectionStart := if section.None? then Some(0) else None;
    sectionEnd := |lines|;

    for index := 0 to |base|
      invariant ScanState(lines, currentSection, sectionStart, sectionEnd, replaced)
             == ScanUpTo(base, index, section, key, value)
      invariant value.None? ==> !replaced
      invariant doomed.None?
    {
      var nextSection := SectionName(lines[index]);
      if nextSection.Some? {
        if currentSection == section && sectionEnd == |lines| {
          sectionEnd := index;
        }
        currentSection := nextSection;
        if section.Some? && sectionStart.None? && currentSection == section {
          sectionStart := Some(index);
        }
        continue;
      }

      if currentSection != section || !MatchesKey(lines[index], key) {
        continue;
      }

      if value.None? {
        ScanStopsAtHit(base, index, section, key);
        doomed := Some(index);
        return;
      }
      replaced := true;
      lines := lines[index := KeyLine(key, value.value)];
    }
    ScanDone(base, section, key, value);
  }

  /** Deletion restarts on the text without the line just found; each restart has one hit less. */
  method UpsertTomlValue(raw: string, section: Option<string>, key: string, value: Option<string>)
    returns (text: string)
    ensures text == Upsert(raw, section, key, value)
    decreases CountHits(NormalLines(raw), None, section, key)
  {
    var base := NormalizeTomlLines(raw);
    var lines, sectionStart, sectionEnd, replaced, doomed := ScanForKey(base, section, key, value);
    if doomed.Some? {
      var index := doomed.value;
      DeleteRestarts(raw, base, index, section, key);
      text := UpsertTomlValue(Join(base[..index] + base[index + 1..]), section, key, None);
      return;
    }
    if !replaced && value.Some? {
      lines := InsertKeyLine(lines, section, sectionStart, sectionEnd, KeyLine(key, value.value));
    }
    lines := PopBlankLines(lines);
    text := Join(lines) + "\n";
  }

  /** The insertion that follows a scan which found no line to replace. */
  method InsertKeyLine(lines: seq<string>, section: Option<string>, sectionStart: Option<nat>, sectionEnd: nat,
                       line: string)
    returns (inserted: seq<string>)
    requires lines != []
    requires SectionsSeen(lines, |lines|, SectionAfter(lines, None), section, sectionStart, sectionEnd)
    ensures inserted == if HasSection(lines, None, section) then InsertAtEnd(lines, None, section, [line])
                        else lines + NewSection(lines, section) + [line]
  {
    assert lines[|lines|..] == [];
    if section.None? {
      var insertIndex := 0;
      while insertIndex < |lines| && SectionName(lines[insertIndex]).None?
        invariant insertIndex <= |lines|
        invariant EndOf(lines, None, None) == insertIndex + EndOf(lines[insertIndex..], None, None)
      {
        assert lines[insertIndex..][1..] == lines[insertIndex + 1..];
        insertIndex := insertIndex + 1;
      }
      InsertAtEndOf(lines, None, section, [line]);
      inserted := lines[..insertIndex] + [line] + lines[insertIndex..];
    } else if sectionStart.Some? {
      InsertAtEndOf(lines, None, section, [line]);
      var at := if sectionEnd > sectionStart.value + 1 then sectionEnd else sectionStart.value + 1;
      inserted := lines[..at] + [line] + lines[at..];
    } else {
      inserted := lines;
      if inserted != [] && inserted[|inserted| - 1] != "" {
        inserted := inserted + [""];
      }
      inserted := inserted + [HeaderLine(section.value)];
      inserted := inserted + [line];
    }
  }

  // ----- deletion by restarting -----

  /** Text that normalisation leaves alone, up to empty lines at the end. */
  predicate IsNormal(line: string) {
    OneLine(line) && DropCrs(line) == line
  }

  predicate AllNormal(lines: seq<string>) {
    forall l <- lines :: IsNormal(l)
  }

  lemma {:induction false} DropCrsIsNormal(line: string)
    requires OneLine(line)
    ensures IsNormal(DropCrs(line))
  {
    if line != "" && line[|line| - 1] == '\r' {
      assert forall c <- line[..|line| - 1] :: c in line;
      DropCrsIsNormal(line[..|line| - 1]);
    }
  }

  lemma {:induction false} TidySplits(lines: seq<string>) returns (blanks: seq<string>)
    requires lines != []
    ensures lines == Tidy(lines) + blanks && forall l <- blanks :: l == ""
  {
    if |lines| > 1 && lines[|lines| - 1] == "" {
      var b := TidySplits(lines[..|lines| - 1]);
      blanks := b + [""];
      assert lines == lines[..|lines| - 1] + [""];
    } else {
      blanks := [];
    }
  }

  lemma {:induction false} TidyOfBlanks(lines: seq<string>, blanks: seq<string>)
    requires forall l <- blanks :: l == ""
    ensures Tidy(lines + blanks) == Tidy(lines)
  {
    if blanks == [] {
      assert lines + blanks == lines;
    } else {
      var shorter := blanks[..|blanks| - 1];
      assert blanks[|blanks| - 1] in blanks && forall l <- shorter :: l in blanks;
      var all := lines + blanks;
      assert all[..|all| - 1] == lines + shorter;
      if |all| > 1 {
        TidyOfBlanks(lines, shorter);
      }
    }
  }

  lemma NormalLinesAreNormal(raw: string)
    ensures AllNormal(NormalLines(raw))
  {
    var parts := Split(raw);
    SplitIsOneLineEach(raw);
    forall i | 0 <= i < |parts| ensures IsNormal(DropCrs(parts[i])) {
      assert parts[i] in parts;
      DropCrsIsNormal(parts[i]);
    }
    var blanks := TidySplits(DropCrsEach(parts));
    var lines := Tidy(DropCrsEach(parts));
    assert forall i | 0 <= i < |lines| :: lines[i] == DropCrsEach(parts)[i];
  }

  lemma NormalLinesOfJoin(lines: seq<string>)
    requires AllNormal(lines)
    ensures NormalLines(Join(lines)) == Tidy(lines)
  {
    if lines != [] {
      SplitJoin(lines);
      SplitAllOneLine(lines);
      assert forall i | 0 <= i < |lines| :: lines[i] in lines;
      assert DropCrsEach(lines) == lines;
    }
  }

  lemma {:induction false} ReplaceHitsConcat(a: seq<string>, b: seq<string>, current: Option<string>,
                                             section: Option<string>, key: string, block: seq<string>)
    ensures ReplaceHits(a + b, current, section, key, block)
         == ReplaceHits(a, current, section, key, block)
            + ReplaceHits(b, SectionAfter(a, current), section, key, block)
  {
    if a == [] {
      assert a + b == b;
      EmptyConcat(ReplaceHits(b, current, section, key, block));
    } else {
      var next := NextSection(current, a[0]);
      ReplaceHitsConcat(a[1..], b, next, section, key, block);
      assert (a + b)[0] == a[0] && (a + b)[1..] == a[1..] + b;
      ConcatAssoc(if Hit(a[0], current, section, key) then block else [a[0]],
                  ReplaceHits(a[1..], next, section, key, block),
                  ReplaceHits(b, SectionAfter(a, current), section, key, block));
    }
  }

  lemma EmptyConcat(lines: seq<string>)
    ensures [] + lines == lines
  {
  }

  lemma ConcatAssoc(a: seq<string>, b: seq<string>, c: seq<string>)
    ensures a + (b + c) == (a + b) + c
  {
  }

  lemma {:induction false} CountHitsConcat(a: seq<string>, b: seq<string>, current: Option<string>,
                                           section: Option<string>, key: string)
    ensures CountHits(a + b, current, section, key)
         == CountHits(a, current, section, key) + CountHits(b, SectionAfter(a, current), section, key)
  {
    if a == [] {
      assert a + b == b;
    } else {
      CountHitsConcat(a[1..], b, NextSection(current, a[0]), section, key);
      assert (a + b)[0] == a[0] && (a + b)[1..] == a[1..] + b;
    }
  }

  lemma {:induction false} BlanksAreNoHits(blanks: seq<string>, current: Option<string>,
                                           section: Option<string>, key: string, block: seq<string>)
    requires forall l <- blanks :: l == ""
    ensures ReplaceHits(blanks, current, section, key, block) == blanks
    ensures CountHits(blanks, current, section, key) == 0
  {
    if blanks != [] {
      assert blanks[0] in blanks && forall l <- blanks[1..] :: l in blanks;
      BlanksAreNoHits(blanks[1..], NextSection(current, blanks[0]), section, key, block);
    }
  }

  /** Empty lines at the end do not matter to deletion. */
  lemma TidyBeforeReplace(lines: seq<string>, section: Option<string>, key: string, block: seq<string>)
    ensures Tidy(ReplaceHits(Tidy(lines), None, section, key, block)) == Tidy(ReplaceHits(lines, None, section, key,
          block))
    ensures CountHits(Tidy(lines), None, section, key) == CountHits(lines, None, section, key)
  {
    if lines == [] {
      BlanksAreNoHits([""], None, section, key, block);
    } else {
      var blanks := TidySplits(lines);
      ReplaceHitsConcat(Tidy(lines), blanks, None, section, key, block);
      CountHitsConcat(Tidy(lines), blanks, None, section, key);
      BlanksAreNoHits(blanks, SectionAfter(Tidy(lines), None), section, key, block);
      TidyOfBlanks(ReplaceHits(Tidy(lines), None, section, key, block), blanks);
    }
  }

  /** Removing the first hit and starting over gives what removing all hits gives, on a text
      with fewer hits. */
  lemma DeleteRestarts(raw: string, base: seq<string>, i: nat, section: Option<string>, key: string)
    requires base == NormalLines(raw) && i < |base|
    requires Hit(base[i], SectionAfter(base[..i], None), section, key)
    ensures var shorter := Join(base[..i] + base[i + 1..]);
            && Upsert(shorter, section, key, None) == Upsert(raw, section, key, None)
            && CountHits(NormalLines(shorter), None, section, key) < CountHits(base, None, section, key)
  {
    var a, b, current := base[..i], base[i + 1..], SectionAfter(base[..i], None);
    assert base == a + ([base[i]] + b);
    NormalLinesAreNormal(raw);
    assert forall l <- a + b :: l in base;
    NormalLinesOfJoin(a + b);
    TidyBeforeReplace(a + b, section, key, []);
    ReplaceHitsConcat(a, b, None, section, key, []);
    ReplaceHitsConcat(a, [base[i]] + b, None, section, key, []);
    CountHitsConcat(a, b, None, section, key);
    CountHitsConcat(a, [base[i]] + b, None, section, key);
    assert ([base[i]] + b)[1..] == b;
    assert [] + ReplaceHits(b, current, section, key, []) == ReplaceHits(b, current, section, key, []);
  }
}
