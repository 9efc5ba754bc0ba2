/** The line view of a configuration file and the reader over it
    (backend/src/config_support.rs, `get_toml_value`). */
module TomlReader {
  import opened Text
  import opened TomlValues

  /** `parse_toml_section_name`. */
  function SectionName(line: string): Option<string> {
    var trimmed := Trim(line);
    if trimmed == "" || trimmed[0] != '[' then None
    else
      var inner := trimmed[1..];
      if inner == "" || inner[|inner| - 1] != ']' then None
      else
        var name := Trim(inner[..|inner| - 1]);
        if name == "" then None else Some(name)
  }

  /** `matches_toml_key`: the key, optional space, then an equals sign. */
  predicate MatchesKey(line: string, key: string)
    ensures MatchesKey(line, key) ==> '=' in line
  {
    var trimmed := TrimStart(line);
    TrimStartKeeps(line);
    key <= trimmed &&
    var rest := TrimStart(trimmed[|key|..]);
    TrimStartKeeps(trimmed[|key|..]);
    assert forall c <- trimmed[|key|..] :: c in trimmed;
    rest != "" && rest[0] == '='
  }

  lemma {:induction false} TrimStartKeeps(s: string)
    ensures forall c <- TrimStart(s) :: c in s
  {
    if s != "" && IsSpace(s[0]) {
      TrimStartKeeps(s[1..]);
    }
  }

  /** The second half of `split_once('=')`. */
  function AfterEquals(line: string): string
    requires '=' in line
  {
    if line[0] == '=' then line[1..] else AfterEquals(line[1..])
  }

  function NextSection(current: Option<string>, line: string): Option<string> {
    var name := SectionName(line);
    if name.Some? then name else current
  }

  /** The line sets `key` of `section` when `current` is the section it stands in. */
  predicate Hit(line: string, current: Option<string>, section: Option<string>, key: string)
    ensures Hit(line, current, section, key) ==> '=' in line
  {
    SectionName(line).None? && current == section && MatchesKey(line, key)
  }

  /** The value of the first line that sets `key` of `section`. */
  function Read(lines: seq<string>, current: Option<string>, section: Option<string>, key: string): Option<string> {
    if lines == [] then None
    else if Hit(lines[0], current, section, key) then Some(ValueText(AfterEquals(lines[0])))
    else Read(lines[1..], NextSection(current, lines[0]), section, key)
  }

  function DropCr(line: string): string {
    if line != "" && line[|line| - 1] == '\r' then line[..|line| - 1] else line
  }

  function DropCrEach(lines: seq<string>): (r: seq<string>)
    ensures |r| == |lines| && forall i | 0 <= i < |r| :: r[i] == DropCr(lines[i])
  {
    if lines == [] then [] else [DropCr(lines[0])] + DropCrEach(lines[1..])
  }

  /** `str::lines`: a line ends at LF or CR LF, and no empty line follows the last ending. */
  function Lines(raw: string): seq<string> {
    var parts := Split(raw);
    var last := parts[|parts| - 1];
    DropCrEach(parts[..|parts| - 1]) + (if last == "" then [] else [last])
  }

  function Get(raw: string, section: Option<string>, key: string): Option<string> {
    Read(Lines(raw), None, section, key)
  }

  method GetTomlValue(raw: string, section: Option<string>, key: string) returns (value: Option<string>)
    ensures value == Get(raw, section, key)
  {
    var lines := Lines(raw);
    var currentSection: Option<string> := None;
    for index := 0 to |lines|
      invariant Read(lines[index..], currentSection, section, key) == Get(raw, section, key)
    {
      var line := lines[index];
      assert lines[index..][1..] == lines[index + 1..];
      var nextSection := SectionName(line);
      if nextSection.Some? {
        currentSection := nextSection;
        continue;
      }
      if currentSection != section || !MatchesKey(line, key) {
        continue;
      }
      var text := TrimTomlValue(AfterEquals(line));
      return Some(text);
    }
    return None;
  }

  // ----- concatenation -----

  function SectionAfter(lines: seq<string>, current: Option<string>): Option<string> {
    if lines == [] then current else SectionAfter(lines[1..], NextSection(current, lines[0]))
  }

  lemma {:induction false} ReadConcat(a: seq<string>, b: seq<string>, current: Option<string>,
                                      section: Option<string>, key: string)
    ensures Read(a + b, current, section, key)
         == (var first := Read(a, current, section, key);
             if first.Some? then first else Read(b, SectionAfter(a, current), section, key))
  {
    if a == [] {
      assert a + b == b;
    } else {
      ReadConcat(a[1..], b, NextSection(current, a[0]), section, key);
      assert (a + b)[0] == a[0] && (a + b)[1..] == a[1..] + b;
    }
  }

  lemma {:induction false} ReadBlanks(blanks: seq<string>, current: Option<string>, section: Option<string>,
                                      key: string)
    requires forall l <- blanks :: l == ""
    ensures Read(blanks, current, section, key) == None
  {
    if blanks != [] {
      assert blanks[0] in blanks;
      assert forall l <- blanks[1..] :: l in blanks;
      ReadBlanks(blanks[1..], current, section, key);
    }
  }

  // ----- trailing white space -----

  predicate Padding(pad: string) {
    forall c <- pad :: IsSpace(c)
  }

  lemma {:induction false} TrimStartPadding(pad: string)
    requires Padding(pad)
    ensures TrimStart(pad) == ""
  {
    if pad != "" {
      TrimStartPadding(pad[1..]);
    }
  }

  lemma {:induction false} TrimStartBefore(s: string, pad: string)
    requires Padding(pad)
    ensures TrimStart(s + pad) == if TrimStart(s) == "" then "" else TrimStart(s) + pad
  {
    if s == "" {
      assert s + pad == pad;
      TrimStartPadding(pad);
    } else if IsSpace(s[0]) {
      TrimStartBefore(s[1..], pad);
      assert (s + pad)[1..] == s[1..] + pad;
    }
  }

  lemma {:induction false} UncommentedBefore(value: string, pad: string, escaped: bool, quote: Option<char>)
    requires Padding(pad)
    ensures Uncommented(value + pad, escaped, quote) == Uncommented(value, escaped, quote)
         || Uncommented(value + pad, escaped, quote) == Uncommented(value, escaped, quote) + pad
  {
    if value == "" {
      assert value + pad == pad;
      UncommentedPadding(pad, escaped, quote);
    } else {
      var c, rest := value[0], value[1..];
      assert value == [c] + rest && value + pad == [c] + (rest + pad);
      UncommentedCons(c, rest + pad, escaped, quote);
      UncommentedCons(c, rest, escaped, quote);
      var opens := (c == '"' || c == '\'') && (quote == None || quote == Some(c));
      var escaped' := !escaped && c == '\\';
      var quote' := if escaped || c == '\\' || !opens then quote else if quote.Some? then None else Some(c);
      UncommentedBefore(rest, pad, escaped', quote');
      AppendAssoc([c], Uncommented(rest, escaped', quote'), pad);
    }
  }

  lemma {:induction false} UncommentedPadding(pad: string, escaped: bool, quote: Option<char>)
    requires Padding(pad)
    ensures Uncommented(pad, escaped, quote) == pad
  {
    if pad != "" {
      assert pad == [pad[0]] + pad[1..] && IsSpace(pad[0]);
      UncommentedCons(pad[0], pad[1..], escaped, quote);
      UncommentedPadding(pad[1..], false, quote);
    }
  }

  /** Two lines that the reader cannot tell apart. */
  ghost predicate ReadAlike(a: string, b: string) {
    && SectionName(a) == SectionName(b)
    && (forall key: string :: MatchesKey(a, key) == MatchesKey(b, key))
    && ('=' in a <==> '=' in b)
    && ('=' in a ==> ValueText(AfterEquals(a)) == ValueText(AfterEquals(b)))
  }

  lemma PaddedReadsAlike(line: string, pad: string)
    requires Padding(pad)
    ensures ReadAlike(line + pad, line)
  {
    var padded := line + pad;
    TrimOfPadded(line, pad);
    forall key: string ensures MatchesKey(padded, key) == MatchesKey(line, key) {
      PaddedMatches(line, pad, key);
    }
    assert '=' !in pad;
    if '=' in line {
      AfterEqualsBefore(line, pad);
      var value := AfterEquals(line);
      UncommentedBefore(value, pad, false, None);
      TrimOfPadded(Uncommented(value, false, None), pad);
    }
  }

  lemma PaddedMatches(line: string, pad: string, key: string)
    requires Padding(pad)
    ensures MatchesKey(line + pad, key) == MatchesKey(line, key)
  {
    var core := TrimStart(line);
    TrimStartBefore(line, pad);
    if core == "" {
      TrimStartPadding("");
    } else if |key| <= |core| {
      assert (core + pad)[|key|..] == core[|key|..] + pad;
      assert (core + pad)[..|key|] == core[..|key|];
      TrimStartBefore(core[|key|..], pad);
    } else if key <= core + pad {
      var rest := (core + pad)[|key|..];
      assert rest == pad[|key| - |core|..];
      TrimStartPadding(rest);
    }
  }

  lemma {:induction false} AfterEqualsBefore(line: string, pad: string)
    requires '=' in line
    ensures '=' in line + pad && AfterEquals(line + pad) == AfterEquals(line) + pad
  {
    assert (line + pad)[0] == line[0] && (line + pad)[1..] == line[1..] + pad;
    if line[0] != '=' {
      AfterEqualsBefore(line[1..], pad);
    }
  }

  lemma {:induction false} ReadAlikeLines(a: seq<string>, b: seq<string>, current: Option<string>,
                                          section: Option<string>, key: string)
    requires |a| == |b| && forall i | 0 <= i < |a| :: ReadAlike(a[i], b[i])
    ensures Read(a, current, section, key) == Read(b, current, section, key)
  {
    if a != [] {
      assert ReadAlike(a[0], b[0]);
      ReadAlikeLines(a[1..], b[1..], NextSection(current, a[0]), section, key);
    }
  }

  lemma DropCrReadsAlike(line: string)
    ensures ReadAlike(line, DropCr(line))
  {
    if line != "" && line[|line| - 1] == '\r' {
      assert line == DropCr(line) + "\r";
      PaddedReadsAlike(DropCr(line), "\r");
    }
  }

  /** The reader sees exactly the parts between line feeds. */
  lemma GetReadsParts(raw: string, section: Option<string>, key: string)
    ensures Get(raw, section, key) == Read(Split(raw), None, section, key)
  {
    var parts := Split(raw);
    var last := parts[|parts| - 1];
    assert parts == parts[..|parts| - 1] + [last];
    ReadDropsCrs(parts[..|parts| - 1], last, section, key);
  }

  lemma ReadDropsCrs(front: seq<string>, last: string, section: Option<string>, key: string)
    ensures Read(DropCrEach(front) + (if last == "" then [] else [last]), None, section, key)
         == Read(front + [last], None, section, key)
  {
    forall i | 0 <= i < |front| ensures ReadAlike(front[i], DropCrEach(front)[i]) {
      DropCrReadsAlike(front[i]);
    }
    ReadAlikeLines(front, DropCrEach(front), None, section, key);
    SectionAfterAlike(front, DropCrEach(front), None);
    ReadConcat(front, [last], None, section, key);
    ReadConcat(DropCrEach(front), [last], None, section, key);
    if last == "" {
      ReadBlanks([last], SectionAfter(front, None), section, key);
      assert DropCrEach(front) + [] == DropCrEach(front);
    }
  }

  lemma {:induction false} SectionAfterAlike(a: seq<string>, b: seq<string>, current: Option<string>)
    requires |a| == |b| && forall i | 0 <= i < |a| :: ReadAlike(a[i], b[i])
    ensures SectionAfter(a, current) == SectionAfter(b, current)
  {
    if a != [] {
      assert ReadAlike(a[0], b[0]);
      SectionAfterAlike(a[1..], b[1..], NextSection(current, a[0]));
    }
  }

  // ----- keys -----

  /** A bare key of TOML v1.0.0, section "Keys". */
  predicate IsBareKey(key: string) {
    key != "" && forall c <- key :: IsKeyChar(c)
  }

  predicate IsKeyChar(c: char) {
    'A' <= c <= 'Z' || 'a' <= c <= 'z' || '0' <= c <= '9' || c == '_' || c == '-'
  }

  predicate IsSectionName(section: Option<string>) {
    section.Some? ==> OneLine(section.value) && section.value != "" && Trim(section.value) == section.value
  }

  /** A line sets at most one bare key. */
  lemma KeyIsUnique(line: string, a: string, b: string)
    requires IsBareKey(a) && IsBareKey(b) && MatchesKey(line, a) && MatchesKey(line, b)
    ensures a == b
  {
    var trimmed := TrimStart(line);
    KeyEnds(trimmed, a);
    KeyEnds(trimmed, b);
    assert forall i | 0 <= i < |a| :: trimmed[i] == a[i] && a[i] in a;
    assert forall i | 0 <= i < |b| :: trimmed[i] == b[i] && b[i] in b;
  }

  lemma KeyEnds(trimmed: string, key: string)
    requires key <= trimmed
    requires TrimStart(trimmed[|key|..]) != "" && TrimStart(trimmed[|key|..])[0] == '='
    ensures |key| < |trimmed| && !IsKeyChar(trimmed[|key|])
  {
    var rest := trimmed[|key|..];
    assert rest != "" && rest[0] == trimmed[|key|];
  }

  function KeyLine(key: string, value: string): string {
    key + " = " + value
  }

  /** A printed `key = value` line is no header, sets its key and reads back its value. */
  lemma KeyLineReads(key: string, value: string)
    requires IsBareKey(key)
    ensures SectionName(KeyLine(key, value)).None?
    ensures MatchesKey(KeyLine(key, value), key)
    ensures '=' in KeyLine(key, value) && ValueText(AfterEquals(KeyLine(key, value))) == ValueText(value)
  {
    assert key[0] in key;
    KeyLineShape(key[0], key[1..] + " = " + value);
    assert KeyLine(key, value) == [key[0]] + (key[1..] + " = " + value);
    KeyLineMatches(key, value);
    KeyLineValue(key, value);
  }

  lemma KeyLineShape(c: char, rest: string)
    requires IsKeyChar(c)
    ensures SectionName([c] + rest).None? && TrimStart([c] + rest) == [c] + rest
  {
    TrimEndKeepsFirst(c, rest);
    assert ([c] + TrimEnd(rest))[0] == c;
  }

  lemma KeyLineMatches(key: string, value: string)
    requires TrimStart(KeyLine(key, value)) == KeyLine(key, value)
    ensures MatchesKey(KeyLine(key, value), key)
  {
    assert KeyLine(key, value)[|key|..] == " " + ("= " + value);
    TrimStartOfPadded(" ", "= " + value);
  }

  lemma KeyLineValue(key: string, value: string)
    requires IsBareKey(key)
    ensures '=' in KeyLine(key, value) && ValueText(AfterEquals(KeyLine(key, value))) == ValueText(value)
  {
    assert KeyLine(key, value) == (key + " ") + ("= " + value);
    assert forall c <- key :: IsKeyChar(c);
    AfterEqualsSkips(key + " ", "= " + value);
    assert ("= " + value)[1..] == " " + value;
    ValueTextSkipsSpace(value);
  }

  lemma ValueTextSkipsSpace(value: string)
    ensures ValueText(" " + value) == ValueText(value)
  {
    UncommentedCons(' ', value, false, None);
    TrimStartOfPadded(" ", Uncommented(value, false, None));
  }

  lemma {:induction false} AfterEqualsSkips(head: string, tail: string)
    requires '=' !in head && tail != "" && tail[0] == '='
    ensures '=' in head + tail && AfterEquals(head + tail) == tail[1..]
  {
    if head == "" {
      assert head + tail == tail;
    } else {
      assert (head + tail)[0] == head[0] && (head + tail)[1..] == head[1..] + tail;
      AfterEqualsSkips(head[1..], tail);
    }
  }

  function HeaderLine(section: string): string {
    "[" + section + "]"
  }

  lemma HeaderLineReads(section: string)
    requires IsSectionName(Some(section))
    ensures SectionName(HeaderLine(section)) == Some(section)
  {
    var line := HeaderLine(section);
    assert line[0] == '[' && line[|line| - 1] == ']';
    assert line[1..] == section + "]" && line[1..][..|section|] == section;
  }
}
