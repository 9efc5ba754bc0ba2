/** Values on the right of `key =`: comment stripping, and the printers and parsers of
    strings, booleans and integers (backend/src/config_support.rs). */
module TomlValues {
  import opened Text

  // ----- comment stripping -----

  /** What survives of a value when the scanner is in the given state: characters up to the
      first `#` that is neither quoted nor escaped. */
  function Uncommented(value: string, escaped: bool, quote: Option<char>): string {
    if value == "" then ""
    else
      var c, rest := value[0], value[1..];
      if escaped then [c] + Uncommented(rest, false, quote)
      else if c == '\\' then [c] + Uncommented(rest, true, quote)
      else if (c == '"' || c == '\'') && (quote == None || quote == Some(c)) then
        [c] + Uncommented(rest, false, if quote.Some? then None else Some(c))
      else if c == '#' && quote == None then ""
      else [c] + Uncommented(rest, false, quote)
  }

  function ValueText(value: string): string {
    Trim(Uncommented(value, false, None))
  }

  method TrimTomlValue(value: string) returns (text: string)
    ensures text == ValueText(value)
  {
    hide Uncommented;
    var trimmed, escaped, quote := "", false, None;
    var index := 0;
    assert value[0..] == value;
    while index < |value|
      invariant 0 <= index <= |value|
      invariant trimmed + Uncommented(value[index..], escaped, quote) == Uncommented(value, false, None)
    {
      var character := value[index];
      ScanOne(trimmed, value, index, escaped, quote);
      index := index + 1;
      if escaped {
        trimmed := trimmed + [character];
        escaped := false;
        continue;
      }
      if character == '\\' {
        trimmed := trimmed + [character];
        escaped := true;
        continue;
      }
      if (character == '"' || character == '\'') && (quote == None || quote == Some(character)) {
        quote := if quote.Some? then None else Some(character);
        trimmed := trimmed + [character];
        continue;
      }
      if character == '#' && quote == None {
        break;
      }
      trimmed := trimmed + [character];
    }
    assert index == |value| ==> value[index..] == "";
    ScanEnd(trimmed, escaped, quote);
    assert ValueText(value) == Trim(Uncommented(value, false, None));
    text := Trim(trimmed);
  }

  lemma UncommentedCons(c: char, rest: string, escaped: bool, quote: Option<char>)
    ensures Uncommented([c] + rest, escaped, quote)
         == if escaped then [c] + Uncommented(rest, false, quote)
            else if c == '\\' then [c] + Uncommented(rest, true, quote)
            else if (c == '"' || c == '\'') && (quote == None || quote == Some(c)) then
              [c] + Uncommented(rest, false, if quote.Some? then None else Some(c))
            else if c == '#' && quote == None then ""
            else [c] + Uncommented(rest, false, quote)
  {
    var whole := [c] + rest;
    assert whole[0] == c && whole[1..] == rest;
  }

  /** One round of the scan: the character is kept in one of four states, or the scan is over. */
  lemma ScanOne(kept: string, value: string, i: nat, escaped: bool, quote: Option<char>)
    requires i < |value|
    ensures kept + Uncommented(value[i..], escaped, quote)
         == (var c, rest := value[i], value[i + 1..];
             if escaped then (kept + [c]) + Uncommented(rest, false, quote)
             else if c == '\\' then (kept + [c]) + Uncommented(rest, true, quote)
             else if (c == '"' || c == '\'') && (quote == None || quote == Some(c)) then
               (kept + [c]) + Uncommented(rest, false, if quote.Some? then None else Some(c))
             else if c == '#' && quote == None then kept
             else (kept + [c]) + Uncommented(rest, false, quote))
  {
    hide Uncommented;
    var c, rest := value[i], value[i + 1..];
    assert value[i..] == [c] + rest;
    UncommentedCons(c, rest, escaped, quote);
    var opens := (c == '"' || c == '\'') && (quote == None || quote == Some(c));
    var quote' := if escaped || c == '\\' || !opens then quote else if quote.Some? then None else Some(c);
    AppendAssoc(kept, [c], Uncommented(rest, !escaped && c == '\\', quote'));
    assert kept + "" == kept;
  }

  lemma ScanEnd(kept: string, escaped: bool, quote: Option<char>)
    ensures kept + Uncommented("", escaped, quote) == kept
  {
  }

  // ----- strings -----

  /** `stringify_toml_string`: backslashes first, then quotes. */
  function Stringify(value: string): string {
    "\"" + Replace(Replace(value, "\\", "\\\\"), "\"", "\\\"") + "\""
  }

  function HexValue(c: char): Option<nat> {
    if '0' <= c <= '9' then Some((c as int) - ('0' as int))
    else if 'a' <= c <= 'f' then Some((c as int) - ('a' as int) + 10)
    else if 'A' <= c <= 'F' then Some((c as int) - ('A' as int) + 10)
    else None
  }

  function Hex4(s: string): (r: Option<nat>)
    ensures r.Some? ==> |s| >= 4 && r.value < 0x1_0000
  {
    if |s| < 4 then None
    else
      match (HexValue(s[0]), HexValue(s[1]), HexValue(s[2]), HexValue(s[3]))
      case (Some(a), Some(b), Some(c), Some(d)) =>
        if a < 16 && b < 16 && c < 16 && d < 16 then Some(((a * 16 + b) * 16 + c) * 16 + d) else None
      case _ => None
  }

  /** The code point of a `\u` escape whose digits start `s`, and the digits' length; a high
      surrogate must be followed by the escape of a low one, as in section 7 of RFC 8259. */
  function UnicodeEscape(s: string): (r: Option<(char, nat)>)
    ensures r.Some? ==> r.value.1 <= |s|
  {
    match Hex4(s)
    case None => None
    case Some(high) =>
      if high < 0xD800 || 0xE000 <= high then Some((high as char, 4))
      else if 0xDC00 <= high || |s| < 10 || s[4..6] != "\\u" then None
      else
        match Hex4(s[6..])
        case None => None
        case Some(low) =>
          if 0xDC00 <= low < 0xE000 then
            Some((((high - 0xD800) * 0x400 + (low - 0xDC00) + 0x1_0000) as char, 10))
          else None
  }

  function SimpleEscape(c: char): Option<char> {
    match c
    case '"' => Some('"')
    case '\\' => Some('\\')
    case '/' => Some('/')
    case 'b' => Some('\U{0008}')
    case 'f' => Some('\U{000C}')
    case 'n' => Some('\n')
    case 'r' => Some('\r')
    case 't' => Some('\t')
    case _ => None
  }

  /** The rest of a JSON string after its opening quote: unescaped control characters are
      errors and nothing may follow the closing quote. */
  function JsonTail(s: string): Option<string>
    decreases |s|
  {
    if s == "" then None
    else if s[0] == '"' then if |s| == 1 then Some("") else None
    else if s[0] == '\\' then
      if |s| == 1 then None
      else if s[1] == 'u' then
        match UnicodeEscape(s[2..])
        case None => None
        case Some((c, n)) => Prepend(c, JsonTail(s[2 + n..]))
      else
        match SimpleEscape(s[1])
        case None => None
        case Some(c) => Prepend(c, JsonTail(s[2..]))
    else if s[0] < ' ' then None
    else Prepend(s[0], JsonTail(s[1..]))
  }

  function Prepend(c: char, tail: Option<string>): Option<string> {
    match tail
    case None => None
    case Some(text) => Some([c] + text)
  }

  /** The path taken when the value is not a JSON string. */
  function PlainUnescape(inner: string): string {
    Replace(Replace(inner, "\\\"", "\""), "\\\\", "\\")
  }

  predicate Quoted(value: string, mark: char) {
    |value| >= 2 && value[0] == mark && value[|value| - 1] == mark
  }

  function ParseString(value: Option<string>): Option<string> {
    match value
    case None => None
    case Some(text) =>
      if Quoted(text, '"') then
        match JsonTail(text[1..])
        case Some(decoded) => Some(decoded)
        case None => Some(PlainUnescape(text[1..|text| - 1]))
      else if Quoted(text, '\'') then Some(text[1..|text| - 1])
      else None
  }

  /** One character as it stands between the quotes of a printed string. */
  function EscapeChar(c: char): string {
    if c == '\\' then "\\\\" else if c == '"' then "\\\"" else [c]
  }

  function Escape(s: string): string {
    if s == "" then "" else EscapeChar(s[0]) + Escape(s[1..])
  }

  lemma {:induction false} ReplaceConcatChar(c: char, s: string, pattern: char, with: string)
    ensures Replace([c] + s, [pattern], with) == (if c == pattern then with else [c]) + Replace(s, [pattern], with)
  {
    var whole := [c] + s;
    assert whole[0] == c && whole[1..] == s;
    assert [pattern] <= whole <==> whole[0] == pattern;
  }

  /** The two successive replacements are one pass of escaping. */
  lemma {:induction false} StringifyIsEscape(s: string)
    ensures Stringify(s) == "\"" + Escape(s) + "\""
  {
    ReplaceTwiceIsEscape(s);
  }

  lemma {:induction false} ReplaceTwiceIsEscape(s: string)
    ensures Replace(Replace(s, "\\", "\\\\"), "\"", "\\\"") == Escape(s)
  {
    if s != "" {
      var c, rest := s[0], s[1..];
      var once := Replace(rest, "\\", "\\\\");
      assert s == [c] + rest;
      ReplaceConcatChar(c, rest, '\\', "\\\\");
      ReplaceTwiceIsEscape(rest);
      if c == '\\' {
        assert "\\\\" + once == ['\\'] + (['\\'] + once);
        ReplaceConcatChar('\\', ['\\'] + once, '"', "\\\"");
        ReplaceConcatChar('\\', once, '"', "\\\"");
        assert ['\\'] + (['\\'] + Escape(rest)) == "\\\\" + Escape(rest);
      } else {
        ReplaceConcatChar(c, once, '"', "\\\"");
      }
    }
  }

  lemma {:induction false} EscapeSplit(s: string, i: nat)
    requires i <= |s|
    ensures Escape(s) == Escape(s[..i]) + Escape(s[i..])
  {
    if i > 0 {
      EscapeSplit(s[1..], i - 1);
      assert s[1..][..i - 1] == s[..i][1..] && s[1..][i - 1..] == s[i..];
    }
  }

  lemma {:induction false} EscapeOneLine(s: string)
    ensures OneLine(Escape(s)) <==> OneLine(s)
  {
    if s != "" {
      EscapeOneLine(s[1..]);
      assert s == [s[0]] + s[1..];
    }
  }

  /** Escaped text never leaves the quotes it stands in. */
  lemma {:induction false} UncommentedEscape(s: string, tail: string)
    ensures Uncommented(Escape(s) + tail, false, Some('"')) == Escape(s) + Uncommented(tail, false, Some('"'))
  {
    if s == "" {
      assert Escape(s) + tail == tail;
      assert "" + Uncommented(tail, false, Some('"')) == Uncommented(tail, false, Some('"'));
    } else {
      UncommentedEscape(s[1..], tail);
      UncommentedEscapedChar(s[0], Escape(s[1..]) + tail);
      AppendAssoc(EscapeChar(s[0]), Escape(s[1..]), tail);
      AppendAssoc(EscapeChar(s[0]), Escape(s[1..]), Uncommented(tail, false, Some('"')));
    }
  }

  lemma AppendAssoc(a: string, b: string, c: string)
    ensures (a + b) + c == a + (b + c)
  {
  }

  lemma UncommentedEscapedChar(c: char, after: string)
    ensures Uncommented(EscapeChar(c) + after, false, Some('"')) == EscapeChar(c) + Uncommented(after, false, Some('"'))
  {
    if c == '\\' || c == '"' {
      AppendAssoc(['\\'], [c], after);
      UncommentedCons('\\', [c] + after, false, Some('"'));
      UncommentedCons(c, after, true, Some('"'));
      AppendAssoc(['\\'], [c], Uncommented(after, false, Some('"')));
    } else {
      UncommentedCons(c, after, false, Some('"'));
    }
  }

  lemma JsonTailEscapedChar(c: char, after: string)
    ensures JsonTail(EscapeChar(c) + after) == (if c < ' ' then None else Prepend(c, JsonTail(after)))
  {
    var whole := EscapeChar(c) + after;
    if c == '\\' || c == '"' {
      assert whole[0] == '\\' && whole[1] == c && whole[2..] == after;
      assert SimpleEscape(c) == Some(c);
    } else {
      assert whole[0] == c && whole[1..] == after;
    }
  }

  /** Decoding escaped text gives the text itself, unless a control character stops it. */
  lemma {:induction false} JsonTailOfEscape(s: string, tail: string)
    ensures JsonTail(Escape(s) + tail) == None
         || (JsonTail(tail).Some? && JsonTail(Escape(s) + tail) == Some(s + JsonTail(tail).value))
  {
    if s == "" {
      assert Escape(s) + tail == tail;
      assert JsonTail(tail).Some? ==> "" + JsonTail(tail).value == JsonTail(tail).value;
    } else {
      JsonTailOfEscape(s[1..], tail);
      JsonTailEscapedChar(s[0], Escape(s[1..]) + tail);
      AppendAssoc(EscapeChar(s[0]), Escape(s[1..]), tail);
      if JsonTail(tail).Some? {
        AppendAssoc([s[0]], s[1..], JsonTail(tail).value);
        assert [s[0]] + s[1..] == s;
      }
    }
  }

  lemma {:induction false} FirstReplaceOfEscape(s: string)
    ensures Replace(Escape(s), "\\\"", "\"") == Replace(s, "\\", "\\\\")
  {
    if s != "" {
      var c, rest := s[0], s[1..];
      FirstReplaceOfEscape(rest);
      var whole := Escape(s);
      assert s == [c] + rest;
      ReplaceConcatChar(c, rest, '\\', "\\\\");
      if c == '"' {
        assert "\\\"" <= whole && whole[2..] == Escape(rest);
      } else if c == '\\' {
        var one := whole[1..];
        assert whole[0] == '\\' && whole[1] == '\\' && one == ['\\'] + Escape(rest);
        assert !("\\\"" <= whole);
        assert Replace(whole, "\\\"", "\"") == ['\\'] + Replace(one, "\\\"", "\"");
        EscapeNeverStartsWithQuote(rest);
        assert one[1..] == Escape(rest);
        assert !("\\\"" <= one);
        assert ['\\'] + (['\\'] + Replace(rest, "\\", "\\\\")) == "\\\\" + Replace(rest, "\\", "\\\\");
      } else {
        assert whole[0] == c && whole[1..] == Escape(rest);
        assert !("\\\"" <= whole);
      }
    }
  }

  lemma EscapeNeverStartsWithQuote(s: string)
    ensures Escape(s) != "" ==> Escape(s)[0] != '"'
  {
  }

  lemma {:induction false} SecondReplaceOfDoubled(s: string)
    ensures Replace(Replace(s, "\\", "\\\\"), "\\\\", "\\") == s
  {
    if s != "" {
      var c, rest := s[0], s[1..];
      SecondReplaceOfDoubled(rest);
      var after := Replace(rest, "\\", "\\\\");
      assert s == [c] + rest;
      ReplaceConcatChar(c, rest, '\\', "\\\\");
      var whole := Replace(s, "\\", "\\\\");
      if c == '\\' {
        assert whole == "\\\\" + after && whole[2..] == after;
      } else {
        assert whole == [c] + after && whole[1..] == after;
        assert !("\\\\" <= whole);
      }
    }
  }

  /** Printing then parsing gives the string back, on the JSON path when the string has no
      control character and on the replacement path when it has one. */
  lemma ParseStringify(s: string)
    ensures ParseString(Some(ValueText(Stringify(s)))) == Some(s)
  {
    StringifyIsEscape(s);
    ValueTextOfStringify(s);
    ParseQuoted(s, Escape(s));
  }

  lemma ParseQuoted(s: string, inner: string)
    requires inner == Escape(s)
    ensures ParseString(Some("\"" + inner + "\"")) == Some(s)
  {
    var text := "\"" + inner + "\"";
    assert text[1..] == inner + "\"" && text[1..|text| - 1] == inner;
    JsonTailOfEscape(s, "\"");
    assert s + "" == s;
    FirstReplaceOfEscape(s);
    SecondReplaceOfDoubled(s);
    assert JsonTail("\"") == Some("");
  }

  lemma ValueTextOfStringify(s: string)
    ensures ValueText("\"" + Escape(s) + "\"") == "\"" + Escape(s) + "\""
  {
    var inner := Escape(s);
    var text := "\"" + inner + "\"";
    AppendAssoc("\"", inner, "\"");
    UncommentedCons('"', inner + "\"", false, None);
    UncommentedEscape(s, "\"");
    assert Uncommented("\"", false, Some('"')) == "\"";
    TrimBare(text);
  }

  /** A printed string cut off inside its quotes never parses to anything with a line feed. */
  lemma ParseCutString(s: string)
    requires OneLine(s)
    ensures ParseString(Some(ValueText("\"" + Escape(s)))).Some?
        ==> OneLine(ParseString(Some(ValueText("\"" + Escape(s)))).value)
  {
    var inner := TrimEnd(Escape(s));
    ValueTextOfCut(s);
    var pad := TrimEndSplits(Escape(s));
    EscapeOneLine(s);
    assert OneLine(inner);
    JsonTailOfCut(s, |inner|);
    assert Escape(s)[..|inner|] == inner;
    ParseUndecodable(inner);
  }

  lemma ValueTextOfCut(s: string)
    ensures ValueText("\"" + Escape(s)) == "\"" + TrimEnd(Escape(s))
  {
    UncommentedCons('"', Escape(s), false, None);
    UncommentedEscape(s, "");
    assert Escape(s) + "" == Escape(s);
    TrimEndKeepsFirst('"', Escape(s));
  }

  lemma ParseUndecodable(inner: string)
    requires OneLine(inner) && JsonTail(inner) == None
    ensures ParseString(Some("\"" + inner)).Some? ==> OneLine(ParseString(Some("\"" + inner)).value)
  {
    var text := "\"" + inner;
    assert text[1..] == inner;
    if Quoted(text, '"') {
      var body := text[1..|text| - 1];
      assert body == inner[..|inner| - 1];
      ReplaceOneLine(body, "\\\"", "\"");
      ReplaceOneLine(Replace(body, "\\\"", "\""), "\\\\", "\\");
    }
  }

  lemma {:induction false} JsonTailOfCut(s: string, n: nat)
    requires n <= |Escape(s)|
    ensures JsonTail(Escape(s)[..n]) == None
  {
    if n > 0 {
      var c, rest := s[0], s[1..];
      var cut := Escape(s)[..n];
      if c == '\\' || c == '"' {
        if n >= 2 {
          JsonTailOfCut(rest, n - 2);
          assert cut[2..] == Escape(rest)[..n - 2];
        }
        assert cut[0] == '\\' && (n >= 2 ==> cut[1] == c);
      } else {
        JsonTailOfCut(rest, n - 1);
        assert cut[0] == c && cut[1..] == Escape(rest)[..n - 1];
      }
    }
  }

  lemma {:induction false} ReplaceOneLine(s: string, pattern: string, with: string)
    requires pattern != "" && OneLine(s) && OneLine(with)
    ensures OneLine(Replace(s, pattern, with))
  {
    if |s| >= |pattern| {
      if pattern <= s {
        ReplaceOneLine(s[|pattern|..], pattern, with);
      } else {
        ReplaceOneLine(s[1..], pattern, with);
      }
    }
  }

  // ----- booleans and integers -----

  function ParseBool(value: Option<string>): Option<bool> {
    if value == Some("true") then Some(true)
    else if value == Some("false") then Some(false)
    else None
  }

  function BoolText(b: bool): string {
    if b then "true" else "false"
  }

  const I64_MAX: int := 0x7FFF_FFFF_FFFF_FFFF
  const I64_MIN: int := -0x8000_0000_0000_0000

  predicate IsDigit(c: char) {
    '0' <= c <= '9'
  }

  function Digits(s: string): Option<nat> {
    if s == "" then Some(0)
    else if !IsDigit(s[|s| - 1]) then None
    else
      match Digits(s[..|s| - 1])
      case None => None
      case Some(high) => Some(high * 10 + ((s[|s| - 1] as int) - ('0' as int)))
  }

  /** `str::parse::<i64>`: an optional sign, at least one digit, no overflow. */
  function ParseI64(s: string): Option<int> {
    var negative := s != "" && s[0] == '-';
    var digits := if s != "" && (s[0] == '-' || s[0] == '+') then s[1..] else s;
    if digits == "" then None
    else
      match Digits(digits)
      case None => None
      case Some(n) =>
        var magnitude: int := n;
        var value := if negative then -magnitude else magnitude;
        if I64_MIN <= value <= I64_MAX then Some(value) else None
  }

  function ParseInteger(value: Option<string>): Option<int> {
    match value
    case None => None
    case Some(text) => ParseI64(Trim(Replace(text, "_", "")))
  }

  function NatText(n: nat): (s: string)
    ensures s != "" && forall c <- s :: IsDigit(c)
  {
    var last := [('0' as int + n % 10) as char];
    if n < 10 then last else NatText(n / 10) + last
  }

  lemma {:induction false} DigitsOfNatText(n: nat)
    ensures Digits(NatText(n)) == Some(n)
  {
    var s := NatText(n);
    if n >= 10 {
      DigitsOfNatText(n / 10);
      assert s[..|s| - 1] == NatText(n / 10);
    } else {
      assert s[..|s| - 1] == "";
    }
  }

  lemma {:induction false} ReplaceAbsent(s: string, c: char)
    requires c !in s
    ensures Replace(s, [c], "") == s
  {
    if s != "" {
      assert s == [s[0]] + s[1..];
      ReplaceAbsent(s[1..], c);
      ReplaceConcatChar(s[0], s[1..], c, "");
    }
  }

  /** Text with no mark the value scanner looks for, and no space at its ends, is its own value. */
  lemma {:induction false} UncommentedPlain(s: string)
    requires forall c <- s :: c != '\\' && c != '"' && c != '\'' && c != '#'
    ensures Uncommented(s, false, None) == s
  {
    if s != "" {
      assert forall c <- s[1..] :: c in s;
      UncommentedPlain(s[1..]);
      UncommentedCons(s[0], s[1..], false, None);
      assert s == [s[0]] + s[1..] && s[0] in s;
    }
  }

  lemma TrimBare(s: string)
    requires s != "" ==> !IsSpace(s[0]) && !IsSpace(s[|s| - 1])
    ensures Trim(s) == s
  {
  }

  lemma IntegerRoundTrip(n: nat)
    requires n <= I64_MAX
    ensures ParseInteger(Some(ValueText(NatText(n)))) == Some(n)
  {
    var s := NatText(n);
    assert s[0] in s && s[|s| - 1] in s;
    UncommentedPlain(s);
    TrimBare(s);
    ReplaceAbsent(s, '_');
    DigitsOfNatText(n);
  }

  lemma BoolRoundTrip(b: bool)
    ensures ParseBool(Some(ValueText(BoolText(b)))) == Some(b)
  {
    UncommentedPlain(BoolText(b));
    TrimBare(BoolText(b));
  }
}
