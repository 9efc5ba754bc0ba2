/** The forms that the reader of the configuration file takes: headers and keys with white space around
    them, strings in either kind of quotes with or without a comment behind them, what the escapes in them
    stand for, integers and booleans. Each is stated about the text as it is written. */
module TomlForms {
  import opened Text
  import opened TomlValues
  import opened TomlReader

  // ----- comments behind values -----

  /** What may stand behind a value: white space, and a comment. */
  function Behind(pad: string, note: Option<string>): string {
    pad + if note.Some? then "#" + note.value else ""
  }

  lemma UncommentedBehind(pad: string, note: Option<string>)
    requires Padding(pad)
    ensures Uncommented(Behind(pad, note), false, None) == pad
  {
    UncommentedPrefix(pad, if note.Some? then "#" + note.value else "");
    if note.Some? {
      assert "#" + note.value == ['#'] + note.value;
      UncommentedCons('#', note.value, false, None);
    }
    assert pad + "" == pad;
  }

  /** Text without marks before a value or behind it stays. */
  lemma {:induction false} UncommentedPrefix(pad: string, s: string)
    requires Padding(pad)
    ensures Uncommented(pad + s, false, None) == pad + Uncommented(s, false, None)
  {
    if pad == "" {
      assert pad + s == s && pad + Uncommented(s, false, None) == Uncommented(s, false, None);
    } else {
      AppendAssoc([pad[0]], pad[1..], s);
      AppendAssoc([pad[0]], pad[1..], Uncommented(s, false, None));
      assert [pad[0]] + pad[1..] == pad && IsSpace(pad[0]);
      UncommentedCons(pad[0], pad[1..] + s, false, None);
      UncommentedPrefix(pad[1..], s);
    }
  }

  lemma {:induction false} TrimStartLeads(pad: string, c: char, s: string)
    requires Padding(pad) && !IsSpace(c)
    ensures TrimStart(pad + [c] + s) == [c] + s
  {
    if pad == "" {
      assert pad + [c] + s == [c] + s;
    } else {
      assert (pad + [c] + s)[1..] == pad[1..] + [c] + s;
      TrimStartLeads(pad[1..], c, s);
    }
  }

  /** What is left of a value in quotes, with white space on both sides. */
  lemma QuotedIsTrimmed(lead: string, mark: char, inner: string, pad: string)
    requires Padding(lead) && Padding(pad) && !IsSpace(mark)
    ensures Trim(lead + ([mark] + inner + [mark] + pad)) == [mark] + inner + [mark]
  {
    assert lead + ([mark] + inner + [mark] + pad) == lead + [mark] + (inner + [mark] + pad);
    TrimStartLeads(lead, mark, inner + [mark] + pad);
    var kept := [mark] + inner + [mark];
    assert [mark] + (inner + [mark] + pad) == kept + pad;
    TrimEndOfPadded(kept, pad);
    assert kept[|kept| - 1] == mark;
  }

  // ----- single quotes -----

  /** How many backslashes the text ends in. */
  function TrailingBackslashes(v: string): nat {
    if v == "" || v[|v| - 1] != '\\' then 0 else 1 + TrailingBackslashes(v[..|v| - 1])
  }

  /** The state of the scanner behind a text without its quote: escaped or not. */
  lemma {:induction false} UncommentedInside(v: string, tail: string)
    requires '\'' !in v
    ensures Uncommented(v + tail, false, Some('\''))
         == v + Uncommented(tail, TrailingBackslashes(v) % 2 == 1, Some('\''))
    decreases |v|
  {
    if v == "" {
      assert v + tail == tail && v + Uncommented(tail, false, Some('\'')) == Uncommented(tail, false, Some('\''));
    } else {
      var front, c := v[..|v| - 1], v[|v| - 1];
      assert v == front + [c] && c in v && forall d <- front :: d in v;
      AppendAssoc(front, [c], tail);
      UncommentedInside(front, [c] + tail);
      UncommentedCons(c, tail, TrailingBackslashes(front) % 2 == 1, Some('\''));
      AppendAssoc(front, [c], Uncommented(tail, TrailingBackslashes(v) % 2 == 1, Some('\'')));
    }
  }

  lemma QuoteThenBehind(mark: char, pad: string, note: Option<string>)
    requires (mark == '\'' || mark == '"') && Padding(pad)
    ensures Uncommented([mark] + Behind(pad, note), false, Some(mark)) == [mark] + pad
  {
    UncommentedCons(mark, Behind(pad, note), false, Some(mark));
    UncommentedBehind(pad, note);
  }

  /** A text in single quotes is read as it stands, with `#`, double quotes and backslashes in it, whatever
      white space and comment surround it; unless a backslash, by its number, hides the closing quote. */
  lemma SingleQuoted(lead: string, v: string, pad: string, note: Option<string>)
    requires '\'' !in v && Padding(lead) && Padding(pad) && TrailingBackslashes(v) % 2 == 0
    ensures ParseString(Some(ValueText(lead + ("'" + v + "'" + Behind(pad, note))))) == Some(v)
  {
    hide Uncommented, ParseString, Behind, Trim;
    var tail := ['\''] + Behind(pad, note);
    assert "'" + v + "'" + Behind(pad, note) == ['\''] + (v + tail);
    UncommentedPrefix(lead, ['\''] + (v + tail));
    UncommentedCons('\'', v + tail, false, None);
    UncommentedInside(v, tail);
    QuoteThenBehind('\'', pad, note);
    assert ['\''] + (v + (['\''] + pad)) == ['\''] + v + ['\''] + pad;
    QuotedIsTrimmed(lead, '\'', v, pad);
    SingleIsRead(v);
  }

  lemma LastQuoteStays(escaped: bool)
    ensures Uncommented("'", escaped, Some('\'')) == "'"
  {
  }

  lemma NoPadding()
    ensures Padding("")
  {
    assert |""| == 0;
  }

  lemma SingleIsRead(v: string)
    ensures ParseString(Some(['\''] + v + ['\''])) == Some(v)
  {
    InQuotes('\'', v);
  }

  /** With nothing behind it, every text without a single quote is read as it stands. */
  lemma SingleQuotedAlone(v: string)
    requires '\'' !in v
    ensures ParseString(Some(ValueText("'" + v + "'"))) == Some(v)
  {
    assert "'" + v + "'" == ['\''] + (v + "'");
    UncommentedCons('\'', v + "'", false, None);
    UncommentedInside(v, "'");
    LastQuoteStays(TrailingBackslashes(v) % 2 == 1);
    var text := ['\''] + v + ['\''];
    assert ['\''] + (v + "'") == text;
    hide Uncommented, ParseString;
    TrimBare(text);
    SingleIsRead(v);
  }

  lemma InQuotes(mark: char, v: string)
    ensures var text := [mark] + v + [mark]; Quoted(text, mark) && text[1..|text| - 1] == v && text[0] == mark
  {
  }

  /** And an odd number of backslashes does hide it: the comment becomes part of the value, which is then
      no string. */
  lemma BackslashHidesQuote(v: string, pad: string, note: string)
    requires '\'' !in v && '\'' !in note && Padding(pad) && TrailingBackslashes(v) % 2 == 1
    requires note != "" && !IsSpace(note[|note| - 1])
    ensures ParseString(Some(ValueText("'" + v + "'" + Behind(pad, Some(note))))) == None
  {
    var rest := pad + ("#" + note);
    var whole := ['\''] + (v + (['\''] + rest));
    assert "'" + v + "'" + Behind(pad, Some(note)) == whole;
    HiddenIsKept(v, rest);
    hide Uncommented;
    assert whole[|whole| - 1] == note[|note| - 1];
    TrimBare(whole);
  }

  lemma HiddenIsKept(v: string, rest: string)
    requires '\'' !in v && '\'' !in rest && TrailingBackslashes(v) % 2 == 1
    ensures Uncommented(['\''] + (v + (['\''] + rest)), false, None) == ['\''] + (v + (['\''] + rest))
  {
    hide Uncommented;
    UncommentedCons('\'', v + (['\''] + rest), false, None);
    UncommentedInside(v, ['\''] + rest);
    UncommentedCons('\'', rest, true, Some('\''));
    UncommentedInside(rest, "");
    NothingLeft(TrailingBackslashes(rest) % 2 == 1, Some('\''));
    assert rest + "" == rest;
  }

  lemma NothingLeft(escaped: bool, quote: Option<char>)
    ensures Uncommented("", escaped, quote) == ""
  {
  }

  /** A string is what stands in quotes of one kind, and nothing else. */
  lemma OnlyQuotedIsString(value: Option<string>)
    ensures ParseString(value).Some? <==>
              value.Some? && |value.value| >= 2 && value.value[|value.value| - 1] == value.value[0]
              && (value.value[0] == '"' || value.value[0] == '\'')
  {
  }

  // ----- escapes in double quotes -----

  /** What stands between double quotes, piece by piece: a character, an escape by a letter, or an escape by
      the number of a code point, as in section 7 of RFC 8259. */
  datatype Piece = Plain(c: char) | Short(letter: char) | ByNumber(code: nat, upper: bool)

  const LETTERS: map<char, char> := map[
    '"' := '"', '\\' := '\\', '/' := '/', 'b' := '\U{0008}', 'f' := '\U{000C}', 'n' := '\n', 'r' := '\r', 't' := '\t'
  ]

  predicate IsPiece(p: Piece) {
    match p
    case Plain(c) => c >= ' ' && c != '"' && c != '\\'
    case Short(letter) => letter in LETTERS
    case ByNumber(code, _) => code < 0xD800 || 0xE000 <= code < 0x11_0000
  }

  function HexDigit(n: nat, upper: bool): char
    requires n < 16
  {
    if n < 10 then ('0' as int + n) as char else ((if upper then 'A' else 'a') as int + n - 10) as char
  }

  function FourDigits(n: nat, upper: bool): string
    requires n < 0x1_0000
  {
    [HexDigit(n / 0x1000, upper), HexDigit(n / 0x100 % 16, upper), HexDigit(n / 16 % 16, upper),
     HexDigit(n % 16, upper)]
  }

  function Written(p: Piece): string
    requires IsPiece(p)
  {
    match p
    case Plain(c) => [c]
    case Short(letter) => ['\\', letter]
    case ByNumber(code, upper) =>
      if code < 0x1_0000 then "\\u" + FourDigits(code, upper)
      else "\\u" + FourDigits(0xD800 + (code - 0x1_0000) / 0x400, upper)
           + ("\\u" + FourDigits(0xDC00 + (code - 0x1_0000) % 0x400, upper))
  }

  function Meant(p: Piece): char
    requires IsPiece(p)
  {
    match p
    case Plain(c) => c
    case Short(letter) => LETTERS[letter]
    case ByNumber(code, _) => code as char
  }

  predicate ArePieces(ps: seq<Piece>) {
    forall p <- ps :: IsPiece(p)
  }

  function WrittenAll(ps: seq<Piece>): string
    requires ArePieces(ps)
  {
    if ps == [] then "" else Written(ps[0]) + WrittenAll(ps[1..])
  }

  function MeantAll(ps: seq<Piece>): string
    requires ArePieces(ps)
  {
    if ps == [] then "" else [Meant(ps[0])] + MeantAll(ps[1..])
  }

  lemma HexDigitReads(n: nat, upper: bool)
    requires n < 16
    ensures HexValue(HexDigit(n, upper)) == Some(n)
  {
  }

  lemma FourDigitsRead(n: nat, upper: bool, after: string)
    requires n < 0x1_0000
    ensures Hex4(FourDigits(n, upper) + after) == Some(n)
  {
    var a, b, c, d := n / 0x1000, n / 0x100 % 16, n / 16 % 16, n % 16;
    HexDigitReads(a, upper);
    HexDigitReads(b, upper);
    HexDigitReads(c, upper);
    HexDigitReads(d, upper);
    DigitsOf(n);
    FourHexes(HexDigit(a, upper), HexDigit(b, upper), HexDigit(c, upper), HexDigit(d, upper), after, a, b, c, d);
  }

  lemma DigitsOf(n: nat)
    requires n < 0x1_0000
    ensures n == ((n / 0x1000 * 16 + n / 0x100 % 16) * 16 + n / 16 % 16) * 16 + n % 16
  {
  }

  lemma FourHexes(a: char, b: char, c: char, d: char, after: string, i: nat, j: nat, k: nat, l: nat)
    requires HexValue(a) == Some(i) && HexValue(b) == Some(j) && HexValue(c) == Some(k) && HexValue(d) == Some(l)
    requires i < 16 && j < 16 && k < 16 && l < 16
    ensures Hex4([a, b, c, d] + after) == Some(((i * 16 + j) * 16 + k) * 16 + l)
  {
    hide HexValue;
  }

  lemma NumberReads(code: nat, upper: bool, after: string)
    requires IsPiece(ByNumber(code, upper))
    ensures var w := Written(ByNumber(code, upper));
            |w| >= 2 && UnicodeEscape(w[2..] + after) == Some((code as char, |w| - 2))
  {
    hide FourDigits, Hex4;
    var w := Written(ByNumber(code, upper));
    if code < 0x1_0000 {
      FourAre(code, upper);
      assert w[2..] == FourDigits(code, upper);
      FourDigitsRead(code, upper, after);
    } else {
      var high, low := 0xD800 + (code - 0x1_0000) / 0x400, 0xDC00 + (code - 0x1_0000) % 0x400;
      var back := "\\u" + (FourDigits(low, upper) + after);
      assert w[2..] + after == FourDigits(high, upper) + back;
      FourDigitsRead(high, upper, back);
      FourDigitsRead(low, upper, after);
      FourAre(high, upper);
      FourAre(low, upper);
      var s := FourDigits(high, upper) + back;
      assert s[4..6] == "\\u" && s[6..] == FourDigits(low, upper) + after;
    }
  }

  lemma FourAre(n: nat, upper: bool)
    requires n < 0x1_0000
    ensures |FourDigits(n, upper)| == 4
  {
  }

  lemma PieceReads(p: Piece, after: string)
    requires IsPiece(p)
    ensures JsonTail(Written(p) + after) == Prepend(Meant(p), JsonTail(after))
  {
    hide UnicodeEscape, FourDigits;
    var whole := Written(p) + after;
    match p
    case Plain(c) => assert whole[0] == c && whole[1..] == after;
    case Short(letter) => assert whole[0] == '\\' && whole[1] == letter && whole[2..] == after;
    case ByNumber(code, upper) =>
      NumberReads(code, upper, after);
      var w := Written(p);
      assert w[0] == '\\' && w[1] == 'u';
      assert whole[2..] == w[2..] + after && whole[2 + (|w| - 2)..] == after;
  }

  lemma {:induction false} PiecesRead(ps: seq<Piece>, after: string)
    requires ArePieces(ps)
    ensures JsonTail(after).Some? ==> JsonTail(WrittenAll(ps) + after) == Some(MeantAll(ps) + JsonTail(after).value)
  {
    hide JsonTail, Written, Meant, IsPiece;
    if ps == [] {
      assert WrittenAll(ps) + after == after;
      assert JsonTail(after).Some? ==> "" + JsonTail(after).value == JsonTail(after).value;
    } else {
      assert ps[0] in ps && forall p <- ps[1..] :: p in ps;
      AppendAssoc(Written(ps[0]), WrittenAll(ps[1..]), after);
      PieceReads(ps[0], WrittenAll(ps[1..]) + after);
      PiecesRead(ps[1..], after);
      if JsonTail(after).Some? {
        AppendAssoc([Meant(ps[0])], MeantAll(ps[1..]), JsonTail(after).value);
      }
    }
  }

  // ----- the scanner over escapes -----

  /** A stretch that the scanner passes inside double quotes without leaving them. */
  lemma {:induction false} NumberStays(s: string, after: string)
    requires '"' !in s && '\\' !in s
    ensures Uncommented(s + after, false, Some('"')) == s + Uncommented(after, false, Some('"'))
  {
    if s == "" {
      assert s + after == after && s + Uncommented(after, false, Some('"')) == Uncommented(after, false, Some('"'));
    } else {
      AppendAssoc([s[0]], s[1..], after);
      AppendAssoc([s[0]], s[1..], Uncommented(after, false, Some('"')));
      assert [s[0]] + s[1..] == s && s[0] in s && forall c <- s[1..] :: c in s;
      UncommentedCons(s[0], s[1..] + after, false, Some('"'));
      NumberStays(s[1..], after);
    }
  }

  lemma EscapeStays(c: char, s: string, after: string)
    requires '"' !in s && '\\' !in s
    ensures Uncommented(['\\', c] + s + after, false, Some('"'))
         == ['\\', c] + s + Uncommented(after, false, Some('"'))
  {
    hide Uncommented;
    PairAssoc('\\', c, s, after);
    UncommentedCons('\\', [c] + (s + after), false, Some('"'));
    UncommentedCons(c, s + after, true, Some('"'));
    NumberStays(s, after);
    PairAssoc('\\', c, s, Uncommented(after, false, Some('"')));
  }

  lemma PairAssoc(a: char, b: char, s: string, t: string)
    ensures [a, b] + s + t == [a] + ([b] + (s + t))
  {
  }

  lemma DigitsAreBare(n: nat, upper: bool)
    requires n < 0x1_0000
    ensures '"' !in FourDigits(n, upper) && '\\' !in FourDigits(n, upper)
  {
  }

  lemma PieceStays(p: Piece, after: string)
    requires IsPiece(p)
    ensures Uncommented(Written(p) + after, false, Some('"')) == Written(p) + Uncommented(after, false, Some('"'))
  {
    hide FourDigits, Uncommented;
    match p
    case Plain(c) => NumberStays([c], after);
    case Short(letter) =>
      EscapeStays(letter, "", after);
      assert ['\\', letter] + "" == ['\\', letter];
    case ByNumber(code, upper) =>
      if code < 0x1_0000 {
        DigitsAreBare(code, upper);
        EscapeStays('u', FourDigits(code, upper), after);
      } else {
        var high, low := 0xD800 + (code - 0x1_0000) / 0x400, 0xDC00 + (code - 0x1_0000) % 0x400;
        DigitsAreBare(high, upper);
        DigitsAreBare(low, upper);
        var first, second := "\\u" + FourDigits(high, upper), "\\u" + FourDigits(low, upper);
        EscapeStays('u', FourDigits(low, upper), after);
        EscapeStays('u', FourDigits(high, upper), second + after);
        AppendAssoc(first, second, after);
        AppendAssoc(first, second, Uncommented(after, false, Some('"')));
      }
  }

  lemma {:induction false} PiecesStay(ps: seq<Piece>, after: string)
    requires ArePieces(ps)
    ensures Uncommented(WrittenAll(ps) + after, false, Some('"'))
         == WrittenAll(ps) + Uncommented(after, false, Some('"'))
  {
    hide Uncommented, Written, IsPiece;
    if ps == [] {
      assert WrittenAll(ps) + after == after;
      assert "" + Uncommented(after, false, Some('"')) == Uncommented(after, false, Some('"'));
    } else {
      assert ps[0] in ps && forall p <- ps[1..] :: p in ps;
      AppendAssoc(Written(ps[0]), WrittenAll(ps[1..]), after);
      PieceStays(ps[0], WrittenAll(ps[1..]) + after);
      PiecesStay(ps[1..], after);
      AppendAssoc(Written(ps[0]), WrittenAll(ps[1..]), Uncommented(after, false, Some('"')));
    }
  }

  /** A string in double quotes is read as what its pieces stand for, whatever white space and comment
      surround it, with `#` in it or not. */
  lemma DoubleQuoted(lead: string, ps: seq<Piece>, pad: string, note: Option<string>)
    requires ArePieces(ps) && Padding(lead) && Padding(pad)
    ensures ParseString(Some(ValueText(lead + ("\"" + WrittenAll(ps) + "\"" + Behind(pad, note)))))
            == Some(MeantAll(ps))
  {
    hide Uncommented, ParseString, Behind, Trim, WrittenAll, MeantAll, ArePieces;
    var inner, tail := WrittenAll(ps), ['"'] + Behind(pad, note);
    assert "\"" + inner + "\"" + Behind(pad, note) == ['"'] + (inner + tail);
    UncommentedPrefix(lead, ['"'] + (inner + tail));
    UncommentedCons('"', inner + tail, false, None);
    PiecesStay(ps, tail);
    QuoteThenBehind('"', pad, note);
    assert ['"'] + (inner + (['"'] + pad)) == ['"'] + inner + ['"'] + pad;
    QuotedIsTrimmed(lead, '"', inner, pad);
    DoubleIsRead(ps);
  }

  lemma DoubleIsRead(ps: seq<Piece>)
    requires ArePieces(ps)
    ensures ParseString(Some(['"'] + WrittenAll(ps) + ['"'])) == Some(MeantAll(ps))
  {
    hide WrittenAll, MeantAll, ArePieces, PlainUnescape;
    var text := ['"'] + WrittenAll(ps) + ['"'];
    PiecesRead(ps, "\"");
    assert text[1..] == WrittenAll(ps) + "\"";
    assert JsonTail("\"") == Some("");
    assert MeantAll(ps) + "" == MeantAll(ps);
  }

  // ----- strings that are no JSON strings -----

  /** The pattern begins nowhere in the text. */
  ghost predicate IsUnseen(s: string, pattern: string) {
    forall i | 0 <= i <= |s| :: !(pattern <= s[i..])
  }

  lemma {:induction false} ReplaceUnseen(s: string, pattern: string, with: string)
    requires pattern != "" && IsUnseen(s, pattern)
    ensures Replace(s, pattern, with) == s
  {
    if |s| >= |pattern| {
      assert !(pattern <= s[0..]) && s[0..] == s;
      forall i | 0 <= i <= |s[1..]| ensures !(pattern <= s[1..][i..]) {
        assert s[1..][i..] == s[i + 1..];
      }
      ReplaceUnseen(s[1..], pattern, with);
      assert [s[0]] + s[1..] == s;
    }
  }

  lemma {:induction false} StopsAtBadEscape(a: string, x: char, b: string)
    requires '"' !in a && '\\' !in a && x != 'u' && x !in LETTERS
    ensures JsonTail(a + (['\\', x] + b)) == None
  {
    var whole := a + (['\\', x] + b);
    if a == "" {
      assert whole == ['\\', x] + b;
      assert SimpleEscape(x) == None;
    } else {
      assert whole[0] == a[0] && whole[1..] == a[1..] + (['\\', x] + b) && a[0] in a && forall c <- a[1..] :: c in a;
      StopsAtBadEscape(a[1..], x, b);
    }
  }

  /** A backslash that begins no escape makes the string one that JSON does not know; it is then read as it
      stands, as a Windows path with single backslashes is. */
  lemma BadEscapeIsKept(a: string, x: char, b: string)
    requires '"' !in a && '\\' !in a && '"' !in b && '\\' !in b && x != 'u' && x !in LETTERS
    ensures ParseString(Some("\"" + (a + ['\\', x] + b) + "\"")) == Some(a + ['\\', x] + b)
  {
    hide JsonTail;
    var inner := a + ['\\', x] + b;
    var text := "\"" + inner + "\"";
    StopsAtBadEscape(a, x, b + "\"");
    assert text[1..] == a + (['\\', x] + (b + "\""));
    assert text[1..|text| - 1] == inner;
    assert '"' !in inner;
    forall i | 0 <= i <= |inner| ensures !("\\\"" <= inner[i..]) {
      NoQuoteThere(inner, i);
    }
    ReplaceUnseen(inner, "\\\"", "\"");
    forall i | 0 <= i <= |inner| ensures !("\\\\" <= inner[i..]) {
      NoPairThere(a, x, b, i);
    }
    ReplaceUnseen(inner, "\\\\", "\\");
  }

  lemma NoQuoteThere(inner: string, i: nat)
    requires '"' !in inner && i <= |inner|
    ensures !("\\\"" <= inner[i..])
  {
    var rest := inner[i..];
    if |rest| >= 2 {
      assert rest[1] == inner[i + 1] && inner[i + 1] in inner;
    }
  }

  lemma NoPairThere(a: string, x: char, b: string, i: nat)
    requires '\\' !in a && '\\' !in b && x != '\\' && i <= |a + ['\\', x] + b|
    ensures !("\\\\" <= (a + ['\\', x] + b)[i..])
  {
    var inner := a + ['\\', x] + b;
    var rest := inner[i..];
    if |rest| >= 2 {
      assert rest[0] == inner[i] && rest[1] == inner[i + 1];
      OneBackslash(a, x, b, i);
      OneBackslash(a, x, b, i + 1);
    }
  }

  lemma OneBackslash(a: string, x: char, b: string, i: nat)
    requires '\\' !in a && '\\' !in b && x != '\\' && i < |a + ['\\', x] + b|
    ensures (a + ['\\', x] + b)[i] == '\\' ==> i == |a|
  {
    var inner := a + ['\\', x] + b;
    if i < |a| {
      assert inner[i] == a[i] && a[i] in a;
    } else if i >= |a| + 2 {
      assert inner[i] == b[i - |a| - 2] && b[i - |a| - 2] in b;
    }
  }

  // ----- integers and booleans -----

  /** The number that decimal digits show. */
  function Number(ds: seq<nat>): nat {
    if ds == [] then 0 else Number(ds[..|ds| - 1]) * 10 + ds[|ds| - 1]
  }

  function Shown(ds: seq<nat>): (s: string)
    requires forall d <- ds :: d < 10
    ensures |s| == |ds|
  {
    seq(|ds|, i requires 0 <= i < |ds| => (assert ds[i] in ds; "0123456789"[ds[i]]))
  }

  lemma {:induction false} ShownReads(ds: seq<nat>)
    requires forall d <- ds :: d < 10
    ensures Digits(Shown(ds)) == Some(Number(ds))
  {
    if ds != [] {
      var front, d := ds[..|ds| - 1], ds[|ds| - 1];
      assert d in ds && forall e <- front :: e in ds;
      ShownReads(front);
      assert Shown(ds)[..|ds| - 1] == Shown(front);
      DigitChar(d);
    }
  }

  lemma DigitChar(d: nat)
    requires d < 10
    ensures "0123456789"[d] as int == '0' as int + d
  {
  }

  /** Digits with a sign or without are read as the number they show, if a signed number of 64 bits can
      hold it. */
  lemma IntegerReads(sign: string, ds: seq<nat>)
    requires (sign == "" || sign == "+" || sign == "-") && ds != [] && forall d <- ds :: d < 10
    ensures var m: int := Number(ds);
            var n := if sign == "-" then -m else m;
            ParseInteger(Some(sign + Shown(ds)))
            == if -0x8000_0000_0000_0000 <= n <= 0x7FFF_FFFF_FFFF_FFFF then Some(n) else None
  {
    hide *;
    ShownReads(ds);
    ShownIsBare(ds);
    SignedIsBare(sign, Shown(ds));
    ReplaceAbsent(sign + Shown(ds), '_');
    TrimBare(sign + Shown(ds));
    SignedReads(sign, Shown(ds), Number(ds));
    IntegerIsParsed(sign + Shown(ds));
  }

  lemma IntegerIsParsed(text: string)
    requires Trim(Replace(text, "_", "")) == text
    ensures ParseInteger(Some(text)) == ParseI64(text)
  {
  }

  lemma SignedIsBare(sign: string, digits: string)
    requires (sign == "" || sign == "+" || sign == "-") && digits != ""
    requires forall i | 0 <= i < |digits| :: '0' <= digits[i] <= '9'
    ensures var text := sign + digits; '_' !in text && !IsSpace(text[0]) && !IsSpace(text[|text| - 1])
  {
    var text := sign + digits;
    assert text[|text| - 1] == digits[|digits| - 1];
    assert sign == "" ==> text == digits;
  }

  lemma SignedReads(sign: string, digits: string, m: nat)
    requires (sign == "" || sign == "+" || sign == "-") && digits != "" && Digits(digits) == Some(m)
    requires digits[0] != '+' && digits[0] != '-'
    ensures var k: int := m;
            var n := if sign == "-" then -k else k;
            ParseI64(sign + digits)
            == if -0x8000_0000_0000_0000 <= n <= 0x7FFF_FFFF_FFFF_FFFF then Some(n) else None
  {
    hide Digits;
    var text := sign + digits;
    if sign == "" {
      assert text == digits;
    } else {
      assert text[0] == sign[0] && text[1..] == digits;
    }
  }

  lemma ShownIsBare(ds: seq<nat>)
    requires forall d <- ds :: d < 10
    ensures forall i | 0 <= i < |Shown(ds)| :: '0' <= Shown(ds)[i] <= '9'
  {
    forall i | 0 <= i < |ds| ensures '0' <= Shown(ds)[i] <= '9' {
      assert ds[i] in ds;
      DigitChar(ds[i]);
    }
  }

  /** Underscores anywhere make no difference. */
  lemma UnderscoresAreSkipped(a: string, b: string)
    ensures ParseInteger(Some(a + "_" + b)) == ParseInteger(Some(a + b))
  {
    SkippedOne(a, b);
  }

  lemma {:induction false} SkippedOne(a: string, b: string)
    ensures Replace(a + "_" + b, "_", "") == Replace(a + b, "_", "")
  {
    if a == "" {
      assert a + "_" + b == ['_'] + b && a + b == b;
      ReplaceConcatChar('_', b, '_', "");
      assert "" + Replace(b, "_", "") == Replace(b, "_", "");
    } else {
      assert a + "_" + b == [a[0]] + (a[1..] + "_" + b) && a + b == [a[0]] + (a[1..] + b);
      ReplaceConcatChar(a[0], a[1..] + "_" + b, '_', "");
      ReplaceConcatChar(a[0], a[1..] + b, '_', "");
      SkippedOne(a[1..], b);
    }
  }

  lemma {:induction false} DigitsAreDigits(s: string)
    ensures Digits(s).Some? <==> forall c <- s :: '0' <= c <= '9'
  {
    if s != "" {
      var front, c := s[..|s| - 1], s[|s| - 1];
      assert s == front + [c] && c in s;
      assert forall d :: d in s <==> d in front || d == c;
      DigitsAreDigits(front);
    }
  }

  /** Whatever is read as an integer is an optional sign and decimal digits. */
  lemma OnlyDigitsAreIntegers(text: string)
    requires '_' !in text && Trim(text) == text && ParseInteger(Some(text)).Some?
    ensures text != "" && (text[0] == '+' || text[0] == '-' || '0' <= text[0] <= '9')
    ensures text != "+" && text != "-" && forall i | 1 <= i < |text| :: '0' <= text[i] <= '9'
  {
    ReplaceAbsent(text, '_');
    var digits := if text != "" && (text[0] == '-' || text[0] == '+') then text[1..] else text;
    DigitsAreDigits(digits);
    assert forall i | 0 <= i < |digits| :: digits[i] in digits;
    assert digits == text[1..] ==> forall i | 1 <= i < |text| :: text[i] == digits[i - 1];
  }

  lemma OnlyTheseAreBooleans(value: Option<string>)
    ensures ParseBool(value) == Some(true) <==> value == Some("true")
    ensures ParseBool(value) == Some(false) <==> value == Some("false")
    ensures ParseBool(value).Some? ==> value == Some("true") || value == Some("false")
  {
  }

  // ----- headers and keys -----

  /** A line is a header exactly if, apart from white space around it, it stands in brackets and names
      something; white space inside the brackets does not count. */
  lemma HeaderForm(a: string, b: string, name: string, c: string, d: string)
    requires Padding(a) && Padding(b) && Padding(c) && Padding(d)
    requires name != "" && !IsSpace(name[0]) && !IsSpace(name[|name| - 1])
    ensures SectionName(a + ("[" + (b + name + c) + "]" + d)) == Some(name)
  {
    var line := a + ("[" + (b + name + c) + "]" + d);
    var core := "[" + (b + name + c) + "]";
    assert line == a + ['['] + ((b + name + c) + "]" + d);
    TrimStartLeads(a, '[', (b + name + c) + "]" + d);
    assert ['['] + ((b + name + c) + "]" + d) == core + d;
    TrimEndOfPadded(core, d);
    assert core[|core| - 1] == ']';
    assert Trim(line) == core;
    assert core[1..][..|core[1..]| - 1] == b + name + c;
    NameIsTrimmed(b, name, c);
  }

  lemma NameIsTrimmed(b: string, name: string, c: string)
    requires Padding(b) && Padding(c) && name != "" && !IsSpace(name[0]) && !IsSpace(name[|name| - 1])
    ensures Trim(b + name + c) == name
  {
    assert b + name + c == b + [name[0]] + (name[1..] + c);
    TrimStartLeads(b, name[0], name[1..] + c);
    assert [name[0]] + (name[1..] + c) == name + c;
    TrimEndOfPadded(name, c);
  }

  lemma HeadersHaveForm(line: string) returns (a: string, inner: string, d: string)
    requires SectionName(line).Some?
    ensures Padding(a) && Padding(d) && line == a + ("[" + inner + "]" + d)
    ensures Trim(inner) == SectionName(line).value != ""
  {
    a := TrimStartSplits(line);
    d := TrimEndSplits(TrimStart(line));
    var core := Trim(line);
    inner := core[1..][..|core[1..]| - 1];
    assert core == "[" + inner + "]";
  }

  /** A line sets a key exactly if it is the key and an equals sign, with white space only before the key
      and between the two. */
  lemma KeyForm(line: string, key: string)
    requires key != "" && !IsSpace(key[0])
    ensures MatchesKey(line, key)
            <==> exists a, b, rest: string :: IsKeyForm(line, key, a, b, rest)
  {
    hide MatchesKey, IsKeyForm;
    if MatchesKey(line, key) {
      var a, b, rest := KeyHasForm(line, key);
    }
    if a, b, rest: string :| IsKeyForm(line, key, a, b, rest) {
      FormIsKey(line, key, a, b, rest);
    }
  }

  lemma KeyParts(line: string, key: string)
    requires MatchesKey(line, key)
    ensures var core := TrimStart(line);
            key <= core && TrimStart(core[|key|..]) != "" && TrimStart(core[|key|..])[0] == '='
  {
  }

  lemma KeyHasForm(line: string, key: string) returns (a: string, b: string, rest: string)
    requires MatchesKey(line, key)
    ensures IsKeyForm(line, key, a, b, rest)
  {
    hide MatchesKey, TrimStart;
    KeyParts(line, key);
    a := TrimStartSplits(line);
    var core := TrimStart(line);
    b := TrimStartSplits(core[|key|..]);
    rest := TrimStart(core[|key|..])[1..];
    Reassembled(line, core, key, a, b, rest);
  }

  lemma Reassembled(line: string, core: string, key: string, a: string, b: string, rest: string)
    requires line == a + core && key <= core && core[|key|..] == b + (['='] + rest)
    ensures line == a + key + b + "=" + rest
  {
    assert core == key + core[|key|..];
  }

  lemma FormIsKey(line: string, key: string, a: string, b: string, rest: string)
    requires key != "" && !IsSpace(key[0]) && IsKeyForm(line, key, a, b, rest)
    ensures MatchesKey(line, key)
  {
    var behind := b + ['='] + rest;
    assert line == a + [key[0]] + (key[1..] + behind);
    TrimStartLeads(a, key[0], key[1..] + behind);
    assert [key[0]] + (key[1..] + behind) == key + behind;
    assert (key + behind)[|key|..] == behind;
    TrimStartLeads(b, '=', rest);
  }

  predicate IsKeyForm(line: string, key: string, a: string, b: string, rest: string) {
    Padding(a) && Padding(b) && line == a + key + b + "=" + rest
  }

  // ----- whole lines -----

  /** So a line that sets a bare key, with any value and any white space, gives the key that value. */
  lemma LineReads(key: string, a: string, b: string, value: string)
    requires IsBareKey(key) && Padding(a) && Padding(b)
    requires OneLine(a + key + b + "=" + value)
    ensures Get(a + key + b + "=" + value, None, key) == Some(ValueText(value))
  {
    hide *;
    var line := a + key + b + "=" + value;
    GetReadsParts(line, None, key);
    SplitOneLine(line);
    FirstIsBare(key);
    assert IsKeyForm(line, key, a, b, value) by {
      FormOf(key, a, b, value);
    }
    FormIsKey(line, key, a, b, value);
    NoHeader(key, a, b + "=" + value);
    assert line == a + key + (b + "=" + value);
    ValueBehind(key, a, b, value);
    ReadOneLine(line, key);
  }

  lemma FirstIsBare(key: string)
    requires IsBareKey(key)
    ensures key != "" && !IsSpace(key[0])
  {
    assert key[0] in key;
  }

  lemma FormOf(key: string, a: string, b: string, value: string)
    requires Padding(a) && Padding(b)
    ensures IsKeyForm(a + key + b + "=" + value, key, a, b, value)
  {
  }

  lemma ReadOneLine(line: string, key: string)
    requires SectionName(line).None? && MatchesKey(line, key)
    ensures '=' in line && Read([line], None, None, key) == Some(ValueText(AfterEquals(line)))
  {
    hide MatchesKey, SectionName, ValueText, AfterEquals;
    assert Hit(line, None, None, key);
  }

  lemma NoHeader(key: string, a: string, rest: string)
    requires IsBareKey(key) && Padding(a)
    ensures SectionName(a + key + rest).None?
  {
    assert key[0] in key;
    assert a + key + rest == a + [key[0]] + (key[1..] + rest);
    TrimStartLeads(a, key[0], key[1..] + rest);
    TrimEndKeepsFirst(key[0], key[1..] + rest);
  }

  lemma ValueBehind(key: string, a: string, b: string, value: string)
    requires IsBareKey(key) && Padding(a) && Padding(b)
    ensures '=' in a + key + b + "=" + value && AfterEquals(a + key + b + "=" + value) == value
  {
    var head := a + key + b;
    assert forall c <- key :: IsKeyChar(c);
    assert '=' !in head;
    AfterEqualsSkips(head, "=" + value);
    assert head + ("=" + value) == a + key + b + "=" + value;
  }

  /** A default model in single quotes, say, is read from its file as it stands. */
  lemma SingleQuotedLineReads(key: string, lead: string, v: string, pad: string, note: Option<string>)
    requires IsBareKey(key) && '\'' !in v && Padding(lead) && Padding(pad) && TrailingBackslashes(v) % 2 == 0
    requires OneLine(key + "=" + (lead + ("'" + v + "'" + Behind(pad, note))))
    ensures ParseString(Get(key + "=" + (lead + ("'" + v + "'" + Behind(pad, note))), None, key)) == Some(v)
  {
    hide ParseString, ValueText, Get, Behind;
    var value := lead + ("'" + v + "'" + Behind(pad, note));
    NoPadding();
    assert "" + key + "" + "=" + value == key + "=" + value;
    LineReads(key, "", "", value);
    SingleQuoted(lead, v, pad, note);
  }
}
