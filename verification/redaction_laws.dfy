/** What redaction keeps of a message, and the inputs on which it does not do all that one would
    expect of it. */
module RedactionLaws {
  import opened Text
  import opened RedactionText
  import opened Redaction
  import opened RedactionMarks

  // ----- what is kept -----

  /** The text r is s with some stretches, none of them empty or reaching over the end of a value,
      replaced by w; everything else is where it was. */
  ghost predicate IsRewriting(s: string, r: string, w: string)
    decreases |s|
  {
    s == r || exists from: nat, to: nat :: IsReplaced(s, r, w, from, to) && IsRewriting(s[to..], r[from + |w|..], w)
  }

  predicate IsReplaced(s: string, r: string, w: string, from: nat, to: nat) {
    && from < to <= |s| && from + |w| <= |r| && r[..from + |w|] == s[..from] + w
    && forall i | from <= i < to :: !EndsValue(s[i])
  }

  lemma {:induction false} KeptFront(a: string, s: string, r: string, w: string)
    requires IsRewriting(s, r, w)
    ensures IsRewriting(a + s, a + r, w)
  {
    if s != r {
      var from: nat, to: nat :| IsReplaced(s, r, w, from, to) && IsRewriting(s[to..], r[from + |w|..], w);
      ReplacedBehind(a, s, r, w, from, to);
      assert (a + s)[|a| + to..] == s[to..] && (a + r)[|a| + from + |w|..] == r[from + |w|..];
    }
  }

  lemma ReplacedBehind(a: string, s: string, r: string, w: string, from: nat, to: nat)
    requires IsReplaced(s, r, w, from, to)
    ensures IsReplaced(a + s, a + r, w, |a| + from, |a| + to)
  {
    var k := from + |w|;
    assert (a + r)[..|a| + k] == a + r[..k] && (a + s)[..|a| + from] == a + s[..from];
    assert a + (s[..from] + w) == a + s[..from] + w;
    assert forall i | |a| + from <= i < |a| + to :: (a + s)[i] == s[i - |a|];
  }

  lemma OneReplaced(s: string, from: nat, to: nat, w: string, rest: string)
    requires from < to <= |s| && (forall i | from <= i < to :: !EndsValue(s[i])) && IsRewriting(s[to..], rest, w)
    ensures IsRewriting(s, s[..from] + w + rest, w)
  {
    var r := s[..from] + w + rest;
    assert r[..from + |w|] == s[..from] + w && r[from + |w|..] == rest;
    assert IsReplaced(s, r, w, from, to);
  }

  /** Sweeping replaces stretches within values and keeps all the rest of the text. */
  lemma {:induction false} SweptRewrites(s: string, p: Pattern, w: string)
    requires IsSweepable(p)
    ensures IsRewriting(s, Swept(s, p, w), w)
    decreases |s|
  {
    hide IsRewriting;
    var next := NextMatch(s, p, 0);
    if next.Some? {
      MatchIsInValue(s, next.value, p);
      SweptUnfolded(s, next.value, p, w);
      var to := ValueEnd(s, next.value);
      ValueEndIs(s, next.value);
      SweptRewrites(s[to..], p, w);
      OneReplaced(s, next.value, to, w, Swept(s[to..], p, w));
    } else {
      Same(s, w);
    }
  }

  lemma Same(s: string, w: string)
    ensures IsRewriting(s, s, w)
  {
  }

  /** So does marking. */
  lemma {:induction false} MarkedRewrites(s: string, p: Pattern, skips: bool)
    requires p.text != ""
    ensures IsRewriting(s, Marked(s, p, skips), REDACTED)
    decreases |s|
  {
    hide IsRewriting, NextRound;
    match NextRound(s, p, skips)
    case NoNeedle => Same(s, REDACTED);
    case HasNoValue => Same(s, REDACTED);
    case HasMark(upTo) =>
      MarkedRewrites(s[upTo..], p, skips);
      KeptFront(s[..upTo], s[upTo..], Marked(s[upTo..], p, skips), REDACTED);
      assert s[..upTo] + s[upTo..] == s;
    case HasValue(from, to) =>
      ValueOfRound(s, p, skips);
      MarkedRewrites(s[to..], p, skips);
      OneReplaced(s, from, to, REDACTED, Marked(s[to..], p, skips));
  }

  lemma ValueOfRound(s: string, p: Pattern, skips: bool)
    requires p.text != ""
    ensures var r := NextRound(s, p, skips);
            r.HasValue? ==> forall i | r.from <= i < r.to :: !EndsValue(s[i])
  {
    var next := NextMatch(s, p, 0);
    if next.Some? {
      ValueEndIs(s, ValueStart(s, next.value + |p.text|, skips));
    }
  }

  /** The characters that end values, in order. */
  function Ends(s: string): string {
    if s == "" then "" else (if EndsValue(s[0]) then [s[0]] else "") + Ends(s[1..])
  }

  lemma {:induction false} EndsConcat(a: string, b: string)
    ensures Ends(a + b) == Ends(a) + Ends(b)
  {
    hide EndsValue;
    if a == "" {
      assert a + b == b && Ends(a) + Ends(b) == Ends(b);
    } else {
      EndsConcat(a[1..], b);
      assert (a + b)[0] == a[0] && (a + b)[1..] == a[1..] + b;
      Joined(if EndsValue(a[0]) then [a[0]] else "", Ends(a[1..]), Ends(b));
    }
  }

  lemma {:induction false} NoEnds(s: string)
    requires forall i | 0 <= i < |s| :: !EndsValue(s[i])
    ensures Ends(s) == ""
  {
    if s != "" {
      NoEnds(s[1..]);
    }
  }

  lemma ReplacedKeepsEnds(front: string, cut: string, rest: string, w: string, rest': string)
    requires Ends(w) == "" && Ends(cut) == "" && Ends(rest') == Ends(rest)
    ensures Ends(front + (cut + rest)) == Ends(front + (w + rest'))
  {
    hide Ends;
    EndsConcat(front, cut + rest);
    EndsConcat(cut, rest);
    EndsConcat(front, w + rest');
    EndsConcat(w, rest');
  }

  lemma ReplacedParts(s: string, r: string, w: string, from: nat, to: nat)
    requires IsReplaced(s, r, w, from, to)
    ensures s == s[..from] + (s[from..to] + s[to..])
    ensures r == s[..from] + (w + r[from + |w|..])
  {
    hide EndsValue;
    assert r == r[..from + |w|] + r[from + |w|..];
  }

  lemma {:induction false} RewritingKeepsEnds(s: string, r: string, w: string)
    requires IsRewriting(s, r, w) && Ends(w) == ""
    ensures Ends(r) == Ends(s)
    decreases |s|
  {
    hide Ends, EndsValue;
    if s != r {
      var from: nat, to: nat :| IsReplaced(s, r, w, from, to) && IsRewriting(s[to..], r[from + |w|..], w);
      hide IsRewriting;
      RewritingKeepsEnds(s[to..], r[from + |w|..], w);
      ReplacedParts(s, r, w, from, to);
      NoEnds(s[from..to]);
      hide IsReplaced;
      ReplacedKeepsEnds(s[..from], s[from..to], s[to..], w, r[from + |w|..]);
    }
  }

  lemma MarksEndNothing()
    ensures Ends("~") == "" && Ends(REDACTED) == ""
  {
    NoEnds("~");
    NoEnds(REDACTED);
  }

  lemma {:induction false} SeparatorsKeepEnds(s: string, key: string, j: nat)
    ensures Ends(SeparatorsMarked(s, key, j)) == Ends(s)
    decreases |SEPARATORS| - j
  {
    hide Ends, Marked, IsRewriting;
    if j < |SEPARATORS| {
      var p := Needle(key, SEPARATORS[j]);
      MarkedRewrites(s, p, true);
      MarksEndNothing();
      RewritingKeepsEnds(s, Marked(s, p, true), REDACTED);
      SeparatorsKeepEnds(Marked(s, p, true), key, j + 1);
    }
  }

  lemma {:induction false} KeysKeepEnds(s: string, i: nat)
    ensures Ends(KeysMarked(s, i)) == Ends(s)
    decreases |KEYS| - i
  {
    hide Ends, SeparatorsMarked;
    if i < |KEYS| {
      SeparatorsKeepEnds(s, KEYS[i], 0);
      KeysKeepEnds(SeparatorsMarked(s, KEYS[i], 0), i + 1);
    }
  }

  /** Redaction never runs over the end of a value: once the home directory is replaced, all white
      space, quotes, commas, semicolons and braces of the message are in the redacted text, in order. */
  lemma RedactionKeepsEnds(message: string, home: Option<string>)
    ensures Ends(RedactedText(message, home)) == Ends(WithoutHome(message, home))
  {
    hide Ends, Marked, Swept, IsRewriting, WithoutHome, KeysMarked;
    Sweepables();
    MarksEndNothing();
    var a := WithoutHome(message, home);
    var b := Swept(a, HOME_PATH, "~");
    var c := Swept(b, USERS_PATH, "~");
    var d := Marked(c, BEARER, false);
    var e := Swept(d, TOKEN, REDACTED);
    SweptRewrites(a, HOME_PATH, "~");
    RewritingKeepsEnds(a, b, "~");
    SweptRewrites(b, USERS_PATH, "~");
    RewritingKeepsEnds(b, c, "~");
    MarkedRewrites(c, BEARER, false);
    RewritingKeepsEnds(c, d, REDACTED);
    SweptRewrites(d, TOKEN, REDACTED);
    RewritingKeepsEnds(d, e, REDACTED);
    KeysKeepEnds(e, 0);
  }

  // ----- messages with nothing to redact -----

  lemma SweptWithout(s: string, p: Pattern, w: string)
    requires IsSweepable(p) && IsFree(s, p)
    ensures Swept(s, p, w) == s
  {
  }

  lemma MarkedWithout(s: string, p: Pattern, skips: bool)
    requires p.text != "" && IsFree(s, p)
    ensures Marked(s, p, skips) == s
  {
  }

  /** No pattern that redaction looks for is in the text. */
  ghost predicate IsPlain(s: string) {
    && IsClean(s) && IsFree(s, BEARER)
    && forall i, j | 0 <= i < |KEYS| && 0 <= j < |SEPARATORS| :: IsFree(s, Needle(KEYS[i], SEPARATORS[j]))
  }

  lemma {:induction false} SeparatorsWithout(s: string, i: nat, j: nat)
    requires IsPlain(s) && i < |KEYS|
    ensures SeparatorsMarked(s, KEYS[i], j) == s
    decreases |SEPARATORS| - j
  {
    hide IsFree, Marked, IsClean;
    if j < |SEPARATORS| {
      MarkedWithout(s, Needle(KEYS[i], SEPARATORS[j]), true);
      SeparatorsWithout(s, i, j + 1);
    }
  }

  lemma {:induction false} KeysWithout(s: string, i: nat)
    requires IsPlain(s)
    ensures KeysMarked(s, i) == s
    decreases |KEYS| - i
  {
    hide IsPlain, SeparatorsMarked;
    if i < |KEYS| {
      SeparatorsWithout(s, i, 0);
      KeysWithout(s, i + 1);
    }
  }

  /** A message with none of the patterns in it, once the home directory is replaced, is kept as it is. */
  lemma PlainStays(message: string, home: Option<string>)
    requires IsPlain(WithoutHome(message, home))
    ensures RedactedText(message, home) == WithoutHome(message, home)
  {
    hide Marked, Swept, WithoutHome, KeysMarked, IsFree;
    Sweepables();
    var s := WithoutHome(message, home);
    SweptWithout(s, HOME_PATH, "~");
    SweptWithout(s, USERS_PATH, "~");
    MarkedWithout(s, BEARER, false);
    SweptWithout(s, TOKEN, REDACTED);
    KeysWithout(s, 0);
  }

  lemma SeenAtMatch(s: string, i: nat, p: Pattern, k: nat)
    requires MatchesAt(s, i, p) && k < |p.text|
    ensures i + k < |s| && p.Seen(s[i + k]) == p.text[k]
  {
    assert p.Seen(s[i + k]) == p.text[(i + k) - i];
  }

  /** A pattern does not occur in a text that lacks one of its characters. */
  lemma LacksPattern(s: string, p: Pattern, k: nat)
    requires k < |p.text| && forall i | 0 <= i < |s| :: p.Seen(s[i]) != p.text[k]
    ensures IsFree(s, p)
  {
    if i: nat :| MatchesAt(s, i, p) {
      SeenAtMatch(s, i, p, k);
      assert false;
    }
  }

  /** Without a slash, a hyphen, an equals sign and a colon there is no path, token or key. */
  predicate HasNoMarks(s: string) {
    forall i | 0 <= i < |s| :: s[i] != '/' && s[i] != '-' && s[i] != '=' && s[i] != ':'
  }

  lemma SeparatorEnds(key: string, separator: string)
    requires separator in SEPARATORS
    ensures var p := Needle(key, separator);
            p.anyCase && p.text != "" && (p.text[|p.text| - 1] == '=' || p.text[|p.text| - 1] == ':')
  {
    var t := Lowered(key) + separator;
    assert t[|t| - 1] == separator[|separator| - 1];
  }

  lemma NoMarksNoNeedle(s: string, key: string, separator: string)
    requires HasNoMarks(s) && separator in SEPARATORS
    ensures IsFree(s, Needle(key, separator))
  {
    SeparatorEnds(key, separator);
    var p := Needle(key, separator);
    LacksPattern(s, p, |p.text| - 1);
  }

  lemma NoMarksIsClean(s: string)
    requires HasNoMarks(s)
    ensures IsClean(s)
  {
    LacksPattern(s, HOME_PATH, 0);
    LacksPattern(s, USERS_PATH, 0);
    LacksPattern(s, TOKEN, 2);
  }

  lemma NoMarksIsPlain(s: string)
    requires HasNoMarks(s) && IsFree(s, BEARER)
    ensures IsPlain(s)
  {
    hide IsFree, HasNoMarks, IsClean;
    NoMarksIsClean(s);
    forall i, j | 0 <= i < |KEYS| && 0 <= j < |SEPARATORS| ensures IsFree(s, Needle(KEYS[i], SEPARATORS[j])) {
      NoMarksNoNeedle(s, KEYS[i], SEPARATORS[j]);
    }
  }

  // ----- inputs on which redaction stops short -----

  const TWO_BEARERS: string := "bearer , bearer abc"

  /** The first `bearer ` has no value, so the loop gives up and the second keeps its own: the whole
      message comes back as it was. */
  lemma BearerStopsShort()
    ensures MeetsEmptyValue(TWO_BEARERS, BEARER, false)
    ensures RedactedText(TWO_BEARERS, None) == TWO_BEARERS
    ensures !IsMarked(RedactedText(TWO_BEARERS, None), BEARER, false)
  {
    assert BEARER.text != "" && !IsMarked(TWO_BEARERS, BEARER, false) by { FirstBearerIsBare(); }
    var s := TWO_BEARERS;
    Sweepables();
    assert HasNoMarks(s);
    NoMarksIsClean(s);
    SweptWithout(s, HOME_PATH, "~");
    SweptWithout(s, USERS_PATH, "~");
    FirstBearer();
    SweptWithout(s, TOKEN, REDACTED);
    KeysLacking(s, 0);
  }

  lemma FirstBearerIsBare()
    ensures !IsMarked(TWO_BEARERS, BEARER, false)
  {
    var s := TWO_BEARERS;
    assert MatchesAt(s, 0, BEARER) by {
      assert forall j | 0 <= j < 7 :: BEARER.Seen(s[j]) == BEARER.text[j];
    }
    assert s[7..17] != REDACTED by { assert s[7..17][0] == s[7]; }
  }

  lemma FirstBearer()
    ensures NextRound(TWO_BEARERS, BEARER, false) == HasNoValue
  {
    var s := TWO_BEARERS;
    assert MatchesAt(s, 0, BEARER) by {
      assert forall j | 0 <= j < 7 :: BEARER.Seen(s[j]) == BEARER.text[j];
    }
    assert NextMatch(s, BEARER, 0) == Some(0);
    assert s[7] == ',' && EndsValue(s[7]) && ValueEnd(s, 7) == 7;
    assert s[7..17] != REDACTED by { assert s[7..17][0] == s[7]; }
  }

  lemma {:induction false} SeparatorsLacking(s: string, key: string, j: nat)
    requires HasNoMarks(s)
    ensures SeparatorsMarked(s, key, j) == s
    decreases |SEPARATORS| - j
  {
    hide IsFree, Marked, HasNoMarks;
    if j < |SEPARATORS| {
      NoMarksNoNeedle(s, key, SEPARATORS[j]);
      MarkedWithout(s, Needle(key, SEPARATORS[j]), true);
      SeparatorsLacking(s, key, j + 1);
    }
  }

  lemma {:induction false} KeysLacking(s: string, i: nat)
    requires HasNoMarks(s)
    ensures KeysMarked(s, i) == s
    decreases |KEYS| - i
  {
    hide HasNoMarks, SeparatorsMarked;
    if i < |KEYS| {
      SeparatorsLacking(s, KEYS[i], 0);
      KeysLacking(s, i + 1);
    }
  }

  const SWALLOWED_BEARER: string := "sk-bearer , x"

  /** A needle without a value that a later loop takes away: its own loop gives up at it, and yet none
      is left bare in the redacted text. */
  lemma BearerIsSwallowed()
    ensures MeetsEmptyValue(BeforeBearer(SWALLOWED_BEARER, None), BEARER, false)
    ensures RedactedText(SWALLOWED_BEARER, None) == REDACTED + " , x"
    ensures IsMarked(RedactedText(SWALLOWED_BEARER, None), BEARER, false)
  {
    hide IsMarked, Swept, KeysMarked, MatchesAt, IsFree;
    var s, r := SWALLOWED_BEARER, REDACTED + " , x";
    Sweepables();
    NothingBeforeBearer(s);
    SwallowedBearer();
    EmptyEnds(s, BEARER, false);
    SwallowedToken();
    hide RedactedText, Marked, MeetsEmptyValue;
    AllKeys(s, None);
    RestIsPlain(r);
    KeysLacking(r, 0);
    FreeIsMarked(r, BEARER, false);
  }

  lemma EmptyEnds(s: string, p: Pattern, skips: bool)
    requires p.text != "" && NextRound(s, p, skips) == HasNoValue
    ensures Marked(s, p, skips) == s && MeetsEmptyValue(s, p, skips)
  {
  }

  lemma NothingBeforeBearer(s: string)
    requires forall i | 0 <= i < |s| :: s[i] != '/'
    ensures BeforeBearer(s, None) == s
  {
    hide Swept;
    Sweepables();
    NoSlashNoPaths(s);
    SweptWithout(s, HOME_PATH, "~");
    SweptWithout(s, USERS_PATH, "~");
  }

  lemma FreeIsMarked(s: string, p: Pattern, skips: bool)
    requires IsFree(s, p)
    ensures IsMarked(s, p, skips)
  {
  }

  lemma RestIsPlain(r: string)
    requires r == REDACTED + " , x"
    ensures HasNoMarks(r) && IsFree(r, BEARER)
  {
    LacksPattern(r, BEARER, 0);
  }

  lemma NoSlashNoPaths(s: string)
    requires forall i | 0 <= i < |s| :: s[i] != '/'
    ensures IsFree(s, HOME_PATH) && IsFree(s, USERS_PATH)
  {
    LacksPattern(s, HOME_PATH, 0);
    LacksPattern(s, USERS_PATH, 0);
  }

  lemma SwallowedBearer()
    ensures NextRound(SWALLOWED_BEARER, BEARER, false) == HasNoValue
  {
    var s := SWALLOWED_BEARER;
    assert MatchesAt(s, 3, BEARER) by {
      assert forall j | 3 <= j < 10 :: BEARER.Seen(s[j]) == BEARER.text[j - 3];
    }
    assert s[0] == 's' && s[1] == 'k' && s[2] == '-';
    NoneBefore(s, BEARER);
    assert s[10] == ',' && EndsValue(s[10]) && ValueEnd(s, 10) == 10;
    assert |s| == 13;
  }

  lemma NoneBefore(s: string, p: Pattern)
    requires p.text != "" && |s| >= 3 && MatchesAt(s, 3, p) && forall j | 0 <= j < 3 :: p.Seen(s[j]) != p.text[0]
    ensures NextMatch(s, p, 0) == Some(3)
  {
    hide MatchesAt;
    forall i: nat | i < 3 ensures !MatchesAt(s, i, p) {
      if MatchesAt(s, i, p) {
        SeenAtMatch(s, i, p, 0);
      }
    }
    assert NextMatch(s, p, 2) == NextMatch(s, p, 3) == Some(3);
    assert NextMatch(s, p, 0) == NextMatch(s, p, 1) == NextMatch(s, p, 2);
  }

  lemma SwallowedToken()
    ensures IsSweepable(TOKEN) && Swept(SWALLOWED_BEARER, TOKEN, REDACTED) == REDACTED + " , x"
  {
    var s, rest := SWALLOWED_BEARER, " , x";
    Sweepables();
    assert MatchesAt(s, 0, TOKEN) by {
      assert forall j | 0 <= j < 3 :: TOKEN.Seen(s[j]) == TOKEN.text[j];
    }
    assert NextMatch(s, TOKEN, 0) == Some(0);
    assert ValueEnd(s, 0) == 9 by { EndOfFirst(s, 9); }
    assert s[9..] == rest && s[..0] == "";
    LacksPattern(rest, TOKEN, 0);
    SweptWithout(rest, TOKEN, REDACTED);
    assert "" + REDACTED + rest == REDACTED + rest;
  }

  lemma EndOfFirst(s: string, n: nat)
    requires n < |s| && EndsValue(s[n]) && forall j | 0 <= j < n :: !EndsValue(s[j])
    ensures ValueEnd(s, 0) == n
  {
    ValueEndIs(s, 0);
  }

  /** 3999 letters, a character of two bytes, and one letter more. */
  function LongText(): string {
    seq(3999, i => 'a') + [198 as char] + "a"
  }

  /** Byte 4000 of this message lies inside a character, so redacting it panics. */
  lemma SomeTextsPanic()
    ensures RedactedText(LongText(), None) == LongText()
    ensures Redacted(LongText(), None) == None
  {
    var s := LongText();
    assert HasNoMarks(s);
    LacksPattern(s, BEARER, 6);
    NoMarksIsPlain(s);
    PlainStays(s, None);
    NoCut();
  }

  lemma NoCut()
    ensures Bytes(LongText()) > MAX_BYTES && CutAt(LongText(), MAX_BYTES, 0) == None
  {
    var t := LongText();
    LongPrefix();
    BytesOfPrefix(t, 4000);
    if CutAt(t, MAX_BYTES, 0).Some? {
      var kept := CutAt(t, MAX_BYTES, 0).value;
      assert t[..|kept|] == kept;
      NotCutHere(|kept|);
    }
  }

  lemma LongPrefix()
    ensures Bytes(LongText()[..3999]) == 3999 && Bytes(LongText()[..4000]) == 4001
  {
    var t := LongText();
    assert t[..3999] == seq(3999, i => 'a');
    BytesOfAscii(t[..3999]);
    assert t[..4000][..3999] == t[..3999] && t[..4000][3999] == 198 as char;
  }

  lemma NotCutHere(n: nat)
    requires n <= |LongText()|
    ensures Bytes(LongText()[..n]) != MAX_BYTES
  {
    var t := LongText();
    LongPrefix();
    if n <= 3999 {
      assert t[..3999][..n] == t[..n];
      BytesOfPrefix(t[..3999], n);
    } else {
      assert t[..n][..4000] == t[..4000];
      BytesOfPrefix(t[..n], 4000);
    }
  }
}
