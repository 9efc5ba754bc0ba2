/** What redaction makes of a text: functions that follow the text from left to right, and what they
    keep, remove and leave. */
module RedactionText {
  import opened Text

  // ----- patterns -----

  function Lower(c: char): char {
    if 'A' <= c <= 'Z' then c - 'A' + 'a' else c
  }

  function Lowered(s: string): (r: string)
    ensures |r| == |s|
  {
    seq(|s|, i requires 0 <= i < |s| => Lower(s[i]))
  }

  /** A text to look for, either exactly or in any ASCII case; then `text` is in lower case. */
  datatype Pattern = Pattern(text: string, anyCase: bool) {
    function Seen(c: char): char {
      if anyCase then Lower(c) else c
    }
  }

  predicate MatchesAt(s: string, i: nat, p: Pattern) {
    i + |p.text| <= |s| && forall j | i <= j < i + |p.text| :: p.Seen(s[j]) == p.text[j - i]
  }

  /** The pattern occurs nowhere in the text. */
  ghost predicate IsFree(s: string, p: Pattern) {
    forall i: nat :: !MatchesAt(s, i, p)
  }

  /** The pattern can neither begin in this text nor run into it. */
  predicate IsWall(w: string, p: Pattern) {
    && p.text != "" && w != "" && p.Seen(w[0]) !in p.text
    && forall c <- w :: p.Seen(c) != p.text[0]
  }

  /** An occurrence beside a wall lies on one side of it. */
  lemma MatchBesideWall(a: string, w: string, c: string, p: Pattern, i: nat)
    requires IsWall(w, p) && MatchesAt(a + w + c, i, p)
    ensures MatchesAt(a, i, p) || (i >= |a| + |w| && MatchesAt(c, i - |a| - |w|, p))
  {
    var s := a + w + c;
    assert p.Seen(s[i]) == p.text[0];
    assert forall j | |a| <= j < |a| + |w| :: s[j] == w[j - |a|] && s[j] in w;
    assert |a| < |s| && s[|a|] == w[0];
    assert forall j | i <= j < i + |p.text| :: p.Seen(s[j]) in p.text;
    if i >= |a| + |w| {
      assert forall j | 0 <= j < |c| :: c[j] == s[j + |a| + |w|];
    } else {
      assert i + |p.text| <= |a|;
      assert forall j | 0 <= j < |a| :: a[j] == s[j];
    }
  }

  /** Putting a wall between two texts makes no new occurrence. */
  lemma WallKeepsFree(a: string, w: string, c: string, p: Pattern)
    requires IsFree(a, p) && IsFree(c, p) && IsWall(w, p)
    ensures IsFree(a + w + c, p)
  {
    forall i: nat ensures !MatchesAt(a + w + c, i, p) {
      if MatchesAt(a + w + c, i, p) {
        MatchBesideWall(a, w, c, p, i);
      }
    }
  }

  lemma PartMatch(s: string, from: nat, to: nat, p: Pattern, i: nat)
    requires from <= to <= |s| && MatchesAt(s[from..to], i, p)
    ensures MatchesAt(s, from + i, p)
  {
    assert forall j | from <= j < to :: s[from..to][j - from] == s[j];
  }

  lemma PartIsFree(s: string, from: nat, to: nat, p: Pattern)
    requires IsFree(s, p) && from <= to <= |s|
    ensures IsFree(s[from..to], p)
  {
    forall i: nat ensures !MatchesAt(s[from..to], i, p) {
      if MatchesAt(s[from..to], i, p) {
        PartMatch(s, from, to, p, i);
      }
    }
  }

  /** Replacing a part of a free text by a wall leaves it free. */
  lemma ReplacedIsFree(s: string, from: nat, to: nat, w: string, p: Pattern)
    requires IsFree(s, p) && from <= to <= |s| && IsWall(w, p)
    ensures IsFree(s[..from] + w + s[to..], p)
  {
    PartIsFree(s, 0, from, p);
    PartIsFree(s, to, |s|, p);
    assert s[0..from] == s[..from] && s[to..|s|] == s[to..];
    WallKeepsFree(s[..from], w, s[to..], p);
  }

  // ----- matches and values -----

  predicate EndsValue(c: char) {
    IsSpace(c) || c == '"' || c == '\'' || c == ',' || c == ';' || c == '}'
  }

  /** Where the value that begins here ends. */
  function ValueEnd(s: string, from: nat): (to: nat)
    requires from <= |s|
    ensures from <= to <= |s|
    decreases |s| - from
  {
    if from < |s| && !EndsValue(s[from]) then ValueEnd(s, from + 1) else from
  }

  lemma {:induction false} ValueEndIs(s: string, from: nat)
    requires from <= |s|
    ensures var to := ValueEnd(s, from); (to < |s| ==> EndsValue(s[to])) && forall i | from <= i < to ::
            !EndsValue(s[i])
    decreases |s| - from
  {
    if from < |s| && !EndsValue(s[from]) {
      ValueEndIs(s, from + 1);
    }
  }

  /** The first place from here on where the pattern occurs. */
  function NextMatch(s: string, p: Pattern, from: nat): (r: Option<nat>)
    ensures r.Some? ==> from <= r.value && MatchesAt(s, r.value, p)
    decreases |s| + 1 - from
  {
    if from > |s| then None else if MatchesAt(s, from, p) then Some(from) else NextMatch(s, p, from + 1)
  }

  lemma {:induction false} NextMatchIs(s: string, p: Pattern, from: nat)
    ensures var r := NextMatch(s, p, from);
            if r.Some? then forall i: nat | from <= i < r.value :: !MatchesAt(s, i, p)
            else forall i: nat | from <= i :: !MatchesAt(s, i, p)
    decreases |s| + 1 - from
  {
    if from <= |s| && !MatchesAt(s, from, p) {
      NextMatchIs(s, p, from + 1);
    }
  }

  const REDACTED: string := "[redacted]"

  predicate IsRedactedAt(s: string, i: nat) {
    i + |REDACTED| <= |s| && s[i..i + |REDACTED|] == REDACTED
  }

  predicate IsPadding(c: char) {
    IsSpace(c) || c == '"' || c == '\''
  }

  /** Where the value after a needle begins: behind white space and quotes, if these are skipped. */
  function ValueStart(s: string, i: nat, skips: bool): (r: nat)
    requires i <= |s|
    ensures i <= r <= |s|
    decreases |s| - i
  {
    if skips && i < |s| && IsPadding(s[i]) then ValueStart(s, i + 1, skips) else i
  }

  lemma {:induction false} ValueStartIs(s: string, i: nat, skips: bool)
    requires i <= |s|
    ensures forall j | i <= j < ValueStart(s, i, skips) :: IsPadding(s[j])
    decreases |s| - i
  {
    if skips && i < |s| && IsPadding(s[i]) {
      ValueStartIs(s, i + 1, skips);
    }
  }

  // ----- sweeping: every match is replaced, with the rest of its value -----

  /** A pattern that lies within one value. */
  predicate IsSweepable(p: Pattern) {
    p.text != "" && forall c <- p.text :: !EndsValue(c)
  }

  lemma MatchIsInValue(s: string, at: nat, p: Pattern)
    requires IsSweepable(p) && MatchesAt(s, at, p)
    ensures at < |s| && !EndsValue(s[at])
  {
    assert p.Seen(s[at]) == p.text[0] && p.text[0] in p.text;
  }

  /** Every match, with what follows it up to the end of its value, replaced by w. */
  function Swept(s: string, p: Pattern, w: string): string
    requires IsSweepable(p)
    decreases |s|
  {
    match NextMatch(s, p, 0)
    case None => s
    case Some(at) =>
      MatchIsInValue(s, at, p);
      s[..at] + w + Swept(s[ValueEnd(s, at)..], p, w)
  }

  // ----- marking: the value behind every needle is replaced -----

  /** What the next needle of a text calls for: nothing, for there is none; going on behind a mark that
      is there already; giving up, for no value follows; or replacing a value. */
  datatype Round = NoNeedle | HasMark(upTo: nat) | HasNoValue | HasValue(from: nat, to: nat)

  function NextRound(s: string, p: Pattern, skips: bool): (r: Round)
    requires p.text != ""
    ensures r.HasMark? ==> 0 < r.upTo <= |s|
    ensures r.HasValue? ==> r.from < r.to <= |s|
  {
    match NextMatch(s, p, 0)
    case None => NoNeedle
    case Some(at) =>
      var from := ValueStart(s, at + |p.text|, skips);
      if IsRedactedAt(s, from) then HasMark(from + |REDACTED|)
      else if ValueEnd(s, from) == from then HasNoValue
      else HasValue(from, ValueEnd(s, from))
  }

  /** The value behind every needle replaced by the mark, unless the mark is there already; where a
      needle has no value, the rest stays as it is. */
  function Marked(s: string, p: Pattern, skips: bool): string
    requires p.text != ""
    decreases |s|
  {
    match NextRound(s, p, skips)
    case NoNeedle => s
    case HasMark(upTo) => s[..upTo] + Marked(s[upTo..], p, skips)
    case HasNoValue => s
    case HasValue(from, to) => s[..from] + REDACTED + Marked(s[to..], p, skips)
  }

  /** Going through the text like this meets a needle that no value follows. */
  predicate MeetsEmptyValue(s: string, p: Pattern, skips: bool)
    requires p.text != ""
    decreases |s|
  {
    match NextRound(s, p, skips)
    case NoNeedle => false
    case HasMark(upTo) => MeetsEmptyValue(s[upTo..], p, skips)
    case HasNoValue => true
    case HasValue(_, to) => MeetsEmptyValue(s[to..], p, skips)
  }

  // ----- the whole -----

  const KEYS: seq<string> := [
    "access_token", "refresh_token", "id_token", "authorization", "password",
    "session_secret", "sessionSecret", "hcaptchaSecretKey", "webhookUrl", "slackWebhookUrl"
  ]

  const SEPARATORS: seq<string> := ["=", ":", "\":", "':"]

  const HOME_PATH: Pattern := Pattern("/home/", false)
  const USERS_PATH: Pattern := Pattern("/Users/", false)
  const BEARER: Pattern := Pattern("bearer ", true)

  const MAX_BYTES: nat := 4000
  const TRUNCATED: string := "...[truncated]"

  const TOKEN: Pattern := Pattern("sk-", true)

  lemma Sweepables()
    ensures IsSweepable(HOME_PATH) && IsSweepable(USERS_PATH) && IsSweepable(TOKEN)
  {
  }

  function Needle(key: string, separator: string): (p: Pattern)
    ensures separator != "" ==> p.text != ""
  {
    Pattern(Lowered(key) + separator, true)
  }

  /** The passes over the separators from the j-th on, and over the keys from the i-th on. */
  function SeparatorsMarked(s: string, key: string, j: nat): string
    decreases |SEPARATORS| - j
  {
    if j >= |SEPARATORS| then s else SeparatorsMarked(Marked(s, Needle(key, SEPARATORS[j]), true), key, j + 1)
  }

  function KeysMarked(s: string, i: nat): string
    decreases |KEYS| - i
  {
    if i >= |KEYS| then s else KeysMarked(SeparatorsMarked(s, KEYS[i], 0), i + 1)
  }

  function WithoutHome(message: string, home: Option<string>): string {
    if home.Some? && Trim(home.value) != "" && Trim(home.value) != "/" then Replace(message, Trim(home.value), "~")
    else message
  }

  function WithoutPaths(s: string): string {
    Sweepables();
    Swept(Swept(s, HOME_PATH, "~"), USERS_PATH, "~")
  }

  /** The redacted text of a message, before it is cut. */
  function RedactedText(message: string, home: Option<string>): string {
    Sweepables();
    KeysMarked(Swept(Marked(WithoutPaths(WithoutHome(message, home)), BEARER, false), TOKEN, REDACTED), 0)
  }

  /** How many bytes a character takes in UTF-8. */
  function Width(c: char): (n: nat)
    ensures 1 <= n <= 4
  {
    var code := c as int;
    if code < 0x80 then 1 else if code < 0x800 then 2 else if code < 0x10000 then 3 else 4
  }

  function Bytes(s: string): nat {
    if s == "" then 0 else Bytes(s[..|s| - 1]) + Width(s[|s| - 1])
  }

  lemma {:induction false} BytesOfPrefix(s: string, n: nat)
    requires n <= |s|
    ensures Bytes(s[..n]) <= Bytes(s)
    ensures n < |s| ==> Bytes(s[..n]) < Bytes(s)
  {
    if n < |s| {
      assert s[..|s| - 1][..n] == s[..n];
      BytesOfPrefix(s[..|s| - 1], n);
    } else {
      assert s[..n] == s;
    }
  }

  lemma {:induction false} BytesConcat(a: string, b: string)
    ensures Bytes(a + b) == Bytes(a) + Bytes(b)
  {
    if b == "" {
      assert a + b == a;
    } else {
      assert (a + b)[..|a + b| - 1] == a + b[..|b| - 1];
      BytesConcat(a, b[..|b| - 1]);
    }
  }

  /** The text can be cut after so many bytes: a character ends there. */
  ghost predicate IsBoundary(s: string, bytes: nat) {
    exists n: nat :: n <= |s| && Bytes(s[..n]) == bytes
  }

  /** The text up to the first place from the n-th character on where it has so many bytes. */
  function CutAt(s: string, bytes: nat, n: nat): (r: Option<string>)
    ensures r.Some? ==> r.value <= s && Bytes(r.value) == bytes
    ensures r.None? ==> forall k: nat | n <= k <= |s| :: Bytes(s[..k]) != bytes
    decreases |s| + 1 - n
  {
    if n > |s| then None else if Bytes(s[..n]) == bytes then Some(s[..n]) else CutAt(s, bytes, n + 1)
  }

  /** What `redact_user_facing_error` returns; None where cutting the text panics. */
  function Redacted(message: string, home: Option<string>): Option<string> {
    var text := RedactedText(message, home);
    if Bytes(text) <= MAX_BYTES then Some(text)
    else match CutAt(text, MAX_BYTES, 0)
      case None => None
      case Some(kept) => Some(kept + TRUNCATED)
  }
}
