/** Where a secret stands and what is put in its place, told by the characters of the text: behind a key and
    its separator white space and quotes are passed over, and the stretch up to the next white space, quote,
    comma, semicolon or brace is replaced by the mark. */
module RedactionSecrets {
  import opened Text
  import opened RedactionText
  import opened Redaction
  import opened RedactionLaws
  import opened RedactionMarks

  /** White space and quotes only. */
  predicate IsGap(q: string) {
    forall c <- q :: IsSpace(c) || c == '"' || c == '\''
  }

  /** Something, with nothing in it that ends a value. */
  predicate IsStretch(v: string) {
    v != "" && forall c <- v :: !IsSpace(c) && c != '"' && c != '\'' && c != ',' && c != ';' && c != '}'
  }

  /** A text before which a stretch ends. */
  predicate Stops(rest: string) {
    rest == "" || IsSpace(rest[0]) || rest[0] in ['"', '\'', ',', ';', '}']
  }

  /** The text is an occurrence of the pattern. */
  predicate Shows(n: string, p: Pattern) {
    |n| == |p.text| && forall j | 0 <= j < |n| :: p.Seen(n[j]) == p.text[j]
  }

  // ----- scanning over gaps and stretches -----

  lemma {:induction false} GapIsPassed(s: string, i: nat, k: nat)
    requires i <= k <= |s| && IsGap(s[i..k])
    requires k < |s| ==> !IsSpace(s[k]) && s[k] != '"' && s[k] != '\''
    ensures ValueStart(s, i, true) == k
    decreases k - i
  {
    if i < k {
      assert s[i] == s[i..k][0] && s[i] in s[i..k];
      assert s[i + 1..k] == s[i..k][1..] && forall c <- s[i + 1..k] :: c in s[i..k];
      GapIsPassed(s, i + 1, k);
    }
  }

  lemma {:induction false} StretchIsPassed(s: string, i: nat, k: nat)
    requires i < k <= |s| && IsStretch(s[i..k]) && Stops(s[k..])
    ensures ValueEnd(s, i) == k
    decreases k - i
  {
    assert s[i] == s[i..k][0] && s[i] in s[i..k];
    if i + 1 < k {
      assert s[i + 1..k] == s[i..k][1..] && forall c <- s[i + 1..k] :: c in s[i..k];
      StretchIsPassed(s, i + 1, k);
    } else {
      assert k < |s| ==> s[k..][0] == s[k];
    }
  }

  lemma ShownMatches(a: string, n: string, b: string, p: Pattern)
    requires Shows(n, p)
    ensures MatchesAt(a + n + b, |a|, p)
  {
    var s := a + n + b;
    assert forall j | |a| <= j < |a| + |n| :: s[j] == n[j - |a|];
  }

  lemma FirstIsNext(s: string, p: Pattern, at: nat)
    requires MatchesAt(s, at, p) && forall i: nat | i < at :: !MatchesAt(s, i, p)
    ensures NextMatch(s, p, 0) == Some(at)
  {
    NextMatchIs(s, p, 0);
    hide MatchesAt, NextMatch;
  }

  // ----- one secret -----

  /** Where things are in a text that shows a needle, a gap, a stretch and what stops it. */
  lemma Places(a: string, n: string, q: string, v: string, rest: string)
    ensures var s := a + n + q + v + rest; var i := |a| + |n|; var k := i + |q|; var to := k + |v|;
            && s[..|a|] == a && s[i..k] == q && s[k..to] == v && s[to..] == rest && s[..k] == a + n + q
            && s == a + n + (q + v + rest) && to <= |s|
  {
  }

  lemma RoundThere(a: string, n: string, q: string, v: string, rest: string, p: Pattern, skips: bool)
    requires Shows(n, p) && p.text != "" && IsGap(q) && (skips || q == "") && IsStretch(v) && Stops(rest)
    requires forall i: nat | i < |a| :: !MatchesAt(a + n + q + v + rest, i, p)
    ensures var s := a + n + q + v + rest; var k := |a| + |n| + |q|;
            NextRound(s, p, skips)
            == if IsRedactedAt(s, k) then HasMark(k + |REDACTED|) else HasValue(k, k + |v|)
  {
    hide MatchesAt, NextMatch, ValueStart, ValueEnd, IsRedactedAt, Shows;
    var s := a + n + q + v + rest;
    var i := |a| + |n|;
    var k := i + |q|;
    Places(a, n, q, v, rest);
    ShownMatches(a, n, q + v + rest, p);
    FirstIsNext(s, p, |a|);
    LengthShown(n, p);
    assert s[k] == v[0] && v[0] in v;
    GapOrNone(s, i, k, skips);
    StretchIsPassed(s, k, k + |v|);
  }

  lemma LengthShown(n: string, p: Pattern)
    requires Shows(n, p)
    ensures |n| == |p.text|
  {
  }

  lemma GapOrNone(s: string, i: nat, k: nat, skips: bool)
    requires i <= k < |s| && IsGap(s[i..k]) && (skips || i == k)
    requires !IsSpace(s[k]) && s[k] != '"' && s[k] != '\''
    ensures ValueStart(s, i, skips) == k
  {
    if skips {
      GapIsPassed(s, i, k);
    }
  }

  /** Behind the first needle of a text, and the gap that is passed over behind it, the stretch is replaced
      by the mark, and it goes on behind the stretch; unless the stretch begins with the mark already. */
  lemma StretchIsMarked(a: string, n: string, q: string, v: string, rest: string, p: Pattern, skips: bool)
    requires Shows(n, p) && p.text != "" && IsGap(q) && (skips || q == "") && IsStretch(v) && Stops(rest)
    requires forall i: nat | i < |a| :: !MatchesAt(a + n + q + v + rest, i, p)
    requires !("[redacted]" <= v)
    ensures Marked(a + n + q + v + rest, p, skips) == a + n + q + "[redacted]" + Marked(rest, p, skips)
    ensures MeetsEmptyValue(a + n + q + v + rest, p, skips) == MeetsEmptyValue(rest, p, skips)
  {
    hide NextRound, IsRedactedAt, MatchesAt, Shows;
    RoundThere(a, n, q, v, rest, p, skips);
    Places(a, n, q, v, rest);
    NoMarkThere(a + n + q, v, rest);
  }

  lemma NoMarkThere(front: string, v: string, rest: string)
    requires Stops(rest) && !("[redacted]" <= v)
    ensures !IsRedactedAt(front + v + rest, |front|)
  {
    if IsRedactedAt(front + v + rest, |front|) {
      MarkIsInStretch(front, v, rest);
    }
  }

  lemma MarkIsInStretch(front: string, v: string, rest: string)
    requires Stops(rest) && IsRedactedAt(front + v + rest, |front|)
    ensures "[redacted]" <= v
  {
    MarkFillsStretch(front, v, rest);
    var s, k := front + v + rest, |front|;
    assert v == s[k..k + |v|] && v[..10] == s[k..k + 10];
  }

  lemma MarkFillsStretch(front: string, v: string, rest: string)
    requires Stops(rest) && IsRedactedAt(front + v + rest, |front|)
    ensures |v| >= 10
  {
    var s, k := front + v + rest, |front|;
    if |v| < 10 {
      assert s[k + |v|] == rest[0];
      MarkNeverStops(s, k, |v|);
    }
  }

  lemma MarkNeverStops(s: string, k: nat, j: nat)
    requires IsRedactedAt(s, k) && j < 10
    ensures !IsSpace(s[k + j]) && s[k + j] !in ['"', '\'', ',', ';', '}']
  {
    assert s[k + j] == s[k..k + 10][j] == REDACTED[j];
  }

  /** Where the mark is there already, it stays, and it goes on behind the mark. */
  lemma MarkIsPassed(a: string, n: string, q: string, rest: string, p: Pattern, skips: bool)
    requires Shows(n, p) && p.text != "" && IsGap(q) && (skips || q == "")
    requires forall i: nat | i < |a| :: !MatchesAt(a + n + q + "[redacted]" + rest, i, p)
    ensures Marked(a + n + q + "[redacted]" + rest, p, skips) == a + n + q + "[redacted]" + Marked(rest, p, skips)
    ensures MeetsEmptyValue(a + n + q + "[redacted]" + rest, p, skips) == MeetsEmptyValue(rest, p, skips)
  {
    hide NextRound, MatchesAt, Shows;
    var s := a + n + q + REDACTED + rest;
    var i := |a| + |n|;
    var k := i + |q|;
    Places(a, n, q, REDACTED, rest);
    ShownMatches(a, n, q + REDACTED + rest, p);
    FirstIsNext(s, p, |a|);
    LengthShown(n, p);
    assert s[k] == '[';
    GapOrNone(s, i, k, skips);
    assert IsRedactedAt(s, k);
    RoundHasMark(s, p, skips, |a|, k);
    assert s[..k + |REDACTED|] == a + n + q + REDACTED && s[k + |REDACTED|..] == rest;
  }

  lemma RoundHasMark(s: string, p: Pattern, skips: bool, at: nat, k: nat)
    requires p.text != "" && NextMatch(s, p, 0) == Some(at) && at + |p.text| <= |s|
    requires ValueStart(s, at + |p.text|, skips) == k && IsRedactedAt(s, k)
    ensures NextRound(s, p, skips) == HasMark(k + |REDACTED|)
  {
    hide MatchesAt, NextMatch, ValueStart, IsRedactedAt;
  }

  /** A path or a token is replaced from where it begins to where its stretch ends. */
  lemma StretchIsSwept(a: string, v: string, rest: string, p: Pattern, w: string)
    requires IsSweepable(p) && IsStretch(v) && Stops(rest) && MatchesAt(a + v + rest, |a|, p)
    requires forall i: nat | i < |a| :: !MatchesAt(a + v + rest, i, p)
    ensures Swept(a + v + rest, p, w) == a + w + Swept(rest, p, w)
  {
    hide MatchesAt, NextMatch, ValueEnd, IsSweepable;
    var s := a + v + rest;
    FirstIsNext(s, p, |a|);
    assert s[|a|..|a| + |v|] == v && s[|a| + |v|..] == rest && s[..|a|] == a;
    StretchIsPassed(s, |a|, |a| + |v|);
  }

  // ----- every needle followed by a value -----

  /** Between this needle and that place there is only a gap. */
  predicate IsBehind(s: string, p: Pattern, i: nat, k: nat) {
    i + |p.text| <= k <= |s|
    && forall j | i + |p.text| <= j < k :: IsSpace(s[j]) || s[j] == '"' || s[j] == '\''
  }

  predicate BeginsStretch(s: string, k: nat) {
    k < |s| && !IsSpace(s[k]) && s[k] != '"' && s[k] != '\'' && s[k] != ',' && s[k] != ';' && s[k] != '}'
  }

  /** Every needle of the text is followed, over a gap or none, by something that ends no value. */
  ghost predicate AllHaveValues(s: string, p: Pattern) {
    forall i: nat | MatchesAt(s, i, p) :: exists k: nat :: IsBehind(s, p, i, k) && BeginsStretch(s, k)
  }

  lemma RestHasValues(s: string, p: Pattern, from: nat)
    requires AllHaveValues(s, p) && from <= |s|
    ensures AllHaveValues(s[from..], p)
  {
    hide MatchesAt;
    var rest := s[from..];
    forall i: nat | MatchesAt(rest, i, p) ensures exists k: nat :: IsBehind(rest, p, i, k) && BeginsStretch(rest, k) {
      MatchInRest(s, from, i + from, p);
      var k: nat :| IsBehind(s, p, i + from, k) && BeginsStretch(s, k);
      assert forall j | from <= j < |s| :: rest[j - from] == s[j];
      assert IsBehind(rest, p, i, k - from) && BeginsStretch(rest, k - from);
    }
  }

  lemma StartThere(s: string, p: Pattern, i: nat, k: nat)
    requires IsBehind(s, p, i, k) && BeginsStretch(s, k)
    ensures ValueStart(s, i + |p.text|, true) == k && ValueEnd(s, k) > k
  {
    var q := s[i + |p.text|..k];
    forall c <- q ensures IsSpace(c) || c == '"' || c == '\'' {
      var j :| 0 <= j < |q| && q[j] == c;
      assert s[i + |p.text| + j] == c;
    }
    GapIsPassed(s, i + |p.text|, k);
    EndsBehind(s, k);
  }

  /** Then going through the text meets no needle without a value. */
  lemma {:induction false} NoneIsEmpty(s: string, p: Pattern)
    requires p.text != "" && AllHaveValues(s, p)
    ensures !MeetsEmptyValue(s, p, true)
    decreases |s|
  {
    hide AllHaveValues, MatchesAt, NextMatch, ValueStart, ValueEnd, IsRedactedAt;
    var round := NextRound(s, p, true);
    if round.HasNoValue? {
      ValueThere(s, p);
    } else if round.HasMark? {
      RestHasValues(s, p, round.upTo);
      NoneIsEmpty(s[round.upTo..], p);
    } else if round.HasValue? {
      RestHasValues(s, p, round.to);
      NoneIsEmpty(s[round.to..], p);
    }
  }

  lemma ValueThere(s: string, p: Pattern)
    requires p.text != "" && AllHaveValues(s, p)
    ensures !NextRound(s, p, true).HasNoValue?
  {
    hide MatchesAt, NextMatch, ValueStart, ValueEnd, IsRedactedAt, IsBehind, BeginsStretch;
    var next := NextMatch(s, p, 0);
    if next.Some? {
      var k: nat :| IsBehind(s, p, next.value, k) && BeginsStretch(s, k);
      StartThere(s, p, next.value, k);
    }
  }

  /** So if in the text that its loop is given every key with its separator is followed by a value, then in
      the redacted text every one of them is followed, over a gap or none, by the mark. */
  lemma SecretsAreReplaced(message: string, home: Option<string>, i: nat, j: nat)
    requires i < |KEYS| && j < |SEPARATORS|
    requires AllHaveValues(BeforeKey(message, home, i, j), Needle(KEYS[i], SEPARATORS[j]))
    ensures var r, p := RedactedText(message, home), Needle(KEYS[i], SEPARATORS[j]);
            forall m: nat | MatchesAt(r, m, p) ::
              exists k: nat :: IsBehind(r, p, m, k) && k + 10 <= |r| && r[k..k + 10] == "[redacted]"
  {
    hide AllHaveValues, MatchesAt, RedactedText, BeforeKey, Needle;
    var r, p := RedactedText(message, home), Needle(KEYS[i], SEPARATORS[j]);
    HasSeparator(KEYS[i], SEPARATORS[j]);
    NoneIsEmpty(BeforeKey(message, home, i, j), p);
    SecretsAreMarked(message, home, i, j);
    hide IsMarked, ValueStart, IsRedactedAt;
    forall m: nat | MatchesAt(r, m, p)
      ensures exists k: nat :: IsBehind(r, p, m, k) && k + 10 <= |r| && r[k..k + 10] == "[redacted]"
    {
      MarkBehind(r, p, m);
    }
  }

  lemma HasSeparator(key: string, separator: string)
    requires separator in SEPARATORS
    ensures Needle(key, separator).text != ""
  {
  }

  lemma MarkBehind(r: string, p: Pattern, m: nat)
    requires IsMarked(r, p, true) && MatchesAt(r, m, p)
    ensures exists k: nat :: IsBehind(r, p, m, k) && k + 10 <= |r| && r[k..k + 10] == "[redacted]"
  {
    var k := ValueStart(r, m + |p.text|, true);
    ValueStartIs(r, m + |p.text|, true);
    assert IsBehind(r, p, m, k) && r[k..k + 10] == "[redacted]";
  }

  // ----- a message with one secret -----

  /** All the needles of this text end at this place. */
  ghost predicate EndAt(s: string, e: nat) {
    forall i: nat, j: nat, m: nat | i < |KEYS| && j < |SEPARATORS| && MatchesAt(s, m, Needle(KEYS[i], SEPARATORS[j])) ::
      m + |Needle(KEYS[i], SEPARATORS[j]).text| == e
  }

  lemma EndsThere(s: string, e: nat, i: nat, j: nat, m: nat)
    requires EndAt(s, e) && i < |KEYS| && j < |SEPARATORS| && MatchesAt(s, m, Needle(KEYS[i], SEPARATORS[j]))
    ensures m + |Needle(KEYS[i], SEPARATORS[j]).text| == e
  {
  }

  lemma NoMatchElsewhere(s: string, e: nat, i: nat, j: nat, k: nat)
    requires EndAt(s, e) && i < |KEYS| && j < |SEPARATORS| && k + |Needle(KEYS[i], SEPARATORS[j]).text| != e
    ensures !MatchesAt(s, k, Needle(KEYS[i], SEPARATORS[j]))
  {
  }

  /** The text before the secret has been marked, or after. */
  predicate IsBeforeOrAfter(s: string, head: string, q: string, v: string, rest: string) {
    s == head + q + v + rest || s == head + q + "[redacted]" + rest
  }

  /** Where a needle of the text after the marking is, one of the text before was. */
  lemma AfterEndsToo(head: string, q: string, v: string, rest: string)
    requires IsStretch(v) && EndAt(head + q + v + rest, |head|)
    ensures EndAt(head + q + "[redacted]" + rest, |head|)
  {
    hide MatchesAt, Needle, IsNeedle;
    var t := head + q + "[redacted]" + rest;
    forall i: nat, j: nat, m: nat | i < |KEYS| && j < |SEPARATORS| && MatchesAt(t, m, Needle(KEYS[i], SEPARATORS[j]))
      ensures m + |Needle(KEYS[i], SEPARATORS[j]).text| == |head|
    {
      KeysAreWords();
      NeedleOf(KEYS[i], SEPARATORS[j]);
      WasThereBefore(head, q, v, rest, i, j, m);
    }
  }

  lemma WasThereBefore(head: string, q: string, v: string, rest: string, i: nat, j: nat, m: nat)
    requires i < |KEYS| && j < |SEPARATORS| && EndAt(head + q + v + rest, |head|)
    requires IsNeedle(Needle(KEYS[i], SEPARATORS[j]))
    requires MatchesAt(head + q + "[redacted]" + rest, m, Needle(KEYS[i], SEPARATORS[j]))
    ensures m + |Needle(KEYS[i], SEPARATORS[j]).text| == |head|
  {
    hide Needle, IsNeedle;
    var p, front := Needle(KEYS[i], SEPARATORS[j]), head + q;
    var s, t := front + v + rest, front + "[redacted]" + rest;
    MatchAsideMark(front, rest, p, m);
    if m + |p.text| <= |front| {
      assert s[..|front|] == front == t[..|front|];
      MatchesBefore(t, s, |front|, p, m);
      hide MatchesAt, EndAt;
      EndsThere(s, |head|, i, j, m);
    } else {
      var n := m - 10 + |v|;
      NeedleHasText(p);
      NoMatchElsewhere(s, |head|, i, j, n);
      assert s[|front| + |v|..] == rest == t[|front| + 10..];
      hide MatchesAt, EndAt;
      MatchInRest(t, |front| + 10, m, p);
      MatchInRest(s, |front| + |v|, n, p);
    }
  }

  /** A gap and a stretch behind the head, where all needles end. */
  ghost predicate IsOneSecret(head: string, q: string, v: string, rest: string) {
    IsGap(q) && IsStretch(v) && Stops(rest) && !("[redacted]" <= v) && EndAt(head + q + v + rest, |head|)
  }

  lemma MatchesShow(s: string, m: nat, p: Pattern)
    requires MatchesAt(s, m, p)
    ensures m + |p.text| <= |s| && Shows(s[m..m + |p.text|], p)
  {
  }

  lemma OnlyMatch(s: string, e: nat, i: nat, j: nat, m: nat)
    requires EndAt(s, e) && i < |KEYS| && j < |SEPARATORS| && MatchesAt(s, m, Needle(KEYS[i], SEPARATORS[j]))
    ensures forall k: nat | k < m :: !MatchesAt(s, k, Needle(KEYS[i], SEPARATORS[j]))
  {
    hide MatchesAt, Needle;
    EndsThere(s, e, i, j, m);
    forall k: nat | k < m ensures !MatchesAt(s, k, Needle(KEYS[i], SEPARATORS[j])) {
      NoMatchElsewhere(s, e, i, j, k);
    }
  }

  lemma RestIsFree(s: string, e: nat, from: nat, i: nat, j: nat)
    requires EndAt(s, e) && e <= from <= |s| && i < |KEYS| && j < |SEPARATORS|
    requires Needle(KEYS[i], SEPARATORS[j]).text != ""
    ensures IsFree(s[from..], Needle(KEYS[i], SEPARATORS[j]))
  {
    hide MatchesAt, Needle;
    var p := Needle(KEYS[i], SEPARATORS[j]);
    forall k: nat ensures !MatchesAt(s[from..], k, p) {
      NoMatchElsewhere(s, e, i, j, k + from);
      MatchInRest(s, from, k + from, p);
    }
  }

  /** One loop, from the text before the marking or after. */
  lemma PassGoesOn(s: string, head: string, q: string, v: string, rest: string, i: nat, j: nat)
    requires IsOneSecret(head, q, v, rest) && IsBeforeOrAfter(s, head, q, v, rest)
    requires i < |KEYS| && j < |SEPARATORS|
    ensures var p := Needle(KEYS[i], SEPARATORS[j]); var t := head + q + "[redacted]" + rest;
            && p.text != "" && IsBeforeOrAfter(Marked(s, p, true), head, q, v, rest)
            && (s == t ==> Marked(s, p, true) == t)
            && ((exists m: nat :: MatchesAt(s, m, p)) ==> Marked(s, p, true) == t)
  {
    hide MatchesAt, Needle, Marked, EndAt, IsGap, IsStretch, Stops, IsFree, Shows;
    var p := Needle(KEYS[i], SEPARATORS[j]);
    HasSeparator(KEYS[i], SEPARATORS[j]);
    AfterEndsToo(head, q, v, rest);
    if m: nat :| MatchesAt(s, m, p) {
      MarksThere(s, head, q, v, rest, i, j, m);
    } else {
      NoneIsFree(s, p);
      MarkedWithout(s, p, true);
    }
  }

  lemma NoneIsFree(s: string, p: Pattern)
    requires !exists m: nat :: MatchesAt(s, m, p)
    ensures IsFree(s, p)
  {
    hide MatchesAt;
  }

  lemma MarksThere(s: string, head: string, q: string, v: string, rest: string, i: nat, j: nat, m: nat)
    requires IsGap(q) && IsStretch(v) && Stops(rest) && !("[redacted]" <= v)
    requires s == head + q + v + rest || s == head + q + "[redacted]" + rest
    requires EndAt(s, |head|) && i < |KEYS| && j < |SEPARATORS| && Needle(KEYS[i], SEPARATORS[j]).text != ""
    requires MatchesAt(s, m, Needle(KEYS[i], SEPARATORS[j]))
    ensures Marked(s, Needle(KEYS[i], SEPARATORS[j]), true) == head + q + "[redacted]" + rest
  {
    hide MatchesAt, Needle, Marked, EndAt, IsGap, IsStretch, Stops, IsFree, Shows, MeetsEmptyValue;
    var p := Needle(KEYS[i], SEPARATORS[j]);
    EndsThere(s, |head|, i, j, m);
    OnlyMatch(s, |head|, i, j, m);
    MatchesShow(s, m, p);
    var a, n := s[..m], s[m..|head|];
    HeadIs(s, head, m);
    RestIsFree(s, |head|, |s| - |rest|, i, j);
    assert s[|s| - |rest|..] == rest;
    MarkedWithout(rest, p, true);
    if s == head + q + v + rest {
      assert s == a + n + q + v + rest;
      StretchIsMarked(a, n, q, v, rest, p, true);
    } else {
      assert s == a + n + q + "[redacted]" + rest;
      MarkIsPassed(a, n, q, rest, p, true);
    }
  }

  lemma HeadIs(s: string, head: string, m: nat)
    requires head <= s && m <= |head|
    ensures s[..m] + s[m..|head|] == head
  {
  }

  lemma {:induction false} SeparatorsGo(s: string, head: string, q: string, v: string, rest: string, i: nat, j: nat,
                                        i0: nat, j0: nat)
    requires IsOneSecret(head, q, v, rest) && IsBeforeOrAfter(s, head, q, v, rest)
    requires i < |KEYS| && i0 < |KEYS| && j0 < |SEPARATORS| && HasNeedle(head, q, v, rest, i0, j0)
    ensures IsBeforeOrAfter(SeparatorsMarked(s, KEYS[i], j), head, q, v, rest)
    ensures s == head + q + "[redacted]" + rest || (i == i0 && j <= j0) ==>
              SeparatorsMarked(s, KEYS[i], j) == head + q + "[redacted]" + rest
    decreases |SEPARATORS| - j
  {
    hide IsOneSecret, IsBeforeOrAfter, Marked, Needle, HasNeedle;
    if j < |SEPARATORS| {
      PassGoesOn(s, head, q, v, rest, i, j);
      var r := Marked(s, Needle(KEYS[i], SEPARATORS[j]), true);
      if i == i0 && j == j0 {
        MarksAtOwn(s, r, head, q, v, rest, i, j);
      }
      SeparatorsGo(r, head, q, v, rest, i, j + 1, i0, j0);
    }
  }

  /** The needle of this key and separator stands at the end of the head. */
  predicate HasNeedle(head: string, q: string, v: string, rest: string, i: nat, j: nat)
    requires i < |KEYS| && j < |SEPARATORS|
  {
    var p := Needle(KEYS[i], SEPARATORS[j]); |p.text| <= |head| && MatchesAt(head, |head| - |p.text|, p)
  }

  lemma MarksAtOwn(s: string, r: string, head: string, q: string, v: string, rest: string, i: nat, j: nat)
    requires i < |KEYS| && j < |SEPARATORS| && HasNeedle(head, q, v, rest, i, j)
    requires IsBeforeOrAfter(s, head, q, v, rest)
    requires (exists m: nat :: MatchesAt(s, m, Needle(KEYS[i], SEPARATORS[j]))) ==> r == head + q + "[redacted]" + rest
    ensures r == head + q + "[redacted]" + rest
  {
    hide MatchesAt, Needle;
    var p := Needle(KEYS[i], SEPARATORS[j]);
    assert head <= s;
    assert head[..|head|] == s[..|head|];
    MatchesBefore(head, s, |head|, p, |head| - |p.text|);
  }

  lemma {:induction false} KeysGo(s: string, head: string, q: string, v: string, rest: string, i: nat, i0: nat, j0: nat)
    requires IsOneSecret(head, q, v, rest) && IsBeforeOrAfter(s, head, q, v, rest)
    requires i0 < |KEYS| && j0 < |SEPARATORS| && HasNeedle(head, q, v, rest, i0, j0)
    ensures IsBeforeOrAfter(KeysMarked(s, i), head, q, v, rest)
    ensures s == head + q + "[redacted]" + rest || i <= i0 ==> KeysMarked(s, i) == head + q + "[redacted]" + rest
    decreases |KEYS| - i
  {
    hide IsOneSecret, IsBeforeOrAfter, SeparatorsMarked, HasNeedle;
    if i < |KEYS| {
      SeparatorsGo(s, head, q, v, rest, i, 0, i0, j0);
      KeysGo(SeparatorsMarked(s, KEYS[i], 0), head, q, v, rest, i + 1, i0, j0);
    }
  }

  /** A message in which one secret stands behind a key, its separator and a gap, and no other pattern
      occurs, comes out with the mark in place of the secret, and is else as it was. */
  lemma OneSecretIsMarked(message: string, home: Option<string>, head: string, q: string, v: string, rest: string,
                          i: nat, j: nat)
    requires WithoutHome(message, home) == head + q + v + rest && IsOneSecret(head, q, v, rest)
    requires i < |KEYS| && j < |SEPARATORS| && HasNeedle(head, q, v, rest, i, j)
    requires var s := head + q + v + rest;
             IsFree(s, HOME_PATH) && IsFree(s, USERS_PATH) && IsFree(s, BEARER) && IsFree(s, TOKEN)
    ensures RedactedText(message, home) == head + q + "[redacted]" + rest
  {
    hide Marked, Swept, WithoutHome, KeysMarked, IsFree, IsOneSecret, HasNeedle, IsBeforeOrAfter;
    Sweepables();
    var s := head + q + v + rest;
    SweptWithout(s, HOME_PATH, "~");
    SweptWithout(s, USERS_PATH, "~");
    MarkedWithout(s, BEARER, false);
    SweptWithout(s, TOKEN, REDACTED);
    assert IsBeforeOrAfter(s, head, q, v, rest) by { BeforeIsBefore(head, q, v, rest); }
    KeysGo(s, head, q, v, rest, 0, i, j);
  }

  lemma BeforeIsBefore(head: string, q: string, v: string, rest: string)
    ensures IsBeforeOrAfter(head + q + v + rest, head, q, v, rest)
  {
  }

  // ----- secrets in quotes -----

  /** No character of the text begins or ends a separator, a path, a token or what stands before a bearer
      value. */
  predicate IsInnocent(s: string) {
    forall c <- s :: c != '=' && c != ':' && c != '/' && c != '-' && c != ' '
  }

  /** Nothing, or an opening quote. */
  predicate IsOpening(s: string) {
    s == "" || s == "\"" || s == "'"
  }

  /** `key="secret"` comes out as `key="[redacted]"`, and `"key":"secret"` as `"key":"[redacted]"`: with
      each of the keys and of the four separators, in either kind of quotes or none. */
  lemma QuotedSecretIsMarked(i: nat, j: nat, front: string, open: string, v: string)
    requires i < |KEYS| && j < |SEPARATORS| && IsOpening(front) && IsOpening(open)
    requires IsStretch(v) && IsInnocent(v) && !("[redacted]" <= v)
    ensures RedactedText(front + KEYS[i] + SEPARATORS[j] + open + v + open, None)
         == front + KEYS[i] + SEPARATORS[j] + open + "[redacted]" + open
  {
    hide RedactedText, IsOneSecret, HasNeedle, IsInnocent, IsStretch, IsWord;
    KeysAreWords();
    var head := front + KEYS[i] + SEPARATORS[j];
    ShortMessage(front, KEYS[i], SEPARATORS[j], open, v);
    OwnNeedle(front, KEYS[i], SEPARATORS[j], i, j, open, v, open);
    OneSecretIsMarked(head + open + v + open, None, head, open, v, open, i, j);
  }

  lemma OwnNeedle(front: string, key: string, separator: string, i: nat, j: nat, q: string, v: string, rest: string)
    requires i < |KEYS| && j < |SEPARATORS| && key == KEYS[i] && separator == SEPARATORS[j]
    ensures HasNeedle(front + key + separator, q, v, rest, i, j)
  {
    hide Needle, MatchesAt, Shows;
    var n, p := key + separator, Needle(key, separator);
    KeyShows(key, separator);
    LengthShown(n, p);
    ShownMatches(front, n, "", p);
    assert front + n + "" == front + key + separator;
  }

  lemma KeyShows(key: string, separator: string)
    requires separator in SEPARATORS
    ensures Shows(key + separator, Needle(key, separator))
  {
    SeparatorIsLower(separator);
    var n, t := key + separator, Lowered(key) + separator;
    forall k | 0 <= k < |n| ensures Lower(n[k]) == t[k] {
      if k < |key| {
        assert n[k] == key[k] && t[k] == Lowered(key)[k];
      } else {
        assert n[k] == separator[k - |key|] == t[k];
      }
    }
  }

  lemma SeparatorIsLower(separator: string)
    requires separator in SEPARATORS
    ensures forall k | 0 <= k < |separator| :: Lower(separator[k]) == separator[k]
  {
  }

  /** The last character of the separator is the only mark of the message. */
  lemma ShortMessage(front: string, key: string, separator: string, open: string, v: string)
    requires IsOpening(front) && IsWord(key) && separator in SEPARATORS && IsOpening(open)
    requires IsStretch(v) && IsInnocent(v) && !("[redacted]" <= v)
    ensures var s := front + key + separator + open + v + open;
            && WithoutHome(s, None) == s && IsOneSecret(front + key + separator, open, v, open)
            && IsFree(s, HOME_PATH) && IsFree(s, USERS_PATH) && IsFree(s, BEARER) && IsFree(s, TOKEN)
  {
    hide IsFree, IsStretch, EndAt;
    var s := front + key + separator + open + v + open;
    CharsOfMessage(front, key, separator, open, v);
    FreeWithoutMarks(s);
    NeedlesEndThere(s, |front + key + separator| - 1);
  }

  lemma FreeWithoutMarks(s: string)
    requires forall k | 0 <= k < |s| :: s[k] != '/' && s[k] != '-' && s[k] != ' '
    ensures IsFree(s, HOME_PATH) && IsFree(s, USERS_PATH) && IsFree(s, BEARER) && IsFree(s, TOKEN)
  {
    LacksPattern(s, HOME_PATH, 0);
    LacksPattern(s, USERS_PATH, 0);
    LacksPattern(s, TOKEN, 2);
    LacksPattern(s, BEARER, 6);
  }

  lemma CharsOfMessage(front: string, key: string, separator: string, open: string, v: string)
    requires IsOpening(front) && IsWord(key) && separator in SEPARATORS && IsOpening(open) && IsInnocent(v)
    ensures var s, e := front + key + separator + open + v + open, |front + key + separator| - 1;
            forall k | 0 <= k < |s| ::
              s[k] != '/' && s[k] != '-' && s[k] != ' ' && (k != e ==> s[k] != '=' && s[k] != ':')
  {
    var s, e := front + key + separator + open + v + open, |front + key + separator| - 1;
    SeparatorMarks(separator);
    var a, b, c := |front|, |front + key|, |front + key + separator + open|;
    forall k | 0 <= k < |s|
      ensures s[k] != '/' && s[k] != '-' && s[k] != ' ' && (k != e ==> s[k] != '=' && s[k] != ':')
    {
      if k < a {
        assert s[k] == front[k];
      } else if k < b {
        assert s[k] == key[k - a] && key[k - a] in key;
      } else if k <= e {
        assert s[k] == separator[k - b];
      } else if k < c {
        assert s[k] == open[k - e - 1];
      } else if k < c + |v| {
        assert s[k] == v[k - c] && v[k - c] in v;
      } else {
        assert s[k] == open[k - c - |v|];
      }
    }
  }

  lemma SeparatorMarks(separator: string)
    requires separator in SEPARATORS
    ensures 0 < |separator|
    ensures forall k | 0 <= k < |separator| :: separator[k] != '/' && separator[k] != '-' && separator[k] != ' '
    ensures forall k | 0 <= k < |separator| - 1 :: separator[k] != '=' && separator[k] != ':'
  {
  }

  lemma NeedlesEndThere(s: string, e: nat)
    requires forall k | 0 <= k < |s| && k != e :: s[k] != '=' && s[k] != ':'
    ensures EndAt(s, e + 1)
  {
    hide Needle;
    forall i: nat, j: nat, m: nat | i < |KEYS| && j < |SEPARATORS| && MatchesAt(s, m, Needle(KEYS[i], SEPARATORS[j]))
      ensures m + |Needle(KEYS[i], SEPARATORS[j]).text| == e + 1
    {
      SeparatorEnds(KEYS[i], SEPARATORS[j]);
      var p := Needle(KEYS[i], SEPARATORS[j]);
      var k := m + |p.text| - 1;
      assert p.Seen(s[k]) == p.text[|p.text| - 1];
    }
  }

  /** The ten keys, with an equals sign or a colon behind them or behind their closing quote. */
  lemma KeysAndSeparators()
    ensures |KEYS| == 10 && KEYS[0] == "access_token" && KEYS[1] == "refresh_token" && KEYS[2] == "id_token"
    ensures KEYS[3] == "authorization" && KEYS[4] == "password" && KEYS[5] == "session_secret"
    ensures KEYS[6] == "sessionSecret" && KEYS[7] == "hcaptchaSecretKey" && KEYS[8] == "webhookUrl"
    ensures KEYS[9] == "slackWebhookUrl"
    ensures |SEPARATORS| == 4 && SEPARATORS[0] == "=" && SEPARATORS[1] == ":" && SEPARATORS[2] == "\":"
    ensures SEPARATORS[3] == "':"
  {
  }

  lemma PasswordInQuotes()
    ensures RedactedText("password=\"x\"", None) == "password=\"[redacted]\""
  {
    hide RedactedText;
    KeysAndSeparators();
    assert "" + KEYS[4] + "=" + "\"" + "x" + "\"" == "password=\"x\"";
    assert "" + KEYS[4] + "=" + "\"" + "[redacted]" + "\"" == "password=\"[redacted]\"";
    QuotedSecretIsMarked(4, 0, "", "\"", "x");
  }

  // ----- bearer values, tokens and paths -----

  /** Without an equals sign and a colon no key has a separator. */
  lemma NoKeys(s: string)
    requires forall k | 0 <= k < |s| :: s[k] != '=' && s[k] != ':'
    ensures KeysMarked(s, 0) == s
  {
    hide KeysMarked, SeparatorsMarked;
    KeysAbsent(s, 0);
  }

  lemma {:induction false} KeysAbsent(s: string, i: nat)
    requires forall k | 0 <= k < |s| :: s[k] != '=' && s[k] != ':'
    ensures KeysMarked(s, i) == s
    decreases |KEYS| - i
  {
    if i < |KEYS| {
      SeparatorsAbsent(s, KEYS[i], 0);
      KeysAbsent(s, i + 1);
    }
  }

  lemma {:induction false} SeparatorsAbsent(s: string, key: string, j: nat)
    requires forall k | 0 <= k < |s| :: s[k] != '=' && s[k] != ':'
    ensures SeparatorsMarked(s, key, j) == s
    decreases |SEPARATORS| - j
  {
    hide Marked;
    if j < |SEPARATORS| {
      SeparatorEnds(key, SEPARATORS[j]);
      var p := Needle(key, SEPARATORS[j]);
      LacksPattern(s, p, |p.text| - 1);
      MarkedWithout(s, p, true);
      SeparatorsAbsent(s, key, j + 1);
    }
  }

  /** `Bearer secret` comes out as `Bearer [redacted]`. */
  lemma BearerIsMarked(v: string)
    requires IsStretch(v) && IsInnocent(v) && !("[redacted]" <= v)
    ensures RedactedText("Bearer " + v, None) == "Bearer [redacted]"
  {
    hide Marked, Swept, KeysMarked, IsFree, IsStretch, Stops, MatchesAt, Shows, IsInnocent;
    Sweepables();
    var s, r := "Bearer " + v, "Bearer [redacted]";
    BearerChars(v);
    LacksPattern(s, HOME_PATH, 0);
    LacksPattern(s, USERS_PATH, 0);
    SweptWithout(s, HOME_PATH, "~");
    SweptWithout(s, USERS_PATH, "~");
    BearerValue(v);
    LacksPattern(r, TOKEN, 2);
    SweptWithout(r, TOKEN, REDACTED);
    NoKeys(r);
  }

  lemma BearerChars(v: string)
    requires IsInnocent(v)
    ensures var s := "Bearer " + v; forall k | 0 <= k < |s| :: s[k] != '/'
  {
    var s := "Bearer " + v;
    assert forall k | 7 <= k < |s| :: s[k] == v[k - 7] && v[k - 7] in v;
  }

  lemma BearerValue(v: string)
    requires IsStretch(v) && !("[redacted]" <= v)
    ensures Marked("Bearer " + v, BEARER, false) == "Bearer [redacted]"
  {
    hide Marked, IsFree, IsStretch, MatchesAt, Shows, MeetsEmptyValue;
    var n := "Bearer ";
    BearerShows();
    assert Stops("") && IsGap("");
    assert "" + n + "" + v + "" == n + v && "" + n + "" + "[redacted]" + "" == "Bearer [redacted]";
    StretchIsMarked("", n, "", v, "", BEARER, false);
    EmptyIsFree(BEARER);
    MarkedWithout("", BEARER, false);
  }

  lemma BearerShows()
    ensures Shows("Bearer ", BEARER) && Shows("bearer ", BEARER)
  {
  }

  /** A text that is one token, in either case, is gone but for the mark. */
  lemma TokenIsMarked(n: string, v: string)
    requires (n == "sk-" || n == "SK-") && IsStretch(v) && IsInnocent(v)
    ensures RedactedText(n + v, None) == "[redacted]"
  {
    hide Marked, Swept, KeysMarked, IsFree, IsStretch, Stops;
    Sweepables();
    var s := n + v;
    assert forall k | |n| <= k < |s| :: s[k] == v[k - |n|] && v[k - |n|] in v;
    LacksPattern(s, HOME_PATH, 0);
    LacksPattern(s, USERS_PATH, 0);
    SweptWithout(s, HOME_PATH, "~");
    SweptWithout(s, USERS_PATH, "~");
    LacksPattern(s, BEARER, 6);
    MarkedWithout(s, BEARER, false);
    assert forall j | 0 <= j < 3 :: s[j] == n[j];
    assert MatchesAt(s, 0, TOKEN);
    LongerStretch(n, v);
    StretchIsGone(s, TOKEN, REDACTED);
    NoKeys(REDACTED);
  }

  lemma LongerStretch(n: string, v: string)
    requires (forall c <- n :: !EndsValue(c)) && n != "" && IsStretch(v)
    ensures IsStretch(n + v)
  {
    assert forall c <- n + v :: c in n || c in v;
  }

  lemma StretchIsGone(s: string, p: Pattern, w: string)
    requires IsSweepable(p) && IsStretch(s) && MatchesAt(s, 0, p)
    ensures Swept(s, p, w) == w
  {
    hide Swept, MatchesAt, IsStretch, IsSweepable;
    assert "" + s + "" == s && "" + w + "" == w;
    StretchIsSwept("", s, "", p, w);
    SweepableHasText(p);
    EmptyIsFree(p);
    SweptWithout("", p, w);
  }

  lemma SweepableHasText(p: Pattern)
    requires IsSweepable(p)
    ensures p.text != ""
  {
  }

  /** A text that is one path below the home directories is gone but for the tilde. */
  lemma PathIsGone(n: string, v: string)
    requires (n == "/home/" || n == "/Users/") && IsStretch(v) && IsInnocent(v)
    ensures RedactedText(n + v, None) == "~"
  {
    hide Marked, Swept, KeysMarked, IsFree, IsStretch, Stops;
    Sweepables();
    var s := n + v;
    assert forall k | |n| <= k < |s| :: s[k] == v[k - |n|] && v[k - |n|] in v;
    LongerStretch(n, v);
    if n == "/home/" {
      StretchIsGone(s, HOME_PATH, "~");
      LacksPattern("~", USERS_PATH, 0);
      SweptWithout("~", USERS_PATH, "~");
    } else {
      NotAHomePath(s, v);
      SweptWithout(s, HOME_PATH, "~");
      StretchIsGone(s, USERS_PATH, "~");
    }
    LacksPattern("~", BEARER, 0);
    MarkedWithout("~", BEARER, false);
    LacksPattern("~", TOKEN, 0);
    SweptWithout("~", TOKEN, REDACTED);
    NoKeys("~");
  }

  lemma NotAHomePath(s: string, v: string)
    requires s == "/Users/" + v && IsInnocent(v)
    ensures IsFree(s, HOME_PATH)
  {
    forall i: nat ensures !MatchesAt(s, i, HOME_PATH) {
      if i + 6 <= |s| {
        if 1 <= i <= 5 {
          assert s[i] != '/';
        } else if i == 0 {
          assert s[1] == 'U';
        } else if i == 6 {
          assert i + 5 < |s| && s[i + 5] == v[i + 5 - 7] && v[i + 5 - 7] in v;
        } else {
          assert s[i] == v[i - 7] && v[i - 7] in v;
        }
      }
    }
  }

  /** The home directory is replaced by the tilde wherever it stands, if it is more than white space and
      not the root. */
  lemma HomeIsReplaced(home: string, a: string, b: string)
    requires var t := Trim(home); t != "" && t != "/" && forall i | 0 <= i < |a| :: !(t <= (a + t + b)[i..])
    ensures WithoutHome(a + Trim(home) + b, Some(home)) == a + "~" + WithoutHome(b, Some(home))
  {
    ReplacedFirst(a, Trim(home), b, "~");
  }

  lemma {:induction false} ReplacedFirst(a: string, t: string, b: string, w: string)
    requires t != "" && forall i | 0 <= i < |a| :: !(t <= (a + t + b)[i..])
    ensures Replace(a + t + b, t, w) == a + w + Replace(b, t, w)
  {
    var s := a + t + b;
    if a == "" {
      assert s == t + b && s[|t|..] == b;
    } else {
      assert s[0..] == s;
      var rest := a[1..] + t + b;
      assert s[1..] == rest;
      forall i | 0 <= i < |a[1..]| ensures !(t <= rest[i..]) {
        assert rest[i..] == s[i + 1..];
      }
      ReplacedFirst(a[1..], t, b, w);
      assert [a[0]] + (a[1..] + w + Replace(b, t, w)) == a + w + Replace(b, t, w);
    }
  }

  lemma HomeIsLeft(message: string, home: Option<string>)
    requires home.None? || Trim(home.value) == "" || Trim(home.value) == "/"
    ensures WithoutHome(message, home) == message
  {
  }

  /** 4000 bytes of UTF-8 are kept, and what is cut off is told. */
  lemma CutIsTold()
    ensures MAX_BYTES == 4000 && TRUNCATED == "...[truncated]"
    ensures forall c :: Width(c) == if c <= '\U{007F}' then 1 else if c <= '\U{07FF}' then 2
                                    else if c <= '\U{FFFF}' then 3 else 4
  {
  }
}
