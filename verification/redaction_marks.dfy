/** What later loops do to the marks of earlier ones: nothing. So a needle is followed by the mark in
    the redacted text whenever its own loop met no needle without a value. */
module RedactionMarks {
  import opened Text
  import opened RedactionText
  import opened Redaction

  // ----- one replacement -----

  /** A needle neither begins nor ends in a mark. */
  lemma MatchAsideMark(a: string, c: string, p: Pattern, i: nat)
    requires IsNeedle(p) && MatchesAt(a + REDACTED + c, i, p)
    ensures i + |p.text| <= |a| || i >= |a| + |REDACTED|
  {
    var s, last := a + REDACTED + c, |a| + |REDACTED| - 1;
    var end := i + |p.text| - 1;
    MarkIsNotRedacted(p);
    assert p.Seen(s[end]) == p.text[|p.text| - 1];
    assert forall j | |a| <= j <= last :: s[j] == REDACTED[j - |a|];
    assert forall j | i <= j <= end :: p.Seen(s[j]) in p.text;
    assert s[last] == ']';
  }

  /** Here a value may be replaced: it does not begin with padding or inside a mark. */
  predicate IsClear(s: string, from: nat) {
    from < |s| && !IsPadding(s[from]) && forall k: nat | k <= from < k + |REDACTED| :: !IsRedactedAt(s, k)
  }

  lemma MatchBehind(s: string, t: string, to: nat, k: nat, p: Pattern, skips: bool, i: nat)
    requires to <= |s| && k <= i && k <= |t| && t[k..] == s[to..] && MatchesAt(t, i, p)
    ensures MatchesAt(s, i - k + to, p)
    ensures ValueStart(t, i + |p.text|, skips) - k == ValueStart(s, i - k + to + |p.text|, skips) - to
    ensures IsRedactedAt(t, ValueStart(t, i + |p.text|, skips))
            <==> IsRedactedAt(s, ValueStart(s, i - k + to + |p.text|, skips))
  {
    var rest := s[to..];
    MatchInRest(t, k, i, p);
    MatchInRest(s, to, i - k + to, p);
    hide MatchesAt, ValueStart, IsRedactedAt;
    StartInRest(t, k, i + |p.text|, skips);
    StartInRest(s, to, i - k + to + |p.text|, skips);
    MarkInRest(t, k, ValueStart(t, i + |p.text|, skips));
    MarkInRest(s, to, ValueStart(s, i - k + to + |p.text|, skips));
  }

  lemma ReplacedSlices(s: string, from: nat, to: nat, w: string)
    requires from <= to <= |s|
    ensures var t := s[..from] + w + s[to..];
            t[..from] == s[..from] && t[..from + |w|] == s[..from] + w && t[from + |w|..] == s[to..]
  {
  }

  lemma MarkedThere(s: string, p: Pattern, skips: bool, i: nat)
    requires IsMarked(s, p, skips) && MatchesAt(s, i, p)
    ensures IsRedactedAt(s, ValueStart(s, i + |p.text|, skips))
  {
  }

  /** There is a needle here that no mark follows. */
  predicate IsBare(s: string, p: Pattern, skips: bool, i: nat) {
    MatchesAt(s, i, p) && !IsRedactedAt(s, ValueStart(s, i + |p.text|, skips))
  }

  /** The needle here is touched by the replaced stretch, or that is its value. */
  predicate IsReached(s: string, p: Pattern, skips: bool, i: nat, from: nat, to: nat) {
    (from < i + |p.text| && i < to) || (i + |p.text| <= |s| && ValueStart(s, i + |p.text|, skips) == from)
  }

  /** A needle before the stretch stays bare, unless the stretch is its value. */
  lemma BareBefore(s: string, t: string, from: nat, to: nat, p: Pattern, skips: bool, i: nat)
    requires from < to <= |s| && IsClear(s, from) && t == s[..from] + REDACTED + s[to..] && i + |p.text| <= from
    ensures IsBare(t, p, skips, i) <==> IsBare(s, p, skips, i) && ValueStart(s, i + |p.text|, skips) != from
  {
    hide MatchesAt, ValueStart, IsClear, IsRedactedAt, IsPadding;
    ReplacedSlices(s, from, to, REDACTED);
    ReplacedIsRedacted(s, from, to);
    MarkIsNoPadding(t, from);
    BareInFront(s, t, from, p, skips, i);
  }

  lemma MarkIsNoPadding(t: string, from: nat)
    requires IsRedactedAt(t, from)
    ensures from < |t| && !IsPadding(t[from])
  {
    MarkChar(t, from, from);
  }

  lemma BareInFront(s: string, t: string, from: nat, p: Pattern, skips: bool, i: nat)
    requires from < |s| && IsClear(s, from) && from < |t| && t[..from] == s[..from] && i + |p.text| <= from
    requires IsRedactedAt(t, from) && !IsPadding(t[from])
    ensures IsBare(t, p, skips, i) <==> IsBare(s, p, skips, i) && ValueStart(s, i + |p.text|, skips) != from
  {
    hide MatchesAt, ValueStart, IsClear, IsRedactedAt, IsPadding;
    MatchesBefore(s, t, from, p, i);
    StartBefore(s, t, from, i + |p.text|, skips);
    var v := ValueStart(s, i + |p.text|, skips);
    if v < from {
      MarkBefore(s, t, from, v);
    }
  }

  lemma MatchesBefore(s: string, t: string, from: nat, p: Pattern, i: nat)
    requires from <= |s| && from <= |t| && s[..from] == t[..from] && i + |p.text| <= from
    ensures MatchesAt(s, i, p) <==> MatchesAt(t, i, p)
  {
    assert forall j | 0 <= j < from :: s[j] == s[..from][j] == t[..from][j] == t[j];
  }

  /** Up to a clear place values begin where they did. */
  lemma StartBefore(s: string, t: string, from: nat, i: nat, skips: bool)
    requires IsClear(s, from) && i <= from < |t| && s[..from] == t[..from] && !IsPadding(t[from])
    ensures ValueStart(s, i, skips) == ValueStart(t, i, skips) <= from
    decreases from - i
  {
    if i < from {
      SamePrefix(s, t, from, i);
      if skips && IsPadding(s[i]) {
        StartBefore(s, t, from, i + 1, skips);
      }
    }
  }

  lemma MarkChar(s: string, k: nat, i: nat)
    requires IsRedactedAt(s, k) && k <= i < k + |REDACTED|
    ensures i < |s| && s[i] == REDACTED[i - k]
  {
    assert s[i] == s[k..k + |REDACTED|][i - k];
  }

  /** Marks do not overlap. */
  lemma MarksApart(t: string, v: nat, from: nat)
    requires IsRedactedAt(t, from) && v < from < v + |REDACTED|
    ensures !IsRedactedAt(t, v)
  {
    hide IsRedactedAt;
    MarkChar(t, from, from);
    if IsRedactedAt(t, v) {
      MarkChar(t, v, from);
    }
  }

  lemma MarkBefore(s: string, t: string, from: nat, v: nat)
    requires v < from < |s| && from <= |t| && s[..from] == t[..from] && IsRedactedAt(t, from) && IsClear(s, from)
    ensures IsRedactedAt(s, v) <==> IsRedactedAt(t, v)
  {
    if v + |REDACTED| <= from {
      MarkFits(t, from);
      assert s[v..v + |REDACTED|] == s[..from][v..v + |REDACTED|] == t[v..v + |REDACTED|];
    } else {
      MarksApart(t, v, from);
    }
  }

  /** Behind the stretch nothing changes. */
  lemma BareBehind(s: string, t: string, from: nat, to: nat, p: Pattern, skips: bool, i: nat)
    requires from < to <= |s| && t == s[..from] + REDACTED + s[to..] && i >= from + |REDACTED|
    ensures IsBare(t, p, skips, i) <==> IsBare(s, p, skips, i - (from + |REDACTED|) + to)
  {
    hide MatchesAt, ValueStart, IsRedactedAt;
    ReplacedSlices(s, from, to, REDACTED);
    BareInBack(s, t, to, from + |REDACTED|, p, skips, i);
  }

  lemma BareInBack(s: string, t: string, to: nat, k: nat, p: Pattern, skips: bool, i: nat)
    requires to <= |s| && k <= |t| && k <= i && t[k..] == s[to..]
    ensures IsBare(t, p, skips, i) <==> IsBare(s, p, skips, i - k + to)
  {
    hide ValueStart, IsRedactedAt;
    MatchInRest(t, k, i, p);
    MatchInRest(s, to, i - k + to, p);
    hide MatchesAt;
    if MatchesAt(t, i, p) {
      MatchBehind(s, t, to, k, p, skips, i);
    }
  }

  /** Replacing a value leaves exactly those needles bare that were, and that it does not reach. */
  lemma ReplacedMarksExactly(s: string, from: nat, to: nat, p: Pattern, skips: bool)
    requires IsNeedle(p) && from < to <= |s| && IsClear(s, from)
    ensures IsMarked(s[..from] + REDACTED + s[to..], p, skips)
       <==> forall i: nat | IsBare(s, p, skips, i) :: IsReached(s, p, skips, i, from, to)
  {
    hide *;
    var t := s[..from] + REDACTED + s[to..];
    BareIsUnmarked(t, p, skips);
    forall i: nat | IsBare(t, p, skips, i)
      ensures exists h: nat :: IsBare(s, p, skips, h) && !IsReached(s, p, skips, h, from, to)
    {
      var h := ComesFrom(s, t, from, to, p, skips, i);
    }
    forall i: nat | IsBare(s, p, skips, i)
      ensures IsReached(s, p, skips, i, from, to) || exists h: nat :: IsBare(t, p, skips, h)
    {
      BareMatches(s, p, skips, i);
      if !IsReached(s, p, skips, i, from, to) {
        var h := GoesTo(s, t, from, to, p, skips, i);
      }
    }
  }

  lemma ComesFrom(s: string, t: string, from: nat, to: nat, p: Pattern, skips: bool, i: nat) returns (h: nat)
    requires IsNeedle(p) && from < to <= |s| && IsClear(s, from) && t == s[..from] + REDACTED + s[to..]
    requires IsBare(t, p, skips, i)
    ensures IsBare(s, p, skips, h) && !IsReached(s, p, skips, h, from, to)
  {
    hide IsNeedle, MatchesAt, ValueStart, IsRedactedAt, IsClear, IsBare;
    BareMatches(t, p, skips, i);
    MatchAsideMark(s[..from], s[to..], p, i);
    if i >= from + |REDACTED| {
      BareBehind(s, t, from, to, p, skips, i);
      h := i - (from + |REDACTED|) + to;
    } else {
      BareBefore(s, t, from, to, p, skips, i);
      h := i;
    }
    BareMatches(s, p, skips, h);
  }

  lemma GoesTo(s: string, t: string, from: nat, to: nat, p: Pattern, skips: bool, i: nat) returns (h: nat)
    requires from < to <= |s| && IsClear(s, from) && t == s[..from] + REDACTED + s[to..]
    requires i + |p.text| <= |s| && IsBare(s, p, skips, i) && !IsReached(s, p, skips, i, from, to)
    ensures IsBare(t, p, skips, h)
  {
    hide MatchesAt, ValueStart, IsRedactedAt, IsClear, IsBare;
    if i + |p.text| <= from {
      BareBefore(s, t, from, to, p, skips, i);
      h := i;
    } else {
      h := i - to + (from + |REDACTED|);
      BareBehind(s, t, from, to, p, skips, h);
    }
  }

  lemma BareMatches(s: string, p: Pattern, skips: bool, i: nat)
    requires IsBare(s, p, skips, i)
    ensures MatchesAt(s, i, p) && i + |p.text| <= |s|
    ensures ValueStart(s, i + |p.text|, skips) >= i + |p.text|
  {
  }

  lemma BareIsUnmarked(s: string, p: Pattern, skips: bool)
    ensures IsMarked(s, p, skips) <==> !exists i: nat :: IsBare(s, p, skips, i)
  {
    hide ValueStart, IsRedactedAt;
    if IsMarked(s, p, skips) {
      forall i: nat ensures !IsBare(s, p, skips, i) {
        if MatchesAt(s, i, p) {
          MarkedThere(s, p, skips, i);
        }
      }
    } else {
      var i: nat :| MatchesAt(s, i, p) && !IsRedactedAt(s, ValueStart(s, i + |p.text|, skips));
      assert IsBare(s, p, skips, i);
    }
  }

  /** So every marked needle stays marked. */
  lemma ReplacedStaysMarked(s: string, from: nat, to: nat, p: Pattern, skips: bool)
    requires IsNeedle(p) && from < to <= |s| && IsClear(s, from) && IsMarked(s, p, skips)
    ensures IsMarked(s[..from] + REDACTED + s[to..], p, skips)
  {
    hide *;
    BareIsUnmarked(s, p, skips);
    ReplacedMarksExactly(s, from, to, p, skips);
  }

  // ----- the later loops -----

  lemma InMark(s: string, k: nat, i: nat)
    requires IsRedactedAt(s, k) && k <= i < k + |REDACTED|
    ensures i < |s| && s[i] in REDACTED
  {
    assert s[i] == s[k..k + |REDACTED|][i - k];
  }

  lemma NoMarkAround(s: string, i: nat, k: nat)
    requires i < |s| && s[i] !in REDACTED && k <= i < k + |REDACTED|
    ensures !IsRedactedAt(s, k)
  {
    hide IsRedactedAt;
    if IsRedactedAt(s, k) {
      InMark(s, k, i);
    }
  }

  lemma SweptIsClear(s: string, at: nat)
    requires MatchesAt(s, at, TOKEN)
    ensures IsClear(s, at)
  {
    assert TOKEN.Seen(s[at]) == TOKEN.text[0] == 's';
    assert forall c <- REDACTED :: Lower(c) != 's';
    forall k: nat | k <= at < k + |REDACTED| ensures !IsRedactedAt(s, k) {
      NoMarkAround(s, at, k);
    }
  }

  lemma {:induction false} SweptKeepsMarks(s: string, done: nat, p: Pattern, skips: bool)
    requires IsNeedle(p) && done <= |s| && IsMarked(s, p, skips)
    ensures IsSweepable(TOKEN) && IsMarked(s[..done] + Swept(s[done..], TOKEN, REDACTED), p, skips)
    decreases |s| - done
  {
    Sweepables();
    hide IsNeedle, MatchesAt, IsMarked, Swept, NextMatch, IsSweepable, ValueEnd, IsClear;
    var next := NextMatch(s, TOKEN, done);
    if next.Some? {
      var at := next.value;
      SweepStep(s, done, at, TOKEN, REDACTED);
      var to := ValueEnd(s, at);
      SweptIsClear(s, at);
      ReplacedStaysMarked(s, at, to, p, skips);
      var t := s[..at] + REDACTED + s[to..];
      ReplacedSlices(s, at, to, REDACTED);
      SweptKeepsMarks(t, at + |REDACTED|, p, skips);
      Spliced(s, done, at, REDACTED, Swept(s[to..], TOKEN, REDACTED));
    } else {
      SweptWhenFree(s, done, TOKEN, REDACTED);
      assert s[..done] + s[done..] == s;
    }
  }

  lemma Spliced(s: string, done: nat, at: nat, w: string, rest: string)
    requires done <= at <= |s|
    ensures s[..done] + (s[done..at] + w + rest) == s[..at] + w + rest
  {
    assert s[..done] + s[done..at] == s[..at];
  }

  /** What stands before the value is padding, or the end of the needle: no part of a mark. */
  lemma BeforeValue(s: string, at: nat, q: Pattern, from: nat)
    requires IsNeedle(q) && MatchesAt(s, at, q) && from == ValueStart(s, at + |q.text|, true)
    ensures 0 < from <= |s| && s[from - 1] !in REDACTED
  {
    ValueStartIs(s, at + |q.text|, true);
    MarkIsNotRedacted(q);
    hide ValueStart;
    assert q.Seen(s[at + |q.text| - 1]) == q.text[|q.text| - 1];
    assert forall c <- REDACTED :: !IsPadding(c);
  }

  /** A value that is to be replaced behind a needle with its padding. */
  lemma ValueIsClear(s: string, at: nat, q: Pattern, from: nat, to: nat)
    requires IsNeedle(q) && MatchesAt(s, at, q)
    requires from == ValueStart(s, at + |q.text|, true) && from < to <= |s| && !IsRedactedAt(s, from)
    ensures IsClear(s, from)
  {
    hide IsNeedle, MatchesAt, ValueStart, IsRedactedAt, IsPadding;
    StartIsNoPadding(s, at + |q.text|);
    BeforeValue(s, at, q, from);
    forall k: nat | k <= from < k + |REDACTED| ensures !IsRedactedAt(s, k) {
      if k < from {
        NoMarkAround(s, from - 1, k);
      }
    }
  }

  lemma {:induction false} StartIsNoPadding(s: string, i: nat)
    requires i <= |s|
    ensures var v := ValueStart(s, i, true); v < |s| ==> !IsPadding(s[v])
    decreases |s| - i
  {
    if i < |s| && IsPadding(s[i]) {
      StartIsNoPadding(s, i + 1);
    }
  }

  /** The loop over one needle leaves every needle that is marked marked. */
  lemma {:induction false} MarkedKeepsMarks(s: string, start: nat, q: Pattern, p: Pattern, skips: bool)
    requires IsNeedle(p) && IsNeedle(q) && q.text[|q.text| - 1] != ' ' && q.text != ""
    requires start <= |s| && IsMarked(s, p, skips)
    ensures IsMarked(s[..start] + Marked(s[start..], q, true), p, skips)
    decreases |s| - start
  {
    hide IsNeedle, MatchesAt, IsMarked, Marked, NextMatch, NextRound, ValueStart, ValueEnd, IsRedactedAt, IsClear;
    var next := NextMatch(s, q, start);
    if next.None? {
      MarkedWhenFree(s, start, q, true);
      assert s[..start] + s[start..] == s;
    } else {
      var at := next.value;
      RoundAt(s, start, at, q, true);
      var from := ValueStart(s, at + |q.text|, true);
      var to := ValueEnd(s, from);
      RoundInRest(s, start, at, from, to, q, true);
      if IsRedactedAt(s, from) {
        MarkFits(s, from);
        MarkUnfolds(s, start, from + |REDACTED|, q);
        MarkedKeepsMarks(s, from + |REDACTED|, q, p, skips);
      } else if to > from {
        ValueUnfolds(s, start, from, to, q);
        ValueIsClear(s, at, q, from, to);
        ReplacedStaysMarked(s, from, to, p, skips);
        ReplacedSlices(s, from, to, REDACTED);
        MarkedKeepsMarks(s[..from] + REDACTED + s[to..], from + |REDACTED|, q, p, skips);
      } else {
        EmptyUnfolds(s, start, q);
      }
    }
  }

  lemma MarkFits(s: string, from: nat)
    requires IsRedactedAt(s, from)
    ensures from + |REDACTED| <= |s|
  {
  }

  lemma MarkUnfolds(s: string, start: nat, k: nat, q: Pattern)
    requires q.text != "" && start < k <= |s| && NextRound(s[start..], q, true) == HasMark(k - start)
    ensures s[..start] + Marked(s[start..], q, true) == s[..k] + Marked(s[k..], q, true)
  {
    hide NextRound;
    assert s[start..][..k - start] == s[start..k] && s[start..][k - start..] == s[k..];
    assert s[..start] + s[start..k] == s[..k];
    Joined(s[..start], s[start..k], Marked(s[k..], q, true));
  }

  lemma ValueUnfolds(s: string, start: nat, from: nat, to: nat, q: Pattern)
    requires q.text != "" && start <= from < to <= |s|
             && NextRound(s[start..], q, true) == HasValue(from - start, to - start)
    ensures s[..start] + Marked(s[start..], q, true) == s[..from] + REDACTED + Marked(s[to..], q, true)
  {
    hide NextRound;
    SlicesOfRest(s, start, from, to);
    Spliced(s, start, from, REDACTED, Marked(s[to..], q, true));
  }

  lemma EmptyUnfolds(s: string, start: nat, q: Pattern)
    requires q.text != "" && start <= |s| && NextRound(s[start..], q, true) == HasNoValue
    ensures s[..start] + Marked(s[start..], q, true) == s
  {
    hide NextRound;
    assert s[..start] + s[start..] == s;
  }

  // ----- one loop on its own -----

  /** What the loop leaves is marked exactly when it meets no needle without a value. */
  lemma {:induction false} MarkingMarks(s: string, r: string, start: nat, p: Pattern, skips: bool)
    requires IsNeedle(p) && (skips ==> p.text[|p.text| - 1] != ' ') && p.text != ""
    requires start <= |r| && IsUnderway(s, r, start, p, skips)
    ensures IsMarked(Marked(s, p, skips), p, skips) <==> !MeetsEmptyValue(s, p, skips)
    decreases |r| - start
  {
    hide IsNeedle, MatchesAt, IsMarked, IsUnderway, Marked, MeetsEmptyValue, NextMatch, ValueStart, ValueEnd,
         IsRedactedAt, KeepsFree;
    var next := NextMatch(r, p, start);
    if next.None? {
      UnderwayEnds(s, r, start, p, skips);
    } else {
      var at := next.value;
      RoundAt(r, start, at, p, skips);
      var from := ValueStart(r, at + |p.text|, skips);
      var to := ValueEnd(r, from);
      hide IsRound;
      if IsRedactedAt(r, from) {
        UnderwaySkips(s, r, start, at, from, to, p, skips);
        MarkingMarks(s, r, from + |REDACTED|, p, skips);
      } else if to <= from {
        UnderwayStops(s, r, start, at, from, p, skips);
      } else {
        UnderwayReplaces(s, r, start, at, from, to, p, skips);
        MarkingMarks(s, r[..from] + REDACTED + r[to..], from + |REDACTED|, p, skips);
      }
    }
  }

  lemma LoopMarks(s: string, p: Pattern, skips: bool)
    requires IsNeedle(p) && (skips ==> p.text[|p.text| - 1] != ' ') && p.text != ""
    ensures IsMarked(Marked(s, p, skips), p, skips) <==> !MeetsEmptyValue(s, p, skips)
  {
    hide *;
    UnderwayAtStart(s, p, skips);
    MarkingMarks(s, s, 0, p, skips);
  }

  // ----- the whole -----

  lemma WholeLoopKeepsMarks(s: string, q: Pattern, p: Pattern, skips: bool)
    requires IsNeedle(p) && IsNeedle(q) && q.text[|q.text| - 1] != ' ' && q.text != "" && IsMarked(s, p, skips)
    ensures IsMarked(Marked(s, q, true), p, skips)
  {
    hide *;
    MarkedKeepsMarks(s, 0, q, p, skips);
    assert s[0..] == s && s[..0] + Marked(s, q, true) == Marked(s, q, true);
  }

  lemma {:induction false} SeparatorsKeepMarks(s: string, key: string, j: nat, p: Pattern, skips: bool)
    requires IsNeedle(p) && IsWord(key) && IsMarked(s, p, skips)
    ensures IsMarked(SeparatorsMarked(s, key, j), p, skips)
    decreases |SEPARATORS| - j
  {
    hide IsNeedle, IsWord, IsMarked, Marked, Lowered;
    if j < |SEPARATORS| {
      NeedleOf(key, SEPARATORS[j]);
      NeedleHasText(Needle(key, SEPARATORS[j]));
      WholeLoopKeepsMarks(s, Needle(key, SEPARATORS[j]), p, skips);
      SeparatorsKeepMarks(Marked(s, Needle(key, SEPARATORS[j]), true), key, j + 1, p, skips);
    }
  }

  lemma {:induction false} KeysKeepMarks(s: string, i: nat, p: Pattern, skips: bool)
    requires IsNeedle(p) && IsMarked(s, p, skips)
    ensures IsMarked(KeysMarked(s, i), p, skips)
    decreases |KEYS| - i
  {
    hide IsNeedle, IsWord, IsMarked, SeparatorsMarked;
    if i < |KEYS| {
      KeysAreWords();
      SeparatorsKeepMarks(s, KEYS[i], 0, p, skips);
      KeysKeepMarks(SeparatorsMarked(s, KEYS[i], 0), i + 1, p, skips);
    }
  }

  /** The text that the loop over the j-th separator of a key is given. */
  function SeparatorsUpTo(s: string, key: string, j: nat): string
    requires j <= |SEPARATORS|
  {
    if j == 0 then s else Marked(SeparatorsUpTo(s, key, j - 1), Needle(key, SEPARATORS[j - 1]), true)
  }

  /** The text that the loops over the i-th key are given. */
  function KeysUpTo(s: string, i: nat): string
    requires i <= |KEYS|
  {
    if i == 0 then s else SeparatorsMarked(KeysUpTo(s, i - 1), KEYS[i - 1], 0)
  }

  lemma {:induction false} SeparatorsGoOn(s: string, key: string, j: nat)
    requires j <= |SEPARATORS|
    ensures SeparatorsMarked(s, key, 0) == SeparatorsMarked(SeparatorsUpTo(s, key, j), key, j)
  {
    hide Marked, Needle;
    if j > 0 {
      SeparatorsGoOn(s, key, j - 1);
    }
  }

  lemma {:induction false} KeysGoOn(s: string, i: nat)
    requires i <= |KEYS|
    ensures KeysMarked(s, 0) == KeysMarked(KeysUpTo(s, i), i)
  {
    hide SeparatorsMarked;
    if i > 0 {
      KeysGoOn(s, i - 1);
    }
  }

  /** The message as the loop over bearer values is given it, and as the loops over the keys are. */
  function BeforeBearer(message: string, home: Option<string>): string {
    WithoutPaths(WithoutHome(message, home))
  }

  function BeforeKeys(message: string, home: Option<string>): string {
    Sweepables();
    Swept(Marked(BeforeBearer(message, home), BEARER, false), TOKEN, REDACTED)
  }

  /** And as the loop over the i-th key with the j-th separator is. */
  function BeforeKey(message: string, home: Option<string>, i: nat, j: nat): string
    requires i < |KEYS| && j < |SEPARATORS|
  {
    SeparatorsUpTo(KeysUpTo(BeforeKeys(message, home), i), KEYS[i], j)
  }

  /** Every `bearer ` in the redacted text is followed by the mark, if on the way through the message
      without its paths none is met that has no value. */
  lemma BearersAreMarked(message: string, home: Option<string>)
    requires !MeetsEmptyValue(BeforeBearer(message, home), BEARER, false)
    ensures IsMarked(RedactedText(message, home), BEARER, false)
  {
    hide MeetsEmptyValue, IsMarked, Marked, Swept, WithoutPaths, WithoutHome, KeysMarked, IsNeedle;
    Sweepables();
    BearerIsNeedle();
    var s := Marked(BeforeBearer(message, home), BEARER, false);
    LoopMarks(BeforeBearer(message, home), BEARER, false);
    SweptKeepsMarks(s, 0, BEARER, false);
    assert s[0..] == s && s[..0] + Swept(s, TOKEN, REDACTED) == Swept(s, TOKEN, REDACTED);
    KeysKeepMarks(BeforeKeys(message, home), 0, BEARER, false);
  }

  lemma AllKeys(message: string, home: Option<string>)
    ensures RedactedText(message, home) == KeysMarked(BeforeKeys(message, home), 0)
  {
    hide Marked, Swept, WithoutPaths, WithoutHome, KeysMarked;
  }

  /** Every key with its separator in the redacted text is followed by the mark, if on the way through
      the text that its loop is given none is met that has no value. */
  lemma SecretsAreMarked(message: string, home: Option<string>, i: nat, j: nat)
    requires i < |KEYS| && j < |SEPARATORS|
    requires !MeetsEmptyValue(BeforeKey(message, home, i, j), Needle(KEYS[i], SEPARATORS[j]), true)
    ensures IsMarked(RedactedText(message, home), Needle(KEYS[i], SEPARATORS[j]), true)
  {
    hide MeetsEmptyValue, IsMarked, Marked, Swept, WithoutPaths, WithoutHome, IsNeedle, IsWord, Lowered, BeforeKeys;
    assert RedactedText(message, home) == KeysMarked(BeforeKeys(message, home), 0) by { AllKeys(message, home); }
    hide RedactedText;
    var p := Needle(KEYS[i], SEPARATORS[j]);
    KeysAreWords();
    NeedleOf(KEYS[i], SEPARATORS[j]);
    NeedleHasText(p);
    var s := KeysUpTo(BeforeKeys(message, home), i);
    KeysGoOn(BeforeKeys(message, home), i);
    SeparatorsGoOn(s, KEYS[i], j);
    LoopMarks(BeforeKey(message, home, i, j), p, true);
    SeparatorsKeepMarks(Marked(BeforeKey(message, home, i, j), p, true), KEYS[i], j + 1, p, true);
    KeysKeepMarks(SeparatorsMarked(s, KEYS[i], 0), i + 1, p, true);
  }
}
