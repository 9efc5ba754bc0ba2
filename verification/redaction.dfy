/** The loops that redact error texts: each rewrites the text in place until its pattern is gone, or
    marked, and ends; together they compute the redacted text. */
module Redaction {
  import opened Text
  import opened RedactionText

  // ----- scanning -----

  method Find(s: string, p: Pattern, from: nat) returns (at: Option<nat>)
    requires from <= |s|
    ensures at == NextMatch(s, p, from)
  {
    var i := from;
    while i <= |s|
      invariant from <= i <= |s| + 1 && NextMatch(s, p, i) == NextMatch(s, p, from)
    {
      if MatchesAt(s, i, p) {
        return Some(i);
      }
      i := i + 1;
    }
    at := None;
  }

  /** Where the value that begins here ends. */
  method FindValueEnd(s: string, from: nat) returns (to: nat)
    requires from <= |s|
    ensures to == ValueEnd(s, from)
  {
    to := from;
    while to < |s| && !EndsValue(s[to])
      invariant from <= to <= |s| && ValueEnd(s, to) == ValueEnd(s, from)
    {
      to := to + 1;
    }
  }

  // ----- home paths and tokens -----

  /** A rewriting that puts walls into a text keeps it free of whatever they are walls for. */
  ghost predicate KeepsFree(s: string, r: string, w: string) {
    forall p :: IsFree(s, p) && IsWall(w, p) ==> IsFree(r, p)
  }

  lemma ReplacedKeepsFree(s: string, r: string, w: string, from: nat, to: nat)
    requires KeepsFree(s, r, w) && from <= to <= |r|
    ensures KeepsFree(s, r[..from] + w + r[to..], w)
  {
    forall p | IsFree(s, p) && IsWall(w, p) ensures IsFree(r[..from] + w + r[to..], p) {
      ReplacedIsFree(r, from, to, w, p);
    }
  }

  lemma SlicesOfRest(s: string, done: nat, at: nat, to: nat)
    requires done <= at <= to <= |s|
    ensures s[done..][..at - done] == s[done..at] && s[done..][to - done..] == s[to..]
  {
  }

  lemma EndsBehind(s: string, at: nat)
    requires at < |s| && !EndsValue(s[at])
    ensures at < ValueEnd(s, at)
  {
  }

  lemma SweepStep(s: string, done: nat, at: nat, p: Pattern, w: string)
    requires IsSweepable(p) && done <= |s| && NextMatch(s, p, done) == Some(at)
    ensures at < |s| && at < ValueEnd(s, at)
    ensures Swept(s[done..], p, w) == s[done..at] + w + Swept(s[ValueEnd(s, at)..], p, w)
  {
    hide MatchesAt, EndsValue, NextMatch, IsSweepable, Swept, ValueEnd;
    MatchIsInValue(s, at, p);
    EndsBehind(s, at);
    NextInRest(s, done, p);
    EndInRest(s, done, at);
    SweptUnfolded(s[done..], at - done, p, w);
    SlicesOfRest(s, done, at, ValueEnd(s, at));
  }

  lemma SweptUnfolded(rest: string, at: nat, p: Pattern, w: string)
    requires IsSweepable(p) && NextMatch(rest, p, 0) == Some(at)
    ensures at <= |rest| && Swept(rest, p, w) == rest[..at] + w + Swept(rest[ValueEnd(rest, at)..], p, w)
  {
    MatchIsInValue(rest, at, p);
    hide MatchesAt, EndsValue, NextMatch, IsSweepable, ValueEnd;
  }

  lemma {:induction false} NextInRest(s: string, done: nat, p: Pattern)
    requires done <= |s|
    ensures var next := NextMatch(s, p, done); var there := NextMatch(s[done..], p, 0);
            if next.Some? then there == Some(next.value - done) else there == None
  {
    NextMatchIs(s, p, done);
    NextMatchIs(s[done..], p, 0);
    hide MatchesAt, NextMatch;
    var next, there := NextMatch(s, p, done), NextMatch(s[done..], p, 0);
    if next.Some? {
      MatchInRest(s, done, next.value, p);
    }
    if there.Some? {
      MatchInRest(s, done, done + there.value, p);
    }
  }

  lemma MatchInRest(s: string, done: nat, i: nat, p: Pattern)
    requires done <= |s| && done <= i
    ensures MatchesAt(s, i, p) <==> MatchesAt(s[done..], i - done, p)
  {
    var rest := s[done..];
    assert forall j | done <= j < |s| :: rest[j - done] == s[j];
    assert forall j | 0 <= j < |rest| :: rest[j] == s[done + j];
  }

  lemma {:induction false} EndInRest(s: string, done: nat, from: nat)
    requires done <= from <= |s|
    ensures ValueEnd(s[done..], from - done) == ValueEnd(s, from) - done
    decreases |s| - from
  {
    if from < |s| && !EndsValue(s[from]) {
      EndInRest(s, done, from + 1);
    }
  }

  lemma SweptWhenFree(s: string, done: nat, p: Pattern, w: string)
    requires IsSweepable(p) && done <= |s| && NextMatch(s, p, done) == None
    ensures Swept(s[done..], p, w) == s[done..]
  {
    hide NextMatch;
    NextInRest(s, done, p);
  }

  lemma FirstFromDone(s: string, p: Pattern, done: nat)
    requires done <= |s| && forall i: nat | i < done :: !MatchesAt(s, i, p)
    ensures NextMatch(s, p, 0) == NextMatch(s, p, done)
    ensures var r := NextMatch(s, p, 0);
            if r.Some? then forall i: nat | i < r.value :: !MatchesAt(s, i, p) else forall i: nat :: !MatchesAt(s, i, p)
  {
    NextMatchIs(s, p, 0);
    NextMatchIs(s, p, done);
    hide MatchesAt, NextMatch;
  }

  /** Up to the end of a wall that replaced the first match, nothing matches. */
  lemma CleanUpTo(s: string, at: nat, to: nat, p: Pattern, w: string)
    requires at <= to <= |s| && IsWall(w, p) && forall i: nat | i < at :: !MatchesAt(s, i, p)
    ensures var r := s[..at] + w + s[to..];
            forall i: nat | i < at + |w| :: !MatchesAt(r, i, p)
  {
    var r := s[..at] + w + s[to..];
    forall i: nat | i < at + |w| ensures !MatchesAt(r, i, p) {
      if MatchesAt(r, i, p) {
        MatchBesideWall(s[..at], w, s[to..], p, i);
        assert s[0..at] == s[..at];
        PartMatch(s, 0, at, p, i);
      }
    }
  }

  lemma Regroup(a: string, b: string, w: string, c: string)
    ensures a + (b + w + c) == a + b + w + c
  {
  }

  /** The loop over one path prefix, and the loop over the token mark: every round replaces the first
      match and looks again from the start. It ends because what is left to look at gets shorter,
      even when the text grows. */
  method Sweep(s: string, p: Pattern, w: string) returns (r: string)
    requires IsSweepable(p) && IsWall(w, p)
    ensures r == Swept(s, p, w)
    ensures IsFree(r, p)
    ensures KeepsFree(s, r, w)
  {
    hide IsFree, IsWall, IsSweepable, IsSwept, Swept, KeepsFree;
    r := s;
    ghost var done: nat := 0;
    SweptAtStart(s, p, w);
    while true
      invariant done <= |r| && IsSwept(s, r, done, p, w)
      decreases |r| - done
    {
      var at := Find(r, p, 0);
      if at.None? {
        SweptEnds(s, r, done, p, w);
        return;
      }
      SweptAt(s, r, done, at.value, p, w);
      var to := FindValueEnd(r, at.value);
      r := r[..at.value] + w + r[to..];
      done := at.value + |w|;
    }
  }

  /** What holds between two rounds: up to here nothing matches, and the rest makes what it would. */
  ghost predicate IsSwept(s: string, r: string, done: nat, p: Pattern, w: string)
    requires IsSweepable(p)
  {
    && done <= |r| && KeepsFree(s, r, w) && Swept(s, p, w) == r[..done] + Swept(r[done..], p, w)
    && forall i: nat | i < done :: !MatchesAt(r, i, p)
  }

  lemma SweptAtStart(s: string, p: Pattern, w: string)
    requires IsSweepable(p)
    ensures IsSwept(s, s, 0, p, w)
  {
    hide Swept, MatchesAt;
    assert s[0..] == s && s[..0] + Swept(s, p, w) == Swept(s, p, w);
  }

  lemma SweptEnds(s: string, r: string, done: nat, p: Pattern, w: string)
    requires IsSweepable(p) && IsSwept(s, r, done, p, w) && NextMatch(r, p, 0) == None
    ensures r == Swept(s, p, w) && IsFree(r, p) && KeepsFree(s, r, w)
  {
    hide MatchesAt, NextMatch, Swept, KeepsFree;
    FirstFromDone(r, p, done);
    SweptWhenFree(r, done, p, w);
    assert r[..done] + r[done..] == r;
  }

  lemma SweptAt(s: string, r: string, done: nat, at: nat, p: Pattern, w: string)
    requires IsSweepable(p) && IsWall(w, p) && IsSwept(s, r, done, p, w) && NextMatch(r, p, 0) == Some(at)
    ensures at < |r| && at < ValueEnd(r, at)
    ensures var t := r[..at] + w + r[ValueEnd(r, at)..];
            at + |w| <= |t| && |t| - (at + |w|) < |r| - done && IsSwept(s, t, at + |w|, p, w)
  {
    hide MatchesAt, NextMatch, Swept, KeepsFree, IsWall, IsSweepable;
    FirstFromDone(r, p, done);
    SweepStep(r, done, at, p, w);
    var to := ValueEnd(r, at);
    ReplacedKeepsFree(s, r, w, at, to);
    CleanUpTo(r, at, to, p, w);
    Regroup(r[..done], r[done..at], w, Swept(r[to..], p, w));
    assert r[..done] + r[done..at] == r[..at];
    var t := r[..at] + w + r[to..];
    assert t[..at + |w|] == r[..at] + w && t[at + |w|..] == r[to..];
  }

  // ----- bearer values and keyed secrets -----

  /** Behind a key, white space and quotes are skipped; behind `bearer ` nothing is. */
  method FindValueStart(s: string, from: nat, skips: bool) returns (to: nat)
    requires from <= |s|
    ensures to == ValueStart(s, from, skips)
  {
    to := from;
    while skips && to < |s| && IsPadding(s[to])
      invariant from <= to <= |s| && ValueStart(s, to, skips) == ValueStart(s, from, skips)
    {
      to := to + 1;
    }
  }

  lemma {:induction false} ValueStartKept(s: string, t: string, i: nat, skips: bool, k: nat)
    requires i <= |s| && ValueStart(s, i, skips) <= k < |t| && k <= |s|
    requires s[..k] == t[..k] && (ValueStart(s, i, skips) == k ==> !IsPadding(t[k]))
    ensures ValueStart(t, i, skips) == ValueStart(s, i, skips)
    decreases |s| - i
  {
    assert i < k ==> s[i] == s[..k][i] == t[..k][i] == t[i];
    if skips && i < |s| && IsPadding(s[i]) {
      ValueStartKept(s, t, i + 1, skips, k);
    }
  }

  /** A needle: its last character is a mark that is nowhere else in it, nor in what replaces values. */
  predicate IsNeedle(p: Pattern) {
    && p.text != "" && '[' !in p.text && ']' !in p.text
    && var mark := p.text[|p.text| - 1];
       && !('a' <= mark <= 'z') && mark !in p.text[..|p.text| - 1] && (mark == ' ' || mark == '=' || mark == ':')
  }

  /** The value after the needle at i is redacted, and lies before k. */
  predicate IsDone(s: string, i: nat, p: Pattern, skips: bool, k: nat) {
    i + |p.text| <= |s| && IsRedactedAt(s, ValueStart(s, i + |p.text|, skips))
    && ValueStart(s, i + |p.text|, skips) + |REDACTED| <= k
  }

  ghost predicate AllDone(s: string, p: Pattern, skips: bool, k: nat) {
    forall i: nat | i < k && MatchesAt(s, i, p) :: IsDone(s, i, p, skips, k)
  }

  /** Behind a needle, its padding and the mark that replaced its value, no needle ends or begins. */
  lemma MatchIsBefore(s: string, p: Pattern, skips: bool, at: nat, from: nat, i: nat)
    requires IsNeedle(p) && (skips ==> p.text[|p.text| - 1] != ' ')
    requires at + |p.text| <= |s| && from == ValueStart(s, at + |p.text|, skips) && IsRedactedAt(s, from)
    requires i < from + |REDACTED| && MatchesAt(s, i, p)
    ensures i <= at
  {
    ValueStartIs(s, at + |p.text|, skips);
    var end := i + |p.text| - 1;
    var last := from + |REDACTED| - 1;
    assert p.Seen(s[end]) == p.text[|p.text| - 1];
    assert s[last] == s[from..from + |REDACTED|][|REDACTED| - 1] == ']';
    assert forall j | i <= j <= end :: p.Seen(s[j]) in p.text;
    assert forall j | from <= j <= last :: s[j] == REDACTED[j - from];
    assert from > at + |p.text| ==> skips;
    MarkIsNotRedacted(p);
  }

  lemma MarkIsNotRedacted(p: Pattern)
    requires IsNeedle(p)
    ensures forall k | 0 <= k < |REDACTED| :: p.Seen(REDACTED[k]) != p.text[|p.text| - 1]
  {
  }

  lemma OneMoreDone(s: string, t: string, p: Pattern, skips: bool, start: nat, at: nat, from: nat)
    requires IsNeedle(p) && (skips ==> p.text[|p.text| - 1] != ' ')
    requires AllDone(s, p, skips, start) && start <= at && MatchesAt(s, at, p)
    requires forall i: nat | start <= i < at :: !MatchesAt(s, i, p)
    requires from == ValueStart(s, at + |p.text|, skips) && from <= |t| && s[..from] == t[..from]
             && IsRedactedAt(t, from)
    ensures from + |REDACTED| <= |t| && AllDone(t, p, skips, from + |REDACTED|)
  {
    hide IsNeedle, MatchesAt, ValueStart;
    forall i: nat | i < from + |REDACTED| && MatchesAt(t, i, p) ensures IsDone(t, i, p, skips, from + |REDACTED|) {
      MarkedValue(s, t, p, skips, at, from);
      MatchIsBefore(t, p, skips, at, from, i);
      MatchKept(s, t, from, i, p);
      if i < at {
        assert IsDone(s, i, p, skips, start);
        StillDone(s, t, p, skips, start, from, i);
      }
    }
  }

  lemma MarkedValue(s: string, t: string, p: Pattern, skips: bool, at: nat, from: nat)
    requires at + |p.text| <= |s| && from == ValueStart(s, at + |p.text|, skips) && from <= |t|
             && s[..from] == t[..from]
    requires IsRedactedAt(t, from)
    ensures at + |p.text| <= |t| && ValueStart(t, at + |p.text|, skips) == from
    ensures IsDone(t, at, p, skips, from + |REDACTED|)
  {
    assert t[from] == t[from..from + |REDACTED|][0] == '[';
    ValueStartKept(s, t, at + |p.text|, skips, from);
  }

  lemma MatchKept(s: string, t: string, from: nat, i: nat, p: Pattern)
    requires from <= |s| && from <= |t| && s[..from] == t[..from] && i + |p.text| <= from && MatchesAt(t, i, p)
    ensures MatchesAt(s, i, p)
  {
    assert forall j | 0 <= j < from :: s[j] == s[..from][j] == t[..from][j] == t[j];
  }

  lemma SamePrefix(s: string, t: string, from: nat, k: nat)
    requires from <= |s| && from <= |t| && s[..from] == t[..from] && k < from
    ensures s[..k] == t[..k] && s[k] == t[k]
  {
    assert s[..k] == s[..from][..k] && t[..k] == t[..from][..k];
    assert s[k] == s[..from][k] && t[k] == t[..from][k];
  }

  lemma StillDone(s: string, t: string, p: Pattern, skips: bool, start: nat, from: nat, i: nat)
    requires IsDone(s, i, p, skips, start) && start <= from <= |s| && from <= |t| && s[..from] == t[..from]
    ensures IsDone(t, i, p, skips, from + |REDACTED|)
  {
    var k := ValueStart(s, i + |p.text|, skips);
    hide IsRedactedAt, ValueStart;
    RedactedKept(s, t, from, k);
    SamePrefix(s, t, from, k);
    ValueStartKept(s, t, i + |p.text|, skips, k);
  }

  lemma RedactedKept(s: string, t: string, from: nat, k: nat)
    requires from <= |s| && from <= |t| && s[..from] == t[..from] && k + |REDACTED| <= from && IsRedactedAt(s, k)
    ensures IsRedactedAt(t, k) && t[k] == '['
  {
    assert s[k..k + |REDACTED|] == s[..from][k..k + |REDACTED|];
    assert t[k..k + |REDACTED|] == t[..from][k..k + |REDACTED|];
    assert t[k] == t[k..k + |REDACTED|][0];
  }

  lemma DoneUpTo(s: string, p: Pattern, skips: bool, start: nat, stop: nat)
    requires AllDone(s, p, skips, start) && start <= stop
    requires forall i: nat | start <= i < stop :: !MatchesAt(s, i, p)
    ensures AllDone(s, p, skips, stop)
  {
    forall i: nat | i < stop && MatchesAt(s, i, p) ensures IsDone(s, i, p, skips, stop) {
      assert IsDone(s, i, p, skips, start);
    }
  }

  lemma NothingDone(s: string, p: Pattern, skips: bool)
    ensures AllDone(s, p, skips, 0)
  {
  }

  lemma ReplacedIsRedacted(s: string, from: nat, to: nat)
    requires from <= to <= |s|
    ensures var t := s[..from] + REDACTED + s[to..];
            t[..from] == s[..from] && IsRedactedAt(t, from)
  {
    var t := s[..from] + REDACTED + s[to..];
    assert t[from..from + |REDACTED|] == REDACTED;
  }

  /** The next needle of a text, where the value behind it begins and where that ends. */
  predicate IsRound(s: string, start: nat, at: nat, from: nat, to: nat, p: Pattern, skips: bool) {
    && p.text != "" && start <= |s| && NextMatch(s, p, start) == Some(at) && at + |p.text| <= |s|
    && from == ValueStart(s, at + |p.text|, skips) && to == ValueEnd(s, from)
  }

  lemma RoundInRest(s: string, start: nat, at: nat, from: nat, to: nat, p: Pattern, skips: bool)
    requires IsRound(s, start, at, from, to, p, skips)
    ensures start < from && NextRound(s[start..], p, skips) == RoundOf(s, start, from, to)
  {
    hide EndsValue, MatchesAt, ValueStart, ValueEnd, NextMatch, IsRedactedAt, NextRound;
    NextInRest(s, start, p);
    StartInRest(s, start, at + |p.text|, skips);
    EndInRest(s, start, from);
    MarkInRest(s, start, from);
    RoundIs(s[start..], at - start, from - start, to - start, p, skips);
  }

  /** What a round calls for, in terms of the text that is left to look at. */
  function RoundOf(s: string, start: nat, from: nat, to: nat): Round
    requires start <= from <= to
  {
    if IsRedactedAt(s, from) then HasMark(from - start + |REDACTED|)
    else if to == from then HasNoValue
    else HasValue(from - start, to - start)
  }

  lemma RoundIs(rest: string, at: nat, from: nat, to: nat, p: Pattern, skips: bool)
    requires p.text != "" && NextMatch(rest, p, 0) == Some(at)
    requires at + |p.text| <= |rest| && ValueStart(rest, at + |p.text|, skips) == from && ValueEnd(rest, from) == to
    ensures NextRound(rest, p, skips) == RoundOf(rest, 0, from, to)
  {
    hide EndsValue, MatchesAt, ValueStart, ValueEnd, NextMatch, IsRedactedAt;
  }

  /** The text made so far, and the text that is left to look at, still make the marked text. */
  predicate IsSoFar(s: string, r: string, start: nat, p: Pattern, skips: bool)
    requires p.text != ""
  {
    && start <= |r| && Marked(s, p, skips) == r[..start] + Marked(r[start..], p, skips)
    && MeetsEmptyValue(s, p, skips) == MeetsEmptyValue(r[start..], p, skips)
  }

  lemma SoFarAtStart(s: string, p: Pattern, skips: bool)
    requires p.text != ""
    ensures IsSoFar(s, s, 0, p, skips)
  {
    assert s[0..] == s && s[..0] + Marked(s, p, skips) == Marked(s, p, skips);
  }

  lemma SoFarSkipped(s: string, r: string, start: nat, k: nat, p: Pattern, skips: bool)
    requires p.text != "" && IsSoFar(s, r, start, p, skips) && start < k <= |r|
    requires NextRound(r[start..], p, skips) == HasMark(k - start)
    ensures IsSoFar(s, r, k, p, skips)
  {
    hide NextRound;
    assert r[start..][..k - start] == r[start..k] && r[start..][k - start..] == r[k..];
    assert r[..start] + r[start..k] == r[..k];
    Joined(r[..start], r[start..k], Marked(r[k..], p, skips));
  }

  lemma Joined(a: string, b: string, c: string)
    ensures a + (b + c) == a + b + c
  {
  }

  lemma SoFarEmpty(s: string, r: string, start: nat, p: Pattern, skips: bool)
    requires p.text != "" && IsSoFar(s, r, start, p, skips) && NextRound(r[start..], p, skips) == HasNoValue
    ensures r == Marked(s, p, skips) && MeetsEmptyValue(s, p, skips)
  {
    hide NextRound;
    assert r[..start] + r[start..] == r;
  }

  lemma SoFarReplaced(s: string, r: string, start: nat, from: nat, to: nat, p: Pattern, skips: bool)
    requires p.text != "" && IsSoFar(s, r, start, p, skips) && start <= from < to <= |r|
    requires NextRound(r[start..], p, skips) == HasValue(from - start, to - start)
    ensures IsSoFar(s, r[..from] + REDACTED + r[to..], from + |REDACTED|, p, skips)
  {
    hide NextRound;
    assert r[start..][..from - start] == r[start..from] && r[start..][to - start..] == r[to..];
    Regroup(r[..start], r[start..from], REDACTED, Marked(r[to..], p, skips));
    assert r[..start] + r[start..from] == r[..from];
    var t := r[..from] + REDACTED + r[to..];
    assert t[..from + |REDACTED|] == r[..from] + REDACTED && t[from + |REDACTED|..] == r[to..];
  }

  lemma SoFarFree(s: string, r: string, start: nat, p: Pattern, skips: bool)
    requires p.text != "" && IsSoFar(s, r, start, p, skips) && NextMatch(r, p, start) == None
    ensures r == Marked(s, p, skips) && !MeetsEmptyValue(s, p, skips)
  {
    hide MatchesAt;
    MarkedWhenFree(r, start, p, skips);
    assert r[..start] + r[start..] == r;
  }

  lemma {:induction false} StartInRest(s: string, start: nat, i: nat, skips: bool)
    requires start <= i <= |s|
    ensures ValueStart(s[start..], i - start, skips) == ValueStart(s, i, skips) - start
    decreases |s| - i
  {
    if skips && i < |s| && IsPadding(s[i]) {
      StartInRest(s, start, i + 1, skips);
    }
  }

  lemma MarkInRest(s: string, start: nat, from: nat)
    requires start <= from <= |s|
    ensures IsRedactedAt(s[start..], from - start) <==> IsRedactedAt(s, from)
  {
    if from + |REDACTED| <= |s| {
      assert s[start..][from - start..from - start + |REDACTED|] == s[from..from + |REDACTED|];
    }
  }

  /** Every needle in the text is followed by the mark. */
  ghost predicate IsMarked(s: string, p: Pattern, skips: bool) {
    forall i: nat | MatchesAt(s, i, p) :: IsRedactedAt(s, ValueStart(s, i + |p.text|, skips))
  }

  lemma AllDoneIsMarked(s: string, p: Pattern, skips: bool)
    requires p.text != "" && AllDone(s, p, skips, |s| + 1)
    ensures IsMarked(s, p, skips)
  {
    forall i: nat | MatchesAt(s, i, p) ensures IsRedactedAt(s, ValueStart(s, i + |p.text|, skips)) {
      assert IsDone(s, i, p, skips, |s| + 1);
    }
  }

  lemma EmptyIsNotMarked(s: string, i: nat, p: Pattern, skips: bool)
    requires MatchesAt(s, i, p) && !IsRedactedAt(s, ValueStart(s, i + |p.text|, skips))
    ensures !IsMarked(s, p, skips)
  {
  }

  lemma MarkedWhenFree(s: string, start: nat, p: Pattern, skips: bool)
    requires p.text != "" && start <= |s| && NextMatch(s, p, start) == None
    ensures Marked(s[start..], p, skips) == s[start..] && !MeetsEmptyValue(s[start..], p, skips)
  {
    hide NextMatch;
    NextInRest(s, start, p);
  }

  /** What holds between two rounds. */
  ghost predicate IsUnderway(s: string, r: string, start: nat, p: Pattern, skips: bool)
    requires p.text != ""
  {
    KeepsFree(s, r, REDACTED) && AllDone(r, p, skips, start) && IsSoFar(s, r, start, p, skips)
  }

  lemma UnderwayAtStart(s: string, p: Pattern, skips: bool)
    requires p.text != ""
    ensures IsUnderway(s, s, 0, p, skips)
  {
    hide IsSoFar;
    NothingDone(s, p, skips);
    SoFarAtStart(s, p, skips);
  }

  lemma UnderwayEnds(s: string, r: string, start: nat, p: Pattern, skips: bool)
    requires p.text != "" && IsUnderway(s, r, start, p, skips) && start <= |r| && NextMatch(r, p, start) == None
    ensures r == Marked(s, p, skips) && !MeetsEmptyValue(s, p, skips) && IsMarked(r, p, skips)
            && KeepsFree(s, r, REDACTED)
  {
    hide MatchesAt, AllDone, IsSoFar, IsMarked, KeepsFree, Marked, MeetsEmptyValue;
    NextMatchIs(r, p, start);
    DoneUpTo(r, p, skips, start, |r| + 1);
    AllDoneIsMarked(r, p, skips);
    SoFarFree(s, r, start, p, skips);
  }

  /** Once the value behind the next needle is marked, everything up to the end of the mark is done. */
  lemma DonePast(r: string, t: string, start: nat, at: nat, from: nat, to: nat, p: Pattern, skips: bool)
    requires IsNeedle(p) && (skips ==> p.text[|p.text| - 1] != ' ') && IsRound(r, start, at, from, to, p, skips)
    requires AllDone(r, p, skips, start) && from <= |t| && r[..from] == t[..from] && IsRedactedAt(t, from)
    ensures from + |REDACTED| <= |t| && AllDone(t, p, skips, from + |REDACTED|)
  {
    NextMatchIs(r, p, start);
    hide IsNeedle, MatchesAt, AllDone, NextMatch, ValueStart, ValueEnd, IsRedactedAt;
    OneMoreDone(r, t, p, skips, start, at, from);
  }

  lemma UnderwaySkips(s: string, r: string, start: nat, at: nat, from: nat, to: nat, p: Pattern, skips: bool)
    requires IsNeedle(p) && (skips ==> p.text[|p.text| - 1] != ' ') && IsRound(r, start, at, from, to, p, skips)
    requires IsUnderway(s, r, start, p, skips) && IsRedactedAt(r, from)
    ensures start < from + |REDACTED| <= |r| && IsUnderway(s, r, from + |REDACTED|, p, skips)
  {
    hide IsNeedle, IsRound, AllDone, IsSoFar, KeepsFree, NextRound, IsRedactedAt, EndsValue, ValueStart, ValueEnd;
    RoundInRest(r, start, at, from, to, p, skips);
    RoundFits(r, start, at, from, to, p, skips);
    DonePast(r, r, start, at, from, to, p, skips);
    SoFarSkipped(s, r, start, from + |REDACTED|, p, skips);
  }

  lemma UnderwayStops(s: string, r: string, start: nat, at: nat, from: nat, p: Pattern, skips: bool)
    requires IsRound(r, start, at, from, from, p, skips)
    requires IsUnderway(s, r, start, p, skips) && !IsRedactedAt(r, from)
    ensures r == Marked(s, p, skips) && MeetsEmptyValue(s, p, skips) && !IsMarked(r, p, skips)
            && KeepsFree(s, r, REDACTED)
  {
    RoundInRest(r, start, at, from, from, p, skips);
    hide MatchesAt, AllDone, IsSoFar, KeepsFree, NextRound, EndsValue, ValueStart, IsMarked, Marked, MeetsEmptyValue;
    EmptyIsNotMarked(r, at, p, skips);
    SoFarEmpty(s, r, start, p, skips);
  }

  lemma UnderwayReplaces(s: string, r: string, start: nat, at: nat, from: nat, to: nat, p: Pattern, skips: bool)
    requires IsNeedle(p) && (skips ==> p.text[|p.text| - 1] != ' ') && IsRound(r, start, at, from, to, p, skips)
    requires IsUnderway(s, r, start, p, skips) && !IsRedactedAt(r, from) && from < to
    ensures to <= |r|
    ensures var t := r[..from] + REDACTED + r[to..];
            from + |REDACTED| <= |t| && |t| - (from + |REDACTED|) < |r| - start
              && IsUnderway(s, t, from + |REDACTED|, p, skips)
  {
    RoundInRest(r, start, at, from, to, p, skips);
    RoundFits(r, start, at, from, to, p, skips);
    hide IsNeedle, IsRound, AllDone, IsSoFar, KeepsFree, NextRound, IsRedactedAt, EndsValue, ValueStart, ValueEnd;
    ReplacedKeepsFree(s, r, REDACTED, from, to);
    ReplacedIsRedacted(r, from, to);
    DonePast(r, r[..from] + REDACTED + r[to..], start, at, from, to, p, skips);
    SoFarReplaced(s, r, start, from, to, p, skips);
  }

  lemma RoundFits(r: string, start: nat, at: nat, from: nat, to: nat, p: Pattern, skips: bool)
    requires IsRound(r, start, at, from, to, p, skips)
    ensures p.text != "" && start <= from <= to <= |r|
  {
  }

  lemma RoundAt(r: string, start: nat, at: nat, p: Pattern, skips: bool)
    requires p.text != "" && start <= |r| && NextMatch(r, p, start) == Some(at)
    ensures at + |p.text| <= |r|
    ensures var from := ValueStart(r, at + |p.text|, skips); IsRound(r, start, at, from, ValueEnd(r, from), p, skips)
  {
    MatchFits(r, at, p);
    hide MatchesAt, NextMatch, ValueStart, ValueEnd;
  }

  /** One round: going on behind a mark, giving up where a value is missing, or replacing the value. */
  method MarkNext(ghost s: string, r: string, start: nat, at: nat, p: Pattern, skips: bool)
    returns (t: string, next: Option<nat>)
    requires IsNeedle(p) && (skips ==> p.text[|p.text| - 1] != ' ') && p.text != ""
    requires start <= |r| && IsUnderway(s, r, start, p, skips) && NextMatch(r, p, start) == Some(at)
    ensures next.Some? ==> next.value <= |t| && |t| - next.value < |r| - start && IsUnderway(s, t, next.value, p, skips)
    ensures next.None? ==>
            t == Marked(s, p, skips) && MeetsEmptyValue(s, p, skips) && !IsMarked(t, p, skips)
            && KeepsFree(s, t, REDACTED)
  {
    hide *;
    RoundAt(r, start, at, p, skips);
    var from := FindValueStart(r, at + |p.text|, skips);
    var to := FindValueEnd(r, from);
    RoundFits(r, start, at, from, to, p, skips);
    if IsRedactedAt(r, from) {
      UnderwaySkips(s, r, start, at, from, to, p, skips);
      t, next := r, Some(from + |REDACTED|);
    } else if to <= from {
      UnderwayStops(s, r, start, at, from, p, skips);
      t, next := r, None;
    } else {
      UnderwayReplaces(s, r, start, at, from, to, p, skips);
      t, next := r[..from] + REDACTED + r[to..], Some(from + |REDACTED|);
    }
  }

  /** The loop over one needle, for `bearer ` and for each key with its separator. It marks every
      needle exactly when the text it was given has no needle without a value on the way. */
  method RedactValues(s: string, p: Pattern, skips: bool) returns (r: string)
    requires IsNeedle(p) && (skips ==> p.text[|p.text| - 1] != ' ')
    ensures r == Marked(s, p, skips)
    ensures IsMarked(r, p, skips) <==> !MeetsEmptyValue(s, p, skips)
    ensures KeepsFree(s, r, REDACTED)
  {
    NeedleHasText(p);
    hide IsNeedle, IsMarked, IsUnderway, NextMatch, Marked, MeetsEmptyValue, KeepsFree;
    r := s;
    var start: nat := 0;
    UnderwayAtStart(s, p, skips);
    while true
      invariant start <= |r| && IsUnderway(s, r, start, p, skips)
      decreases |r| - start
    {
      var at := Find(r, p, start);
      if at.None? {
        UnderwayEnds(s, r, start, p, skips);
        return;
      }
      var next: Option<nat>;
      r, next := MarkNext(s, r, start, at.value, p, skips);
      if next.None? {
        return;
      }
      start := next.value;
    }
  }

  lemma NeedleHasText(p: Pattern)
    requires IsNeedle(p)
    ensures p.text != ""
  {
  }

  lemma MatchFits(s: string, at: nat, p: Pattern)
    requires MatchesAt(s, at, p)
    ensures at + |p.text| <= |s|
  {
  }

  // ----- the whole -----

  /** The patterns that no redacted text contains. */
  ghost predicate IsClean(s: string) {
    IsFree(s, HOME_PATH) && IsFree(s, USERS_PATH) && IsFree(s, TOKEN)
  }

  lemma TildeWalls()
    ensures IsWall("~", HOME_PATH) && IsWall("~", USERS_PATH)
  {
  }

  lemma MarkWallsOffPaths()
    ensures IsWall(REDACTED, HOME_PATH) && IsWall(REDACTED, USERS_PATH)
  {
  }

  lemma MarkWallsOffTokens()
    ensures IsWall(REDACTED, TOKEN)
  {
  }

  lemma CutWallsOffPaths()
    ensures IsWall(TRUNCATED, HOME_PATH) && IsWall(TRUNCATED, USERS_PATH)
  {
  }

  lemma CutWallsOffTokens()
    ensures IsWall(TRUNCATED, TOKEN)
  {
  }

  lemma StaysClean(s: string, r: string)
    requires IsClean(s) && KeepsFree(s, r, REDACTED)
    ensures IsClean(r)
  {
    MarkWallsOffPaths();
    MarkWallsOffTokens();
    hide IsWall, IsFree;
  }

  lemma CutIsClean(s: string, r: string)
    requires IsClean(s) && r <= s
    ensures IsClean(r + TRUNCATED)
  {
    CutWallsOffPaths();
    CutWallsOffTokens();
    hide IsWall, IsFree;
    assert s[0..|r|] == r;
    forall p | p == HOME_PATH || p == USERS_PATH || p == TOKEN ensures IsFree(r + TRUNCATED, p) {
      PartIsFree(s, 0, |r|, p);
      assert r + TRUNCATED + "" == r + TRUNCATED;
      EmptyIsFree(p);
      WallKeepsFree(r, TRUNCATED, "", p);
    }
  }

  lemma EmptyIsFree(p: Pattern)
    requires p.text != ""
    ensures IsFree("", p)
  {
  }

  predicate IsWord(key: string) {
    key != "" && forall c <- key :: 'a' <= c <= 'z' || 'A' <= c <= 'Z' || c == '_'
  }

  lemma KeysAreWords()
    ensures forall key <- KEYS :: IsWord(key)
  {
    forall i | 0 <= i < |KEYS| ensures IsWord(KEYS[i]) {
      if i < 5 {
        FirstKeysAreWords();
      } else {
        LastKeysAreWords();
      }
    }
  }

  lemma FirstKeysAreWords()
    ensures forall i | 0 <= i < 5 :: IsWord(KEYS[i])
  {
    assert IsWord("access_token") && IsWord("refresh_token") && IsWord("id_token") && IsWord("authorization")
           && IsWord("password");
  }

  lemma LastKeysAreWords()
    ensures forall i | 5 <= i < |KEYS| :: IsWord(KEYS[i])
  {
    assert IsWord("session_secret") && IsWord("sessionSecret") && IsWord("hcaptchaSecretKey");
    assert IsWord("webhookUrl") && IsWord("slackWebhookUrl");
  }

  lemma NeedleOf(key: string, separator: string)
    requires IsWord(key) && separator in SEPARATORS
    ensures var p := Needle(key, separator); IsNeedle(p) && p.text[|p.text| - 1] != ' '
  {
    var t := Lowered(key) + separator;
    assert forall k | 0 <= k < |key| :: key[k] in key && t[k] == Lower(key[k]);
    assert forall k | 0 <= k < |key| :: 'a' <= t[k] <= 'z' || t[k] == '_';
    assert |separator| == 1 || (|separator| == 2 && (separator[0] == '"' || separator[0] == '\''));
    assert t[|t| - 1] == separator[|separator| - 1];
  }

  lemma BearerIsNeedle()
    ensures IsNeedle(BEARER)
  {
  }

  ghost predicate HasNoPaths(s: string) {
    IsFree(s, HOME_PATH) && IsFree(s, USERS_PATH)
  }

  lemma PathsStayGone(s: string, r: string)
    requires HasNoPaths(s) && KeepsFree(s, r, REDACTED)
    ensures HasNoPaths(r)
  {
    MarkWallsOffPaths();
    hide IsWall, IsFree;
  }

  lemma IsCleanNow(s: string)
    requires HasNoPaths(s) && IsFree(s, TOKEN)
    ensures IsClean(s)
  {
  }

  method RedactPaths(s: string) returns (r: string)
    ensures r == WithoutPaths(s)
    ensures HasNoPaths(r)
  {
    hide IsFree, IsWall, MatchesAt, Swept;
    TildeWalls();
    Sweepables();
    r := Sweep(s, HOME_PATH, "~");
    ghost var was := r;
    r := Sweep(r, USERS_PATH, "~");
    assert KeepsFree(was, r, "~");
  }

  /** The loop over the separators of one key. */
  method RedactKey(s: string, key: string) returns (r: string)
    requires IsWord(key)
    ensures r == SeparatorsMarked(s, key, 0)
    ensures IsClean(s) ==> IsClean(r)
  {
    hide IsFree, IsWall, IsClean, KeepsFree, IsNeedle, IsMarked, Marked, MeetsEmptyValue, Lowered, IsWord;
    r := s;
    for j := 0 to |SEPARATORS|
      invariant SeparatorsMarked(s, key, 0) == SeparatorsMarked(r, key, j)
      invariant IsClean(s) ==> IsClean(r)
    {
      ghost var was := r;
      NeedleOf(key, SEPARATORS[j]);
      r := RedactValues(r, Needle(key, SEPARATORS[j]), true);
      if IsClean(was) {
        StaysClean(was, r);
      }
    }
  }

  /** `redact_user_facing_error` before it is cut: the loops compute the redacted text; each leaves its
      pattern nowhere, and none of the later ones brings an earlier pattern back. */
  method RedactAll(message: string, home: Option<string>) returns (r: string)
    ensures r == RedactedText(message, home)
    ensures IsClean(r)
  {
    hide IsFree, IsWall, IsClean, KeepsFree, IsNeedle, IsMarked, Marked, MeetsEmptyValue, Lowered, Trim, IsWord,
         Swept, SeparatorsMarked,
         Replace, WithoutPaths, HasNoPaths;
    r := message;
    if home.Some? {
      var dir := Trim(home.value);
      if dir != "" && dir != "/" {
        r := Replace(r, dir, "~");
      }
    }
    r := RedactPaths(r);
    BearerIsNeedle();
    ghost var was := r;
    r := RedactValues(r, BEARER, false);
    PathsStayGone(was, r);
    was := r;
    MarkWallsOffTokens();
    Sweepables();
    r := Sweep(r, TOKEN, REDACTED);
    PathsStayGone(was, r);
    IsCleanNow(r);
    KeysAreWords();
    ghost var tokenless := r;
    for i := 0 to |KEYS|
      invariant IsClean(r)
      invariant KeysMarked(tokenless, 0) == KeysMarked(r, i)
    {
      r := RedactKey(r, KEYS[i]);
    }
  }

  /** `String::truncate`, which panics when the cut is inside a character. */
  method Truncate(s: string, bytes: nat) returns (r: Option<string>)
    requires bytes <= Bytes(s)
    ensures r == CutAt(s, bytes, 0)
    ensures r.Some? <==> IsBoundary(s, bytes)
    ensures r.Some? ==> Bytes(r.value) == bytes && r.value <= s
  {
    hide Bytes;
    var n := 0;
    while n <= |s|
      invariant n <= |s| + 1 && CutAt(s, bytes, n) == CutAt(s, bytes, 0)
      invariant forall k: nat | k < n :: Bytes(s[..k]) != bytes
    {
      if Bytes(s[..n]) == bytes {
        return Some(s[..n]);
      }
      n := n + 1;
    }
    r := None;
  }

  /** `redact_user_facing_error`: every loop ends, and the text that is returned is the redacted text
      of the message, with no home path, no token in any case, and at most 4014 bytes. One is returned
      unless the redacted text is too long and byte 4000 of it lies inside a character. */
  method Redact(message: string, home: Option<string>) returns (redacted: Option<string>)
    ensures redacted == Redacted(message, home)
    ensures redacted.Some? <==>
            Bytes(RedactedText(message, home)) <= MAX_BYTES || IsBoundary(RedactedText(message, home), MAX_BYTES)
    ensures redacted.Some? ==> IsClean(redacted.value) && Bytes(redacted.value) <= MAX_BYTES + 14
  {
    hide IsClean, IsBoundary, Bytes, RedactedText, CutAt;
    var r := RedactAll(message, home);
    if Bytes(r) <= MAX_BYTES {
      return Some(r);
    }
    var cut := Truncate(r, MAX_BYTES);
    if cut.None? {
      return None;
    }
    CutIsClean(r, cut.value);
    BytesConcat(cut.value, TRUNCATED);
    MarkBytes();
    redacted := Some(cut.value + TRUNCATED);
  }

  lemma MarkBytes()
    ensures Bytes(TRUNCATED) == 14
  {
    assert TRUNCATED == "..." + "[truncated]";
    BytesConcat("...", "[truncated]");
    BytesOfAscii("...");
    BytesOfAscii("[truncated]");
  }

  lemma {:induction false} BytesOfAscii(s: string)
    requires forall i | 0 <= i < |s| :: s[i] as int < 0x80
    ensures Bytes(s) == |s|
  {
    if s != "" {
      BytesOfAscii(s[..|s| - 1]);
    }
  }
}
