/** The string operations of Rust's standard library that the modelled code relies on:
    trimming by Unicode `White_Space`, splitting and joining at line feeds, and replacement. */
module Text {

  datatype Option<+T> = None | Some(value: T) {
    function GetOr(default: T): T {
      match this
      case Some(v) => v
      case None => default
    }
  }

  const LF := '\n'

  /** `char::is_whitespace`: the code points with the Unicode property White_Space. */
  predicate IsSpace(c: char) {
    || '\U{0009}' <= c <= '\U{000D}' || c == ' ' || c == '\U{0085}' || c == '\U{00A0}' || c == '\U{1680}'
    || '\U{2000}' <= c <= '\U{200A}' || c == '\U{2028}' || c == '\U{2029}' || c == '\U{202F}'
    || c == '\U{205F}' || c == '\U{3000}'
  }

  /** They are 25. */
  lemma SpacesAre(c: char)
    ensures IsSpace(c) <==>
              c as int in [0x9, 0xA, 0xB, 0xC, 0xD, 0x20, 0x85, 0xA0, 0x1680, 0x2000, 0x2001, 0x2002, 0x2003, 0x2004,
                           0x2005, 0x2006, 0x2007, 0x2008, 0x2009, 0x200A, 0x2028, 0x2029, 0x202F, 0x205F, 0x3000]
  {
  }

  function TrimStart(s: string): string {
    if s == "" || !IsSpace(s[0]) then s else TrimStart(s[1..])
  }

  function TrimEnd(s: string): string {
    if s == "" || !IsSpace(s[|s| - 1]) then s else TrimEnd(s[..|s| - 1])
  }

  function Trim(s: string): string {
    TrimEnd(TrimStart(s))
  }

  predicate IsBlank(s: string) {
    Trim(s) == ""
  }

  /** `str::split('\n')`. */
  function Split(s: string): (ls: seq<string>)
    ensures |ls| > 0
  {
    if s == "" then [""]
    else if s[0] == LF then [""] + Split(s[1..])
    else var rest := Split(s[1..]); [[s[0]] + rest[0]] + rest[1..]
  }

  /** `lines.join("\n")`. */
  function Join(ls: seq<string>): string {
    if ls == [] then "" else if |ls| == 1 then ls[0] else ls[0] + "\n" + Join(ls[1..])
  }

  /** `str::replace` for a non-empty pattern: leftmost, non-overlapping occurrences. */
  function Replace(s: string, pattern: string, with: string): string
    requires pattern != ""
  {
    if |s| < |pattern| then s
    else if pattern <= s then with + Replace(s[|pattern|..], pattern, with)
    else [s[0]] + Replace(s[1..], pattern, with)
  }

  predicate OneLine(s: string) {
    LF !in s
  }

  predicate OneLineEach(ls: seq<string>) {
    forall l <- ls :: OneLine(l)
  }

  // ----- trimming -----

  lemma {:induction false} TrimStartSplits(s: string) returns (pad: string)
    ensures s == pad + TrimStart(s) && forall c <- pad :: IsSpace(c)
  {
    if s == "" || !IsSpace(s[0]) {
      pad := "";
    } else {
      var p := TrimStartSplits(s[1..]);
      pad := [s[0]] + p;
    }
  }

  lemma {:induction false} TrimEndSplits(s: string) returns (pad: string)
    ensures s == TrimEnd(s) + pad && forall c <- pad :: IsSpace(c)
  {
    if s == "" || !IsSpace(s[|s| - 1]) {
      pad := "";
    } else {
      var p := TrimEndSplits(s[..|s| - 1]);
      pad := p + [s[|s| - 1]];
      assert s == s[..|s| - 1] + [s[|s| - 1]];
    }
  }

  lemma {:induction false} TrimStartOfPadded(pad: string, s: string)
    requires forall c <- pad :: IsSpace(c)
    ensures TrimStart(pad + s) == TrimStart(s)
  {
    if pad == "" {
      assert pad + s == s;
    } else {
      assert (pad + s)[1..] == pad[1..] + s;
      TrimStartOfPadded(pad[1..], s);
    }
  }

  lemma {:induction false} TrimEndOfPadded(s: string, pad: string)
    requires forall c <- pad :: IsSpace(c)
    ensures TrimEnd(s + pad) == TrimEnd(s)
  {
    if pad == "" {
      assert s + pad == s;
    } else {
      assert (s + pad)[..|s + pad| - 1] == s + pad[..|pad| - 1];
      TrimEndOfPadded(s, pad[..|pad| - 1]);
    }
  }

  lemma {:induction false} TrimEndKeepsFirst(c: char, s: string)
    requires !IsSpace(c)
    ensures TrimEnd([c] + s) == [c] + TrimEnd(s)
  {
    if s != "" && IsSpace(s[|s| - 1]) {
      assert ([c] + s)[..|[c] + s| - 1] == [c] + s[..|s| - 1];
      TrimEndKeepsFirst(c, s[..|s| - 1]);
    }
  }

  /** Trailing padding never changes what trimming leaves. */
  lemma TrimOfPadded(s: string, pad: string)
    requires forall c <- pad :: IsSpace(c)
    ensures Trim(s + pad) == Trim(s)
  {
    var front := TrimStartSplits(s);
    var core := TrimStart(s);
    assert s + pad == front + (core + pad);
    TrimStartOfPadded(front, core + pad);
    TrimStartOfPadded(front, core);
    if core == "" {
      TrimStartOfPadded(pad, "");
      assert core + pad == pad + "";
    } else {
      TrimStartIsBare(s);
      TrimEndOfPadded(core, pad);
    }
  }

  lemma {:induction false} TrimStartIsBare(s: string)
    ensures TrimStart(s) == "" || !IsSpace(TrimStart(s)[0])
  {
    if s != "" && IsSpace(s[0]) {
      TrimStartIsBare(s[1..]);
    }
  }

  // ----- lines -----

  lemma {:induction false} SplitOneLine(s: string)
    requires OneLine(s)
    ensures Split(s) == [s]
  {
    if s != "" {
      SplitOneLine(s[1..]);
      assert [s[0]] + s[1..] == s;
    }
  }

  lemma {:induction false} SplitIsOneLineEach(s: string)
    ensures OneLineEach(Split(s))
    ensures OneLine(s) <==> |Split(s)| == 1
  {
    if s != "" {
      SplitIsOneLineEach(s[1..]);
      var all, rest := Split(s), Split(s[1..]);
      assert s == [s[0]] + s[1..];
      if s[0] != LF {
        assert all[0] == [s[0]] + rest[0] && OneLine(rest[0]);
      }
      assert forall i | 0 < i < |all| :: all[i] == if s[0] == LF then rest[i - 1] else rest[i];
    }
  }

  lemma {:induction false} JoinSplit(s: string)
    ensures Join(Split(s)) == s
  {
    if s != "" {
      JoinSplit(s[1..]);
      var all, rest := Split(s), Split(s[1..]);
      assert s == [s[0]] + s[1..];
      if s[0] == LF {
        assert all[1..] == rest;
        assert Join(all) == "" + "\n" + Join(rest);
      } else if |rest| > 1 {
        assert all[1..] == rest[1..];
        assert Join(all) == ([s[0]] + rest[0]) + "\n" + Join(rest[1..]);
      }
    }
  }

  lemma SplitCons(c: char, s: string)
    ensures Split([c] + s) == if c == LF then [""] + Split(s) else [[c] + Split(s)[0]] + Split(s)[1..]
  {
    assert ([c] + s)[1..] == s;
  }

  lemma {:induction false} SplitAtBreak(a: string, b: string)
    ensures Split(a + "\n" + b) == Split(a) + Split(b)
  {
    if a == "" {
      SplitCons(LF, b);
      assert a + "\n" + b == [LF] + b;
    } else {
      var c, rest := a[0], a[1..];
      SplitAtBreak(rest, b);
      SplitCons(c, rest + "\n" + b);
      SplitCons(c, rest);
      assert a == [c] + rest && a + "\n" + b == [c] + (rest + "\n" + b);
      ConsConcat(if c == LF then [""] else [[c] + Split(rest)[0]], Split(rest), Split(b));
    }
  }

  lemma ConsConcat(head: seq<string>, tail: seq<string>, more: seq<string>)
    requires tail != []
    ensures (tail + more)[0] == tail[0]
    ensures head + (tail + more) == (head + tail) + more
    ensures head + (tail + more)[1..] == (head + tail[1..]) + more
  {
  }

  lemma {:induction false} SplitPrefix(p: string, s: string)
    requires OneLine(p)
    ensures Split(p + s) == [p + Split(s)[0]] + Split(s)[1..]
  {
    hide Split;
    var first, more := Split(s)[0], Split(s)[1..];
    if p == "" {
      assert p + s == s && p + first == first;
    } else {
      var c, rest := p[0], p[1..];
      assert c in p && forall d <- rest :: d in p;
      SplitPrefix(rest, s);
      SplitInFront(c, rest + s, rest + first, more);
      assert p == [c] + rest && p + s == [c] + (rest + s);
      assert [c] + (rest + first) == p + first;
    }
  }

  lemma SplitInFront(c: char, s: string, first: string, more: seq<string>)
    requires c != LF && Split(s) == [first] + more
    ensures Split([c] + s) == [[c] + first] + more
  {
    hide Split;
    SplitCons(c, s);
    assert Split(s)[0] == first && Split(s)[1..] == more;
  }

  /** The lines of a list of texts, each of which may itself hold several lines. */
  function SplitAll(ls: seq<string>): seq<string> {
    if ls == [] then [] else Split(ls[0]) + SplitAll(ls[1..])
  }

  lemma {:induction false} SplitJoin(ls: seq<string>)
    requires ls != []
    ensures Split(Join(ls)) == SplitAll(ls)
  {
    if |ls| == 1 {
      assert SplitAll(ls) == Split(ls[0]) + [];
    } else {
      SplitJoin(ls[1..]);
      SplitAtBreak(ls[0], Join(ls[1..]));
    }
  }

  lemma LinesAssoc(a: seq<string>, b: seq<string>, c: seq<string>)
    ensures a + (b + c) == (a + b) + c
  {
  }

  lemma {:induction false} SplitAllConcat(a: seq<string>, b: seq<string>)
    ensures SplitAll(a + b) == SplitAll(a) + SplitAll(b)
  {
    hide Split;
    if a == [] {
      assert a + b == b;
    } else {
      SplitAllConcat(a[1..], b);
      assert (a + b)[0] == a[0] && (a + b)[1..] == a[1..] + b;
      LinesAssoc(Split(a[0]), SplitAll(a[1..]), SplitAll(b));
    }
  }

  lemma {:induction false} SplitAllOneLine(ls: seq<string>)
    requires OneLineEach(ls)
    ensures SplitAll(ls) == ls
  {
    if ls != [] {
      SplitOneLine(ls[0]);
      SplitAllOneLine(ls[1..]);
    }
  }
}
