/** The store of revoked sessions: a bounded table in memory beside an append-only log. With distinct
    expiries the table holds at every access the 8192 latest expiring sessions of all that were ever
    revoked, as far as they have not expired at the latest time seen, however it got there. Each access
    takes the time before it takes the table, so times may come out of order. */
module Revocations {
  import opened Text
  import opened Sorting

  const AUTH_REVOKED_SESSION_MAX_ENTRIES: nat := 8192

  datatype Session = Session(nonce: string, expires: nat)

  /** A line of the log: a JSON object with whatever string it has for the nonce and whatever number
      for the expiry, or something else. */
  datatype Line = Entry(nonce: Option<string>, expires: Option<nat>) | Other

  const U64_LIMIT: nat := 0x1_0000_0000_0000_0000

  /** The session that a line is read as; lines that give none are skipped. */
  function SessionOf(line: Line): Option<Session> {
    if line.Entry? && line.nonce.Some? && Trim(line.nonce.value) != "" && line.expires.Some?
      && line.expires.value < U64_LIMIT
    then Some(Session(Trim(line.nonce.value), line.expires.value))
    else None
  }

  /** A line gives a session exactly if it has a nonce that is more than white space and an expiry that a
      u64 can hold; white space around the nonce does not count. */
  lemma LineIsRead(line: Line)
    ensures SessionOf(line).Some?
       <==> line.Entry? && line.nonce.Some? && (exists c <- line.nonce.value :: !IsSpace(c))
            && line.expires.Some? && line.expires.value <= 0xFFFF_FFFF_FFFF_FFFF
  {
    if line.Entry? && line.nonce.Some? {
      NotBlank(line.nonce.value);
    }
  }

  lemma NotBlank(s: string)
    ensures Trim(s) != "" <==> exists c <- s :: !IsSpace(c)
  {
    var front := TrimStartSplits(s);
    var pad := TrimEndSplits(TrimStart(s));
    if Trim(s) != "" {
      TrimmedIsBare(TrimStart(s));
      assert s == front + (Trim(s) + pad);
      assert Trim(s)[|Trim(s)| - 1] in s;
    } else {
      assert s == front + pad;
    }
  }

  lemma {:induction false} TrimmedIsBare(s: string)
    ensures TrimEnd(s) != "" ==> !IsSpace(TrimEnd(s)[|TrimEnd(s)| - 1])
  {
    if s != "" && IsSpace(s[|s| - 1]) {
      TrimmedIsBare(s[..|s| - 1]);
    }
  }

  lemma PaddedLineIsRead(front: string, nonce: string, pad: string, expires: nat)
    requires nonce != "" && !IsSpace(nonce[0]) && !IsSpace(nonce[|nonce| - 1]) && expires <= 0xFFFF_FFFF_FFFF_FFFF
    requires (forall c <- front :: IsSpace(c)) && forall c <- pad :: IsSpace(c)
    ensures SessionOf(Entry(Some(front + (nonce + pad)), Some(expires))) == Some(Session(nonce, expires))
  {
    TrimStartOfPadded(front, nonce + pad);
    assert TrimStart(nonce + pad) == nonce + pad;
    TrimEndOfPadded(nonce, pad);
  }

  /** At most 8192 sessions are kept. */
  lemma Limit()
    ensures AUTH_REVOKED_SESSION_MAX_ENTRIES == 8192
  {
  }

  /** The session is read back from the line that is written for it. */
  predicate IsWritable(s: Session) {
    s.nonce != "" && Trim(s.nonce) == s.nonce && s.expires < U64_LIMIT
  }

  type Entries = map<string, nat>

  // ----- what the table should be -----

  ghost function Later(all: set<Session>, s: Session): set<Session> {
    set u | u in all && u.expires > s.expires
  }

  ghost predicate IsTop(all: set<Session>, now: nat, s: Session) {
    s in all && s.expires > now && |Later(all, s)| < AUTH_REVOKED_SESSION_MAX_ENTRIES
  }

  /** The unexpired sessions with fewer than 8192 that expire later. */
  ghost function Top(all: set<Session>, now: nat): set<Session> {
    set s | s in all && IsTop(all, now, s)
  }

  ghost predicate IsDistinct(all: set<Session>) {
    forall a, b | a in all && b in all && (a.nonce == b.nonce || a.expires == b.expires) :: a == b
  }

  /** Every session ever written to the log. */
  ghost function Logged(log: seq<Line>): set<Session> {
    set l | l in log && SessionOf(l).Some? :: SessionOf(l).value
  }

  ghost function Sessions(entries: Entries): set<Session> {
    set n | n in entries :: Session(n, entries[n])
  }

  // ----- the table can be kept up bit by bit -----

  lemma {:induction false} SmallerSet<T>(a: set<T>, b: set<T>)
    requires a <= b
    ensures |a| <= |b|
    ensures a != b ==> |a| < |b|
  {
    if a != {} {
      var x :| x in a;
      SmallerSet(a - {x}, b - {x});
      assert a == (a - {x}) + {x} && b == (b - {x}) + {x};
    }
  }

  lemma {:induction false} Earliest(all: set<Session>) returns (m: Session)
    requires all != {}
    ensures m in all && forall s <- all :: m.expires <= s.expires
    decreases |all|
  {
    m :| m in all;
    if all != {m} {
      var rest := all - {m};
      assert rest != {};
      var k := Earliest(rest);
      assert forall s <- all :: s == m || s in rest;
      m := if k.expires < m.expires then k else m;
    }
  }

  /** A large enough set has a full number of sessions at its top. */
  lemma {:induction false} TopIsFull(all: set<Session>, now: nat)
    requires IsDistinct(all) && forall s <- all :: s.expires > now
    ensures |all| <= AUTH_REVOKED_SESSION_MAX_ENTRIES ==> Top(all, now) == all
    ensures |all| >= AUTH_REVOKED_SESSION_MAX_ENTRIES ==> |Top(all, now)| == AUTH_REVOKED_SESSION_MAX_ENTRIES
    decreases |all|
  {
    if |all| <= AUTH_REVOKED_SESSION_MAX_ENTRIES {
      forall s <- all ensures IsTop(all, now, s) {
        SmallerSet(Later(all, s), all);
      }
    } else {
      var m := Earliest(all);
      var rest := all - {m};
      TopIsFull(rest, now);
      forall s <- rest ensures Later(rest, s) == Later(all, s) {}
      assert Later(all, m) == rest by {
        assert forall s <- rest :: s.expires != m.expires;
      }
      assert Top(all, now) == Top(rest, now);
    }
  }

  /** Adding to the top of what was, and cutting again later, gives the top of everything. */
  lemma TopStep(all: set<Session>, more: set<Session>, now: nat, later: nat)
    requires IsDistinct(all + more) && |more| <= 1 && now <= later
    ensures Top(Top(all, now) + more, later) == Top(all + more, later)
  {
    var small, whole := Top(all, now) + more, all + more;
    forall s ensures IsTop(small, later, s) <==> IsTop(whole, later, s) {
      if IsTop(whole, later, s) {
        TopStays(all, more, now, later, s);
      } else if s in small && s.expires > later && |Later(whole, s)| >= AUTH_REVOKED_SESSION_MAX_ENTRIES {
        ManyLater(all, more, now, later, s);
      }
    }
  }

  lemma TopStays(all: set<Session>, more: set<Session>, now: nat, later: nat, s: Session)
    requires now <= later && IsTop(all + more, later, s)
    ensures IsTop(Top(all, now) + more, later, s)
  {
    SmallerSet(Later(all, s), Later(all + more, s));
    SmallerSet(Later(Top(all, now) + more, s), Later(all + more, s));
    if s !in more {
      assert IsTop(all, now, s);
    }
  }

  /** If a full number expires later in the whole, a full number does among those that were kept. */
  lemma ManyLater(all: set<Session>, more: set<Session>, now: nat, later: nat, s: Session)
    requires IsDistinct(all + more) && now <= later < s.expires
    requires |Later(all + more, s)| >= AUTH_REVOKED_SESSION_MAX_ENTRIES
    ensures |Later(Top(all, now) + more, s)| >= AUTH_REVOKED_SESSION_MAX_ENTRIES
  {
    var above := Later(all + more, s);
    TopIsFull(above, later);
    forall v <- Top(above, later) ensures v in Later(Top(all, now) + more, s) {
      if v !in more {
        assert Later(all, v) <= Later(above, v);
        SmallerSet(Later(all, v), Later(above, v));
        assert IsTop(all, now, v);
      }
    }
    SmallerSet(Top(above, later), Later(Top(all, now) + more, s));
  }

  lemma {:induction false} SessionsSize(entries: Entries)
    ensures |Sessions(entries)| == |entries|
  {
    if entries != map[] {
      var n :| n in entries;
      var rest := entries - {n};
      SessionsSize(rest);
      assert Sessions(entries) == Sessions(rest) + {Session(n, entries[n])};
      assert entries.Keys == rest.Keys + {n};
    }
  }

  // ----- the loops -----

  method RetainUnexpired(entries: Entries, now: nat) returns (r: Entries)
    ensures r == map n | n in entries && entries[n] > now :: entries[n]
  {
    var todo := entries.Keys;
    r := map[];
    while todo != {}
      invariant todo <= entries.Keys
      invariant forall n :: n in r <==> n in entries && n !in todo && entries[n] > now
      invariant forall n | n in r :: r[n] == entries[n]
      decreases |todo|
    {
      var n :| n in todo;
      if entries[n] > now {
        r := r[n := entries[n]];
      }
      todo := todo - {n};
    }
  }

  /** `prune_revoked_auth_sessions`: what is left is the top of what was there. */
  method Prune(entries: Entries, now: nat) returns (r: Entries)
    ensures |r| <= AUTH_REVOKED_SESSION_MAX_ENTRIES
    ensures Sessions(r) <= Sessions(entries) && forall n | n in r :: r[n] > now
    ensures IsDistinct(Sessions(entries)) ==> Sessions(r) == Top(Sessions(entries), now)
  {
    r := RetainUnexpired(entries, now);
    if |r| > AUTH_REVOKED_SESSION_MAX_ENTRIES {
      var names := DropLowest(r, AUTH_REVOKED_SESSION_MAX_ENTRIES);
      r := map n | n in names :: r[n];
      assert r.Keys == names;
    }
    CutIsTop(entries, r, now);
  }

  /** The table holds unexpired entries, the latest of them, and as many as it can. */
  predicate IsCut(entries: Entries, r: Entries, now: nat) {
    && |r| <= AUTH_REVOKED_SESSION_MAX_ENTRIES
    && (forall n | n in r :: n in entries && r[n] == entries[n] && r[n] > now)
    && (forall a, b | a in entries && entries[a] > now && a !in r && b in r :: entries[a] <= entries[b])
    && (|r| == AUTH_REVOKED_SESSION_MAX_ENTRIES || forall n | n in entries && entries[n] > now :: n in r)
  }

  lemma CutIsTop(entries: Entries, r: Entries, now: nat)
    requires IsCut(entries, r, now)
    ensures Sessions(r) <= Sessions(entries)
    ensures IsDistinct(Sessions(entries)) ==> Sessions(r) == Top(Sessions(entries), now)
  {
    hide IsDistinct, Later;
    var all := Sessions(entries);
    if IsDistinct(all) {
      forall s ensures s in Sessions(r) <==> IsTop(all, now, s) {
        hide IsCut, IsTop;
        OnlyTop(all, now, s);
        if s in all && s.expires > now {
          KeptIsTop(entries, r, now, s.nonce);
        } else {
          CutIsUnexpired(entries, r, now, s);
        }
      }
    }
  }

  lemma OnlyTop(all: set<Session>, now: nat, s: Session)
    ensures IsTop(all, now, s) ==> s in all && s.expires > now
  {
  }

  lemma CutIsUnexpired(entries: Entries, r: Entries, now: nat, s: Session)
    requires IsCut(entries, r, now)
    ensures s in Sessions(r) ==> s in Sessions(entries) && s.expires > now
  {
  }

  lemma KeptIsTop(entries: Entries, r: Entries, now: nat, n: string)
    requires IsDistinct(Sessions(entries)) && IsCut(entries, r, now) && n in entries && entries[n] > now
    ensures Session(n, entries[n]) in Sessions(r) <==> IsTop(Sessions(entries), now, Session(n, entries[n]))
  {
    var all, s := Sessions(entries), Session(n, entries[n]);
    SessionsSize(r);
    if n in r {
      assert s in Sessions(r);
      forall u <- Later(all, s) ensures u in Sessions(r) {
        assert u.nonce in entries && entries[u.nonce] > now;
      }
      SmallerSet(Later(all, s), Sessions(r));
    } else {
      forall u <- Sessions(r) ensures u in Later(all, s) {
        assert u in all && s in all && u != s;
      }
      SmallerSet(Sessions(r), Later(all, s));
    }
  }

  // ----- reading the log -----

  ghost function Unexpired(all: set<Session>, now: nat): set<Session> {
    set s | s in all && s.expires > now
  }

  lemma UnexpiredTop(all: set<Session>, now: nat)
    ensures Top(Unexpired(all, now), now) == Top(all, now)
  {
    forall s ensures IsTop(Unexpired(all, now), now, s) <==> IsTop(all, now, s) {
      if s.expires > now {
        assert Later(Unexpired(all, now), s) == Later(all, s);
      }
    }
  }

  lemma LoggedMore(log: seq<Line>, line: Line)
    ensures Logged(log + [line]) == Logged(log) + if SessionOf(line).Some? then {SessionOf(line).value} else {}
  {
    hide SessionOf;
    assert forall l :: l in log + [line] <==> l in log || l == line;
  }

  lemma InSessions(entries: Entries, u: Session)
    ensures u in Sessions(entries) <==> u.nonce in entries && entries[u.nonce] == u.expires
  {
    if u.nonce in entries && entries[u.nonce] == u.expires {
      assert u == Session(u.nonce, entries[u.nonce]);
    }
  }

  /** An entry is added under its nonce; if nonces tell sessions apart, no other is lost. */
  lemma AddedEntry(entries: Entries, s: Session)
    requires IsDistinct(Sessions(entries) + {s})
    ensures Sessions(entries[s.nonce := s.expires]) == Sessions(entries) + {s}
  {
    var more := entries[s.nonce := s.expires];
    forall u ensures u in Sessions(more) <==> u in Sessions(entries) + {s} {
      InSessions(more, u);
      InSessions(entries, u);
      if u.nonce == s.nonce && u in Sessions(entries) {
        assert u in Sessions(entries) + {s} && s in Sessions(entries) + {s};
        assert u == s;
      }
    }
  }

  lemma DistinctPart(part: set<Session>, all: set<Session>)
    requires IsDistinct(all) && part <= all
    ensures IsDistinct(part)
  {
  }

  /** The expiry that the last unexpired line with this nonce gives. */
  function LastOf(log: seq<Line>, now: nat, nonce: string): Option<nat> {
    if log == [] then None
    else
      var last := SessionOf(log[|log| - 1]);
      if last.Some? && last.value.nonce == nonce && last.value.expires > now then Some(last.value.expires)
      else LastOf(log[..|log| - 1], now, nonce)
  }

  predicate IsRead(entries: Entries, log: seq<Line>, now: nat, nonce: string) {
    LastOf(log, now, nonce) == if nonce in entries then Some(entries[nonce]) else None
  }

  lemma OneMoreRead(entries: Entries, more: Entries, log: seq<Line>, line: Line, now: nat, nonce: string)
    requires IsRead(entries, log, now, nonce)
    requires more == var s := SessionOf(line);
                     if s.Some? && s.value.expires > now then entries[s.value.nonce := s.value.expires] else entries
    ensures IsRead(more, log + [line], now, nonce)
  {
    hide SessionOf;
    assert (log + [line])[..|log|] == log;
  }

  lemma LoggedPart(log: seq<Line>, i: nat)
    requires i < |log| && SessionOf(log[i]).Some?
    ensures Logged(log[..i]) <= Logged(log) && SessionOf(log[i]).value in Logged(log)
  {
    hide SessionOf;
    assert log[i] in log && forall l <- log[..i] :: l in log;
  }

  /** The loop of `load_revoked_auth_sessions` over the lines of the log. */
  method ReadLog(log: seq<Line>, now: nat) returns (entries: Entries)
    ensures forall n :: IsRead(entries, log, now, n)
    ensures IsDistinct(Logged(log)) ==> Sessions(entries) == Unexpired(Logged(log), now)
  {
    entries := map[];
    for i := 0 to |log|
      invariant IsDistinct(Logged(log)) ==> Sessions(entries) == Unexpired(Logged(log[..i]), now)
      invariant forall n :: IsRead(entries, log[..i], now, n)
    {
      hide IsDistinct, Sessions, IsRead, Trim, Logged;
      var read := SessionOf(log[i]);
      ghost var before := entries;
      assert log[..i + 1] == log[..i] + [log[i]];
      LoggedMore(log[..i], log[i]);
      if read.Some? && read.value.expires > now {
        if IsDistinct(Logged(log)) {
          LoggedPart(log, i);
          DistinctPart(Sessions(entries) + {read.value}, Logged(log));
          AddedEntry(entries, read.value);
        }
        entries := entries[read.value.nonce := read.value.expires];
      }
      ghost var upToHere := log[..i + 1];
      forall n ensures IsRead(entries, upToHere, now, n) {
        OneMoreRead(before, entries, log[..i], log[i], now, n);
      }
    }
    assert log[..|log|] == log;
  }

  // ----- the store -----

  function Max(a: nat, b: nat): nat {
    if a < b then b else a
  }

  /** No session of these expires later. */
  ghost function LastExpiry(all: set<Session>): (t: nat)
    ensures forall s <- all :: s.expires <= t
  {
    if all == {} then 0
    else
      var s :| s in all;
      assert forall u <- all :: u == s || u in all - {s};
      Max(s.expires, LastExpiry(all - {s}))
  }

  /** The entries that have not expired are the top of all that were revoked. */
  ghost predicate IsExact(entries: Entries, ever: set<Session>, t: nat) {
    IsDistinct(ever) ==> Unexpired(Sessions(entries), t) == Top(ever, t)
  }

  class Store {
    var entries: Entries
    var loaded: bool
    var log: seq<Line>
    /** Every session ever revoked; the latest time an access has come with; and the time from which
        the table is exact, which is 0 unless the log could not be read. */
    ghost var ever: set<Session>
    ghost var clock: nat
    ghost var exactFrom: nat

    ghost predicate Valid()
      reads this
    {
      && |entries| <= AUTH_REVOKED_SESSION_MAX_ENTRIES && Sessions(entries) <= ever
      && (!loaded ==> entries == map[] && Logged(log) == ever && exactFrom == 0)
      && (loaded ==> IsExact(entries, ever, Max(clock, exactFrom)))
    }

    /** A process starts with the log that earlier ones left. */
    constructor (log: seq<Line>)
      ensures Valid() && ever == Logged(log) && this.log == log && clock == 0 && exactFrom == 0
    {
      entries, loaded, this.log := map[], false, log;
      ever, clock, exactFrom := Logged(log), 0, 0;
    }

    /** `load_revoked_auth_sessions`. */
    method Load(now: nat, readable: bool)
      requires Valid()
      modifies this`entries, this`loaded, this`clock, this`exactFrom
      ensures Valid() && loaded && clock == Max(old(clock), now)
      ensures exactFrom == if old(loaded) || readable then old(exactFrom) else LastExpiry(ever)
      ensures forall n | n in entries :: entries[n] > now
    {
      hide IsDistinct, Top, Sessions, Logged, Unexpired, IsExact;
      var later := Max(clock, now);
      if loaded {
        ghost var before := entries;
        entries := Prune(entries, now);
        ExactLater(before, ever, Max(clock, exactFrom), Max(later, exactFrom));
        PrunedIsExact(before, entries, ever, now, Max(later, exactFrom));
      } else {
        if readable {
          var read := ReadLog(log, now);
          entries := Prune(read, now);
          LoadedIsExact(log, read, entries, now, later);
        } else {
          exactFrom := LastExpiry(ever);
          entries := Prune(entries, now);
          EmptyIsExact(entries, ever, Max(later, exactFrom));
        }
        loaded := true;
      }
      clock := later;
    }

    /** `auth_session_is_revoked`: only sessions that were revoked and have not expired are reported,
        and of these at least those at the top at the latest time seen; at such a time exactly those. */
    method IsRevoked(s: Session, now: nat, readable: bool) returns (revoked: bool)
      requires Valid()
      modifies this`entries, this`loaded, this`clock, this`exactFrom
      ensures Valid() && loaded && clock == Max(old(clock), now)
      ensures exactFrom == if old(loaded) || readable then old(exactFrom) else LastExpiry(ever)
      ensures revoked ==> s in ever && s.expires > now
      ensures IsDistinct(ever) && s in Top(ever, Max(clock, exactFrom)) ==> revoked
      ensures IsDistinct(ever) && Max(old(clock), exactFrom) <= now ==> (revoked <==> s in Top(ever, now))
    {
      hide IsDistinct, Top, Sessions, Logged, Unexpired, IsExact;
      Load(now, readable);
      revoked := s.nonce in entries && entries[s.nonce] == s.expires;
      InSessions(entries, s);
      ExactTells(entries, ever, Max(clock, exactFrom), now, s);
    }

    /** The second access of `revoke_auth_token`. */
    method Add(s: Session, now: nat, readable: bool)
      requires Valid()
      modifies this`entries, this`loaded, this`clock, this`exactFrom, this`ever
      ensures Valid() && loaded && clock == Max(old(clock), now) && ever == old(ever) + {s}
      ensures exactFrom == if old(loaded) || readable then old(exactFrom) else LastExpiry(old(ever))
    {
      hide IsDistinct, Top, Sessions, Logged, Unexpired, IsExact;
      Load(now, readable);
      ghost var before := entries;
      entries := Prune(entries[s.nonce := s.expires], now);
      AddedIsExact(before, entries, ever, s, now, Max(clock, exactFrom));
      ever := ever + {s};
    }

    /** The line that `revoke_auth_token` appends to the log, when the table is no longer locked. */
    method Append(s: Session, writable: bool)
      requires Valid() && loaded
      modifies this`log
      ensures Valid()
      ensures log == old(log) + if writable then [Entry(Some(s.nonce), Some(s.expires))] else []
    {
      if writable {
        log := log + [Entry(Some(s.nonce), Some(s.expires))];
      }
    }

    /** `revoke_auth_token`: however the table got to be what it is, it is afterwards what loading the
        whole log, with the session at its end, would give, and so is what later processes will load
        if the line could be written. Others may come between the two accesses. */
    method Revoke(s: Session, now: nat, later: nat, readable: bool, writable: bool)
      requires Valid()
      modifies this
      ensures Valid() && loaded && ever == old(ever) + {s}
      ensures exactFrom == if old(loaded) || readable then old(exactFrom) else LastExpiry(old(ever))
      ensures old(Logged(log)) == old(ever) && writable && IsWritable(s) ==> Logged(log) == ever
    {
      hide IsDistinct, Top, Sessions, Unexpired, IsExact, Logged;
      LoggedMore(log, Entry(Some(s.nonce), Some(s.expires)));
      var known := IsRevoked(s, now, readable);
      if known {
        assert ever == ever + {s};
        return;
      }
      Add(s, later, readable);
      Append(s, writable);
    }
  }

  // ----- the table stays exact -----

  lemma UnexpiredLater(all: set<Session>, now: nat, later: nat)
    requires now <= later
    ensures Unexpired(Top(all, now), later) == Top(all, later)
    ensures Unexpired(Unexpired(all, now), later) == Unexpired(all, later)
  {
  }

  lemma ExactLater(entries: Entries, ever: set<Session>, now: nat, later: nat)
    requires IsExact(entries, ever, now) && now <= later
    ensures IsExact(entries, ever, later)
  {
    hide IsDistinct, Sessions, Unexpired, Top;
    UnexpiredLater(ever, now, later);
    UnexpiredLater(Sessions(entries), now, later);
  }

  lemma TopTwice(ever: set<Session>, t: nat)
    requires IsDistinct(ever)
    ensures Top(Top(ever, t), t) == Top(ever, t)
  {
    assert ever + {} == ever && Top(ever, t) + {} == Top(ever, t);
    TopStep(ever, {}, t, t);
  }

  /** Cutting at any earlier time changes nothing. */
  lemma PrunedIsExact(before: Entries, after: Entries, ever: set<Session>, now: nat, t: nat)
    requires IsExact(before, ever, t) && now <= t && Sessions(before) <= ever
    requires IsDistinct(Sessions(before)) ==> Sessions(after) == Top(Sessions(before), now)
    ensures IsExact(after, ever, t)
  {
    if IsDistinct(ever) {
      DistinctPart(Sessions(before), ever);
      hide IsDistinct, Sessions, Unexpired, Top;
      UnexpiredLater(Sessions(before), now, t);
      UnexpiredTop(Sessions(before), t);
      TopTwice(ever, t);
    }
  }

  lemma {:induction false} LastIsLogged(log: seq<Line>, now: nat, nonce: string)
    ensures LastOf(log, now, nonce).Some? ==> Session(nonce, LastOf(log, now, nonce).value) in Logged(log)
  {
    hide SessionOf;
    if log != [] {
      var front, last := log[..|log| - 1], log[|log| - 1];
      assert log == front + [last];
      LoggedMore(front, last);
      LastIsLogged(front, now, nonce);
    }
  }

  lemma LoadedIsExact(log: seq<Line>, read: Entries, after: Entries, now: nat, t: nat)
    requires (forall n :: IsRead(read, log, now, n)) && now <= t
    requires IsDistinct(Logged(log)) ==> Sessions(read) == Unexpired(Logged(log), now)
    requires Sessions(after) <= Sessions(read)
    requires IsDistinct(Sessions(read)) ==> Sessions(after) == Top(Sessions(read), now)
    ensures Sessions(after) <= Logged(log) && IsExact(after, Logged(log), t)
  {
    hide Logged, LastOf, Top, IsDistinct;
    forall s <- Sessions(read) ensures s in Logged(log) {
      assert IsRead(read, log, now, s.nonce);
      LastIsLogged(log, now, s.nonce);
    }
    if IsDistinct(Logged(log)) {
      UnexpiredPart(Logged(log), now);
      UnexpiredTop(Logged(log), now);
      UnexpiredLater(Logged(log), now, t);
    }
  }

  lemma EmptyIsExact(entries: Entries, ever: set<Session>, t: nat)
    requires Sessions(entries) <= Sessions(map[]) && LastExpiry(ever) <= t
    ensures Sessions(entries) == {} && IsExact(entries, ever, t)
  {
    assert Sessions(map[]) == {};
  }

  lemma AddedIsPart(entries: Entries, s: Session)
    ensures Sessions(entries[s.nonce := s.expires]) <= Sessions(entries) + {s}
  {
  }

  lemma AddedIsExact(before: Entries, after: Entries, ever: set<Session>, s: Session, now: nat, t: nat)
    requires IsExact(before, ever, t) && now <= t && Sessions(before) <= ever
    requires var more := Sessions(before[s.nonce := s.expires]);
             Sessions(after) <= more && (IsDistinct(more) ==> Sessions(after) == Top(more, now))
    ensures Sessions(after) <= ever + {s} && IsExact(after, ever + {s}, t)
  {
    AddedIsPart(before, s);
    if IsDistinct(ever + {s}) {
      DistinctPart(ever, ever + {s});
      DistinctPart(Sessions(before) + {s}, ever + {s});
      AddedEntry(before, s);
      var more := Sessions(before) + {s};
      hide IsDistinct, Sessions, Top;
      UnexpiredLater(more, now, t);
      UnexpiredTop(more, t);
      UnexpiredTop(Top(ever, t) + {s}, t);
      assert Unexpired(more, t) == Unexpired(Top(ever, t) + {s}, t) by { SameUnexpired(Sessions(before), ever, s, t); }
      TopStep(ever, {s}, t, t);
    }
  }

  lemma SameUnexpired(part: set<Session>, ever: set<Session>, s: Session, t: nat)
    requires Unexpired(part, t) == Top(ever, t)
    ensures Unexpired(part + {s}, t) == Unexpired(Top(ever, t) + {s}, t)
  {
    hide Top;
    assert forall u :: u in Unexpired(part, t) <==> u in Top(ever, t);
  }

  lemma ExactTells(entries: Entries, ever: set<Session>, t: nat, now: nat, s: Session)
    requires Sessions(entries) <= ever && IsExact(entries, ever, t) && forall n | n in entries :: entries[n] > now
    ensures s in Sessions(entries) ==> s in ever && s.expires > now
    ensures IsDistinct(ever) && s in Top(ever, t) ==> s in Sessions(entries)
    ensures IsDistinct(ever) && t == now ==> (s in Sessions(entries) <==> s in Top(ever, now))
  {
    hide IsDistinct, Top;
    InSessions(entries, s);
    if IsDistinct(ever) {
      assert s in Unexpired(Sessions(entries), t) <==> s in Top(ever, t);
    }
  }

  lemma UnexpiredPart(all: set<Session>, now: nat)
    ensures IsDistinct(all) ==> IsDistinct(Unexpired(all, now))
  {
  }
}
