/** The login limiter: failures per identifier, pruned in place and bounded in number. It decides like
    the full log of failures, except for the length of a window after an identifier with live failures
    had to make room. Each call takes the time before it takes the table, so times may come out of order. */
module LoginLimiter {
  import opened Sorting

  const LOGIN_WINDOW_MS: nat := 600000
  const LOGIN_MAX_ATTEMPTS: nat := 8
  const LOGIN_RATE_LIMIT_MAX_IDENTIFIERS: nat := 4096

  type History = seq<nat>
  type Attempts = map<string, History>

  function SaturatingSub(a: nat, b: nat): nat {
    if a < b then 0 else a - b
  }

  predicate IsLive(at: nat, now: nat) {
    SaturatingSub(now, at) < LOGIN_WINDOW_MS
  }

  /** The failures that still lie in the window. */
  function Live(h: History, now: nat): (r: History)
    ensures forall at <- r :: at in h && IsLive(at, now)
  {
    if h == [] then [] else (if IsLive(h[0], now) then [h[0]] else []) + Live(h[1..], now)
  }

  /** Ten minutes, eight attempts, 4096 identifiers. */
  lemma Limits()
    ensures LOGIN_WINDOW_MS == 10 * 60 * 1000 && LOGIN_MAX_ATTEMPTS == 8 && LOGIN_RATE_LIMIT_MAX_IDENTIFIERS == 4096
  {
  }

  /** Of a history the failures of the last ten minutes are live, each as often as it is there; so are
      those that a clock which went back has left in the future. */
  lemma {:induction false} LiveAreRecent(h: History, now: nat, at: nat)
    ensures multiset(Live(h, now))[at] == if now < at + 600000 then multiset(h)[at] else 0
  {
    if h != [] {
      LiveAreRecent(h[1..], now, at);
      assert h == [h[0]] + h[1..];
    }
  }

  function At(attempts: Attempts, id: string): History {
    if id in attempts then attempts[id] else []
  }

  /** The identifiers with live failures, and these failures. */
  function Retained(attempts: Attempts, now: nat): Attempts {
    map id | id in attempts && Live(attempts[id], now) != [] :: Live(attempts[id], now)
  }

  /** What the table says about now and later is what the log says. */
  ghost predicate Agrees(attempts: Attempts, log: Attempts, now: nat) {
    forall id :: Live(At(attempts, id), now) == Live(At(log, id), now)
  }

  /** No identifier with live failures has to make room. */
  predicate HasRoom(log: Attempts, now: nat, id: string) {
    |Retained(log, now)| < LOGIN_RATE_LIMIT_MAX_IDENTIFIERS || id in Retained(log, now)
  }

  /** At no time has the table more live failures of an identifier than the log. */
  ghost predicate IsPart(attempts: Attempts, log: Attempts) {
    forall id, t: nat :: |Live(At(attempts, id), t)| <= |Live(At(log, id), t)|
  }

  ghost predicate IsPast(log: Attempts, clock: nat) {
    forall id, at | at in At(log, id) :: at <= clock
  }

  function Max(a: nat, b: nat): nat {
    if a < b then b else a
  }

  /** The table after a call at this time: live failures stay, those of the identifier are followed by
      `more`, and of the others as many identifiers go as is needed to keep the limit, those whose
      newest failure is oldest. */
  ghost predicate IsUpdate(before: Attempts, after: Attempts, now: nat, id: string, more: History) {
    var kept := Retained(before, now);
    && id in after && after[id] == Live(At(before, id), now) + more
    && (forall k | k in after && k != id :: k in kept && after[k] == kept[k])
    && (HasRoom(before, now, id) ==> forall k | k in kept :: k in after)
    && (!HasRoom(before, now, id) ==>
          && |after| == LOGIN_RATE_LIMIT_MAX_IDENTIFIERS && id !in kept
          && forall a, b | a in kept && a !in after && b in after && b != id :: Newest(kept[a]) <= Newest(kept[b]))
  }

  // ----- what pruning loses: nothing that a later look would count -----

  lemma LiveCons(at: nat, h: History, now: nat)
    ensures Live([at] + h, now) == (if IsLive(at, now) then [at] else []) + Live(h, now)
  {
    assert ([at] + h)[1..] == h;
  }

  lemma {:induction false} LiveAgain(h: History, now: nat, later: nat)
    requires now <= later
    ensures Live(Live(h, now), later) == Live(h, later)
  {
    if h != [] {
      LiveAgain(h[1..], now, later);
      if IsLive(h[0], now) {
        LiveCons(h[0], Live(h[1..], now), later);
      } else {
        assert Live(h, now) == Live(h[1..], now);
        assert !IsLive(h[0], later);
      }
    }
  }

  lemma {:induction false} LiveAppend(h: History, at: nat, now: nat)
    ensures Live(h + [at], now) == Live(h, now) + if IsLive(at, now) then [at] else []
  {
    if h == [] {
      LiveCons(at, [], now);
    } else {
      var tail := if IsLive(at, now) then [at] else [];
      assert h + [at] == [h[0]] + (h[1..] + [at]);
      LiveCons(h[0], h[1..] + [at], now);
      LiveAppend(h[1..], at, now);
      assert h == [h[0]] + h[1..];
      LiveCons(h[0], h[1..], now);
      Regroup(if IsLive(h[0], now) then [h[0]] else [], Live(h[1..], now), tail);
    }
  }

  lemma Regroup(a: History, b: History, c: History)
    ensures a + (b + c) == a + b + c
  {
  }

  lemma AgreesLater(attempts: Attempts, log: Attempts, now: nat, later: nat)
    requires Agrees(attempts, log, now) && now <= later
    ensures Agrees(attempts, log, later)
  {
    forall id ensures Live(At(attempts, id), later) == Live(At(log, id), later) {
      LiveAgain(At(attempts, id), now, later);
      LiveAgain(At(log, id), now, later);
    }
  }

  lemma AgreesRetains(attempts: Attempts, log: Attempts, now: nat)
    requires Agrees(attempts, log, now)
    ensures Retained(attempts, now) == Retained(log, now)
  {
    forall id ensures id in Retained(attempts, now) <==> id in Retained(log, now) {
      assert Live(At(attempts, id), now) == Live(At(log, id), now);
    }
    forall id | id in Retained(attempts, now) ensures Retained(attempts, now)[id] == Retained(log, now)[id] {
      assert Live(At(attempts, id), now) == Live(At(log, id), now);
    }
  }

  // ----- the loops -----

  method RetainLive(h: History, now: nat) returns (r: History)
    ensures r == Live(h, now)
  {
    r := [];
    for i := 0 to |h|
      invariant r == Live(h[..i], now)
    {
      LiveAppend(h[..i], h[i], now);
      assert h[..i + 1] == h[..i] + [h[i]];
      if IsLive(h[i], now) {
        r := r + [h[i]];
      }
    }
    assert h[..|h|] == h;
  }

  method RetainHistories(attempts: Attempts, now: nat) returns (r: Attempts)
    ensures r == Retained(attempts, now)
  {
    var todo := attempts.Keys;
    r := map[];
    while todo != {}
      invariant todo <= attempts.Keys
      invariant forall id :: id in r <==> id in attempts && id !in todo && Live(attempts[id], now) != []
      invariant forall id | id in r :: r[id] == Live(attempts[id], now)
      decreases |todo|
    {
      var id :| id in todo;
      var h := RetainLive(attempts[id], now);
      if h != [] {
        r := r[id := h];
      }
      todo := todo - {id};
    }
  }

  function Newest(h: History): (n: nat)
    ensures forall at <- h :: at <= n
  {
    if h == [] then 0
    else
      var rest := Newest(h[1..]);
      assert forall at <- h :: at == h[0] || at in h[1..];
      if h[0] > rest then h[0] else rest
  }

  /** The identifiers whose newest failure is oldest go until there is room for one more. */
  method DropOldest(attempts: Attempts) returns (r: Attempts)
    requires |attempts| >= LOGIN_RATE_LIMIT_MAX_IDENTIFIERS
    ensures |r| == LOGIN_RATE_LIMIT_MAX_IDENTIFIERS - 1
    ensures r.Keys <= attempts.Keys && forall id | id in r :: r[id] == attempts[id]
    ensures forall a, b | a in attempts && a !in r && b in r :: Newest(attempts[a]) <= Newest(attempts[b])
  {
    hide Newest;
    var newest := map id | id in attempts :: Newest(attempts[id]);
    assert newest.Keys == attempts.Keys;
    var kept := DropLowest(newest, LOGIN_RATE_LIMIT_MAX_IDENTIFIERS - 1);
    r := map id | id in kept :: attempts[id];
    assert r.Keys == kept;
  }

  // ----- the limiter -----

  class Limiter {
    var attempts: Attempts
    /** Every failure since the identifier was last cleared; the latest time a call has come with; and
        the time from which the table says what the log says. */
    ghost var log: Attempts
    ghost var clock: nat
    ghost var exactFrom: nat

    ghost predicate Valid()
      reads this
    {
      && |attempts| <= LOGIN_RATE_LIMIT_MAX_IDENTIFIERS && IsPart(attempts, log) && IsPast(log, clock)
      && Agrees(attempts, log, Max(clock, exactFrom))
    }

    constructor ()
      ensures Valid() && attempts == map[] && log == map[] && exactFrom == 0 && clock == 0
    {
      attempts, log, clock, exactFrom := map[], map[], 0, 0;
    }

    /** `prune_login_attempts`: the table afterwards has room for the identifier, whatever happens. */
    method Prune(now: nat, id: string)
      requires |attempts| <= LOGIN_RATE_LIMIT_MAX_IDENTIFIERS
      modifies this`attempts
      ensures |attempts| < LOGIN_RATE_LIMIT_MAX_IDENTIFIERS || id in attempts
      ensures |attempts| <= LOGIN_RATE_LIMIT_MAX_IDENTIFIERS
      ensures HasRoom(old(attempts), now, id) ==> attempts == Retained(old(attempts), now)
      ensures !HasRoom(old(attempts), now, id) ==>
                var kept := Retained(old(attempts), now);
                && |attempts| == LOGIN_RATE_LIMIT_MAX_IDENTIFIERS - 1 < |kept| && id !in kept
                && attempts.Keys <= kept.Keys && (forall k | k in attempts :: attempts[k] == kept[k])
                && (forall a, b | a in kept && a !in attempts && b in attempts :: Newest(kept[a]) <= Newest(kept[b]))
    {
      var kept := RetainHistories(attempts, now);
      RetainedIsSmaller(attempts, now);
      if |kept| < LOGIN_RATE_LIMIT_MAX_IDENTIFIERS || id in kept {
        attempts := kept;
      } else {
        attempts := DropOldest(kept);
      }
    }

    /** The part that a check and a recorded failure have in common. */
    method Update(id: string, now: nat, more: History)
      requires |attempts| <= LOGIN_RATE_LIMIT_MAX_IDENTIFIERS
      modifies this`attempts
      ensures |attempts| <= LOGIN_RATE_LIMIT_MAX_IDENTIFIERS && IsUpdate(old(attempts), attempts, now, id, more)
    {
      hide Live, IsLive, Newest;
      ghost var before := attempts;
      Prune(now, id);
      PrunedHistory(before, attempts, now, id);
      var history := RetainLive(At(attempts, id), now);
      attempts := attempts[id := history + more];
    }

    /** `check_rate_limit`. With fewer than 8 failures in the window an attempt always passes. With 8
        or more, at the latest of the times seen and once the last loss of failures is a window ago,
        none does; so a call whose time is such decides exactly as the log says. */
    method Check(id: string, now: nat) returns (passes: bool)
      requires Valid()
      modifies this
      ensures Valid() && clock == Max(old(clock), now) && log == old(log)
      ensures IsUpdate(old(attempts), attempts, now, id, []) && (passes <==> |attempts[id]| < LOGIN_MAX_ATTEMPTS)
      ensures |Live(At(log, id), now)| < LOGIN_MAX_ATTEMPTS ==> passes
      ensures |Live(At(log, id), Max(clock, old(exactFrom)))| >= LOGIN_MAX_ATTEMPTS ==> !passes
      ensures Max(old(clock), old(exactFrom)) <= now ==> (passes <==> |Live(At(log, id), now)| < LOGIN_MAX_ATTEMPTS)
      ensures exactFrom == if HasRoom(old(attempts), now, id) then old(exactFrom) else clock + LOGIN_WINDOW_MS
      ensures Max(old(clock), old(exactFrom)) <= now ==> (Agrees(attempts, log, now) <==> HasRoom(log, now, id))
    {
      hide Live, Retained, Agrees, HasRoom, IsUpdate, IsPart, IsPast;
      ghost var before := attempts;
      Update(id, now, []);
      UpdateHas(before, attempts, now, id, []);
      passes := |attempts[id]| < LOGIN_MAX_ATTEMPTS;
      SameLog(log, id);
      UpdateIsPart(before, attempts, log, log, now, id, []);
      Decides(before, attempts, log, now, id, Max(clock, now), Max(Max(clock, now), exactFrom));
      UpdateKeeps(before, attempts, log, log, now, id, [], clock, exactFrom);
      if Max(clock, exactFrom) <= now {
        UpdateAgrees(before, attempts, log, log, now, id, [], Max(clock, exactFrom));
      }
      clock := Max(clock, now);
      if !HasRoom(before, now, id) {
        exactFrom := clock + LOGIN_WINDOW_MS;
      }
    }

    /** `record_login_failure`. What the table says is no longer what the log says exactly when an
        identifier with live failures had to make room, and it is so again one window later. */
    method RecordFailure(id: string, now: nat)
      requires Valid()
      modifies this
      ensures Valid() && clock == Max(old(clock), now) && log == old(log)[id := At(old(log), id) + [now]]
      ensures IsUpdate(old(attempts), attempts, now, id, [now])
      ensures exactFrom == if HasRoom(old(attempts), now, id) then old(exactFrom) else clock + LOGIN_WINDOW_MS
      ensures Max(old(clock), old(exactFrom)) <= now ==> (Agrees(attempts, log, now) <==> HasRoom(old(log), now, id))
    {
      hide Live, Retained, Agrees, HasRoom, IsUpdate, IsPart, IsPast;
      ghost var before, logBefore := attempts, log;
      Update(id, now, [now]);
      log := log[id := At(log, id) + [now]];
      LogExtended(logBefore, id, now);
      UpdateIsPart(before, attempts, logBefore, log, now, id, [now]);
      UpdateKeeps(before, attempts, logBefore, log, now, id, [now], clock, exactFrom);
      if Max(clock, exactFrom) <= now {
        UpdateAgrees(before, attempts, logBefore, log, now, id, [now], Max(clock, exactFrom));
      }
      clock := Max(clock, now);
      if !HasRoom(before, now, id) {
        exactFrom := clock + LOGIN_WINDOW_MS;
      }
    }

    /** `clear_login_failures`, after a successful login. */
    method Clear(id: string)
      requires Valid()
      modifies this
      ensures Valid() && clock == old(clock) && exactFrom == old(exactFrom)
      ensures log == old(log) - {id} && attempts == old(attempts) - {id}
    {
      hide Live, Agrees, IsPart, IsPast;
      SubsetSize((attempts - {id}).Keys, attempts.Keys);
      ClearedAgrees(attempts, log, id, clock, Max(clock, exactFrom));
      attempts := attempts - {id};
      log := log - {id};
    }
  }

  lemma PrunedHistory(before: Attempts, pruned: Attempts, now: nat, id: string)
    requires id in pruned ==> id in Retained(before, now) && pruned[id] == Retained(before, now)[id]
    requires id in Retained(before, now) ==> id in pruned
    ensures Live(At(pruned, id), now) == Live(At(before, id), now)
  {
    if id in pruned {
      LiveAgain(before[id], now, now);
    }
  }

  lemma ClearedAgrees(attempts: Attempts, log: Attempts, id: string, clock: nat, t: nat)
    requires IsPart(attempts, log) && IsPast(log, clock) && Agrees(attempts, log, t)
    ensures IsPart(attempts - {id}, log - {id}) && IsPast(log - {id}, clock) && Agrees(attempts - {id}, log - {id}, t)
  {
    hide Live;
    forall k ensures Live(At(attempts - {id}, k), t) == Live(At(log - {id}, k), t) {
      assert Live(At(attempts, k), t) == Live(At(log, k), t);
    }
    forall k, u: nat ensures |Live(At(attempts - {id}, k), u)| <= |Live(At(log - {id}, k), u)| {
      assert |Live(At(attempts, k), u)| <= |Live(At(log, k), u)|;
    }
    forall k, at | at in At(log - {id}, k) ensures at <= clock {
      assert at in At(log, k);
    }
  }

  /** The log with one history extended. */
  ghost predicate IsExtended(log: Attempts, log': Attempts, id: string, more: History) {
    forall k :: At(log', k) == At(log, k) + if k == id then more else []
  }

  lemma SameLog(log: Attempts, id: string)
    ensures IsExtended(log, log, id, [])
  {
    forall k ensures At(log, k) == At(log, k) + [] {}
  }

  lemma LogExtended(log: Attempts, id: string, now: nat)
    ensures IsExtended(log, log[id := At(log, id) + [now]], id, [now])
  {
    forall k ensures At(log, k) == At(log, k) + [] {}
  }

  // ----- what one call does to the table -----

  lemma {:induction false} LiveLength(h: History, now: nat, t: nat)
    ensures |Live(Live(h, now), t)| <= |Live(h, t)|
    ensures |Live(h, t)| <= |h|
  {
    if h != [] {
      LiveLength(h[1..], now, t);
      if IsLive(h[0], now) {
        LiveCons(h[0], Live(h[1..], now), t);
      } else {
        assert Live(h, now) == Live(h[1..], now);
      }
    }
  }

  lemma LiveMore(h: History, more: History, now: nat, t: nat)
    requires more == [] || more == [now]
    ensures Live(h + more, t) == Live(h, t) + Live(more, t)
  {
    if more == [] {
      assert h + more == h && Live(h, t) + [] == Live(h, t);
    } else {
      LiveAppend(h, now, t);
      LiveCons(now, [], t);
    }
  }

  /** What the table has of each identifier after a call. */
  lemma UpdatedHistory(before: Attempts, after: Attempts, now: nat, id: string, more: History, k: string)
    requires IsUpdate(before, after, now, id, more)
    ensures k == id ==> At(after, k) == Live(At(before, k), now) + more
    ensures k != id ==> At(after, k) == [] || At(after, k) == Live(At(before, k), now)
    ensures k != id && HasRoom(before, now, id) ==> At(after, k) == Live(At(before, k), now)
  {
    hide Newest, Live;
    assert Live([], now) == [] by { LiveOfNothing(now); }
  }

  lemma LiveOfNothing(now: nat)
    ensures Live([], now) == []
  {
  }

  lemma OnePart(h: History, g: History, more: History, now: nat, t: nat)
    requires |Live(h, t)| <= |Live(g, t)| && (more == [] || more == [now])
    ensures |Live(Live(h, now) + more, t)| <= |Live(g + more, t)|
  {
    LiveLength(h, now, t);
    LiveMore(Live(h, now), more, now, t);
    LiveMore(g, more, now, t);
  }

  lemma UpdateIsPart(before: Attempts, after: Attempts, log: Attempts, log': Attempts, now: nat, id: string,
                     more: History)
    requires IsUpdate(before, after, now, id, more) && IsPart(before, log)
    requires IsExtended(log, log', id, more) && (more == [] || more == [now])
    ensures IsPart(after, log')
  {
    hide Live, IsUpdate;
    forall k, t: nat ensures |Live(At(after, k), t)| <= |Live(At(log', k), t)| {
      UpdatedHistory(before, after, now, id, more, k);
      assert At(log', k) == At(log, k) + if k == id then more else [];
      assert |Live(At(before, k), t)| <= |Live(At(log, k), t)|;
      OnePart(At(before, k), At(log, k), if k == id then more else [], now, t);
      LiveOfNothing(t);
      assert Live(At(before, k), now) + [] == Live(At(before, k), now);
    }
  }

  lemma OneAgrees(h: History, g: History, more: History, now: nat, t: nat)
    requires Live(h, t) == Live(g, t) && (more == [] || more == [now]) && now <= t
    ensures Live(Live(h, now) + more, t) == Live(g + more, t)
  {
    LiveAgain(h, now, t);
    LiveMore(Live(h, now), more, now, t);
    LiveMore(g, more, now, t);
  }

  /** With room, the table agrees with the log at every later time at which it did. */
  lemma RoomAgrees(before: Attempts, after: Attempts, log: Attempts, log': Attempts, now: nat, id: string,
                   more: History, t: nat)
    requires IsUpdate(before, after, now, id, more) && Agrees(before, log, t) && now <= t && HasRoom(before, now, id)
    requires IsExtended(log, log', id, more) && (more == [] || more == [now])
    ensures Agrees(after, log', t)
  {
    hide Live, IsUpdate, HasRoom;
    forall k ensures Live(At(after, k), t) == Live(At(log', k), t) {
      UpdatedHistory(before, after, now, id, more, k);
      assert At(log', k) == At(log, k) + if k == id then more else [];
      assert Live(At(before, k), t) == Live(At(log, k), t);
      OneAgrees(At(before, k), At(log, k), if k == id then more else [], now, t);
      assert Live(At(before, k), now) + [] == Live(At(before, k), now);
    }
  }

  lemma {:induction false} AllDead(h: History, clock: nat, t: nat)
    requires (forall at <- h :: at <= clock) && clock + LOGIN_WINDOW_MS <= t
    ensures Live(h, t) == []
  {
    if h != [] {
      assert h[0] in h && forall at <- h[1..] :: at in h;
      AllDead(h[1..], clock, t);
    }
  }

  /** One window after the latest time seen no failure counts any more, neither in table nor in log. */
  lemma WindowAgrees(attempts: Attempts, log: Attempts, clock: nat, t: nat)
    requires IsPart(attempts, log) && IsPast(log, clock) && clock + LOGIN_WINDOW_MS <= t
    ensures Agrees(attempts, log, t)
  {
    hide Live;
    forall k ensures Live(At(attempts, k), t) == Live(At(log, k), t) {
      AllDead(At(log, k), clock, t);
      assert |Live(At(attempts, k), t)| <= |Live(At(log, k), t)|;
    }
  }

  lemma ExtendedIsPast(log: Attempts, log': Attempts, now: nat, id: string, more: History, clock: nat)
    requires IsPast(log, clock) && IsExtended(log, log', id, more) && (more == [] || more == [now])
    ensures IsPast(log', Max(clock, now))
  {
    forall k, at | at in At(log', k) ensures at <= Max(clock, now) {
      assert At(log', k) == At(log, k) + if k == id then more else [];
      assert at in At(log, k) || at in more;
    }
  }

  lemma UpdateKeeps(before: Attempts, after: Attempts, log: Attempts, log': Attempts, now: nat, id: string,
                    more: History,
                    clock: nat, exactFrom: nat)
    requires IsUpdate(before, after, now, id, more) && Agrees(before, log, Max(clock, exactFrom)) && IsPast(log, clock)
    requires IsExtended(log, log', id, more) && (more == [] || more == [now]) && IsPart(after, log')
    ensures var later := Max(clock, now);
            && IsPast(log', later)
            && Agrees(after, log', Max(later, if HasRoom(before, now, id) then exactFrom else later + LOGIN_WINDOW_MS))
  {
    hide Live, Agrees, IsUpdate, HasRoom, IsPart, IsPast, IsExtended;
    var later := Max(clock, now);
    ExtendedIsPast(log, log', now, id, more, clock);
    if HasRoom(before, now, id) {
      AgreesLater(before, log, Max(clock, exactFrom), Max(later, exactFrom));
      RoomAgrees(before, after, log, log', now, id, more, Max(later, exactFrom));
    } else {
      WindowAgrees(after, log', later, later + LOGIN_WINDOW_MS);
    }
  }

  /** What a check answers, from the log's point of view. */
  lemma Decides(before: Attempts, after: Attempts, log: Attempts, now: nat, id: string, later: nat, t: nat)
    requires IsUpdate(before, after, now, id, []) && IsPart(before, log) && now <= later <= t
    requires exists u: nat :: u <= t && Agrees(before, log, u)
    ensures id in after && |after[id]| <= |Live(At(log, id), now)|
    ensures |after[id]| >= |Live(At(log, id), t)|
  {
    hide Live, Agrees, IsUpdate;
    var u: nat :| u <= t && Agrees(before, log, u);
    UpdatedHistory(before, after, now, id, [], id);
    assert Live(At(before, id), now) + [] == Live(At(before, id), now);
    assert |Live(At(before, id), now)| <= |Live(At(log, id), now)|;
    AgreesLater(before, log, u, t);
    assert Live(At(before, id), t) == Live(At(log, id), t) by { AgreesOn(before, log, t, id); }
    LiveAgain(At(before, id), now, t);
    LiveLength(Live(At(before, id), now), now, t);
    assert id in after by { UpdateHas(before, after, now, id, []); }
  }

  lemma AgreesOn(attempts: Attempts, log: Attempts, t: nat, id: string)
    requires Agrees(attempts, log, t)
    ensures Live(At(attempts, id), t) == Live(At(log, id), t)
  {
  }

  lemma UpdateHas(before: Attempts, after: Attempts, now: nat, id: string, more: History)
    requires IsUpdate(before, after, now, id, more)
    ensures id in after
  {
  }

  lemma ForgottenDisagrees(kept: Attempts, after: Attempts, log: Attempts, log': Attempts, now: nat, id: string,
                           more: History)
    requires kept == Retained(log, now) && |after| <= |kept| && id !in kept && id in after
    requires IsExtended(log, log', id, more)
    ensures !Agrees(after, log', now)
  {
    if kept.Keys <= after.Keys {
      SubsetSize(kept.Keys, after.Keys - {id});
    }
    var k :| k in kept && k !in after;
    assert At(log', k) == At(log, k) + [] == At(log, k);
    assert Live(At(after, k), now) == [];
  }

  /** A table that agreed with the log still does after a call exactly when no identifier with live
      failures had to go, and whether one has to can be told from the log. */
  lemma UpdateAgrees(before: Attempts, after: Attempts, log: Attempts, log': Attempts, now: nat, id: string,
                     more: History, u: nat)
    requires IsUpdate(before, after, now, id, more) && Agrees(before, log, u) && u <= now
    requires IsExtended(log, log', id, more) && (more == [] || more == [now])
    ensures HasRoom(before, now, id) == HasRoom(log, now, id)
    ensures Agrees(after, log', now) <==> HasRoom(log, now, id)
  {
    hide Live, Agrees, IsExtended, Retained, IsUpdate;
    AgreesLater(before, log, u, now);
    AgreesRetains(before, log, now);
    if HasRoom(log, now, id) {
      RoomAgrees(before, after, log, log', now, id, more, now);
    } else {
      CrowdedUpdate(before, after, now, id, more);
      ForgottenDisagrees(Retained(log, now), after, log, log', now, id, more);
    }
  }

  lemma CrowdedUpdate(before: Attempts, after: Attempts, now: nat, id: string, more: History)
    requires IsUpdate(before, after, now, id, more) && !HasRoom(before, now, id)
    ensures |after| <= |Retained(before, now)| && id !in Retained(before, now) && id in after
  {
    hide Live, Newest, Retained;
  }

  lemma RetainedIsSmaller(attempts: Attempts, now: nat)
    ensures |Retained(attempts, now)| <= |attempts|
  {
    SubsetSize(Retained(attempts, now).Keys, attempts.Keys);
  }

  lemma {:induction false} SubsetSize<T>(a: set<T>, b: set<T>)
    requires a <= b
    ensures |a| <= |b|
    decreases |a|
  {
    if a != {} {
      var x :| x in a;
      SubsetSize(a - {x}, b - {x});
    }
  }

  // ----- a run that loses failures -----

  /** Names that differ in their length. */
  function Name(i: nat): (name: string)
    ensures |name| == i + 2
  {
    seq(i + 2, _ => 'n')
  }

  /** 8 failures at the start. */
  const EIGHT: History := seq(8, _ => 0)

  const ONE: History := [1]

  /** One identifier has one history, and so many others another. */
  ghost predicate IsCrowd(attempts: Attempts, x: string, e: History, y: History, n: nat) {
    && |attempts| == n + 1 && x in attempts && attempts[x] == e && |x| < 2
    && forall k | k in attempts && k != x :: |k| < n + 2 && attempts[k] == y
  }

  /** Both histories lie in the window, the one being older. */
  ghost predicate AreLive(e: History, y: History, now: nat) {
    Live(e, now) == e && Live(y, now) == y && e != [] && y != [] && Newest(e) < Newest(y)
  }

  lemma CrowdIsLive(attempts: Attempts, x: string, e: History, y: History, now: nat, n: nat)
    requires IsCrowd(attempts, x, e, y, n) && AreLive(e, y, now)
    ensures Retained(attempts, now) == attempts
  {
    hide Live, Newest;
    forall k | k in attempts ensures Live(attempts[k], now) == attempts[k] != [] {
      assert k == x || attempts[k] == y;
    }
  }

  lemma NameIsNew(attempts: Attempts, x: string, e: History, y: History, n: nat)
    requires IsCrowd(attempts, x, e, y, n)
    ensures Name(n) !in attempts && Name(n) != x
  {
    hide Name;
  }

  lemma {:induction false} ZerosAreLive(h: History)
    requires forall at <- h :: at == 0
    ensures Live(h, 1) == h && Live(h, 0) == h && Newest(h) == 0
  {
    if h != [] {
      assert h[0] in h && forall at <- h[1..] :: at in h;
      ZerosAreLive(h[1..]);
      assert h == [h[0]] + h[1..];
    }
  }

  lemma OneIsLive()
    ensures Live(ONE, 1) == ONE && Newest(ONE) == 1
  {
    assert ONE[1..] == [] && Live([], 1) == [] && [1] + [] == ONE;
  }

  lemma EightThenOne()
    ensures AreLive(EIGHT, ONE, 1) && |EIGHT| == LOGIN_MAX_ATTEMPTS
  {
    hide Live, Newest;
    ZerosAreLive(EIGHT);
    OneIsLive();
  }

  lemma CrowdGrows(before: Attempts, after: Attempts, x: string, e: History, y: History, now: nat, n: nat)
    requires IsCrowd(before, x, e, y, n) && AreLive(e, y, now) && n + 1 < LOGIN_RATE_LIMIT_MAX_IDENTIFIERS
    requires IsUpdate(before, after, now, Name(n), y)
    ensures IsCrowd(after, x, e, y, n + 1)
  {
    CrowdIsLive(before, x, e, y, now, n);
    NameIsNew(before, x, e, y, n);
    LiveOfNothing(now);
    hide Live, Newest, Retained, Name, AreLive;
    var name := Name(n);
    assert HasRoom(before, now, name);
    assert after[name] == [] + y == y;
    OneMoreName(before, after, name);
  }

  lemma OneMoreName(before: Attempts, after: Attempts, name: string)
    requires name !in before && after.Keys == before.Keys + {name}
    ensures |after| == |before| + 1
  {
    assert |after.Keys| == |before.Keys| + 1;
  }

  lemma SomeoneGoes(before: Attempts, after: Attempts, last: string) returns (a: string)
    requires |after| <= |before| && last in after && last !in before
    ensures a in before && a !in after
  {
    if before.Keys <= after.Keys {
      SubsetSize(before.Keys, after.Keys - {last});
    }
    a :| a in before && a !in after;
  }

  lemma CrowdLoses(before: Attempts, after: Attempts, x: string, e: History, y: History, now: nat, n: nat)
    requires IsCrowd(before, x, e, y, n) && AreLive(e, y, now) && n + 1 == LOGIN_RATE_LIMIT_MAX_IDENTIFIERS
    requires IsUpdate(before, after, now, Name(n), y)
    ensures x !in after
  {
    CrowdIsLive(before, x, e, y, now, n);
    NameIsNew(before, x, e, y, n);
    hide Live, Newest, Retained, Name;
    assert !HasRoom(before, now, Name(n));
    var a := SomeoneGoes(before, after, Name(n));
    assert a != x ==> Newest(before[a]) > Newest(before[x]);
  }

  /** An identifier fails 8 times, 4096 others fail once, and then the first is let through although
      all its failures lie in the window: for want of room they were forgotten. */
  method EightFailuresPass() returns (limiter: Limiter, passes: bool)
    ensures fresh(limiter) && limiter.Valid()
    ensures passes && |Live(At(limiter.log, "x"), 1)| == LOGIN_MAX_ATTEMPTS
  {
    limiter := EightFailures();
    var x := "x";
    for n := 0 to LOGIN_RATE_LIMIT_MAX_IDENTIFIERS - 1
      invariant fresh(limiter) && limiter.Valid()
      invariant IsCrowd(limiter.attempts, x, EIGHT, ONE, n) && At(limiter.log, x) == EIGHT
    {
      hide *;
      FailOnce(limiter, x, n);
    }
    passes := ForgetsAndPasses(limiter, x);
  }

  method EightFailures() returns (limiter: Limiter)
    ensures fresh(limiter) && limiter.Valid()
    ensures IsCrowd(limiter.attempts, "x", EIGHT, ONE, 0) && At(limiter.log, "x") == EIGHT
  {
    hide Live, Newest, Retained;
    limiter := new Limiter();
    for i := 0 to 8
      invariant fresh(limiter) && limiter.Valid() && At(limiter.log, "x") == EIGHT[..i]
                && At(limiter.attempts, "x") == EIGHT[..i]
      invariant forall k | k in limiter.attempts :: k == "x"
    {
      ghost var before := limiter.attempts;
      FewHaveRoom(before, 0, "x");
      ZerosAreLive(EIGHT[..i]);
      limiter.RecordFailure("x", 0);
      assert EIGHT[..i] + [0] == EIGHT[..i + 1];
    }
    assert EIGHT[..8] == EIGHT;
    assert limiter.attempts.Keys == {"x"};
  }

  lemma FewHaveRoom(attempts: Attempts, now: nat, id: string)
    requires forall k | k in attempts :: k == id
    ensures HasRoom(attempts, now, id)
    ensures forall k | k in Retained(attempts, now) :: k == id
  {
    SubsetSize(Retained(attempts, now).Keys, {id});
  }

  method FailOnce(limiter: Limiter, x: string, n: nat)
    requires limiter.Valid() && IsCrowd(limiter.attempts, x, EIGHT, ONE, n) && n + 1 < LOGIN_RATE_LIMIT_MAX_IDENTIFIERS
    modifies limiter
    ensures limiter.Valid() && IsCrowd(limiter.attempts, x, EIGHT, ONE, n + 1)
    ensures At(limiter.log, x) == At(old(limiter.log), x)
  {
    hide Live, IsUpdate, IsCrowd, IsPart, IsPast, Agrees, Retained, AreLive;
    ghost var before := limiter.attempts;
    EightThenOne();
    NameIsNew(before, x, EIGHT, ONE, n);
    limiter.RecordFailure(Name(n), 1);
    CrowdGrows(before, limiter.attempts, x, EIGHT, ONE, 1, n);
  }

  method ForgetsAndPasses(limiter: Limiter, x: string) returns (passes: bool)
    requires limiter.Valid() && IsCrowd(limiter.attempts, x, EIGHT, ONE, LOGIN_RATE_LIMIT_MAX_IDENTIFIERS - 1)
    requires At(limiter.log, x) == EIGHT
    modifies limiter
    ensures limiter.Valid() && passes && |Live(At(limiter.log, x), 1)| == LOGIN_MAX_ATTEMPTS
  {
    hide IsCrowd, IsPart, IsPast, Agrees, Retained, Name, Live, Newest;
    ghost var before := limiter.attempts;
    var last := LOGIN_RATE_LIMIT_MAX_IDENTIFIERS - 1;
    EightThenOne();
    NameIsNew(before, x, EIGHT, ONE, last);
    limiter.RecordFailure(Name(last), 1);
    CrowdLoses(before, limiter.attempts, x, EIGHT, ONE, 1, last);
    LiveOfNothing(1);
    passes := limiter.Check(x, 1);
  }
}
