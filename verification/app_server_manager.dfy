/** The manager of the app-server clients: evicting idle ones, preparing a restart, and looking a
    client up by key. What a client shows when it is looked at is an input, for others may change
    it between any two looks. */
module AppServerManager {
  import opened Text
  import opened Sorting

  // ----- eviction -----

  /** A client as it was when the candidates were collected. */
  datatype Candidate = Candidate(key: string, client: nat, hasProcess: bool, lastActivity: nat)

  /** What the client shows when its turn comes: whether `try_write` gets its lifecycle lock, its
      work and times, who is registered under its key, and whether closing it fails. */
  datatype Visit = Visit(lockFree: bool, liveWork: bool, now: nat, lastActivity: nat, registered: Option<nat>,
                         closeFails: bool)

  function SaturatingSub(a: nat, b: nat): nat {
    if a < b then 0 else a - b
  }

  predicate IsIdleFor(v: Visit, idleFor: nat) {
    !v.liveWork && SaturatingSub(v.now, v.lastActivity) >= idleFor
  }

  predicate MayEvict(c: Candidate, v: Visit, idleFor: nat) {
    c.hasProcess && v.lockFree && IsIdleFor(v, idleFor) && v.registered == Some(c.client)
  }

  /** Candidates with a process come first, the least recently active of them first of all. */
  predicate NotAfter(a: Candidate, b: Candidate) {
    (a.hasProcess && !b.hasProcess) || (a.hasProcess == b.hasProcess && a.lastActivity <= b.lastActivity)
  }

  function Others(cs: seq<Candidate>, excluded: Option<string>): (r: seq<Candidate>)
    ensures forall c :: c in r <==> c in cs && excluded != Some(c.key)
  {
    if cs == [] then []
    else if excluded == Some(cs[0].key) then Others(cs[1..], excluded)
    else [cs[0]] + Others(cs[1..], excluded)
  }

  /** Who is closed, taking the candidates in order: the first `room` that may be. */
  function Chosen(order: seq<Candidate>, look: string -> Visit, idleFor: nat, room: nat): seq<Candidate> {
    if order == [] || room == 0 then []
    else if MayEvict(order[0], look(order[0].key), idleFor) then
      [order[0]] + Chosen(order[1..], look, idleFor, room - 1)
    else Chosen(order[1..], look, idleFor, room)
  }

  /** The keys and the clients of the candidates closed so far. */
  function Keys(cs: seq<Candidate>): (r: seq<string>)
    ensures |r| == |cs| && forall i | 0 <= i < |cs| :: r[i] == cs[i].key
  {
    seq(|cs|, i requires 0 <= i < |cs| => cs[i].key)
  }

  /** Safety and order of what is chosen: at most as many as there is room for, each one fit to be
      closed; and whoever had to stay although it was fit came after a full number of others. */
  lemma {:induction false} ChosenAreOldest(order: seq<Candidate>, look: string -> Visit, idleFor: nat, room: nat)
    requires IsSorted(order, NotAfter)
    ensures var r := Chosen(order, look, idleFor, room);
            && |r| <= room
            && (forall c <- r :: c in order && MayEvict(c, look(c.key), idleFor))
            && (forall c <- order | MayEvict(c, look(c.key), idleFor) && c !in r ::
                  |r| == room && forall e <- r :: e.lastActivity <= c.lastActivity)
  {
    if order != [] && room > 0 {
      var first, rest := order[0], order[1..];
      assert IsSorted(rest, NotAfter);
      assert forall c <- order :: c == first || c in rest;
      assert forall c <- rest :: NotAfter(first, c) by {
        assert forall i | 0 <= i < |rest| :: rest[i] == order[i + 1];
      }
      ChosenAreOldest(rest, look, idleFor, if MayEvict(first, look(first.key), idleFor) then room - 1 else room);
    }
  }

  lemma {:induction false} ChosenInOrder(order: seq<Candidate>, look: string -> Visit, idleFor: nat, room: nat)
    requires IsSorted(order, NotAfter)
    ensures var r := Chosen(order, look, idleFor, room);
            && (forall c <- r :: c in order && c.hasProcess)
            && forall i, j | 0 <= i < j < |r| :: r[i].lastActivity <= r[j].lastActivity
  {
    if order != [] && room > 0 {
      var first, rest := order[0], order[1..];
      assert IsSorted(rest, NotAfter);
      assert forall c <- rest :: NotAfter(first, c) by {
        assert forall i | 0 <= i < |rest| :: rest[i] == order[i + 1];
      }
      ChosenInOrder(rest, look, idleFor, if MayEvict(first, look(first.key), idleFor) then room - 1 else room);
    }
  }

  /** Nobody at the head of the sequence fails to close. */
  predicate CloseAll(cs: seq<Candidate>, look: string -> Visit) {
    forall c <- cs :: !look(c.key).closeFails
  }

  /** The closing loop: visits the candidates in order and closes the chosen ones, until one fails. */
  method CloseChosen(order: seq<Candidate>, look: string -> Visit, idleFor: nat, maxToEvict: nat)
    returns (evicted: Option<seq<string>>, closed: seq<Candidate>)
    ensures CloseAll(closed, look)
    ensures evicted.Some? ==> closed == Chosen(order, look, idleFor, maxToEvict) && evicted.value == Keys(closed)
    ensures evicted.None? ==>
              var all := Chosen(order, look, idleFor, maxToEvict);
              |closed| < |all| && closed == all[..|closed|] && look(all[|closed|].key).closeFails
  {
    closed := [];
    ghost var all := Chosen(order, look, idleFor, maxToEvict);
    assert order[0..] == order;
    for i := 0 to |order|
      invariant |closed| <= maxToEvict && CloseAll(closed, look)
      invariant all == closed + Chosen(order[i..], look, idleFor, maxToEvict - |closed|)
    {
      assert order[i..][1..] == order[i + 1..];
      if |closed| < maxToEvict && order[i].hasProcess {
        var v := look(order[i].key);
        if v.lockFree && IsIdleFor(v, idleFor) && v.registered == Some(order[i].client) {
          assert all == closed + [order[i]] + Chosen(order[i + 1..], look, idleFor, maxToEvict - |closed| - 1);
          if v.closeFails {
            return None, closed;
          }
          closed := closed + [order[i]];
        }
      }
    }
    evicted := Some(Keys(closed));
  }

  /** The client had nothing to do for long enough, and closing it fails. */
  predicate IsIdleAndFails(c: Candidate, v: Visit, idleFor: nat) {
    c.hasProcess && v.lockFree && !v.liveWork && v.closeFails && (v.now >= v.lastActivity + idleFor || idleFor == 0)
  }

  lemma FitForEviction(c: Candidate, v: Visit, idleFor: nat)
    ensures MayEvict(c, v, idleFor) <==>
              c.hasProcess && v.lockFree && !v.liveWork && v.registered == Some(c.client)
              && (v.now >= v.lastActivity + idleFor || idleFor == 0)
  {
  }

  /** `evict_idle_clients_from_registry`: closes idle clients, oldest first, and returns their keys;
      a close that fails ends it with an error. It takes nothing out of the registry. */
  method EvictIdleClients(snapshot: seq<Candidate>, look: string -> Visit, idleFor: nat, maxToEvict: nat,
                          excluded: Option<string>)
    returns (evicted: Option<seq<string>>, closed: seq<Candidate>)
    ensures |closed| <= maxToEvict && forall c <- closed :: !look(c.key).closeFails
    ensures forall c <- closed :: c in snapshot && excluded != Some(c.key) && c.hasProcess
    ensures forall c <- closed ::
              var v := look(c.key);
              v.lockFree && !v.liveWork && v.registered == Some(c.client)
              && (v.now >= v.lastActivity + idleFor || idleFor == 0)
    ensures evicted.Some? ==>
              |evicted.value| == |closed| && forall i | 0 <= i < |closed| :: evicted.value[i] == closed[i].key
    ensures evicted.Some? ==>
              forall c <- snapshot | c !in closed && excluded != Some(c.key) && c.hasProcess ::
                var v := look(c.key);
                (v.lockFree && !v.liveWork && v.registered == Some(c.client)
                 && (v.now >= v.lastActivity + idleFor || idleFor == 0)) ==>
                  |closed| == maxToEvict && forall e <- closed :: e.lastActivity <= c.lastActivity
    ensures forall i, j | 0 <= i < j < |closed| :: closed[i].lastActivity <= closed[j].lastActivity
    ensures evicted.None? ==>
              exists c <- snapshot :: excluded != Some(c.key) && IsIdleAndFails(c, look(c.key), idleFor)
  {
    hide Chosen, IsSorted, MayEvict;
    forall c: Candidate ensures
      var v := look(c.key);
      MayEvict(c, v, idleFor) <==>
        c.hasProcess && v.lockFree && !v.liveWork && v.registered == Some(c.client)
        && (v.now >= v.lastActivity + idleFor || idleFor == 0)
    {
      FitForEviction(c, look(c.key), idleFor);
    }
    if maxToEvict == 0 {
      return Some([]), [];
    }
    assert IsOrder(NotAfter);
    var order := SortBy(Others(snapshot, excluded), NotAfter);
    ChosenAreOldest(order, look, idleFor, maxToEvict);
    ChosenInOrder(order, look, idleFor, maxToEvict);
    evicted, closed := CloseChosen(order, look, idleFor, maxToEvict);
    ghost var all := Chosen(order, look, idleFor, maxToEvict);
    if evicted.None? {
      assert all[|closed|] in all;
    }
  }

  // ----- preparing a restart -----

  /** A client at the scan: whether its process is usable and a connection to the persistent daemon,
      and whether it has live work; and later, at the close, its live work then and whether it fails. */
  datatype Scanned = Scanned(process: Option<bool>, busy: bool, busyLater: bool, closeFails: bool)

  datatype Status = Status(clients: nat, active: nat, handoff: nat, stdio: nat, blocking: nat, closedIdle: nat)

  /** The process outlives the restart behind its daemon. */
  predicate IsPreserved(c: Scanned, handoffEnabled: bool) {
    handoffEnabled && c.process.Some? && c.process.value
  }

  predicate Blocks(c: Scanned, handoffEnabled: bool) {
    c.process.Some? && !IsPreserved(c, handoffEnabled) && c.busy
  }

  predicate IsClosable(c: Scanned, handoffEnabled: bool) {
    c.process.Some? && !IsPreserved(c, handoffEnabled) && !c.busy
  }

  datatype Kind = Active | Handoff | Stdio | Preserved | Blocking | Closable

  predicate IsKind(c: Scanned, kind: Kind, handoffEnabled: bool) {
    match kind
    case Active => c.process.Some?
    case Handoff => c.process.Some? && c.process.value
    case Stdio => c.process.Some? && !c.process.value
    case Preserved => IsPreserved(c, handoffEnabled)
    case Blocking => Blocks(c, handoffEnabled)
    case Closable => IsClosable(c, handoffEnabled)
  }

  /** How many of the first n clients are of one kind. */
  function Count(cs: seq<Scanned>, n: nat, kind: Kind, handoffEnabled: bool): (k: nat)
    requires n <= |cs|
    ensures k <= n
  {
    if n == 0 then 0
    else Count(cs, n - 1, kind, handoffEnabled) + if IsKind(cs[n - 1], kind, handoffEnabled) then 1 else 0
  }

  lemma {:induction false} CountZero(cs: seq<Scanned>, n: nat, kind: Kind, handoffEnabled: bool)
    requires n <= |cs|
    ensures Count(cs, n, kind, handoffEnabled) == 0 <==> forall i | 0 <= i < n :: !IsKind(cs[i], kind, handoffEnabled)
  {
    if n > 0 {
      CountZero(cs, n - 1, kind, handoffEnabled);
    }
  }

  /** The clients of one kind among the first n. */
  function OfKind(cs: seq<Scanned>, n: nat, kind: Kind, h: bool): set<int>
    requires n <= |cs|
  {
    set i | 0 <= i < n && IsKind(cs[i], kind, h)
  }

  lemma OneMore(cs: seq<Scanned>, n: nat, kind: Kind, h: bool)
    requires 0 < n <= |cs|
    ensures OfKind(cs, n, kind, h)
         == OfKind(cs, n - 1, kind, h) + if IsKind(cs[n - 1], kind, h) then {n - 1} else {}
    ensures n - 1 !in OfKind(cs, n - 1, kind, h)
  {
    hide IsKind;
  }

  lemma {:induction false} CountIsSize(cs: seq<Scanned>, n: nat, kind: Kind, h: bool)
    requires n <= |cs|
    ensures Count(cs, n, kind, h) == |OfKind(cs, n, kind, h)|
  {
    hide IsKind;
    if n > 0 {
      CountIsSize(cs, n - 1, kind, h);
      OneMore(cs, n, kind, h);
      hide OfKind;
    }
  }

  lemma RunningAre(cs: seq<Scanned>, h: bool)
    ensures OfKind(cs, |cs|, Active, h) == set i | 0 <= i < |cs| && cs[i].process.Some?
    ensures OfKind(cs, |cs|, Handoff, h) == set i | 0 <= i < |cs| && cs[i].process.Some? && cs[i].process.value
    ensures OfKind(cs, |cs|, Blocking, h)
         == set i | 0 <= i < |cs| && cs[i].busy && cs[i].process.Some? && !(h && cs[i].process.value)
  {
  }

  lemma {:induction false} CountsAddUp(cs: seq<Scanned>, n: nat, h: bool)
    requires n <= |cs|
    ensures Count(cs, n, Active, h) == Count(cs, n, Handoff, h) + Count(cs, n, Stdio, h)
    ensures Count(cs, n, Active, h) == Count(cs, n, Preserved, h) + Count(cs, n, Blocking, h) + Count(cs, n, Closable,
          h)
    ensures Count(cs, n, Preserved, h) == if h then Count(cs, n, Handoff, h) else 0
  {
    if n > 0 {
      CountsAddUp(cs, n - 1, h);
    }
  }

  /** The scanning loop of `prepare_restart_handoff`. */
  method ScanClients(cs: seq<Scanned>, handoffEnabled: bool) returns (st: Status, closable: seq<nat>)
    ensures st.clients == |cs| && st.closedIdle == 0
    ensures st.active == Count(cs, |cs|, Active, handoffEnabled)
    ensures st.handoff == Count(cs, |cs|, Handoff, handoffEnabled)
    ensures st.stdio == Count(cs, |cs|, Stdio, handoffEnabled)
    ensures st.blocking == Count(cs, |cs|, Blocking, handoffEnabled)
    ensures |closable| == Count(cs, |cs|, Closable, handoffEnabled)
    ensures forall i: nat :: i in closable <==> i < |cs| && IsClosable(cs[i], handoffEnabled)
  {
    st, closable := Status(|cs|, 0, 0, 0, 0, 0), [];
    for n := 0 to |cs|
      invariant st.clients == |cs| && st.closedIdle == 0
      invariant st.active == Count(cs, n, Active, handoffEnabled)
      invariant st.handoff == Count(cs, n, Handoff, handoffEnabled)
      invariant st.stdio == Count(cs, n, Stdio, handoffEnabled)
      invariant st.blocking == Count(cs, n, Blocking, handoffEnabled)
      invariant |closable| == Count(cs, n, Closable, handoffEnabled)
      invariant forall i: nat :: i in closable <==> i < n && IsClosable(cs[i], handoffEnabled)
    {
      if cs[n].process.Some? {
        st := st.(active := st.active + 1);
        if cs[n].process.value {
          st := st.(handoff := st.handoff + 1);
        } else {
          st := st.(stdio := st.stdio + 1);
        }
        if !(handoffEnabled && cs[n].process.value) {
          if cs[n].busy {
            st := st.(blocking := st.blocking + 1);
          } else {
            closable := closable + [n];
          }
        }
      }
    }
  }

  /** The closing loop: a client that has work again, or fails to close, blocks. */
  method CloseClosable(cs: seq<Scanned>, closable: seq<nat>, st: Status) returns (r: Status, closed: seq<nat>)
    requires forall j | 0 <= j < |closable| :: closable[j] < |cs|
    ensures r.blocking + |closed| == st.blocking + |closable|
    ensures r == st.(closedIdle := st.closedIdle + |closed|, blocking := r.blocking)
    ensures forall i: nat :: i in closed <==> i < |cs| && i in closable && !cs[i].busyLater && !cs[i].closeFails
    ensures r.blocking == st.blocking ==> closed == closable
  {
    r, closed := st, [];
    for k := 0 to |closable|
      invariant r == st.(closedIdle := st.closedIdle + |closed|, blocking := r.blocking)
      invariant r.blocking + |closed| == st.blocking + k && |closed| <= k
      invariant forall i: nat :: i in closed <==>
              i < |cs| && i in closable[..k] && !cs[i].busyLater && !cs[i].closeFails
      invariant r.blocking == st.blocking ==> closed == closable[..k]
    {
      var i := closable[k];
      assert closable[..k + 1] == closable[..k] + [i];
      if cs[i].busyLater || cs[i].closeFails {
        r := r.(blocking := r.blocking + 1);
      } else {
        r := r.(closedIdle := r.closedIdle + 1);
        closed := closed + [i];
      }
    }
    assert closable[..|closable|] == closable;
  }

  /** `prepare_restart_handoff`: if a scanned client blocks, nothing is closed. Otherwise the active
      processes are those preserved, those closed, and those that came to block; and when nothing
      blocks, each was preserved or was closed without live work. */
  method PrepareRestart(cs: seq<Scanned>, handoffEnabled: bool) returns (st: Status, closed: seq<nat>)
    ensures st.clients == |cs| && st.active == st.handoff + st.stdio && st.closedIdle == |closed|
    ensures st.active == |set i | 0 <= i < |cs| && cs[i].process.Some?|
    ensures st.handoff == |set i | 0 <= i < |cs| && cs[i].process.Some? && cs[i].process.value|
    ensures (exists c <- cs :: c.busy && c.process.Some? && !(handoffEnabled && c.process.value)) ==>
              && closed == []
              && st.blocking == |set i | 0 <= i < |cs| && cs[i].busy && cs[i].process.Some?
                                         && !(handoffEnabled && cs[i].process.value)| > 0
    ensures !(exists c <- cs :: c.busy && c.process.Some? && !(handoffEnabled && c.process.value)) ==>
              && st.active == (if handoffEnabled then st.handoff else 0) + st.closedIdle + st.blocking
              && (forall i: nat :: i in closed <==>
                    i < |cs| && cs[i].process.Some? && !(handoffEnabled && cs[i].process.value)
                    && !cs[i].busy && !cs[i].busyLater && !cs[i].closeFails)
    ensures st.blocking == 0 ==>
              forall i | 0 <= i < |cs| && cs[i].process.Some? ::
                (cs[i].process.value && handoffEnabled) || (i in closed && !cs[i].busy && !cs[i].busyLater)
    ensures forall i <- closed :: i < |cs| && !cs[i].busy && !cs[i].busyLater && !cs[i].closeFails
  {
    var closable: seq<nat>;
    st, closable := ScanClients(cs, handoffEnabled);
    CountsAddUp(cs, |cs|, handoffEnabled);
    CountZero(cs, |cs|, Blocking, handoffEnabled);
    CountIsSize(cs, |cs|, Active, handoffEnabled);
    CountIsSize(cs, |cs|, Handoff, handoffEnabled);
    CountIsSize(cs, |cs|, Blocking, handoffEnabled);
    RunningAre(cs, handoffEnabled);
    hide OfKind, Count;
    assert forall i | 0 <= i < |cs| :: IsKind(cs[i], Blocking, handoffEnabled) <==>
             cs[i].busy && cs[i].process.Some? && !(handoffEnabled && cs[i].process.value);
    if st.blocking > 0 {
      return st, [];
    }
    assert forall j | 0 <= j < |closable| :: closable[j] in closable;
    st, closed := CloseClosable(cs, closable, st);
  }

  // ----- the registry -----

  /** A registered client: its number, and the profile it runs under. */
  datatype Registered = Registered(client: nat, profile: string)

  /** The registry of the manager, and the clients it has retired. */
  class Registry {
    var clients: map<string, Registered>
    var retired: seq<Registered>

    constructor ()
      ensures clients == map[] && retired == []
    {
      clients, retired := map[], [];
    }

    /** One turn of the loop under the lock: the client found and kept, the stale one taken out, or
        the new one registered. */
    method Lookup(key: string, profile: string, newClient: nat)
      returns (found: Option<Registered>, stale: Option<Registered>)
      modifies this`clients
      ensures found.Some? <==> stale.None?
      ensures found.Some? ==> found.value.profile == profile && clients == old(clients)[key := found.value]
      ensures found.Some? ==> if key in old(clients) then found.value == old(clients)[key]
              else found.value.client == newClient
      ensures stale.Some? ==> key in old(clients) && stale.value == old(clients)[key] && stale.value.profile != profile
      ensures stale.Some? ==> clients == old(clients) - {key}
    {
      if key in clients {
        if clients[key].profile == profile {
          assert clients == clients[key := clients[key]];
          return Some(clients[key]), None;
        }
        stale := Some(clients[key]);
        clients := clients - {key};
        return None, stale;
      }
      found, stale := Some(Registered(newClient, profile)), None;
      clients := clients[key := found.value];
    }

    /** `get_or_create_with_key`: whatever others do to the registry between two turns (`others`), a
        client that is returned has the profile asked for and is the one registered; every client
        taken out on the way had another profile and is retired. The lookup goes on only as long as
        others keep putting clients with another profile under the key. */
    method GetOrCreate(key: string, profile: string, newClient: nat, others: seq<map<string, Registered>>)
      returns (found: Option<Registered>)
      modifies this
      ensures found.Some? ==> found.value.profile == profile && key in clients && clients[key] == found.value
      ensures old(retired) <= retired
      ensures forall c <- retired[|old(retired)|..] :: c.profile != profile
      ensures found.None? ==>
                |retired| == |old(retired)| + |others| + 1
                && forall reg: map<string, Registered> <- others :: key in reg && reg[key].profile != profile
      ensures |retired| == |old(retired)| && found.Some? ==> clients == old(clients)[key := found.value]
    {
      var turn := 0;
      while true
        invariant turn <= |others|
        invariant old(retired) <= retired && |retired| == |old(retired)| + turn
        invariant forall c <- retired[|old(retired)|..] :: c.profile != profile
        invariant forall i | 0 <= i < turn - 1 :: key in others[i] && others[i][key].profile != profile
        invariant turn > 0 ==> clients == others[turn - 1]
        invariant turn == 0 ==> clients == old(clients)
        decreases |others| - turn
      {
        var stale: Option<Registered>;
        found, stale := Lookup(key, profile, newClient);
        if found.Some? {
          return;
        }
        ghost var before := retired;
        retired := retired + [stale.value];
        assert retired[|old(retired)|..] == before[|old(retired)|..] + [stale.value];
        if turn == |others| {
          assert forall reg: map<string, Registered> <- others :: key in reg && reg[key].profile != profile;
          return None;
        }
        clients := others[turn];
        turn := turn + 1;
      }
    }
  }
}
