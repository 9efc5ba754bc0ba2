/** A run in which failing a generation leaves an entry of it behind: the caller has picked the process
    and not registered yet when the process exits and its finaliser fails what is pending. */
module AppServerLateRun {
  import opened Text
  import opened AppServer
  import opened AppServerLate

  const CALLER: Role := App(false, false, false)
  const WATCHER: Role := Supervise(1, false)
  const FIRST: Proc := Proc(1, false)
  const YES: Answer := Answer(true, 0, None)

  /** One client and its caller, and later the supervisor of its process. */
  function Alone(cl: Client, a: Pc, permits: nat): State {
    State(map[0 := cl], map[0 := Task(0, CALLER, a)], permits)
  }

  function Both(cl: Client, a: Pc, b: Pc, permits: nat): State {
    State(map[0 := cl], map[0 := Task(0, CALLER, a), 1 := Task(0, WATCHER, b)], permits)
  }

  /** A run with one process slot has come to this state. */
  ghost predicate IsAt(r: Trace, s: State) {
    IsRun(r, 1) && r.states[|r.events|] == s
  }

  function More(r: Trace, e: Event, s: State): Trace {
    Trace(r.states + [s], r.events + [e])
  }

  lemma OneMore(r: Trace, e: Event, s: State)
    requires IsRun(r, 1) && Enabled(r.states[|r.events|], e) && After(r.states[|r.events|], e) == s
    ensures IsAt(More(r, e, s), s)
  {
    hide Enabled, After, Initial;
  }

  /** The pcs of this run wait for no child. */
  predicate IsPlain(pc: Pc) {
    !pc.AwaitStartup? && !pc.Evicting?
  }

  lemma AloneStep(r: Trace, cl: Client, a: Pc, permits: nat, ch: Choice, op: Op, a': Pc, slots: int, cl': Client)
    returns (r': Trace)
    requires IsAt(r, Alone(cl, a, permits)) && IsPlain(a) && permits + slots >= 0 && cl' == Perform(cl, 0, op)
    requires Act(cl, Task(0, CALLER, a), permits > 0, None, 2, ch) == Some(Effect(op, a', slots, None))
    ensures IsAt(r', Alone(cl', a', permits + slots))
  {
    hide Act, Perform;
    var e := Step(0, ch, 2, Effect(op, a', slots, None));
    OneMore(r, e, Alone(cl', a', permits + slots));
    r' := More(r, e, Alone(cl', a', permits + slots));
  }

  lemma CallerStep(r: Trace, cl: Client, a: Pc, b: Pc, permits: nat, ch: Choice, op: Op, a': Pc, cl': Client)
    returns (r': Trace)
    requires IsAt(r, Both(cl, a, b, permits)) && IsPlain(a) && cl' == Perform(cl, 0, op)
    requires Act(cl, Task(0, CALLER, a), permits > 0, None, 2, ch) == Some(Effect(op, a', 0, None))
    ensures r' == More(r, Step(0, ch, 2, Effect(op, a', 0, None)), Both(cl', a', b, permits))
    ensures IsAt(r', Both(cl', a', b, permits))
  {
    hide Act, Perform;
    var e := Step(0, ch, 2, Effect(op, a', 0, None));
    OneMore(r, e, Both(cl', a', b, permits));
    r' := More(r, e, Both(cl', a', b, permits));
  }

  lemma WatcherStep(r: Trace, cl: Client, a: Pc, b: Pc, permits: nat, ch: Choice, op: Op, b': Pc, slots: int,
                    cl': Client)
    returns (r': Trace)
    requires IsAt(r, Both(cl, a, b, permits)) && IsPlain(b) && permits + slots >= 0 && cl' == Perform(cl, 1, op)
    requires Act(cl, Task(0, WATCHER, b), permits > 0, None, 2, ch) == Some(Effect(op, b', slots, None))
    ensures r' == More(r, Step(1, ch, 2, Effect(op, b', slots, None)), Both(cl', a, b', permits + slots))
    ensures IsAt(r', Both(cl', a, b', permits + slots))
  {
    hide Act, Perform;
    var e := Step(1, ch, 2, Effect(op, b', slots, None));
    OneMore(r, e, Both(cl', a, b', permits + slots));
    r' := More(r, e, Both(cl', a, b', permits + slots));
  }

  lemma Arrives() returns (r: Trace)
    ensures IsAt(r, Alone(NewClient(), Entry, 1))
  {
    var s := State(map[0 := NewClient()], map[], 1);
    r := Trace([s], []);
    var e := Arrive(0, CALLER, 0);
    OneMore(r, e, Alone(NewClient(), Entry, 1));
    r := More(r, e, Alone(NewClient(), Entry, 1));
  }

  /** The caller takes the lifecycle lock. */
  lemma Enters(r: Trace, cl: Client) returns (r': Trace)
    requires IsAt(r, Alone(cl, Entry, 1)) && !cl.retired && cl.writer.None? && cl.readers == {}
    ensures IsAt(r', Alone(cl.(readers := {0}), Recheck, 1))
  {
    hide IsAt, Alone, RespondTo, Start, MakeRoom, Shut, Dispose, Finalise, SpawnProcess, Request, Watch;
    r' := AloneStep(r, cl, Entry, 1, Go, Nop, AwaitRead, 0, cl);
    assert cl.readers + {0} == {0};
    r' := AloneStep(r', cl, AwaitRead, 1, Go, EnterRead, Recheck, 0, cl.(readers := {0}));
  }

  lemma Ensures(r: Trace, cl: Client) returns (r': Trace)
    requires IsAt(r, Alone(cl, Recheck, 1)) && !cl.retired
    ensures IsAt(r', Alone(cl, AwaitStart, 1))
  {
    hide IsAt, Alone, RespondTo, MakeRoom, Shut, Dispose, Finalise, SpawnProcess, Request, Watch;
    r' := AloneStep(r, cl, Recheck, 1, Go, Nop, EnsureEntry, 0, cl);
    r' := AloneStep(r', cl, EnsureEntry, 1, Go, Nop, AwaitStart, 0, cl);
  }

  /** Then the start lock. */
  lemma Starts(r: Trace, cl: Client) returns (r': Trace)
    requires IsAt(r, Alone(cl, AwaitStart, 1)) && !cl.retired && cl.start.None?
    ensures IsAt(r', Alone(cl.(start := Some(0)), Inspect, 1))
  {
    hide IsAt, Alone, RespondTo, Enter, MakeRoom, Shut, Dispose, Finalise, SpawnProcess, Request, Watch;
    var locked := cl.(start := Some(0));
    r' := AloneStep(r, cl, AwaitStart, 1, Go, EnterStart, StartRecheck, 0, locked);
    r' := AloneStep(r', locked, StartRecheck, 1, Go, Nop, Inspect, 0, locked);
  }

  lemma FindsNoProcess(r: Trace, cl: Client) returns (r': Trace)
    requires IsAt(r, Alone(cl, Inspect, 1)) && cl.process.None?
    ensures IsAt(r', Alone(cl, TakeSlot, 1))
  {
    hide IsAt, Alone, RespondTo, Enter, Shut, Dispose, Finalise, SpawnProcess, Request, Watch;
    r' := AloneStep(r, cl, Inspect, 1, Go, Nop, CheckSlots, 0, cl);
    r' := AloneStep(r', cl, CheckSlots, 1, Go, Nop, TakeSlot, 0, cl);
  }

  /** It takes the slot. */
  lemma TakesSlot() returns (r: Trace)
    ensures IsAt(r, Alone(NewClient().(readers := {0}, start := Some(0)), Spawning, 0))
  {
    r := Arrives();
    var cl := NewClient();
    r := Enters(r, cl);
    hide IsAt, Alone, RespondTo, Enter, MakeRoom, Start, Shut, Dispose, Finalise, Request, Watch;
    var reading := cl.(readers := {0});
    r := Ensures(r, reading);
    r := Starts(r, reading);
    var locked := reading.(start := Some(0));
    r := FindsNoProcess(r, locked);
    r := AloneStep(r, locked, TakeSlot, 1, Go, Nop, Spawning, -1, locked);
  }

  /** It spawns and installs a process, whose supervisor waits for its start signal. */
  lemma Installs() returns (r: Trace)
    ensures IsAt(r, Both(Installed(), Allocate(true), Parked, 0))
  {
    r := TakesSlot();
    var cl := NewClient().(readers := {0}, start := Some(0));
    r := Spawns(r, cl);
    r := Wakes(r, cl.(nextGeneration := 2));
  }

  lemma Wakes(r: Trace, cl: Client) returns (r': Trace)
    requires IsAt(r, Both(cl, Install(FIRST), Parked, 0)) && cl.installed == [] && cl.woken == map[]
    ensures IsAt(r', Both(cl.(process := Some(FIRST), installed := [1], woken := map[1 := false]), Allocate(true),
                          Parked, 0))
  {
    hide IsAt, Both, RespondTo, MakeRoom, Shut, Dispose, Finalise, Enter, Start, Request, Watch;
    var running := cl.(process := Some(FIRST), installed := [1]);
    assert [] + [1] == [1];
    r' := CallerStep(r, cl, Install(FIRST), Parked, 0, Go, SetProcess(FIRST), Wake(1, false), running);
    r' := CallerStep(r', running, Wake(1, false), Parked, 0, Go, WakeGeneration(1, false), Allocate(true),
                     running.(woken := map[1 := false]));
  }

  function Installed(): Client {
    NewClient().(readers := {0}, start := Some(0), nextGeneration := 2, process := Some(FIRST), installed := [1],
                 woken := map[1 := false])
  }

  lemma Spawns(r: Trace, cl: Client) returns (r': Trace)
    requires IsAt(r, Alone(cl, Spawning, 0)) && cl.nextGeneration == 1
    ensures IsAt(r', Both(cl.(nextGeneration := 2), Install(FIRST), Parked, 0))
  {
    var e := Step(0, Spawned(false), 1, Effect(NewGeneration, Install(FIRST), 0, Some(Born(0, WATCHER))));
    OneMore(r, e, Both(cl.(nextGeneration := 2), Install(FIRST), Parked, 0));
    r' := More(r, e, Both(cl.(nextGeneration := 2), Install(FIRST), Parked, 0));
  }

  /** The handshake is answered. */
  lemma Answers(r: Trace, cl: Client) returns (r': Trace)
    requires IsAt(r, Both(cl, Wait(true, 1, 1), Parked, 0)) && 1 in cl.woken && 1 in cl.pending
    ensures IsAt(r', Both(Perform(cl, 0, DeliverReply(1, YES)), Wait(true, 1, 1), Parked, 0))
  {
    hide Perform, Act;
    var e := Receive(0, 1, Response(1, YES), DeliverReply(1, YES));
    var s := Both(Perform(cl, 0, DeliverReply(1, YES)), Wait(true, 1, 1), Parked, 0);
    OneMore(r, e, s);
    r' := More(r, e, s);
  }

  function Waiting(): Client {
    Installed().(nextRequest := 2, owner := map[1 := 0], pending := map[1 := 1], channels := map[1 := Pending])
  }

  lemma Shakes() returns (r: Trace)
    ensures IsAt(r, Both(Waiting(), Wait(true, 1, 1), Parked, 0))
  {
    r := Installs();
    var cl := Installed();
    hide IsAt, Both, RespondTo, MakeRoom, Shut, Dispose, Finalise, Enter, Start, SpawnProcess, Watch;
    var drawn := cl.(nextRequest := 2, owner := map[1 := 0]);
    r := CallerStep(r, cl, Allocate(true), Parked, 0, Go, NewRequest, Snapshot(true, 1), drawn);
    r := CallerStep(r, drawn, Snapshot(true, 1), Parked, 0, Go, Nop, Register(true, 1, 1), drawn);
    r := CallerStep(r, drawn, Register(true, 1, 1), Parked, 0, Go, Insert(1, 1), Write(true, 1, 1), Waiting());
    r := CallerStep(r, Waiting(), Write(true, 1, 1), Parked, 0, Go, Nop, Wait(true, 1, 1), Waiting());
  }

  function Ready(): Client {
    Installed().(start := None, nextRequest := 2, owner := map[1 := 0], channels := map[1 := Sent(Reply(YES))],
                 replies := {(1, YES)}, outcome := map[1 := Replied(YES)])
  }

  lemma GetsReady() returns (r: Trace)
    ensures IsAt(r, Both(Ready(), Allocate(false), Parked, 0))
  {
    r := Shakes();
    var replied := Waiting().(pending := map[], channels := map[1 := Sent(Reply(YES))], replies := {(1, YES)});
    assert Perform(Waiting(), 0, DeliverReply(1, YES)) == replied by {
      assert Waiting().pending - {1} == map[];
      assert {} + {(1, YES)} == {(1, YES)};
    }
    r := Answers(r, Waiting());
    r := Settles(r, replied);
    r := LeavesStart(r, replied.(outcome := map[1 := Replied(YES)]));
  }

  lemma Settles(r: Trace, cl: Client) returns (r': Trace)
    requires IsAt(r, Both(cl, Wait(true, 1, 1), Parked, 0)) && cl.outcome == map[]
    requires 1 in cl.channels && cl.channels[1] == Sent(Reply(YES))
    ensures IsAt(r', Both(cl.(outcome := map[1 := Replied(YES)]), Initialized, Parked, 0))
  {
    hide IsAt, Both, RespondTo, MakeRoom, Shut, Dispose, Finalise, Enter, Start, SpawnProcess, Watch;
    r' := CallerStep(r, cl, Wait(true, 1, 1), Parked, 0, Go, Settle(1, Replied(YES)), Initialized,
                     cl.(outcome := map[1 := Replied(YES)]));
  }

  lemma LeavesStart(r: Trace, cl: Client) returns (r': Trace)
    requires IsAt(r, Both(cl, Initialized, Parked, 0)) && cl.process.Some?
    ensures IsAt(r', Both(cl.(start := None), Allocate(false), Parked, 0))
  {
    hide IsAt, Both, RespondTo, MakeRoom, Shut, Dispose, Finalise, Enter, Request, Watch;
    r' := CallerStep(r, cl, Initialized, Parked, 0, Go, Nop, LeaveStart(true), cl);
    r' := CallerStep(r', cl, LeaveStart(true), Parked, 0, Go, ExitStart, Allocate(false), cl.(start := None));
  }

  /** The caller of the request proper has picked the process. */
  lemma Picks() returns (r: Trace)
    ensures IsAt(r, Both(Picked(), Register(false, 2, 1), Parked, 0))
  {
    r := GetsReady();
    var cl := Ready();
    hide IsAt, Both, RespondTo, MakeRoom, Shut, Dispose, Finalise, Enter, Start, SpawnProcess, Watch;
    assert cl.owner[2 := 0] == map[1 := 0, 2 := 0];
    r := CallerStep(r, cl, Allocate(false), Parked, 0, Go, NewRequest, Snapshot(false, 2), Picked());
    r := CallerStep(r, Picked(), Snapshot(false, 2), Parked, 0, Go, Nop, Register(false, 2, 1), Picked());
  }

  function Picked(): Client {
    Ready().(nextRequest := 3, owner := map[1 := 0, 2 := 0])
  }

  /** Then the process exits, and its supervisor removes it. */
  lemma Exits() returns (r: Trace)
    ensures IsAt(r, Both(Late(), Register(false, 2, 1), LateFail(false, true), 1))
  {
    r := Picks();
    r := SeesExit(r, Picked(), Register(false, 2, 1));
    r := Removes(r, Picked(), Register(false, 2, 1));
  }

  lemma SeesExit(r: Trace, cl: Client, a: Pc) returns (r': Trace)
    requires IsAt(r, Both(cl, a, Parked, 0)) && 1 in cl.woken
    ensures IsAt(r', Both(cl, a, TryGuard(false), 0))
  {
    hide IsAt, Both, RespondTo, MakeRoom, Shut, Dispose, Enter, Start, SpawnProcess, Request, Finalise;
    r' := WatcherStep(r, cl, a, Parked, 0, Go, Nop, Serving, 0, cl);
    r' := WatcherStep(r', cl, a, Serving, 0, Exit(false), Nop, TryGuard(false), 0, cl);
  }

  lemma Removes(r: Trace, cl: Client, a: Pc) returns (r': Trace)
    requires IsAt(r, Both(cl, a, TryGuard(false), 0)) && cl.start.None? && cl.process == Some(FIRST)
    ensures IsAt(r', Both(cl.(start := Some(1), process := None), a, LateFail(false, true), 1))
  {
    hide IsAt, Both, RespondTo, MakeRoom, Shut, Dispose, Enter, Start, SpawnProcess, Request;
    var guarded := cl.(start := Some(1));
    r' := WatcherStep(r, cl, a, TryGuard(false), 0, Go, EnterStart, ClearProcess(false, false), 0, guarded);
    r' := WatcherStep(r', guarded, a, ClearProcess(false, false), 0, Go, RemoveProcess, LateFail(false, true), 1,
                      guarded.(process := None));
  }

  function Late(): Client {
    Picked().(start := Some(1), process := None)
  }

  lemma FailsNothing(r: Trace) returns (r': Trace)
    requires IsAt(r, Both(Late(), Register(false, 2, 1), LateFail(false, true), 1))
    ensures IsAt(r', Both(Late(), Register(false, 2, 1), LateSend(false, true, {}), 1))
    ensures exists ch, spare, pc, s :: r' == More(r, Step(1, ch, spare, Effect(TakeGeneration(1), pc, 0, None)), s)
  {
    var cl := Late();
    assert OfGeneration(cl, 1) == {};
    NothingTaken(cl);
    hide IsAt, Both, Perform, More, RespondTo, MakeRoom, Shut, Dispose, Enter, Start, SpawnProcess, Request, Watch;
    r' := WatcherStep(r, cl, Register(false, 2, 1), LateFail(false, true), 1, Go, TakeGeneration(1),
                      LateSend(false, true, {}), 0, cl);
  }

  lemma Registers(r: Trace) returns (r': Trace)
    requires IsAt(r, Both(Late(), Register(false, 2, 1), LateSend(false, true, {}), 1))
    ensures IsRun(r', 1) && 0 in r'.states[|r'.events|].clients && IsPendingOf(r'.states[|r'.events|].clients[0], 2, 1)
    ensures exists e, s :: r' == More(r, e, s)
  {
    var cl := Late();
    var left := cl.(pending := map[2 := 1], channels := cl.channels[2 := Pending]);
    hide More, RespondTo, MakeRoom, Shut, Dispose, Enter, Start, SpawnProcess, Finalise, Watch, Initial;
    r' := CallerStep(r, cl, Register(false, 2, 1), LateSend(false, true, {}), 1, Go, Insert(2, 1), Write(false, 2, 1),
                     left);
  }

  /** There is a run in which an entry is left behind: it is registered right after its generation was
      failed by the finaliser, under its guard and with the process gone. */
  lemma SomeEntryIsLeft() returns (r: Trace, k: nat)
    ensures IsRun(r, 1) && |r.events| == k + 2
    ensures r.events[k].Step? && r.events[k].effect.op == TakeGeneration(1)
    ensures r.events[k].t in r.states[k].tasks && r.states[k].tasks[r.events[k].t].pc.LateFail?
    ensures 0 in r.states[k + 2].clients && IsPendingOf(r.states[k + 2].clients[0], 2, 1)
  {
    var before := Exits();
    k := |before.events|;
    var failed := FailsNothing(before);
    r := Registers(failed);
    hide IsPendingOf, Enabled, After, Initial;
  }

  lemma NothingTaken(cl: Client)
    requires cl.pending == map[] && OfGeneration(cl, 1) == {}
    ensures Perform(cl, 1, TakeGeneration(1)) == cl
  {
    assert cl.pending - {} == map[];
    assert WithChannels(cl.channels, {}, Taken(1)) == cl.channels;
  }
}
