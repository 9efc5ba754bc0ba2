/** Who waits for whom: in no reachable state do tasks wait in a circle, and every task that waits
    does so, over at most six others, for one that is free to go on. */
module AppServerWaits {
  import opened Text
  import opened AppServer
  import opened AppServerLocks
  import opened AppServerRoutes

  /** Task t cannot go on before u has, be they tasks of one client or of two: u holds the lock t asks
      for; or u asked for the lifecycle lock to write, and the lock, being fair, lets no later reader
      pass; or u is the startup that a caller with a deadline waits for; or u closes another client to
      make room for the process t starts; or t asks for `pending`, which u holds while it looks at the
      turns and the requests. An evictor never queues for a lifecycle lock. */
  predicate WaitsFor(s: State, t: TaskId, u: TaskId)
    requires t in s.tasks
  {
    u in s.tasks &&
    var here := s.tasks[u].client == s.tasks[t].client;
    match s.tasks[t].pc
    case AwaitRead => here && (HoldsWrite(s.tasks[u]) || QueuesToWrite(s.tasks[u]))
    case AwaitWrite => here && QueuesToWrite(s.tasks[t]) && (HoldsRead(s.tasks[u]) || HoldsWrite(s.tasks[u]))
    case AwaitStart => here && HoldsStart(s.tasks[u])
    case AwaitGuard(_) => here && HoldsStart(s.tasks[u])
    case AwaitStartup(child) => u == child && !s.tasks[u].pc.Done?
    case Evicting(child) => u == child && !s.tasks[u].pc.Done?
    case _ => here && AsksForPending(s.tasks[t].pc) && HoldsPending(s.tasks[u].pc)
  }

  predicate QueuesToWrite(task: Task) {
    task.pc.AwaitWrite? && (task.role.Retire? || task.role == Quiesce(false))
  }

  /** The next step locks `pending`. */
  predicate AsksForPending(pc: Pc) {
    pc.Register? || pc.Forget? || pc.PurgeClosed? || pc.FailGeneration? || pc.EarlyFail? || pc.LateFail?
    || pc == CheckIdle(0) || (pc.CheckWork? && pc.n == 1)
  }

  /** `has_live_work` keeps the guard of `pending` until it has looked at everything. */
  predicate HoldsPending(pc: Pc) {
    pc.CheckIdle? && pc.n > 0
  }

  /** The order in which things are asked for: the lifecycle lock, a startup, the start lock, the
      eviction of another client, whose task comes above all that, `pending`, everything else. */
  function Level(task: Task): (n: nat)
    ensures n <= 6
  {
    match task.pc
    case AwaitRead => 0
    case AwaitWrite => if QueuesToWrite(task) then 1 else 5
    case AwaitStartup(_) => 2
    case AwaitStart => 3
    case AwaitGuard(_) => 3
    case Evicting(_) => 4
    case CheckIdle(n) => if n > 0 then 6 else 5
    case _ => 5
  }

  lemma HoldersAreHigh(task: Task)
    requires Fits(task)
    ensures HoldsWrite(task) ==> Level(task) >= 5
    ensures HoldsStart(task) ==> Level(task) >= 4
    ensures HoldsRead(task) ==> Level(task) >= 2
    ensures task.role.Startup? ==> Level(task) >= 3
    ensures task.role == Quiesce(true) ==> Level(task) >= 5
    ensures HoldsPending(task.pc) ==> Level(task) == 6
    ensures AsksForPending(task.pc) ==> Level(task) == 5
  {
  }

  /** Every wait climbs, so no tasks of any number wait in a circle. */
  lemma WaitsClimb(r: Trace, maxProcesses: nat, i: nat, t: TaskId, u: TaskId)
    requires IsRun(r, maxProcesses) && i < |r.states| && t in r.states[i].tasks && WaitsFor(r.states[i], t, u)
    ensures Level(r.states[i].tasks[t]) < Level(r.states[i].tasks[u])
  {
    hide IsRun, HoldsRead, HoldsWrite, HoldsStart, AllLocksOk, Fits;
    var s := r.states[i];
    RunLocks(r, maxProcesses, i);
    RunRoutes(r, maxProcesses, i);
    TaskLocks(s, t);
    TaskLocks(s, u);
    TaskRouted(s, t);
    HoldersAreHigh(s.tasks[t]);
    HoldersAreHigh(s.tasks[u]);
  }

  /** A sequence of tasks each waiting for the next. */
  ghost predicate IsChain(s: State, ts: seq<TaskId>) {
    && (forall t <- ts :: t in s.tasks)
    && (forall k | 0 <= k < |ts| - 1 :: WaitsFor(s, ts[k], ts[k + 1]))
  }

  lemma {:induction false} ChainClimbs(r: Trace, maxProcesses: nat, i: nat, ts: seq<TaskId>, k: nat)
    requires IsRun(r, maxProcesses) && i < |r.states| && IsChain(r.states[i], ts) && k < |ts|
    ensures Level(r.states[i].tasks[ts[k]]) >= Level(r.states[i].tasks[ts[0]]) + k
  {
    hide IsRun, WaitsFor, Level;
    if k > 0 {
      ChainClimbs(r, maxProcesses, i, ts, k - 1);
      WaitsClimb(r, maxProcesses, i, ts[k - 1], ts[k]);
    }
  }

  /** No chain of waits comes back to where it began, or is longer than six waits. */
  lemma NoCircle(r: Trace, maxProcesses: nat, i: nat, ts: seq<TaskId>)
    requires IsRun(r, maxProcesses) && i < |r.states| && IsChain(r.states[i], ts) && |ts| >= 2
    ensures ts[0] != ts[|ts| - 1]
    ensures |ts| <= 7
  {
    hide IsRun, WaitsFor;
    ChainClimbs(r, maxProcesses, i, ts, |ts| - 1);
  }

  // ----- progress -----

  ghost predicate CanStep(s: State, t: TaskId) {
    exists ch, spare, eff :: Enabled(s, Step(t, ch, spare, eff))
  }

  /** What a lock that is held, or an eviction that is not over, does to a task. */
  predicate IsBlocked(cl: Client, task: Task, child: Option<Outcome>) {
    match task.pc
    case AwaitRead => cl.writer.Some?
    case AwaitWrite => QueuesToWrite(task) && (cl.writer.Some? || cl.readers != {})
    case AwaitStart => cl.start.Some?
    case AwaitGuard(_) => cl.start.Some?
    case Evicting(_) => child.None?
    case _ => false
  }

  /** A choice with which the task can go on: its deadline passes, its process is shut down, the
      next sender is picked, or whatever it does works. */
  predicate IsWay(pc: Pc, ch: Choice) {
    match pc
    case AwaitStartup(_) => ch == Expire
    case NextVictim => ch == Go
    case TakeSlot => ch == Expire
    case Wait(_, _, _) => ch == Expire
    case Serving => ch == ShutDown
    case SendFailures(ids, _, _) => ids == {} || (ch.Pick? && ch.id in ids)
    case EarlySend(_, ids) => ids == {} || (ch.Pick? && ch.id in ids)
    case LateSend(_, _, ids) => ids == {} || (ch.Pick? && ch.id in ids)
    case _ => true
  }

  lemma SomeWay(pc: Pc) returns (ch: Choice)
    ensures IsWay(pc, ch)
  {
    ch := Go;
    match pc
    case AwaitStartup(_) => ch := Expire;
    case TakeSlot => ch := Expire;
    case Wait(_, _, _) => ch := Expire;
    case Serving => ch := ShutDown;
    case SendFailures(ids, _, _) => if ids != {} { var id :| id in ids; ch := Pick(id); }
    case EarlySend(_, ids) => if ids != {} { var id :| id in ids; ch := Pick(id); }
    case LateSend(_, _, ids) => if ids != {} { var id :| id in ids; ch := Pick(id); }
    case _ =>
  }

  /** The step takes no slot, and begins a task of the same client if any. */
  predicate IsFeasible(eff: Effect, task: Task) {
    eff.slots >= 0 && (eff.born.Some? ==> eff.born.value.client == task.client)
  }

  predicate IsStarter(pc: Pc) {
    InStart(pc) || InSpawn(pc) || InMakeRoom(pc)
  }

  predicate IsCaller(pc: Pc) {
    InEnter(pc) || InRespond(pc) || InRequest(pc)
  }

  lemma StarterGoesOn(cl: Client, task: Task, slotFree: bool, child: Option<Outcome>, spare: TaskId, ch: Choice)
    requires IsStarter(task.pc) && !IsBlocked(cl, task, child) && IsWay(task.pc, ch)
    ensures var eff := Act(cl, task, slotFree, child, spare, ch); eff.Some? && IsFeasible(eff.value, task)
  {
    hide Enter, RespondTo, StartRefused, Request, Watch, Finalise, Shut, Dispose;
  }

  lemma EntrantGoesOn(cl: Client, task: Task, slotFree: bool, child: Option<Outcome>, spare: TaskId, ch: Choice)
    requires InEnter(task.pc) && !IsBlocked(cl, task, child) && IsWay(task.pc, ch)
    ensures var eff := Act(cl, task, slotFree, child, spare, ch); eff.Some? && IsFeasible(eff.value, task)
  {
    hide RespondTo, Request, Start, SpawnProcess, MakeRoom, Watch, Finalise, Shut, Dispose;
  }

  lemma CallerGoesOn(cl: Client, task: Task, slotFree: bool, child: Option<Outcome>, spare: TaskId, ch: Choice)
    requires (InRespond(task.pc) || InRequest(task.pc)) && !IsBlocked(cl, task, child) && IsWay(task.pc, ch)
    ensures var eff := Act(cl, task, slotFree, child, spare, ch); eff.Some? && IsFeasible(eff.value, task)
  {
    hide HasWork, OwnsWork, AfterReply, RequestFailed, MayAnswer, StillObserved, Start, SpawnProcess, MakeRoom, Watch,
         Finalise, Shut, Dispose, Enter;
  }

  lemma OtherGoesOn(cl: Client, task: Task, slotFree: bool, child: Option<Outcome>, spare: TaskId, ch: Choice)
    requires !IsCaller(task.pc) && !IsStarter(task.pc) && Fits(task) && !task.pc.Done? && !task.pc.Parked?
             && !IsBlocked(cl, task, child) && IsWay(task.pc, ch)
    ensures var eff := Act(cl, task, slotFree, child, spare, ch); eff.Some? && IsFeasible(eff.value, task)
  {
    hide HasWork, OfGeneration, AfterClose, Enter, RespondTo, Request, Start, SpawnProcess, MakeRoom;
  }

  lemma GoesOn(cl: Client, task: Task, slotFree: bool, child: Option<Outcome>, spare: TaskId, ch: Choice)
    requires Fits(task) && !task.pc.Done? && !task.pc.Parked? && !IsBlocked(cl, task, child) && IsWay(task.pc, ch)
    ensures var eff := Act(cl, task, slotFree, child, spare, ch); eff.Some? && IsFeasible(eff.value, task)
  {
    hide Act, Fits, IsWay, IsBlocked;
    if InEnter(task.pc) {
      EntrantGoesOn(cl, task, slotFree, child, spare, ch);
    } else if IsCaller(task.pc) {
      CallerGoesOn(cl, task, slotFree, child, spare, ch);
    } else if IsStarter(task.pc) {
      StarterGoesOn(cl, task, slotFree, child, spare, ch);
    } else {
      OtherGoesOn(cl, task, slotFree, child, spare, ch);
    }
  }

  lemma FreshTask(ts: set<TaskId>) returns (n: TaskId)
    ensures forall t <- ts :: t < n
    decreases |ts|
  {
    n := 0;
    if ts != {} {
      var t :| t in ts;
      var m := FreshTask(ts - {t});
      n := if t < m then m else t + 1;
      assert forall u <- ts :: u == t || u in ts - {t};
    }
  }

  lemma HoldersLive(task: Task)
    requires Fits(task)
    ensures HoldsRead(task) || HoldsWrite(task) || HoldsStart(task) || HoldsPending(task.pc) || task.pc.AwaitWrite? ==>
              !task.pc.Done? && !task.pc.Parked?
    ensures task.role.Startup? || task.role.Quiesce? ==> !task.pc.Parked?
  {
  }

  lemma WaitedForLives(s: State, t: TaskId, u: TaskId)
    requires AllLocksOk(s) && AllRouted(s) && t in s.tasks && WaitsFor(s, t, u)
    ensures !s.tasks[u].pc.Done? && !s.tasks[u].pc.Parked?
  {
    hide AllLocksOk, AllRouted, HoldsRead, HoldsWrite, HoldsStart, HoldsPending, Fits;
    TaskLocks(s, u);
    TaskRouted(s, t);
    HoldersLive(s.tasks[u]);
  }

  /** The holder of the lock that a blocked task asks for, or the evictor it waits for. */
  lemma Blocker(s: State, t: TaskId) returns (u: TaskId)
    requires AllLocksOk(s) && AllRouted(s) && t in s.tasks
             && IsBlocked(s.clients[s.tasks[t].client], s.tasks[t], ChildOutcome(s, s.tasks[t].pc))
    ensures u in s.tasks && WaitsFor(s, t, u)
  {
    hide HoldsRead, HoldsWrite, HoldsStart, Fits;
    var c := s.tasks[t].client;
    var cl := s.clients[c];
    if s.tasks[t].pc.Evicting? {
      TaskRouted(s, t);
      return s.tasks[t].pc.child;
    }
    u := Holder(cl, s.tasks[t]);
    assert LocksOk(cl, c, s.tasks);
    TaskLocks(s, u);
  }

  lemma Holder(cl: Client, task: Task) returns (u: TaskId)
    requires IsBlocked(cl, task, None) && !task.pc.Evicting?
    ensures match task.pc
            case AwaitRead => cl.writer == Some(u)
            case AwaitWrite => cl.writer == Some(u) || u in cl.readers
            case _ => cl.start == Some(u)
  {
    if task.pc.AwaitStart? || task.pc.AwaitGuard? {
      u := cl.start.value;
    } else if cl.writer.Some? {
      u := cl.writer.value;
    } else {
      u :| u in cl.readers;
    }
  }

  lemma FreeSteps(s: State, t: TaskId)
    requires AllLocksOk(s) && t in s.tasks && !s.tasks[t].pc.Done? && !s.tasks[t].pc.Parked?
    requires !IsBlocked(s.clients[s.tasks[t].client], s.tasks[t], ChildOutcome(s, s.tasks[t].pc))
    ensures CanStep(s, t)
  {
    hide Act, AllLocksOk, IsBlocked, IsWay;
    TaskLocks(s, t);
    var task := s.tasks[t];
    var spare := FreshTask(s.tasks.Keys);
    var ch := SomeWay(task.pc);
    GoesOn(s.clients[task.client], task, s.permits > 0, ChildOutcome(s, task.pc), spare, ch);
    var eff := Act(s.clients[task.client], task, s.permits > 0, ChildOutcome(s, task.pc), spare, ch).value;
    assert Enabled(s, Step(t, ch, spare, eff));
  }

  /** The task waits for nobody and can go on. */
  ghost predicate GoesFree(s: State, t: TaskId)
    requires t in s.tasks
  {
    CanStep(s, t) && forall u | u in s.tasks :: !WaitsFor(s, t, u)
  }

  /** The task is free to go on, or waits, over at most n others, for one that is. */
  ghost predicate LeadsToStep(s: State, t: TaskId, n: nat)
    requires t in s.tasks
    decreases n
  {
    GoesFree(s, t) || (n > 0 && exists u :: u in s.tasks && WaitsFor(s, t, u) && LeadsToStep(s, u, n - 1))
  }

  lemma {:induction false} WaitsEnd(r: Trace, maxProcesses: nat, i: nat, t: TaskId)
    requires IsRun(r, maxProcesses) && i < |r.states|
    requires t in r.states[i].tasks && !r.states[i].tasks[t].pc.Done? && !r.states[i].tasks[t].pc.Parked?
    ensures LeadsToStep(r.states[i], t, 6 - Level(r.states[i].tasks[t]))
    decreases 6 - Level(r.states[i].tasks[t])
  {
    hide IsRun, AllLocksOk, AllRouted, WaitsFor, CanStep, IsBlocked, Level;
    var s := r.states[i];
    RunLocks(r, maxProcesses, i);
    RunRoutes(r, maxProcesses, i);
    if u :| u in s.tasks && WaitsFor(s, t, u) {
      WaitedForLives(s, t, u);
      WaitsClimb(r, maxProcesses, i, t, u);
      WaitsEnd(r, maxProcesses, i, u);
      MoreTime(s, u, 6 - Level(s.tasks[u]), 6 - Level(s.tasks[t]) - 1);
    } else {
      NotBlocked(s, t);
      FreeSteps(s, t);
    }
  }

  lemma NotBlocked(s: State, t: TaskId)
    requires AllLocksOk(s) && AllRouted(s) && t in s.tasks && forall u | u in s.tasks :: !WaitsFor(s, t, u)
    ensures s.tasks[t].client in s.clients
            && !IsBlocked(s.clients[s.tasks[t].client], s.tasks[t], ChildOutcome(s, s.tasks[t].pc))
  {
    hide AllLocksOk, AllRouted, WaitsFor, IsBlocked;
    TaskLocks(s, t);
    if IsBlocked(s.clients[s.tasks[t].client], s.tasks[t], ChildOutcome(s, s.tasks[t].pc)) {
      var u := Blocker(s, t);
    }
  }

  lemma {:induction false} MoreTime(s: State, t: TaskId, m: nat, n: nat)
    requires t in s.tasks && LeadsToStep(s, t, m) && m <= n
    ensures LeadsToStep(s, t, n)
    decreases m
  {
    hide WaitsFor, GoesFree;
    if !GoesFree(s, t) {
      var u :| u in s.tasks && WaitsFor(s, t, u) && LeadsToStep(s, u, m - 1);
      MoreTime(s, u, m - 1, n - 1);
    }
  }

  /** No deadlock: while any task is neither done nor waiting for its start signal, it is free to go
      on, or waits, over at most six others, for one that is. */
  lemma NoDeadlock(r: Trace, maxProcesses: nat, i: nat, t: TaskId)
    requires IsRun(r, maxProcesses) && i < |r.states|
    requires t in r.states[i].tasks && !r.states[i].tasks[t].pc.Done? && !r.states[i].tasks[t].pc.Parked?
    ensures LeadsToStep(r.states[i], t, 6)
    ensures exists u :: u in r.states[i].tasks && GoesFree(r.states[i], u)
  {
    hide IsRun, WaitsFor, GoesFree, Level;
    WaitsEnd(r, maxProcesses, i, t);
    MoreTime(r.states[i], t, 6 - Level(r.states[i].tasks[t]), 6);
    SomeoneSteps(r.states[i], t, 6);
  }

  lemma {:induction false} SomeoneSteps(s: State, t: TaskId, n: nat)
    requires t in s.tasks && LeadsToStep(s, t, n)
    ensures exists u :: u in s.tasks && GoesFree(s, u)
    decreases n
  {
    hide WaitsFor, GoesFree;
    if !GoesFree(s, t) {
      var u :| u in s.tasks && WaitsFor(s, t, u) && LeadsToStep(s, u, n - 1);
      SomeoneSteps(s, u, n - 1);
    }
  }
}
