/** Who holds which lock, in every reachable state: the locks exclude each other as they should,
    no task waits for itself through others, and retirement is final. */
module AppServerLocks {
  import opened Text
  import opened AppServer

  // ----- what a program counter says about the locks -----

  /** The stretch of code a program counter lies in. */
  datatype Phase =
    | Outside | Inside | Detached | Answering
    | StartQueue | Starting | Calling | Closing(cause: Cause)
    | Queued | Alone
    | Watching | Finalising
    | Over

  function OfInit(init: bool): Phase {
    if init then Starting else Calling
  }

  function PhaseOf(pc: Pc): Phase {
    match pc
    case Entry => Outside
    case AwaitRead => Outside
    case Recheck => Inside
    case LeaveRead(_) => Inside
    case AwaitStartup(_) => Detached
    case PurgeClosed => Detached
    case PickWriter => Answering
    case WriteAnswer(_, _) => Answering
    case ForgetAnswer => Answering
    case EnsureEntry => StartQueue
    case AwaitStart => StartQueue
    case StartRecheck => Starting
    case Inspect => Starting
    case EndStale(_) => Starting
    case CheckSlots => Starting
    case NextVictim => Starting
    case Evicting(_) => Starting
    case TakeSlot => Starting
    case Spawning => Starting
    case Install(_) => Starting
    case Wake(_, _) => Starting
    case Initialized => Starting
    case LeaveStart(_) => Starting
    case Allocate(init) => OfInit(init)
    case Snapshot(init, _) => OfInit(init)
    case Register(init, _, _) => OfInit(init)
    case Write(init, _, _) => OfInit(init)
    case Wait(init, _, _) => OfInit(init)
    case Forget(init, _, _, _) => OfInit(init)
    case Record(_, _) => Calling
    case CheckWork(_, _) => Calling
    case TakePoisoned(_) => Calling
    case TakeProcess(cause) => Closing(cause)
    case FailGeneration(_, cause) => Closing(cause)
    case SendFailures(_, _, cause) => Closing(cause)
    case DropProcess(_, cause) => Closing(cause)
    case AwaitWrite => Queued
    case Retiring => Alone
    case CheckIdle(_) => Alone
    case LeaveWrite => Alone
    case Parked => Watching
    case Serving => Watching
    case TryGuard(_) => Watching
    case EarlyFail(_) => Watching
    case EarlySend(_, _) => Watching
    case AwaitGuard(_) => Watching
    case ClearProcess(_, _) => Finalising
    case LateFail(_, _) => Finalising
    case LateSend(_, _, _) => Finalising
    case ClearWork(_, _) => Finalising
    case ClearRequests => Finalising
    case LeaveGuard => Finalising
    case Done(_) => Over
  }

  predicate ReadsIn(role: Role, phase: Phase) {
    (role.App? || role.Respond?) && !phase.Outside? && !phase.Over?
  }

  predicate WritesIn(role: Role, phase: Phase) {
    (role.Retire? || role.Quiesce?) && !phase.Queued? && !phase.Over?
  }

  predicate StartsIn(phase: Phase) {
    phase.Starting? || phase == Closing(StartFailed) || phase.Finalising?
  }

  predicate HoldsRead(task: Task) {
    ReadsIn(task.role, PhaseOf(task.pc))
  }

  predicate HoldsWrite(task: Task) {
    WritesIn(task.role, PhaseOf(task.pc))
  }

  predicate HoldsStart(task: Task) {
    StartsIn(PhaseOf(task.pc))
  }

  /** The phases a role goes through. */
  predicate FitsIn(role: Role, phase: Phase) {
    phase.Over? ||
    match role
    case App(deadline, _, _) =>
      phase.Outside? || phase.Inside? || phase.Calling? || phase == Closing(Recovered)
      || (if deadline then phase.Detached? else phase.StartQueue? || phase.Starting? || phase == Closing(StartFailed))
    case Respond(_, _) => phase.Outside? || phase.Inside? || phase.Answering?
    case Startup => phase.StartQueue? || phase.Starting? || phase == Closing(StartFailed)
    case Close => phase == Closing(Ended)
    case Retire => phase.Queued? || phase.Alone? || phase == Closing(Ended)
    case Quiesce(_) => phase.Queued? || phase.Alone? || phase == Closing(Ended)
    case Supervise(_, _) => phase.Watching? || phase.Finalising?
  }

  predicate Fits(task: Task) {
    FitsIn(task.role, PhaseOf(task.pc))
  }

  // ----- the invariant -----

  ghost predicate TaskLocksOk(cl: Client, t: TaskId, task: Task) {
    && Fits(task)
    && (t in cl.readers <==> HoldsRead(task))
    && (cl.writer == Some(t) <==> HoldsWrite(task))
    && (cl.start == Some(t) <==> HoldsStart(task))
  }

  ghost predicate LocksOk(cl: Client, c: ClientId, tasks: map<TaskId, Task>) {
    && (forall t | t in tasks && tasks[t].client == c :: TaskLocksOk(cl, t, tasks[t]))
    && (forall t | t in cl.readers :: t in tasks && tasks[t].client == c)
    && (cl.writer.Some? ==> cl.writer.value in tasks && tasks[cl.writer.value].client == c && cl.readers == {})
    && (cl.start.Some? ==> cl.start.value in tasks && tasks[cl.start.value].client == c)
  }

  ghost predicate AllLocksOk(s: State) {
    && (forall t | t in s.tasks :: s.tasks[t].client in s.clients)
    && (forall c | c in s.clients :: LocksOk(s.clients[c], c, s.tasks))
  }

  lemma TaskLocks(s: State, t: TaskId)
    requires AllLocksOk(s) && t in s.tasks
    ensures s.tasks[t].client in s.clients && TaskLocksOk(s.clients[s.tasks[t].client], t, s.tasks[t])
  {
    assert LocksOk(s.clients[s.tasks[t].client], s.tasks[t].client, s.tasks);
  }

  // ----- one step, seen by the task that takes it -----

  /** What the locks say after an operation. */
  lemma PerformLocks(cl: Client, t: TaskId, op: Op)
    ensures var cl' := Perform(cl, t, op);
            && cl'.readers == (if op.EnterRead? then cl.readers + {t} else if op.ExitRead? then cl.readers - {t}
                               else cl.readers)
            && cl'.writer == (if op.EnterWrite? then Some(t) else if op.ExitWrite? then None else cl.writer)
            && cl'.start == (if op.EnterStart? then Some(t) else if op.ExitStart? then None else cl.start)
  {
  }

  /** The operation is one the locks allow, and the new program counter says what it did. */
  predicate LockLocal(cl: Client, task: Task, op: Op, pc: Pc) {
    var before, after := PhaseOf(task.pc), PhaseOf(pc);
    && FitsIn(task.role, after)
    && (ReadsIn(task.role, after) <==> (ReadsIn(task.role, before) || op.EnterRead?) && !op.ExitRead?)
    && (WritesIn(task.role, after) <==> (WritesIn(task.role, before) || op.EnterWrite?) && !op.ExitWrite?)
    && (StartsIn(after) <==> (StartsIn(before) || op.EnterStart?) && !op.ExitStart?)
    && (op.EnterRead? ==> cl.writer.None?)
    && (op.EnterWrite? ==> cl.writer.None? && cl.readers == {})
    && (op.ExitWrite? ==> WritesIn(task.role, before))
    && (op.EnterStart? ==> cl.start.None?)
    && (op.ExitStart? ==> StartsIn(before))
  }

  lemma EnterLocks(cl: Client, task: Task, child: Option<Outcome>, spare: TaskId, ch: Choice)
    requires Fits(task) && InEnter(task.pc)
    ensures var eff := Enter(cl, task, child, spare, ch); eff.Some? ==> LockLocal(cl, task, eff.value.op, eff.value.pc)
  {
  }

  lemma RespondLocks(cl: Client, task: Task, ch: Choice)
    requires Fits(task) && InRespond(task.pc)
    ensures var eff := RespondTo(cl, task, ch); eff.Some? ==> LockLocal(cl, task, eff.value.op, eff.value.pc)
  {
  }

  lemma StartLocks(cl: Client, task: Task, ch: Choice)
    requires Fits(task) && InStart(task.pc)
    ensures var eff := Start(cl, task, ch); eff.Some? ==> LockLocal(cl, task, eff.value.op, eff.value.pc)
  {
  }

  lemma SpawnLocks(cl: Client, task: Task, slotFree: bool, ch: Choice)
    requires Fits(task) && InSpawn(task.pc)
    ensures var eff := SpawnProcess(cl, task, slotFree, ch);
            eff.Some? ==> LockLocal(cl, task, eff.value.op, eff.value.pc)
  {
  }

  lemma RoomLocks(cl: Client, task: Task, slotFree: bool, child: Option<Outcome>, spare: TaskId, ch: Choice)
    requires Fits(task) && InMakeRoom(task.pc)
    ensures var eff := MakeRoom(task, slotFree, child, spare, ch);
            eff.Some? ==> LockLocal(cl, task, eff.value.op, eff.value.pc)
  {
  }

  lemma RequestLocks(cl: Client, task: Task, ch: Choice)
    requires Fits(task) && InRequest(task.pc)
    ensures var eff := Request(cl, task, ch); eff.Some? ==> LockLocal(cl, task, eff.value.op, eff.value.pc)
  {
    hide OwnsWork, Received;
  }

  lemma ShutLocks(cl: Client, task: Task, ch: Choice)
    requires Fits(task) && InShut(task.pc)
    ensures var eff := Shut(cl, task, ch); eff.Some? ==> LockLocal(cl, task, eff.value.op, eff.value.pc)
  {
    hide HasWork;
  }

  lemma DisposeLocks(cl: Client, task: Task, ch: Choice)
    requires Fits(task) && InDispose(task.pc)
    ensures var eff := Dispose(cl, task.role, task.pc, ch);
            eff.Some? ==> LockLocal(cl, task, eff.value.op, eff.value.pc)
  {
    hide OfGeneration;
  }

  lemma WatchLocks(cl: Client, task: Task, ch: Choice)
    requires Fits(task) && task.role.Supervise? && InWatch(task.pc)
    ensures var eff := Watch(cl, task.role.gen, task.role.handoff, task.pc, ch);
            eff.Some? ==> LockLocal(cl, task, eff.value.op, eff.value.pc)
  {
    hide OfGeneration;
  }

  lemma FinaliseLocks(cl: Client, task: Task, ch: Choice)
    requires Fits(task) && task.role.Supervise?
    ensures var eff := Finalise(cl, task.role.gen, task.pc, ch);
            eff.Some? ==> LockLocal(cl, task, eff.value.op, eff.value.pc)
  {
    hide OfGeneration;
  }

  lemma ActLocks(cl: Client, task: Task, slotFree: bool, child: Option<Outcome>, spare: TaskId, ch: Choice)
    requires Fits(task)
    ensures var eff := Act(cl, task, slotFree, child, spare, ch);
            eff.Some? ==> LockLocal(cl, task, eff.value.op, eff.value.pc)
  {
    if InEnter(task.pc) {
      EnterLocks(cl, task, child, spare, ch);
    } else if InRespond(task.pc) {
      RespondLocks(cl, task, ch);
    } else if InStart(task.pc) {
      StartLocks(cl, task, ch);
    } else if InSpawn(task.pc) {
      SpawnLocks(cl, task, slotFree, ch);
    } else if InMakeRoom(task.pc) {
      RoomLocks(cl, task, slotFree, child, spare, ch);
    } else if InRequest(task.pc) {
      RequestLocks(cl, task, ch);
    } else if InShut(task.pc) {
      ShutLocks(cl, task, ch);
    } else if InDispose(task.pc) {
      DisposeLocks(cl, task, ch);
    } else if !task.role.Supervise? {
    } else if InWatch(task.pc) {
      WatchLocks(cl, task, ch);
    } else {
      FinaliseLocks(cl, task, ch);
    }
  }

  // ----- one event, seen by everybody -----

  lemma LocksAfterMove(cl: Client, c: ClientId, tasks: map<TaskId, Task>, t: TaskId, op: Op, pc: Pc,
                       tasks': map<TaskId, Task>)
    requires LocksOk(cl, c, tasks) && t in tasks && tasks[t].client == c
    requires LockLocal(cl, tasks[t], op, pc)
    requires t in tasks' && tasks'[t] == tasks[t].(pc := pc)
    requires forall u | u in tasks && u != t :: u in tasks' && tasks'[u] == tasks[u]
    requires forall u | u in tasks' && u !in tasks :: IsNewborn(tasks'[u])
    ensures LocksOk(Perform(cl, t, op), c, tasks')
  {
    var cl' := Perform(cl, t, op);
    PerformLocks(cl, t, op);
    assert TaskLocksOk(cl, t, tasks[t]);
    forall u | u in tasks' && tasks'[u].client == c ensures TaskLocksOk(cl', u, tasks'[u]) {
      if u != t && u in tasks {
        assert TaskLocksOk(cl, u, tasks[u]);
      }
    }
  }

  predicate IsNewborn(task: Task) {
    task.pc == FirstPc(task.role) && Fits(task) && !HoldsRead(task) && !HoldsWrite(task) && !HoldsStart(task)
  }

  lemma NewbornFits(c: ClientId, role: Role)
    ensures IsNewborn(Task(c, role, FirstPc(role)))
  {
  }

  lemma LocksUnchanged(cl: Client, cl': Client, c: ClientId, tasks: map<TaskId, Task>, tasks': map<TaskId, Task>)
    requires LocksOk(cl, c, tasks)
    requires cl'.readers == cl.readers && cl'.writer == cl.writer && cl'.start == cl.start
    requires forall u | u in tasks :: u in tasks' && (tasks[u].client == c ==> tasks'[u] == tasks[u])
    requires forall u | u in tasks && tasks'[u].client == c :: tasks[u].client == c
    requires forall u | u in tasks' && u !in tasks :: IsNewborn(tasks'[u])
    ensures LocksOk(cl', c, tasks')
  {
    forall u | u in tasks' && tasks'[u].client == c ensures TaskLocksOk(cl', u, tasks'[u]) {
      if u in tasks {
        assert TaskLocksOk(cl, u, tasks[u]);
      }
    }
  }

  lemma MoveLocks(s: State, t: TaskId, op: Op, pc: Pc, slots: int, born: Option<Born>, spare: TaskId)
    requires AllLocksOk(s) && t in s.tasks && s.permits + slots >= 0
    requires LockLocal(s.clients[s.tasks[t].client], s.tasks[t], op, pc)
    requires HasRoomFor(s, born, spare)
    ensures AllLocksOk(Move(s, t, op, pc, slots, born, spare))
  {
    hide LocksOk, LockLocal, Perform, IsNewborn, FirstPc;
    var c := s.tasks[t].client;
    var s' := Move(s, t, op, pc, slots, born, spare);
    if born.Some? {
      NewbornFits(born.value.client, born.value.role);
    }
    LocksAfterMove(s.clients[c], c, s.tasks, t, op, pc, s'.tasks);
    forall d | d in s'.clients && d != c ensures LocksOk(s'.clients[d], d, s'.tasks) {
      LocksUnchanged(s.clients[d], s.clients[d], d, s.tasks, s'.tasks);
    }
  }

  lemma AbortLocal(cl: Client, t: TaskId, task: Task)
    requires TaskLocksOk(cl, t, task) && task.role.Supervise?
    ensures LockLocal(cl, task, AbortOp(cl, t), Done(Closed))
  {
  }

  /** The task of a step or an abort, what it does and where it goes. */
  lemma EventLocal(s: State, e: Event)
    requires AllLocksOk(s) && Enabled(s, e)
    ensures e.Step? ==> LockLocal(s.clients[s.tasks[e.t].client], s.tasks[e.t], e.effect.op, e.effect.pc)
    ensures e.Abort? ==>
              LockLocal(s.clients[s.tasks[e.t].client], s.tasks[e.t], AbortOp(s.clients[s.tasks[e.t].client], e.t),
                        Done(Closed))
  {
    if e.Step? || e.Abort? {
      var task := s.tasks[e.t];
      var cl := s.clients[task.client];
      assert LocksOk(cl, task.client, s.tasks) && TaskLocksOk(cl, e.t, task);
      if e.Step? {
        ActLocks(cl, task, s.permits > 0, ChildOutcome(s, task.pc), e.spare, e.choice);
      } else {
        AbortLocal(cl, e.t, task);
      }
    }
  }

  lemma ArriveLocks(s: State, c: ClientId, role: Role, t: TaskId)
    requires AllLocksOk(s) && c in s.clients && t !in s.tasks
    ensures AllLocksOk(s.(tasks := s.tasks[t := Task(c, role, FirstPc(role))]))
  {
    NewbornFits(c, role);
    var tasks := s.tasks[t := Task(c, role, FirstPc(role))];
    forall d | d in s.clients ensures LocksOk(s.clients[d], d, tasks) {
      LocksUnchanged(s.clients[d], s.clients[d], d, s.tasks, tasks);
    }
  }

  predicate TouchesNoLock(op: Op) {
    !op.EnterRead? && !op.ExitRead? && !op.EnterWrite? && !op.ExitWrite? && !op.EnterStart? && !op.ExitStart?
  }

  lemma ReceiveLocks(s: State, c: ClientId, op: Op)
    requires AllLocksOk(s) && c in s.clients && TouchesNoLock(op)
    ensures AllLocksOk(s.(clients := s.clients[c := Perform(s.clients[c], 0, op)]))
  {
    var clients := s.clients[c := Perform(s.clients[c], 0, op)];
    PerformLocks(s.clients[c], 0, op);
    forall d | d in clients ensures LocksOk(clients[d], d, s.tasks) {
      LocksUnchanged(s.clients[d], clients[d], d, s.tasks, s.tasks);
    }
  }

  lemma AfterLocks(s: State, e: Event)
    requires AllLocksOk(s) && Enabled(s, e)
    ensures AllLocksOk(After(s, e))
  {
    EventLocal(s, e);
    match e
    case Arrive(c, role, t) => ArriveLocks(s, c, role, t);
    case Step(t, _, spare, eff) => MoveLocks(s, t, eff.op, eff.pc, eff.slots, eff.born, spare);
    case Abort(t) => MoveLocks(s, t, AbortOp(s.clients[s.tasks[t].client], t), Done(Closed), 0, None, t);
    case Receive(c, gen, m, op) => ReceiveLocks(s, c, op);
  }

  lemma {:induction false} RunLocks(r: Trace, maxProcesses: nat, i: nat)
    requires IsRun(r, maxProcesses) && i < |r.states|
    ensures AllLocksOk(r.states[i])
  {
    hide After, Enabled, LocksOk;
    if i > 0 {
      RunLocks(r, maxProcesses, i - 1);
      AfterLocks(r.states[i - 1], r.events[i - 1]);
    } else {
      InitialIsUnlocked(r.states[0], maxProcesses);
    }
  }

  lemma InitialIsUnlocked(s: State, maxProcesses: nat)
    requires Initial(s, maxProcesses)
    ensures AllLocksOk(s)
  {
  }

  /** The locks exclude as locks do: whoever writes (retires, evicts, prepares a restart) is alone
      in the client, and only one task starts or finalises a process. */
  lemma LocksExclude(r: Trace, maxProcesses: nat, i: nat, t: TaskId, u: TaskId)
    requires IsRun(r, maxProcesses) && i < |r.states|
    requires t in r.states[i].tasks && u in r.states[i].tasks && t != u
             && r.states[i].tasks[t].client == r.states[i].tasks[u].client
    ensures HoldsWrite(r.states[i].tasks[t]) ==> !HoldsWrite(r.states[i].tasks[u]) && !HoldsRead(r.states[i].tasks[u])
    ensures HoldsStart(r.states[i].tasks[t]) ==> !HoldsStart(r.states[i].tasks[u])
  {
    hide IsRun, HoldsRead, HoldsWrite, HoldsStart, Fits;
    var s := r.states[i];
    RunLocks(r, maxProcesses, i);
    TaskLocks(s, t);
    TaskLocks(s, u);
    assert LocksOk(s.clients[s.tasks[t].client], s.tasks[t].client, s.tasks);
  }
}
