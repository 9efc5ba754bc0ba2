/** Generation fencing: in every run the installed generations strictly increase, nothing of a
    generation happens before its process is installed, and the finaliser of one generation never
    touches what a later one owns. */
module AppServerFence {
  import opened Text
  import opened AppServer
  import opened AppServerLocks

  predicate Increasing(gens: seq<Generation>) {
    forall i, j | 0 <= i < j < |gens| :: gens[i] < gens[j]
  }

  predicate AllBelow(gens: seq<Generation>, bound: Generation) {
    forall g <- gens :: g < bound
  }

  predicate IsLast(gens: seq<Generation>, gen: Generation) {
    gens != [] && gens[|gens| - 1] == gen
  }

  ghost predicate FenceClient(cl: Client) {
    && Increasing(cl.installed) && AllBelow(cl.installed, cl.nextGeneration)
    && (cl.process.Some? ==> IsLast(cl.installed, cl.process.value.gen))
    && (forall g | g in cl.woken :: g in cl.installed)
    && (forall turn | turn in cl.turns :: cl.turns[turn] in cl.installed)
    && (forall key | key in cl.requests :: cl.requests[key].gen in cl.installed)
  }

  /** The generation a caller's program counter works with. */
  function GenerationOf(pc: Pc): Option<Generation> {
    match pc
    case Wake(gen, _) => Some(gen)
    case Register(_, _, gen) => Some(gen)
    case Write(_, _, gen) => Some(gen)
    case Wait(_, _, gen) => Some(gen)
    case Forget(_, _, gen, _) => Some(gen)
    case Record(gen, _) => Some(gen)
    case CheckWork(_, gen) => Some(gen)
    case TakePoisoned(gen) => Some(gen)
    case _ => None
  }

  /** The finaliser has removed the current process and is about to clear what was its work. */
  predicate ClearsWork(pc: Pc) {
    match pc
    case LateFail(_, cleared) => cleared
    case LateSend(_, cleared, _) => cleared
    case ClearWork(_, cleared) => cleared
    case ClearRequests => true
    case _ => false
  }

  /** Between finding no process and installing one. */
  predicate IsSpawning(pc: Pc) {
    pc.EndStale? || pc.CheckSlots? || pc.NextVictim? || pc.Evicting? || pc.TakeSlot? || pc.Spawning? || pc.Install?
  }

  ghost predicate FenceTask(cl: Client, task: Task) {
    && (GenerationOf(task.pc).Some? ==> GenerationOf(task.pc).value in cl.installed)
    && (IsSpawning(task.pc) ==> cl.process.None?)
    && (task.pc.Install? ==> task.pc.proc.gen < cl.nextGeneration && AllBelow(cl.installed, task.pc.proc.gen))
    && (task.role.Supervise? ==>
          && task.role.gen < cl.nextGeneration
          && (!task.pc.Parked? && !task.pc.Done? ==> task.role.gen in cl.woken)
          && (ClearsWork(task.pc) ==> cl.process.None? && IsLast(cl.installed, task.role.gen)))
  }

  ghost predicate AllFenced(s: State) {
    && (forall c | c in s.clients :: FenceClient(s.clients[c]))
    && (forall t | t in s.tasks ::
            s.tasks[t].client in s.clients && FenceTask(s.clients[s.tasks[t].client], s.tasks[t]))
  }

  // ----- one step, told without the state after it -----

  predicate IsCurrent(cl: Client, gen: Option<Generation>) {
    cl.process.Some? && gen == Some(cl.process.value.gen)
  }

  /** What a step does to generations, and how it got hold of the ones it names. */
  predicate FenceLocal(cl: Client, task: Task, op: Op, pc: Pc, born: Option<Born>) {
    && (GenerationOf(pc).Some? ==>
          GenerationOf(pc) == GenerationOf(task.pc) || IsCurrent(cl, GenerationOf(pc))
          || (op.SetProcess? && GenerationOf(pc) == Some(op.proc.gen)))
    && (IsSpawning(pc) ==> !op.SetProcess? && (IsSpawning(task.pc) || cl.process.None? || op.RemoveProcess?))
    && (pc.Install? ==> op.NewGeneration? && pc.proc.gen == cl.nextGeneration)
    && (op.SetProcess? ==> task.pc == Install(op.proc))
    && (op.NewGeneration? ==> task.pc.Spawning?)
    && (op.WakeGeneration? ==> GenerationOf(task.pc) == Some(op.gen))
    && (op.AddTurn? ==> GenerationOf(task.pc) == Some(op.gen))
    && !op.AddRequest?
    && (task.role.Supervise? ==>
          && ((task.pc.Parked? || task.pc.Done?) && !pc.Parked? && !pc.Done? ==> task.role.gen in cl.woken)
          && (ClearsWork(pc) ==> ClearsWork(task.pc) || (op.RemoveProcess? && IsCurrent(cl, Some(task.role.gen)))))
    && (born.Some? && born.value.role.Supervise? ==>
          op.NewGeneration? && born.value.role.gen == cl.nextGeneration && born.value.client == task.client)
  }

  lemma EnterFence(cl: Client, task: Task, child: Option<Outcome>, spare: TaskId, ch: Choice)
    requires Fits(task) && InEnter(task.pc)
    ensures var eff := Enter(cl, task, child, spare, ch);
            eff.Some? ==> FenceLocal(cl, task, eff.value.op, eff.value.pc, eff.value.born)
  {
  }

  lemma RespondFence(cl: Client, task: Task, ch: Choice)
    requires Fits(task) && InRespond(task.pc)
    ensures var eff := RespondTo(cl, task, ch);
            eff.Some? ==> FenceLocal(cl, task, eff.value.op, eff.value.pc, eff.value.born)
  {
  }

  lemma StartFence(cl: Client, task: Task, ch: Choice)
    requires Fits(task) && InStart(task.pc)
    ensures var eff := Start(cl, task, ch);
            eff.Some? ==> FenceLocal(cl, task, eff.value.op, eff.value.pc, eff.value.born)
  {
  }

  lemma SpawnFence(cl: Client, task: Task, slotFree: bool, ch: Choice)
    requires Fits(task) && InSpawn(task.pc)
    ensures var eff := SpawnProcess(cl, task, slotFree, ch);
            eff.Some? ==> FenceLocal(cl, task, eff.value.op, eff.value.pc, eff.value.born)
  {
  }

  lemma RoomFence(cl: Client, task: Task, slotFree: bool, child: Option<Outcome>, spare: TaskId, ch: Choice)
    requires Fits(task) && InMakeRoom(task.pc)
    ensures var eff := MakeRoom(task, slotFree, child, spare, ch);
            eff.Some? ==> FenceLocal(cl, task, eff.value.op, eff.value.pc, eff.value.born)
  {
  }

  lemma RequestFence(cl: Client, task: Task, ch: Choice)
    requires Fits(task) && InRequest(task.pc)
    ensures var eff := Request(cl, task, ch);
            eff.Some? ==> FenceLocal(cl, task, eff.value.op, eff.value.pc, eff.value.born)
  {
  }

  lemma ShutFence(cl: Client, task: Task, ch: Choice)
    requires Fits(task) && InShut(task.pc)
    ensures var eff := Shut(cl, task, ch);
            eff.Some? ==> FenceLocal(cl, task, eff.value.op, eff.value.pc, eff.value.born)
  {
  }

  lemma DisposeFence(cl: Client, task: Task, ch: Choice)
    requires Fits(task) && InDispose(task.pc)
    ensures var eff := Dispose(cl, task.role, task.pc, ch);
            eff.Some? ==> FenceLocal(cl, task, eff.value.op, eff.value.pc, eff.value.born)
  {
  }

  lemma WatchFence(cl: Client, task: Task, ch: Choice)
    requires Fits(task) && task.role.Supervise? && InWatch(task.pc)
    ensures var eff := Watch(cl, task.role.gen, task.role.handoff, task.pc, ch);
            eff.Some? ==> FenceLocal(cl, task, eff.value.op, eff.value.pc, eff.value.born)
  {
  }

  lemma FinaliseFence(cl: Client, task: Task, ch: Choice)
    requires Fits(task) && task.role.Supervise?
    ensures var eff := Finalise(cl, task.role.gen, task.pc, ch);
            eff.Some? ==> FenceLocal(cl, task, eff.value.op, eff.value.pc, eff.value.born)
  {
  }

  lemma ActFence(cl: Client, task: Task, slotFree: bool, child: Option<Outcome>, spare: TaskId, ch: Choice)
    requires Fits(task)
    ensures var eff := Act(cl, task, slotFree, child, spare, ch);
            eff.Some? ==> FenceLocal(cl, task, eff.value.op, eff.value.pc, eff.value.born)
  {
    if InEnter(task.pc) {
      EnterFence(cl, task, child, spare, ch);
    } else if InRespond(task.pc) {
      RespondFence(cl, task, ch);
    } else if InStart(task.pc) {
      StartFence(cl, task, ch);
    } else if InSpawn(task.pc) {
      SpawnFence(cl, task, slotFree, ch);
    } else if InMakeRoom(task.pc) {
      RoomFence(cl, task, slotFree, child, spare, ch);
    } else if InRequest(task.pc) {
      RequestFence(cl, task, ch);
    } else if InShut(task.pc) {
      ShutFence(cl, task, ch);
    } else if InDispose(task.pc) {
      DisposeFence(cl, task, ch);
    } else if !task.role.Supervise? {
    } else if InWatch(task.pc) {
      WatchFence(cl, task, ch);
    } else {
      FinaliseFence(cl, task, ch);
    }
  }

  // ----- one operation -----

  /** The fields that fencing is about, after an operation. */
  lemma PerformFence(cl: Client, t: TaskId, op: Op)
    ensures var cl' := Perform(cl, t, op);
            && cl'.installed == (if op.SetProcess? then cl.installed + [op.proc.gen] else cl.installed)
            && cl'.nextGeneration == (if op.NewGeneration? then cl.nextGeneration + 1 else cl.nextGeneration)
            && cl'.process == (if op.SetProcess? then Some(op.proc) else if op.RemoveProcess? then None else cl.process)
            && cl'.woken == (if op.WakeGeneration? then cl.woken[op.gen := op.handoff] else cl.woken)
            && cl'.turns == (if op.AddTurn? then cl.turns[op.turn := op.gen]
                             else if op.RemoveTurn? then cl.turns - {op.turn}
                             else if op.ClearTurns? then map[] else cl.turns)
            && cl'.requests == (if op.AddRequest? then cl.requests[op.observed.key := op.observed]
                                else if op.RemoveRequest? then cl.requests - {op.key}
                                else if op.ClearAllRequests? then map[] else cl.requests)
  {
  }

  lemma GrownInstalled(cl: Client, t: TaskId, op: Op)
    ensures forall g | g in cl.installed :: g in Perform(cl, t, op).installed
    ensures op.SetProcess? ==> op.proc.gen in Perform(cl, t, op).installed
  {
    PerformFence(cl, t, op);
  }

  /** The operation names no generation that is not installed, and installs only a newer one. */
  predicate FencedOp(cl: Client, op: Op) {
    match op
    case SetProcess(p) => p.gen < cl.nextGeneration && AllBelow(cl.installed, p.gen)
    case WakeGeneration(gen, _) => gen in cl.installed
    case AddTurn(_, gen) => gen in cl.installed
    case AddRequest(o) => o.gen in cl.installed
    case _ => true
  }

  lemma OpKeepsFence(cl: Client, t: TaskId, op: Op)
    requires FenceClient(cl) && FencedOp(cl, op)
    ensures FenceClient(Perform(cl, t, op))
  {
    PerformFence(cl, t, op);
    GrownInstalled(cl, t, op);
    if op.SetProcess? {
      assert forall i | 0 <= i < |cl.installed| :: cl.installed[i] in cl.installed;
    }
  }

  // ----- one step, seen by the task that takes it and by the others -----

  lemma CurrentIsInstalled(cl: Client)
    requires FenceClient(cl) && cl.process.Some?
    ensures cl.process.value.gen in cl.installed
  {
  }

  lemma OwnFence(cl: Client, t: TaskId, task: Task, op: Op, pc: Pc, born: Option<Born>)
    requires FenceClient(cl) && FenceTask(cl, task) && FenceLocal(cl, task, op, pc, born)
    requires Fits(task) && Fits(task.(pc := pc))
    ensures FencedOp(cl, op)
    ensures FenceTask(Perform(cl, t, op), task.(pc := pc))
    ensures op.SetProcess? || op.NewGeneration? ==> HoldsStart(task)
    ensures born.Some? && born.value.role.Supervise? ==>
              born.value.client == task.client && born.value.role.gen < Perform(cl, t, op).nextGeneration
  {
    PerformFence(cl, t, op);
    GrownInstalled(cl, t, op);
    if cl.process.Some? {
      CurrentIsInstalled(cl);
    }
  }

  /** No one else installs a process between the moments a task relies on none being there. */
  lemma OtherFence(cl: Client, t: TaskId, op: Op, other: Task)
    requires FenceTask(cl, other) && Fits(other)
    requires op.SetProcess? || op.NewGeneration? ==> !StartsIn(PhaseOf(other.pc))
    ensures FenceTask(Perform(cl, t, op), other)
  {
    PerformFence(cl, t, op);
    GrownInstalled(cl, t, op);
  }

  lemma NewbornFence(cl: Client, c: ClientId, role: Role)
    requires role.Supervise? ==> role.gen < cl.nextGeneration
    ensures FenceTask(cl, Task(c, role, FirstPc(role)))
  {
  }

  // ----- one event -----

  lemma EventFenceLocal(s: State, e: Event)
    requires AllLocksOk(s) && Enabled(s, e)
    ensures e.Step? ==>
              FenceLocal(s.clients[s.tasks[e.t].client], s.tasks[e.t], e.effect.op, e.effect.pc, e.effect.born)
    ensures e.Step? ==> Fits(s.tasks[e.t])
  {
    if e.Step? {
      var task := s.tasks[e.t];
      TaskLocks(s, e.t);
      ActFence(s.clients[task.client], task, s.permits > 0, ChildOutcome(s, task.pc), e.spare, e.choice);
    }
  }

  lemma AbortFence(s: State, t: TaskId)
    requires AllLocksOk(s) && t in s.tasks
    ensures var cl := s.clients[s.tasks[t].client];
            Fits(s.tasks[t]) && FenceLocal(cl, s.tasks[t], AbortOp(cl, t), Done(Closed), None)
  {
    TaskLocks(s, t);
  }

  /** The holder of the start lock is alone with what installs a process. */
  lemma OnlyOneStarts(s: State, t: TaskId, u: TaskId)
    requires AllLocksOk(s) && t in s.tasks && u in s.tasks && t != u && s.tasks[t].client == s.tasks[u].client
    requires HoldsStart(s.tasks[t])
    ensures !HoldsStart(s.tasks[u])
  {
    TaskLocks(s, t);
    TaskLocks(s, u);
  }

  lemma BystanderFence(s: State, t: TaskId, op: Op, u: TaskId)
    requires AllLocksOk(s) && AllFenced(s) && t in s.tasks && u in s.tasks && u != t
    requires s.tasks[u].client == s.tasks[t].client
    requires op.SetProcess? || op.NewGeneration? ==> HoldsStart(s.tasks[t])
    ensures FenceTask(Perform(s.clients[s.tasks[t].client], t, op), s.tasks[u])
  {
    if op.SetProcess? || op.NewGeneration? {
      OnlyOneStarts(s, t, u);
    }
    TaskLocks(s, u);
    OtherFence(s.clients[s.tasks[t].client], t, op, s.tasks[u]);
  }

  /** Everybody is fenced after a move if the client that moved is, and so are its tasks. */
  lemma FencedAfterMove(s: State, t: TaskId, op: Op, pc: Pc, slots: int, born: Option<Born>, spare: TaskId)
    requires AllFenced(s) && t in s.tasks && s.permits + slots >= 0
    requires var task := s.tasks[t];
             var cl' := Perform(s.clients[task.client], t, op);
             && FenceClient(cl') && FenceTask(cl', task.(pc := pc))
             && HasRoomFor(s, born, spare)
             && (born.Some? ==>
                   FenceTask(if born.value.client == task.client then cl' else s.clients[born.value.client],
                             NewTask(born.value)))
             && forall u | u in s.tasks && u != t && s.tasks[u].client == task.client :: FenceTask(cl', s.tasks[u])
    ensures AllFenced(Move(s, t, op, pc, slots, born, spare))
  {
    hide FenceClient, FenceTask, Perform;
  }

  lemma MoveFence(s: State, t: TaskId, op: Op, pc: Pc, slots: int, born: Option<Born>, spare: TaskId)
    requires AllLocksOk(s) && AllFenced(s) && t in s.tasks && s.permits + slots >= 0
    requires Fits(s.tasks[t]) && Fits(s.tasks[t].(pc := pc))
    requires FenceLocal(s.clients[s.tasks[t].client], s.tasks[t], op, pc, born)
    requires HasRoomFor(s, born, spare)
    ensures AllFenced(Move(s, t, op, pc, slots, born, spare))
  {
    hide FenceClient, FenceTask, FenceLocal, Perform, LocksOk;
    var task := s.tasks[t];
    var cl := s.clients[task.client];
    OwnFence(cl, t, task, op, pc, born);
    OpKeepsFence(cl, t, op);
    if born.Some? {
      NewbornFence(if born.value.client == task.client then Perform(cl, t, op) else s.clients[born.value.client],
                   born.value.client, born.value.role);
    }
    forall u | u in s.tasks && u != t && s.tasks[u].client == task.client
      ensures FenceTask(Perform(cl, t, op), s.tasks[u]) {
      BystanderFence(s, t, op, u);
    }
    FencedAfterMove(s, t, op, pc, slots, born, spare);
  }

  lemma HandledIsFenced(cl: Client, c: ClientId, gen: Generation, m: Message)
    requires FenceClient(cl) && gen in cl.woken
    ensures var op := Handle(cl, c, gen, cl.woken[gen], m); FencedOp(cl, op) && !op.SetProcess? && !op.NewGeneration?
  {
  }

  lemma ReceiveFence(s: State, c: ClientId, gen: Generation, m: Message, op: Op)
    requires AllLocksOk(s) && AllFenced(s) && Enabled(s, Receive(c, gen, m, op))
    ensures AllFenced(After(s, Receive(c, gen, m, op)))
  {
    hide FenceClient, FenceTask, FencedOp, Perform, LocksOk, Handle;
    var cl := s.clients[c];
    HandledIsFenced(cl, c, gen, m);
    OpKeepsFence(cl, 0, op);
    forall t | t in s.tasks && s.tasks[t].client == c ensures FenceTask(Perform(cl, 0, op), s.tasks[t]) {
      TaskLocks(s, t);
      OtherFence(cl, 0, op, s.tasks[t]);
    }
  }

  lemma AfterFence(s: State, e: Event)
    requires AllLocksOk(s) && AllFenced(s) && Enabled(s, e)
    ensures AllFenced(After(s, e))
  {
    hide FenceClient, FenceTask, FenceLocal, LockLocal, Perform, Act;
    EventLocal(s, e);
    EventFenceLocal(s, e);
    match e
    case Arrive(c, role, t) => NewbornFence(s.clients[c], c, role);
    case Step(t, _, spare, eff) => MoveFence(s, t, eff.op, eff.pc, eff.slots, eff.born, spare);
    case Abort(t) =>
      AbortFence(s, t);
      MoveFence(s, t, AbortOp(s.clients[s.tasks[t].client], t), Done(Closed), 0, None, t);
    case Receive(c, gen, m, op) => ReceiveFence(s, c, gen, m, op);
  }

  lemma {:induction false} RunFence(r: Trace, maxProcesses: nat, i: nat)
    requires IsRun(r, maxProcesses) && i < |r.states|
    ensures AllFenced(r.states[i])
  {
    hide After, Enabled, AllFenced, AllLocksOk;
    if i > 0 {
      RunFence(r, maxProcesses, i - 1);
      RunLocks(r, maxProcesses, i - 1);
      AfterFence(r.states[i - 1], r.events[i - 1]);
    } else {
      InitialIsFenced(r.states[0], maxProcesses);
    }
  }

  lemma InitialIsFenced(s: State, maxProcesses: nat)
    requires Initial(s, maxProcesses)
    ensures AllFenced(s)
  {
  }

  // ----- what fencing means -----

  lemma AfterGrows(s: State, e: Event, c: ClientId)
    requires Enabled(s, e) && c in s.clients
    ensures c in After(s, e).clients && s.clients[c].installed <= After(s, e).clients[c].installed
  {
    hide Act, Handle;
    if e.Step? && s.tasks[e.t].client == c {
      PerformFence(s.clients[c], e.t, e.effect.op);
    } else if e.Abort? && s.tasks[e.t].client == c {
      PerformFence(s.clients[c], e.t, AbortOp(s.clients[c], e.t));
    } else if e.Receive? && e.client == c {
      PerformFence(s.clients[c], 0, e.op);
    }
  }

  /** Over any run the generations a client installs only ever grow, each greater than all before. */
  lemma {:induction false} InstalledIncrease(r: Trace, maxProcesses: nat, i: nat, j: nat, c: ClientId)
    requires IsRun(r, maxProcesses) && i <= j < |r.states| && c in r.states[i].clients
    ensures c in r.states[j].clients
    ensures r.states[i].clients[c].installed <= r.states[j].clients[c].installed
    ensures Increasing(r.states[j].clients[c].installed)
    decreases j
  {
    hide After, Enabled, Initial, FenceTask;
    if i < j {
      InstalledIncrease(r, maxProcesses, i, j - 1, c);
      AfterGrows(r.states[j - 1], r.events[j - 1], c);
    }
    RunFence(r, maxProcesses, j);
  }

  /** No message is handled for a process, and no supervisor goes past its start signal, before the
      process is installed. */
  lemma NothingBeforeInstall(r: Trace, maxProcesses: nat, i: nat)
    requires IsRun(r, maxProcesses) && i < |r.events|
    ensures r.events[i].Receive? ==>
              r.events[i].gen in r.states[i].clients[r.events[i].client].installed
    ensures forall t | t in r.states[i].tasks && r.states[i].tasks[t].role.Supervise?
                       && !r.states[i].tasks[t].pc.Parked? && !r.states[i].tasks[t].pc.Done? ::
              r.states[i].tasks[t].client in r.states[i].clients
              && r.states[i].tasks[t].role.gen in r.states[i].clients[r.states[i].tasks[t].client].installed
  {
    RunFence(r, maxProcesses, i);
    assert Enabled(r.states[i], r.events[i]);
    forall t | t in r.states[i].tasks && r.states[i].tasks[t].role.Supervise?
               && !r.states[i].tasks[t].pc.Parked? && !r.states[i].tasks[t].pc.Done?
      ensures r.states[i].tasks[t].client in r.states[i].clients
              && r.states[i].tasks[t].role.gen in r.states[i].clients[r.states[i].tasks[t].client].installed
    {
      assert FenceTask(r.states[i].clients[r.states[i].tasks[t].client], r.states[i].tasks[t]);
    }
  }

  /** What the supervisor of a generation may do to its client. */
  predicate SupervisorOp(cl: Client, gen: Generation, pc: Pc, op: Op) {
    match op
    case Nop => true
    case EnterStart => true
    case ExitStart => true
    case SendFailure(_) => true
    case TakeGeneration(g) => g == gen
    case RemoveProcess => IsCurrent(cl, Some(gen))
    case ClearTurns => ClearsWork(pc)
    case ClearAllRequests => ClearsWork(pc)
    case _ => false
  }

  lemma WatchOp(cl: Client, task: Task, ch: Choice)
    requires task.role.Supervise? && InWatch(task.pc)
    ensures var eff := Watch(cl, task.role.gen, task.role.handoff, task.pc, ch);
            eff.Some? ==> SupervisorOp(cl, task.role.gen, task.pc, eff.value.op)
  {
  }

  lemma FinaliseOp(cl: Client, task: Task, ch: Choice)
    requires task.role.Supervise?
    ensures var eff := Finalise(cl, task.role.gen, task.pc, ch);
            eff.Some? ==> SupervisorOp(cl, task.role.gen, task.pc, eff.value.op)
  {
  }

  lemma SupervisorStep(cl: Client, task: Task, slotFree: bool, child: Option<Outcome>, spare: TaskId, ch: Choice)
    requires Fits(task) && task.role.Supervise?
    ensures var eff := Act(cl, task, slotFree, child, spare, ch);
            eff.Some? ==> SupervisorOp(cl, task.role.gen, task.pc, eff.value.op)
  {
    hide Watch, Finalise, SupervisorOp;
    if InWatch(task.pc) {
      WatchOp(cl, task, ch);
    } else {
      FinaliseOp(cl, task, ch);
    }
  }

  /** What belongs to a later generation: its process, its turns and its unanswered requests; and
      the pending entries of every other generation. */
  ghost predicate KeepsOthers(cl: Client, cl': Client, gen: Generation) {
    && (cl.process.Some? && cl.process.value.gen != gen ==> cl'.process == cl.process)
    && (forall turn | turn in cl.turns && cl.turns[turn] > gen ::
            turn in cl'.turns && cl'.turns[turn] == cl.turns[turn])
    && (forall key | key in cl.requests && cl.requests[key].gen > gen ::
            key in cl'.requests && cl'.requests[key] == cl.requests[key])
    && (forall id | id in cl.pending && cl.pending[id] != gen :: id in cl'.pending && cl'.pending[id] == cl.pending[id])
  }

  lemma SupervisorKeeps(cl: Client, t: TaskId, task: Task, op: Op)
    requires FenceClient(cl) && FenceTask(cl, task) && task.role.Supervise?
             && SupervisorOp(cl, task.role.gen, task.pc, op)
    ensures KeepsOthers(cl, Perform(cl, t, op), task.role.gen)
  {
  }

  /** In every interleaving, no step of the supervisor of one generation takes away the process,
      the turns or the requests of a later generation, nor the pending entries of any other. */
  lemma FinaliserIsFenced(r: Trace, maxProcesses: nat, i: nat)
    requires IsRun(r, maxProcesses) && i < |r.events|
    requires r.events[i].Step? && r.states[i].tasks[r.events[i].t].role.Supervise?
    ensures var task := r.states[i].tasks[r.events[i].t];
            KeepsOthers(r.states[i].clients[task.client], r.states[i + 1].clients[task.client], task.role.gen)
  {
    var s, e := r.states[i], r.events[i];
    var task := s.tasks[e.t];
    RunFence(r, maxProcesses, i);
    RunLocks(r, maxProcesses, i);
    TaskLocks(s, e.t);
    SupervisorStep(s.clients[task.client], task, s.permits > 0, ChildOutcome(s, task.pc), e.spare, e.choice);
    SupervisorKeeps(s.clients[task.client], e.t, task, e.effect.op);
  }
}
