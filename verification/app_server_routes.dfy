/** Answers to requests of the server go where they belong, and retirement is final. */
module AppServerRoutes {
  import opened Text
  import opened AppServer
  import opened AppServerLocks
  import opened AppServerFence

  /** An application call or an answer that has not yet passed the check under the lifecycle lock,
      or was turned away by it. */
  predicate IsOuter(task: Task) {
    var phase := PhaseOf(task.pc);
    (task.role.App? || task.role.Respond?) ==> phase.Outside? || phase.Inside? || phase.Over?
  }

  /** The answer of a request that was observed may be written to the process of this generation:
      it is the one that asked, or both are connections to the persistent daemon. */
  predicate Belongs(task: Task, gen: Generation, handoff: bool) {
    task.role.Respond? && (task.role.observed.Some? ==>
      var seen := task.role.observed.value;
      seen.client == task.client && (gen == seen.gen || (seen.handoff && handoff)))
  }

  /** What a step does to answers, to retirement and to the startup it may wait for. */
  predicate RouteLocal(cl: Client, task: Task, op: Op, pc: Pc, born: Option<Born>, spare: TaskId) {
    && (pc.WriteAnswer? ==>
            task.pc.PickWriter? && cl.process == Some(Proc(pc.gen, pc.handoff)) && Belongs(task, pc.gen, pc.handoff))
    && (pc.ForgetAnswer? ==> task.pc.WriteAnswer?)
    && (op.RemoveRequest? ==>
          task.pc.ForgetAnswer? && task.role.Respond? && op.key == task.role.key
            && StillObserved(cl, op.key, task.role.observed))
    && (op.SetRetired? ==> task.pc.Retiring?)
    && (cl.retired && IsOuter(task) ==> IsOuter(task.(pc := pc)))
    && (pc.AwaitStartup? ==> pc.child == spare && born == Some(Born(task.client, Startup)))
    && (pc.Evicting? ==> pc.child == spare && born.Some? && born.value.role == Quiesce(true))
  }

  lemma EnterRoutes(cl: Client, spare: TaskId, task: Task, child: Option<Outcome>, ch: Choice)
    requires Fits(task) && InEnter(task.pc)
    ensures var eff := Enter(cl, task, child, spare, ch);
            eff.Some? ==> RouteLocal(cl, task, eff.value.op, eff.value.pc, eff.value.born, spare)
  {
  }

  lemma RespondRoutes(cl: Client, spare: TaskId, task: Task, ch: Choice)
    requires Fits(task) && InRespond(task.pc)
    ensures var eff := RespondTo(cl, task, ch);
            eff.Some? ==> RouteLocal(cl, task, eff.value.op, eff.value.pc, eff.value.born, spare)
  {
  }

  lemma StartRoutes(cl: Client, spare: TaskId, task: Task, ch: Choice)
    requires Fits(task) && InStart(task.pc)
    ensures var eff := Start(cl, task, ch);
            eff.Some? ==> RouteLocal(cl, task, eff.value.op, eff.value.pc, eff.value.born, spare)
  {
  }

  lemma SpawnRoutes(cl: Client, spare: TaskId, task: Task, slotFree: bool, ch: Choice)
    requires Fits(task) && InSpawn(task.pc)
    ensures var eff := SpawnProcess(cl, task, slotFree, ch);
            eff.Some? ==> RouteLocal(cl, task, eff.value.op, eff.value.pc, eff.value.born, spare)
  {
  }

  lemma RoomRoutes(cl: Client, spare: TaskId, task: Task, slotFree: bool, child: Option<Outcome>, ch: Choice)
    requires Fits(task) && InMakeRoom(task.pc)
    ensures var eff := MakeRoom(task, slotFree, child, spare, ch);
            eff.Some? ==> RouteLocal(cl, task, eff.value.op, eff.value.pc, eff.value.born, spare)
  {
  }

  lemma RequestRoutes(cl: Client, spare: TaskId, task: Task, ch: Choice)
    requires Fits(task) && InRequest(task.pc)
    ensures var eff := Request(cl, task, ch);
            eff.Some? ==> RouteLocal(cl, task, eff.value.op, eff.value.pc, eff.value.born, spare)
  {
  }

  lemma ShutRoutes(cl: Client, spare: TaskId, task: Task, ch: Choice)
    requires Fits(task) && InShut(task.pc)
    ensures var eff := Shut(cl, task, ch);
            eff.Some? ==> RouteLocal(cl, task, eff.value.op, eff.value.pc, eff.value.born, spare)
  {
  }

  lemma DisposeRoutes(cl: Client, spare: TaskId, task: Task, ch: Choice)
    requires Fits(task) && InDispose(task.pc)
    ensures var eff := Dispose(cl, task.role, task.pc, ch);
            eff.Some? ==> RouteLocal(cl, task, eff.value.op, eff.value.pc, eff.value.born, spare)
  {
  }

  lemma WatchRoutes(cl: Client, spare: TaskId, task: Task, ch: Choice)
    requires Fits(task) && task.role.Supervise? && InWatch(task.pc)
    ensures var eff := Watch(cl, task.role.gen, task.role.handoff, task.pc, ch);
            eff.Some? ==> RouteLocal(cl, task, eff.value.op, eff.value.pc, eff.value.born, spare)
  {
  }

  lemma FinaliseRoutes(cl: Client, spare: TaskId, task: Task, ch: Choice)
    requires Fits(task) && task.role.Supervise?
    ensures var eff := Finalise(cl, task.role.gen, task.pc, ch);
            eff.Some? ==> RouteLocal(cl, task, eff.value.op, eff.value.pc, eff.value.born, spare)
  {
  }

  lemma ActRoutes(cl: Client, spare: TaskId, task: Task, slotFree: bool, child: Option<Outcome>, ch: Choice)
    requires Fits(task)
    ensures var eff := Act(cl, task, slotFree, child, spare, ch);
            eff.Some? ==> RouteLocal(cl, task, eff.value.op, eff.value.pc, eff.value.born, spare)
  {
    if InEnter(task.pc) {
      EnterRoutes(cl, spare, task, child, ch);
    } else if InRespond(task.pc) {
      RespondRoutes(cl, spare, task, ch);
    } else if InStart(task.pc) {
      StartRoutes(cl, spare, task, ch);
    } else if InSpawn(task.pc) {
      SpawnRoutes(cl, spare, task, slotFree, ch);
    } else if InMakeRoom(task.pc) {
      RoomRoutes(cl, spare, task, slotFree, child, ch);
    } else if InRequest(task.pc) {
      RequestRoutes(cl, spare, task, ch);
    } else if InShut(task.pc) {
      ShutRoutes(cl, spare, task, ch);
    } else if InDispose(task.pc) {
      DisposeRoutes(cl, spare, task, ch);
    } else if !task.role.Supervise? {
    } else if InWatch(task.pc) {
      WatchRoutes(cl, spare, task, ch);
    } else {
      FinaliseRoutes(cl, spare, task, ch);
    }
  }

  // ----- the invariant -----

  predicate RouteTask(cl: Client, task: Task, tasks: map<TaskId, Task>) {
    && (task.pc.WriteAnswer? ==> Belongs(task, task.pc.gen, task.pc.handoff))
    && (cl.retired ==> IsOuter(task))
    && (task.pc.AwaitStartup? ==> IsStartupOf(tasks, task.pc.child, task.client))
    && (task.pc.Evicting? ==> IsEvictor(tasks, task.pc.child))
  }

  predicate IsStartupOf(tasks: map<TaskId, Task>, u: TaskId, c: ClientId) {
    u in tasks && tasks[u].role.Startup? && tasks[u].client == c
  }

  predicate IsEvictor(tasks: map<TaskId, Task>, u: TaskId) {
    u in tasks && tasks[u].role == Quiesce(true)
  }

  ghost predicate AllRouted(s: State) {
    forall t | t in s.tasks :: s.tasks[t].client in s.clients
      && RouteTask(s.clients[s.tasks[t].client], s.tasks[t], s.tasks)
  }

  // ----- one event -----

  lemma PerformRetired(cl: Client, t: TaskId, op: Op)
    ensures Perform(cl, t, op).retired == (cl.retired || op.SetRetired?)
  {
  }

  lemma NewbornRouted(cl: Client, c: ClientId, role: Role, tasks: map<TaskId, Task>)
    ensures RouteTask(cl, Task(c, role, FirstPc(role)), tasks)
  {
  }

  lemma RetirerIsAlone(s: State, t: TaskId, u: TaskId)
    requires AllLocksOk(s) && t in s.tasks && u in s.tasks && s.tasks[u].client == s.tasks[t].client
    requires HoldsWrite(s.tasks[t])
    ensures !HoldsRead(s.tasks[u])
  {
    hide HoldsRead, HoldsWrite, Fits;
    TaskLocks(s, t);
    TaskLocks(s, u);
    assert LocksOk(s.clients[s.tasks[t].client], s.tasks[t].client, s.tasks);
  }

  lemma RetirerHoldsWrite(task: Task)
    requires Fits(task) && task.pc.Retiring?
    ensures HoldsWrite(task)
  {
  }

  lemma NotReadingIsOuter(task: Task)
    requires !HoldsRead(task)
    ensures IsOuter(task)
  {
  }

  /** Whoever retires a client holds its lifecycle lock alone, so everyone else is still outside. */
  lemma OthersAreOuter(s: State, t: TaskId, u: TaskId)
    requires AllLocksOk(s) && t in s.tasks && u in s.tasks && s.tasks[u].client == s.tasks[t].client
    requires s.tasks[t].pc.Retiring?
    ensures IsOuter(s.tasks[u])
  {
    hide AllLocksOk, HoldsRead, HoldsWrite, IsOuter, Fits;
    TaskLocks(s, t);
    RetirerHoldsWrite(s.tasks[t]);
    RetirerIsAlone(s, t, u);
    NotReadingIsOuter(s.tasks[u]);
  }

  lemma OwnRoute(s: State, t: TaskId, op: Op, pc: Pc, born: Option<Born>, spare: TaskId, tasks: map<TaskId, Task>)
    requires AllLocksOk(s) && AllRouted(s) && t in s.tasks
    requires RouteLocal(s.clients[s.tasks[t].client], s.tasks[t], op, pc, born, spare)
    requires IsBorn(tasks, born, spare, s.tasks[t].client)
    ensures RouteTask(Perform(s.clients[s.tasks[t].client], t, op), s.tasks[t].(pc := pc), tasks)
  {
    hide Perform, AllLocksOk, IsOuter;
    PerformRetired(s.clients[s.tasks[t].client], t, op);
    assert RouteTask(s.clients[s.tasks[t].client], s.tasks[t], s.tasks);
    if op.SetRetired? {
      RetirerIsOuter(s, t, pc);
    }
  }

  predicate IsBorn(tasks: map<TaskId, Task>, born: Option<Born>, spare: TaskId, c: ClientId) {
    && (born == Some(Born(c, Startup)) ==> IsStartupOf(tasks, spare, c))
    && (born.Some? && born.value.role == Quiesce(true) ==> IsEvictor(tasks, spare))
  }

  lemma OtherRoute(s: State, t: TaskId, op: Op, u: TaskId, tasks: map<TaskId, Task>)
    requires AllLocksOk(s) && AllRouted(s) && t in s.tasks && u in s.tasks && s.tasks[u].client == s.tasks[t].client
    requires op.SetRetired? ==> s.tasks[t].pc.Retiring?
    requires forall v | v in s.tasks ::
            v in tasks && tasks[v].role == s.tasks[v].role && tasks[v].client == s.tasks[v].client
    ensures RouteTask(Perform(s.clients[s.tasks[t].client], t, op), s.tasks[u], tasks)
  {
    hide Perform, AllLocksOk, IsOuter;
    PerformRetired(s.clients[s.tasks[t].client], t, op);
    assert RouteTask(s.clients[s.tasks[u].client], s.tasks[u], s.tasks);
    if op.SetRetired? {
      OthersAreOuter(s, t, u);
    }
  }

  lemma FarRoute(cl: Client, task: Task, tasks: map<TaskId, Task>, tasks': map<TaskId, Task>)
    requires RouteTask(cl, task, tasks)
    requires forall v | v in tasks ::
            v in tasks' && tasks'[v].role == tasks[v].role && tasks'[v].client == tasks[v].client
    ensures RouteTask(cl, task, tasks')
  {
  }

  lemma MoveRoutes(s: State, t: TaskId, op: Op, pc: Pc, slots: int, born: Option<Born>, spare: TaskId)
    requires AllLocksOk(s) && AllRouted(s) && t in s.tasks && s.permits + slots >= 0
    requires RouteLocal(s.clients[s.tasks[t].client], s.tasks[t], op, pc, born, spare)
             && (op.SetRetired? ==> s.tasks[t].pc.Retiring?)
    requires HasRoomFor(s, born, spare)
    ensures AllRouted(Move(s, t, op, pc, slots, born, spare))
  {
    hide Perform, AllLocksOk, RouteTask, RouteLocal, FirstPc;
    var task := s.tasks[t];
    var s' := Move(s, t, op, pc, slots, born, spare);
    forall u | u in s'.tasks ensures s'.tasks[u].client in s'.clients
      && RouteTask(s'.clients[s'.tasks[u].client], s'.tasks[u], s'.tasks) {
      if u !in s.tasks {
        NewbornRouted(s'.clients[born.value.client], born.value.client, born.value.role, s'.tasks);
      } else if u == t {
        OwnRoute(s, t, op, pc, born, spare, s'.tasks);
      } else if s.tasks[u].client == task.client {
        OtherRoute(s, t, op, u, s'.tasks);
      } else {
        FarRoute(s.clients[s.tasks[u].client], s.tasks[u], s.tasks, s'.tasks);
      }
    }
  }

  lemma RetirerIsOuter(s: State, t: TaskId, pc: Pc)
    requires AllLocksOk(s) && t in s.tasks && s.tasks[t].pc.Retiring?
    ensures IsOuter(s.tasks[t].(pc := pc))
  {
    hide AllLocksOk;
    TaskLocks(s, t);
  }

  lemma EventRoutes(s: State, e: Event)
    requires AllLocksOk(s) && Enabled(s, e)
    ensures e.Step? ==>
              RouteLocal(s.clients[s.tasks[e.t].client], s.tasks[e.t], e.effect.op, e.effect.pc, e.effect.born, e.spare)
    ensures e.Abort? ==>
              var cl := s.clients[s.tasks[e.t].client];
                RouteLocal(cl, s.tasks[e.t], AbortOp(cl, e.t), Done(Closed), None, e.t)
    ensures e.Step? && e.effect.op.SetRetired? ==> s.tasks[e.t].pc.Retiring?
  {
    hide AllLocksOk, Act, RouteLocal;
    if e.Step? {
      var task := s.tasks[e.t];
      TaskLocks(s, e.t);
      ActRoutes(s.clients[task.client], e.spare, task, s.permits > 0, ChildOutcome(s, task.pc), e.choice);
      Retirer(s.clients[task.client], task, e.effect.op, e.effect.pc, e.effect.born, e.spare);
    } else if e.Abort? {
      AbortRoutes(s.clients[s.tasks[e.t].client], e.t, s.tasks[e.t]);
    }
  }

  lemma Retirer(cl: Client, task: Task, op: Op, pc: Pc, born: Option<Born>, spare: TaskId)
    requires RouteLocal(cl, task, op, pc, born, spare)
    ensures op.SetRetired? ==> task.pc.Retiring?
  {
  }

  lemma AbortRoutes(cl: Client, t: TaskId, task: Task)
    requires Abortable(task)
    ensures RouteLocal(cl, task, AbortOp(cl, t), Done(Closed), None, t)
  {
  }

  lemma ReceiveRoutes(s: State, c: ClientId, op: Op)
    requires AllRouted(s) && c in s.clients && !op.SetRetired?
    ensures AllRouted(s.(clients := s.clients[c := Perform(s.clients[c], 0, op)]))
  {
    hide Perform, IsOuter;
    PerformRetired(s.clients[c], 0, op);
    forall u | u in s.tasks ensures RouteTask(s.clients[s.tasks[u].client], s.tasks[u], s.tasks) {}
  }

  lemma ArriveRoutes(s: State, c: ClientId, role: Role, t: TaskId)
    requires AllRouted(s) && c in s.clients && t !in s.tasks
    ensures AllRouted(s.(tasks := s.tasks[t := Task(c, role, FirstPc(role))]))
  {
    hide IsOuter, FirstPc;
    var tasks := s.tasks[t := Task(c, role, FirstPc(role))];
    NewbornRouted(s.clients[c], c, role, tasks);
    forall u | u in s.tasks ensures RouteTask(s.clients[s.tasks[u].client], s.tasks[u], tasks) {
      assert RouteTask(s.clients[s.tasks[u].client], s.tasks[u], s.tasks);
    }
  }

  lemma AfterRoutes(s: State, e: Event)
    requires AllLocksOk(s) && AllRouted(s) && Enabled(s, e)
    ensures AllRouted(After(s, e))
  {
    hide Act, AllRouted, RouteLocal, Perform, Move, Abortable;
    EventRoutes(s, e);
    TasksHaveClients(s);
    match e
    case Arrive(c, role, t) => ArriveRoutes(s, c, role, t);
    case Step(t, _, spare, eff) => MoveRoutes(s, t, eff.op, eff.pc, eff.slots, eff.born, spare);
    case Abort(t) => MoveRoutes(s, t, AbortOp(s.clients[s.tasks[t].client], t), Done(Closed), 0, None, t);
    case Receive(c, gen, m, op) => ReceiveRoutes(s, c, op);
  }

  lemma TasksHaveClients(s: State)
    requires AllLocksOk(s)
    ensures forall t | t in s.tasks :: s.tasks[t].client in s.clients
  {
  }

  lemma {:induction false} RunRoutes(r: Trace, maxProcesses: nat, i: nat)
    requires IsRun(r, maxProcesses) && i < |r.states|
    ensures AllRouted(r.states[i])
  {
    hide After, Enabled, RouteTask, AllLocksOk;
    if i > 0 {
      RunRoutes(r, maxProcesses, i - 1);
      RunLocks(r, maxProcesses, i - 1);
      AfterRoutes(r.states[i - 1], r.events[i - 1]);
    }
  }

  // ----- what routing means -----

  lemma PickStep(s: State, e: Event, t: TaskId)
    requires AllLocksOk(s) && Enabled(s, e) && t in After(s, e).tasks && After(s, e).tasks[t].pc.WriteAnswer?
    ensures t in s.tasks && s.tasks[t].client == After(s, e).tasks[t].client && s.tasks[t].client in s.clients
    ensures var pc := After(s, e).tasks[t].pc;
            s.tasks[t].pc == pc || s.clients[s.tasks[t].client].process == Some(Proc(pc.gen, pc.handoff))
  {
    hide Act, AllLocksOk, Perform, Handle, Abortable, AbortOp;
    EventRoutes(s, e);
    TasksHaveClients(s);
  }

  /** The process that an answer is being written to was the client's installed one at some moment
      before: when it was picked. */
  lemma {:induction false} PickedWhenInstalled(r: Trace, maxProcesses: nat, i: nat, t: TaskId) returns (k: nat)
    requires IsRun(r, maxProcesses) && i < |r.states| && t in r.states[i].tasks && r.states[i].tasks[t].pc.WriteAnswer?
    ensures k < i && r.states[i].tasks[t].client in r.states[k].clients
    ensures r.states[k].clients[r.states[i].tasks[t].client].process
            == Some(Proc(r.states[i].tasks[t].pc.gen, r.states[i].tasks[t].pc.handoff))
  {
    hide After, Enabled, AllLocksOk;
    assert i > 0;
    RunLocks(r, maxProcesses, i - 1);
    PickStep(r.states[i - 1], r.events[i - 1], t);
    if r.states[i - 1].tasks[t].pc == r.states[i].tasks[t].pc {
      k := PickedWhenInstalled(r, maxProcesses, i - 1, t);
    } else {
      k := i - 1;
    }
  }

  /** In every run, whatever writes the answer of an observed request writes it for the client that
      saw it, to the process of the same generation or from one daemon connection to another; and
      that process was the client's installed one when it was picked. */
  lemma AnswersGoHome(r: Trace, maxProcesses: nat, i: nat, t: TaskId) returns (k: nat)
    requires IsRun(r, maxProcesses) && i < |r.states| && t in r.states[i].tasks && r.states[i].tasks[t].pc.WriteAnswer?
    ensures var task := r.states[i].tasks[t];
            task.role.Respond?
            && (task.role.observed.Some? ==>
                  var seen := task.role.observed.value;
                  seen.client == task.client && (task.pc.gen == seen.gen || (seen.handoff && task.pc.handoff)))
    ensures var task := r.states[i].tasks[t];
            && k < i && task.client in r.states[k].clients && task.client in r.states[i].clients
            && r.states[k].clients[task.client].process == Some(Proc(task.pc.gen, task.pc.handoff))
            && task.pc.gen in r.states[i].clients[task.client].installed
  {
    hide IsRun, FenceTask;
    RunRoutes(r, maxProcesses, i);
    assert RouteTask(r.states[i].clients[r.states[i].tasks[t].client], r.states[i].tasks[t], r.states[i].tasks);
    k := PickedWhenInstalled(r, maxProcesses, i, t);
    RunFence(r, maxProcesses, k);
    CurrentIsInstalled(r.states[k].clients[r.states[i].tasks[t].client]);
    InstalledIncrease(r, maxProcesses, k, i, r.states[i].tasks[t].client);
  }

  /** An answered request is taken off the list only if it is still the one that was observed: an
      entry under the same id, from a later process, stays. Nothing else leaves with it. */
  lemma AnswerTakesItsOwn(r: Trace, maxProcesses: nat, i: nat, key: string)
    requires IsRun(r, maxProcesses) && i < |r.events| && r.events[i].Step?
    requires var task := r.states[i].tasks[r.events[i].t];
             task.role.Respond? && task.role.observed.Some? && task.client in r.states[i].clients
    requires var task := r.states[i].tasks[r.events[i].t];
             var cl := r.states[i].clients[task.client];
             key in cl.requests && (key == task.role.key ==> cl.requests[key] != task.role.observed.value)
    ensures var c := r.states[i].tasks[r.events[i].t].client;
            c in r.states[i + 1].clients && key in r.states[i + 1].clients[c].requests
            && r.states[i + 1].clients[c].requests[key] == r.states[i].clients[c].requests[key]
  {
    hide Act, AllLocksOk;
    var s, e := r.states[i], r.events[i];
    RunLocks(r, maxProcesses, i);
    TaskLocks(s, e.t);
    EventRoutes(s, e);
    AnswererOps(s.clients[s.tasks[e.t].client], s.tasks[e.t], s.permits > 0, ChildOutcome(s, s.tasks[e.t].pc),
                e.spare, e.choice);
  }

  /** A task that answers a request does no more to its client than enter, leave and take it off. */
  lemma AnswererOps(cl: Client, task: Task, slotFree: bool, child: Option<Outcome>, spare: TaskId, ch: Choice)
    requires Fits(task) && task.role.Respond?
    ensures var eff := Act(cl, task, slotFree, child, spare, ch);
            eff.Some? ==>
                  eff.value.op.Nop? || eff.value.op.EnterRead? || eff.value.op.ExitRead? || eff.value.op.RemoveRequest?
  {
  }

  // ----- what retirement means -----

  lemma AfterRetired(s: State, e: Event, c: ClientId)
    requires Enabled(s, e) && c in s.clients && s.clients[c].retired
    ensures c in After(s, e).clients && After(s, e).clients[c].retired
  {
    hide Act, Handle, Perform, Abortable, AbortOp;
    match e
    case Arrive(_, _, _) =>
    case Step(t, _, _, eff) => PerformRetired(s.clients[s.tasks[t].client], t, eff.op);
    case Abort(t) => PerformRetired(s.clients[s.tasks[t].client], t, AbortOp(s.clients[s.tasks[t].client], t));
    case Receive(d, _, _, op) => PerformRetired(s.clients[d], 0, op);
  }

  lemma {:induction false} StaysRetired(r: Trace, maxProcesses: nat, i: nat, j: nat, c: ClientId)
    requires IsRun(r, maxProcesses) && i <= j < |r.states| && c in r.states[i].clients && r.states[i].clients[c].retired
    ensures c in r.states[j].clients && r.states[j].clients[c].retired
    decreases j
  {
    hide After, Enabled, Initial;
    if i < j {
      StaysRetired(r, maxProcesses, i, j - 1, c);
      AfterRetired(r.states[j - 1], r.events[j - 1], c);
    }
  }

  lemma OuterOps(cl: Client, task: Task, slotFree: bool, child: Option<Outcome>, spare: TaskId, ch: Choice)
    requires IsOuter(task) && (task.role.App? || task.role.Respond?)
    ensures var eff := Act(cl, task, slotFree, child, spare, ch);
            eff.Some? ==> eff.value.op.Nop? || eff.value.op.EnterRead? || eff.value.op.ExitRead?
  {
  }

  /** Once a client is retired, no application call of it gets past the check under the lock: from
      then on none registers a request, none writes an answer, none changes more than the lock. */
  lemma RetirementIsFinal(r: Trace, maxProcesses: nat, i: nat, j: nat, c: ClientId)
    requires IsRun(r, maxProcesses) && i <= j < |r.events| && c in r.states[i].clients && r.states[i].clients[c].retired
    requires r.events[j].Step?
    requires var task := r.states[j].tasks[r.events[j].t]; task.client == c && (task.role.App? || task.role.Respond?)
    ensures var task := r.states[j].tasks[r.events[j].t];
            !task.pc.Register? && !task.pc.Write? && !task.pc.WriteAnswer? && !HoldsStart(task)
    ensures r.events[j].effect.op in {Nop, EnterRead, ExitRead}
  {
    hide AllRouted, AllLocksOk, Act;
    var s, e := r.states[j], r.events[j];
    StaysRetired(r, maxProcesses, i, j, c);
    RunRoutes(r, maxProcesses, j);
    TaskRouted(s, e.t);
    OuterOps(s.clients[c], s.tasks[e.t], s.permits > 0, ChildOutcome(s, s.tasks[e.t].pc), e.spare, e.choice);
  }

  lemma TaskRouted(s: State, t: TaskId)
    requires AllRouted(s) && t in s.tasks
    ensures s.tasks[t].client in s.clients && RouteTask(s.clients[s.tasks[t].client], s.tasks[t], s.tasks)
  {
  }
}
