/** Process slots are conserved: over every run the free permits, the installed processes and the
    process states in the hands of a task add up to the maximum, whatever fails on the way. */
module AppServerSlots {
  import opened Text
  import opened AppServer
  import opened AppServerLocks
  import opened AppServerFence

  /** The task owns a permit, or a `ProcessState` that owns one. */
  predicate HoldsSlot(pc: Pc) {
    pc.EndStale? || pc.Spawning? || pc.Install? || pc.FailGeneration? || pc.SendFailures? || pc.DropProcess?
  }

  ghost function Holders(s: State): set<TaskId> {
    set t | t in s.tasks && HoldsSlot(s.tasks[t].pc)
  }

  ghost function Running(s: State): set<ClientId> {
    set c | c in s.clients && s.clients[c].process.Some?
  }

  ghost predicate SlotsConserved(s: State, maxProcesses: nat) {
    s.permits + |Running(s)| + |Holders(s)| == maxProcesses
  }

  // ----- one step -----

  function One(b: bool): int {
    if b then 1 else 0
  }

  predicate HasProcess(cl: Client, op: Op) {
    op.SetProcess? || (cl.process.Some? && !op.RemoveProcess?)
  }

  /** What the task, its client and the pool hold between them does not change. */
  predicate SlotLocal(cl: Client, task: Task, op: Op, pc: Pc, slots: int) {
    One(HoldsSlot(pc)) + One(HasProcess(cl, op)) + slots == One(HoldsSlot(task.pc)) + One(cl.process.Some?)
  }

  lemma EnterSlots(cl: Client, task: Task, child: Option<Outcome>, spare: TaskId, ch: Choice)
    requires (IsSpawning(task.pc) ==> cl.process.None?) && InEnter(task.pc)
    ensures var eff := Enter(cl, task, child, spare, ch);
            eff.Some? ==> SlotLocal(cl, task, eff.value.op, eff.value.pc, eff.value.slots)
  {
  }

  lemma RespondSlots(cl: Client, task: Task, ch: Choice)
    requires (IsSpawning(task.pc) ==> cl.process.None?) && InRespond(task.pc)
    ensures var eff := RespondTo(cl, task, ch);
            eff.Some? ==> SlotLocal(cl, task, eff.value.op, eff.value.pc, eff.value.slots)
  {
  }

  lemma StartSlots(cl: Client, task: Task, ch: Choice)
    requires (IsSpawning(task.pc) ==> cl.process.None?) && InStart(task.pc)
    ensures var eff := Start(cl, task, ch);
            eff.Some? ==> SlotLocal(cl, task, eff.value.op, eff.value.pc, eff.value.slots)
  {
  }

  lemma SpawnSlots(cl: Client, task: Task, slotFree: bool, ch: Choice)
    requires (IsSpawning(task.pc) ==> cl.process.None?) && InSpawn(task.pc)
    ensures var eff := SpawnProcess(cl, task, slotFree, ch);
            eff.Some? ==> SlotLocal(cl, task, eff.value.op, eff.value.pc, eff.value.slots)
  {
  }

  lemma RoomSlots(cl: Client, task: Task, slotFree: bool, child: Option<Outcome>, spare: TaskId, ch: Choice)
    requires (IsSpawning(task.pc) ==> cl.process.None?) && InMakeRoom(task.pc)
    ensures var eff := MakeRoom(task, slotFree, child, spare, ch);
            eff.Some? ==> SlotLocal(cl, task, eff.value.op, eff.value.pc, eff.value.slots)
  {
  }

  lemma RequestSlots(cl: Client, task: Task, ch: Choice)
    requires (IsSpawning(task.pc) ==> cl.process.None?) && InRequest(task.pc)
    ensures var eff := Request(cl, task, ch);
            eff.Some? ==> SlotLocal(cl, task, eff.value.op, eff.value.pc, eff.value.slots)
  {
  }

  lemma ShutSlots(cl: Client, task: Task, ch: Choice)
    requires (IsSpawning(task.pc) ==> cl.process.None?) && InShut(task.pc)
    ensures var eff := Shut(cl, task, ch);
            eff.Some? ==> SlotLocal(cl, task, eff.value.op, eff.value.pc, eff.value.slots)
  {
  }

  lemma DisposeSlots(cl: Client, task: Task, ch: Choice)
    requires (IsSpawning(task.pc) ==> cl.process.None?) && InDispose(task.pc)
    ensures var eff := Dispose(cl, task.role, task.pc, ch);
            eff.Some? ==> SlotLocal(cl, task, eff.value.op, eff.value.pc, eff.value.slots)
  {
  }

  lemma WatchSlots(cl: Client, task: Task, ch: Choice)
    requires (IsSpawning(task.pc) ==> cl.process.None?) && task.role.Supervise? && InWatch(task.pc)
    ensures var eff := Watch(cl, task.role.gen, task.role.handoff, task.pc, ch);
            eff.Some? ==> SlotLocal(cl, task, eff.value.op, eff.value.pc, eff.value.slots)
  {
  }

  lemma FinaliseSlots(cl: Client, task: Task, ch: Choice)
    requires (IsSpawning(task.pc) ==> cl.process.None?) && task.role.Supervise?
    ensures var eff := Finalise(cl, task.role.gen, task.pc, ch);
            eff.Some? ==> SlotLocal(cl, task, eff.value.op, eff.value.pc, eff.value.slots)
  {
  }

  lemma ActSlots(cl: Client, task: Task, slotFree: bool, child: Option<Outcome>, spare: TaskId, ch: Choice)
    requires (IsSpawning(task.pc) ==> cl.process.None?)
    ensures var eff := Act(cl, task, slotFree, child, spare, ch);
            eff.Some? ==> SlotLocal(cl, task, eff.value.op, eff.value.pc, eff.value.slots)
  {
    if InEnter(task.pc) {
      EnterSlots(cl, task, child, spare, ch);
    } else if InRespond(task.pc) {
      RespondSlots(cl, task, ch);
    } else if InStart(task.pc) {
      StartSlots(cl, task, ch);
    } else if InSpawn(task.pc) {
      SpawnSlots(cl, task, slotFree, ch);
    } else if InMakeRoom(task.pc) {
      RoomSlots(cl, task, slotFree, child, spare, ch);
    } else if InRequest(task.pc) {
      RequestSlots(cl, task, ch);
    } else if InShut(task.pc) {
      ShutSlots(cl, task, ch);
    } else if InDispose(task.pc) {
      DisposeSlots(cl, task, ch);
    } else if !task.role.Supervise? {
    } else if InWatch(task.pc) {
      WatchSlots(cl, task, ch);
    } else {
      FinaliseSlots(cl, task, ch);
    }
  }

  // ----- one event -----

  lemma SizeWithout<T>(a: set<T>, b: set<T>, x: T)
    requires a - {x} == b - {x}
    ensures |a| - One(x in a) == |b| - One(x in b)
  {
    assert |a - {x}| == |a| - One(x in a);
    assert |b - {x}| == |b| - One(x in b);
  }

  lemma SlotsOfNewborn(born: Option<Born>)
    ensures born.Some? ==> !HoldsSlot(NewTask(born.value).pc)
  {
  }

  lemma MovedHolders(s: State, t: TaskId, op: Op, pc: Pc, slots: int, born: Option<Born>, spare: TaskId)
    requires t in s.tasks && s.tasks[t].client in s.clients && s.permits + slots >= 0 && HasRoomFor(s, born, spare)
    ensures var s' := Move(s, t, op, pc, slots, born, spare);
            |Holders(s')| - One(HoldsSlot(pc)) == |Holders(s)| - One(HoldsSlot(s.tasks[t].pc))
  {
    hide Perform, NewTask, HoldsSlot;
    SlotsOfNewborn(born);
    SizeWithout(Holders(s), Holders(Move(s, t, op, pc, slots, born, spare)), t);
  }

  lemma MovedRunning(s: State, t: TaskId, op: Op, pc: Pc, slots: int, born: Option<Born>, spare: TaskId)
    requires t in s.tasks && s.tasks[t].client in s.clients && s.permits + slots >= 0
    ensures var cl, s' := s.clients[s.tasks[t].client], Move(s, t, op, pc, slots, born, spare);
            |Running(s')| - One(HasProcess(cl, op)) == |Running(s)| - One(cl.process.Some?)
  {
    hide Perform, NewTask;
    PerformFence(s.clients[s.tasks[t].client], t, op);
    SizeWithout(Running(s), Running(Move(s, t, op, pc, slots, born, spare)), s.tasks[t].client);
  }

  lemma MoveSlots(s: State, t: TaskId, op: Op, pc: Pc, slots: int, born: Option<Born>, spare: TaskId, maxProcesses: nat)
    requires SlotsConserved(s, maxProcesses)
    requires t in s.tasks && s.tasks[t].client in s.clients && s.permits + slots >= 0
    requires SlotLocal(s.clients[s.tasks[t].client], s.tasks[t], op, pc, slots)
    requires HasRoomFor(s, born, spare)
    ensures SlotsConserved(Move(s, t, op, pc, slots, born, spare), maxProcesses)
  {
    MovedHolders(s, t, op, pc, slots, born, spare);
    MovedRunning(s, t, op, pc, slots, born, spare);
    hide Perform, NewTask, HoldsSlot, HasProcess, Holders, Running, HasRoomFor;
  }

  lemma SameSlots(s: State, s': State, maxProcesses: nat)
    requires SlotsConserved(s, maxProcesses) && s'.permits == s.permits
    requires s.clients.Keys == s'.clients.Keys
    requires forall c | c in s.clients :: s.clients[c].process == s'.clients[c].process
    requires forall t | t in s.tasks :: t in s'.tasks && s'.tasks[t] == s.tasks[t]
    requires forall t | t in s'.tasks && t !in s.tasks :: !HoldsSlot(s'.tasks[t].pc)
    ensures SlotsConserved(s', maxProcesses)
  {
    assert Holders(s) == Holders(s');
    assert Running(s) == Running(s');
  }

  lemma EventSlots(s: State, e: Event)
    requires AllFenced(s) && Enabled(s, e) && e.Step?
    ensures SlotLocal(s.clients[s.tasks[e.t].client], s.tasks[e.t], e.effect.op, e.effect.pc, e.effect.slots)
  {
    hide Act, SlotLocal;
    var task := s.tasks[e.t];
    assert FenceTask(s.clients[task.client], task);
    ActSlots(s.clients[task.client], task, s.permits > 0, ChildOutcome(s, task.pc), e.spare, e.choice);
  }

  lemma AbortSlots(s: State, t: TaskId)
    requires AllLocksOk(s) && t in s.tasks && s.tasks[t].role.Supervise?
    ensures var cl := s.clients[s.tasks[t].client]; SlotLocal(cl, s.tasks[t], AbortOp(cl, t), Done(Closed), 0)
  {
    hide AllLocksOk, LocksOk;
    TaskLocks(s, t);
  }

  lemma AfterSlots(s: State, e: Event, maxProcesses: nat)
    requires AllLocksOk(s) && AllFenced(s) && SlotsConserved(s, maxProcesses) && Enabled(s, e)
    ensures SlotsConserved(After(s, e), maxProcesses)
  {
    hide Act, SlotsConserved, FenceTask, FenceClient, LocksOk, Perform, Move, SlotLocal, AbortOp;
    match e
    case Arrive(c, role, t) => SameSlots(s, After(s, e), maxProcesses);
    case Step(t, _, spare, eff) =>
      EventSlots(s, e);
      MoveSlots(s, t, eff.op, eff.pc, eff.slots, eff.born, spare, maxProcesses);
    case Abort(t) =>
      AbortSlots(s, t);
      MoveSlots(s, t, AbortOp(s.clients[s.tasks[t].client], t), Done(Closed), 0, None, t, maxProcesses);
    case Receive(c, gen, m, op) =>
      PerformFence(s.clients[c], 0, op);
      SameSlots(s, After(s, e), maxProcesses);
  }

  /** In every reachable state the slots add up, so no more processes are installed than allowed. */
  lemma {:induction false} RunSlots(r: Trace, maxProcesses: nat, i: nat)
    requires IsRun(r, maxProcesses) && i < |r.states|
    ensures SlotsConserved(r.states[i], maxProcesses)
    ensures |Running(r.states[i])| <= maxProcesses
  {
    hide After, Enabled, FenceTask, FenceClient, LocksOk;
    if i > 0 {
      RunSlots(r, maxProcesses, i - 1);
      RunLocks(r, maxProcesses, i - 1);
      RunFence(r, maxProcesses, i - 1);
      AfterSlots(r.states[i - 1], r.events[i - 1], maxProcesses);
    } else {
      assert Running(r.states[0]) == {} && Holders(r.states[0]) == {};
    }
  }

  /** Once nothing is starting or being shut down, the free permits are exactly those no installed
      process uses: every error path gave its slot back. */
  lemma QuietSlots(r: Trace, maxProcesses: nat, i: nat)
    requires IsRun(r, maxProcesses) && i < |r.states|
    requires forall t | t in r.states[i].tasks :: !HoldsSlot(r.states[i].tasks[t].pc)
    ensures r.states[i].permits == maxProcesses - |Running(r.states[i])|
  {
    RunSlots(r, maxProcesses, i);
    assert Holders(r.states[i]) == {};
  }
}
