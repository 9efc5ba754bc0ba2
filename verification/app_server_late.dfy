/** What failing a generation leaves behind: an entry of a failed generation is pending later on
    exactly when it was registered after the failure and nothing took it out since; and after the
    failure of a finaliser only callers that had already picked that generation can do so. */
module AppServerLate {
  import opened Text
  import opened AppServer
  import opened AppServerLocks
  import opened AppServerFence
  import opened AppServerSettle

  /** What an event does to one client. */
  function OpOn(s: State, e: Event, c: ClientId): Op {
    match e
    case Arrive(_, _, _) => Nop
    case Step(t, _, _, eff) => if t in s.tasks && s.tasks[t].client == c then eff.op else Nop
    case Abort(t) => if t in s.tasks && c in s.clients && s.tasks[t].client == c then AbortOp(s.clients[c], t) else Nop
    case Receive(d, _, _, op) => if d == c then op else Nop
  }

  /** The operation takes this entry out of `pending`. */
  predicate TakesOut(cl: Client, op: Op, id: RequestId) {
    match op
    case GiveUp(i, _) => i == id
    case DeliverReply(i, _) => i == id
    case TakeGeneration(gen) => id in cl.pending && cl.pending[id] == gen
    case PurgeReceivers => id in cl.closed
    case _ => false
  }

  predicate IsPendingOf(cl: Client, id: RequestId, gen: Generation) {
    id in cl.pending && cl.pending[id] == gen
  }

  lemma PendingAfterOp(cl: Client, t: TaskId, op: Op, id: RequestId, gen: Generation)
    requires IdOk(cl, id) && SettledOp(cl, t, op)
    ensures IsPendingOf(Perform(cl, t, op), id, gen)
            <==> op == Insert(id, gen) || (IsPendingOf(cl, id, gen) && !TakesOut(cl, op, id))
  {
    hide Perform;
    PerformBooks(cl, t, op);
  }

  lemma PendingAfterEvent(s: State, e: Event, c: ClientId, id: RequestId, gen: Generation)
    requires AllSettle(s) && Enabled(s, e) && EventSettled(s, e) && c in s.clients
    ensures c in After(s, e).clients
    ensures IsPendingOf(After(s, e).clients[c], id, gen)
            <==> OpOn(s, e, c) == Insert(id, gen) || (IsPendingOf(s.clients[c], id, gen)
                                                      && !TakesOut(s.clients[c], OpOn(s, e, c), id))
  {
    hide Act, Handle, Perform, SettledOp, BooksOk, RepliesOk, NothingLost, SettleTask, Abortable, AbortOp,
         IsPendingOf, TakesOut, IdOk;
    var cl := s.clients[c];
    FileOf(s, c, id);
    NopTakesNothing(cl, id, gen);
    match e
    case Arrive(_, _, _) =>
    case Step(t, _, _, eff) => if s.tasks[t].client == c { PendingAfterOp(cl, t, eff.op, id, gen); }
    case Abort(t) => if s.tasks[t].client == c { PendingAfterOp(cl, t, AbortOp(cl, t), id, gen); }
    case Receive(d, _, _, op) => if d == c { PendingAfterOp(cl, 0, op, id, gen); }
  }

  lemma FileOf(s: State, c: ClientId, id: RequestId)
    requires AllSettle(s) && c in s.clients
    ensures IdOk(s.clients[c], id)
  {
    hide IdOk, RepliesOk, NothingLost;
    ClientBooks(s.clients[c], c, s.tasks);
  }

  lemma NopTakesNothing(cl: Client, id: RequestId, gen: Generation)
    ensures !TakesOut(cl, Nop, id)
  {
  }

  // ----- an entry of a failed generation -----

  /** The entry was registered after event k, and nothing took it out until state j. */
  ghost predicate CameAfter(r: Trace, k: nat, j: nat, c: ClientId, id: RequestId, gen: Generation)
    requires |r.states| == |r.events| + 1 && k < j < |r.states|
  {
    exists m :: k < m < j && WasRegisteredAt(r, m, j, c, id, gen)
  }

  ghost predicate WasRegisteredAt(r: Trace, m: nat, j: nat, c: ClientId, id: RequestId, gen: Generation)
    requires |r.states| == |r.events| + 1 && m < j < |r.states|
  {
    && OpOn(r.states[m], r.events[m], c) == Insert(id, gen)
    && forall n | m < n < j :: StaysIn(r, n, c, id)
  }

  ghost predicate StaysIn(r: Trace, n: nat, c: ClientId, id: RequestId)
    requires |r.states| == |r.events| + 1 && n < |r.events|
  {
    c in r.states[n].clients && !TakesOut(r.states[n].clients[c], OpOn(r.states[n], r.events[n], c), id)
  }

  /** An entry of a generation that was failed by event k is pending later exactly when it was
      registered after the failure and has not been answered, given up, dropped or failed since. */
  lemma {:induction false} LeftPending(r: Trace, maxProcesses: nat, k: nat, j: nat, c: ClientId, id: RequestId,
                                       gen: Generation)
    requires IsRun(r, maxProcesses) && k < j < |r.states| && c in r.states[k].clients
    requires OpOn(r.states[k], r.events[k], c) == TakeGeneration(gen)
    ensures c in r.states[j].clients
    ensures IsPendingOf(r.states[j].clients[c], id, gen) <==> CameAfter(r, k, j, c, id, gen)
    decreases j
  {
    hide After, Enabled, Initial, AllSettle, AllLocksOk, EventSettled, OpOn, TakesOut, IsPendingOf, WasRegisteredAt,
         StaysIn;
    var s, e := r.states[j - 1], r.events[j - 1];
    RunSettles(r, maxProcesses, j - 1);
    RunLocks(r, maxProcesses, j - 1);
    AfterSettles(s, e);
    if j == k + 1 {
      PendingAfterEvent(s, e, c, id, gen);
      NothingLeft(s.clients[c], id, gen);
    } else {
      LeftPending(r, maxProcesses, k, j - 1, c, id, gen);
      PendingAfterEvent(s, e, c, id, gen);
      MoreRegistered(r, k, j - 1, c, id, gen);
    }
  }

  lemma NothingLeft(cl: Client, id: RequestId, gen: Generation)
    ensures IsPendingOf(cl, id, gen) ==> TakesOut(cl, TakeGeneration(gen), id)
  {
  }

  lemma MoreRegistered(r: Trace, k: nat, j: nat, c: ClientId, id: RequestId, gen: Generation)
    requires |r.states| == |r.events| + 1 && k < j < |r.events| && c in r.states[j].clients
    ensures CameAfter(r, k, j + 1, c, id, gen)
            <==> OpOn(r.states[j], r.events[j], c) == Insert(id, gen)
                 || (CameAfter(r, k, j, c, id, gen)
                     && !TakesOut(r.states[j].clients[c], OpOn(r.states[j], r.events[j], c), id))
  {
    hide OpOn, TakesOut;
    if CameAfter(r, k, j + 1, c, id, gen) {
      var m :| k < m < j + 1 && WasRegisteredAt(r, m, j + 1, c, id, gen);
      if m < j {
        assert StaysIn(r, j, c, id);
        assert WasRegisteredAt(r, m, j, c, id, gen);
      }
    }
    if OpOn(r.states[j], r.events[j], c) == Insert(id, gen) {
      assert WasRegisteredAt(r, j, j + 1, c, id, gen);
    } else if CameAfter(r, k, j, c, id, gen) && !TakesOut(r.states[j].clients[c], OpOn(r.states[j], r.events[j], c),
                                                          id) {
      var m :| k < m < j && WasRegisteredAt(r, m, j, c, id, gen);
      assert StaysIn(r, j, c, id);
      assert WasRegisteredAt(r, m, j + 1, c, id, gen);
    }
  }

  // ----- who can still register after a finaliser's failure -----

  predicate IsNotCurrent(cl: Client, gen: Generation) {
    cl.process.Some? ==> cl.process.value.gen != gen
  }

  /** Once the process of a generation is gone it is never installed again. */
  lemma StaysGone(s: State, e: Event, c: ClientId, gen: Generation)
    requires AllLocksOk(s) && AllFenced(s) && Enabled(s, e) && c in s.clients
    requires IsNotCurrent(s.clients[c], gen) && gen in s.clients[c].installed
    ensures c in After(s, e).clients && IsNotCurrent(After(s, e).clients[c], gen)
    ensures gen in After(s, e).clients[c].installed
  {
    hide Act, Handle, Perform, Abortable, AbortOp, AllLocksOk, FenceClient, FenceTask, FenceLocal;
    AfterGrows(s, e, c);
    match e
    case Arrive(_, _, _) =>
    case Step(t, _, _, eff) =>
      if s.tasks[t].client == c {
        EventFenceLocal(s, e);
        NewerIsInstalled(s.clients[c], s.tasks[t], eff.op, eff.pc, eff.born, gen);
        PerformFence(s.clients[c], t, eff.op);
      }
    case Abort(t) => PerformFence(s.clients[s.tasks[t].client], t, AbortOp(s.clients[s.tasks[t].client], t));
      AbortInstallsNothing(s.clients[s.tasks[t].client], t);
    case Receive(d, g, m, op) => PerformFence(s.clients[d], 0, op);
      MessageInstallsNothing(s.clients[d], d, g, s.clients[d].woken[g], m);
  }

  lemma NewerIsInstalled(cl: Client, task: Task, op: Op, pc: Pc, born: Option<Born>, gen: Generation)
    requires FenceTask(cl, task) && FenceLocal(cl, task, op, pc, born) && gen in cl.installed
    ensures op.SetProcess? ==> op.proc.gen != gen
  {
  }

  lemma AbortInstallsNothing(cl: Client, t: TaskId)
    ensures !AbortOp(cl, t).SetProcess?
  {
  }

  lemma MessageInstallsNothing(cl: Client, c: ClientId, gen: Generation, handoff: bool, m: Message)
    ensures !Handle(cl, c, gen, handoff, m).SetProcess?
  {
  }

  /** A caller about to register for a generation whose process is gone was about to before. */
  lemma RegistersAsBefore(s: State, e: Event, u: TaskId, gen: Generation)
    requires AllLocksOk(s) && Enabled(s, e) && u in After(s, e).tasks
    requires var pc := After(s, e).tasks[u].pc; pc.Register? && pc.gen == gen
    requires u in s.tasks ==> s.tasks[u].client in s.clients && IsNotCurrent(s.clients[s.tasks[u].client], gen)
    ensures u in s.tasks && s.tasks[u] == After(s, e).tasks[u]
  {
    hide Act, Handle, Perform, Abortable, AbortOp, AllLocksOk, FenceLocal, SettleLocal;
    if e.Step? && e.t == u {
      EventFenceLocal(s, e);
      StepSettles(s, e);
      RegisterIsCurrent(s.clients[s.tasks[u].client], s.tasks[u], e.effect.op, e.effect.pc, e.effect.born);
    }
  }

  lemma RegisterIsCurrent(cl: Client, task: Task, op: Op, pc: Pc, born: Option<Born>)
    requires FenceLocal(cl, task, op, pc, born) && SettleLocal(cl, task, op, pc) && pc.Register?
    ensures IsCurrent(cl, Some(pc.gen))
  {
  }

  lemma {:induction false} RegisteringSince(r: Trace, maxProcesses: nat, k: nat, m: nat, c: ClientId, u: TaskId,
                                            gen: Generation)
    requires IsRun(r, maxProcesses) && k <= m < |r.states| && c in r.states[k].clients
    requires IsNotCurrent(r.states[k].clients[c], gen) && gen in r.states[k].clients[c].installed
    requires u in r.states[m].tasks && r.states[m].tasks[u].client == c
    requires r.states[m].tasks[u].pc.Register? && r.states[m].tasks[u].pc.gen == gen
    ensures u in r.states[k].tasks && r.states[k].tasks[u] == r.states[m].tasks[u]
    decreases m
  {
    hide After, Enabled, Initial, AllLocksOk, AllFenced, IsNotCurrent;
    if k < m {
      GoneSince(r, maxProcesses, k, m - 1, c, gen);
      RunLocks(r, maxProcesses, m - 1);
      ClientIsSame(r.states[m - 1], r.events[m - 1], u);
      RegistersAsBefore(r.states[m - 1], r.events[m - 1], u, gen);
      RegisteringSince(r, maxProcesses, k, m - 1, c, u, gen);
    }
  }

  lemma ClientIsSame(s: State, e: Event, u: TaskId)
    requires AllLocksOk(s) && Enabled(s, e) && u in After(s, e).tasks
    ensures u in s.tasks ==>
              s.tasks[u].client == After(s, e).tasks[u].client && s.tasks[u].role == After(s, e).tasks[u].role
              && s.tasks[u].client in s.clients
  {
    hide Act, Handle, Perform, Abortable, AbortOp, LocksOk;
  }

  lemma {:induction false} GoneSince(r: Trace, maxProcesses: nat, k: nat, m: nat, c: ClientId, gen: Generation)
    requires IsRun(r, maxProcesses) && k <= m < |r.states| && c in r.states[k].clients
    requires IsNotCurrent(r.states[k].clients[c], gen) && gen in r.states[k].clients[c].installed
    ensures c in r.states[m].clients
    ensures IsNotCurrent(r.states[m].clients[c], gen) && gen in r.states[m].clients[c].installed
    decreases m
  {
    hide After, Enabled, Initial, AllLocksOk, AllFenced, IsNotCurrent;
    if k < m {
      GoneSince(r, maxProcesses, k, m - 1, c, gen);
      RunLocks(r, maxProcesses, m - 1);
      RunFence(r, maxProcesses, m - 1);
      StaysGone(r.states[m - 1], r.events[m - 1], c, gen);
    }
  }

  /** A finaliser that reaches the failure under its guard has seen the process of its generation go. */
  predicate LateLocal(cl: Client, task: Task, op: Op, pc: Pc) {
    task.role.Supervise? && pc.LateFail? ==>
      task.pc.ClearProcess? && !op.SetProcess? && (IsCurrent(cl, Some(task.role.gen)) ==> op.RemoveProcess?)
  }

  lemma LateStep(cl: Client, task: Task, slotFree: bool, child: Option<Outcome>, spare: TaskId, ch: Choice)
    requires Fits(task) && task.role.Supervise?
    ensures var eff := Act(cl, task, slotFree, child, spare, ch);
            eff.Some? ==> LateLocal(cl, task, eff.value.op, eff.value.pc)
  {
    hide AfterClose, HasWork, OfGeneration;
  }

  lemma LateEvent(s: State, e: Event, t: TaskId)
    requires AllLocksOk(s) && AllFenced(s) && Enabled(s, e) && t in After(s, e).tasks
    requires After(s, e).tasks[t].role.Supervise? && After(s, e).tasks[t].pc.LateFail?
    ensures t in s.tasks && s.tasks[t].client == After(s, e).tasks[t].client && s.tasks[t].client in s.clients
    ensures s.tasks[t].role == After(s, e).tasks[t].role
    ensures s.tasks[t] == After(s, e).tasks[t]
            || IsNotCurrent(After(s, e).clients[s.tasks[t].client], s.tasks[t].role.gen)
  {
    hide Act, Handle, Perform, Abortable, AbortOp, AllLocksOk, AllFenced, Fits, LateLocal, IsNotCurrent;
    assert t in s.tasks;
    ClientIsSame(s, e, t);
    if e.Step? && e.t == t {
      var task := s.tasks[t];
      TaskLocks(s, t);
      LateStep(s.clients[task.client], task, s.permits > 0, ChildOutcome(s, task.pc), e.spare, e.choice);
      ClearedIsGone(s.clients[task.client], t, task, e.effect.op, e.effect.pc);
    }
  }

  lemma ClearedIsGone(cl: Client, t: TaskId, task: Task, op: Op, pc: Pc)
    requires LateLocal(cl, task, op, pc) && task.role.Supervise? && pc.LateFail?
    ensures IsNotCurrent(Perform(cl, t, op), task.role.gen)
  {
    hide Perform;
    PerformFence(cl, t, op);
  }

  lemma {:induction false} LateIsGone(r: Trace, maxProcesses: nat, k: nat, t: TaskId)
    requires IsRun(r, maxProcesses) && k < |r.states| && t in r.states[k].tasks
    requires r.states[k].tasks[t].role.Supervise? && r.states[k].tasks[t].pc.LateFail?
    ensures r.states[k].tasks[t].client in r.states[k].clients
    ensures var task := r.states[k].tasks[t]; var cl := r.states[k].clients[task.client];
            IsNotCurrent(cl, task.role.gen) && task.role.gen in cl.installed
    decreases k
  {
    hide After, Enabled, AllLocksOk, AllFenced, IsNotCurrent;
    assert k > 0;
    var s, e := r.states[k - 1], r.events[k - 1];
    RunLocks(r, maxProcesses, k - 1);
    RunFence(r, maxProcesses, k - 1);
    LateEvent(s, e, t);
    RunFence(r, maxProcesses, k);
    ServingIsInstalled(r.states[k], t);
    if s.tasks[t] == r.states[k].tasks[t] {
      LateIsGone(r, maxProcesses, k - 1, t);
      StaysGone(s, e, s.tasks[t].client, s.tasks[t].role.gen);
    }
  }

  lemma ServingIsInstalled(s: State, t: TaskId)
    requires AllFenced(s) && t in s.tasks && s.tasks[t].role.Supervise? && s.tasks[t].pc.LateFail?
    ensures s.tasks[t].client in s.clients && s.tasks[t].role.gen in s.clients[s.tasks[t].client].installed
  {
    assert FenceTask(s.clients[s.tasks[t].client], s.tasks[t]) && FenceClient(s.clients[s.tasks[t].client]);
  }

  /** Whatever is pending for a generation after its finaliser failed it was registered by a caller
      that, at the failure, had picked the generation and was just about to register. */
  lemma LateFailureMisses(r: Trace, maxProcesses: nat, k: nat, j: nat, id: RequestId) returns (u: TaskId)
    requires IsRun(r, maxProcesses) && k < j < |r.states| && r.events[k].Step? && r.events[k].t in r.states[k].tasks
    requires r.states[k].tasks[r.events[k].t].role.Supervise? && r.states[k].tasks[r.events[k].t].pc.LateFail?
    requires var task := r.states[k].tasks[r.events[k].t];
             task.client in r.states[j].clients && IsPendingOf(r.states[j].clients[task.client], id, task.role.gen)
    ensures var task := r.states[k].tasks[r.events[k].t];
            && u in r.states[k].tasks && r.states[k].tasks[u].client == task.client
            && r.states[k].tasks[u].pc.Register? && r.states[k].tasks[u].pc.id == id
              && r.states[k].tasks[u].pc.gen == task.role.gen
    ensures CameAfter(r, k, j, r.states[k].tasks[r.events[k].t].client, id, r.states[k].tasks[r.events[k].t].role.gen)
  {
    hide After, AllLocksOk, AllFenced, IsNotCurrent, IsPendingOf, Act, TakesOut, StaysIn;
    var s, t := r.states[k], r.events[k].t;
    var c, gen := s.tasks[t].client, s.tasks[t].role.gen;
    LateIsGone(r, maxProcesses, k, t);
    RunLocks(r, maxProcesses, k);
    LateFailOp(s, r.events[k]);
    LeftPending(r, maxProcesses, k, j, c, id, gen);
    var m :| k < m < j && WasRegisteredAt(r, m, j, c, id, gen);
    u := Registrar(r.states[m], r.events[m], c, id, gen);
    RegisteringSince(r, maxProcesses, k, m, c, u, gen);
  }

  lemma LateFailOp(s: State, e: Event)
    requires AllLocksOk(s) && Enabled(s, e) && e.Step?
    requires s.tasks[e.t].role.Supervise? && s.tasks[e.t].pc.LateFail?
    ensures e.effect.op == TakeGeneration(s.tasks[e.t].role.gen)
  {
    hide AllLocksOk;
  }

  lemma Registrar(s: State, e: Event, c: ClientId, id: RequestId, gen: Generation) returns (u: TaskId)
    requires Enabled(s, e) && OpOn(s, e, c) == Insert(id, gen)
    ensures u in s.tasks && s.tasks[u].client == c && s.tasks[u].pc.Register? && s.tasks[u].pc.id == id
            && s.tasks[u].pc.gen == gen
  {
    hide Act, Abortable;
    assert e.Step?;
    StepSettles(s, e);
    u := e.t;
  }

  // ----- who can still register after any failure -----

  /** A caller comes to its registration only by picking the installed process. */
  lemma RegistersOrPicks(s: State, e: Event, u: TaskId)
    requires AllLocksOk(s) && Enabled(s, e) && u in After(s, e).tasks && After(s, e).tasks[u].pc.Register?
    ensures u in s.tasks && s.tasks[u].client in s.clients && s.tasks[u].client == After(s, e).tasks[u].client
    ensures s.tasks[u] == After(s, e).tasks[u]
            || Picks(s, e, u, After(s, e).tasks[u].pc.id, After(s, e).tasks[u].pc.gen)
  {
    hide Act, Handle, Perform, Abortable, AbortOp, AllLocksOk, FenceLocal, SettleLocal;
    ClientIsSame(s, e, u);
    if e.Step? && e.t == u {
      EventFenceLocal(s, e);
      StepSettles(s, e);
      RegisterIsCurrent(s.clients[s.tasks[u].client], s.tasks[u], e.effect.op, e.effect.pc, e.effect.born);
      PicksItsId(s.clients[s.tasks[u].client], s.tasks[u], e.effect.op, e.effect.pc);
    }
  }

  lemma PicksItsId(cl: Client, task: Task, op: Op, pc: Pc)
    requires SettleLocal(cl, task, op, pc) && pc.Register?
    ensures task.pc.Snapshot? && task.pc.id == pc.id
  {
  }

  /** The event is the step of a caller with this id that finds the generation installed. */
  predicate Picks(s: State, e: Event, u: TaskId, id: RequestId, gen: Generation) {
    && e.Step? && e.t == u && u in s.tasks && s.tasks[u].client in s.clients
    && s.tasks[u].pc.Snapshot? && s.tasks[u].pc.id == id && IsCurrent(s.clients[s.tasks[u].client], Some(gen))
  }

  lemma {:induction false} PickedBefore(r: Trace, maxProcesses: nat, m: nat, u: TaskId) returns (n: nat)
    requires IsRun(r, maxProcesses) && m < |r.states| && u in r.states[m].tasks && r.states[m].tasks[u].pc.Register?
    ensures n < m && Picks(r.states[n], r.events[n], u, r.states[m].tasks[u].pc.id, r.states[m].tasks[u].pc.gen)
    ensures r.states[n].tasks[u].client == r.states[m].tasks[u].client
    decreases m
  {
    hide After, Enabled, AllLocksOk, Picks;
    assert m > 0;
    RunLocks(r, maxProcesses, m - 1);
    RegistersOrPicks(r.states[m - 1], r.events[m - 1], u);
    if r.states[m - 1].tasks[u] == r.states[m].tasks[u] {
      n := PickedBefore(r, maxProcesses, m - 1, u);
    } else {
      n := m - 1;
      assert Picks(r.states[n], r.events[n], u, r.states[m].tasks[u].pc.id, r.states[m].tasks[u].pc.gen);
      PickerIsThere(r.states[n], r.events[n], u, r.states[m].tasks[u].pc.id, r.states[m].tasks[u].pc.gen);
    }
  }

  lemma PickerIsThere(s: State, e: Event, u: TaskId, id: RequestId, gen: Generation)
    requires Picks(s, e, u, id, gen)
    ensures u in s.tasks && s.tasks[u].client in s.clients && !IsNotCurrent(s.clients[s.tasks[u].client], gen)
  {
  }

  /** The caller u of client c picked the generation by event n and registered its request by event m. */
  ghost predicate WasPicked(r: Trace, c: ClientId, u: TaskId, n: nat, m: nat, id: RequestId, gen: Generation)
    requires |r.states| == |r.events| + 1
  {
    && n < m < |r.events| && OpOn(r.states[m], r.events[m], c) == Insert(id, gen)
    && u in r.states[n].tasks && r.states[n].tasks[u].client == c && Picks(r.states[n], r.events[n], u, id, gen)
  }

  /** Whatever is pending for a generation after it was failed, by whom and when ever, was registered
      since by a caller that picked the generation while its process was installed: after an early
      failure perhaps later than the failure, but never once a finaliser has removed the process. */
  lemma FailureMisses(r: Trace, maxProcesses: nat, k: nat, j: nat, c: ClientId, id: RequestId, gen: Generation)
    returns (u: TaskId, n: nat, m: nat)
    requires IsRun(r, maxProcesses) && k < j < |r.states| && c in r.states[k].clients && c in r.states[j].clients
    requires OpOn(r.states[k], r.events[k], c) == TakeGeneration(gen) && IsPendingOf(r.states[j].clients[c], id, gen)
    ensures k < m < j && WasPicked(r, c, u, n, m, id, gen)
    ensures forall x: nat | x < |r.states| && IsGone(r.states[x], c, gen) :: n < x
  {
    hide After, Enabled, Initial, AllLocksOk, AllFenced, IsNotCurrent, IsPendingOf, TakesOut, StaysIn, Picks, IsGone,
         OpOn;
    LeftPending(r, maxProcesses, k, j, c, id, gen);
    m :| k < m < j && WasRegisteredAt(r, m, j, c, id, gen);
    u := Registrar(r.states[m], r.events[m], c, id, gen);
    n := PickedBefore(r, maxProcesses, m, u);
    PickerIsThere(r.states[n], r.events[n], u, id, gen);
    forall x: nat | x < |r.states| && IsGone(r.states[x], c, gen) ensures n < x {
      if x <= n {
        NotAgain(r, maxProcesses, x, n, c, gen);
      }
    }
  }

  /** The process of the generation was installed and is no more. */
  predicate IsGone(s: State, c: ClientId, gen: Generation) {
    c in s.clients && IsNotCurrent(s.clients[c], gen) && gen in s.clients[c].installed
  }

  lemma NotAgain(r: Trace, maxProcesses: nat, x: nat, n: nat, c: ClientId, gen: Generation)
    requires IsRun(r, maxProcesses) && x <= n < |r.states| && IsGone(r.states[x], c, gen)
    ensures c in r.states[n].clients && IsNotCurrent(r.states[n].clients[c], gen)
  {
    hide IsRun, IsNotCurrent;
    GoneSince(r, maxProcesses, x, n, c, gen);
  }
}
