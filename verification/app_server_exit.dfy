/** What two kinds of events from outside bring about: a message of the server does to its client what
    its kind calls for, and a process that exits has its generation failed, before its supervisor
    waits for anybody and at the latest before it is done. */
module AppServerExit {
  import opened Text
  import opened AppServer
  import opened AppServerLocks
  import opened AppServerFence
  import opened AppServerSettle
  import opened AppServerLate
  import opened AppServerWaits

  // ----- messages -----

  /** A response to a pending request is on the caller's channel at once, whatever it says, and the
      request is no longer pending; a response to anything else changes nothing. */
  lemma ResponseIsDelivered(s: State, e: Event, id: RequestId, a: Answer)
    requires Enabled(s, e) && e.Receive? && e.message == Response(id, a)
    ensures e.client in s.clients && After(s, e).tasks == s.tasks && After(s, e).permits == s.permits
    ensures After(s, e).clients == s.clients[e.client := After(s, e).clients[e.client]]
    ensures var cl, cl' := s.clients[e.client], After(s, e).clients[e.client];
            if id in cl.pending then
              cl' == cl.(pending := cl.pending - {id}, channels := cl.channels[id := Sent(Reply(a))],
                         replies := cl.replies + {(id, a)})
            else cl' == cl
  {
  }

  /** Turns come and go as the server says, and a request of the server is on the list with the
      generation it came from. */
  lemma NoticeIsRecorded(s: State, e: Event)
    requires Enabled(s, e) && e.Receive? && !e.message.Response?
    ensures e.client in s.clients && After(s, e).tasks == s.tasks && After(s, e).permits == s.permits
    ensures After(s, e).clients == s.clients[e.client := After(s, e).clients[e.client]]
    ensures e.gen in s.clients[e.client].woken
    ensures var cl, cl' := s.clients[e.client], After(s, e).clients[e.client];
            match e.message
            case TurnStarted(turn) => cl' == cl.(turns := cl.turns[turn := e.gen])
            case TurnCompleted(turn) => cl' == cl.(turns := cl.turns - {turn})
            case ServerRequest(key, name, params) =>
              cl' == cl.(requests := cl.requests[key := Observed(key, name, params, e.client, e.gen, cl.woken[e.gen])])
            case Response(_, _) => true
  {
  }

  // ----- what may happen -----

  /** Whatever the state, any message may come from a generation that was let begin, a call of any kind may
      come for any client, and a process may exit or be shut down at any time. */
  lemma AnyMessageMayCome(s: State, c: ClientId, gen: Generation, m: Message)
    requires c in s.clients && gen in s.clients[c].woken
    ensures exists op :: Enabled(s, Receive(c, gen, m, op))
  {
    assert Enabled(s, Receive(c, gen, m, Handle(s.clients[c], c, gen, s.clients[c].woken[gen], m)));
  }

  lemma AnyCallMayCome(s: State, c: ClientId, role: Role, t: TaskId)
    requires c in s.clients && t !in s.tasks && !role.Startup? && !role.Supervise?
    ensures Enabled(s, Arrive(c, role, t))
  {
  }

  lemma AnyExitMayCome(s: State, t: TaskId, ch: Choice)
    requires AllLocksOk(s) && t in s.tasks && s.tasks[t].role.Supervise? && s.tasks[t].pc.Serving?
    requires ch.Exit? || ch.ShutDown?
    ensures exists spare, eff :: Enabled(s, Step(t, ch, spare, eff))
  {
    hide AllLocksOk;
    TaskLocks(s, t);
    var task := s.tasks[t];
    var spare := FreshTask(s.tasks.Keys);
    var eff := Act(s.clients[task.client], task, s.permits > 0, ChildOutcome(s, task.pc), spare, ch).value;
    assert Enabled(s, Step(t, ch, spare, eff));
  }

  // ----- waking up -----

  /** A caller whose sender has been used, or has been dropped, is not kept waiting, and is told just what
      the sender carried: the answer, the failure of its process, or that nothing will come. */
  lemma LetterIsTaken(s: State, e: Event, id: RequestId)
    requires Enabled(s, e) && e.Step? && s.tasks[e.t].pc.Wait? && s.tasks[e.t].pc.id == id && e.choice != Expire
    ensures var cl := s.clients[s.tasks[e.t].client];
            id in cl.channels && match cl.channels[id]
                                 case Sent(Reply(a)) => e.effect.op == Settle(id, Replied(a))
                                 case Sent(GenerationFailed) => e.effect.op == Settle(id, Failed)
                                 case Dropped => e.effect.op == Settle(id, ChannelLost)
                                 case _ => false
  {
  }

  lemma LetterWakes(s: State, t: TaskId, id: RequestId)
    requires AllLocksOk(s) && t in s.tasks && s.tasks[t].client in s.clients
    requires s.tasks[t].pc.Wait? && s.tasks[t].pc.id == id
    requires var cl := s.clients[s.tasks[t].client];
             id in cl.channels && (cl.channels[id].Sent? || cl.channels[id].Dropped?)
    ensures exists spare, eff :: Enabled(s, Step(t, Go, spare, eff))
  {
    hide AllLocksOk;
    var task := s.tasks[t];
    var spare := FreshTask(s.tasks.Keys);
    var eff := Act(s.clients[task.client], task, s.permits > 0, ChildOutcome(s, task.pc), spare, Go).value;
    assert Enabled(s, Step(t, Go, spare, eff));
  }

  /** A deadline that passes while a request is written or waits for its answer ends it there: the caller
      gives it up, and nothing that comes later is taken for its answer. */
  lemma DeadlineEndsIt(s: State, e: Event, id: RequestId)
    requires Enabled(s, e) && e.Step? && e.choice == Expire && (s.tasks[e.t].pc.Write? || s.tasks[e.t].pc.Wait?)
    requires s.tasks[e.t].pc.id == id
    ensures e.effect.op == Nop || e.effect.op == CloseReceiver(id)
    ensures e.effect.pc.Forget? && e.effect.pc.id == id && e.effect.pc.why == TimedOut
    ensures e.effect.pc.gen == s.tasks[e.t].pc.gen
  {
  }

  /** A supervisor can be aborted wherever it awaits, and then holds nothing any more. */
  lemma AbortsAnywhere(s: State, t: TaskId)
    requires t in s.tasks && s.tasks[t].client in s.clients
    ensures Enabled(s, Abort(t)) <==>
              s.tasks[t].role.Supervise? && !s.tasks[t].pc.Done? && !s.tasks[t].pc.EarlySend?
              && !s.tasks[t].pc.LateSend?
    ensures Enabled(s, Abort(t)) ==>
              var cl, s' := s.clients[s.tasks[t].client], After(s, Abort(t));
              && s'.tasks == s.tasks[t := s.tasks[t].(pc := Done(Closed))] && s'.permits == s.permits
              && s'.clients == s.clients[s.tasks[t].client := if cl.start == Some(t) then cl.(start := None) else cl]
  {
  }

  // ----- what a task did itself -----

  /** Event n is a step of the task that does this to its client. */
  predicate DoesAt(r: Trace, n: nat, t: TaskId, op: Op) {
    n < |r.events| && r.events[n].Step? && r.events[n].t == t && r.events[n].effect.op == op
  }

  /** The task did this itself, from event `from` on and before event `to`. */
  ghost predicate Did(r: Trace, from: nat, to: nat, t: TaskId, op: Op) {
    exists n: nat :: from <= n < to && DoesAt(r, n, t, op)
  }

  lemma DidMore(r: Trace, from: nat, to: nat, t: TaskId, op: Op)
    requires from <= to < |r.events|
    ensures Did(r, from, to + 1, t, op) <==> Did(r, from, to, t, op) || DoesAt(r, to, t, op)
  {
    hide DoesAt;
  }

  // ----- exits -----

  /** At event k the supervisor learns that its process has exited. */
  predicate TakesExit(r: Trace, k: nat, t: TaskId)
    requires |r.states| == |r.events| + 1 && k < |r.events|
  {
    && r.events[k].Step? && r.events[k].t == t && r.events[k].choice.Exit?
    && t in r.states[k].tasks && r.states[k].tasks[t].role.Supervise? && r.states[k].tasks[t].pc.Serving?
  }

  /** It is the connection to a daemon that was lost, and the daemon is alive. */
  predicate IsAlive(r: Trace, k: nat, t: TaskId)
    requires |r.states| == |r.events| + 1 && k < |r.events| && TakesExit(r, k, t)
  {
    r.states[k].tasks[t].role.handoff && r.events[k].choice.alive
  }

  /** Where the supervisor is, as far as it has failed its generation, removed its process, and
      cleared the turns and the requests. */
  predicate IsAt(pc: Pc, alive: bool, failed: bool, removed: bool, turns: bool, requests: bool) {
    match pc
    case TryGuard(a) => a == alive && !failed && !removed && !turns && !requests
    case EarlyFail(a) => a == alive && !failed && !removed && !turns && !requests
    case EarlySend(a, _) => a == alive && failed && !removed && !turns && !requests
    case AwaitGuard(a) => a == alive && failed && !removed && !turns && !requests
    case ClearProcess(a, f) => a == alive && f == failed && !removed && !turns && !requests
    case LateFail(a, cleared) => a == alive && !failed && removed == cleared && !turns && !requests
    case LateSend(a, cleared, _) => a == alive && failed && removed == cleared && !turns && !requests
    case ClearWork(a, cleared) => a == alive && failed && removed == cleared && !turns && !requests
    case ClearRequests => failed && removed && !alive && turns && !requests
    case LeaveGuard => failed && turns == requests == (removed && !alive)
    case _ => false
  }

  /** The way from one place to the next, with what the operation adds. */
  predicate LeadsOn(gen: Generation, pc: Pc, op: Op, next: Pc, alive: bool, failed: bool, removed: bool, turns: bool,
                    requests: bool) {
    if op == ExitStart then pc.LeaveGuard? && next.Done?
    else !(failed && op == TakeGeneration(gen))
         && IsAt(next, alive, failed || op == TakeGeneration(gen), removed || op == RemoveProcess,
                 turns || op == ClearTurns, requests || op == ClearAllRequests)
  }

  lemma WatchGoesOn(cl: Client, gen: Generation, handoff: bool, pc: Pc, ch: Choice, alive: bool, failed: bool,
                    removed: bool,
                    turns: bool, requests: bool)
    requires IsAt(pc, alive, failed, removed, turns, requests) && InWatch(pc)
    ensures var eff := Watch(cl, gen, handoff, pc, ch);
            eff.Some? ==> LeadsOn(gen, pc, eff.value.op, eff.value.pc, alive, failed, removed, turns, requests)
  {
    hide OfGeneration;
  }

  lemma FailingGoesOn(cl: Client, gen: Generation, pc: Pc, ch: Choice, alive: bool, failed: bool, removed: bool,
                        turns: bool, requests: bool)
    requires IsAt(pc, alive, failed, removed, turns, requests) && (pc.ClearProcess? || pc.LateFail? || pc.LateSend?)
    ensures var eff := Finalise(cl, gen, pc, ch);
            eff.Some? ==> LeadsOn(gen, pc, eff.value.op, eff.value.pc, alive, failed, removed, turns, requests)
  {
    hide OfGeneration;
  }

  lemma ClearingGoesOn(cl: Client, gen: Generation, pc: Pc, ch: Choice, alive: bool, failed: bool, removed: bool,
                        turns: bool, requests: bool)
    requires IsAt(pc, alive, failed, removed, turns, requests) && (pc.ClearWork? || pc.ClearRequests? || pc.LeaveGuard?)
    ensures var eff := Finalise(cl, gen, pc, ch);
            eff.Some? ==> LeadsOn(gen, pc, eff.value.op, eff.value.pc, alive, failed, removed, turns, requests)
  {
    hide OfGeneration;
  }

  lemma FinaliserGoesOn(cl: Client, gen: Generation, pc: Pc, ch: Choice, alive: bool, failed: bool, removed: bool,
                        turns: bool, requests: bool)
    requires IsAt(pc, alive, failed, removed, turns, requests) && !InWatch(pc)
    ensures var eff := Finalise(cl, gen, pc, ch);
            eff.Some? ==> LeadsOn(gen, pc, eff.value.op, eff.value.pc, alive, failed, removed, turns, requests)
  {
    hide Finalise, LeadsOn;
    if pc.ClearProcess? || pc.LateFail? || pc.LateSend? {
      FailingGoesOn(cl, gen, pc, ch, alive, failed, removed, turns, requests);
    } else {
      ClearingGoesOn(cl, gen, pc, ch, alive, failed, removed, turns, requests);
    }
  }

  lemma IsWithSupervisor(pc: Pc, alive: bool, failed: bool, removed: bool, turns: bool, requests: bool)
    requires IsAt(pc, alive, failed, removed, turns, requests)
    ensures !InEnter(pc) && !InRespond(pc) && !InStart(pc) && !InSpawn(pc) && !InMakeRoom(pc) && !InRequest(pc)
            && !InShut(pc) && !InDispose(pc)
  {
  }

  lemma GoesOnFrom(cl: Client, task: Task, slotFree: bool, child: Option<Outcome>, spare: TaskId, ch: Choice,
                   alive: bool, failed: bool, removed: bool, turns: bool, requests: bool)
    requires task.role.Supervise? && IsAt(task.pc, alive, failed, removed, turns, requests)
    ensures var eff := Act(cl, task, slotFree, child, spare, ch);
            eff.Some? ==> LeadsOn(task.role.gen, task.pc, eff.value.op, eff.value.pc, alive, failed, removed, turns,
                                  requests)
  {
    hide IsAt, LeadsOn, Watch, Finalise, InEnter, InRespond, InStart, InSpawn, InMakeRoom, InRequest, InShut, InDispose,
         InWatch;
    IsWithSupervisor(task.pc, alive, failed, removed, turns, requests);
    if InWatch(task.pc) {
      WatchGoesOn(cl, task.role.gen, task.role.handoff, task.pc, ch, alive, failed, removed, turns, requests);
    } else {
      FinaliserGoesOn(cl, task.role.gen, task.pc, ch, alive, failed, removed, turns, requests);
    }
  }

  lemma ExitStarts(cl: Client, task: Task, slotFree: bool, child: Option<Outcome>, spare: TaskId, ch: Choice)
    requires task.role.Supervise? && task.pc.Serving? && ch.Exit?
    ensures var eff := Act(cl, task, slotFree, child, spare, ch);
            eff.Some? ==> eff.value.op == Nop && IsAt(eff.value.pc, task.role.handoff
                                                      && ch.alive, false, false, false, false)
  {
  }

  lemma ActsOfSupervisor(s: State, e: Event)
    requires Enabled(s, e) && e.Step? && s.tasks[e.t].role.Supervise?
    ensures e.t in After(s, e).tasks && After(s, e).tasks[e.t] == s.tasks[e.t].(pc := e.effect.pc)
    ensures s.tasks[e.t].pc.Serving? && e.choice.Exit? ==>
              e.effect.op == Nop && IsAt(e.effect.pc, s.tasks[e.t].role.handoff
                                         && e.choice.alive, false, false, false, false)
    ensures !s.tasks[e.t].pc.Done?
  {
    hide Act, IsAt, Perform;
    var task := s.tasks[e.t];
    if task.pc.Serving? && e.choice.Exit? {
      ExitStarts(s.clients[task.client], task, s.permits > 0, ChildOutcome(s, task.pc), e.spare, e.choice);
    }
    if task.pc.Done? {
      NothingAfterDone(s.clients[task.client], task, s.permits > 0, ChildOutcome(s, task.pc), e.spare, e.choice);
    }
  }

  lemma NothingAfterDone(cl: Client, task: Task, slotFree: bool, child: Option<Outcome>, spare: TaskId, ch: Choice)
    requires task.pc.Done?
    ensures Act(cl, task, slotFree, child, spare, ch) == None
  {
  }

  lemma DoneStays(s: State, e: Event, t: TaskId)
    requires Enabled(s, e) && t in s.tasks && s.tasks[t].pc.Done?
    ensures t in After(s, e).tasks && After(s, e).tasks[t] == s.tasks[t]
  {
    hide Act, Perform, Handle;
    if e.Step? && e.t == t {
      NothingAfterDone(s.clients[s.tasks[t].client], s.tasks[t], s.permits > 0, ChildOutcome(s, s.tasks[t].pc),
                       e.spare, e.choice);
    }
  }

  /** What the task did from event `from` until state `to`, told by where it is. */
  ghost predicate IsOnTheWay(r: Trace, from: nat, to: nat, t: TaskId, gen: Generation, alive: bool)
    requires to < |r.states|
  {
    && t in r.states[to].tasks
    && (r.states[to].tasks[t].pc.Done? ||
        IsAt(r.states[to].tasks[t].pc, alive, Did(r, from, to, t, TakeGeneration(gen)),
             Did(r, from, to, t, RemoveProcess),
             Did(r, from, to, t, ClearTurns), Did(r, from, to, t, ClearAllRequests)))
  }

  lemma {:induction false} StaysOnTheWay(r: Trace, maxProcesses: nat, k: nat, j: nat, t: TaskId)
    requires IsRun(r, maxProcesses) && k < j < |r.states| && TakesExit(r, k, t)
    ensures IsOnTheWay(r, k + 1, j, t, r.states[k].tasks[t].role.gen, IsAlive(r, k, t))
    ensures r.states[j].tasks[t].client == r.states[k].tasks[t].client
    ensures r.states[j].tasks[t].role == r.states[k].tasks[t].role
    decreases j
  {
    hide After, Initial, IsAt, AllLocksOk, Did, DoesAt, Enabled;
    var s, e := r.states[j - 1], r.events[j - 1];
    RunLocks(r, maxProcesses, j - 1);
    if j == k + 1 {
      ActsOfSupervisor(s, e);
      NothingYet(r, j, t);
    } else {
      StaysOnTheWay(r, maxProcesses, k, j - 1, t);
      WayGoesOn(r, k + 1, j - 1, t, r.states[k].tasks[t].role.gen, IsAlive(r, k, t));
    }
  }

  lemma NothingYet(r: Trace, n: nat, t: TaskId)
    ensures forall op :: !Did(r, n, n, t, op)
  {
  }

  lemma WayGoesOn(r: Trace, from: nat, j: nat, t: TaskId, gen: Generation, alive: bool)
    requires |r.states| == |r.events| + 1 && from <= j < |r.events|
    requires Enabled(r.states[j], r.events[j]) && r.states[j + 1] == After(r.states[j], r.events[j])
    requires AllLocksOk(r.states[j])
    requires IsOnTheWay(r, from, j, t, gen, alive) && r.states[j].tasks[t].role.Supervise?
    requires r.states[j].tasks[t].role.gen == gen
    ensures IsOnTheWay(r, from, j + 1, t, gen, alive)
    ensures r.states[j + 1].tasks[t].client == r.states[j].tasks[t].client
    ensures r.states[j + 1].tasks[t].role == r.states[j].tasks[t].role
  {
    hide After, IsAt, LeadsOn, AllLocksOk, Did, Enabled, Act;
    var s, e := r.states[j], r.events[j];
    DidMore(r, from, j, t, TakeGeneration(gen));
    DidMore(r, from, j, t, RemoveProcess);
    DidMore(r, from, j, t, ClearTurns);
    DidMore(r, from, j, t, ClearAllRequests);
    if s.tasks[t].pc.Done? {
      DoneStays(s, e, t);
    } else if e.Step? && e.t == t {
      OneStepOn(s, e, alive, Did(r, from, j, t, TakeGeneration(gen)), Did(r, from, j, t, RemoveProcess),
                Did(r, from, j, t, ClearTurns), Did(r, from, j, t, ClearAllRequests));
    } else {
      OthersLeave(s, e, t);
    }
  }

  lemma OneStepOn(s: State, e: Event, alive: bool, failed: bool, removed: bool, turns: bool, requests: bool)
    requires Enabled(s, e) && e.Step? && s.tasks[e.t].role.Supervise?
    requires IsAt(s.tasks[e.t].pc, alive, failed, removed, turns, requests)
    ensures e.t in After(s, e).tasks && After(s, e).tasks[e.t] == s.tasks[e.t].(pc := e.effect.pc)
    ensures var op, gen := e.effect.op, s.tasks[e.t].role.gen;
            if op == ExitStart then e.effect.pc.Done?
            else IsAt(e.effect.pc, alive, failed || op == TakeGeneration(gen), removed || op == RemoveProcess,
                      turns || op == ClearTurns, requests || op == ClearAllRequests)
  {
    hide Act, IsAt, Perform;
    var task := s.tasks[e.t];
    GoesOnFrom(s.clients[task.client], task, s.permits > 0, ChildOutcome(s, task.pc), e.spare, e.choice, alive, failed,
               removed, turns, requests);
  }

  lemma OthersLeave(s: State, e: Event, t: TaskId)
    requires Enabled(s, e) && t in s.tasks && !(e.Step? && e.t == t)
    ensures t in After(s, e).tasks
    ensures After(s, e).tasks[t] == s.tasks[t] || After(s, e).tasks[t] == s.tasks[t].(pc := Done(Closed))
  {
    hide Act, Perform, Handle;
  }

  /** The entry was filed, and what is pending under its number still waits for the generation. */
  predicate IsFiled(cl: Client, id: RequestId, gen: Generation) {
    id in cl.channels && (id in cl.pending ==> cl.pending[id] == gen)
  }

  lemma FiledAfterOp(cl: Client, t: TaskId, op: Op, id: RequestId, gen: Generation)
    requires BooksOk(cl) && SettledOp(cl, t, op) && IsFiled(cl, id, gen)
    ensures IsFiled(Perform(cl, t, op), id, gen)
  {
    hide Perform, OfGeneration, OutcomeOk;
    assert op.GiveUp? ==> IdOk(cl, op.id);
    PerformBooks(cl, t, op);
    PerformChannel(cl, t, op, id);
  }

  lemma FiledAfterEvent(s: State, e: Event, c: ClientId, id: RequestId, gen: Generation)
    requires AllSettle(s) && Enabled(s, e) && EventSettled(s, e) && c in s.clients && IsFiled(s.clients[c], id, gen)
    ensures c in After(s, e).clients && IsFiled(After(s, e).clients[c], id, gen)
  {
    hide Act, Handle, Perform, SettledOp, BooksOk, RepliesOk, NothingLost, SettleTask, Abortable, AbortOp, IdOk,
         IsFiled;
    var cl := s.clients[c];
    ClientBooks(cl, c, s.tasks);
    match e
    case Arrive(_, _, _) =>
    case Step(t, _, _, eff) => if s.tasks[t].client == c { FiledAfterOp(cl, t, eff.op, id, gen); }
    case Abort(t) => if s.tasks[t].client == c { FiledAfterOp(cl, t, AbortOp(cl, t), id, gen); }
    case Receive(d, _, _, op) => if d == c { FiledAfterOp(cl, 0, op, id, gen); }
  }

  lemma {:induction false} StaysFiled(r: Trace, maxProcesses: nat, i: nat, j: nat, c: ClientId, id: RequestId,
                                      gen: Generation)
    requires IsRun(r, maxProcesses) && i <= j < |r.states| && c in r.states[i].clients
    requires IsFiled(r.states[i].clients[c], id, gen)
    ensures c in r.states[j].clients && IsFiled(r.states[j].clients[c], id, gen)
    decreases j
  {
    hide After, Enabled, Initial, AllSettle, AllLocksOk, EventSettled, IsFiled;
    if i < j {
      StaysFiled(r, maxProcesses, i, j - 1, c, id, gen);
      RunSettles(r, maxProcesses, j - 1);
      RunLocks(r, maxProcesses, j - 1);
      AfterSettles(r.states[j - 1], r.events[j - 1]);
      FiledAfterEvent(r.states[j - 1], r.events[j - 1], c, id, gen);
    }
  }

  /** An entry that has left `pending` does not come back. */
  lemma StaysOut(r: Trace, maxProcesses: nat, i: nat, j: nat, c: ClientId, id: RequestId)
    requires IsRun(r, maxProcesses) && i <= j < |r.states| && c in r.states[i].clients
    requires id in r.states[i].clients[c].channels && id !in r.states[i].clients[c].pending
    ensures c in r.states[j].clients && id !in r.states[j].clients[c].pending
  {
    hide IsRun, OutcomeOk, AllSettle, BooksOk;
    OutcomesStay(r, maxProcesses, i, j, c);
    assert IdStays(r.states[i].clients[c], r.states[j].clients[c], id);
    RunSettles(r, maxProcesses, i);
    RunSettles(r, maxProcesses, j);
    FileOf(r.states[i], c, id);
    FileOf(r.states[j], c, id);
  }

  lemma FailedSince(r: Trace, maxProcesses: nat, k: nat, m: nat, t: TaskId, id: RequestId)
    requires IsRun(r, maxProcesses) && k < m < |r.events| && TakesExit(r, k, t)
    requires var gen := r.states[k].tasks[t].role.gen; Did(r, k + 1, m, t, TakeGeneration(gen))
    requires r.states[k].tasks[t].client in r.states[k].clients
    requires var c, gen := r.states[k].tasks[t].client, r.states[k].tasks[t].role.gen;
             id in r.states[k].clients[c].pending && r.states[k].clients[c].pending[id] == gen
    ensures r.states[k].tasks[t].client in r.states[m].clients
    ensures id !in r.states[m].clients[r.states[k].tasks[t].client].pending
  {
    hide After, Enabled, Initial, AllSettle, IsAt, IsOnTheWay, IdOk;
    var c, gen := r.states[k].tasks[t].client, r.states[k].tasks[t].role.gen;
    var n: nat :| k + 1 <= n < m && DoesAt(r, n, t, TakeGeneration(gen));
    PendingIsFiled(r, maxProcesses, k, c, id);
    StaysFiled(r, maxProcesses, k, n, c, id, gen);
    StaysFiled(r, maxProcesses, k, n + 1, c, id, gen);
    StaysOnTheWay(r, maxProcesses, k, n, t);
    TakenOut(r.states[n], r.events[n], id, gen);
    StaysOut(r, maxProcesses, n + 1, m, c, id);
  }

  lemma PendingIsFiled(r: Trace, maxProcesses: nat, k: nat, c: ClientId, id: RequestId)
    requires IsRun(r, maxProcesses) && k < |r.states| && c in r.states[k].clients
             && id in r.states[k].clients[c].pending
    ensures IsFiled(r.states[k].clients[c], id, r.states[k].clients[c].pending[id])
  {
    hide IsRun, AllSettle, OutcomeOk;
    RunSettles(r, maxProcesses, k);
    FileOf(r.states[k], c, id);
  }

  lemma TakenOut(s: State, e: Event, id: RequestId, gen: Generation)
    requires Enabled(s, e) && e.Step? && e.effect.op == TakeGeneration(gen)
    requires IsFiled(s.clients[s.tasks[e.t].client], id, gen)
    ensures s.tasks[e.t].client in After(s, e).clients
    ensures id !in After(s, e).clients[s.tasks[e.t].client].pending
  {
    hide Act, Perform;
    PerformBooks(s.clients[s.tasks[e.t].client], e.t, e.effect.op);
  }

  lemma ClientOf(r: Trace, maxProcesses: nat, k: nat, t: TaskId)
    requires IsRun(r, maxProcesses) && k < |r.states| && t in r.states[k].tasks
    ensures r.states[k].tasks[t].client in r.states[k].clients
  {
    hide IsRun, LocksOk;
    RunLocks(r, maxProcesses, k);
  }

  lemma AtTheEnd(s: State, e: Event, alive: bool, failed: bool, removed: bool, turns: bool, requests: bool)
    requires Enabled(s, e) && e.Step? && e.effect.op == ExitStart && s.tasks[e.t].role.Supervise?
    requires s.tasks[e.t].pc.Done? || IsAt(s.tasks[e.t].pc, alive, failed, removed, turns, requests)
    ensures failed && turns == requests == (removed && !alive)
  {
    hide Act, Perform, HasRoomFor;
    var task := s.tasks[e.t];
    ActsOfSupervisor(s, e);
    GoesOnFrom(s.clients[task.client], task, s.permits > 0, ChildOutcome(s, task.pc), e.spare, e.choice, alive, failed,
               removed, turns, requests);
  }

  /** A supervisor that takes an exit and comes to the end of its finaliser has failed its generation in
      between, so that nothing that waited for the process at the exit waits for it still. It has cleared
      the turns and the requests exactly if it removed the process itself and the process is dead. */
  lemma ExitIsFinalised(r: Trace, maxProcesses: nat, k: nat, m: nat, t: TaskId)
    requires IsRun(r, maxProcesses) && k < m < |r.events| && TakesExit(r, k, t) && DoesAt(r, m, t, ExitStart)
    ensures var c, gen := r.states[k].tasks[t].client, r.states[k].tasks[t].role.gen;
            var removed := Did(r, k + 1, m, t, RemoveProcess);
            && Did(r, k + 1, m, t, TakeGeneration(gen))
            && (Did(r, k + 1, m, t, ClearTurns) <==> removed && !IsAlive(r, k, t))
            && (Did(r, k + 1, m, t, ClearAllRequests) <==> removed && !IsAlive(r, k, t))
            && c in r.states[k].clients && c in r.states[m].clients
            && forall id | id in r.states[k].clients[c].pending && r.states[k].clients[c].pending[id] == gen ::
                 id !in r.states[m].clients[c].pending
  {
    hide After, Enabled, Initial, Did, IsAt, AllLocksOk;
    var c, gen := r.states[k].tasks[t].client, r.states[k].tasks[t].role.gen;
    StaysOnTheWay(r, maxProcesses, k, m, t);
    AtTheEnd(r.states[m], r.events[m], IsAlive(r, k, t), Did(r, k + 1, m, t, TakeGeneration(gen)),
             Did(r, k + 1, m, t, RemoveProcess), Did(r, k + 1, m, t, ClearTurns), Did(r, k + 1, m, t,
                   ClearAllRequests));
    ClientOf(r, maxProcesses, k, t);
    OutcomesStay(r, maxProcesses, k, m, c);
    forall id | id in r.states[k].clients[c].pending && r.states[k].clients[c].pending[id] == gen
      ensures id !in r.states[m].clients[c].pending
    {
      FailedSince(r, maxProcesses, k, m, t, id);
    }
  }

  /** Until it has failed its generation the supervisor waits for nobody, whoever holds the start lock:
      the holder may itself be waiting for an answer of the process that is gone. */
  lemma FailsBeforeWaiting(r: Trace, maxProcesses: nat, k: nat, j: nat, t: TaskId)
    requires IsRun(r, maxProcesses) && k < j < |r.states| && TakesExit(r, k, t)
    requires t in r.states[j].tasks && !r.states[j].tasks[t].pc.Done?
    requires !Did(r, k + 1, j, t, TakeGeneration(r.states[k].tasks[t].role.gen))
    ensures CanStep(r.states[j], t)
  {
    hide After, Enabled, Initial, Did, IsAt, AllLocksOk, CanStep, IsBlocked;
    var cl := r.states[j].clients;
    StaysOnTheWay(r, maxProcesses, k, j, t);
    RunLocks(r, maxProcesses, j);
    ClientOf(r, maxProcesses, j, t);
    var task := r.states[j].tasks[t];
    UnfailedIsFree(cl[task.client], task, ChildOutcome(r.states[j], task.pc), IsAlive(r, k, t),
                   Did(r, k + 1, j, t, RemoveProcess), Did(r, k + 1, j, t, ClearTurns),
                   Did(r, k + 1, j, t, ClearAllRequests));
    FreeSteps(r.states[j], t);
  }

  /** And it fails it once only. */
  lemma FailsOnce(r: Trace, maxProcesses: nat, k: nat, j: nat, t: TaskId)
    requires IsRun(r, maxProcesses) && k < j < |r.events| && TakesExit(r, k, t)
    requires DoesAt(r, j, t, TakeGeneration(r.states[k].tasks[t].role.gen))
    ensures !Did(r, k + 1, j, t, TakeGeneration(r.states[k].tasks[t].role.gen))
  {
    hide After, Enabled, Initial, Did, IsAt, AllLocksOk;
    StaysOnTheWay(r, maxProcesses, k, j, t);
    NotAgain(r.states[j], r.events[j], IsAlive(r, k, t),
             Did(r, k + 1, j, t, TakeGeneration(r.states[k].tasks[t].role.gen)), Did(r, k + 1, j, t, RemoveProcess),
             Did(r, k + 1, j, t, ClearTurns), Did(r, k + 1, j, t, ClearAllRequests));
  }

  lemma NotAgain(s: State, e: Event, alive: bool, failed: bool, removed: bool, turns: bool, requests: bool)
    requires Enabled(s, e) && e.Step? && s.tasks[e.t].role.Supervise?
    requires s.tasks[e.t].pc.Done? || IsAt(s.tasks[e.t].pc, alive, failed, removed, turns, requests)
    requires e.effect.op == TakeGeneration(s.tasks[e.t].role.gen)
    ensures !failed
  {
    hide Act, Perform, HasRoomFor, IsAt;
    var task := s.tasks[e.t];
    ActsOfSupervisor(s, e);
    GoesOnFrom(s.clients[task.client], task, s.permits > 0, ChildOutcome(s, task.pc), e.spare, e.choice, alive, failed,
               removed, turns, requests);
  }

  lemma UnfailedIsFree(cl: Client, task: Task, child: Option<Outcome>, alive: bool, removed: bool, turns: bool,
                       requests: bool)
    requires IsAt(task.pc, alive, false, removed, turns, requests)
    ensures !IsBlocked(cl, task, child) && !task.pc.Parked?
  {
  }

  /** A supervisor that is shut down ends there and then. */
  lemma ShutDownEnds(s: State, e: Event)
    requires Enabled(s, e) && e.Step? && e.choice == ShutDown
    requires s.tasks[e.t].role.Supervise? && s.tasks[e.t].pc.Serving?
    ensures e.effect == Effect(Nop, Done(Closed), 0, None)
  {
  }

  predicate HasNoExit(pc: Pc) {
    pc.Parked? || pc.Serving? || pc.Done?
  }

  lemma BeforeExit(cl: Client, task: Task, slotFree: bool, child: Option<Outcome>, spare: TaskId, ch: Choice)
    requires task.role.Supervise? && HasNoExit(task.pc)
    ensures var eff := Act(cl, task, slotFree, child, spare, ch);
            eff.Some? ==>
              eff.value.op == Nop && eff.value.slots == 0
              && (HasNoExit(eff.value.pc) || (task.pc.Serving? && ch.Exit?))
  {
  }

  /** At some event before, the supervisor took an exit. */
  ghost predicate TookExit(r: Trace, j: nat, t: TaskId)
    requires |r.states| == |r.events| + 1 && j < |r.states|
  {
    exists k: nat :: k < j && TakesExit(r, k, t)
  }

  lemma {:induction false} PastExit(r: Trace, maxProcesses: nat, j: nat, t: TaskId)
    requires IsRun(r, maxProcesses) && j < |r.states| && t in r.states[j].tasks && r.states[j].tasks[t].role.Supervise?
    ensures HasNoExit(r.states[j].tasks[t].pc) || TookExit(r, j, t)
    decreases j
  {
    hide After, Enabled, Initial, TakesExit, AllLocksOk, HasNoExit;
    if j == 0 {
      NoTasksAtFirst(r.states[0], maxProcesses);
    } else {
      RunLocks(r, maxProcesses, j - 1);
      ClientIsSame(r.states[j - 1], r.events[j - 1], t);
      if t in r.states[j - 1].tasks {
        PastExit(r, maxProcesses, j - 1, t);
      }
      ExitStep(r, j - 1, t);
    }
  }

  lemma NoTasksAtFirst(s: State, maxProcesses: nat)
    requires Initial(s, maxProcesses)
    ensures s.tasks == map[]
  {
  }

  lemma ExitStep(r: Trace, i: nat, t: TaskId)
    requires |r.states| == |r.events| + 1 && i < |r.events| && Enabled(r.states[i], r.events[i])
    requires r.states[i + 1] == After(r.states[i], r.events[i]) && t in r.states[i + 1].tasks
    requires r.states[i + 1].tasks[t].role.Supervise?
    requires t in r.states[i].tasks ==>
               r.states[i].tasks[t].role.Supervise? && (HasNoExit(r.states[i].tasks[t].pc) || TookExit(r, i, t))
    ensures HasNoExit(r.states[i + 1].tasks[t].pc) || TookExit(r, i + 1, t)
  {
    hide Act, Perform, Handle, HasRoomFor;
    var s, e := r.states[i], r.events[i];
    if t in s.tasks && !TookExit(r, i, t) {
      if e.Step? && e.t == t {
        var task := s.tasks[t];
        BeforeExit(s.clients[task.client], task, s.permits > 0, ChildOutcome(s, task.pc), e.spare, e.choice);
        ActsOfSupervisor(s, e);
        assert TakesExit(r, i, t) || HasNoExit(e.effect.pc);
      } else {
        OthersLeave(s, e, t);
      }
    }
  }

  /** A supervisor does something to its client, the locks included, only once it has taken an exit. */
  lemma OnlyExitsAreFinalised(r: Trace, maxProcesses: nat, j: nat, t: TaskId)
    requires IsRun(r, maxProcesses) && j < |r.events| && r.events[j].Step? && r.events[j].t == t
    requires t in r.states[j].tasks && r.states[j].tasks[t].role.Supervise?
    requires r.events[j].effect.op != Nop || r.events[j].effect.slots != 0
    ensures TookExit(r, j, t)
  {
    hide After, Initial, TakesExit, HasNoExit, TookExit, Act;
    PastExit(r, maxProcesses, j, t);
    var s, e := r.states[j], r.events[j];
    var task := s.tasks[t];
    if HasNoExit(task.pc) {
      BeforeExit(s.clients[task.client], task, s.permits > 0, ChildOutcome(s, task.pc), e.spare, e.choice);
    }
  }
}
