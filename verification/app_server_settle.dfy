/** Exactly-once settlement: in every run each request id gets at most one outcome, which never
    changes; an id is either still with its caller or settled, and out of `pending` once it is;
    a reply comes only from a response that carried the id. */
module AppServerSettle {
  import opened Text
  import opened AppServer
  import opened AppServerLocks
  import opened AppServerFence

  // ----- what a program counter says about requests -----

  /** The request a caller is working on, from the number it drew to the outcome it records. */
  function ActiveId(pc: Pc): Option<RequestId> {
    match pc
    case Snapshot(_, id) => Some(id)
    case Register(_, id, _) => Some(id)
    case Write(_, id, _) => Some(id)
    case Wait(_, id, _) => Some(id)
    case Forget(_, id, _, _) => Some(id)
    case _ => None
  }

  /** The senders that `fail_pending_requests` took out and has not used yet. */
  function SendIds(pc: Pc): set<RequestId> {
    match pc
    case SendFailures(ids, _, _) => ids
    case EarlySend(_, ids) => ids
    case LateSend(_, _, ids) => ids
    case _ => {}
  }

  /** The answer that a caller is about to return, or has returned. */
  function ResultOf(pc: Pc): Option<Answer> {
    match pc
    case Record(_, answer) => Some(answer)
    case LeaveRead(o) => if o.Replied? then Some(o.answer) else None
    case Done(o) => if o.Replied? then Some(o.answer) else None
    case _ => None
  }

  // ----- the invariant -----

  /** A recorded outcome agrees with what became of the sender. */
  predicate OutcomeOk(cl: Client, id: RequestId, o: Outcome) {
    match o
    case NotRunning => id !in cl.channels
    case Replied(a) => id in cl.channels && cl.channels[id] == Sent(Reply(a))
    case Failed => id in cl.channels && cl.channels[id] == Sent(GenerationFailed)
    case TimedOut => true
    case WriteFailed => true
    case _ => false
  }

  predicate IsReply(ch: Channel) {
    ch.Sent? && ch.letter.Reply?
  }

  /** What the client's books say about one id. */
  predicate IdOk(cl: Client, id: RequestId) {
    IdFiled(cl, id) && (id in cl.outcome ==> id in cl.owner && id !in cl.pending && OutcomeOk(cl, id, cl.outcome[id]))
  }

  predicate IdFiled(cl: Client, id: RequestId) {
    && (id in cl.pending ==> id in cl.channels && cl.channels[id].Pending?)
    && (id in cl.channels ==> id in cl.owner && (cl.channels[id].Pending? ==> id in cl.pending))
    && (id in cl.owner ==> id < cl.nextRequest)
    && (id in cl.closed ==> id in cl.owner)
  }

  ghost predicate BooksOk(cl: Client) {
    forall id :: IdOk(cl, id)
  }

  /** The history of handled responses is exactly the replies that senders carried. */
  ghost predicate RepliesOk(cl: Client) {
    && (forall id | id in cl.channels && IsReply(cl.channels[id]) :: (id, cl.channels[id].letter.answer) in cl.replies)
    && (forall p | p in cl.replies :: p.0 in cl.channels && cl.channels[p.0] == Sent(Reply(p.1)))
  }

  predicate RequestOk(cl: Client, t: TaskId, pc: Pc) {
    match pc
    case Snapshot(_, id) => IsOwn(cl, t, id) && id !in cl.channels && id !in cl.closed
    case Register(_, id, _) => IsOwn(cl, t, id) && id !in cl.channels && id !in cl.closed
    case Write(_, id, gen) => IsOwn(cl, t, id) && IsRegistered(cl, id, gen) && id !in cl.closed
      && !cl.channels[id].Dropped?
    case Wait(_, id, gen) => IsOwn(cl, t, id) && IsRegistered(cl, id, gen) && id !in cl.closed
      && !cl.channels[id].Dropped?
    case Forget(_, id, gen, why) => IsOwn(cl, t, id) && IsRegistered(cl, id, gen)
      && (why == TimedOut || why == WriteFailed)
    case _ => true
  }

  predicate IsOwn(cl: Client, t: TaskId, id: RequestId) {
    id in cl.owner && cl.owner[id] == t && id !in cl.outcome
  }

  predicate IsRegistered(cl: Client, id: RequestId, gen: Generation) {
    id in cl.channels && (id in cl.pending ==> cl.pending[id] == gen)
  }

  ghost predicate SettleTask(cl: Client, t: TaskId, task: Task) {
    && RequestOk(cl, t, task.pc)
    && (forall id | id in SendIds(task.pc) :: id in cl.channels && cl.channels[id] == Taken(t))
  }

  /** Nothing is lost: an id without an outcome is in the hands of its caller, and a sender that was
      taken out is in the hands of the task that took it. */
  ghost predicate NothingLost(cl: Client, c: ClientId, tasks: map<TaskId, Task>) {
    && (forall id | id in cl.owner && id !in cl.outcome :: InHandOf(c, tasks, cl.owner[id], id))
    && (forall id | id in cl.channels && cl.channels[id].Taken? :: HeldBy(c, tasks, cl.channels[id].holder, id))
  }

  predicate InHandOf(c: ClientId, tasks: map<TaskId, Task>, t: TaskId, id: RequestId) {
    t in tasks && tasks[t].client == c && ActiveId(tasks[t].pc) == Some(id)
  }

  predicate HeldBy(c: ClientId, tasks: map<TaskId, Task>, t: TaskId, id: RequestId) {
    t in tasks && tasks[t].client == c && id in SendIds(tasks[t].pc)
  }

  ghost predicate ClientSettles(cl: Client, c: ClientId, tasks: map<TaskId, Task>) {
    BooksOk(cl) && RepliesOk(cl) && NothingLost(cl, c, tasks)
  }

  ghost predicate AllSettle(s: State) {
    && (forall c | c in s.clients :: ClientSettles(s.clients[c], c, s.tasks))
    && (forall t | t in s.tasks ::
            s.tasks[t].client in s.clients && SettleTask(s.clients[s.tasks[t].client], t, s.tasks[t]))
  }

  // ----- one step, told without the state after it -----

  predicate EndsRequest(op: Op) {
    op.Settle? || op.GiveUp?
  }

  /** What a step does to the request and the senders in the hands of its task. */
  predicate SettleLocal(cl: Client, task: Task, op: Op, pc: Pc) {
    && (if op.NewRequest? then ActiveId(task.pc).None? && pc.Snapshot? && pc.id == cl.nextRequest
        else if EndsRequest(op) then ActiveId(task.pc) == Some(op.id) && ActiveId(pc).None?
        else ActiveId(pc) == ActiveId(task.pc))
    && (if op.TakeGeneration? then SendIds(task.pc) == {} && SendIds(pc) == OfGeneration(cl, op.gen)
        else if op.SendFailure? then op.id in SendIds(task.pc) && SendIds(pc) == SendIds(task.pc) - {op.id}
        else SendIds(pc) == SendIds(task.pc))
    && (pc.Snapshot? ==> op.NewRequest?)
    && (pc.Register? ==> task.pc.Snapshot?)
    && (op.Insert? <==> pc.Write?)
    && (op.Insert? ==> task.pc == Register(pc.init, op.id, op.gen) && pc.id == op.id && pc.gen == op.gen)
    && (pc.Wait? ==> task.pc == Write(pc.init, pc.id, pc.gen))
    && (op.CloseReceiver? ==>
            task.pc.Wait? && task.pc.id == op.id && pc.Forget? && pc.why == TimedOut && pc.gen == task.pc.gen)
    && (pc.Forget? ==>
            (op.CloseReceiver? || task.pc == Write(pc.init, pc.id, pc.gen))
            && (pc.why == TimedOut || pc.why == WriteFailed))
    && (op.Settle? ==>
          if task.pc.Wait? then op.id in cl.channels && Received(cl.channels[op.id]) == Some(op.outcome)
          else task.pc.Snapshot? && op.outcome == NotRunning)
    && (op.GiveUp? ==> task.pc.Forget? && op.outcome == task.pc.why)
    && !op.DeliverReply?
    && (ResultOf(pc).Some? ==>
            ResultOf(pc) == ResultOf(task.pc) || (EndsRequest(op) && op.outcome == Replied(ResultOf(pc).value)))
  }

  lemma EnterSettle(cl: Client, task: Task, child: Option<Outcome>, spare: TaskId, ch: Choice)
    requires InEnter(task.pc)
    ensures var eff := Enter(cl, task, child, spare, ch);
            eff.Some? ==> SettleLocal(cl, task, eff.value.op, eff.value.pc)
  {
  }

  lemma RespondSettle(cl: Client, task: Task, ch: Choice)
    requires InRespond(task.pc)
    ensures var eff := RespondTo(cl, task, ch); eff.Some? ==> SettleLocal(cl, task, eff.value.op, eff.value.pc)
  {
  }

  lemma StartSettle(cl: Client, task: Task, ch: Choice)
    requires InStart(task.pc)
    ensures var eff := Start(cl, task, ch); eff.Some? ==> SettleLocal(cl, task, eff.value.op, eff.value.pc)
  {
  }

  lemma SpawnSettle(cl: Client, task: Task, slotFree: bool, ch: Choice)
    requires InSpawn(task.pc)
    ensures var eff := SpawnProcess(cl, task, slotFree, ch);
            eff.Some? ==> SettleLocal(cl, task, eff.value.op, eff.value.pc)
  {
  }

  lemma RoomSettle(cl: Client, task: Task, slotFree: bool, child: Option<Outcome>, spare: TaskId, ch: Choice)
    requires InMakeRoom(task.pc)
    ensures var eff := MakeRoom(task, slotFree, child, spare, ch);
            eff.Some? ==> SettleLocal(cl, task, eff.value.op, eff.value.pc)
  {
  }

  lemma RequestSettle(cl: Client, task: Task, ch: Choice)
    requires InRequest(task.pc)
    ensures var eff := Request(cl, task, ch); eff.Some? ==> SettleLocal(cl, task, eff.value.op, eff.value.pc)
  {
  }

  lemma ShutSettle(cl: Client, task: Task, ch: Choice)
    requires InShut(task.pc)
    ensures var eff := Shut(cl, task, ch); eff.Some? ==> SettleLocal(cl, task, eff.value.op, eff.value.pc)
  {
  }

  lemma DisposeSettle(cl: Client, task: Task, ch: Choice)
    requires InDispose(task.pc)
    ensures var eff := Dispose(cl, task.role, task.pc, ch);
            eff.Some? ==> SettleLocal(cl, task, eff.value.op, eff.value.pc)
  {
  }

  lemma WatchSettle(cl: Client, task: Task, ch: Choice)
    requires task.role.Supervise? && InWatch(task.pc)
    ensures var eff := Watch(cl, task.role.gen, task.role.handoff, task.pc, ch);
            eff.Some? ==> SettleLocal(cl, task, eff.value.op, eff.value.pc)
  {
  }

  lemma FinaliseSettle(cl: Client, task: Task, ch: Choice)
    requires task.role.Supervise?
    ensures var eff := Finalise(cl, task.role.gen, task.pc, ch);
            eff.Some? ==> SettleLocal(cl, task, eff.value.op, eff.value.pc)
  {
  }

  lemma ActSettle(cl: Client, task: Task, slotFree: bool, child: Option<Outcome>, spare: TaskId, ch: Choice)
    ensures var eff := Act(cl, task, slotFree, child, spare, ch);
            eff.Some? ==> SettleLocal(cl, task, eff.value.op, eff.value.pc)
  {
    if InEnter(task.pc) {
      EnterSettle(cl, task, child, spare, ch);
    } else if InRespond(task.pc) {
      RespondSettle(cl, task, ch);
    } else if InStart(task.pc) {
      StartSettle(cl, task, ch);
    } else if InSpawn(task.pc) {
      SpawnSettle(cl, task, slotFree, ch);
    } else if InMakeRoom(task.pc) {
      RoomSettle(cl, task, slotFree, child, spare, ch);
    } else if InRequest(task.pc) {
      RequestSettle(cl, task, ch);
    } else if InShut(task.pc) {
      ShutSettle(cl, task, ch);
    } else if InDispose(task.pc) {
      DisposeSettle(cl, task, ch);
    } else if !task.role.Supervise? {
    } else if InWatch(task.pc) {
      WatchSettle(cl, task, ch);
    } else {
      FinaliseSettle(cl, task, ch);
    }
  }

  // ----- one operation -----

  /** What the operation needs to keep the books. */
  predicate SettledOp(cl: Client, t: TaskId, op: Op) {
    match op
    case Insert(id, _) => IsOwn(cl, t, id) && id !in cl.channels
    case CloseReceiver(id) => IsOwn(cl, t, id)
    case Settle(id, o) => IsOwn(cl, t, id) && id !in cl.pending && OutcomeOk(cl, id, o)
    case GiveUp(id, o) => IsOwn(cl, t, id) && (o == TimedOut || o == WriteFailed)
    case SendFailure(id) => id in cl.channels && cl.channels[id] == Taken(t)
    case DeliverReply(id, _) => id in cl.pending
    case _ => true
  }

  function PendingAfter(cl: Client, op: Op): map<RequestId, Generation> {
    match op
    case Insert(id, gen) => cl.pending[id := gen]
    case GiveUp(id, _) => cl.pending - {id}
    case PurgeReceivers => cl.pending - cl.pending.Keys * cl.closed
    case TakeGeneration(gen) => cl.pending - OfGeneration(cl, gen)
    case DeliverReply(id, _) => cl.pending - {id}
    case _ => cl.pending
  }

  /** What an operation makes of one sender. */
  function ChannelAfter(cl: Client, t: TaskId, op: Op, id: RequestId): Option<Channel> {
    if op.Insert? && id == op.id then Some(Pending)
    else if id !in cl.channels then if op.SendFailure? && id == op.id then Some(Sent(GenerationFailed))
      else if op.DeliverReply? && id == op.id then Some(Sent(Reply(op.answer))) else None
    else if op.GiveUp? && id == op.id && id in cl.pending then Some(Dropped)
    else if op.PurgeReceivers? && id in cl.pending && id in cl.closed then Some(Dropped)
    else if op.TakeGeneration? && id in OfGeneration(cl, op.gen) then Some(Taken(t))
    else if op.SendFailure? && id == op.id then Some(Sent(GenerationFailed))
    else if op.DeliverReply? && id == op.id then Some(Sent(Reply(op.answer)))
    else Some(cl.channels[id])
  }

  lemma PerformBooks(cl: Client, t: TaskId, op: Op)
    ensures var cl' := Perform(cl, t, op);
            && cl'.owner == (if op.NewRequest? then cl.owner[cl.nextRequest := t] else cl.owner)
            && cl'.nextRequest == (if op.NewRequest? then cl.nextRequest + 1 else cl.nextRequest)
            && cl'.outcome == (if EndsRequest(op) then cl.outcome[op.id := op.outcome] else cl.outcome)
            && cl'.closed == (if op.CloseReceiver? then cl.closed + {op.id} else cl.closed)
            && cl'.replies == (if op.DeliverReply? then cl.replies + {(op.id, op.answer)} else cl.replies)
            && cl'.pending == PendingAfter(cl, op)
  {
    hide Perform;
    PerformOwners(cl, t, op);
    PerformFiles(cl, t, op);
    PerformPending(cl, t, op);
  }

  lemma PerformOwners(cl: Client, t: TaskId, op: Op)
    ensures var cl' := Perform(cl, t, op);
            && cl'.owner == (if op.NewRequest? then cl.owner[cl.nextRequest := t] else cl.owner)
            && cl'.nextRequest == (if op.NewRequest? then cl.nextRequest + 1 else cl.nextRequest)
  {
    hide OfGeneration, WithChannels;
  }

  lemma PerformFiles(cl: Client, t: TaskId, op: Op)
    ensures var cl' := Perform(cl, t, op);
            && cl'.outcome == (if EndsRequest(op) then cl.outcome[op.id := op.outcome] else cl.outcome)
            && cl'.closed == (if op.CloseReceiver? then cl.closed + {op.id} else cl.closed)
            && cl'.replies == (if op.DeliverReply? then cl.replies + {(op.id, op.answer)} else cl.replies)
  {
    hide OfGeneration, WithChannels;
  }

  /** The operations that touch `pending` or a sender. */
  predicate MovesSender(op: Op) {
    op.Insert? || op.GiveUp? || op.PurgeReceivers? || op.TakeGeneration? || op.SendFailure? || op.DeliverReply?
  }

  lemma OthersMoveNothing(cl: Client, t: TaskId, op: Op)
    requires !MovesSender(op)
    ensures var cl' := Perform(cl, t, op); cl'.pending == cl.pending && cl'.channels == cl.channels
  {
  }

  lemma PerformPending(cl: Client, t: TaskId, op: Op)
    ensures Perform(cl, t, op).pending == PendingAfter(cl, op)
  {
    hide Perform, OfGeneration, WithChannels;
    if MovesSender(op) {
      MovedPending(cl, t, op);
    } else {
      OthersMoveNothing(cl, t, op);
    }
  }

  lemma MovedPending(cl: Client, t: TaskId, op: Op)
    requires MovesSender(op)
    ensures Perform(cl, t, op).pending == PendingAfter(cl, op)
  {
    hide OfGeneration, WithChannels;
  }

  lemma PerformChannel(cl: Client, t: TaskId, op: Op, id: RequestId)
    requires op.GiveUp? && op.id in cl.pending ==> op.id in cl.channels
    ensures var ch := ChannelAfter(cl, t, op, id);
            if ch.Some? then id in Perform(cl, t, op).channels && Perform(cl, t, op).channels[id] == ch.value
            else id !in Perform(cl, t, op).channels
  {
    hide Perform, OfGeneration, WithChannels;
    if MovesSender(op) {
      MovedChannel(cl, t, op, id);
    } else {
      OthersMoveNothing(cl, t, op);
    }
  }

  lemma MovedChannel(cl: Client, t: TaskId, op: Op, id: RequestId)
    requires MovesSender(op) && (op.GiveUp? && op.id in cl.pending ==> op.id in cl.channels)
    ensures var ch := ChannelAfter(cl, t, op, id);
            if ch.Some? then id in Perform(cl, t, op).channels && Perform(cl, t, op).channels[id] == ch.value
            else id !in Perform(cl, t, op).channels
  {
    hide OfGeneration, WithChannels;
  }

  lemma IdStaysFiled(cl: Client, t: TaskId, op: Op, id: RequestId)
    requires IdFiled(cl, id) && (op.GiveUp? ==> IdFiled(cl, op.id)) && SettledOp(cl, t, op)
    ensures IdFiled(Perform(cl, t, op), id)
  {
    hide Perform, OutcomeOk;
    PerformBooks(cl, t, op);
    PerformChannel(cl, t, op, id);
  }

  /** A sender that is no longer pending and has been used, or never was, stays that way. */
  lemma SettledChannel(cl: Client, t: TaskId, op: Op, id: RequestId)
    requires IdFiled(cl, id) && id !in cl.pending && SettledOp(cl, t, op) && (op.Insert? ==> id != op.id)
    ensures id !in cl.channels ==> ChannelAfter(cl, t, op, id) == None
    ensures id in cl.channels && cl.channels[id].Sent? ==> ChannelAfter(cl, t, op, id) == Some(cl.channels[id])
  {
  }

  lemma OutcomeStaysOk(cl: Client, t: TaskId, op: Op, id: RequestId, o: Outcome)
    requires IdFiled(cl, id) && id !in cl.pending && OutcomeOk(cl, id, o)
    requires SettledOp(cl, t, op) && (op.GiveUp? ==> IdFiled(cl, op.id)) && (op.Insert? ==> id != op.id)
    ensures OutcomeOk(Perform(cl, t, op), id, o)
  {
    assert op.GiveUp? && op.id in cl.pending ==> op.id in cl.channels;
    SettledChannel(cl, t, op, id);
    hide Perform, ChannelAfter, SettledOp, IdFiled;
    PerformChannel(cl, t, op, id);
  }

  lemma IdStaysOk(cl: Client, t: TaskId, op: Op, id: RequestId)
    requires IdOk(cl, id) && IdOk(cl, cl.nextRequest) && (op.GiveUp? ==> IdOk(cl, op.id)) && SettledOp(cl, t, op)
    ensures IdOk(Perform(cl, t, op), id)
  {
    hide Perform, OutcomeOk, ChannelAfter, OfGeneration;
    IdStaysFiled(cl, t, op, id);
    PerformBooks(cl, t, op);
    if EndsRequest(op) && op.id == id {
      if op.Settle? {
        OutcomeStaysOk(cl, t, op, id, op.outcome);
      } else {
        GaveUpOk(Perform(cl, t, op), id, op.outcome);
      }
    } else if id in cl.outcome {
      OutcomeStaysOk(cl, t, op, id, cl.outcome[id]);
    }
  }

  lemma GaveUpOk(cl: Client, id: RequestId, o: Outcome)
    requires o == TimedOut || o == WriteFailed
    ensures OutcomeOk(cl, id, o)
  {
  }

  lemma OpKeepsBooks(cl: Client, t: TaskId, op: Op)
    requires BooksOk(cl) && SettledOp(cl, t, op)
    ensures BooksOk(Perform(cl, t, op))
  {
    hide Perform, IdOk;
    forall id ensures IdOk(Perform(cl, t, op), id) {
      assert IdOk(cl, id) && IdOk(cl, cl.nextRequest) && (op.GiveUp? ==> IdOk(cl, op.id));
      IdStaysOk(cl, t, op, id);
    }
  }

  lemma PendingSenders(cl: Client)
    requires BooksOk(cl)
    ensures forall id | id in cl.pending :: id in cl.channels && cl.channels[id].Pending?
  {
    forall id | id in cl.pending ensures id in cl.channels && cl.channels[id].Pending? {
      assert IdOk(cl, id);
    }
  }

  lemma OpKeepsReplies(cl: Client, t: TaskId, op: Op)
    requires BooksOk(cl) && RepliesOk(cl) && SettledOp(cl, t, op)
    ensures RepliesOk(Perform(cl, t, op))
  {
    hide BooksOk, OutcomeOk, OfGeneration;
    PendingSenders(cl);
    GenerationIsPending(cl, op);
  }

  lemma GenerationIsPending(cl: Client, op: Op)
    ensures op.TakeGeneration? ==> OfGeneration(cl, op.gen) <= cl.pending.Keys
  {
  }

  /** Outcomes, used senders and settled ids stay what they are. */
  predicate IdStays(cl: Client, cl': Client, id: RequestId) {
    && (id in cl.owner ==> id in cl'.owner && cl'.owner[id] == cl.owner[id])
    && (id in cl.outcome ==> id in cl'.outcome && cl'.outcome[id] == cl.outcome[id])
    && (id in cl.channels && cl.channels[id].Sent? ==> id in cl'.channels && cl'.channels[id] == cl.channels[id])
    && (id in cl.channels && !cl.channels[id].Pending? ==> id in cl'.channels && !cl'.channels[id].Pending?)
    && (id in cl.channels && cl.channels[id].Taken? ==>
          cl'.channels[id] == cl.channels[id] || cl'.channels[id] == Sent(GenerationFailed))
  }

  ghost predicate Stays(cl: Client, cl': Client) {
    forall id :: IdStays(cl, cl', id)
  }

  lemma OneStays(cl: Client, t: TaskId, op: Op, id: RequestId)
    requires IdOk(cl, id) && IdOk(cl, cl.nextRequest) && (op.GiveUp? ==> IdOk(cl, op.id)) && SettledOp(cl, t, op)
    ensures IdStays(cl, Perform(cl, t, op), id)
  {
    hide Perform, PendingAfter, OutcomeOk, OfGeneration;
    PerformBooks(cl, t, op);
    PerformChannel(cl, t, op, id);
  }

  lemma OpStays(cl: Client, t: TaskId, op: Op)
    requires BooksOk(cl) && SettledOp(cl, t, op)
    ensures Stays(cl, Perform(cl, t, op))
  {
    hide Perform, IdOk, SettledOp;
    forall id ensures IdStays(cl, Perform(cl, t, op), id) {
      assert IdOk(cl, id) && IdOk(cl, cl.nextRequest) && (op.GiveUp? ==> IdOk(cl, op.id));
      OneStays(cl, t, op, id);
    }
  }

  // ----- one step, seen by the task that takes it and by the others -----

  lemma OwnOp(cl: Client, t: TaskId, task: Task, op: Op, pc: Pc)
    requires BooksOk(cl) && SettleTask(cl, t, task) && SettleLocal(cl, task, op, pc)
    ensures SettledOp(cl, t, op)
  {
    assert ActiveId(task.pc).Some? ==> IdOk(cl, ActiveId(task.pc).value);
  }

  lemma OwnRequest(cl: Client, t: TaskId, task: Task, op: Op, pc: Pc)
    requires BooksOk(cl) && SettleTask(cl, t, task) && SettleLocal(cl, task, op, pc)
    ensures RequestOk(Perform(cl, t, op), t, pc)
  {
    hide OutcomeOk, Perform, SendIds, OfGeneration;
    if ActiveId(pc).Some? {
      var id := ActiveId(pc).value;
      assert IdOk(cl, id);
      hide BooksOk;
      PerformBooks(cl, t, op);
      PerformChannel(cl, t, op, id);
    }
  }

  lemma OwnSender(cl: Client, t: TaskId, task: Task, op: Op, pc: Pc, id: RequestId)
    requires IdOk(cl, id) && SettleTask(cl, t, task) && SettleLocal(cl, task, op, pc) && SettledOp(cl, t, op)
    requires id in SendIds(pc) && (op.GiveUp? && op.id in cl.pending ==> op.id in cl.channels)
    ensures ChannelAfter(cl, t, op, id) == Some(Taken(t))
  {
    hide OutcomeOk, SendIds, RequestOk;
  }

  lemma OwnSenders(cl: Client, t: TaskId, task: Task, op: Op, pc: Pc)
    requires BooksOk(cl) && SettleTask(cl, t, task) && SettleLocal(cl, task, op, pc) && SettledOp(cl, t, op)
    ensures var cl' := Perform(cl, t, op);
            forall id | id in SendIds(pc) :: id in cl'.channels && cl'.channels[id] == Taken(t)
  {
    PendingSenders(cl);
    hide SendIds, Perform, ChannelAfter, SettledOp, SettleLocal, SettleTask, IdOk;
    forall id | id in SendIds(pc)
      ensures id in Perform(cl, t, op).channels && Perform(cl, t, op).channels[id] == Taken(t) {
      OwnSender(cl, t, task, op, pc, id);
      PerformChannel(cl, t, op, id);
    }
  }

  lemma OtherRequest(cl: Client, t: TaskId, op: Op, u: TaskId, pc: Pc)
    requires BooksOk(cl) && SettledOp(cl, t, op) && RequestOk(cl, u, pc)
    requires u != t || op.DeliverReply? || BookFree(op)
    ensures RequestOk(Perform(cl, t, op), u, pc)
  {
    hide Perform, ChannelAfter, PendingAfter, OutcomeOk;
    PerformBooks(cl, t, op);
    if ActiveId(pc).Some? {
      var id := ActiveId(pc).value;
      assert op.GiveUp? ==> IdOk(cl, op.id);
      PerformChannel(cl, t, op, id);
      OtherChannel(cl, t, op, u, id);
    }
  }

  /** What one operation does to a request that is in the hands of another task. */
  lemma OtherChannel(cl: Client, t: TaskId, op: Op, u: TaskId, id: RequestId)
    requires BooksOk(cl) && SettledOp(cl, t, op) && IsOwn(cl, u, id)
    requires u != t || op.DeliverReply? || BookFree(op)
    ensures var ch := ChannelAfter(cl, t, op, id);
            && (id !in cl.channels <==> ch.None?)
            && (id in cl.channels && id !in cl.closed && !cl.channels[id].Dropped? ==> !ch.value.Dropped?)
            && (id in PendingAfter(cl, op) ==> id in cl.pending && PendingAfter(cl, op)[id] == cl.pending[id])
            && (EndsRequest(op) ==> op.id != id) && (op.CloseReceiver? ==> op.id != id) && id != cl.nextRequest
  {
    assert IdOk(cl, id);
  }

  lemma OtherSenders(cl: Client, t: TaskId, op: Op, u: TaskId, id: RequestId)
    requires BooksOk(cl) && SettledOp(cl, t, op) && id in cl.channels && cl.channels[id] == Taken(u)
    requires u != t || op.DeliverReply? || BookFree(op)
    ensures id in Perform(cl, t, op).channels && Perform(cl, t, op).channels[id] == Taken(u)
  {
    hide Perform, BooksOk, OutcomeOk, OfGeneration;
    PendingSenders(cl);
    NotOfGeneration(cl, op, id);
    PerformChannel(cl, t, op, id);
  }

  lemma NotOfGeneration(cl: Client, op: Op, id: RequestId)
    requires id !in cl.pending
    ensures op.TakeGeneration? ==> id !in OfGeneration(cl, op.gen)
  {
  }

  lemma OtherSettle(cl: Client, t: TaskId, op: Op, u: TaskId, other: Task)
    requires BooksOk(cl) && SettledOp(cl, t, op) && SettleTask(cl, u, other)
    requires u != t || op.DeliverReply? || BookFree(op)
    ensures SettleTask(Perform(cl, t, op), u, other)
  {
    hide SendIds, RequestOk, BooksOk, SettledOp, BookFree, Perform;
    OtherRequest(cl, t, op, u, other.pc);
    forall id | id in SendIds(other.pc)
      ensures id in Perform(cl, t, op).channels && Perform(cl, t, op).channels[id] == Taken(u) {
      OtherSenders(cl, t, op, u, id);
    }
  }

  /** The operation leaves the books alone. */
  predicate BookFree(op: Op) {
    match op
    case NewRequest => false
    case Insert(_, _) => false
    case CloseReceiver(_) => false
    case Settle(_, _) => false
    case GiveUp(_, _) => false
    case PurgeReceivers => false
    case TakeGeneration(_) => false
    case SendFailure(_) => false
    case DeliverReply(_, _) => false
    case _ => true
  }

  // ----- one event -----

  lemma KeepsInHand(cl: Client, c: ClientId, tasks: map<TaskId, Task>, t: TaskId, op: Op, pc: Pc,
                    tasks': map<TaskId, Task>)
    requires BooksOk(cl) && NothingLost(cl, c, tasks) && t in tasks && tasks[t].client == c
    requires SettleLocal(cl, tasks[t], op, pc)
    requires t in tasks' && tasks'[t] == tasks[t].(pc := pc)
    requires forall u | u in tasks && u != t :: u in tasks' && tasks'[u] == tasks[u]
    ensures var cl' := Perform(cl, t, op);
            forall id | id in cl'.owner && id !in cl'.outcome :: InHandOf(c, tasks', cl'.owner[id], id)
  {
    hide ActiveId, SendIds, Perform, BooksOk;
    var cl' := Perform(cl, t, op);
    PerformOwners(cl, t, op);
    PerformFiles(cl, t, op);
    forall id | id in cl'.owner && id !in cl'.outcome ensures InHandOf(c, tasks', cl'.owner[id], id) {
      if op.NewRequest? && id == cl.nextRequest {
        DrawnId(pc);
      } else {
        assert InHandOf(c, tasks, cl.owner[id], id);
      }
    }
  }

  lemma DrawnId(pc: Pc)
    ensures pc.Snapshot? ==> ActiveId(pc) == Some(pc.id)
  {
  }

  lemma KeepsHeld(cl: Client, c: ClientId, tasks: map<TaskId, Task>, t: TaskId, op: Op, pc: Pc,
                  tasks': map<TaskId, Task>)
    requires BooksOk(cl) && NothingLost(cl, c, tasks) && t in tasks && tasks[t].client == c
    requires SettleLocal(cl, tasks[t], op, pc) && SettledOp(cl, t, op)
    requires t in tasks' && tasks'[t] == tasks[t].(pc := pc)
    requires forall u | u in tasks && u != t :: u in tasks' && tasks'[u] == tasks[u]
    ensures var cl' := Perform(cl, t, op);
            forall id | id in cl'.channels && cl'.channels[id].Taken? :: HeldBy(c, tasks', cl'.channels[id].holder, id)
  {
    hide ActiveId, SendIds, Perform, BooksOk;
    var cl' := Perform(cl, t, op);
    PendingSenders(cl);
    forall id | id in cl'.channels && cl'.channels[id].Taken? ensures HeldBy(c, tasks', cl'.channels[id].holder, id) {
      PerformChannel(cl, t, op, id);
      if op.TakeGeneration? && id in OfGeneration(cl, op.gen) {
      } else {
        assert HeldBy(c, tasks, cl.channels[id].holder, id);
      }
    }
  }

  lemma ClientAfterMove(cl: Client, c: ClientId, tasks: map<TaskId, Task>, t: TaskId, op: Op, pc: Pc,
                        tasks': map<TaskId, Task>)
    requires ClientSettles(cl, c, tasks) && t in tasks && tasks[t].client == c
    requires SettleTask(cl, t, tasks[t]) && SettleLocal(cl, tasks[t], op, pc)
    requires t in tasks' && tasks'[t] == tasks[t].(pc := pc)
    requires forall u | u in tasks && u != t :: u in tasks' && tasks'[u] == tasks[u]
    ensures ClientSettles(Perform(cl, t, op), c, tasks') && SettledOp(cl, t, op)
    ensures SettleTask(Perform(cl, t, op), t, tasks'[t])
  {
    hide BooksOk, RepliesOk, SettleLocal, SettledOp, RequestOk, Perform;
    OwnOp(cl, t, tasks[t], op, pc);
    OwnRequest(cl, t, tasks[t], op, pc);
    OwnSenders(cl, t, tasks[t], op, pc);
    OpKeepsBooks(cl, t, op);
    OpKeepsReplies(cl, t, op);
    KeepsInHand(cl, c, tasks, t, op, pc, tasks');
    KeepsHeld(cl, c, tasks, t, op, pc, tasks');
  }

  lemma StillSettles(cl: Client, c: ClientId, tasks: map<TaskId, Task>, tasks': map<TaskId, Task>)
    requires ClientSettles(cl, c, tasks)
    requires forall u | u in tasks && tasks[u].client == c :: u in tasks' && tasks'[u] == tasks[u]
    ensures ClientSettles(cl, c, tasks')
  {
    hide BooksOk, RepliesOk, ActiveId, SendIds;
    forall id | id in cl.owner && id !in cl.outcome ensures InHandOf(c, tasks', cl.owner[id], id) {
      assert InHandOf(c, tasks, cl.owner[id], id);
    }
    forall id | id in cl.channels && cl.channels[id].Taken? ensures HeldBy(c, tasks', cl.channels[id].holder, id) {
      assert HeldBy(c, tasks, cl.channels[id].holder, id);
    }
  }

  lemma NewbornSettles(cl: Client, t: TaskId, c: ClientId, role: Role)
    ensures SettleTask(cl, t, Task(c, role, FirstPc(role)))
  {
  }

  /** Everybody settles after a move if the client that moved does, and so do its tasks. */
  lemma SettlesAfterMove(s: State, t: TaskId, op: Op, pc: Pc, slots: int, born: Option<Born>, spare: TaskId)
    requires AllSettle(s) && t in s.tasks && s.permits + slots >= 0
    requires HasRoomFor(s, born, spare)
    requires SettleLocal(s.clients[s.tasks[t].client], s.tasks[t], op, pc)
    ensures AllSettle(Move(s, t, op, pc, slots, born, spare))
    ensures SettledOp(s.clients[s.tasks[t].client], t, op)
  {
    hide ClientSettles, SettleTask, SettleLocal, SettledOp, Perform, BookFree;
    var c := s.tasks[t].client;
    var cl := s.clients[c];
    var s' := Move(s, t, op, pc, slots, born, spare);
    ClientAfterMove(cl, c, s.tasks, t, op, pc, s'.tasks);
    forall d | d in s'.clients && d != c ensures ClientSettles(s'.clients[d], d, s'.tasks) {
      StillSettles(s.clients[d], d, s.tasks, s'.tasks);
    }
    forall u | u in s'.tasks ensures SettleTask(s'.clients[s'.tasks[u].client], u, s'.tasks[u]) {
      if u !in s.tasks {
        NewbornSettles(s'.clients[born.value.client], u, born.value.client, born.value.role);
      } else if u != t && s.tasks[u].client == c {
        ClientBooks(cl, c, s.tasks);
        OtherSettle(cl, t, op, u, s.tasks[u]);
      }
    }
  }

  lemma ClientBooks(cl: Client, c: ClientId, tasks: map<TaskId, Task>)
    requires ClientSettles(cl, c, tasks)
    ensures BooksOk(cl)
  {
  }

  lemma ReceivedOp(cl: Client, c: ClientId, gen: Generation, handoff: bool, m: Message)
    ensures var op := Handle(cl, c, gen, handoff, m); SettledOp(cl, 0, op) && (op.DeliverReply? || BookFree(op))
  {
  }

  lemma ClientAfterReceive(cl: Client, c: ClientId, tasks: map<TaskId, Task>, op: Op)
    requires ClientSettles(cl, c, tasks) && SettledOp(cl, 0, op) && (op.DeliverReply? || BookFree(op))
    ensures ClientSettles(Perform(cl, 0, op), c, tasks)
  {
    hide BooksOk, RepliesOk, ActiveId, SendIds;
    var cl' := Perform(cl, 0, op);
    OpKeepsBooks(cl, 0, op);
    OpKeepsReplies(cl, 0, op);
    forall id | id in cl'.owner && id !in cl'.outcome ensures InHandOf(c, tasks, cl'.owner[id], id) {
      assert InHandOf(c, tasks, cl.owner[id], id);
    }
    forall id | id in cl'.channels && cl'.channels[id].Taken? ensures HeldBy(c, tasks, cl'.channels[id].holder, id) {
      assert HeldBy(c, tasks, cl.channels[id].holder, id);
    }
  }

  lemma ReceiveSettles(s: State, c: ClientId, op: Op)
    requires AllSettle(s) && c in s.clients && SettledOp(s.clients[c], 0, op) && (op.DeliverReply? || BookFree(op))
    ensures AllSettle(s.(clients := s.clients[c := Perform(s.clients[c], 0, op)]))
  {
    hide ClientSettles, SettleTask, SettledOp, BookFree, Perform;
    var cl := s.clients[c];
    ClientAfterReceive(cl, c, s.tasks, op);
    forall u | u in s.tasks && s.tasks[u].client == c ensures SettleTask(Perform(cl, 0, op), u, s.tasks[u]) {
      ClientBooks(cl, c, s.tasks);
      OtherSettle(cl, 0, op, u, s.tasks[u]);
    }
  }

  lemma ArriveSettles(s: State, c: ClientId, role: Role, t: TaskId)
    requires AllSettle(s) && c in s.clients && t !in s.tasks
    ensures AllSettle(s.(tasks := s.tasks[t := Task(c, role, FirstPc(role))]))
  {
    hide ClientSettles, SettleTask;
    var tasks := s.tasks[t := Task(c, role, FirstPc(role))];
    NewbornSettles(s.clients[c], t, c, role);
    forall d | d in s.clients ensures ClientSettles(s.clients[d], d, tasks) {
      StillSettles(s.clients[d], d, s.tasks, tasks);
    }
  }

  lemma AbortSettles(s: State, t: TaskId)
    requires AllLocksOk(s) && t in s.tasks && Abortable(s.tasks[t])
    ensures var cl := s.clients[s.tasks[t].client]; SettleLocal(cl, s.tasks[t], AbortOp(cl, t), Done(Closed))
  {
    hide AllLocksOk;
    TaskLocks(s, t);
  }

  lemma StepSettles(s: State, e: Event)
    requires Enabled(s, e) && e.Step?
    ensures SettleLocal(s.clients[s.tasks[e.t].client], s.tasks[e.t], e.effect.op, e.effect.pc)
  {
    hide Act, SettleLocal;
    var task := s.tasks[e.t];
    ActSettle(s.clients[task.client], task, s.permits > 0, ChildOutcome(s, task.pc), e.spare, e.choice);
  }

  /** The operation of an event on its client, if it has one. */
  ghost predicate EventSettled(s: State, e: Event)
    requires Enabled(s, e)
  {
    match e
    case Arrive(_, _, _) => true
    case Step(t, _, _, eff) => SettledOp(s.clients[s.tasks[t].client], t, eff.op)
    case Abort(t) => SettledOp(s.clients[s.tasks[t].client], t, AbortOp(s.clients[s.tasks[t].client], t))
    case Receive(c, _, _, op) => SettledOp(s.clients[c], 0, op)
  }

  lemma AfterSettles(s: State, e: Event)
    requires AllLocksOk(s) && AllSettle(s) && Enabled(s, e)
    ensures AllSettle(After(s, e)) && EventSettled(s, e)
  {
    hide Act, AllLocksOk, AllSettle, SettledOp, SettleLocal, Perform, Move, AbortOp, Abortable, Handle;
    match e
    case Arrive(c, role, t) => ArriveSettles(s, c, role, t);
    case Step(t, _, spare, eff) =>
      StepSettles(s, e);
      SettlesAfterMove(s, t, eff.op, eff.pc, eff.slots, eff.born, spare);
    case Abort(t) =>
      AbortSettles(s, t);
      SettlesAfterMove(s, t, AbortOp(s.clients[s.tasks[t].client], t), Done(Closed), 0, None, t);
    case Receive(c, gen, m, op) =>
      ReceivedOp(s.clients[c], c, gen, s.clients[c].woken[gen], m);
      ReceiveSettles(s, c, op);
  }

  lemma {:induction false} RunSettles(r: Trace, maxProcesses: nat, i: nat)
    requires IsRun(r, maxProcesses) && i < |r.states|
    ensures AllSettle(r.states[i])
  {
    hide After, Enabled, AllSettle, AllLocksOk;
    if i > 0 {
      RunSettles(r, maxProcesses, i - 1);
      RunLocks(r, maxProcesses, i - 1);
      AfterSettles(r.states[i - 1], r.events[i - 1]);
    } else {
      InitialSettles(r.states[0], maxProcesses);
    }
  }

  lemma InitialSettles(s: State, maxProcesses: nat)
    requires Initial(s, maxProcesses)
    ensures AllSettle(s)
  {
  }

  // ----- what settlement means -----

  /** At every moment of a run, an issued id either has its one outcome or is still with its caller;
      never both, never neither. What is pending is with its caller, so what is settled is not pending. */
  lemma SettledOrInHand(r: Trace, maxProcesses: nat, i: nat, c: ClientId, id: RequestId)
    requires IsRun(r, maxProcesses) && i < |r.states| && c in r.states[i].clients && id in r.states[i].clients[c].owner
    ensures var s := r.states[i]; var cl := s.clients[c];
            && (id in cl.outcome <==> !InHandOf(c, s.tasks, cl.owner[id], id))
            && (id in cl.pending ==> id !in cl.outcome)
            && (id in cl.outcome ==> cl.outcome[id] != ChannelLost && OutcomeOk(cl, id, cl.outcome[id]))
  {
    hide IsRun, OutcomeOk, IdFiled;
    RunSettles(r, maxProcesses, i);
    var s := r.states[i];
    var cl := s.clients[c];
    assert ClientSettles(cl, c, s.tasks) && IdOk(cl, id);
    if InHandOf(c, s.tasks, cl.owner[id], id) {
      assert SettleTask(cl, cl.owner[id], s.tasks[cl.owner[id]]);
    }
    if id in cl.outcome {
      NeverLost(cl, id, cl.outcome[id]);
    }
  }

  lemma NeverLost(cl: Client, id: RequestId, o: Outcome)
    requires OutcomeOk(cl, id, o)
    ensures o != ChannelLost
  {
  }

  /** When a caller returns, each of its requests has its outcome and is out of `pending`. */
  lemma ReturnedIsSettled(r: Trace, maxProcesses: nat, i: nat, t: TaskId, id: RequestId)
    requires IsRun(r, maxProcesses) && i < |r.states| && t in r.states[i].tasks && r.states[i].tasks[t].pc.Done?
    requires r.states[i].tasks[t].client in r.states[i].clients
    requires var cl := r.states[i].clients[r.states[i].tasks[t].client]; id in cl.owner && cl.owner[id] == t
    ensures var cl := r.states[i].clients[r.states[i].tasks[t].client]; id in cl.outcome && id !in cl.pending
  {
    hide IsRun;
    SettledOrInHand(r, maxProcesses, i, r.states[i].tasks[t].client, id);
  }

  lemma AfterStays(s: State, e: Event, c: ClientId)
    requires AllSettle(s) && Enabled(s, e) && EventSettled(s, e) && c in s.clients
    ensures c in After(s, e).clients && Stays(s.clients[c], After(s, e).clients[c])
  {
    hide Act, Handle, Perform, SettledOp, BooksOk, RepliesOk, NothingLost, SettleTask, Abortable, AbortOp, IdStays;
    StaysSame(s.clients[c]);
    ClientBooks(s.clients[c], c, s.tasks);
    match e
    case Arrive(_, _, _) =>
    case Step(t, _, _, eff) => OpStaysAt(s, t, eff.op, c);
    case Abort(t) => OpStaysAt(s, t, AbortOp(s.clients[s.tasks[t].client], t), c);
    case Receive(d, _, _, op) => if d == c { OpStays(s.clients[c], 0, op); }
  }

  lemma OpStaysAt(s: State, t: TaskId, op: Op, c: ClientId)
    requires t in s.tasks && c in s.clients && BooksOk(s.clients[c])
    requires s.tasks[t].client == c ==> SettledOp(s.clients[c], t, op)
    ensures s.tasks[t].client == c ==> Stays(s.clients[c], Perform(s.clients[c], t, op))
  {
    hide Perform, BooksOk, SettledOp, Stays;
    if s.tasks[t].client == c {
      OpStays(s.clients[c], t, op);
    }
  }

  lemma StaysSame(cl: Client)
    ensures Stays(cl, cl)
  {
  }

  lemma StaysOn(a: Client, b: Client, d: Client)
    requires Stays(a, b) && Stays(b, d)
    ensures Stays(a, d)
  {
    forall id ensures IdStays(a, d, id) {
      assert IdStays(a, b, id) && IdStays(b, d, id);
    }
  }

  /** Over any run an outcome once given never changes, a sender once used is never used again, and
      an id that left `pending` never comes back. */
  lemma {:induction false} OutcomesStay(r: Trace, maxProcesses: nat, i: nat, j: nat, c: ClientId)
    requires IsRun(r, maxProcesses) && i <= j < |r.states| && c in r.states[i].clients
    ensures c in r.states[j].clients && Stays(r.states[i].clients[c], r.states[j].clients[c])
    decreases j
  {
    hide After, Enabled, Initial, AllSettle, AllLocksOk, EventSettled, Stays;
    if i < j {
      OutcomesStay(r, maxProcesses, i, j - 1, c);
      RunSettles(r, maxProcesses, j - 1);
      RunLocks(r, maxProcesses, j - 1);
      AfterSettles(r.states[j - 1], r.events[j - 1]);
      AfterStays(r.states[j - 1], r.events[j - 1], c);
      StaysOn(r.states[i].clients[c], r.states[j - 1].clients[c], r.states[j].clients[c]);
    } else {
      StaysSame(r.states[i].clients[c]);
    }
  }

  /** A response with this id and this answer was handled before the i-th state, for an entry that
      was pending at that moment. */
  ghost predicate WasAnswered(r: Trace, i: nat, c: ClientId, id: RequestId, a: Answer)
    requires |r.states| == |r.events| + 1 && i < |r.states|
  {
    exists k :: 0 <= k < i && IsResponse(r.events[k], c, id, a) && c in r.states[k].clients
      && id in r.states[k].clients[c].pending
  }

  predicate IsResponse(e: Event, c: ClientId, id: RequestId, a: Answer) {
    e.Receive? && e.client == c && e.message == Response(id, a)
  }

  lemma NewReply(s: State, e: Event, c: ClientId, id: RequestId, a: Answer)
    requires AllSettle(s) && Enabled(s, e) && EventSettled(s, e) && c in s.clients
    requires e.Step? ==> !e.effect.op.DeliverReply?
    requires (id, a) in After(s, e).clients[c].replies && (id, a) !in s.clients[c].replies
    ensures IsResponse(e, c, id, a) && id in s.clients[c].pending
  {
    hide Act, Perform, BooksOk, RepliesOk, NothingLost, SettleTask, Abortable;
    match e
    case Arrive(_, _, _) =>
    case Step(t, _, _, eff) => PerformBooks(s.clients[s.tasks[t].client], t, eff.op);
    case Abort(t) => PerformBooks(s.clients[s.tasks[t].client], t, AbortOp(s.clients[s.tasks[t].client], t));
    case Receive(d, _, _, op) => PerformBooks(s.clients[d], 0, op);
  }

  lemma SameClients(s: State, e: Event)
    requires Enabled(s, e)
    ensures After(s, e).clients.Keys == s.clients.Keys
  {
    hide Act, Perform, Handle;
  }

  lemma {:induction false} RepliesWereHandled(r: Trace, maxProcesses: nat, i: nat, c: ClientId, id: RequestId,
                                              a: Answer)
    requires IsRun(r, maxProcesses) && i < |r.states| && c in r.states[i].clients
    requires (id, a) in r.states[i].clients[c].replies
    ensures WasAnswered(r, i, c, id, a)
  {
    hide After, Enabled, AllSettle, AllLocksOk, EventSettled, SettleLocal, Act;
    if i > 0 {
      var s, e := r.states[i - 1], r.events[i - 1];
      RunSettles(r, maxProcesses, i - 1);
      RunLocks(r, maxProcesses, i - 1);
      AfterSettles(s, e);
      SameClients(s, e);
      if (id, a) in s.clients[c].replies {
        RepliesWereHandled(r, maxProcesses, i - 1, c, id, a);
      } else {
        StepsDeliverNothing(s, e);
        NewReply(s, e, c, id, a);
      }
    }
  }

  lemma StepsDeliverNothing(s: State, e: Event)
    requires Enabled(s, e)
    ensures e.Step? ==> !e.effect.op.DeliverReply?
  {
    hide Act;
    if e.Step? {
      StepSettles(s, e);
    }
  }

  /** A caller is told `Replied(a)` only if a response carrying its own id and the answer a was
      handled while the id was pending; no other answer was ever taken for that id. */
  lemma RepliedByOwnResponse(r: Trace, maxProcesses: nat, i: nat, c: ClientId, id: RequestId, a: Answer)
    requires IsRun(r, maxProcesses) && i < |r.states| && c in r.states[i].clients
    requires id in r.states[i].clients[c].outcome && r.states[i].clients[c].outcome[id] == Replied(a)
    ensures WasAnswered(r, i, c, id, a)
    ensures forall b | (id, b) in r.states[i].clients[c].replies :: b == a
  {
    hide IsRun, WasAnswered;
    var cl := r.states[i].clients[c];
    RunSettles(r, maxProcesses, i);
    assert ClientSettles(cl, c, r.states[i].tasks) && IdOk(cl, id);
    assert IsReply(cl.channels[id]);
    RepliesWereHandled(r, maxProcesses, i, c, id, a);
    forall b | (id, b) in cl.replies ensures b == a {
      assert cl.channels[(id, b).0] == Sent(Reply(b));
    }
  }

  /** Failing a generation takes exactly its entries out of `pending`, and each of them was
      registered by a caller for the process of that generation. */
  lemma FailureTakesItsGeneration(r: Trace, maxProcesses: nat, i: nat, t: TaskId, gen: Generation)
    requires IsRun(r, maxProcesses) && i < |r.events|
    requires r.events[i].Step? && r.events[i].t == t && r.events[i].effect.op == TakeGeneration(gen)
    requires t in r.states[i].tasks && r.states[i].tasks[t].client in r.states[i].clients
    ensures var c := r.states[i].tasks[t].client;
            c in r.states[i + 1].clients && t in r.states[i + 1].tasks
            && var cl, cl' := r.states[i].clients[c], r.states[i + 1].clients[c];
               && (forall id :: id in cl'.pending <==> id in cl.pending && cl.pending[id] != gen)
               && (forall id | id in cl'.pending :: cl'.pending[id] == cl.pending[id])
               && (forall id :: id in SendIds(r.states[i + 1].tasks[t].pc) <==>
                       id in cl.pending && cl.pending[id] == gen)
               && (forall id | id in cl.pending && cl.pending[id] == gen ::
                       id in cl'.channels && cl'.channels[id] == Taken(t))
  {
    hide Act, SendIds, AllSettle;
    var s, e := r.states[i], r.events[i];
    var cl := s.clients[s.tasks[t].client];
    RunSettles(r, maxProcesses, i);
    StepSettles(s, e);
    assert AllSettle(s) ==> ClientSettles(cl, s.tasks[t].client, s.tasks) by { AllThenClient(s, s.tasks[t].client); }
    PendingSenders(cl);
    assert e.effect.born.Some? ==> e.spare != t;
  }

  lemma AllThenClient(s: State, c: ClientId)
    requires c in s.clients
    ensures AllSettle(s) ==> ClientSettles(s.clients[c], c, s.tasks)
  {
  }

  /** Whatever was taken out to be failed is failed: it waits in the hands of its task, or its
      caller's sender has carried the failure. */
  lemma TakenIsFailed(r: Trace, maxProcesses: nat, i: nat, j: nat, c: ClientId, t: TaskId, id: RequestId)
    requires IsRun(r, maxProcesses) && i <= j < |r.states| && c in r.states[i].clients
    requires id in r.states[i].clients[c].channels && r.states[i].clients[c].channels[id] == Taken(t)
    ensures c in r.states[j].clients && id in r.states[j].clients[c].channels
    ensures var s := r.states[j];
            s.clients[c].channels[id] == Sent(GenerationFailed)
            || (t in s.tasks && id in SendIds(s.tasks[t].pc) && s.clients[c].channels[id] == Taken(t))
  {
    hide IsRun, BooksOk, RepliesOk, SettleTask;
    OutcomesStay(r, maxProcesses, i, j, c);
    assert IdStays(r.states[i].clients[c], r.states[j].clients[c], id);
    RunSettles(r, maxProcesses, j);
    assert ClientSettles(r.states[j].clients[c], c, r.states[j].tasks);
  }

  /** The answer a caller returns is the outcome of a request of its own. */
  ghost predicate HasOutcome(cl: Client, t: TaskId, a: Answer) {
    exists id :: IsOutcome(cl, t, id, a)
  }

  predicate IsOutcome(cl: Client, t: TaskId, id: RequestId, a: Answer) {
    id in cl.owner && cl.owner[id] == t && id in cl.outcome && cl.outcome[id] == Replied(a)
  }

  ghost predicate AllReturnOutcomes(s: State) {
    forall t | t in s.tasks && ResultOf(s.tasks[t].pc).Some? ::
      s.tasks[t].client in s.clients && HasOutcome(s.clients[s.tasks[t].client], t, ResultOf(s.tasks[t].pc).value)
  }

  lemma HasOutcomeStays(cl: Client, cl': Client, t: TaskId, a: Answer)
    requires Stays(cl, cl') && HasOutcome(cl, t, a)
    ensures HasOutcome(cl', t, a)
  {
    var id :| IsOutcome(cl, t, id, a);
    assert IdStays(cl, cl', id);
    assert IsOutcome(cl', t, id, a);
  }

  lemma GivesOutcome(cl: Client, t: TaskId, task: Task, op: Op, pc: Pc)
    requires SettleLocal(cl, task, op, pc) && SettledOp(cl, t, op) && EndsRequest(op)
    requires ResultOf(pc).Some? && op.outcome == Replied(ResultOf(pc).value)
    ensures HasOutcome(Perform(cl, t, op), t, ResultOf(pc).value)
  {
    hide SettleLocal, OutcomeOk, ResultOf;
    assert IsOutcome(Perform(cl, t, op), t, op.id, ResultOf(pc).value);
  }

  lemma NewbornHasNoResult(role: Role)
    ensures ResultOf(FirstPc(role)).None?
  {
  }

  lemma AfterReturnsOutcomes(s: State, e: Event)
    requires AllLocksOk(s) && AllSettle(s) && AllReturnOutcomes(s) && Enabled(s, e)
    ensures AllReturnOutcomes(After(s, e))
  {
    hide Act, Handle, AllSettle, AllLocksOk, SettledOp, Stays, HasOutcome, Perform, ResultOf, FirstPc;
    AfterSettles(s, e);
    var s' := After(s, e);
    forall t | t in s'.tasks && ResultOf(s'.tasks[t].pc).Some?
      ensures s'.tasks[t].client in s'.clients
              && HasOutcome(s'.clients[s'.tasks[t].client], t, ResultOf(s'.tasks[t].pc).value) {
      ResultKept(s, e, t);
    }
  }

  lemma ResultKept(s: State, e: Event, t: TaskId)
    requires AllLocksOk(s) && AllSettle(s) && AllReturnOutcomes(s) && Enabled(s, e) && EventSettled(s, e)
    requires t in After(s, e).tasks && ResultOf(After(s, e).tasks[t].pc).Some?
    ensures var s' := After(s, e);
            s'.tasks[t].client in s'.clients
              && HasOutcome(s'.clients[s'.tasks[t].client], t, ResultOf(s'.tasks[t].pc).value)
  {
    hide Act, Handle, AllSettle, AllLocksOk, SettledOp, Stays, HasOutcome, Perform, ResultOf, FirstPc, SettleLocal,
         Abortable;
    var s' := After(s, e);
    var a := ResultOf(s'.tasks[t].pc).value;
    if t !in s.tasks {
      NewbornHasNoResult(s'.tasks[t].role);
    } else {
      var c := s.tasks[t].client;
      if e.Step? && e.t == t {
        StepSettles(s, e);
        StepResult(s.clients[c], s.tasks[t], e.effect.op, e.effect.pc);
        if EndsRequest(e.effect.op) && e.effect.op.outcome == Replied(a) {
          GivesOutcome(s.clients[c], t, s.tasks[t], e.effect.op, e.effect.pc);
          return;
        }
      } else if e.Abort? && e.t == t {
        NoResultOfClosed();
      }
      AfterStays(s, e, c);
      HasOutcomeStays(s.clients[c], s'.clients[c], t, a);
    }
  }

  lemma NoResultOfClosed()
    ensures ResultOf(Done(Closed)).None?
  {
  }

  lemma StepResult(cl: Client, task: Task, op: Op, pc: Pc)
    requires SettleLocal(cl, task, op, pc) && ResultOf(pc).Some?
    ensures ResultOf(pc) == ResultOf(task.pc) || (EndsRequest(op) && op.outcome == Replied(ResultOf(pc).value))
  {
  }

  /** In every run, whoever returns an answer returns the recorded outcome of one of its own ids. */
  lemma {:induction false} ReturnsOwnOutcome(r: Trace, maxProcesses: nat, i: nat)
    requires IsRun(r, maxProcesses) && i < |r.states|
    ensures AllReturnOutcomes(r.states[i])
  {
    hide After, Enabled, AllSettle, AllLocksOk, HasOutcome, ResultOf;
    if i > 0 {
      ReturnsOwnOutcome(r, maxProcesses, i - 1);
      RunSettles(r, maxProcesses, i - 1);
      RunLocks(r, maxProcesses, i - 1);
      AfterReturnsOutcomes(r.states[i - 1], r.events[i - 1]);
    }
  }
}
