/** The Codex app-server clients as a state machine whose steps are the code's critical sections
    (backend/src/codex_app_server.rs). Any number of clients, callers, closers and process
    supervisors interleave; deadlines, write errors, exits and messages may happen at any time. */
module AppServer {
  import opened Text

  type TaskId = nat
  type ClientId = nat
  type RequestId = nat
  type Generation = nat

  /** An installed or detached `ProcessState`; every value of this type holds a process slot. */
  datatype Proc = Proc(gen: Generation, handoff: bool)

  /** `ObservedAppServerRequest`: a request of the server, stamped by the reader that saw it. */
  datatype Observed = Observed(key: string, name: string, params: nat, client: ClientId, gen: Generation, handoff: bool)

  datatype Answer = Answer(ok: bool, body: nat, turn: Option<string>)

  /** What the one-shot sender of a pending request has delivered. */
  datatype Letter = Reply(answer: Answer) | GenerationFailed

  /** The life of a request's one-shot sender: in the `pending` map, in the hands of a task that
      took it out to fail it, used, or dropped unused. */
  datatype Channel = Pending | Taken(holder: TaskId) | Sent(letter: Letter) | Dropped

  datatype Outcome =
    | Refused | NotStarted | NotRunning | Replied(answer: Answer) | Failed | WriteFailed | TimedOut | ChannelLost
    | Answered | Started | Closed

  /** The fields of `AppServerClientInner`, followed by history that no step reads except the
      purge of requests whose receiver is gone (`closed`). */
  datatype Client = Client(
    readers: set<TaskId>,
    writer: Option<TaskId>,
    start: Option<TaskId>,
    process: Option<Proc>,
    pending: map<RequestId, Generation>,
    turns: map<string, Generation>,
    requests: map<string, Observed>,
    nextRequest: RequestId,
    nextGeneration: Generation,
    retired: bool,
    closed: set<RequestId>,
    channels: map<RequestId, Channel>,
    installed: seq<Generation>,
    woken: map<Generation, bool>,
    owner: map<RequestId, TaskId>,
    outcome: map<RequestId, Outcome>,
    replies: set<(RequestId, Answer)>)

  /** What a task is for. An `App` task is a call of `request` or, with a `deadline` of its own,
      of `request_with_timeout`; `Startup` is the detached start of the latter. `Quiesce` closes a
      client that looks idle, without waiting for its lock when `eager`. */
  datatype Role =
    | App(deadline: bool, recover: bool, startsTurn: bool)
    | Startup
    | Respond(key: string, observed: Option<Observed>)
    | Close
    | Retire
    | Quiesce(eager: bool)
    | Supervise(gen: Generation, handoff: bool)

  /** Where a task that closes a process goes on afterwards. */
  datatype Cause = StartFailed | Recovered | Ended

  datatype Pc =
    // entering the client
    | Entry | AwaitRead | Recheck | AwaitStartup(child: TaskId) | PurgeClosed | LeaveRead(outcome: Outcome)
    // starting its process
    | EnsureEntry | AwaitStart | StartRecheck | Inspect | EndStale(proc: Proc)
    | CheckSlots | NextVictim | Evicting(child: TaskId) | TakeSlot | Spawning
    | Install(proc: Proc) | Wake(gen: Generation, handoff: bool) | Initialized | LeaveStart(ok: bool)
    // one request, `init` telling the handshake from the caller's own
    | Allocate(init: bool) | Snapshot(init: bool, id: RequestId)
    | Register(init: bool, id: RequestId, gen: Generation) | Write(init: bool, id: RequestId, gen: Generation)
    | Wait(init: bool, id: RequestId, gen: Generation)
    | Forget(init: bool, id: RequestId, gen: Generation, why: Outcome)
    | Record(gen: Generation, answer: Answer) | CheckWork(n: nat, gen: Generation) | TakePoisoned(gen: Generation)
    // answering a request of the server
    | PickWriter | WriteAnswer(gen: Generation, handoff: bool) | ForgetAnswer
    // closing
    | AwaitWrite | Retiring | CheckIdle(n: nat) | TakeProcess(cause: Cause)
    | FailGeneration(proc: Proc, cause: Cause) | SendFailures(ids: set<RequestId>, proc: Proc, cause: Cause)
    | DropProcess(proc: Proc, cause: Cause) | LeaveWrite
    // supervising a process
    | Parked | Serving | TryGuard(alive: bool) | EarlyFail(alive: bool) | EarlySend(alive: bool, ids: set<RequestId>)
    | AwaitGuard(alive: bool) | ClearProcess(alive: bool, failed: bool) | LateFail(alive: bool, cleared: bool)
    | LateSend(alive: bool, cleared: bool, ids: set<RequestId>) | ClearWork(alive: bool, cleared: bool)
    | ClearRequests | LeaveGuard
    | Done(outcome: Outcome)

  datatype Task = Task(client: ClientId, role: Role, pc: Pc)

  /** How the world resolves a step: it goes on, it fails, its deadline passes, a spawn succeeds,
      a sender is picked, the supervised process is shut down or exits, another client is evicted. */
  datatype Choice =
    | Go | Fail | Expire | Spawned(handoff: bool) | Pick(id: RequestId) | ShutDown | Exit(alive: bool)
    | Evict(client: ClientId)

  /** What one step does to its client: the body of one critical section, or one atomic write. */
  datatype Op =
    | Nop
    | EnterRead | ExitRead | EnterWrite | ExitWrite | EnterStart | ExitStart
    | SetRetired
    | RemoveProcess | SetProcess(proc: Proc)
    | NewGeneration | WakeGeneration(gen: Generation, handoff: bool)
    | NewRequest | Insert(id: RequestId, gen: Generation) | CloseReceiver(id: RequestId)
    | Settle(id: RequestId, outcome: Outcome) | GiveUp(id: RequestId, outcome: Outcome)
    | PurgeReceivers | TakeGeneration(gen: Generation) | SendFailure(id: RequestId)
    | AddTurn(turn: string, gen: Generation) | RemoveTurn(turn: string) | ClearTurns
    | AddRequest(observed: Observed) | RemoveRequest(key: string) | ClearAllRequests
    | DeliverReply(id: RequestId, answer: Answer)

  /** A task that a step begins, and the client it is for. */
  datatype Born = Born(client: ClientId, role: Role)

  /** One step of a task: what it does to its client, where it goes, the slots it gives back and
      the task it begins. */
  datatype Effect = Effect(op: Op, pc: Pc, slots: int, born: Option<Born>)

  function Goto(pc: Pc): Option<Effect> {
    Some(Effect(Nop, pc, 0, None))
  }

  function Do(op: Op, pc: Pc): Option<Effect> {
    Some(Effect(op, pc, 0, None))
  }

  // ----- critical sections on the client -----

  function OfGeneration(cl: Client, gen: Generation): (ids: set<RequestId>)
    ensures ids <= cl.pending.Keys
  {
    set id | id in cl.pending && cl.pending[id] == gen
  }

  function WithChannels(channels: map<RequestId, Channel>, ids: set<RequestId>,
                        ch: Channel): (r: map<RequestId, Channel>)
    ensures r.Keys == channels.Keys
    ensures forall id | id in r :: r[id] == if id in ids then ch else channels[id]
  {
    map id | id in channels :: if id in ids then ch else channels[id]
  }

  function Perform(cl: Client, t: TaskId, op: Op): Client {
    match op
    case Nop => cl
    case EnterRead => cl.(readers := cl.readers + {t})
    case ExitRead => cl.(readers := cl.readers - {t})
    case EnterWrite => cl.(writer := Some(t))
    case ExitWrite => cl.(writer := None)
    case EnterStart => cl.(start := Some(t))
    case ExitStart => cl.(start := None)
    case SetRetired => cl.(retired := true)
    case RemoveProcess => cl.(process := None)
    case SetProcess(p) => cl.(process := Some(p), installed := cl.installed + [p.gen])
    case NewGeneration => cl.(nextGeneration := cl.nextGeneration + 1)
    case WakeGeneration(gen, handoff) => cl.(woken := cl.woken[gen := handoff])
    case NewRequest => cl.(nextRequest := cl.nextRequest + 1, owner := cl.owner[cl.nextRequest := t])
    case Insert(id, gen) => cl.(pending := cl.pending[id := gen], channels := cl.channels[id := Pending])
    case CloseReceiver(id) => cl.(closed := cl.closed + {id})
    case Settle(id, o) => cl.(outcome := cl.outcome[id := o])
    // The caller removes its own entry; the sender is dropped with it if it is still there.
    case GiveUp(id, o) =>
      cl.(outcome := cl.outcome[id := o], pending := cl.pending - {id},
          channels := if id in cl.pending then cl.channels[id := Dropped] else cl.channels)
    // Entries whose receiver is gone are dropped.
    case PurgeReceivers =>
      var gone := cl.pending.Keys * cl.closed;
      cl.(pending := cl.pending - gone, channels := WithChannels(cl.channels, gone, Dropped))
    // The locked part of `fail_pending_requests`.
    case TakeGeneration(gen) =>
      var ids := OfGeneration(cl, gen);
      cl.(pending := cl.pending - ids, channels := WithChannels(cl.channels, ids, Taken(t)))
    case SendFailure(id) => cl.(channels := cl.channels[id := Sent(GenerationFailed)])
    case AddTurn(turn, gen) => cl.(turns := cl.turns[turn := gen])
    case RemoveTurn(turn) => cl.(turns := cl.turns - {turn})
    case ClearTurns => cl.(turns := map[])
    case AddRequest(o) => cl.(requests := cl.requests[o.key := o])
    case RemoveRequest(key) => cl.(requests := cl.requests - {key})
    case ClearAllRequests => cl.(requests := map[])
    case DeliverReply(id, answer) =>
      cl.(pending := cl.pending - {id}, channels := cl.channels[id := Sent(Reply(answer))],
          replies := cl.replies + {(id, answer)})
  }

  // ----- where sub-procedures return to -----

  /** The end of a failed start, for the task that ran it. */
  function StartRefused(role: Role, o: Outcome): Pc {
    if role.App? then LeaveRead(o) else Done(o)
  }

  function RequestFailed(init: bool, o: Outcome): Pc {
    if init then TakeProcess(StartFailed) else LeaveRead(o)
  }

  function AfterClose(role: Role, cause: Cause): Pc {
    match cause
    case StartFailed => LeaveStart(false)
    case Recovered => LeaveRead(TimedOut)
    case Ended => if role.Close? then Done(Closed) else LeaveWrite
  }

  // ----- the steps, by phase -----

  function Enter(cl: Client, task: Task, child: Option<Outcome>, spare: TaskId, ch: Choice): Option<Effect> {
    match task.pc
    case Entry => Goto(if cl.retired then Done(Refused) else AwaitRead)
    case AwaitRead => if cl.writer.Some? then None else Do(EnterRead, Recheck)
    case Recheck =>
      if cl.retired then Goto(LeaveRead(Refused))
      else if task.role.Respond? then Goto(PickWriter)
      else if task.role.App? && task.role.deadline then Some(Effect(Nop, AwaitStartup(spare), 0,
                                                                    Some(Born(task.client, Startup))))
      else Goto(EnsureEntry)
    case AwaitStartup(_) =>
      if ch == Expire then Goto(PurgeClosed)
      else if child == Some(Started) then Goto(Allocate(false))
      else if child.Some? then Goto(LeaveRead(NotStarted))
      else None
    case PurgeClosed => Do(PurgeReceivers, LeaveRead(TimedOut))
    case LeaveRead(o) => Do(ExitRead, Done(o))
    case _ => None
  }

  /** Answering or rejecting a request of the server. */
  function RespondTo(cl: Client, task: Task, ch: Choice): Option<Effect> {
    match task.pc
    case PickWriter =>
      if ch == Go && cl.process.Some? && MayAnswer(task, cl.process.value) then
        Goto(WriteAnswer(cl.process.value.gen, cl.process.value.handoff))
      else Goto(LeaveRead(Refused))
    case WriteAnswer(_, _) => Goto(if ch == Go then ForgetAnswer else LeaveRead(WriteFailed))
    case ForgetAnswer =>
      Do(if task.role.Respond? && StillObserved(cl, task.role.key, task.role.observed)
         then RemoveRequest(task.role.key) else Nop,
         LeaveRead(Answered))
    case _ => None
  }

  /** The tests of `writer_for_server_request` against the process it found. */
  predicate MayAnswer(task: Task, p: Proc) {
    task.role.Respond? && (task.role.observed.Some? ==>
      var seen := task.role.observed.value;
      seen.client == task.client && (p.gen == seen.gen || (seen.handoff && p.handoff)))
  }

  /** The test of `remove_pending_server_request_if_matches`. */
  predicate StillObserved(cl: Client, key: string, observed: Option<Observed>) {
    observed.None? || (key in cl.requests && cl.requests[key] == observed.value)
  }

  function Start(cl: Client, task: Task, ch: Choice): Option<Effect> {
    match task.pc
    case EnsureEntry => Goto(if cl.retired then StartRefused(task.role, Refused) else AwaitStart)
    case AwaitStart => if cl.start.Some? then None else Do(EnterStart, StartRecheck)
    case StartRecheck => Goto(if cl.retired then LeaveStart(false) else Inspect)
    case Inspect =>
      if cl.process.None? then Goto(CheckSlots)
      else if ch == Go then Goto(LeaveStart(true))
      else Do(RemoveProcess, EndStale(cl.process.value))
    case LeaveStart(ok) =>
      Do(ExitStart,
         if !ok then StartRefused(task.role, NotStarted)
         else if task.role.App? then Allocate(false)
         else Done(Started))
    case _ => None
  }

  /** `spawn_process` and the installation of what it returns. */
  function SpawnProcess(cl: Client, task: Task, slotFree: bool, ch: Choice): Option<Effect> {
    match task.pc
    case EndStale(_) => Some(Effect(Nop, CheckSlots, 1, None))
    case TakeSlot =>
      if ch == Expire then Goto(LeaveStart(false))
      else if slotFree then Some(Effect(Nop, Spawning, -1, None))
      else None
    case Spawning =>
      if ch.Spawned? then
        Some(Effect(NewGeneration, Install(Proc(cl.nextGeneration, ch.handoff)), 0,
                    Some(Born(task.client, Supervise(cl.nextGeneration, ch.handoff)))))
      else Some(Effect(Nop, LeaveStart(false), 1, None))
    case Install(p) => Do(SetProcess(p), Wake(p.gen, p.handoff))
    case Wake(gen, handoff) => Do(WakeGeneration(gen, handoff), Allocate(true))
    case Initialized => Goto(if cl.process.Some? && ch == Go then LeaveStart(true) else TakeProcess(StartFailed))
    case _ => None
  }

  /** The eviction at the head of `spawn_process`: when no slot is free, it tries to close idle clients
      other than its own, one after the other, each by a task it waits for without a deadline. */
  function MakeRoom(task: Task, slotFree: bool, child: Option<Outcome>, spare: TaskId, ch: Choice): Option<Effect> {
    match task.pc
    case CheckSlots => Goto(if slotFree then TakeSlot else NextVictim)
    case NextVictim =>
      if ch.Evict? && ch.client != task.client then
        Some(Effect(Nop, Evicting(spare), 0, Some(Born(ch.client, Quiesce(true)))))
      else Goto(TakeSlot)
    case Evicting(_) => if child.Some? then Goto(NextVictim) else None
    case _ => None
  }

  function Request(cl: Client, task: Task, ch: Choice): Option<Effect> {
    match task.pc
    case Allocate(init) => Do(NewRequest, Snapshot(init, cl.nextRequest))
    case Snapshot(init, id) =>
      if cl.process.None? then Do(Settle(id, NotRunning), RequestFailed(init, NotRunning))
      else Goto(Register(init, id, cl.process.value.gen))
    case Register(init, id, gen) => Do(Insert(id, gen), Write(init, id, gen))
    case Write(init, id, gen) =>
      Goto(if ch == Go then Wait(init, id, gen) else Forget(init, id, gen, if ch == Expire then TimedOut
                                                            else WriteFailed))
    case Wait(init, id, gen) =>
      if ch == Expire then Do(CloseReceiver(id), Forget(init, id, gen, TimedOut))
      else if id in cl.channels then
        match Received(cl.channels[id])
        case None => None
        case Some(o) => Do(Settle(id, o), AfterReply(init, gen, o))
      else None
    case Forget(init, id, gen, why) =>
      Do(GiveUp(id, why),
         if why == TimedOut && !init && task.role.App? && task.role.recover then CheckWork(0, gen)
           else RequestFailed(init, why))
    case Record(gen, answer) =>
      Do(if answer.turn.Some? && task.role.App? && task.role.startsTurn then AddTurn(answer.turn.value, gen) else Nop,
         LeaveRead(Replied(answer)))
    case CheckWork(n, gen) =>
      Goto(if OwnsWork(cl, n) then LeaveRead(TimedOut) else if n < 2 then CheckWork(n + 1, gen) else TakePoisoned(gen))
    case TakePoisoned(gen) =>
      if cl.process.Some? && cl.process.value.gen == gen then Do(RemoveProcess,
                                                                 FailGeneration(cl.process.value, Recovered))
      else Goto(LeaveRead(TimedOut))
    case _ => None
  }

  /** What awaiting the one-shot receiver gives, if it is ready. */
  function Received(ch: Channel): Option<Outcome> {
    match ch
    case Sent(Reply(answer)) => Some(Replied(answer))
    case Sent(GenerationFailed) => Some(Failed)
    case Dropped => Some(ChannelLost)
    case _ => None
  }

  function AfterReply(init: bool, gen: Generation, o: Outcome): Pc {
    if o.Replied? && o.answer.ok then if init then Initialized else Record(gen, o.answer)
    else RequestFailed(init, o)
  }

  /** The n-th of the three tests of `has_live_work`. */
  predicate HasWork(cl: Client, n: nat) {
    if n == 0 then cl.pending.Keys != {} else if n == 1 then cl.turns.Keys != {} else cl.requests.Keys != {}
  }

  /** The n-th of the three tests of `recover_process_after_request_timeout`, in its order. */
  predicate OwnsWork(cl: Client, n: nat) {
    HasWork(cl, if n == 0 then 1 else if n == 1 then 0 else 2)
  }

  function Shut(cl: Client, task: Task, ch: Choice): Option<Effect> {
    match task.pc
    case AwaitWrite =>
      if cl.writer.Some? || cl.readers != {} then if task.role == Quiesce(true) then Goto(Done(Refused)) else None
      else Do(EnterWrite, if task.role.Retire? then Retiring else CheckIdle(0))
    case Retiring => Do(SetRetired, TakeProcess(Ended))
    case CheckIdle(n) =>
      Goto(if HasWork(cl, n) || ch == Fail then LeaveWrite else if n < 2 then CheckIdle(n + 1) else TakeProcess(Ended))
    case LeaveWrite => Do(ExitWrite, Done(Closed))
    case _ => None
  }

  /** `close_process_on_controller`, and the end of a recovery after a timeout. */
  function Dispose(cl: Client, role: Role, pc: Pc, ch: Choice): Option<Effect> {
    match pc
    case TakeProcess(cause) =>
      if cl.process.None? then Goto(AfterClose(role, cause))
      else Do(RemoveProcess, FailGeneration(cl.process.value, cause))
    case FailGeneration(p, cause) => Do(TakeGeneration(p.gen), SendFailures(OfGeneration(cl, p.gen), p, cause))
    case SendFailures(ids, p, cause) =>
      if ids == {} then Goto(DropProcess(p, cause))
      else if ch.Pick? && ch.id in ids then Do(SendFailure(ch.id), SendFailures(ids - {ch.id}, p, cause))
      else None
    case DropProcess(_, cause) => Some(Effect(Nop, AfterClose(role, cause), 1, None))
    case _ => None
  }

  /** `supervise_process` and `supervise_handoff_connection` up to the finaliser's guard. Only the latter,
      whose process may be a connection to a daemon, asks whether it is alive. */
  function Watch(cl: Client, gen: Generation, handoff: bool, pc: Pc, ch: Choice): Option<Effect> {
    match pc
    case Parked => if gen in cl.woken then Goto(Serving) else None
    case Serving => if ch == ShutDown then Goto(Done(Closed)) else if ch.Exit? then Goto(TryGuard(handoff && ch.alive))
      else None
    case TryGuard(alive) => if cl.start.None? then Do(EnterStart, ClearProcess(alive, false))
      else Goto(EarlyFail(alive))
    case EarlyFail(alive) => Do(TakeGeneration(gen), EarlySend(alive, OfGeneration(cl, gen)))
    case EarlySend(alive, ids) =>
      if ids == {} then Goto(AwaitGuard(alive))
      else if ch.Pick? && ch.id in ids then Do(SendFailure(ch.id), EarlySend(alive, ids - {ch.id}))
      else None
    case AwaitGuard(alive) => if cl.start.Some? then None else Do(EnterStart, ClearProcess(alive, true))
    case _ => None
  }

  /** `finalize_process_exit`, or `finalize_handoff_connection_loss` when the daemon is alive. */
  function Finalise(cl: Client, gen: Generation, pc: Pc, ch: Choice): Option<Effect> {
    match pc
    case ClearProcess(alive, failed) =>
      var current := cl.process.Some? && cl.process.value.gen == gen;
      Some(Effect(if current then RemoveProcess else Nop,
                  if failed then ClearWork(alive, current) else LateFail(alive, current),
                  if current then 1 else 0, None))
    case LateFail(alive, cleared) => Do(TakeGeneration(gen), LateSend(alive, cleared, OfGeneration(cl, gen)))
    case LateSend(alive, cleared, ids) =>
      if ids == {} then Goto(ClearWork(alive, cleared))
      else if ch.Pick? && ch.id in ids then Do(SendFailure(ch.id), LateSend(alive, cleared, ids - {ch.id}))
      else None
    case ClearWork(alive, cleared) => if cleared && !alive then Do(ClearTurns, ClearRequests) else Goto(LeaveGuard)
    case ClearRequests => Do(ClearAllRequests, LeaveGuard)
    case LeaveGuard => Do(ExitStart, Done(Closed))
    case _ => None
  }

  function Act(cl: Client, task: Task, slotFree: bool, child: Option<Outcome>, spare: TaskId,
               ch: Choice): Option<Effect> {
    if InEnter(task.pc) then Enter(cl, task, child, spare, ch)
    else if InRespond(task.pc) then RespondTo(cl, task, ch)
    else if InStart(task.pc) then Start(cl, task, ch)
    else if InSpawn(task.pc) then SpawnProcess(cl, task, slotFree, ch)
    else if InMakeRoom(task.pc) then MakeRoom(task, slotFree, child, spare, ch)
    else if InRequest(task.pc) then Request(cl, task, ch)
    else if InShut(task.pc) then Shut(cl, task, ch)
    else if InDispose(task.pc) then Dispose(cl, task.role, task.pc, ch)
    else if !task.role.Supervise? then None
    else if InWatch(task.pc) then Watch(cl, task.role.gen, task.role.handoff, task.pc, ch)
    else Finalise(cl, task.role.gen, task.pc, ch)
  }

  predicate InEnter(pc: Pc) {
    pc.Entry? || pc.AwaitRead? || pc.Recheck? || pc.AwaitStartup? || pc.PurgeClosed? || pc.LeaveRead?
  }

  predicate InRespond(pc: Pc) {
    pc.PickWriter? || pc.WriteAnswer? || pc.ForgetAnswer?
  }

  predicate InStart(pc: Pc) {
    pc.EnsureEntry? || pc.AwaitStart? || pc.StartRecheck? || pc.Inspect? || pc.LeaveStart?
  }

  predicate InSpawn(pc: Pc) {
    pc.EndStale? || pc.TakeSlot? || pc.Spawning? || pc.Install? || pc.Wake? || pc.Initialized?
  }

  predicate InMakeRoom(pc: Pc) {
    pc.CheckSlots? || pc.NextVictim? || pc.Evicting?
  }

  predicate InRequest(pc: Pc) {
    pc.Allocate? || pc.Snapshot? || pc.Register? || pc.Write? || pc.Wait? || pc.Forget? || pc.Record?
    || pc.CheckWork? || pc.TakePoisoned?
  }

  predicate InShut(pc: Pc) {
    pc.AwaitWrite? || pc.Retiring? || pc.CheckIdle? || pc.LeaveWrite?
  }

  predicate InDispose(pc: Pc) {
    pc.TakeProcess? || pc.FailGeneration? || pc.SendFailures? || pc.DropProcess?
  }

  predicate InWatch(pc: Pc) {
    pc.Parked? || pc.Serving? || pc.TryGuard? || pc.EarlyFail? || pc.EarlySend? || pc.AwaitGuard?
  }

  // ----- the whole system -----

  datatype State = State(clients: map<ClientId, Client>, tasks: map<TaskId, Task>, permits: nat)

  /** A message that the reader of one generation hands to its client. */
  datatype Message =
    | Response(id: RequestId, answer: Answer)
    | TurnStarted(turn: string)
    | TurnCompleted(turn: string)
    | ServerRequest(key: string, name: string, params: nat)

  /** What happens next: a caller shows up, a task takes its next step, a supervisor is aborted,
      a reader hands over a message. The events of steps and messages carry what the code does. */
  datatype Event =
    | Arrive(client: ClientId, role: Role, t: TaskId)
    | Step(t: TaskId, choice: Choice, spare: TaskId, effect: Effect)
    | Abort(t: TaskId)
    | Receive(client: ClientId, gen: Generation, message: Message, op: Op)

  /** `handle_incoming_message`; a response settles whatever entry has its id. */
  function Handle(cl: Client, c: ClientId, gen: Generation, handoff: bool, m: Message): Op {
    match m
    case Response(id, answer) => if id in cl.pending then DeliverReply(id, answer) else Nop
    case TurnStarted(turn) => AddTurn(turn, gen)
    case TurnCompleted(turn) => RemoveTurn(turn)
    case ServerRequest(key, name, params) => AddRequest(Observed(key, name, params, c, gen, handoff))
  }

  function FirstPc(role: Role): Pc {
    match role
    case App(_, _, _) => Entry
    case Respond(_, _) => Entry
    case Startup => EnsureEntry
    case Close => TakeProcess(Ended)
    case Retire => AwaitWrite
    case Quiesce(_) => AwaitWrite
    case Supervise(_, _) => Parked
  }

  /** A task can begin under this number, for a client there is. */
  predicate HasRoomFor(s: State, born: Option<Born>, spare: TaskId) {
    born.Some? ==> spare !in s.tasks && born.value.client in s.clients
  }

  function NewTask(b: Born): Task {
    Task(b.client, b.role, FirstPc(b.role))
  }

  function ChildOutcome(s: State, pc: Pc): Option<Outcome> {
    if (pc.AwaitStartup? || pc.Evicting?) && pc.child in s.tasks && s.tasks[pc.child].pc.Done? then
      Some(s.tasks[pc.child].pc.outcome)
    else None
  }

  /** A supervisor can be aborted at any point where it awaits; a lock guard goes with it. */
  predicate Abortable(task: Task) {
    task.role.Supervise? && !task.pc.Done? && !task.pc.EarlySend? && !task.pc.LateSend?
  }

  /** The event can happen, and what it carries is what the code does. */
  ghost predicate Enabled(s: State, e: Event) {
    match e
    case Arrive(c, role, t) => c in s.clients && t !in s.tasks && !role.Startup? && !role.Supervise?
    case Step(t, ch, spare, eff) =>
      && t in s.tasks && spare !in s.tasks && s.tasks[t].client in s.clients && HasRoomFor(s, eff.born, spare)
      && Act(s.clients[s.tasks[t].client], s.tasks[t], s.permits > 0, ChildOutcome(s, s.tasks[t].pc), spare, ch)
        == Some(eff)
      && s.permits + eff.slots >= 0
    case Abort(t) => t in s.tasks && s.tasks[t].client in s.clients && Abortable(s.tasks[t])
    case Receive(c, gen, m, op) =>
      c in s.clients && gen in s.clients[c].woken && op == Handle(s.clients[c], c, gen, s.clients[c].woken[gen], m)
  }

  function AbortOp(cl: Client, t: TaskId): Op {
    if cl.start == Some(t) then ExitStart else Nop
  }

  /** The task and the client of one step. */
  function Move(s: State, t: TaskId, op: Op, pc: Pc, slots: int, born: Option<Born>, spare: TaskId): State
    requires t in s.tasks && s.tasks[t].client in s.clients && s.permits + slots >= 0
  {
    var task := s.tasks[t];
    var moved := s.tasks[t := task.(pc := pc)];
    State(s.clients[task.client := Perform(s.clients[task.client], t, op)],
          if born.Some? then moved[spare := NewTask(born.value)] else moved,
          s.permits + slots)
  }

  /** The state after an event. A reader is no task; nothing a message does depends on one. */
  ghost function After(s: State, e: Event): State
    requires Enabled(s, e)
  {
    match e
    case Arrive(c, role, t) => s.(tasks := s.tasks[t := Task(c, role, FirstPc(role))])
    case Step(t, _, spare, eff) => Move(s, t, eff.op, eff.pc, eff.slots, eff.born, spare)
    case Abort(t) => Move(s, t, AbortOp(s.clients[s.tasks[t].client], t), Done(Closed), 0, None, t)
    case Receive(c, _, _, op) => s.(clients := s.clients[c := Perform(s.clients[c], 0, op)])
  }

  function NewClient(): Client {
    Client({}, None, None, None, map[], map[], map[], 1, 1, false, {}, map[], [], map[], map[], map[], {})
  }

  ghost predicate Initial(s: State, maxProcesses: nat) {
    && (forall c | c in s.clients :: s.clients[c] == NewClient())
    && s.tasks == map[]
    && s.permits == maxProcesses
  }

  /** A run: the states it goes through and the events between them. */
  datatype Trace = Trace(states: seq<State>, events: seq<Event>)

  ghost predicate IsRun(r: Trace, maxProcesses: nat) {
    && |r.states| == |r.events| + 1
    && Initial(r.states[0], maxProcesses)
    && forall i | 0 <= i < |r.events| ::
            Enabled(r.states[i], r.events[i]) && r.states[i + 1] == After(r.states[i], r.events[i])
  }
}
