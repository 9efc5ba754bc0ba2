/** The critical sections of one app-server client as methods on its fields. Each is proved to do
    to the client what the state machine's operation of the same purpose does, so that what holds of
    every run of the machine holds of these bodies, whatever happens between two of them. */
module AppServerClient {
  import opened Text
  import opened AppServer

  /** The ids that wait for a process of one generation. */
  function IdsOf(pending: map<RequestId, Generation>, gen: Generation): set<RequestId> {
    set id | id in pending && pending[id] == gen
  }

  /** The entries whose receiver is not gone. */
  method Retain(pending: map<RequestId, Generation>, isClosed: RequestId -> bool)
    returns (kept: map<RequestId, Generation>)
    ensures kept == pending - set id | id in pending && isClosed(id)
  {
    var todo := pending.Keys;
    kept := map[];
    while todo != {}
      invariant todo <= pending.Keys && kept.Keys == set id | id in pending && id !in todo && !isClosed(id)
      invariant forall id | id in kept :: kept[id] == pending[id]
      decreases |todo|
    {
      var id :| id in todo;
      if !isClosed(id) {
        kept := kept[id := pending[id]];
      }
      todo := todo - {id};
    }
  }

  /** The ids of one generation, and the entries of all the others. */
  method SplitByGeneration(pending: map<RequestId, Generation>, gen: Generation)
    returns (taken: set<RequestId>, kept: map<RequestId, Generation>)
    ensures taken == IdsOf(pending, gen)
    ensures kept == pending - taken
  {
    var todo := pending.Keys;
    taken, kept := {}, map[];
    while todo != {}
      invariant todo <= pending.Keys
      invariant taken == set id | id in pending && id !in todo && pending[id] == gen
      invariant kept.Keys == set id | id in pending && id !in todo && pending[id] != gen
      invariant forall id | id in kept :: kept[id] == pending[id]
      decreases |todo|
    {
      var id :| id in todo;
      if pending[id] == gen {
        taken := taken + {id};
      } else {
        kept := kept[id := pending[id]];
      }
      todo := todo - {id};
    }
  }

  /** `AppServerClientInner`: the locked fields, and the history that the machine keeps besides. */
  class Inner {
    var process: Option<Proc>
    var pending: map<RequestId, Generation>
    var activeTurnIds: set<string>
    var pendingServerRequests: map<string, Observed>
    var nextRequestId: RequestId
    var nextProcessGeneration: Generation
    var retired: bool
    ghost var readers: set<TaskId>
    ghost var writer: Option<TaskId>
    ghost var start: Option<TaskId>
    ghost var turns: map<string, Generation>
    ghost var closed: set<RequestId>
    ghost var channels: map<RequestId, Channel>
    ghost var installed: seq<Generation>
    ghost var woken: map<Generation, bool>
    ghost var owner: map<RequestId, TaskId>
    ghost var outcome: map<RequestId, Outcome>
    ghost var replies: set<(RequestId, Answer)>

    /** The client that the state machine speaks of. */
    ghost function View(): Client
      reads this
    {
      Client(readers, writer, start, process, pending, turns, pendingServerRequests, nextRequestId,
             nextProcessGeneration,
             retired, closed, channels, installed, woken, owner, outcome, replies)
    }

    ghost predicate Valid()
      reads this
    {
      && turns.Keys == activeTurnIds
      && (forall id | id in pending :: id in channels && channels[id].Pending?)
    }

    constructor ()
      ensures Valid() && View() == NewClient()
    {
      process := None;
      pending := map[];
      activeTurnIds := {};
      pendingServerRequests := map[];
      nextRequestId := 1;
      nextProcessGeneration := 1;
      retired := false;
      readers, writer, start := {}, None, None;
      turns, closed, channels, installed := map[], {}, map[], [];
      woken, owner, outcome, replies := map[], map[], map[], {};
    }

    // ----- requests -----

    method AllocateId(ghost t: TaskId) returns (id: RequestId)
      requires Valid()
      modifies this`nextRequestId, this`owner
      ensures Valid() && View() == Perform(old(View()), t, NewRequest)
      ensures id == old(nextRequestId) && nextRequestId == id + 1
    {
      id := nextRequestId;
      nextRequestId := nextRequestId + 1;
      owner := owner[id := t];
    }

    method Register(ghost t: TaskId, id: RequestId, gen: Generation)
      requires Valid()
      modifies this`pending, this`channels
      ensures Valid() && View() == Perform(old(View()), t, Insert(id, gen))
      ensures pending == old(pending)[id := gen] && channels == old(channels)[id := Pending]
    {
      pending := pending[id := gen];
      channels := channels[id := Pending];
    }

    /** Takes an entry out unused; its sender goes with it. */
    method RemovePending(id: RequestId)
      requires Valid()
      modifies this`pending, this`channels
      ensures Valid() && pending == old(pending) - {id}
      ensures channels == if id in old(pending) then old(channels)[id := Dropped] else old(channels)
    {
      if id in pending {
        channels := channels[id := Dropped];
      }
      pending := pending - {id};
    }

    /** A caller that could not write, or whose deadline passed, takes its own entry out. */
    method Forget(ghost t: TaskId, id: RequestId, why: Outcome)
      requires Valid()
      modifies this`pending, this`channels, this`outcome
      ensures Valid() && View() == Perform(old(View()), t, GiveUp(id, why))
      ensures pending == old(pending) - {id} && outcome == old(outcome)[id := why]
    {
      RemovePending(id);
      outcome := outcome[id := why];
    }

    /** The `retain` that drops the entries whose receiver is gone. */
    method PurgeClosed(ghost t: TaskId, isClosed: RequestId -> bool)
      requires Valid() && forall id | id in pending :: isClosed(id) <==> id in closed
      modifies this`pending, this`channels
      ensures pending == old(pending) - closed
      ensures Valid() && View() == Perform(old(View()), t, PurgeReceivers)
    {
      var kept := Retain(pending, isClosed);
      ghost var gone := pending.Keys * closed;
      assert kept == pending - gone == pending - closed;
      channels := WithChannels(channels, gone, Dropped);
      pending := kept;
    }

    /** The locked part of `fail_pending_requests`: the senders of one generation, taken out. */
    method TakePending(ghost t: TaskId, gen: Generation) returns (taken: set<RequestId>)
      requires Valid()
      modifies this`pending, this`channels
      ensures Valid() && View() == Perform(old(View()), t, TakeGeneration(gen))
      ensures taken == OfGeneration(old(View()), gen)
    {
      var kept: map<RequestId, Generation>;
      taken, kept := SplitByGeneration(pending, gen);
      assert taken == OfGeneration(View(), gen);
      assert kept == pending - taken;
      channels := WithChannels(channels, taken, Taken(t));
      pending := kept;
    }

    /** The sending part of `fail_pending_requests`, after the lock is released. */
    method SendFailures(ids: set<RequestId>)
      requires Valid() && ids !! pending.Keys && ids <= channels.Keys
      modifies this`channels
      ensures Valid()
      ensures View() == old(View()).(channels := WithChannels(old(channels), ids, Sent(GenerationFailed)))
    {
      var todo := ids;
      assert channels == WithChannels(channels, {}, Sent(GenerationFailed));
      while todo != {}
        invariant todo <= ids
        invariant View() == old(View()).(channels := WithChannels(old(channels), ids - todo, Sent(GenerationFailed)))
        invariant Valid()
        decreases |todo|
      {
        var id :| id in todo;
        channels := channels[id := Sent(GenerationFailed)];
        todo := todo - {id};
        assert channels == WithChannels(old(channels), ids - todo, Sent(GenerationFailed));
      }
      assert ids - todo == ids;
    }

    // ----- the process -----

    method Install(ghost t: TaskId, p: Proc)
      requires Valid()
      modifies this`process, this`installed
      ensures Valid() && View() == Perform(old(View()), t, SetProcess(p))
      ensures process == Some(p) && installed == old(installed) + [p.gen]
    {
      process := Some(p);
      installed := installed + [p.gen];
    }

    /** `process.take()`, or nothing when there is no process. */
    method TakeProcess(ghost t: TaskId) returns (p: Option<Proc>)
      requires Valid()
      modifies this`process
      ensures Valid() && p == old(process) && process == None
      ensures View() == Perform(old(View()), t, RemoveProcess)
    {
      p := process;
      process := None;
    }

    /** The finaliser's test and removal: only the process of its own generation. */
    method ClearProcess(ghost t: TaskId, gen: Generation) returns (cleared: bool)
      requires Valid()
      modifies this`process
      ensures Valid() && cleared == (old(process).Some? && old(process).value.gen == gen)
      ensures process == if cleared then None else old(process)
      ensures View() == Perform(old(View()), t, if cleared then RemoveProcess else Nop)
    {
      cleared := process.Some? && process.value.gen == gen;
      if cleared {
        process := None;
      }
    }

    // ----- messages -----

    /** A response settles the entry that has its id, if there is one. */
    method HandleResponse(id: RequestId, answer: Answer)
      requires Valid()
      modifies this`pending, this`channels, this`replies
      ensures pending == old(pending) - {id}
      ensures channels == if id in old(pending) then old(channels)[id := Sent(Reply(answer))] else old(channels)
      ensures Valid() && View() == Perform(old(View()), 0, if id in old(pending) then DeliverReply(id, answer) else Nop)
    {
      if id in pending {
        pending := pending - {id};
        channels := channels[id := Sent(Reply(answer))];
        replies := replies + {(id, answer)};
      }
    }

    method StartTurn(ghost t: TaskId, turn: string, ghost gen: Generation)
      requires Valid()
      modifies this`activeTurnIds, this`turns
      ensures activeTurnIds == old(activeTurnIds) + {turn}
      ensures Valid() && View() == Perform(old(View()), t, AddTurn(turn, gen))
    {
      activeTurnIds := activeTurnIds + {turn};
      turns := turns[turn := gen];
    }

    method EndTurn(ghost t: TaskId, turn: string)
      requires Valid()
      modifies this`activeTurnIds, this`turns
      ensures activeTurnIds == old(activeTurnIds) - {turn}
      ensures Valid() && View() == Perform(old(View()), t, RemoveTurn(turn))
    {
      activeTurnIds := activeTurnIds - {turn};
      turns := turns - {turn};
    }

    method RecordServerRequest(ghost t: TaskId, o: Observed)
      requires Valid()
      modifies this`pendingServerRequests
      ensures pendingServerRequests == old(pendingServerRequests)[o.key := o]
      ensures Valid() && View() == Perform(old(View()), t, AddRequest(o))
    {
      pendingServerRequests := pendingServerRequests[o.key := o];
    }

    /** `handle_incoming_message`: one message from the reader of a generation. A response, good or bad,
        settles its request if that is pending; turns come and go; a request of the server is listed. */
    method HandleMessage(c: ClientId, gen: Generation, handoff: bool, m: Message)
      requires Valid()
      modifies this`pending, this`channels, this`replies, this`activeTurnIds, this`turns, this`pendingServerRequests
      ensures Valid() && View() == Perform(old(View()), 0, Handle(old(View()), c, gen, handoff, m))
      ensures m.Response? ==> pending == old(pending) - {m.id}
      ensures m.Response? && m.id in old(pending) ==> channels == old(channels)[m.id := Sent(Reply(m.answer))]
      ensures !m.Response? ==> pending == old(pending)
      ensures (m.Response? && m.id in old(pending)) || channels == old(channels)
      ensures activeTurnIds == if m.TurnStarted? then old(activeTurnIds) + {m.turn}
                               else if m.TurnCompleted? then old(activeTurnIds) - {m.turn} else old(activeTurnIds)
      ensures pendingServerRequests
           == if m.ServerRequest? then
                old(pendingServerRequests)[m.key := Observed(m.key, m.name, m.params, c, gen, handoff)]
              else old(pendingServerRequests)
    {
      hide Perform, Valid;
      match m
      case Response(id, answer) => HandleResponse(id, answer);
      case TurnStarted(turn) => StartTurn(0, turn, gen);
      case TurnCompleted(turn) => EndTurn(0, turn);
      case ServerRequest(key, name, params) => RecordServerRequest(0, Observed(key, name, params, c, gen, handoff));
    }

    /** `remove_pending_server_request_if_matches`. */
    method RemoveServerRequest(ghost t: TaskId, key: string, observed: Option<Observed>)
      requires Valid()
      modifies this`pendingServerRequests
      ensures Valid()
      ensures pendingServerRequests
           == if observed.None? || (key in old(pendingServerRequests)
                                    && old(pendingServerRequests)[key] == observed.value)
              then old(pendingServerRequests) - {key} else old(pendingServerRequests)
      ensures View() == Perform(old(View()), t, if StillObserved(old(View()), key, observed) then RemoveRequest(key)
                                else Nop)
    {
      if observed.None? || (key in pendingServerRequests && pendingServerRequests[key] == observed.value) {
        pendingServerRequests := pendingServerRequests - {key};
      }
    }

    /** The end of `finalize_process_exit`: the turns of a process that is gone. */
    method ClearTurnIds(ghost t: TaskId)
      requires Valid()
      modifies this`activeTurnIds, this`turns
      ensures Valid() && activeTurnIds == {} && View() == Perform(old(View()), t, ClearTurns)
    {
      activeTurnIds := {};
      turns := map[];
    }

    /** And its requests. */
    method ClearServerRequests(ghost t: TaskId)
      requires Valid()
      modifies this`pendingServerRequests
      ensures Valid() && pendingServerRequests == map[] && View() == Perform(old(View()), t, ClearAllRequests)
    {
      pendingServerRequests := map[];
    }

    method HasLiveWork() returns (busy: bool)
      requires Valid()
      ensures busy <==> pending != map[] || activeTurnIds != {} || pendingServerRequests != map[]
      ensures busy <==> exists n: nat | n <= 2 :: HasWork(View(), n)
    {
      busy := |pending| > 0 || activeTurnIds != {} || |pendingServerRequests| > 0;
      assert HasWork(View(), 0) <==> |pending| > 0;
      assert HasWork(View(), 1) <==> activeTurnIds != {};
      assert HasWork(View(), 2) <==> |pendingServerRequests| > 0;
    }

    // ----- whole procedures, when nothing comes between their critical sections -----

    /** `ensure_started` up to the handshake: a usable process stays; otherwise a stale one goes, and a
        new one is installed under the next generation, if it could be spawned. What waits for the
        answers of a stale process goes on waiting. */
    method EnsureProcess(ghost t: TaskId, usable: bool, spawned: bool, handoff: bool) returns (running: bool)
      requires Valid()
      modifies this`process, this`installed, this`nextProcessGeneration
      ensures Valid() && running == (!retired && ((old(process).Some? && usable) || spawned))
      ensures retired || (old(process).Some? && usable) ==>
                process == old(process) && nextProcessGeneration == old(nextProcessGeneration)
                  && installed == old(installed)
      ensures !retired && !(old(process).Some? && usable) ==>
                && process == (if spawned then Some(Proc(old(nextProcessGeneration), handoff)) else None)
                && nextProcessGeneration == old(nextProcessGeneration) + (if spawned then 1 else 0)
                && installed == old(installed) + (if spawned then [old(nextProcessGeneration)] else [])
    {
      hide Perform, View;
      if retired || (process.Some? && usable) {
        return !retired;
      }
      var stale := TakeProcess(t);
      if !spawned {
        return false;
      }
      var gen := nextProcessGeneration;
      nextProcessGeneration := nextProcessGeneration + 1;
      Install(t, Proc(gen, handoff));
      return true;
    }

    /** `respond_message_on_controller`, and rejecting likewise: a request of the server is answered
        only through a process that may be told the answer, and is off the list afterwards exactly if
        the answer was written and the entry is still the one observed. */
    method AnswerRequest(ghost t: TaskId, me: ClientId, key: string, observed: Option<Observed>, usable: bool,
                         written: bool)
      returns (answered: bool)
      requires Valid()
      modifies this`pendingServerRequests
      ensures Valid()
      ensures answered <==> !retired && process.Some? && usable && written
                            && (observed.Some? ==>
                                  observed.value.client == me
                                  && (process.value.gen == observed.value.gen
                                      || (process.value.handoff && observed.value.handoff)))
      ensures answered <==> !retired && process.Some? && usable && written
                            && MayAnswer(Task(me, Respond(key, observed), PickWriter), process.value)
      ensures pendingServerRequests
           == if answered && (observed.None? || (key in old(pendingServerRequests)
                                                 && old(pendingServerRequests)[key] == observed.value))
              then old(pendingServerRequests) - {key} else old(pendingServerRequests)
    {
      hide Perform;
      answered := false;
      if retired || process.None? || !usable {
        return;
      }
      if observed.Some? {
        var seen := observed.value;
        if seen.client != me || (process.value.gen != seen.gen && !(seen.handoff && process.value.handoff)) {
          return;
        }
      }
      if written {
        RemoveServerRequest(t, key, observed);
        answered := true;
      }
    }

    /** `fail_pending_requests`: the entries of one generation go, each sender carrying the failure;
        every other entry and sender stays as it is. */
    method FailPendingRequests(ghost t: TaskId, gen: Generation)
      requires Valid()
      modifies this`pending, this`channels
      ensures Valid() && pending == old(pending) - IdsOf(old(pending), gen)
      ensures var ids := OfGeneration(old(View()), gen);
              View() == old(View()).(pending := old(pending) - ids, channels := WithChannels(old(channels), ids,
                    Sent(GenerationFailed)))
    {
      ghost var before := View();
      var ids := TakePending(t, gen);
      assert ids == IdsOf(before.pending, gen) && ids <= before.channels.Keys;
      SendFailures(ids);
      assert channels == WithChannels(before.channels, ids, Sent(GenerationFailed));
    }

    /** The start of `request_started_with_timeout`: an id is drawn; without a process the request has
        failed; otherwise it is pending for the process's generation, unless it could not be written. */
    method SendRequest(ghost t: TaskId, written: bool) returns (id: RequestId, sent: bool)
      requires Valid() && nextRequestId !in pending
      modifies this`nextRequestId, this`owner, this`pending, this`channels, this`outcome
      ensures Valid() && id == old(nextRequestId) && nextRequestId == id + 1
      ensures sent <==> old(process).Some? && written
      ensures sent ==> pending == old(pending)[id := old(process).value.gen] && channels[id] == Pending
      ensures !sent ==> pending == old(pending) && id in outcome
      ensures !sent ==> outcome[id] == if old(process).None? then NotRunning else WriteFailed
    {
      hide Perform, View;
      id := AllocateId(t);
      if process.None? {
        outcome := outcome[id := NotRunning];
        return id, false;
      }
      Register(t, id, process.value.gen);
      sent := written;
      if !written {
        Forget(t, id, WriteFailed);
      }
    }

    /** `close_process_on_controller`: the process goes, and what waits for its answers fails. */
    method CloseProcess(ghost t: TaskId) returns (closed: Option<Proc>)
      requires Valid()
      modifies this`process, this`pending, this`channels
      ensures Valid() && closed == old(process) && process == None
      ensures closed.None? ==> pending == old(pending)
      ensures closed.Some? ==> pending == old(pending) - IdsOf(old(pending), closed.value.gen)
    {
      closed := TakeProcess(t);
      if closed.Some? {
        FailPendingRequests(t, closed.value.gen);
      }
    }

    /** `finalize_process_exit`, or with the daemon alive `finalize_handoff_connection_loss`, once the
        guard is held: only the generation's own process and entries go, and turns and requests only
        with that process, when it is dead. */
    method FinalizeExit(ghost t: TaskId, gen: Generation, alive: bool, alreadyFailed: bool)
      requires Valid()
      modifies this`process, this`pending, this`channels, this`activeTurnIds, this`turns, this`pendingServerRequests
      ensures Valid()
      ensures var mine := old(process).Some? && old(process).value.gen == gen;
              && process == (if mine then None else old(process))
              && pending == (if alreadyFailed then old(pending) else old(pending) - IdsOf(old(pending), gen))
              && activeTurnIds == (if mine && !alive then {} else old(activeTurnIds))
              && pendingServerRequests == (if mine && !alive then map[] else old(pendingServerRequests))
    {
      hide WithChannels, Perform, View, IdsOf, OfGeneration;
      var cleared := ClearProcess(t, gen);
      if !alreadyFailed {
        FailPendingRequests(t, gen);
      }
      if cleared && !alive {
        ClearTurnIds(t);
        ClearServerRequests(t);
      }
    }
  }
}
