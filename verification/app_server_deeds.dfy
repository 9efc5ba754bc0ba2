/** The steps of a task as it knows them, and what has to have been among them when it does something or
    comes to an end: told by what it found and what it did, whatever its program counter went through. */
module AppServerDeeds {
  import opened Text
  import opened AppServer

  /** One step of a task: when and where it was, the client it found, whether a slot was free, how the task
      it had begun had ended, how the world resolved the step, and what the step did. */
  datatype Deed = Deed(n: nat, at: Pc, found: Client, slotFree: bool, child: Option<Outcome>, choice: Choice, op: Op,
                       born: Option<Born>)

  // ----- the steps of a run -----

  /** Event n is a step of this task. */
  ghost predicate StepsAt(r: Trace, n: nat, t: TaskId)
    requires |r.states| == |r.events| + 1 && n < |r.events|
  {
    && r.events[n].Step? && r.events[n].t == t
    && t in r.states[n].tasks && r.states[n].tasks[t].client in r.states[n].clients
  }

  /** What the task saw and did in the step that is event n. */
  ghost function DeedAt(r: Trace, n: nat, t: TaskId): Deed
    requires |r.states| == |r.events| + 1 && n < |r.events| && StepsAt(r, n, t)
  {
    var s, e := r.states[n], r.events[n];
    Deed(n, s.tasks[t].pc, s.clients[s.tasks[t].client], s.permits > 0, ChildOutcome(s, s.tasks[t].pc), e.choice,
         e.effect.op, e.effect.born)
  }

  /** The steps of the task before the i-th state. */
  ghost function Deeds(r: Trace, t: TaskId, i: nat): (ds: set<Deed>)
    requires |r.states| == |r.events| + 1 && i <= |r.events|
    ensures forall d <- ds :: d.n < i
  {
    if i == 0 then {} else Deeds(r, t, i - 1) + if StepsAt(r, i - 1, t) then {DeedAt(r, i - 1, t)} else {}
  }

  // ----- what can be read off the steps of a task -----

  ghost predicate Did(ds: set<Deed>, op: Op) {
    exists d <- ds :: d.op == op
  }

  ghost predicate DidSince(ds: set<Deed>, op: Op, n: nat) {
    exists d <- ds :: d.n > n && d.op == op
  }

  /** At step n it took this process out of its client. */
  ghost predicate TookAt(ds: set<Deed>, n: nat, p: Proc) {
    exists d <- ds :: d.n == n && d.op == RemoveProcess && d.found.process == Some(p)
  }

  /** It took this process out, and afterwards took out what waited for it, to fail it. */
  ghost predicate TookAndFailed(ds: set<Deed>, p: Proc) {
    exists n: nat :: TookAt(ds, n, p) && DidSince(ds, TakeGeneration(p.gen), n)
  }

  /** When it came to close the process there was none, or it closed and failed it. */
  ghost predicate LeftNone(ds: set<Deed>) {
    (exists d <- ds :: d.at.TakeProcess? && d.found.process.None?) || exists p: Proc :: TookAndFailed(ds, p)
  }

  ghost predicate HasNotInstalled(ds: set<Deed>) {
    forall d <- ds :: !d.op.SetProcess?
  }

  /** It installed a process and let its reader and its supervisor begin. */
  ghost predicate HasInstalled(ds: set<Deed>) {
    exists p: Proc :: Did(ds, SetProcess(p)) && Did(ds, WakeGeneration(p.gen, p.handoff))
  }

  /** A request of its own, registered for this generation, got this answer. */
  ghost predicate WasTold(ds: set<Deed>, id: RequestId, gen: Generation, a: Answer) {
    Did(ds, Insert(id, gen)) && Did(ds, Settle(id, Replied(a)))
  }

  /** The process it installed answered a request of its own well, and was still there then. */
  ghost predicate HasStarted(ds: set<Deed>) {
    && HasInstalled(ds)
    && (exists id, gen, a :: WasTold(ds, id, gen, a) && a.ok)
    && exists d <- ds :: d.at.Initialized? && d.found.process.Some? && d.choice == Go
  }

  /** It found a process that was fit for use, or started one. */
  ghost predicate HasProcess(ds: set<Deed>) {
    (exists d <- ds :: d.at.Inspect? && d.found.process.Some? && d.choice == Go) || HasStarted(ds)
  }

  /** The task that it began to start the process ended like this. */
  ghost predicate SawStart(ds: set<Deed>, ok: bool) {
    exists d <- ds :: d.at.AwaitStartup? && d.child.Some? && (ok <==> d.child.value == Started)
  }

  ghost predicate SawRetired(ds: set<Deed>) {
    exists d <- ds :: d.found.retired
  }

  /** While it held the start lock it saw that the client is not retired. */
  ghost predicate SawLive(ds: set<Deed>, t: TaskId) {
    exists d <- ds :: d.found.start == Some(t) && !d.found.retired
  }

  /** While it had the client for itself it saw no request pending. */
  ghost predicate SawNoPending(ds: set<Deed>, t: TaskId) {
    exists d <- ds :: d.found.writer == Some(t) && d.found.pending.Keys == {}
  }

  ghost predicate SawNoTurns(ds: set<Deed>, t: TaskId) {
    exists d <- ds :: d.found.writer == Some(t) && d.found.turns.Keys == {}
  }

  ghost predicate SawNoRequests(ds: set<Deed>, t: TaskId) {
    exists d <- ds :: d.found.writer == Some(t) && d.found.requests.Keys == {}
  }

  predicate IsBusy(cl: Client) {
    cl.pending.Keys != {} || cl.turns.Keys != {} || cl.requests.Keys != {}
  }

  /** Its deadline passed while it wrote its request or waited for the answer. */
  ghost predicate RanOut(ds: set<Deed>, gen: Generation) {
    exists d <- ds :: (d.at.Write? || d.at.Wait?) && d.at.gen == gen && d.choice == Expire
  }

  /** It gave up, for its deadline, a request it had registered for this generation. */
  ghost predicate GaveUp(ds: set<Deed>, gen: Generation) {
    RanOut(ds, gen) && exists id: RequestId :: Did(ds, Insert(id, gen)) && Did(ds, GiveUp(id, TimedOut))
  }

  /** Its deadline passed while it waited for the start of the process, and it cleared up after that. */
  ghost predicate GaveUpStart(ds: set<Deed>) {
    StartRanOut(ds) && Did(ds, PurgeReceivers)
  }

  ghost predicate StartRanOut(ds: set<Deed>) {
    exists d <- ds :: d.at.AwaitStartup? && d.choice == Expire
  }

  ghost predicate NotWritten(ds: set<Deed>, id: RequestId) {
    exists d <- ds :: d.at.Write? && d.at.id == id && d.choice != Go
  }

  /** It gave up a request that could not be written. */
  ghost predicate CouldNotWrite(ds: set<Deed>, id: RequestId) {
    NotWritten(ds, id) && Did(ds, GiveUp(id, WriteFailed))
  }

  /** When it asked whether the process that did not answer it has other work, there were no turns. */
  ghost predicate FoundNoTurns(ds: set<Deed>, gen: Generation) {
    exists d <- ds :: d.at.CheckWork? && d.at.gen == gen && d.found.turns.Keys == {}
  }

  ghost predicate FoundNoPending(ds: set<Deed>, gen: Generation) {
    exists d <- ds :: d.at.CheckWork? && d.at.gen == gen && d.found.pending.Keys == {}
  }

  ghost predicate FoundNoRequests(ds: set<Deed>, gen: Generation) {
    exists d <- ds :: d.at.CheckWork? && d.at.gen == gen && d.found.requests.Keys == {}
  }

  /** The process of this generation counts as stuck. */
  ghost predicate IsStuck(ds: set<Deed>, gen: Generation) {
    GaveUp(ds, gen) && FoundNoTurns(ds, gen) && FoundNoPending(ds, gen) && FoundNoRequests(ds, gen)
  }

  /** A process that did not answer in time is closed, or has other work, or is gone. */
  ghost predicate IsJudged(ds: set<Deed>, gen: Generation) {
    || (exists p: Proc :: p.gen == gen && TookAndFailed(ds, p))
    || (exists d <- ds :: d.at.CheckWork? && d.at.gen == gen && IsBusy(d.found))
    || exists d <- ds :: d.at.TakePoisoned? && d.at.gen == gen
                         && (d.found.process.Some? ==> d.found.process.value.gen != gen)
  }

  /** The process may be told the answer to this request of the server: the request came to this client,
      from the same process, or both are connections to the daemon that stays. */
  predicate IsFit(c: ClientId, observed: Option<Observed>, p: Proc) {
    match observed
    case None => true
    case Some(o) => o.client == c && (o.gen == p.gen || (o.handoff && p.handoff))
  }

  /** The entry is still the request that was observed, if one was. */
  predicate IsListed(cl: Client, key: string, observed: Option<Observed>) {
    match observed
    case None => true
    case Some(o) => key in cl.requests && cl.requests[key] == o
  }

  ghost predicate FoundFit(ds: set<Deed>, c: ClientId, observed: Option<Observed>) {
    exists d <- ds :: d.at.PickWriter? && d.choice == Go && d.found.process.Some?
                      && IsFit(c, observed, d.found.process.value)
  }

  ghost predicate FoundUnfit(ds: set<Deed>, c: ClientId, observed: Option<Observed>) {
    exists d <- ds :: d.at.PickWriter?
                      && (d.choice == Go && d.found.process.Some? ==> !IsFit(c, observed, d.found.process.value))
  }

  ghost predicate Wrote(ds: set<Deed>, ok: bool) {
    exists d <- ds :: d.at.WriteAnswer? && (ok <==> d.choice == Go)
  }

  /** It took the request off the list exactly if it was still the one observed. */
  ghost predicate Unlisted(ds: set<Deed>, key: string, observed: Option<Observed>) {
    exists d <- ds :: d.at.ForgetAnswer? && d.op == if IsListed(d.found, key, observed) then RemoveRequest(key) else Nop
  }

  /** It found a slot free, or nobody else to evict. */
  ghost predicate TriedForRoom(ds: set<Deed>, c: ClientId) {
    exists d <- ds :: (d.at.CheckSlots? && d.slotFree)
                      || (d.at.NextVictim? && !(d.choice.Evict? && d.choice.client != c))
  }

  // ----- what has to be so -----

  /** What a call that ended like this has behind it. */
  ghost predicate CallResult(role: Role, o: Outcome, ds: set<Deed>)
    requires role.App?
  {
    match o
    case Replied(a) =>
      exists id, gen :: WasTold(ds, id, gen, a)
                        && (a.ok && role.startsTurn && a.turn.Some? ==> Did(ds, AddTurn(a.turn.value, gen)))
    case TimedOut =>
      GaveUpStart(ds) || exists gen :: GaveUp(ds, gen) && (role.recover ==> IsJudged(ds, gen))
    case WriteFailed => exists id: RequestId :: CouldNotWrite(ds, id)
    case Failed => exists id: RequestId :: Did(ds, Settle(id, Failed))
    case ChannelLost => exists id: RequestId :: Did(ds, Settle(id, ChannelLost))
    case NotRunning => exists d <- ds :: d.at.Snapshot? && d.found.process.None?
    case Refused => SawRetired(ds)
    case NotStarted => if role.deadline then SawStart(ds, false) else HasNotInstalled(ds) || LeftNone(ds)
    case _ => false
  }

  ghost predicate AnswerResult(c: ClientId, role: Role, o: Outcome, ds: set<Deed>)
    requires role.Respond?
  {
    match o
    case Answered => FoundFit(ds, c, role.observed) && Wrote(ds, true) && Unlisted(ds, role.key, role.observed)
    case WriteFailed => FoundFit(ds, c, role.observed) && Wrote(ds, false)
    case Refused => SawRetired(ds) || FoundUnfit(ds, c, role.observed)
    case _ => false
  }

  ghost predicate StartResult(o: Outcome, ds: set<Deed>) {
    match o
    case Started => HasProcess(ds)
    case NotStarted => HasNotInstalled(ds) || LeftNone(ds)
    case Refused => SawRetired(ds)
    case _ => false
  }

  ghost predicate SawIdle(ds: set<Deed>, t: TaskId) {
    SawNoPending(ds, t) && SawNoTurns(ds, t) && SawNoRequests(ds, t)
  }

  ghost predicate CloseResult(t: TaskId, role: Role, o: Outcome, ds: set<Deed>) {
    match role
    case Close => o == Closed && LeftNone(ds)
    case Retire => o == Closed && Did(ds, SetRetired) && LeftNone(ds)
    case Quiesce(eager) =>
      if o == Refused then eager && exists d <- ds :: d.found.writer.Some? || d.found.readers != {}
      else o == Closed && ((SawIdle(ds, t) && LeftNone(ds)) || SawReason(ds))
    case _ => false
  }

  /** A reason to leave the client alone: it was busy, or something else spoke against closing it. */
  ghost predicate SawReason(ds: set<Deed>) {
    exists d <- ds :: d.at.CheckIdle? && (IsBusy(d.found) || d.choice == Fail)
  }

  ghost predicate Result(t: TaskId, c: ClientId, role: Role, o: Outcome, ds: set<Deed>) {
    match role
    case App(_, _, _) => CallResult(role, o, ds)
    case Respond(_, _) => AnswerResult(c, role, o, ds)
    case Startup => StartResult(o, ds)
    case Supervise(_, _) => true
    case _ => CloseResult(t, role, o, ds)
  }

  /** What a task must have seen and done before it may do this. */
  ghost predicate IsLawful(t: TaskId, c: ClientId, role: Role, ds: set<Deed>, x: Deed) {
    && (match x.op
        case NewRequest => role.App? || role.Startup?
        case NewGeneration => SawLive(ds, t)
        case SetProcess(_) => SawLive(ds, t)
        case AddTurn(turn, gen) =>
          role.App? && role.startsTurn
          && exists id, a :: WasTold(ds, id, gen, a) && a.ok && a.turn == Some(turn)
        case RemoveTurn(_) => false
        case AddRequest(_) => false
        case RemoveRequest(key) =>
          role.Respond? && role.key == key && IsListed(x.found, key, role.observed) && Wrote(ds, true)
        case SetRetired => role.Retire? && x.found.writer == Some(t)
        case RemoveProcess => x.found.process.Some? ==> MayTake(t, role, ds, x, x.found.process.value)
        case _ => true)
    && (match x.born
        case None => true
        case Some(b) =>
          match b.role
          case Startup => b.client == c && role.App? && role.deadline
          case Quiesce(eager) => eager && b.client != c && x.found.start == Some(t)
          case Supervise(gen, handoff) =>
            b.client == c && gen == x.found.nextGeneration && x.choice == Spawned(handoff)
          case _ => false)
  }

  /** It queues for a slot only when one was free or there is nobody to evict, and evicts whom it chooses. */
  ghost predicate MakesRoom(c: ClientId, ds: set<Deed>, x: Deed) {
    && (x.at.TakeSlot? ==> TriedForRoom(ds, c))
    && (x.at.NextVictim? && x.choice.Evict? && x.choice.client != c ==>
            x.born == Some(Born(x.choice.client, Quiesce(true))))
  }

  /** What speaks for taking out a process that is there. */
  ghost predicate MayTake(t: TaskId, role: Role, ds: set<Deed>, x: Deed, p: Proc) {
    match role
    case Close => true
    case Retire => Did(ds, SetRetired) && x.found.writer == Some(t)
    case Quiesce(_) => SawIdle(ds, t) && x.found.writer == Some(t)
    case App(_, recover, _) =>
      (x.found.start == Some(t) && ((x.at.Inspect? && x.choice != Go) || HasInstalled(ds)))
      || (recover && IsStuck(ds, p.gen))
    case Startup => x.found.start == Some(t) && ((x.at.Inspect? && x.choice != Go) || HasInstalled(ds))
    case _ => false
  }

  // ----- what has been seen and done stays so -----

  lemma DeedsGrow(ds: set<Deed>, x: Deed)
    ensures forall op :: Did(ds, op) ==> Did(ds + {x}, op)
    ensures forall op, n :: DidSince(ds, op, n) ==> DidSince(ds + {x}, op, n)
    ensures forall n, p :: TookAt(ds, n, p) ==> TookAt(ds + {x}, n, p)
    ensures Did(ds + {x}, x.op)
    ensures HasNotInstalled(ds) && !x.op.SetProcess? ==> HasNotInstalled(ds + {x})
  {
    assert x in ds + {x};
  }

  lemma FailuresGrow(ds: set<Deed>, x: Deed)
    ensures forall p :: TookAndFailed(ds, p) ==> TookAndFailed(ds + {x}, p)
    ensures LeftNone(ds) ==> LeftNone(ds + {x})
  {
    hide TookAt, DidSince;
    DeedsGrow(ds, x);
    forall p | TookAndFailed(ds, p) ensures TookAndFailed(ds + {x}, p) {
      var n: nat :| TookAt(ds, n, p) && DidSince(ds, TakeGeneration(p.gen), n);
      assert TookAt(ds + {x}, n, p) && DidSince(ds + {x}, TakeGeneration(p.gen), n);
    }
    hide TookAndFailed;
    if exists p: Proc :: TookAndFailed(ds, p) {
      var p: Proc :| TookAndFailed(ds, p);
      assert TookAndFailed(ds + {x}, p);
    }
  }

  lemma StartsGrow(ds: set<Deed>, x: Deed)
    ensures HasInstalled(ds) ==> HasInstalled(ds + {x})
    ensures forall id, gen, a :: WasTold(ds, id, gen, a) ==> WasTold(ds + {x}, id, gen, a)
    ensures HasProcess(ds) ==> HasProcess(ds + {x})
  {
    hide Did;
    DeedsGrow(ds, x);
    if HasInstalled(ds) {
      var p: Proc :| Did(ds, SetProcess(p)) && Did(ds, WakeGeneration(p.gen, p.handoff));
      assert Did(ds + {x}, SetProcess(p)) && Did(ds + {x}, WakeGeneration(p.gen, p.handoff));
    }
    hide HasInstalled;
    assert forall id, gen, a :: WasTold(ds, id, gen, a) ==> WasTold(ds + {x}, id, gen, a);
    hide WasTold;
    if HasStarted(ds) {
      var id, gen, a :| WasTold(ds, id, gen, a) && a.ok;
      assert WasTold(ds + {x}, id, gen, a);
    }
  }

  lemma LifeGrows(t: TaskId, ds: set<Deed>, x: Deed)
    ensures SawLive(ds, t) || (x.found.start == Some(t) && !x.found.retired) ==> SawLive(ds + {x}, t)
  {
    assert x in ds + {x};
  }

  lemma SightsGrow(ds: set<Deed>, x: Deed)
    ensures forall ok :: SawStart(ds, ok) ==> SawStart(ds + {x}, ok)
    ensures SawRetired(ds) ==> SawRetired(ds + {x})
    ensures forall t :: SawNoPending(ds, t) ==> SawNoPending(ds + {x}, t)
    ensures forall t :: SawNoTurns(ds, t) ==> SawNoTurns(ds + {x}, t)
    ensures forall t :: SawNoRequests(ds, t) ==> SawNoRequests(ds + {x}, t)
    ensures SawReason(ds) ==> SawReason(ds + {x})
  {
    assert x in ds + {x};
  }

  lemma FindingsGrow(ds: set<Deed>, x: Deed)
    ensures forall gen :: FoundNoTurns(ds, gen) ==> FoundNoTurns(ds + {x}, gen)
    ensures forall gen :: FoundNoPending(ds, gen) ==> FoundNoPending(ds + {x}, gen)
    ensures forall gen :: FoundNoRequests(ds, gen) ==> FoundNoRequests(ds + {x}, gen)
    ensures forall c, o :: FoundFit(ds, c, o) ==> FoundFit(ds + {x}, c, o)
    ensures forall c, o :: FoundUnfit(ds, c, o) ==> FoundUnfit(ds + {x}, c, o)
    ensures forall ok :: Wrote(ds, ok) ==> Wrote(ds + {x}, ok)
    ensures forall c :: TriedForRoom(ds, c) ==> TriedForRoom(ds + {x}, c)
    ensures forall key, o :: Unlisted(ds, key, o) ==> Unlisted(ds + {x}, key, o)
  {
    hide IsFit, IsListed;
    assert x in ds + {x};
  }

  lemma TimesGrow(ds: set<Deed>, x: Deed)
    ensures forall gen :: RanOut(ds, gen) ==> RanOut(ds + {x}, gen)
    ensures forall id :: NotWritten(ds, id) ==> NotWritten(ds + {x}, id)
    ensures StartRanOut(ds) ==> StartRanOut(ds + {x})
    ensures (x.at.Write? || x.at.Wait?) && x.choice == Expire ==> RanOut(ds + {x}, x.at.gen)
    ensures x.at.Write? && x.choice != Go ==> NotWritten(ds + {x}, x.at.id)
    ensures x.at.AwaitStartup? && x.choice == Expire ==> StartRanOut(ds + {x})
  {
    assert x in ds + {x};
  }

  lemma GivingUpGrows(ds: set<Deed>, x: Deed, gen: Generation)
    ensures GaveUp(ds, gen) ==> GaveUp(ds + {x}, gen)
    ensures IsJudged(ds, gen) ==> IsJudged(ds + {x}, gen)
  {
    hide Did, TookAndFailed, IsBusy, LeftNone, RanOut, NotWritten, StartRanOut;
    DeedsGrow(ds, x);
    FailuresGrow(ds, x);
    TimesGrow(ds, x);
    if GaveUp(ds, gen) {
      var id: RequestId :| Did(ds, Insert(id, gen)) && Did(ds, GiveUp(id, TimedOut));
      assert Did(ds + {x}, Insert(id, gen)) && Did(ds + {x}, GiveUp(id, TimedOut));
    }
    if exists p: Proc :: p.gen == gen && TookAndFailed(ds, p) {
      var p: Proc :| p.gen == gen && TookAndFailed(ds, p);
      assert TookAndFailed(ds + {x}, p);
    }
  }

  lemma CallGrows(role: Role, o: Outcome, ds: set<Deed>, x: Deed)
    requires role.App? && CallResult(role, o, ds) && !x.op.SetProcess?
    ensures CallResult(role, o, ds + {x})
  {
    hide TriedForRoom, Did, WasTold, GaveUp, IsJudged, SawRetired, SawStart, HasNotInstalled, LeftNone, RanOut,
         NotWritten, StartRanOut;
    DeedsGrow(ds, x);
    StartsGrow(ds, x);
    SightsGrow(ds, x);
    FailuresGrow(ds, x);
    TimesGrow(ds, x);
    if o.WriteFailed? {
      var id: RequestId :| CouldNotWrite(ds, id);
      assert CouldNotWrite(ds + {x}, id);
    }
    if o.TimedOut? && !GaveUpStart(ds) {
      var gen :| GaveUp(ds, gen) && (role.recover ==> IsJudged(ds, gen));
      GivingUpGrows(ds, x, gen);
      assert GaveUp(ds + {x}, gen) && (role.recover ==> IsJudged(ds + {x}, gen));
    }
    if o.Replied? {
      var id, gen :| WasTold(ds, id, gen, o.answer) && (o.answer.ok && role.startsTurn && o.answer.turn.Some? ==>
                                                           Did(ds, AddTurn(o.answer.turn.value, gen)));
      assert WasTold(ds + {x}, id, gen, o.answer);
    }
  }

  lemma ResultGrows(t: TaskId, c: ClientId, role: Role, o: Outcome, ds: set<Deed>, x: Deed)
    requires Result(t, c, role, o, ds) && !x.op.SetProcess?
    ensures Result(t, c, role, o, ds + {x})
  {
    hide CallResult, FoundFit, FoundUnfit, Wrote, Unlisted, SawRetired, HasProcess, HasNotInstalled, LeftNone,
         SawNoPending, SawNoTurns, SawNoRequests, SawReason, Did;
    DeedsGrow(ds, x);
    StartsGrow(ds, x);
    SightsGrow(ds, x);
    FindingsGrow(ds, x);
    FailuresGrow(ds, x);
    if role.App? {
      CallGrows(role, o, ds, x);
    }
  }
}
