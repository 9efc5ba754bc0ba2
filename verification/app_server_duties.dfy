/** What a task that is done has seen and done on its way, over any run: why it closed a process, that it
    failed what waited for it, what a caller was told and why, and when a start counts as one. */
module AppServerDuties {
  import opened Text
  import opened AppServer
  import opened AppServerLocks
  import opened AppServerDeeds

  // ----- the invariant: what a program counter says about the steps so far -----

  ghost predicate Why(t: TaskId, role: Role, cause: Cause, ds: set<Deed>) {
    match cause
    case StartFailed => HasInstalled(ds)
    case Recovered => role.App? && role.recover
    case Ended => (role.Retire? ==> Did(ds, SetRetired)) && (role.Quiesce? ==> SawIdle(ds, t))
  }

  ghost predicate WhyThis(t: TaskId, role: Role, cause: Cause, p: Proc, ds: set<Deed>) {
    Why(t, role, cause, ds) && (cause.Recovered? ==> GaveUp(ds, p.gen))
  }

  ghost predicate Base(role: Role, init: bool, ds: set<Deed>) {
    if init then HasInstalled(ds) else role.App?
  }

  /** Why a request is given up. */
  ghost predicate IsWhy(ds: set<Deed>, id: RequestId, gen: Generation, why: Outcome) {
    match why
    case TimedOut => RanOut(ds, gen)
    case WriteFailed => NotWritten(ds, id)
    case _ => false
  }

  predicate IsPreparing(pc: Pc) {
    pc.Inspect? || pc.EndStale? || pc.Spawning? || pc.Install? || InMakeRoom(pc)
  }

  ghost predicate Tale(t: TaskId, c: ClientId, role: Role, pc: Pc, ds: set<Deed>) {
    match pc
    case Done(o) => Result(t, c, role, o, ds)
    case LeaveRead(o) => Result(t, c, role, o, ds)
    case LeaveWrite => Result(t, c, role, Closed, ds)
    case PurgeClosed => StartRanOut(ds)
    case LeaveStart(ok) => if ok then HasProcess(ds) else HasNotInstalled(ds) || LeftNone(ds)
    case Wake(gen, handoff) => Did(ds, SetProcess(Proc(gen, handoff)))
    case Initialized => HasInstalled(ds) && exists id, gen, a :: WasTold(ds, id, gen, a) && a.ok
    case Allocate(init) => Base(role, init, ds)
    case Snapshot(init, _) => Base(role, init, ds)
    case Register(init, _, _) => Base(role, init, ds)
    case Write(init, id, gen) => Base(role, init, ds) && Did(ds, Insert(id, gen))
    case Wait(init, id, gen) => Base(role, init, ds) && Did(ds, Insert(id, gen))
    case Forget(init, id, gen, why) =>
      Base(role, init, ds) && Did(ds, Insert(id, gen)) && IsWhy(ds, id, gen, why)
    case Record(gen, a) => role.App? && a.ok && exists id :: WasTold(ds, id, gen, a)
    case CheckWork(k, gen) =>
      role.App? && role.recover && GaveUp(ds, gen) && k <= 2 && (k > 0 ==> FoundNoTurns(ds, gen))
      && (k > 1 ==> FoundNoPending(ds, gen))
    case TakePoisoned(gen) => role.App? && role.recover && IsStuck(ds, gen)
    case TakeProcess(cause) => Why(t, role, cause, ds) && !cause.Recovered?
    case FailGeneration(p, cause) => WhyThis(t, role, cause, p, ds) && exists n: nat :: TookAt(ds, n, p)
    case SendFailures(_, p, cause) => WhyThis(t, role, cause, p, ds) && TookAndFailed(ds, p)
    case DropProcess(p, cause) => WhyThis(t, role, cause, p, ds) && TookAndFailed(ds, p)
    case CheckIdle(k) =>
      role.Quiesce? && k <= 2 && (k > 0 ==> SawNoPending(ds, t)) && (k > 1 ==> SawNoTurns(ds, t))
    case Retiring => role.Retire?
    case WriteAnswer(_, _) => role.Respond? && FoundFit(ds, c, role.observed)
    case ForgetAnswer => role.Respond? && FoundFit(ds, c, role.observed) && Wrote(ds, true)
    case AwaitStartup(_) => true
    case TakeSlot => HasNotInstalled(ds) && SawLive(ds, t) && TriedForRoom(ds, c)
    case _ => HasNotInstalled(ds) && (IsPreparing(pc) ==> SawLive(ds, t))
  }

  // ----- one step -----

  /** The step x comes after the steps ds of its task, with this effect. */
  ghost predicate IsNext(ds: set<Deed>, x: Deed, eff: Effect) {
    x.op == eff.op && x.born == eff.born && forall d <- ds :: d.n < x.n
  }

  /** The locks are held as the place of the task says. */
  predicate HoldsAsSaid(t: TaskId, task: Task, cl: Client) {
    Fits(task) && (cl.writer == Some(t) <==> HoldsWrite(task)) && (cl.start == Some(t) <==> HoldsStart(task))
  }

  /** The step x of a task that is where its steps so far have led it. */
  ghost predicate IsDue(t: TaskId, task: Task, ds: set<Deed>, x: Deed, eff: Effect) {
    HoldsAsSaid(t, task, x.found) && x.at == task.pc && IsNext(ds, x, eff)
    && Tale(t, task.client, task.role, task.pc, ds)
  }

  ghost predicate GoesOn(t: TaskId, task: Task, ds: set<Deed>, x: Deed, eff: Effect) {
    Tale(t, task.client, task.role, eff.pc, ds + {x}) && IsLawful(t, task.client, task.role, ds, x)
    && MakesRoom(task.client, ds, x)
  }

  /** What the step itself shows. */
  lemma Seen(t: TaskId, ds: set<Deed>, x: Deed)
    ensures x.found.retired ==> SawRetired(ds + {x})
    ensures x.at.AwaitStartup? && x.child.Some? ==> SawStart(ds + {x}, x.child.value == Started)
    ensures x.at.Inspect? && x.found.process.Some? && x.choice == Go ==> HasProcess(ds + {x})
    ensures x.found.writer == Some(t) && x.found.pending.Keys == {} ==> SawNoPending(ds + {x}, t)
    ensures x.found.writer == Some(t) && x.found.turns.Keys == {} ==> SawNoTurns(ds + {x}, t)
    ensures x.found.writer == Some(t) && x.found.requests.Keys == {} ==> SawNoRequests(ds + {x}, t)
    ensures x.at.CheckIdle? && (IsBusy(x.found) || x.choice == Fail) ==> SawReason(ds + {x})
    ensures x.at.TakeProcess? && x.found.process.None? ==> LeftNone(ds + {x})
    ensures x.op == RemoveProcess && x.found.process.Some? ==> TookAt(ds + {x}, x.n, x.found.process.value)
  {
    assert x in ds + {x};
  }

  lemma RetirementSeen(ds: set<Deed>, x: Deed)
    ensures x.found.retired ==> SawRetired(ds + {x})
  {
    assert x in ds + {x};
  }

  /** And what it shows of the process that did not answer. */
  lemma SeenOfProcess(ds: set<Deed>, x: Deed)
    ensures x.at.CheckWork? && x.found.turns.Keys == {} ==> FoundNoTurns(ds + {x}, x.at.gen)
    ensures x.at.CheckWork? && x.found.pending.Keys == {} ==> FoundNoPending(ds + {x}, x.at.gen)
    ensures x.at.CheckWork? && x.found.requests.Keys == {} ==> FoundNoRequests(ds + {x}, x.at.gen)
    ensures x.at.CheckWork? && IsBusy(x.found) ==> IsJudged(ds + {x}, x.at.gen)
    ensures x.at.TakePoisoned? && (x.found.process.Some? ==> x.found.process.value.gen != x.at.gen) ==>
              IsJudged(ds + {x}, x.at.gen)
  {
    hide TookAndFailed;
    assert x in ds + {x};
  }

  lemma SeenByAnswerer(c: ClientId, observed: Option<Observed>, ds: set<Deed>, x: Deed)
    ensures x.at.PickWriter? && x.choice == Go && x.found.process.Some? && IsFit(c, observed, x.found.process.value) ==>
              FoundFit(ds + {x}, c, observed)
    ensures x.at.PickWriter?
            && (x.choice == Go && x.found.process.Some? ==> !IsFit(c, observed, x.found.process.value)) ==>
              FoundUnfit(ds + {x}, c, observed)
    ensures x.at.WriteAnswer? ==> Wrote(ds + {x}, x.choice == Go)
    ensures forall key | x.at.ForgetAnswer? && x.op == (if IsListed(x.found, key, observed) then RemoveRequest(key)
                                                        else Nop)
              :: Unlisted(ds + {x}, key, observed)
  {
    hide IsFit, IsListed;
    assert x in ds + {x};
  }

  lemma RefusedByRetirement(t: TaskId, c: ClientId, role: Role, ds: set<Deed>)
    requires SawRetired(ds) && (role.App? || role.Respond? || role.Startup?)
    ensures Result(t, c, role, Refused, ds)
  {
    hide SawRetired, FoundUnfit;
  }

  lemma NotStartedByChild(t: TaskId, c: ClientId, role: Role, ds: set<Deed>)
    requires SawStart(ds, false) && role.App? && role.deadline
    ensures Result(t, c, role, NotStarted, ds)
  {
    hide SawStart;
  }

  lemma RanOutOfTime(t: TaskId, c: ClientId, role: Role, ds: set<Deed>)
    requires GaveUpStart(ds) && role.App?
    ensures Result(t, c, role, TimedOut, ds)
  {
    hide GaveUpStart;
  }

  predicate IsPlain(op: Op) {
    !op.NewRequest? && !op.NewGeneration? && !op.SetProcess? && !op.AddTurn? && !op.RemoveTurn? && !op.AddRequest?
      && !op.RemoveRequest? && !op.SetRetired?
    && !op.RemoveProcess?
  }

  lemma PlainIsLawful(t: TaskId, c: ClientId, role: Role, ds: set<Deed>, x: Deed)
    requires IsPlain(x.op) && (x.born == Some(Born(c, Startup)) ==> role.App? && role.deadline)
    requires x.born.None? || x.born == Some(Born(c, Startup))
    ensures IsLawful(t, c, role, ds, x)
  {
    hide MayTake, WasTold, Wrote;
  }

  lemma RoleInside(task: Task)
    requires Fits(task) && InEnter(task.pc)
    ensures task.role.App? || task.role.Respond?
    ensures task.pc.AwaitStartup? || task.pc.PurgeClosed? ==> task.role.App? && task.role.deadline
  {
  }

  lemma LeaveGoesOn(t: TaskId, task: Task, spare: TaskId, ds: set<Deed>, x: Deed, eff: Effect)
    requires IsDue(t, task, ds, x, eff)
    requires task.pc.LeaveRead?
    requires Enter(x.found, task, x.child, spare, x.choice) == Some(eff)
    ensures GoesOn(t, task, ds, x, eff)
  {
    hide TriedForRoom, Did, WasTold, GaveUp, IsJudged, SawRetired, SawStart, HasNotInstalled, HasInstalled,
         HasProcess, LeftNone, TookAndFailed, TookAt, FoundFit, FoundUnfit, Wrote, Unlisted, SawNoPending, SawNoTurns,
         SawNoRequests, SawReason, FoundNoTurns, FoundNoPending, FoundNoRequests, Result, Why, WhyThis, Fits,
         HoldsWrite, HoldsStart, IsLawful;
    PlainIsLawful(t, task.client, task.role, ds, x);
    ResultGrows(t, task.client, task.role, task.pc.outcome, ds, x);
  }

  lemma StartupGoesOn(t: TaskId, task: Task, spare: TaskId, ds: set<Deed>, x: Deed, eff: Effect)
    requires IsDue(t, task, ds, x, eff)
    requires task.pc.PurgeClosed? || task.pc.AwaitStartup?
    requires Enter(x.found, task, x.child, spare, x.choice) == Some(eff)
    ensures GoesOn(t, task, ds, x, eff)
  {
    hide TriedForRoom, Did, WasTold, GaveUp, IsJudged, SawRetired, SawStart, HasNotInstalled, HasInstalled,
         HasProcess, LeftNone, TookAndFailed, TookAt, FoundFit, FoundUnfit, Wrote, Unlisted, SawNoPending, SawNoTurns,
         SawNoRequests, SawReason, FoundNoTurns, FoundNoPending, FoundNoRequests, Result, Why, WhyThis, Fits,
         HoldsWrite, HoldsStart, IsLawful, RanOut, NotWritten, StartRanOut;
    DeedsGrow(ds, x);
    TimesGrow(ds, x);
    Seen(t, ds, x);
    RoleInside(task);
    PlainIsLawful(t, task.client, task.role, ds, x);
    if task.pc.PurgeClosed? {
      RanOutOfTime(t, task.client, task.role, ds + {x});
    } else if x.child.Some? && x.child.value != Started {
      NotStartedByChild(t, task.client, task.role, ds + {x});
    }
  }

  lemma EntryGoesOn(t: TaskId, task: Task, spare: TaskId, ds: set<Deed>, x: Deed, eff: Effect)
    requires IsDue(t, task, ds, x, eff)
    requires task.pc.Entry? || task.pc.AwaitRead?
    requires Enter(x.found, task, x.child, spare, x.choice) == Some(eff)
    ensures GoesOn(t, task, ds, x, eff)
  {
    hide TriedForRoom, Did, WasTold, GaveUp, IsJudged, SawRetired, SawStart, HasNotInstalled, HasInstalled,
         HasProcess, LeftNone, TookAndFailed, TookAt, FoundFit, FoundUnfit, Wrote, Unlisted, SawNoPending, SawNoTurns,
         SawNoRequests, SawReason, FoundNoTurns, FoundNoPending, FoundNoRequests, Result, Why, WhyThis, Fits,
         HoldsWrite, HoldsStart, IsLawful;
    DeedsGrow(ds, x);
    RetirementSeen(ds, x);
    RoleInside(task);
    PlainIsLawful(t, task.client, task.role, ds, x);
    if x.found.retired {
      RefusedByRetirement(t, task.client, task.role, ds + {x});
    }
  }

  lemma RecheckGoesOn(t: TaskId, task: Task, spare: TaskId, ds: set<Deed>, x: Deed, eff: Effect)
    requires IsDue(t, task, ds, x, eff)
    requires task.pc.Recheck?
    requires Enter(x.found, task, x.child, spare, x.choice) == Some(eff)
    ensures GoesOn(t, task, ds, x, eff)
  {
    hide TriedForRoom, Did, WasTold, GaveUp, IsJudged, SawRetired, SawStart, HasNotInstalled, HasInstalled,
         HasProcess, LeftNone, TookAndFailed, TookAt, FoundFit, FoundUnfit, Wrote, Unlisted, SawNoPending, SawNoTurns,
         SawNoRequests, SawReason, FoundNoTurns, FoundNoPending, FoundNoRequests, Result, Why, WhyThis, Fits,
         HoldsWrite, HoldsStart, IsLawful;
    DeedsGrow(ds, x);
    RetirementSeen(ds, x);
    RoleInside(task);
    PlainIsLawful(t, task.client, task.role, ds, x);
    if x.found.retired {
      RefusedByRetirement(t, task.client, task.role, ds + {x});
    }
  }

  lemma EnterGoesOn(t: TaskId, task: Task, spare: TaskId, ds: set<Deed>, x: Deed, eff: Effect)
    requires IsDue(t, task, ds, x, eff) && InEnter(task.pc)
    requires Enter(x.found, task, x.child, spare, x.choice) == Some(eff)
    ensures GoesOn(t, task, ds, x, eff)
  {
    hide IsDue, GoesOn, Enter;
    if task.pc.LeaveRead? {
      LeaveGoesOn(t, task, spare, ds, x, eff);
    } else if task.pc.PurgeClosed? || task.pc.AwaitStartup? {
      StartupGoesOn(t, task, spare, ds, x, eff);
    } else if task.pc.Recheck? {
      RecheckGoesOn(t, task, spare, ds, x, eff);
    } else {
      EntryGoesOn(t, task, spare, ds, x, eff);
    }
  }

  lemma AnswererRole(task: Task)
    requires Fits(task) && InRespond(task.pc)
    ensures task.role.Respond?
  {
  }

  lemma FitAlike(task: Task, cl: Client)
    requires task.role.Respond?
    ensures cl.process.Some? ==>
              (MayAnswer(task, cl.process.value) <==> IsFit(task.client, task.role.observed, cl.process.value))
  {
  }

  lemma ListedAlike(role: Role, cl: Client)
    requires role.Respond?
    ensures StillObserved(cl, role.key, role.observed) <==> IsListed(cl, role.key, role.observed)
  {
  }

  lemma WasUnfit(t: TaskId, c: ClientId, role: Role, ds: set<Deed>)
    requires role.Respond? && FoundUnfit(ds, c, role.observed)
    ensures Result(t, c, role, Refused, ds)
  {
    hide FoundUnfit, SawRetired;
  }

  lemma WasUnwritten(t: TaskId, c: ClientId, role: Role, ds: set<Deed>)
    requires role.Respond? && FoundFit(ds, c, role.observed) && Wrote(ds, false)
    ensures Result(t, c, role, WriteFailed, ds)
  {
    hide FoundFit, Wrote;
  }

  lemma WasAnswered(t: TaskId, c: ClientId, role: Role, ds: set<Deed>)
    requires role.Respond? && FoundFit(ds, c, role.observed) && Wrote(ds, true)
             && Unlisted(ds, role.key, role.observed)
    ensures Result(t, c, role, Answered, ds)
  {
    hide FoundFit, Wrote, Unlisted;
  }

  lemma AnswerIsLawful(t: TaskId, c: ClientId, role: Role, ds: set<Deed>, x: Deed)
    requires role.Respond? && Wrote(ds, true) && x.born.None?
    requires x.op == if IsListed(x.found, role.key, role.observed) then RemoveRequest(role.key) else Nop
    ensures IsLawful(t, c, role, ds, x)
  {
    hide Wrote, IsListed;
  }

  lemma PickGoesOn(t: TaskId, task: Task, ds: set<Deed>, x: Deed, eff: Effect)
    requires IsDue(t, task, ds, x, eff)
    requires task.pc.PickWriter?
    requires RespondTo(x.found, task, x.choice) == Some(eff)
    ensures GoesOn(t, task, ds, x, eff)
  {
    hide IsFit, IsListed, MayAnswer, StillObserved, IsLawful, Result, Fits, Did, WasTold, GaveUp, IsJudged,
         SawRetired, SawStart, HasNotInstalled, HasInstalled, HasProcess, LeftNone, TookAndFailed, TookAt, FoundFit,
         FoundUnfit, Wrote, Unlisted, SawNoPending, SawNoTurns, SawNoRequests, SawReason, FoundNoTurns,
         FoundNoPending, FoundNoRequests;
    Seen(t, ds, x);
    PlainIsLawful(t, task.client, task.role, ds, x);
    AnswererRole(task);
    SeenByAnswerer(task.client, task.role.observed, ds, x);
    FitAlike(task, x.found);
    if eff.pc.LeaveRead? {
      WasUnfit(t, task.client, task.role, ds + {x});
    }
  }

  lemma AnswerGoesOn(t: TaskId, task: Task, ds: set<Deed>, x: Deed, eff: Effect)
    requires IsDue(t, task, ds, x, eff)
    requires task.pc.WriteAnswer?
    requires RespondTo(x.found, task, x.choice) == Some(eff)
    ensures GoesOn(t, task, ds, x, eff)
  {
    hide IsFit, IsListed, MayAnswer, StillObserved, IsLawful, Result, Fits, Did, WasTold, GaveUp, IsJudged,
         SawRetired, SawStart, HasNotInstalled, HasInstalled, HasProcess, LeftNone, TookAndFailed, TookAt, FoundFit,
         FoundUnfit, Wrote, Unlisted, SawNoPending, SawNoTurns, SawNoRequests, SawReason, FoundNoTurns,
         FoundNoPending, FoundNoRequests;
    FindingsGrow(ds, x);
    PlainIsLawful(t, task.client, task.role, ds, x);
    SeenByAnswerer(task.client, task.role.observed, ds, x);
    if eff.pc.LeaveRead? {
      WasUnwritten(t, task.client, task.role, ds + {x});
    }
  }

  lemma ForgettingGoesOn(t: TaskId, task: Task, ds: set<Deed>, x: Deed, eff: Effect)
    requires IsDue(t, task, ds, x, eff)
    requires task.pc.ForgetAnswer?
    requires RespondTo(x.found, task, x.choice) == Some(eff)
    ensures GoesOn(t, task, ds, x, eff)
  {
    hide IsFit, IsListed, MayAnswer, StillObserved, IsLawful, Result, Fits, Did, WasTold, GaveUp, IsJudged,
         SawRetired, SawStart, HasNotInstalled, HasInstalled, HasProcess, LeftNone, TookAndFailed, TookAt, FoundFit,
         FoundUnfit, Wrote, Unlisted, SawNoPending, SawNoTurns, SawNoRequests, SawReason, FoundNoTurns,
         FoundNoPending, FoundNoRequests;
    FindingsGrow(ds, x);
    SeenByAnswerer(task.client, task.role.observed, ds, x);
    ListedAlike(task.role, x.found);
    WasAnswered(t, task.client, task.role, ds + {x});
    AnswerIsLawful(t, task.client, task.role, ds, x);
  }

  lemma RespondGoesOn(t: TaskId, task: Task, ds: set<Deed>, x: Deed, eff: Effect)
    requires IsDue(t, task, ds, x, eff) && InRespond(task.pc)
    requires RespondTo(x.found, task, x.choice) == Some(eff)
    ensures GoesOn(t, task, ds, x, eff)
  {
    hide IsDue, GoesOn, RespondTo;
    if task.pc.PickWriter? {
      PickGoesOn(t, task, ds, x, eff);
    } else if task.pc.WriteAnswer? {
      AnswerGoesOn(t, task, ds, x, eff);
    } else {
      ForgettingGoesOn(t, task, ds, x, eff);
    }
  }

  lemma StarterRole(task: Task)
    requires Fits(task) && (InStart(task.pc) || InSpawn(task.pc) || InMakeRoom(task.pc))
    ensures task.role.App? || task.role.Startup?
    ensures task.pc.EnsureEntry? || task.pc.AwaitStart? || HoldsStart(task)
    ensures task.role.App? ==> !task.role.deadline
  {
  }

  lemma StartEnds(t: TaskId, c: ClientId, role: Role, ok: bool, ds: set<Deed>)
    requires role.Startup? || (role.App? && !role.deadline && !ok)
    requires if ok then HasProcess(ds) else HasNotInstalled(ds) || LeftNone(ds)
    ensures Result(t, c, role, if ok then Started else NotStarted, ds)
  {
    hide HasProcess, HasNotInstalled, LeftNone;
  }

  lemma TakingIsLawful(t: TaskId, c: ClientId, role: Role, ds: set<Deed>, x: Deed)
    requires x.op == RemoveProcess && x.born.None? && x.found.process.Some?
    requires MayTake(t, role, ds, x, x.found.process.value)
    ensures IsLawful(t, c, role, ds, x)
  {
    hide MayTake;
  }

  lemma TakingStale(t: TaskId, role: Role, ds: set<Deed>, x: Deed, p: Proc)
    requires (role.App? || role.Startup?) && x.found.start == Some(t) && x.at.Inspect? && x.choice != Go
    ensures MayTake(t, role, ds, x, p)
  {
    hide IsStuck, HasInstalled;
  }

  lemma InspectGoesOn(t: TaskId, task: Task, ds: set<Deed>, x: Deed, eff: Effect)
    requires IsDue(t, task, ds, x, eff)
    requires task.pc.Inspect?
    requires Start(x.found, task, x.choice) == Some(eff)
    ensures GoesOn(t, task, ds, x, eff)
  {
    hide SawLive, TriedForRoom, Did, WasTold, GaveUp, IsJudged, SawRetired, SawStart, HasNotInstalled, HasInstalled,
         HasProcess, LeftNone, TookAndFailed, TookAt, FoundFit, FoundUnfit, Wrote, Unlisted, SawNoPending, SawNoTurns,
         SawNoRequests, SawReason, FoundNoTurns, FoundNoPending, FoundNoRequests, Result, Why, WhyThis, Fits,
         HoldsWrite, HoldsStart, IsLawful, MayTake;
    LifeGrows(t, ds, x);
    DeedsGrow(ds, x);
    Seen(t, ds, x);
    StarterRole(task);
    if x.found.process.Some? && x.choice != Go {
      TakingStale(t, task.role, ds, x, x.found.process.value);
      TakingIsLawful(t, task.client, task.role, ds, x);
    } else {
      PlainIsLawful(t, task.client, task.role, ds, x);
    }
  }

  lemma LeaveStartGoesOn(t: TaskId, task: Task, ds: set<Deed>, x: Deed, eff: Effect)
    requires IsDue(t, task, ds, x, eff)
    requires task.pc.LeaveStart?
    requires Start(x.found, task, x.choice) == Some(eff)
    ensures GoesOn(t, task, ds, x, eff)
  {
    hide TriedForRoom, Did, WasTold, GaveUp, IsJudged, SawRetired, SawStart, HasNotInstalled, HasInstalled,
         HasProcess, LeftNone, TookAndFailed, TookAt, FoundFit, FoundUnfit, Wrote, Unlisted, SawNoPending, SawNoTurns,
         SawNoRequests, SawReason, FoundNoTurns, FoundNoPending, FoundNoRequests, Result, Why, WhyThis, Fits,
         HoldsWrite, HoldsStart, IsLawful, MayTake;
    DeedsGrow(ds, x);
    StartsGrow(ds, x);
    FailuresGrow(ds, x);
    StarterRole(task);
    PlainIsLawful(t, task.client, task.role, ds, x);
    if task.role.Startup? || !task.pc.ok {
      StartEnds(t, task.client, task.role, task.pc.ok, ds + {x});
    }
  }

  lemma QueueGoesOn(t: TaskId, task: Task, ds: set<Deed>, x: Deed, eff: Effect)
    requires IsDue(t, task, ds, x, eff)
    requires task.pc.EnsureEntry? || task.pc.AwaitStart?
    requires Start(x.found, task, x.choice) == Some(eff)
    ensures GoesOn(t, task, ds, x, eff)
  {
    hide SawLive, TriedForRoom, Did, WasTold, GaveUp, IsJudged, SawRetired, SawStart, HasNotInstalled, HasInstalled,
         HasProcess, LeftNone, TookAndFailed, TookAt, FoundFit, FoundUnfit, Wrote, Unlisted, SawNoPending, SawNoTurns,
         SawNoRequests, SawReason, FoundNoTurns, FoundNoPending, FoundNoRequests, Result, Why, WhyThis, Fits,
         HoldsWrite, HoldsStart, IsLawful, MayTake;
    LifeGrows(t, ds, x);
    DeedsGrow(ds, x);
    RetirementSeen(ds, x);
    StarterRole(task);
    PlainIsLawful(t, task.client, task.role, ds, x);
    if x.found.retired {
      RefusedByRetirement(t, task.client, task.role, ds + {x});
    }
  }

  lemma RecheckStartGoesOn(t: TaskId, task: Task, ds: set<Deed>, x: Deed, eff: Effect)
    requires IsDue(t, task, ds, x, eff)
    requires task.pc.StartRecheck?
    requires Start(x.found, task, x.choice) == Some(eff)
    ensures GoesOn(t, task, ds, x, eff)
  {
    hide SawLive, TriedForRoom, Did, WasTold, GaveUp, IsJudged, SawRetired, SawStart, HasNotInstalled, HasInstalled,
         HasProcess, LeftNone, TookAndFailed, TookAt, FoundFit, FoundUnfit, Wrote, Unlisted, SawNoPending, SawNoTurns,
         SawNoRequests, SawReason, FoundNoTurns, FoundNoPending, FoundNoRequests, Result, Why, WhyThis, Fits,
         HoldsWrite, HoldsStart, IsLawful, MayTake;
    LifeGrows(t, ds, x);
    DeedsGrow(ds, x);
    StarterRole(task);
    PlainIsLawful(t, task.client, task.role, ds, x);
  }

  lemma StartGoesOn(t: TaskId, task: Task, ds: set<Deed>, x: Deed, eff: Effect)
    requires IsDue(t, task, ds, x, eff) && InStart(task.pc)
    requires Start(x.found, task, x.choice) == Some(eff)
    ensures GoesOn(t, task, ds, x, eff)
  {
    hide IsDue, GoesOn, Start;
    if task.pc.Inspect? {
      InspectGoesOn(t, task, ds, x, eff);
    } else if task.pc.LeaveStart? {
      LeaveStartGoesOn(t, task, ds, x, eff);
    } else if task.pc.StartRecheck? {
      RecheckStartGoesOn(t, task, ds, x, eff);
    } else {
      QueueGoesOn(t, task, ds, x, eff);
    }
  }

  lemma BirthIsLawful(t: TaskId, c: ClientId, role: Role, ds: set<Deed>, x: Deed)
    requires x.op.NewGeneration? && x.born.Some? && x.born.value.client == c && x.born.value.role.Supervise?
    requires x.born.value.role.gen == x.found.nextGeneration && x.choice == Spawned(x.born.value.role.handoff)
    requires SawLive(ds, t)
    ensures IsLawful(t, c, role, ds, x)
  {
  }

  lemma InstallIsLawful(t: TaskId, c: ClientId, role: Role, ds: set<Deed>, x: Deed)
    requires x.op.SetProcess? && x.born.None? && SawLive(ds, t)
    ensures IsLawful(t, c, role, ds, x)
  {
  }

  lemma EvictionIsLawful(t: TaskId, c: ClientId, role: Role, ds: set<Deed>, x: Deed)
    requires x.op == Nop && x.born.Some? && x.born.value.client != c && x.born.value.role == Quiesce(true)
    requires x.found.start == Some(t)
    ensures IsLawful(t, c, role, ds, x)
  {
  }

  lemma InstalledByNow(ds: set<Deed>, x: Deed, gen: Generation, handoff: bool)
    requires Did(ds, SetProcess(Proc(gen, handoff))) && x.op == WakeGeneration(gen, handoff)
    ensures HasInstalled(ds + {x})
  {
    hide Did;
    DeedsGrow(ds, x);
    var p := Proc(gen, handoff);
    assert Did(ds + {x}, SetProcess(p)) && Did(ds + {x}, WakeGeneration(p.gen, p.handoff));
  }

  lemma StartedByNow(ds: set<Deed>, x: Deed)
    requires HasInstalled(ds) && exists id, gen, a :: WasTold(ds, id, gen, a) && a.ok
    requires x.at.Initialized? && x.found.process.Some? && x.choice == Go
    ensures HasProcess(ds + {x})
  {
    hide HasInstalled, WasTold;
    StartsGrow(ds, x);
    var id, gen, a :| WasTold(ds, id, gen, a) && a.ok;
    assert WasTold(ds + {x}, id, gen, a);
    assert x in ds + {x};
  }

  lemma SpawnGoesOn(t: TaskId, task: Task, ds: set<Deed>, x: Deed, eff: Effect)
    requires IsDue(t, task, ds, x, eff) && InSpawn(task.pc)
    requires SpawnProcess(x.found, task, x.slotFree, x.choice) == Some(eff)
    ensures GoesOn(t, task, ds, x, eff)
  {
    hide SawLive, TriedForRoom, Did, WasTold, GaveUp, IsJudged, SawRetired, SawStart, HasNotInstalled, HasInstalled,
         HasProcess, LeftNone, TookAndFailed, TookAt, FoundFit, FoundUnfit, Wrote, Unlisted, SawNoPending, SawNoTurns,
         SawNoRequests, SawReason, FoundNoTurns, FoundNoPending, FoundNoRequests, Result, WhyThis, Fits, HoldsWrite,
         HoldsStart, IsLawful, MayTake;
    LifeGrows(t, ds, x);
    DeedsGrow(ds, x);
    StartsGrow(ds, x);
    var role, c := task.role, task.client;
    match task.pc
    case Spawning =>
      if x.choice.Spawned? {
        BirthIsLawful(t, c, role, ds, x);
      } else {
        PlainIsLawful(t, c, role, ds, x);
      }
    case Install(_) => InstallIsLawful(t, c, role, ds, x);
    case Wake(gen, handoff) =>
      PlainIsLawful(t, c, role, ds, x);
      InstalledByNow(ds, x, gen, handoff);
    case Initialized =>
      PlainIsLawful(t, c, role, ds, x);
      if x.found.process.Some? && x.choice == Go {
        StartedByNow(ds, x);
      }
    case _ => PlainIsLawful(t, c, role, ds, x);
  }

  lemma RoomTried(c: ClientId, ds: set<Deed>, x: Deed)
    ensures x.at.CheckSlots? && x.slotFree ==> TriedForRoom(ds + {x}, c)
    ensures x.at.NextVictim? && !(x.choice.Evict? && x.choice.client != c) ==> TriedForRoom(ds + {x}, c)
  {
    assert x in ds + {x};
  }

  lemma RoomGoesOn(t: TaskId, task: Task, spare: TaskId, ds: set<Deed>, x: Deed, eff: Effect)
    requires IsDue(t, task, ds, x, eff) && InMakeRoom(task.pc)
    requires MakeRoom(task, x.slotFree, x.child, spare, x.choice) == Some(eff)
    ensures GoesOn(t, task, ds, x, eff)
  {
    hide SawLive, TriedForRoom, Did, WasTold, GaveUp, IsJudged, SawRetired, SawStart, HasNotInstalled, HasInstalled,
         HasProcess, LeftNone, TookAndFailed, TookAt, FoundFit, FoundUnfit, Wrote, Unlisted, SawNoPending, SawNoTurns,
         SawNoRequests, SawReason, FoundNoTurns, FoundNoPending, FoundNoRequests, Result, Why, WhyThis, Fits,
         HoldsWrite, HoldsStart, IsLawful, MayTake;
    LifeGrows(t, ds, x);
    DeedsGrow(ds, x);
    RoomTried(task.client, ds, x);
    StarterRole(task);
    var role, c := task.role, task.client;
    if eff.born.Some? {
      EvictionIsLawful(t, c, role, ds, x);
    } else {
      PlainIsLawful(t, c, role, ds, x);
    }
  }

  lemma CallerRole(task: Task)
    requires Fits(task) && InRequest(task.pc)
    ensures task.role.App? || task.role.Startup?
  {
  }

  lemma GaveUpByNow(ds: set<Deed>, x: Deed, id: RequestId, gen: Generation)
    requires Did(ds, Insert(id, gen)) && x.op == GiveUp(id, TimedOut) && RanOut(ds, gen)
    ensures GaveUp(ds + {x}, gen)
  {
    hide Did, RanOut, NotWritten, StartRanOut;
    DeedsGrow(ds, x);
    TimesGrow(ds, x);
    assert Did(ds + {x}, Insert(id, gen)) && Did(ds + {x}, GiveUp(id, TimedOut));
  }

  lemma ToldByNow(ds: set<Deed>, x: Deed, id: RequestId, gen: Generation, a: Answer)
    requires Did(ds, Insert(id, gen)) && x.op == Settle(id, Replied(a))
    ensures WasTold(ds + {x}, id, gen, a)
  {
    hide Did;
    DeedsGrow(ds, x);
  }

  lemma OutOfTime(t: TaskId, c: ClientId, role: Role, ds: set<Deed>, gen: Generation)
    requires role.App? && GaveUp(ds, gen) && (role.recover ==> IsJudged(ds, gen))
    ensures Result(t, c, role, TimedOut, ds)
  {
    hide GaveUp, IsJudged, Did;
  }

  lemma Told(t: TaskId, c: ClientId, role: Role, ds: set<Deed>, id: RequestId, gen: Generation, a: Answer)
    requires role.App? && WasTold(ds, id, gen, a)
    requires a.ok && role.startsTurn && a.turn.Some? ==> Did(ds, AddTurn(a.turn.value, gen))
    ensures Result(t, c, role, Replied(a), ds)
  {
    hide WasTold, Did;
  }

  lemma NotToldButSettled(t: TaskId, c: ClientId, role: Role, ds: set<Deed>, id: RequestId, o: Outcome)
    requires role.App? && (o == Failed || o == ChannelLost) && Did(ds, Settle(id, o))
    ensures Result(t, c, role, o, ds)
  {
    hide Did;
  }

  lemma WasNotWritten(t: TaskId, c: ClientId, role: Role, ds: set<Deed>, x: Deed, id: RequestId)
    requires role.App? && NotWritten(ds, id) && x.op == GiveUp(id, WriteFailed)
    ensures Result(t, c, role, WriteFailed, ds + {x})
  {
    hide Did, NotWritten, RanOut, StartRanOut;
    DeedsGrow(ds, x);
    TimesGrow(ds, x);
    assert CouldNotWrite(ds + {x}, id);
  }

  lemma FoundNothingRunning(t: TaskId, c: ClientId, role: Role, ds: set<Deed>, x: Deed)
    requires role.App? && x.at.Snapshot? && x.found.process.None?
    ensures Result(t, c, role, NotRunning, ds + {x})
  {
    assert x in ds + {x};
  }

  lemma TurnIsLawful(t: TaskId, c: ClientId, role: Role, ds: set<Deed>, x: Deed, id: RequestId, a: Answer)
    requires role.App? && role.startsTurn && x.op.AddTurn? && x.born.None?
    requires WasTold(ds, id, x.op.gen, a) && a.ok && a.turn == Some(x.op.turn)
    ensures IsLawful(t, c, role, ds, x)
  {
    hide WasTold;
  }

  lemma StuckIsLawful(t: TaskId, role: Role, ds: set<Deed>, x: Deed, p: Proc)
    requires role.App? && role.recover && IsStuck(ds, p.gen)
    ensures MayTake(t, role, ds, x, p)
  {
    hide IsStuck, HasInstalled;
  }

  lemma RequestIsLawful(t: TaskId, c: ClientId, role: Role, ds: set<Deed>, x: Deed)
    requires (role.App? || role.Startup?) && x.op.NewRequest? && x.born.None?
    ensures IsLawful(t, c, role, ds, x)
  {
  }

  /** The reply, the end of a wait, and what comes of it. */
  lemma WaitGoesOn(t: TaskId, task: Task, ds: set<Deed>, x: Deed, o: Outcome)
    requires task.pc.Wait? && Base(task.role, task.pc.init, ds) && Did(ds, Insert(task.pc.id, task.pc.gen))
    requires x.op == Settle(task.pc.id, o) && (o.Replied? || o == Failed || o == ChannelLost)
    ensures Tale(t, task.client, task.role, AfterReply(task.pc.init, task.pc.gen, o), ds + {x})
  {
    hide Did, WasTold, HasInstalled, Result;
    DeedsGrow(ds, x);
    StartsGrow(ds, x);
    var id, gen := task.pc.id, task.pc.gen;
    if o.Replied? {
      ToldByNow(ds, x, id, gen, o.answer);
      if !task.pc.init && !o.answer.ok {
        Told(t, task.client, task.role, ds + {x}, id, gen, o.answer);
      }
    } else if !task.pc.init {
      NotToldButSettled(t, task.client, task.role, ds + {x}, id, o);
    }
  }

  lemma ForgetGoesOn(t: TaskId, task: Task, ds: set<Deed>, x: Deed)
    requires task.pc.Forget? && Base(task.role, task.pc.init, ds) && Did(ds, Insert(task.pc.id, task.pc.gen))
    requires x.op == GiveUp(task.pc.id, task.pc.why) && IsWhy(ds, task.pc.id, task.pc.gen, task.pc.why)
    ensures var recovers := task.pc.why == TimedOut && !task.pc.init && task.role.App? && task.role.recover;
            Tale(t, task.client, task.role,
                 if recovers then CheckWork(0, task.pc.gen) else RequestFailed(task.pc.init, task.pc.why), ds + {x})
  {
    hide Did, HasInstalled, Result, GaveUp, RanOut, NotWritten;
    DeedsGrow(ds, x);
    StartsGrow(ds, x);
    if task.pc.why == TimedOut {
      GaveUpByNow(ds, x, task.pc.id, task.pc.gen);
      if !task.pc.init && !task.role.recover {
        OutOfTime(t, task.client, task.role, ds + {x}, task.pc.gen);
      }
    } else if !task.pc.init {
      WasNotWritten(t, task.client, task.role, ds, x, task.pc.id);
    }
  }

  lemma RecordGoesOn(t: TaskId, task: Task, ds: set<Deed>, x: Deed)
    requires task.pc.Record? && Tale(t, task.client, task.role, task.pc, ds) && x.born.None?
    requires x.op == if task.pc.answer.turn.Some? && task.role.startsTurn
                     then AddTurn(task.pc.answer.turn.value, task.pc.gen) else Nop
    ensures Tale(t, task.client, task.role, LeaveRead(Replied(task.pc.answer)), ds + {x})
    ensures IsLawful(t, task.client, task.role, ds, x)
  {
    hide Did, WasTold, Result, IsLawful;
    DeedsGrow(ds, x);
    StartsGrow(ds, x);
    var gen, a := task.pc.gen, task.pc.answer;
    var id :| WasTold(ds, id, gen, a);
    Told(t, task.client, task.role, ds + {x}, id, gen, a);
    if x.op.AddTurn? {
      TurnIsLawful(t, task.client, task.role, ds, x, id, a);
    } else {
      PlainIsLawful(t, task.client, task.role, ds, x);
    }
  }

  lemma CheckGoesOn(t: TaskId, task: Task, ds: set<Deed>, x: Deed)
    requires task.pc.CheckWork? && x.at == task.pc && Tale(t, task.client, task.role, task.pc, ds)
    ensures var k, gen := task.pc.n, task.pc.gen;
            Tale(t, task.client, task.role,
                 if OwnsWork(x.found, k) then LeaveRead(TimedOut) else if k < 2 then CheckWork(k + 1, gen)
                 else TakePoisoned(gen), ds + {x})
  {
    hide GaveUp, IsJudged, FoundNoTurns, FoundNoPending, FoundNoRequests, Result;
    FindingsGrow(ds, x);
    SeenOfProcess(ds, x);
    GivingUpGrows(ds, x, task.pc.gen);
    if OwnsWork(x.found, task.pc.n) {
      OutOfTime(t, task.client, task.role, ds + {x}, task.pc.gen);
    }
  }

  lemma SnapshotGoesOn(t: TaskId, task: Task, ds: set<Deed>, x: Deed)
    requires task.pc.Snapshot? && x.at == task.pc && Base(task.role, task.pc.init, ds)
    ensures x.found.process.None? ==>
              Tale(t, task.client, task.role, RequestFailed(task.pc.init, NotRunning), ds + {x})
    ensures Base(task.role, task.pc.init, ds + {x})
  {
    hide HasInstalled, Result;
    StartsGrow(ds, x);
    if x.found.process.None? && !task.pc.init {
      FoundNothingRunning(t, task.client, task.role, ds, x);
    }
  }

  lemma TookNow(ds: set<Deed>, x: Deed)
    requires x.op == RemoveProcess && x.found.process.Some?
    ensures exists n: nat :: TookAt(ds + {x}, n, x.found.process.value)
  {
    assert x in ds + {x};
    assert TookAt(ds + {x}, x.n, x.found.process.value);
  }

  lemma PoisonGoesOn(t: TaskId, task: Task, ds: set<Deed>, x: Deed)
    requires task.pc.TakePoisoned? && x.at == task.pc && Tale(t, task.client, task.role, task.pc, ds) && x.born.None?
    requires x.found.process.Some? && x.found.process.value.gen == task.pc.gen && x.op == RemoveProcess
    ensures Tale(t, task.client, task.role, FailGeneration(x.found.process.value, Recovered), ds + {x})
    ensures IsLawful(t, task.client, task.role, ds, x)
  {
    hide GaveUp, IsJudged, FoundNoTurns, FoundNoPending, FoundNoRequests, Result, TookAt, MayTake, IsLawful, IsStuck,
         HasInstalled, Did, SawIdle;
    TookNow(ds, x);
    GivingUpGrows(ds, x, task.pc.gen);
    StuckGaveUp(ds, task.pc.gen);
    StuckIsLawful(t, task.role, ds, x, x.found.process.value);
    TakingIsLawful(t, task.client, task.role, ds, x);
  }

  lemma StuckGaveUp(ds: set<Deed>, gen: Generation)
    requires IsStuck(ds, gen)
    ensures GaveUp(ds, gen)
  {
    hide GaveUp, FoundNoTurns, FoundNoPending, FoundNoRequests;
  }

  lemma GoneGoesOn(t: TaskId, task: Task, ds: set<Deed>, x: Deed)
    requires task.pc.TakePoisoned? && x.at == task.pc && Tale(t, task.client, task.role, task.pc, ds)
    requires x.found.process.Some? ==> x.found.process.value.gen != task.pc.gen
    ensures Tale(t, task.client, task.role, LeaveRead(TimedOut), ds + {x})
  {
    hide GaveUp, IsJudged, Result, IsStuck;
    SeenOfProcess(ds, x);
    GivingUpGrows(ds, x, task.pc.gen);
    StuckGaveUp(ds, task.pc.gen);
    OutOfTime(t, task.client, task.role, ds + {x}, task.pc.gen);
  }
  lemma SendingGoesOn(t: TaskId, task: Task, ds: set<Deed>, x: Deed, eff: Effect)
    requires IsDue(t, task, ds, x, eff)
    requires task.pc.Allocate? || task.pc.Snapshot?
    requires Request(x.found, task, x.choice) == Some(eff)
    ensures GoesOn(t, task, ds, x, eff)
  {
    hide RanOut, NotWritten, StartRanOut, TriedForRoom, Did, WasTold, GaveUp, IsJudged, SawRetired, SawStart,
         HasNotInstalled, HasInstalled, HasProcess, LeftNone, TookAndFailed, TookAt, FoundFit, FoundUnfit, Wrote,
         Unlisted, SawNoPending, SawNoTurns, SawNoRequests, SawReason, FoundNoTurns, FoundNoPending, FoundNoRequests,
         Result, Why, Fits, HoldsWrite, HoldsStart, IsLawful, MayTake, OwnsWork, AfterReply, RequestFailed;
    CallerRole(task);
    StartsGrow(ds, x);
    if task.pc.Allocate? {
      RequestIsLawful(t, task.client, task.role, ds, x);
    } else {
      PlainIsLawful(t, task.client, task.role, ds, x);
      SnapshotGoesOn(t, task, ds, x);
    }
  }

  lemma WritingGoesOn(t: TaskId, task: Task, ds: set<Deed>, x: Deed, eff: Effect)
    requires IsDue(t, task, ds, x, eff)
    requires task.pc.Register? || task.pc.Write?
    requires Request(x.found, task, x.choice) == Some(eff)
    ensures GoesOn(t, task, ds, x, eff)
  {
    hide RanOut, NotWritten, StartRanOut, TriedForRoom, Did, WasTold, GaveUp, IsJudged, SawRetired, SawStart,
         HasNotInstalled, HasInstalled, HasProcess, LeftNone, TookAndFailed, TookAt, FoundFit, FoundUnfit, Wrote,
         Unlisted, SawNoPending, SawNoTurns, SawNoRequests, SawReason, FoundNoTurns, FoundNoPending, FoundNoRequests,
         Result, Why, Fits, HoldsWrite, HoldsStart, IsLawful, MayTake, OwnsWork, AfterReply, RequestFailed;
    TimesGrow(ds, x);
    StartsGrow(ds, x);
    DeedsGrow(ds, x);
    PlainIsLawful(t, task.client, task.role, ds, x);
  }

  lemma WaitingGoesOn(t: TaskId, task: Task, ds: set<Deed>, x: Deed, eff: Effect)
    requires IsDue(t, task, ds, x, eff)
    requires task.pc.Wait? || task.pc.Forget?
    requires Request(x.found, task, x.choice) == Some(eff)
    ensures GoesOn(t, task, ds, x, eff)
  {
    hide RanOut, NotWritten, StartRanOut, TriedForRoom, Did, WasTold, GaveUp, IsJudged, SawRetired, SawStart,
         HasNotInstalled, HasInstalled, HasProcess, LeftNone, TookAndFailed, TookAt, FoundFit, FoundUnfit, Wrote,
         Unlisted, SawNoPending, SawNoTurns, SawNoRequests, SawReason, FoundNoTurns, FoundNoPending, FoundNoRequests,
         Result, Why, Fits, HoldsWrite, HoldsStart, IsLawful, MayTake, OwnsWork, AfterReply, RequestFailed;
    TimesGrow(ds, x);
    StartsGrow(ds, x);
    DeedsGrow(ds, x);
    PlainIsLawful(t, task.client, task.role, ds, x);
    if task.pc.Forget? {
      ForgetGoesOn(t, task, ds, x);
    } else if x.op.Settle? {
      WaitGoesOn(t, task, ds, x, x.op.outcome);
    }
  }

  lemma SettledGoesOn(t: TaskId, task: Task, ds: set<Deed>, x: Deed, eff: Effect)
    requires IsDue(t, task, ds, x, eff)
    requires task.pc.Record? || task.pc.CheckWork? || task.pc.TakePoisoned?
    requires Request(x.found, task, x.choice) == Some(eff)
    ensures GoesOn(t, task, ds, x, eff)
  {
    hide TriedForRoom, Did, WasTold, GaveUp, IsJudged, SawRetired, SawStart, HasNotInstalled, HasInstalled,
         HasProcess, LeftNone, TookAndFailed, TookAt, FoundFit, FoundUnfit, Wrote, Unlisted, SawNoPending, SawNoTurns,
         SawNoRequests, SawReason, FoundNoTurns, FoundNoPending, FoundNoRequests, Result, Why, Fits, HoldsWrite,
         HoldsStart, IsLawful, MayTake, OwnsWork, AfterReply, RequestFailed;
    CallerRole(task);
    match task.pc
    case Record(_, _) => RecordGoesOn(t, task, ds, x);
    case CheckWork(_, _) =>
      PlainIsLawful(t, task.client, task.role, ds, x);
      CheckGoesOn(t, task, ds, x);
    case TakePoisoned(_) =>
      if x.op == Nop {
        PlainIsLawful(t, task.client, task.role, ds, x);
        GoneGoesOn(t, task, ds, x);
      } else {
        PoisonGoesOn(t, task, ds, x);
      }
  }

  lemma RequestGoesOn(t: TaskId, task: Task, ds: set<Deed>, x: Deed, eff: Effect)
    requires IsDue(t, task, ds, x, eff) && InRequest(task.pc)
    requires Request(x.found, task, x.choice) == Some(eff)
    ensures GoesOn(t, task, ds, x, eff)
  {
    hide IsDue, GoesOn, Request;
    if task.pc.Allocate? || task.pc.Snapshot? {
      SendingGoesOn(t, task, ds, x, eff);
    } else if task.pc.Register? || task.pc.Write? {
      WritingGoesOn(t, task, ds, x, eff);
    } else if task.pc.Wait? || task.pc.Forget? {
      WaitingGoesOn(t, task, ds, x, eff);
    } else {
      SettledGoesOn(t, task, ds, x, eff);
    }
  }

  lemma CloserRole(task: Task)
    requires Fits(task) && InShut(task.pc)
    ensures task.role.Retire? || task.role.Quiesce?
    ensures task.pc.AwaitWrite? || HoldsWrite(task)
  {
  }

  lemma RetiringIsLawful(t: TaskId, c: ClientId, role: Role, ds: set<Deed>, x: Deed)
    requires role.Retire? && x.op == SetRetired && x.born.None? && x.found.writer == Some(t)
    ensures IsLawful(t, c, role, ds, x)
  {
  }

  lemma WasLocked(t: TaskId, c: ClientId, role: Role, ds: set<Deed>, x: Deed)
    requires role == Quiesce(true) && (x.found.writer.Some? || x.found.readers != {})
    ensures Result(t, c, role, Refused, ds + {x})
  {
    assert x in ds + {x};
  }

  lemma HadReason(t: TaskId, c: ClientId, role: Role, ds: set<Deed>)
    requires role.Quiesce? && SawReason(ds)
    ensures Result(t, c, role, Closed, ds)
  {
    hide SawReason, LeftNone, SawIdle;
  }

  lemma SeenAlone(t: TaskId, ds: set<Deed>, x: Deed)
    requires x.at.CheckIdle?
    ensures x.found.writer == Some(t) ==>
              if HasWork(x.found, x.at.n) then SawReason(ds + {x})
              else if x.at.n == 0 then SawNoPending(ds + {x}, t)
              else if x.at.n == 1 then SawNoTurns(ds + {x}, t)
              else SawNoRequests(ds + {x}, t)
    ensures x.choice == Fail ==> SawReason(ds + {x})
  {
    assert x in ds + {x};
  }

  lemma CheckIdleGoesOn(t: TaskId, task: Task, ds: set<Deed>, x: Deed, eff: Effect)
    requires IsDue(t, task, ds, x, eff)
    requires task.pc.CheckIdle?
    requires Shut(x.found, task, x.choice) == Some(eff)
    ensures GoesOn(t, task, ds, x, eff)
  {
    hide HasWork, Did, WasTold, GaveUp, IsJudged, SawRetired, SawStart, HasNotInstalled, HasInstalled, HasProcess,
         LeftNone, TookAndFailed, TookAt, FoundFit, FoundUnfit, Wrote, Unlisted, SawNoPending, SawNoTurns,
         SawNoRequests, SawReason, FoundNoTurns, FoundNoPending, FoundNoRequests, Result, WhyThis, Fits, HoldsWrite,
         HoldsStart, IsLawful, MayTake, IsBusy;
    SightsGrow(ds, x);
    SeenAlone(t, ds, x);
    CloserRole(task);
    PlainIsLawful(t, task.client, task.role, ds, x);
    if eff.pc.LeaveWrite? {
      HadReason(t, task.client, task.role, ds + {x});
    }
  }

  lemma LeaveWriteGoesOn(t: TaskId, task: Task, ds: set<Deed>, x: Deed, eff: Effect)
    requires IsDue(t, task, ds, x, eff)
    requires task.pc.LeaveWrite?
    requires Shut(x.found, task, x.choice) == Some(eff)
    ensures GoesOn(t, task, ds, x, eff)
  {
    hide TriedForRoom, Did, WasTold, GaveUp, IsJudged, SawRetired, SawStart, HasNotInstalled, HasInstalled,
         HasProcess, LeftNone, TookAndFailed, TookAt, FoundFit, FoundUnfit, Wrote, Unlisted, SawNoPending, SawNoTurns,
         SawNoRequests, SawReason, FoundNoTurns, FoundNoPending, FoundNoRequests, Result, WhyThis, Fits, HoldsWrite,
         HoldsStart, IsLawful, MayTake;
    PlainIsLawful(t, task.client, task.role, ds, x);
    ResultGrows(t, task.client, task.role, Closed, ds, x);
  }

  lemma RetireGoesOn(t: TaskId, task: Task, ds: set<Deed>, x: Deed, eff: Effect)
    requires IsDue(t, task, ds, x, eff)
    requires task.pc.Retiring?
    requires Shut(x.found, task, x.choice) == Some(eff)
    ensures GoesOn(t, task, ds, x, eff)
  {
    hide TriedForRoom, Did, WasTold, GaveUp, IsJudged, SawRetired, SawStart, HasNotInstalled, HasInstalled,
         HasProcess, LeftNone, TookAndFailed, TookAt, FoundFit, FoundUnfit, Wrote, Unlisted, SawNoPending, SawNoTurns,
         SawNoRequests, SawReason, FoundNoTurns, FoundNoPending, FoundNoRequests, Result, WhyThis, Fits, HoldsWrite,
         HoldsStart, IsLawful, MayTake;
    DeedsGrow(ds, x);
    CloserRole(task);
    RetiringIsLawful(t, task.client, task.role, ds, x);
  }

  lemma AwaitWriteGoesOn(t: TaskId, task: Task, ds: set<Deed>, x: Deed, eff: Effect)
    requires IsDue(t, task, ds, x, eff)
    requires task.pc.AwaitWrite?
    requires Shut(x.found, task, x.choice) == Some(eff)
    ensures GoesOn(t, task, ds, x, eff)
  {
    hide TriedForRoom, Did, WasTold, GaveUp, IsJudged, SawRetired, SawStart, HasNotInstalled, HasInstalled,
         HasProcess, LeftNone, TookAndFailed, TookAt, FoundFit, FoundUnfit, Wrote, Unlisted, SawNoPending, SawNoTurns,
         SawNoRequests, SawReason, FoundNoTurns, FoundNoPending, FoundNoRequests, Result, WhyThis, Fits, HoldsWrite,
         HoldsStart, IsLawful, MayTake;
    CloserRole(task);
    PlainIsLawful(t, task.client, task.role, ds, x);
    if eff.pc.Done? {
      WasLocked(t, task.client, task.role, ds, x);
    }
  }

  lemma ShutGoesOn(t: TaskId, task: Task, ds: set<Deed>, x: Deed, eff: Effect)
    requires IsDue(t, task, ds, x, eff) && InShut(task.pc)
    requires Shut(x.found, task, x.choice) == Some(eff)
    ensures GoesOn(t, task, ds, x, eff)
  {
    hide IsDue, GoesOn, Shut;
    if task.pc.CheckIdle? {
      CheckIdleGoesOn(t, task, ds, x, eff);
    } else if task.pc.LeaveWrite? {
      LeaveWriteGoesOn(t, task, ds, x, eff);
    } else if task.pc.Retiring? {
      RetireGoesOn(t, task, ds, x, eff);
    } else {
      AwaitWriteGoesOn(t, task, ds, x, eff);
    }
  }

  lemma WhyGrows(t: TaskId, role: Role, cause: Cause, ds: set<Deed>, x: Deed)
    ensures Why(t, role, cause, ds) ==> Why(t, role, cause, ds + {x})
    ensures forall p | WhyThis(t, role, cause, p, ds) :: WhyThis(t, role, cause, p, ds + {x})
  {
    hide Did, HasInstalled, SawNoPending, SawNoTurns, SawNoRequests, GaveUp;
    DeedsGrow(ds, x);
    StartsGrow(ds, x);
    SightsGrow(ds, x);
    forall p | WhyThis(t, role, cause, p, ds) ensures WhyThis(t, role, cause, p, ds + {x}) {
      GivingUpGrows(ds, x, p.gen);
    }
  }

  /** The roles that close for this cause, and the lock they hold at it. */
  lemma DisposerRole(task: Task, cause: Cause)
    requires Fits(task) && PhaseOf(task.pc) == Closing(cause)
    ensures match cause
            case StartFailed => (task.role.App? || task.role.Startup?) && HoldsStart(task)
            case Recovered => task.role.App?
            case Ended => task.role.Close? || ((task.role.Retire? || task.role.Quiesce?) && HoldsWrite(task))
    ensures task.role.App? && cause.StartFailed? ==> !task.role.deadline
  {
  }

  lemma MayClose(t: TaskId, role: Role, cause: Cause, ds: set<Deed>, x: Deed, p: Proc)
    requires Why(t, role, cause, ds) && !cause.Recovered?
    requires cause.StartFailed? ==> (role.App? || role.Startup?) && x.found.start == Some(t)
    requires cause.Ended? ==> role.Close? || ((role.Retire? || role.Quiesce?) && x.found.writer == Some(t))
    ensures MayTake(t, role, ds, x, p)
  {
    hide Did, HasInstalled, IsStuck, SawNoPending, SawNoTurns, SawNoRequests;
  }

  /** The end of a closure. */
  lemma ClosureEnds(t: TaskId, c: ClientId, role: Role, cause: Cause, ds: set<Deed>)
    requires Why(t, role, cause, ds) && LeftNone(ds)
    requires cause.Recovered? ==> role.App? && exists p: Proc :: GaveUp(ds, p.gen) && TookAndFailed(ds, p)
    requires cause.Ended? ==> role.Close? || role.Retire? || role.Quiesce?
    ensures Tale(t, c, role, AfterClose(role, cause), ds)
  {
    hide Did, HasInstalled, LeftNone, SawNoPending, SawNoTurns, SawNoRequests, GaveUp, TookAndFailed, SawReason;
    if cause.Recovered? {
      var p: Proc :| GaveUp(ds, p.gen) && TookAndFailed(ds, p);
      OutOfTime(t, c, role, ds, p.gen);
    }
  }

  lemma FailedByNow(ds: set<Deed>, x: Deed, p: Proc)
    requires (exists n: nat :: TookAt(ds, n, p)) && x.op == TakeGeneration(p.gen) && forall d <- ds :: d.n < x.n
    ensures TookAndFailed(ds + {x}, p)
  {
    var n: nat :| TookAt(ds, n, p);
    assert x in ds + {x};
    assert TookAt(ds + {x}, n, p) && DidSince(ds + {x}, TakeGeneration(p.gen), n);
  }

  lemma TakingGoesOn(t: TaskId, task: Task, ds: set<Deed>, x: Deed)
    requires task.pc.TakeProcess? && x.at == task.pc && HoldsAsSaid(t, task, x.found) && x.born.None?
    requires Tale(t, task.client, task.role, task.pc, ds)
    requires x.op == if x.found.process.None? then Nop else RemoveProcess
    ensures Tale(t, task.client, task.role,
                 if x.found.process.None? then AfterClose(task.role, task.pc.cause)
                 else FailGeneration(x.found.process.value, task.pc.cause), ds + {x})
    ensures IsLawful(t, task.client, task.role, ds, x)
  {
    hide IsLawful, Why, MayTake, Fits, HoldsWrite, HoldsStart, LeftNone, Result, AfterClose, TookAt, GaveUp;
    var role, c, cause := task.role, task.client, task.pc.cause;
    DisposerRole(task, cause);
    WhyGrows(t, role, cause, ds, x);
    Seen(t, ds, x);
    if x.found.process.Some? {
      MayClose(t, role, cause, ds, x, x.found.process.value);
      TakingIsLawful(t, c, role, ds, x);
    } else {
      PlainIsLawful(t, c, role, ds, x);
      ClosureEnds(t, c, role, cause, ds + {x});
    }
  }

  lemma DropGoesOn(t: TaskId, task: Task, ds: set<Deed>, x: Deed)
    requires task.pc.DropProcess? && Fits(task) && Tale(t, task.client, task.role, task.pc, ds)
    ensures Tale(t, task.client, task.role, AfterClose(task.role, task.pc.cause), ds + {x})
  {
    hide Why, Fits, HoldsWrite, HoldsStart, LeftNone, Result, AfterClose, TookAt, GaveUp, TookAndFailed;
    var role, c, cause, p := task.role, task.client, task.pc.cause, task.pc.proc;
    DisposerRole(task, cause);
    WhyGrows(t, role, cause, ds, x);
    FailuresGrow(ds, x);
    assert WhyThis(t, role, cause, p, ds + {x});
    FailedLeftNone(ds + {x}, p);
    ClosureEnds(t, c, role, cause, ds + {x});
  }

  lemma FailedLeftNone(ds: set<Deed>, p: Proc)
    requires TookAndFailed(ds, p)
    ensures LeftNone(ds)
  {
    hide TookAndFailed;
  }

  lemma FailingGoesOn(t: TaskId, task: Task, ds: set<Deed>, x: Deed, eff: Effect)
    requires IsDue(t, task, ds, x, eff) && (task.pc.FailGeneration? || task.pc.SendFailures?)
    requires Dispose(x.found, task.role, task.pc, x.choice) == Some(eff)
    ensures GoesOn(t, task, ds, x, eff)
  {
    hide TriedForRoom, Did, WasTold, GaveUp, IsJudged, SawRetired, SawStart, HasNotInstalled, HasInstalled,
         HasProcess, LeftNone, TookAndFailed, TookAt, FoundFit, FoundUnfit, Wrote, Unlisted, SawNoPending, SawNoTurns,
         SawNoRequests, SawReason, FoundNoTurns, FoundNoPending, FoundNoRequests, Result, Why, WhyThis, Fits,
         HoldsWrite, HoldsStart, IsLawful, MayTake, AfterClose;
    WhyGrows(t, task.role, task.pc.cause, ds, x);
    PlainIsLawful(t, task.client, task.role, ds, x);
    if task.pc.FailGeneration? {
      FailedByNow(ds, x, task.pc.proc);
    } else {
      FailuresGrow(ds, x);
    }
  }

  lemma LeavingGoesOn(t: TaskId, task: Task, ds: set<Deed>, x: Deed, eff: Effect)
    requires IsDue(t, task, ds, x, eff) && (task.pc.TakeProcess? || task.pc.DropProcess?)
    requires Dispose(x.found, task.role, task.pc, x.choice) == Some(eff)
    ensures GoesOn(t, task, ds, x, eff)
  {
    hide TriedForRoom, Did, WasTold, GaveUp, IsJudged, SawRetired, SawStart, HasNotInstalled, HasInstalled,
         HasProcess, LeftNone, TookAndFailed, TookAt, FoundFit, FoundUnfit, Wrote, Unlisted, SawNoPending, SawNoTurns,
         SawNoRequests, SawReason, FoundNoTurns, FoundNoPending, FoundNoRequests, Result, Why, WhyThis, Fits,
         HoldsWrite, HoldsStart, IsLawful, MayTake, AfterClose;
    if task.pc.TakeProcess? {
      TakingGoesOn(t, task, ds, x);
    } else {
      PlainIsLawful(t, task.client, task.role, ds, x);
      DropGoesOn(t, task, ds, x);
    }
  }

  lemma DisposeGoesOn(t: TaskId, task: Task, ds: set<Deed>, x: Deed, eff: Effect)
    requires IsDue(t, task, ds, x, eff) && InDispose(task.pc)
    requires Dispose(x.found, task.role, task.pc, x.choice) == Some(eff)
    ensures GoesOn(t, task, ds, x, eff)
  {
    hide IsDue, GoesOn, Dispose;
    if task.pc.FailGeneration? || task.pc.SendFailures? {
      FailingGoesOn(t, task, ds, x, eff);
    } else {
      LeavingGoesOn(t, task, ds, x, eff);
    }
  }

  lemma StepGoesOn(t: TaskId, task: Task, spare: TaskId, ds: set<Deed>, x: Deed, eff: Effect)
    requires IsDue(t, task, ds, x, eff) && !task.role.Supervise?
    requires Act(x.found, task, x.slotFree, x.child, spare, x.choice) == Some(eff)
    ensures GoesOn(t, task, ds, x, eff)
  {
    hide IsDue, GoesOn, Enter, RespondTo, Start, SpawnProcess, MakeRoom, Request, Shut, Dispose, InEnter, InRespond,
         InStart, InSpawn, InMakeRoom, InRequest, InShut, InDispose;
    if InEnter(task.pc) {
      EnterGoesOn(t, task, spare, ds, x, eff);
    } else if InRespond(task.pc) {
      RespondGoesOn(t, task, ds, x, eff);
    } else if InStart(task.pc) {
      StartGoesOn(t, task, ds, x, eff);
    } else if InSpawn(task.pc) {
      SpawnGoesOn(t, task, ds, x, eff);
    } else if InMakeRoom(task.pc) {
      RoomGoesOn(t, task, spare, ds, x, eff);
    } else if InRequest(task.pc) {
      RequestGoesOn(t, task, ds, x, eff);
    } else if InShut(task.pc) {
      ShutGoesOn(t, task, ds, x, eff);
    } else {
      DisposeGoesOn(t, task, ds, x, eff);
    }
  }

  // ----- whole runs -----

  /** The task is where its steps so far can have led it. */
  ghost predicate IsTold(r: Trace, i: nat, t: TaskId)
    requires |r.states| == |r.events| + 1 && i <= |r.events| && t in r.states[i].tasks
  {
    var task := r.states[i].tasks[t];
    !task.role.Supervise? ==> Tale(t, task.client, task.role, task.pc, Deeds(r, t, i))
  }

  lemma NewbornIsTold(t: TaskId, c: ClientId, role: Role)
    requires !role.Supervise?
    ensures Tale(t, c, role, FirstPc(role), {})
  {
  }

  lemma {:induction false} RunTells(r: Trace, maxProcesses: nat, i: nat, t: TaskId)
    requires IsRun(r, maxProcesses) && i < |r.states| && t in r.states[i].tasks
    ensures IsTold(r, i, t)
    decreases i
  {
    hide After, Enabled, Tale, AllLocksOk, Initial, StepsAt, DeedAt;
    if i == 0 {
      NobodyAtFirst(r.states[0], maxProcesses);
    } else {
      RunLocks(r, maxProcesses, i - 1);
      if t in r.states[i - 1].tasks {
        RunTells(r, maxProcesses, i - 1, t);
        EventTells(r, i - 1, t);
      } else {
        NoDeedsBefore(r, maxProcesses, i - 1, t);
        TaskAfter(r.states[i - 1], r.events[i - 1], t);
        BirthTells(r, i, t);
      }
    }
  }

  lemma BirthTells(r: Trace, i: nat, t: TaskId)
    requires |r.states| == |r.events| + 1 && 0 < i <= |r.events| && t in r.states[i].tasks
    requires t !in r.states[i - 1].tasks && Deeds(r, t, i - 1) == {}
    requires r.states[i].tasks[t].pc == FirstPc(r.states[i].tasks[t].role)
    ensures IsTold(r, i, t)
  {
    hide Tale, FirstPc, DeedAt;
    var task := r.states[i].tasks[t];
    assert Deeds(r, t, i) == {};
    if !task.role.Supervise? {
      NewbornIsTold(t, task.client, task.role);
    }
  }

  lemma NobodyAtFirst(s: State, maxProcesses: nat)
    requires Initial(s, maxProcesses)
    ensures s.tasks == map[]
  {
  }

  /** What an event makes of a task: its own step moves it; others leave it, but for an abort. */
  lemma TaskAfter(s: State, e: Event, t: TaskId)
    requires Enabled(s, e) && t in After(s, e).tasks
    ensures if t !in s.tasks then After(s, e).tasks[t].pc == FirstPc(After(s, e).tasks[t].role)
            else if e.Step? && e.t == t then After(s, e).tasks[t] == s.tasks[t].(pc := e.effect.pc)
            else After(s, e).tasks[t] == s.tasks[t] || s.tasks[t].role.Supervise?
    ensures t in s.tasks ==> After(s, e).tasks[t].role == s.tasks[t].role
  {
    hide Act, Perform, Handle, FirstPc;
  }

  lemma TaskStays(s: State, e: Event, t: TaskId)
    requires Enabled(s, e) && t in s.tasks
    ensures t in After(s, e).tasks
  {
    hide Act, Perform, Handle;
  }

  lemma {:induction false} NoDeedsBefore(r: Trace, maxProcesses: nat, i: nat, t: TaskId)
    requires IsRun(r, maxProcesses) && i < |r.states| && t !in r.states[i].tasks
    ensures Deeds(r, t, i) == {}
    decreases i
  {
    hide After, Enabled, Initial;
    if i > 0 {
      if t in r.states[i - 1].tasks {
        TaskStays(r.states[i - 1], r.events[i - 1], t);
      }
      NoDeedsBefore(r, maxProcesses, i - 1, t);
    }
  }

  lemma HeldAsSaid(s: State, t: TaskId)
    requires AllLocksOk(s) && t in s.tasks
    ensures s.tasks[t].client in s.clients && HoldsAsSaid(t, s.tasks[t], s.clients[s.tasks[t].client])
  {
    hide AllLocksOk, Fits, HoldsWrite, HoldsStart, HoldsRead;
    TaskLocks(s, t);
  }

  lemma OwnStepTells(r: Trace, i: nat, t: TaskId)
    requires |r.states| == |r.events| + 1 && i < |r.events| && Enabled(r.states[i], r.events[i])
    requires AllLocksOk(r.states[i]) && StepsAt(r, i, t) && !r.states[i].tasks[t].role.Supervise?
    requires IsTold(r, i, t)
    ensures var task := r.states[i].tasks[t];
            Tale(t, task.client, task.role, r.events[i].effect.pc, Deeds(r, t, i + 1))
            && IsLawful(t, task.client, task.role, Deeds(r, t, i), DeedAt(r, i, t))
            && MakesRoom(task.client, Deeds(r, t, i), DeedAt(r, i, t))
  {
    hide MakesRoom, Act, Tale, AllLocksOk, IsLawful, HoldsAsSaid, ChildOutcome;
    var s, e := r.states[i], r.events[i];
    HeldAsSaid(s, t);
    StepGoesOn(t, s.tasks[t], e.spare, Deeds(r, t, i), DeedAt(r, i, t), e.effect);
  }

  lemma EventTells(r: Trace, i: nat, t: TaskId)
    requires |r.states| == |r.events| + 1 && i < |r.events| && t in r.states[i].tasks
    requires Enabled(r.states[i], r.events[i]) && r.states[i + 1] == After(r.states[i], r.events[i])
    requires AllLocksOk(r.states[i]) && IsTold(r, i, t) && t in r.states[i + 1].tasks
    ensures IsTold(r, i + 1, t)
  {
    hide After, Act, Tale, AllLocksOk, IsLawful, DeedAt;
    var s, e := r.states[i], r.events[i];
    TaskAfter(s, e, t);
    if !s.tasks[t].role.Supervise? && e.Step? && e.t == t {
      OwnStepTells(r, i, t);
    } else if !s.tasks[t].role.Supervise? {
      assert Deeds(r, t, i + 1) == Deeds(r, t, i);
    }
  }

  // ----- what the steps of a task come to -----

  /** Whoever has come to an end has seen and done what this end calls for: whoever was given an answer
      was given it for its own request, and a turn that the answer started is known; a process that did
      not answer in time was judged; whoever did not start a process left none behind; a closed client was
      seen idle, and what waited for its process failed; a request of the server was answered through a
      process that may be told, and taken off the list exactly if it was the one observed. */
  lemma EndsAreEarned(r: Trace, maxProcesses: nat, i: nat, t: TaskId)
    requires IsRun(r, maxProcesses) && i < |r.states| && t in r.states[i].tasks && r.states[i].tasks[t].pc.Done?
    ensures var task := r.states[i].tasks[t];
            !task.role.Supervise? ==> Result(t, task.client, task.role, task.pc.outcome, Deeds(r, t, i))
  {
    hide IsRun, Result;
    RunTells(r, maxProcesses, i, t);
  }

  /** No step does or begins anything that what its task has seen and done before does not allow: nobody
      takes out a process but to close, to retire, on finding the client idle, for one that is stale, did
      not come up or counts as stuck. */
  lemma StepsAreLawful(r: Trace, maxProcesses: nat, i: nat, t: TaskId)
    requires IsRun(r, maxProcesses) && i < |r.events| && StepsAt(r, i, t) && !r.states[i].tasks[t].role.Supervise?
    ensures var task := r.states[i].tasks[t];
            IsLawful(t, task.client, task.role, Deeds(r, t, i), DeedAt(r, i, t))
            && MakesRoom(task.client, Deeds(r, t, i), DeedAt(r, i, t))
  {
    hide MakesRoom, After, Enabled, Initial, IsLawful, IsTold, AllLocksOk, DeedAt;
    RunTells(r, maxProcesses, i, t);
    RunLocks(r, maxProcesses, i);
    OwnStepTells(r, i, t);
  }
}
