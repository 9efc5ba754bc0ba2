/** The list of automation runs of a profile, under any interleaving of runs that start and fail,
    sessions that end and schedules that are skipped. Each step is one locked edit of the list. */
module AutomationRuns {
  import opened Text

  const MAX_RUNS: nat := 200

  datatype Status = Running | Started | Completed | Failed | Cancelled | Skipped

  datatype Run = Run(
    id: string, automation: string, status: Status, session: Option<string>, completedAt: Option<nat>,
    error: Option<string>)

  predicate IsActive(status: Status) {
    status == Running || status == Started
  }

  /** How far a run has come. */
  function Rank(status: Status): nat {
    match status
    case Running => 0
    case Started => 1
    case Completed => 2
    case Failed => 3
    case Cancelled => 3
    case Skipped => 3
  }

  // ----- the edits, as functions -----

  function Listed(runs: seq<Run>): (r: seq<Run>)
    ensures r <= runs && |r| <= MAX_RUNS
  {
    if |runs| > MAX_RUNS then runs[..MAX_RUNS] else runs
  }

  predicate HasActive(runs: seq<Run>, automation: string) {
    exists i :: 0 <= i < |runs| && runs[i].automation == automation && IsActive(runs[i].status)
  }

  function Without(runs: seq<Run>, id: string): (r: seq<Run>)
    ensures forall run :: run in r <==> run in runs && run.id != id
  {
    if runs == [] then [] else (if runs[0].id == id then [] else [runs[0]]) + Without(runs[1..], id)
  }

  /** The first run with this id, changed. */
  function Updated(runs: seq<Run>, id: string, change: Run -> Run): (r: seq<Run>)
    ensures |r| == |runs|
  {
    if runs == [] then []
    else if runs[0].id == id then [change(runs[0])] + runs[1..]
    else [runs[0]] + Updated(runs[1..], id, change)
  }

  /** What the end of a session does to one run. */
  function Ended(run: Run, session: string, status: Status, at: nat, error: Option<string>): Run {
    if run.session == Some(session)
       && (IsActive(run.status) || (run.status == Completed && (status == Failed || status == Cancelled)))
    then run.(status := status, completedAt := Some(at), error := error)
    else run
  }

  /** The end of the session ends this run. */
  predicate EndsWith(run: Run, session: string, status: Status) {
    run.session == Some(session)
    && (run.status == Running || run.status == Started
        || (run.status == Completed && (status == Failed || status == Cancelled)))
  }

  function AllEnded(runs: seq<Run>, session: string, status: Status, at: nat, error: Option<string>): (r: seq<Run>)
    ensures |r| == |runs|
    ensures forall i | 0 <= i < |runs| :: r[i] == Ended(runs[i], session, status, at, error)
  {
    if runs == [] then [] else [Ended(runs[0], session, status, at, error)] + AllEnded(runs[1..], session, status, at,
          error)
  }

  function ToStarted(session: string): Run -> Run {
    (run: Run) => run.(status := Started, session := Some(session), completedAt := None, error := None)
  }

  function ToFailed(at: nat, error: string): Run -> Run {
    (run: Run) => run.(status := Failed, completedAt := Some(at), error := Some(error))
  }

  lemma {:induction false} UpdatedAt(runs: seq<Run>, id: string, change: Run -> Run, i: nat)
    requires i <= |runs| && (i < |runs| ==> runs[i].id == id) && forall j | 0 <= j < i :: runs[j].id != id
    ensures Updated(runs, id, change) == if i < |runs| then runs[i := change(runs[i])] else runs
  {
    if runs != [] && i > 0 {
      var rest := runs[1..];
      assert forall j | 0 <= j < |rest| :: rest[j] == runs[j + 1];
      UpdatedAt(rest, id, change, i - 1);
      assert i < |runs| ==> [runs[0]] + rest[i - 1 := change(runs[i])] == runs[i := change(runs[i])];
    }
  }

  lemma {:induction false} WithoutMore(runs: seq<Run>, run: Run, id: string)
    ensures Without(runs + [run], id) == Without(runs, id) + if run.id == id then [] else [run]
  {
    if runs == [] {
      assert runs + [run] == [run];
    } else {
      assert (runs + [run])[0] == runs[0] && (runs + [run])[1..] == runs[1..] + [run];
      WithoutMore(runs[1..], run, id);
    }
  }

  lemma FirstAndRest(runs: seq<Run>, id: string, first: Run)
    ensures var r := Listed([first] + Without(runs, id));
            && r[0] == first && |r| <= 200 && (forall run <- r[1..] :: run in runs && run.id != id)
            && ((forall run <- runs :: run.id != id) ==> r[1..] == if |runs| < 200 then runs else runs[..199])
  {
    hide Listed, Without;
    var rest := Without(runs, id);
    ListedInFront(first, rest);
    if forall run <- runs :: run.id != id {
      WithoutFresh(runs, id);
    }
  }

  lemma ListedInFront(first: Run, rest: seq<Run>)
    ensures var r := Listed([first] + rest);
            0 < |r| <= 200 && r[0] == first && r[1..] == if |rest| < 200 then rest else rest[..199]
  {
  }

  lemma {:induction false} WithoutFresh(runs: seq<Run>, id: string)
    requires forall i | 0 <= i < |runs| :: runs[i].id != id
    ensures Without(runs, id) == runs
  {
    if runs != [] {
      WithoutFresh(runs[1..], id);
    }
  }

  lemma NothingWithout(id: string)
    ensures Without([], id) == []
  {
  }

  // ----- the edits, as the code makes them -----

  method FindActive(runs: seq<Run>, automation: string) returns (found: bool)
    ensures found <==> HasActive(runs, automation)
  {
    for i := 0 to |runs|
      invariant forall j | 0 <= j < i :: !(runs[j].automation == automation && IsActive(runs[j].status))
    {
      if runs[i].automation == automation && IsActive(runs[i].status) {
        return true;
      }
    }
    found := false;
  }

  method Filter(runs: seq<Run>, id: string) returns (r: seq<Run>)
    ensures r == Without(runs, id)
  {
    hide Without;
    r := [];
    NothingWithout(id);
    for i := 0 to |runs|
      invariant r == Without(runs[..i], id)
    {
      WithoutMore(runs[..i], runs[i], id);
      assert runs[..i + 1] == runs[..i] + [runs[i]];
      if runs[i].id != id {
        r := r + [runs[i]];
      }
    }
    assert runs[..|runs|] == runs;
  }

  class Profile {
    var runs: seq<Run>

    constructor ()
      ensures runs == []
    {
      runs := [];
    }

    /** The start record of `run_automation_payload`: refused while a run of the automation is active. */
    method Record(id: string, automation: string) returns (ok: bool)
      modifies this
      ensures ok <==> forall r <- old(runs) | r.automation == automation :: r.status != Running && r.status != Started
      ensures ok ==>
                && 0 < |runs| <= 200 && runs[0] == Run(id, automation, Running, None, None, None)
                && (forall r <- runs[1..] :: r in old(runs) && r.id != id)
                && ((forall r <- old(runs) :: r.id != id) ==>
                      runs[1..] == if |old(runs)| < 200 then old(runs) else old(runs)[..199])
      ensures ok <==> !HasActive(old(runs), automation)
      ensures runs == if ok then Listed([Run(id, automation, Running, None, None, None)] + Without(old(runs), id))
              else old(runs)
    {
      var active := FindActive(runs, automation);
      ok := !active;
      if ok {
        var rest := Filter(runs, id);
        var next := [Run(id, automation, Running, None, None, None)] + rest;
        ghost var before := runs;
        runs := if |next| > MAX_RUNS then next[..MAX_RUNS] else next;
        FirstAndRest(before, id, next[0]);
      }
    }

    /** Finds the first run with this id and changes it, if it is still listed. */
    method Update(id: string, change: Run -> Run)
      modifies this
      ensures runs == Updated(old(runs), id, change)
      ensures (forall r <- old(runs) :: r.id != id) ==> runs == old(runs)
      ensures forall i | 0 <= i < |old(runs)| && old(runs)[i].id == id
              && (forall j | 0 <= j < i :: old(runs)[j].id != id) ::
                runs == old(runs)[i := change(old(runs)[i])]
    {
      var i := 0;
      while i < |runs| && runs[i].id != id
        invariant i <= |runs| && runs == old(runs)
        invariant forall j | 0 <= j < i :: runs[j].id != id
      {
        i := i + 1;
      }
      UpdatedAt(runs, id, change, i);
      if i < |runs| {
        runs := runs[i := change(runs[i])];
      }
    }

    /** `complete_active_automation_runs_for_session`. */
    method CompleteSession(session: string, status: Status, at: nat, error: Option<string>) returns (changed: bool)
      modifies this
      ensures runs == AllEnded(old(runs), session, status, at, error) && |runs| == |old(runs)|
      ensures forall i | 0 <= i < |runs| ::
                var r := old(runs)[i];
                if r.session == Some(session)
                   && (r.status == Running || r.status == Started
                       || (r.status == Completed && (status == Failed || status == Cancelled)))
                then runs[i] == r.(status := status, completedAt := Some(at), error := error) else runs[i] == r
      ensures changed <==>
                exists r <- old(runs) ::
                  r.session == Some(session)
                  && (r.status == Running || r.status == Started
                      || (r.status == Completed && (status == Failed || status == Cancelled)))
    {
      changed := false;
      var i := 0;
      while i < |runs|
        invariant i <= |runs| == |old(runs)|
        invariant forall j | 0 <= j < i :: runs[j] == Ended(old(runs)[j], session, status, at, error)
        invariant forall j | i <= j < |runs| :: runs[j] == old(runs)[j]
        invariant changed <==> exists j | 0 <= j < i :: EndsWith(old(runs)[j], session, status)
      {
        var run := runs[i];
        if run.session == Some(session) {
          var canOverride := run.status == Completed && (status == Failed || status == Cancelled);
          if IsActive(run.status) || canOverride {
            runs := runs[i := run.(status := status, completedAt := Some(at), error := error)];
            changed := true;
          }
        }
        i := i + 1;
      }
    }

    /** The record of `skip_overlapping_scheduled_automation`. */
    method RecordSkip(id: string, automation: string, at: nat, message: string)
      modifies this
      ensures runs == Listed([Run(id, automation, Skipped, None, Some(at), Some(message))] + old(runs))
      ensures 0 < |runs| && runs[0] == Run(id, automation, Skipped, None, Some(at), Some(message))
      ensures runs[1..] == if |old(runs)| < 200 then old(runs) else old(runs)[..199]
    {
      runs := [Run(id, automation, Skipped, None, Some(at), Some(message))] + runs;
      if |runs| > MAX_RUNS {
        runs := runs[..MAX_RUNS];
      }
    }
  }

  // ----- concurrent runs -----

  /** How far the task behind a run has come: it has recorded the run, it has recorded the session,
      or it will not touch the record again. */
  datatype Stage = Recorded | Dispatched | Over

  /** The list, and the tasks behind every run id that was ever drawn. */
  datatype System = System(runs: seq<Run>, stages: map<string, Stage>)

  datatype Event =
    | Begin(id: string, automation: string)
    | Dispatch(id: string, session: string)
    | Fail(id: string, at: nat, error: string)
    | Return(id: string)
    | Complete(session: string, status: Status, at: nat, why: Option<string>)
    | Skip(id: string, automation: string, at: nat, message: string)

  /** Run ids are drawn fresh; a task takes its steps in order; sessions end at any time, and only in
      one of three ways. */
  predicate Enabled(s: System, e: Event) {
    match e
    case Begin(id, _) => id !in s.stages
    case Dispatch(id, _) => id in s.stages && s.stages[id] == Recorded
    case Fail(id, _, _) => id in s.stages && s.stages[id] != Over
    case Return(id) => id in s.stages && s.stages[id] == Dispatched
    case Complete(_, status, _, _) => status == Completed || status == Failed || status == Cancelled
    case Skip(id, _, _, _) => id !in s.stages
  }

  function NewRun(id: string, automation: string): Run {
    Run(id, automation, Running, None, None, None)
  }

  function After(s: System, e: Event): System {
    match e
    case Begin(id, automation) =>
      if HasActive(s.runs, automation) then s.(stages := s.stages[id := Over])
      else System(Listed([NewRun(id, automation)] + Without(s.runs, id)), s.stages[id := Recorded])
    case Dispatch(id, session) => System(Updated(s.runs, id, ToStarted(session)), s.stages[id := Dispatched])
    case Fail(id, at, error) => System(Updated(s.runs, id, ToFailed(at, error)), s.stages[id := Over])
    case Return(id) => s.(stages := s.stages[id := Over])
    case Complete(session, status, at, why) => s.(runs := AllEnded(s.runs, session, status, at, why))
    case Skip(id, automation, at, message) =>
      System(Listed([Run(id, automation, Skipped, None, Some(at), Some(message))] + s.runs), s.stages[id := Over])
  }

  /** A session that has come to an end leaves none of its runs active, and every run of another session
      as it was. */
  lemma EndsItsRuns(s: System, session: string, status: Status, at: nat, why: Option<string>)
    requires Enabled(s, Complete(session, status, at, why))
    ensures var s' := After(s, Complete(session, status, at, why));
            && |s'.runs| == |s.runs| && s'.stages == s.stages
            && forall i | 0 <= i < |s.runs| ::
                 if s.runs[i].session != Some(session) then s'.runs[i] == s.runs[i]
                 else s'.runs[i].status != Running && s'.runs[i].status != Started
                      && (s.runs[i].status == Running || s.runs[i].status == Started ==>
                            s'.runs[i] == s.runs[i].(status := status, completedAt := Some(at), error := why))
  {
  }

  /** A run is refused exactly while its automation has one that is running or started; else it is listed
      in front, and so is a skipped one. Its task goes on accordingly. */
  lemma RunsAreListed(s: System, id: string, automation: string, at: nat, message: string)
    requires id !in s.stages && IsSound(s)
    ensures var s' := After(s, Begin(id, automation));
            var kept := if |s.runs| < 200 then s.runs else s.runs[..199];
            if exists r <- s.runs :: r.automation == automation && (r.status == Running || r.status == Started)
            then s' == System(s.runs, s.stages[id := Over])
            else s' == System([Run(id, automation, Running, None, None, None)] + kept, s.stages[id := Recorded])
    ensures var kept := if |s.runs| < 200 then s.runs else s.runs[..199];
            After(s, Skip(id, automation, at, message))
            == System([Run(id, automation, Skipped, None, Some(at), Some(message))] + kept, s.stages[id := Over])
    ensures After(s, Return(id)) == System(s.runs, s.stages[id := Over])
  {
    hide Listed, Without;
    forall i | 0 <= i < |s.runs| ensures s.runs[i].id != id {
      assert StageOk(s.runs[i], s.stages);
    }
    WithoutFresh(s.runs, id);
    var new', skip := NewRun(id, automation), Run(id, automation, Skipped, None, Some(at), Some(message));
    ListedInFront(new', s.runs);
    ListedInFront(skip, s.runs);
    FrontAndRest(Listed([new'] + s.runs));
    FrontAndRest(Listed([skip] + s.runs));
  }

  lemma FrontAndRest(runs: seq<Run>)
    requires runs != []
    ensures runs == [runs[0]] + runs[1..]
  {
  }

  /** The task of a run changes the record of that run, and no other. */
  lemma TasksChangeTheirOwn(s: System, id: string, session: string, at: nat, error: string)
    requires IsIndexed(s.runs) && id in s.stages
    ensures var s' := After(s, Dispatch(id, session));
            |s'.runs| == |s.runs| && forall i | 0 <= i < |s.runs| ::
              s'.runs[i] == if s.runs[i].id == id then s.runs[i].(status := Started, session := Some(session),
                                                                  completedAt := None, error := None) else s.runs[i]
    ensures var s' := After(s, Fail(id, at, error));
            |s'.runs| == |s.runs| && forall i | 0 <= i < |s.runs| ::
              s'.runs[i] == if s.runs[i].id == id then s.runs[i].(status := Failed, completedAt := Some(at),
                                                                  error := Some(error)) else s.runs[i]
  {
    UpdatedIs(s.runs, id, ToStarted(session));
    UpdatedIs(s.runs, id, ToFailed(at, error));
  }

  // ----- the invariant -----

  predicate IsIndexed(runs: seq<Run>) {
    forall i, j | 0 <= i < j < |runs| :: runs[i].id != runs[j].id
  }

  /** At most one listed run of each automation is active. */
  predicate OneActive(runs: seq<Run>) {
    forall i, j | 0 <= i < j < |runs| && IsActive(runs[i].status) && IsActive(runs[j].status) ::
      runs[i].automation != runs[j].automation
  }

  /** A run whose task has yet to record a session is running and has none. */
  predicate StageOk(run: Run, stages: map<string, Stage>) {
    run.id in stages && (stages[run.id] == Recorded ==> run.status == Running && run.session.None?)
  }

  predicate IsSound(s: System) {
    IsIndexed(s.runs) && OneActive(s.runs) && forall i | 0 <= i < |s.runs| :: StageOk(s.runs[i], s.stages)
  }

  /** Every listed run is one that was listed before, not further back than it was; or it is new. */
  predicate NeverDrops(s: System, s': System) {
    forall i | 0 <= i < |s'.runs| ::
      s'.runs[i].id !in s.stages
      || exists j ::
              0 <= j < |s.runs| && s.runs[j].id == s'.runs[i].id && Rank(s.runs[j].status) <= Rank(s'.runs[i].status)
  }

  // ----- one event -----

  lemma {:induction false} UpdatedIs(runs: seq<Run>, id: string, change: Run -> Run)
    requires IsIndexed(runs)
    ensures forall i | 0 <= i < |runs| :: Updated(runs, id, change)[i] == if runs[i].id == id then change(runs[i])
            else runs[i]
  {
    if runs != [] {
      var rest := runs[1..];
      assert forall i | 0 <= i < |rest| :: rest[i] == runs[i + 1];
      UpdatedIs(rest, id, change);
      assert runs[0].id == id ==> Updated(runs, id, change) == [change(runs[0])] + rest;
      assert runs[0].id != id ==> Updated(runs, id, change) == [runs[0]] + Updated(rest, id, change);
    }
  }

  lemma BeginSound(s: System, id: string, automation: string)
    requires IsSound(s) && id !in s.stages && !HasActive(s.runs, automation)
    ensures IsSound(After(s, Begin(id, automation))) && NeverDrops(s, After(s, Begin(id, automation)))
  {
    assert forall i | 0 <= i < |s.runs| :: StageOk(s.runs[i], s.stages);
    WithoutFresh(s.runs, id);
    PrependSound(s, NewRun(id, automation), Recorded);
  }

  lemma PrependSound(s: System, run: Run, stage: Stage)
    requires IsSound(s) && run.id !in s.stages && (IsActive(run.status) ==> !HasActive(s.runs, run.automation))
    requires StageOk(run, s.stages[run.id := stage])
    ensures var s' := System(Listed([run] + s.runs), s.stages[run.id := stage]); IsSound(s') && NeverDrops(s, s')
  {
    var s' := System(Listed([run] + s.runs), s.stages[run.id := stage]);
    assert s'.runs[0] == run && forall i | 0 < i < |s'.runs| :: s'.runs[i] == s.runs[i - 1];
    forall i | 0 <= i < |s.runs| ensures s.runs[i].id != run.id && StageOk(s.runs[i], s'.stages) {
      assert StageOk(s.runs[i], s.stages);
    }
  }

  lemma ChangeSound(s: System, id: string, change: Run -> Run, stage: Stage)
    requires IsSound(s) && id in s.stages
    requires forall run: Run ::
               change(run).id == run.id && change(run).automation == run.automation
    requires forall run: Run | StageOk(run, s.stages) && run.id == id ::
               && StageOk(change(run), s.stages[id := stage]) && Rank(run.status) <= Rank(change(run).status)
               && (IsActive(change(run).status) ==> IsActive(run.status))
    ensures var s' := System(Updated(s.runs, id, change), s.stages[id := stage]); IsSound(s') && NeverDrops(s, s')
  {
    var s' := System(Updated(s.runs, id, change), s.stages[id := stage]);
    UpdatedIs(s.runs, id, change);
    forall i | 0 <= i < |s.runs|
      ensures StageOk(s'.runs[i], s'.stages) && s'.runs[i].id == s.runs[i].id
              && s'.runs[i].automation == s.runs[i].automation
      ensures Rank(s.runs[i].status) <= Rank(s'.runs[i].status)
              && (IsActive(s'.runs[i].status) ==> IsActive(s.runs[i].status))
    {
      assert StageOk(s.runs[i], s.stages);
    }
  }

  lemma CompleteSound(s: System, session: string, status: Status, at: nat, why: Option<string>)
    requires IsSound(s) && Enabled(s, Complete(session, status, at, why))
    ensures IsSound(After(s, Complete(session, status, at, why)))
            && NeverDrops(s, After(s, Complete(session, status, at, why)))
  {
    var s' := After(s, Complete(session, status, at, why));
    forall i | 0 <= i < |s.runs|
      ensures StageOk(s'.runs[i], s'.stages) && s'.runs[i].id == s.runs[i].id
              && s'.runs[i].automation == s.runs[i].automation
      ensures Rank(s.runs[i].status) <= Rank(s'.runs[i].status)
              && (IsActive(s'.runs[i].status) ==> IsActive(s.runs[i].status))
    {
      assert StageOk(s.runs[i], s.stages);
      assert s'.runs[i] == Ended(s.runs[i], session, status, at, why);
    }
  }

  lemma AfterSound(s: System, e: Event)
    requires IsSound(s) && Enabled(s, e)
    ensures IsSound(After(s, e)) && NeverDrops(s, After(s, e))
    ensures s.stages.Keys <= After(s, e).stages.Keys
  {
    match e
    case Begin(id, automation) =>
      if !HasActive(s.runs, automation) {
        BeginSound(s, id, automation);
      } else {
        OnlyStage(s, id);
      }
    case Dispatch(id, session) => ChangeSound(s, id, ToStarted(session), Dispatched);
    case Fail(id, at, error) => ChangeSound(s, id, ToFailed(at, error), Over);
    case Return(id) => OnlyStage(s, id);
    case Complete(session, status, at, why) => CompleteSound(s, session, status, at, why);
    case Skip(id, automation, at, message) => PrependSound(s, Run(id, automation, Skipped, None, Some(at),
                                                                  Some(message)), Over);
  }

  lemma OnlyStage(s: System, id: string)
    requires IsSound(s) && (id in s.stages ==> s.stages[id] == Dispatched)
    ensures var s' := s.(stages := s.stages[id := Over]); IsSound(s') && NeverDrops(s, s')
  {
    var s' := s.(stages := s.stages[id := Over]);
    forall i | 0 <= i < |s.runs| ensures StageOk(s.runs[i], s'.stages) {
      assert StageOk(s.runs[i], s.stages);
    }
  }

  // ----- every interleaving -----

  /** A list as a process finds it on disk: of any length and in any state, as long as ids tell its
      runs apart and no automation has two active ones. No task is left of the runs on it. */
  predicate IsLoaded(s: System) {
    && IsIndexed(s.runs) && OneActive(s.runs)
    && forall i | 0 <= i < |s.runs| :: s.runs[i].id in s.stages && s.stages[s.runs[i].id] == Over
  }

  datatype Trace = Trace(states: seq<System>, events: seq<Event>)

  predicate IsRun(r: Trace) {
    && |r.states| == |r.events| + 1
    && IsLoaded(r.states[0])
    && forall i | 0 <= i < |r.events| ::
            Enabled(r.states[i], r.events[i]) && r.states[i + 1] == After(r.states[i], r.events[i])
  }

  /** From any loaded list and over every interleaving of runs, failures, session ends and skips, each
      automation has at most one listed run that is active. */
  lemma {:induction false} AtMostOneActive(r: Trace, i: nat)
    requires IsRun(r) && i < |r.states|
    ensures IsSound(r.states[i]) && OneActive(r.states[i].runs)
  {
    hide Enabled, After, StageOk;
    if i > 0 {
      AtMostOneActive(r, i - 1);
      AfterSound(r.states[i - 1], r.events[i - 1]);
    } else {
      LoadedIsSound(r.states[0]);
    }
  }

  lemma LoadedIsSound(s: System)
    requires IsLoaded(s)
    ensures IsSound(s)
  {
  }

  /** And the status of a run never goes back, as long as the run is listed. */
  lemma {:induction false} StatusNeverGoesBack(r: Trace, i: nat, j: nat, k: nat, l: nat)
    requires IsRun(r) && i <= j < |r.states| && k < |r.states[i].runs| && l < |r.states[j].runs|
    requires r.states[i].runs[k].id == r.states[j].runs[l].id
    ensures Rank(r.states[i].runs[k].status) <= Rank(r.states[j].runs[l].status)
    decreases j
  {
    hide Enabled, After, Rank;
    AtMostOneActive(r, i);
    if i < j {
      IdsStay(r, i, j - 1);
      AtMostOneActive(r, j - 1);
      AfterSound(r.states[j - 1], r.events[j - 1]);
      assert StageOk(r.states[i].runs[k], r.states[i].stages);
      var m :| 0 <= m < |r.states[j - 1].runs| && r.states[j - 1].runs[m].id == r.states[j].runs[l].id
               && Rank(r.states[j - 1].runs[m].status) <= Rank(r.states[j].runs[l].status);
      StatusNeverGoesBack(r, i, j - 1, k, m);
    }
  }

  lemma {:induction false} IdsStay(r: Trace, i: nat, j: nat)
    requires IsRun(r) && i <= j < |r.states|
    ensures r.states[i].stages.Keys <= r.states[j].stages.Keys
    decreases j
  {
    hide Enabled, After, StageOk;
    if i < j {
      IdsStay(r, i, j - 1);
      AtMostOneActive(r, j - 1);
      AfterSound(r.states[j - 1], r.events[j - 1]);
    }
  }
}
