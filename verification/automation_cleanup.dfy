/** Which worktrees of finished automation runs may go: all but the most recent ones of each
    automation, and none whose session is busy. */
module AutomationCleanup {
  import opened Text
  import opened AutomationRuns

  /** A run as the clean-up reads it, most recent first; fields that are missing or blank are None. */
  datatype Entry = Entry(
    removed: bool, status: Status, automation: Option<string>, repo: Option<string>, worktree: Option<string>,
    session: Option<string>, id: Option<string>)

  datatype Candidate = Candidate(index: nat, id: string, automation: string)

  /** A finished run with a worktree that is still there. */
  predicate IsFinished(e: Entry) {
    !e.removed && (e.status == Completed || e.status == Failed || e.status == Cancelled)
    && e.automation.Some? && e.repo.Some? && e.worktree.Some?
  }

  /** How many finished runs of the automation come before the n-th entry. */
  function Before(es: seq<Entry>, n: nat, automation: string): (k: nat)
    requires n <= |es|
    ensures k <= n
  {
    if n == 0 then 0
    else
      Before(es, n - 1, automation)
      + (if IsFinished(es[n - 1]) && es[n - 1].automation == Some(automation) then 1 else 0)
  }

  predicate IsBusy(e: Entry, busy: set<string>) {
    e.session.Some? && e.session.value in busy
  }

  function Min(a: nat, b: nat): nat {
    if a < b then a else b
  }

  /** The entry's worktree may go: there are enough more recent ones, and nobody is using it. */
  predicate MayGo(es: seq<Entry>, i: nat, keepRecent: nat, busy: set<string>)
    requires i < |es|
  {
    IsFinished(es[i]) && Before(es, i, es[i].automation.value) >= keepRecent && !IsBusy(es[i], busy) && es[i].id.Some?
  }

  /** The finished runs of the automation among the first n entries. */
  function FinishedOf(es: seq<Entry>, n: nat, automation: string): set<int>
    requires n <= |es|
  {
    set j | 0 <= j < n && !es[j].removed && es[j].status in {Completed, Failed, Cancelled} && es[j].repo.Some?
            && es[j].worktree.Some? && es[j].automation == Some(automation)
  }

  lemma {:induction false} BeforeIsSize(es: seq<Entry>, n: nat, automation: string)
    requires n <= |es|
    ensures Before(es, n, automation) == |FinishedOf(es, n, automation)|
  {
    if n > 0 {
      BeforeIsSize(es, n - 1, automation);
      var e, before := es[n - 1], FinishedOf(es, n - 1, automation);
      assert FinishedOf(es, n, automation)
          == before + if IsFinished(e) && e.automation == Some(automation) then {n - 1} else {};
    }
  }

  /** Which worktrees may go, told by the entries alone. */
  lemma WhoMayGo(es: seq<Entry>, i: nat, keepRecent: nat, busy: set<string>)
    requires i < |es|
    ensures MayGo(es, i, keepRecent, busy)
       <==> var e := es[i];
            && !e.removed && e.status in {Completed, Failed, Cancelled} && e.repo.Some? && e.worktree.Some?
            && e.automation.Some? && e.id.Some? && (e.session.Some? ==> e.session.value !in busy)
            && |FinishedOf(es, i, e.automation.value)| >= keepRecent
  {
    if es[i].automation.Some? {
      BeforeIsSize(es, i, es[i].automation.value);
    }
  }

  function AsCandidate(es: seq<Entry>, i: nat): Candidate
    requires i < |es| && es[i].id.Some? && es[i].automation.Some?
  {
    Candidate(i, es[i].id.value, es[i].automation.value)
  }

  /** The selection loop of `cleanup_automation_worktrees_payload`. */
  method Select(es: seq<Entry>, keepRecent: nat, busy: set<string>) returns (cs: seq<Candidate>)
    ensures forall c :: c in cs <==>
            c.index < |es| && MayGo(es, c.index, keepRecent, busy) && c == AsCandidate(es, c.index)
    ensures forall i, j | 0 <= i < j < |cs| :: cs[i].index < cs[j].index
  {
    cs := [];
    var retained: map<string, nat> := map[];
    for i := 0 to |es|
      invariant forall c :: c in cs <==>
              c.index < i && MayGo(es, c.index, keepRecent, busy) && c == AsCandidate(es, c.index)
      invariant forall k, l | 0 <= k < l < |cs| :: cs[k].index < cs[l].index
      invariant forall a :: Retained(retained, a) == Min(keepRecent, Before(es, i, a))
    {
      var e := es[i];
      if IsFinished(e) {
        var a := e.automation.value;
        assert Retained(retained, a) == Min(keepRecent, Before(es, i, a));
        if Retained(retained, a) < keepRecent {
          retained := retained[a := Retained(retained, a) + 1];
        } else {
          retained := retained[a := Retained(retained, a)];
          if !IsBusy(e, busy) && e.id.Some? {
            assert forall k | 0 <= k < |cs| :: cs[k] in cs;
            cs := cs + [Candidate(i, e.id.value, a)];
          }
        }
      }
    }
  }

  function Retained(retained: map<string, nat>, automation: string): nat {
    if automation in retained then retained[automation] else 0
  }

  /** Whatever is selected, the most recent finished runs of each automation are left. */
  lemma {:induction false} RecentStay(es: seq<Entry>, n: nat, automation: string, keepRecent: nat, busy: set<string>)
    returns (kept: set<nat>)
    requires n <= |es|
    ensures |kept| == Min(keepRecent, Before(es, n, automation))
    ensures forall i <- kept ::
            i < n && IsFinished(es[i]) && es[i].automation == Some(automation) && !MayGo(es, i, keepRecent, busy)
  {
    kept := {};
    if n > 0 {
      kept := RecentStay(es, n - 1, automation, keepRecent, busy);
      if IsFinished(es[n - 1]) && es[n - 1].automation == Some(automation)
        && Before(es, n - 1, automation) < keepRecent {
        kept := kept + {n - 1};
      }
    }
  }
}
