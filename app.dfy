/** The application shell (App.tsx): the script library it holds, the
    screen it shows, and how session results, new scripts and deletions
    change the library. */
module App {
  import opened Types
  import opened Filtering
  import Dashboard
  import PracticeMode

  /** `results.find(r => r.scriptId === id)`: the first result for `id`. */
  function FindResult(results: seq<SessionResult>, id: string): (r: Option<SessionResult>)
    ensures r.None? <==> forall k :: 0 <= k < |results| ==> results[k].scriptId != id
    ensures r.Some? ==> exists k :: 0 <= k < |results| && results[k] == r.value
                          && r.value.scriptId == id
                          && forall j :: 0 <= j < k ==> results[j].scriptId != id
  {
    if |results| == 0 then None
    else if results[0].scriptId == id then Some(results[0])
    else
      var r := FindResult(results[1..], id);
      assert forall k :: 1 <= k < |results| ==> results[1..][k - 1] == results[k];
      r
  }

  /** One recorded outcome applied to a script: one more success or one more
      failure, and the practice time set to `now`. */
  function ApplyOutcome(s: ScriptItem, success: bool, now: int): ScriptItem
  {
    s.(stats := Stats(
      s.stats.successCount + (if success then 1 else 0),
      s.stats.failCount + (if success then 0 else 1),
      Some(now)))
  }

  function Attempts(s: ScriptItem): nat
  {
    s.stats.successCount + s.stats.failCount
  }

  /** `handlePracticeComplete`: every script with a result gets its first
      result applied; all others, and the library's order, stay as they are.
      The clock is read once, as `now`. */
  function ApplyResults(scripts: seq<ScriptItem>, results: seq<SessionResult>, now: int): (r: seq<ScriptItem>)
    ensures |r| == |scripts|
    ensures forall i :: 0 <= i < |r| ==> r[i] == scripts[i].(stats := r[i].stats)
    ensures forall i :: 0 <= i < |r| && FindResult(results, scripts[i].id).None? ==> r[i] == scripts[i]
    ensures forall i :: 0 <= i < |r| && FindResult(results, scripts[i].id).Some? ==>
      var success := FindResult(results, scripts[i].id).value.success;
      && r[i].stats.successCount == scripts[i].stats.successCount + (if success then 1 else 0)
      && r[i].stats.failCount == scripts[i].stats.failCount + (if success then 0 else 1)
      && r[i].stats.lastPracticedAt == Some(now)
  {
    seq(|scripts|, i requires 0 <= i < |scripts| =>
      match FindResult(results, scripts[i].id)
      case Some(result) => ApplyOutcome(scripts[i], result.success, now)
      case None => scripts[i])
  }

  /** Counts never go down, and a script is practised once more exactly when
      some result names it. */
  lemma ApplyResultsCounts(scripts: seq<ScriptItem>, results: seq<SessionResult>, now: int)
    ensures forall i :: 0 <= i < |scripts| ==>
      var r := ApplyResults(scripts, results, now)[i];
      && r.stats.successCount >= scripts[i].stats.successCount
      && r.stats.failCount >= scripts[i].stats.failCount
      && Attempts(r) == Attempts(scripts[i]) + (if FindResult(results, scripts[i].id).Some? then 1 else 0)
  {
  }

  /** Appending a result changes nothing when an earlier result already has
      its id (the first one wins), or when no script has its id (unknown ids
      are ignored). */
  lemma {:induction false} LaterResultIgnored(scripts: seq<ScriptItem>, results: seq<SessionResult>, extra: SessionResult, now: int)
    requires (exists k :: 0 <= k < |results| && results[k].scriptId == extra.scriptId)
          || (forall i :: 0 <= i < |scripts| ==> scripts[i].id != extra.scriptId)
    ensures ApplyResults(scripts, results + [extra], now) == ApplyResults(scripts, results, now)
  {
    forall i | 0 <= i < |scripts|
      ensures FindResult(results + [extra], scripts[i].id) == FindResult(results, scripts[i].id)
    {
      FindResultAppend(results, extra, scripts[i].id);
    }
  }

  /** Looking up a result in a longer list: the earlier list is searched first. */
  lemma {:induction false} FindResultAppend(results: seq<SessionResult>, extra: SessionResult, id: string)
    ensures FindResult(results + [extra], id)
         == if FindResult(results, id).Some? then FindResult(results, id)
            else if extra.scriptId == id then Some(extra) else None
  {
    if |results| != 0 {
      assert (results + [extra])[1..] == results[1..] + [extra];
      FindResultAppend(results[1..], extra, id);
    }
  }

  /** A script just practised is not due again until the cool-down has passed. */
  lemma JustPractisedNotDue(scripts: seq<ScriptItem>, results: seq<SessionResult>, now: int, i: nat, later: int)
    requires i < |scripts| && FindResult(results, scripts[i].id).Some?
    requires now != 0 && now <= later <= now + Dashboard.OneHour
    ensures !Dashboard.IsDue(ApplyResults(scripts, results, now)[i], later)
  {
  }

  /** The results of a completed session, one per queued script in queue
      order, update exactly the library scripts whose id was queued. */
  lemma CompletedSessionApplied(scripts: seq<ScriptItem>, results: seq<SessionResult>, now: int)
    requires |results| == |PracticeMode.PracticeQueue(scripts)|
    requires forall j :: 0 <= j < |results| ==> results[j].scriptId == PracticeMode.PracticeQueue(scripts)[j].id
    ensures forall i :: 0 <= i < |scripts| ==>
      var queue := PracticeMode.PracticeQueue(scripts);
      var r := ApplyResults(scripts, results, now)[i];
      && ((forall j :: 0 <= j < |queue| ==> queue[j].id != scripts[i].id) ==> r == scripts[i])
      && ((exists j :: 0 <= j < |queue| && queue[j].id == scripts[i].id) ==>
            r.stats.lastPracticedAt == Some(now) && Attempts(r) == Attempts(scripts[i]) + 1)
  {
  }

  function Without(id: string): ScriptItem -> bool
  {
    (s: ScriptItem) => s.id != id
  }

  /** `scripts.filter(s => s.id !== id)`. */
  function RemoveById(scripts: seq<ScriptItem>, id: string): seq<ScriptItem>
  {
    Filter(scripts, Without(id))
  }

  /** Deleting removes every script with the id and keeps each other script,
      as often as it occurred and in the original order. */
  lemma {:induction false} RemoveByIdSpec(scripts: seq<ScriptItem>, id: string)
    ensures forall i :: 0 <= i < |RemoveById(scripts, id)| ==> RemoveById(scripts, id)[i].id != id
    ensures forall x :: x in RemoveById(scripts, id) <==> x in scripts && x.id != id
    ensures forall x: ScriptItem :: x.id != id ==> multiset(RemoveById(scripts, id))[x] == multiset(scripts)[x]
    ensures (forall i :: 0 <= i < |scripts| ==> scripts[i].id != id) ==> RemoveById(scripts, id) == scripts
    ensures RemoveById(RemoveById(scripts, id), id) == RemoveById(scripts, id)
  {
    FilterMembership(scripts, Without(id));
    FilterCount(scripts, Without(id));
    FilterKeepsAll(scripts, Without(id));
    FilterKeepsAll(RemoveById(scripts, id), Without(id));
  }

  /** Deleting keeps order: it acts on each part of a split library apart. */
  lemma {:induction false} RemoveByIdAppend(a: seq<ScriptItem>, b: seq<ScriptItem>, id: string)
    ensures RemoveById(a + b, id) == RemoveById(a, id) + RemoveById(b, id)
  {
    FilterAppend(a, b, Without(id));
  }

  /** Adding a script with a fresh id and then deleting that id gives back
      the library as it was. */
  lemma {:induction false} AddThenDelete(scripts: seq<ScriptItem>, s: ScriptItem)
    requires forall i :: 0 <= i < |scripts| ==> scripts[i].id != s.id
    ensures RemoveById(scripts + [s], s.id) == scripts
  {
    RemoveByIdAppend(scripts, [s], s.id);
    RemoveByIdSpec(scripts, s.id);
    assert RemoveById([s], s.id) == [];
  }

  datatype View = DashboardView | CreateView | PracticeView

  /** What the browser's stored snapshot turns out to hold at start-up. */
  datatype Snapshot = Missing | Corrupt | Parsed(items: seq<ScriptItem>)

  class AppState {
    var view: View
    var scripts: seq<ScriptItem>

    /** A practice session is shown only over a non-empty library. */
    ghost predicate Valid()
      reads this
    {
      view == PracticeView ==> |scripts| > 0
    }

    constructor ()
      ensures Valid() && view == DashboardView && scripts == []
    {
      view := DashboardView;
      scripts := [];
    }

    /** Start-up, run once while the library is still empty: a parsed
        snapshot becomes the library; a missing or unparseable one leaves it
        empty. */
    method Load(snapshot: Snapshot)
      requires Valid() && view == DashboardView && scripts == []
      modifies this`scripts
      ensures Valid()
      ensures scripts == if snapshot.Parsed? then snapshot.items else []
    {
      if snapshot.Parsed? {
        scripts := snapshot.items;
      }
    }

    /** `saveScripts`: the one way the library is replaced. */
    method SaveScripts(newScripts: seq<ScriptItem>)
      requires Valid() && (view == PracticeView ==> |newScripts| > 0)
      modifies this`scripts
      ensures Valid() && scripts == newScripts
    {
      scripts := newScripts;
    }

    /** "Create New Script" on the dashboard. */
    method StartCreate()
      requires Valid() && view == DashboardView
      modifies this`view
      ensures Valid() && view == CreateView
    {
      view := CreateView;
    }

    /** "Start Session" on the dashboard, disabled while the library is empty. */
    method StartPractice()
      requires Valid() && view == DashboardView
      modifies this`view
      ensures Valid()
      ensures view == if |scripts| > 0 then PracticeView else DashboardView
    {
      if |scripts| > 0 {
        view := PracticeView;
      }
    }

    /** Back to the dashboard: the logo, "EXIT SESSION", the wizard's Cancel,
        and the session's "Stop Session" and "Done". No session results are
        applied on the way, so a session stopped early changes nothing. */
    method GoToDashboard()
      requires Valid()
      modifies this`view
      ensures Valid() && view == DashboardView && scripts == old(scripts)
    {
      view := DashboardView;
    }

    /** `handleAddScript`: the wizard's new script goes last. */
    method AddScript(script: ScriptItem)
      requires Valid() && view == CreateView
      modifies this
      ensures Valid() && view == DashboardView
      ensures scripts == old(scripts) + [script]
    {
      SaveScripts(scripts + [script]);
      view := DashboardView;
    }

    /** `handleDeleteScript`: the confirmation dialog's answer is `confirmed`. */
    method DeleteScript(id: string, confirmed: bool)
      requires Valid() && view == DashboardView
      modifies this`scripts
      ensures Valid()
      ensures scripts == if confirmed then RemoveById(old(scripts), id) else old(scripts)
    {
      if confirmed {
        SaveScripts(RemoveById(scripts, id));
      }
    }

    /** The practice screen's session. It is only shown after "Start
        Session", which is disabled on an empty library, so the session's
        non-empty requirement always holds. */
    method OpenSession() returns (s: PracticeMode.PracticeSession)
      requires Valid() && view == PracticeView
      ensures fresh(s) && s.Valid()
      ensures s.queue == PracticeMode.PracticeQueue(scripts)
      ensures s.currentIndex == 0 && s.results == [] && !s.isFinished
    {
      s := new PracticeMode.PracticeSession(scripts);
    }

    /** `handlePracticeComplete`, called with a finished session's results. */
    method PracticeComplete(results: seq<SessionResult>, now: int)
      requires Valid() && view == PracticeView
      modifies this`scripts
      ensures Valid()
      ensures scripts == ApplyResults(old(scripts), results, now)
    {
      SaveScripts(ApplyResults(scripts, results, now));
    }
  }
}
