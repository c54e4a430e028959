/**
 Running automation jobs: the set of active jobs, the store of run records, and executions of the
 scheduler, of operators and of triggers, in any interleaving.
 */
module Automation {
  import opened Text

  datatype RunStatus = Running | Completed | Partial | Failed

  datatype Run = Run(job: string, status: RunStatus)

  // ----- the stores -----

  class ActiveJobs {
    var activeJobs: set<string>

    constructor ()
      ensures activeJobs == {}
    {
      activeJobs := {};
    }

    method BeginRun(job: string) returns (ok: bool)
      modifies this
      ensures ok <==> job !in old(activeJobs)
      ensures activeJobs == old(activeJobs) + {job}
    {
      if job in activeJobs {
        assert activeJobs == activeJobs + {job};
        return false;
      }
      activeJobs := activeJobs + {job};
      return true;
    }

    method EndRun(job: string)
      modifies this
      ensures activeJobs == old(activeJobs) - {job}
    {
      activeJobs := activeJobs - {job};
    }

    /** The scheduler's pass: begins every due job that is not active, once. */
    method BeginDueJobs(jobs: seq<Job>, now: int) returns (started: seq<Job>)
      modifies this
      ensures activeJobs == old(activeJobs) + DueIds(jobs, now) == old(activeJobs) + IdsOf(started)
      ensures forall i, j :: 0 <= i < j < |started| ==> started[i].id != started[j].id
      ensures forall i :: 0 <= i < |started| ==> started[i] in jobs && IsDue(started[i], now) && started[i].id !in old(activeJobs)
      ensures forall i :: 0 <= i < |started| ==>
        started[i].enabled && Trim(started[i].schedule) != "" && (started[i].nextRunAt.Some? ==> started[i].nextRunAt.value <= now)
      ensures forall id :: id in DueIds(jobs, now) && id !in old(activeJobs) ==> HasId(started, id)
      ensures forall job :: job in jobs && job.id !in old(activeJobs) && job.enabled && Trim(job.schedule) != "" ==>
        (job.nextRunAt.Some? ==> job.nextRunAt.value <= now) ==> HasId(started, job.id)
    {
      hide Trim, DueIds, HasId, IdsOf;
      started := [];
      NoIds();
      NoneDue(now);
      assert jobs[..0] == [];
      for k := 0 to |jobs|
        invariant activeJobs == old(activeJobs) + DueIds(jobs[..k], now) == old(activeJobs) + IdsOf(started)
        invariant forall i, j :: 0 <= i < j < |started| ==> started[i].id != started[j].id
        invariant forall i :: 0 <= i < |started| ==>
          started[i] in jobs && IsDue(started[i], now) && started[i].id !in old(activeJobs) && started[i].id in activeJobs
        invariant forall id :: id in DueIds(jobs[..k], now) && id !in old(activeJobs) ==> HasId(started, id)
      {
        var job := jobs[k];
        DueOneMore(jobs, k, now);
        if !job.enabled {
          continue;
        }
        if Trim(job.schedule) == "" {
          continue;
        }
        if job.nextRunAt.Some? && job.nextRunAt.value > now {
          continue;
        }
        var ok := BeginRun(job.id);
        if !ok {
          continue;
        }
        HasIdOneMore(started, job);
        IdsOneMore(started, job);
        started := started + [job];
      }
      assert jobs[..|jobs|] == jobs;
      forall job | job in jobs && IsDue(job, now)
        ensures job.id in DueIds(jobs, now)
      {
        DueIsListed(jobs, job, now);
      }
    }
  }

  lemma {:induction false} DueIsListed(jobs: seq<Job>, job: Job, now: int)
    requires job in jobs && IsDue(job, now)
    ensures job.id in DueIds(jobs, now)
  {
    hide IsDue;
    var n := |jobs| - 1;
    if jobs[n] != job {
      DueIsListed(jobs[..n], job, now);
    }
  }

  datatype Job = Job(id: string, enabled: bool, schedule: string, nextRunAt: Option<int>)

  predicate IsDue(job: Job, now: int) {
    job.enabled && Trim(job.schedule) != "" && (job.nextRunAt.None? || job.nextRunAt.value <= now)
  }

  ghost function DueIds(jobs: seq<Job>, now: int): (r: set<string>) {
    if jobs == [] then {} else
      var n := |jobs| - 1;
      DueIds(jobs[..n], now) + if IsDue(jobs[n], now) then {jobs[n].id} else {}
  }

  ghost function IdsOf(jobs: seq<Job>): (r: set<string>) {
    if jobs == [] then {} else IdsOf(jobs[..|jobs| - 1]) + {jobs[|jobs| - 1].id}
  }

  lemma NoIds()
    ensures IdsOf([]) == {}
  {
  }

  lemma IdsOneMore(jobs: seq<Job>, job: Job)
    ensures IdsOf(jobs + [job]) == IdsOf(jobs) + {job.id}
  {
    assert (jobs + [job])[..|jobs|] == jobs;
  }

  ghost predicate HasId(jobs: seq<Job>, id: string) {
    exists i :: 0 <= i < |jobs| && jobs[i].id == id
  }

  lemma NoneDue(now: int)
    ensures DueIds([], now) == {}
  {
  }

  lemma DueOneMore(jobs: seq<Job>, k: nat, now: int)
    requires k < |jobs|
    ensures DueIds(jobs[..k + 1], now) == DueIds(jobs[..k], now) + if IsDue(jobs[k], now) then {jobs[k].id} else {}
  {
    hide IsDue;
    assert jobs[..k + 1][..k] == jobs[..k];
  }

  lemma HasIdOneMore(jobs: seq<Job>, job: Job)
    ensures HasId(jobs + [job], job.id)
    ensures forall id :: HasId(jobs, id) ==> HasId(jobs + [job], id)
  {
    assert (jobs + [job])[|jobs|] == job;
    forall id | HasId(jobs, id)
      ensures HasId(jobs + [job], id)
    {
      var i :| 0 <= i < |jobs| && jobs[i].id == id;
      assert (jobs + [job])[i].id == id;
    }
  }

  function Created(runs: map<string, Run>, disk: map<string, Run>, id: string, run: Run, saved: bool)
    : (r: (map<string, Run>, map<string, Run>))
  {
    if saved then (runs[id := run], runs[id := run]) else (runs - {id}, disk)
  }

  function Updated(runs: map<string, Run>, disk: map<string, Run>, id: string, run: Run, saved: bool)
    : (r: (map<string, Run>, map<string, Run>))
  {
    if id !in runs then (runs, disk) else if saved then (runs[id := run], runs[id := run]) else (runs[id := run], disk)
  }

  class RunStore {
    var runs: map<string, Run>
    var disk: map<string, Run>

    /** A record that cannot be saved is taken out again. */
    method Create(id: string, run: Run, saved: bool) returns (ok: bool)
      modifies this
      ensures ok == saved && (runs, disk) == Created(old(runs), old(disk), id, run, saved)
      ensures if saved then runs == old(runs)[id := run] && disk == runs else runs == old(runs) - {id} && disk == old(disk)
    {
      runs := runs[id := run];
      if !saved {
        runs := runs - {id};
        assert runs == old(runs) - {id};
        return false;
      }
      disk := runs;
      return true;
    }

    /** An update stays in memory even when it cannot be saved. */
    method Update(id: string, run: Run, saved: bool) returns (ok: bool)
      modifies this
      ensures ok <==> id in old(runs) && saved
      ensures (runs, disk) == Updated(old(runs), old(disk), id, run, saved)
      ensures runs == (if id in old(runs) then old(runs)[id := run] else old(runs)) && disk == if ok then runs else old(disk)
    {
      if id !in runs {
        return false;
      }
      runs := runs[id := run];
      if !saved {
        return false;
      }
      disk := runs;
      return true;
    }
  }

  // ----- executions -----

  /** An execution before its run record, with it, and before it gives the job free. */
  datatype Exec = Starting(job: string) | Executing(job: string, run: string) | Ending(job: string)

  datatype State = State(active: set<string>, execs: multiset<Exec>, runs: map<string, Run>, disk: map<string, Run>)

  datatype Action =
    | Begin(job: string)
    | Refuse(job: string)
    | Start(job: string, run: string, saved: bool)
    | Finish(job: string, run: string, status: RunStatus, saved: bool)
    | End(job: string)
    | Restart

  ghost predicate Enabled(s: State, a: Action) {
    match a
    case Begin(job) => true
    case Refuse(job) => Starting(job) in s.execs
    case Start(job, run, saved) => Starting(job) in s.execs && run !in s.runs
    case Finish(job, run, status, saved) => Executing(job, run) in s.execs && status != Running
    case End(job) => Ending(job) in s.execs
    case Restart => true
  }

  ghost function Replace(execs: multiset<Exec>, e: Exec, f: Exec): (r: multiset<Exec>) {
    execs - multiset{e} + multiset{f}
  }

  ghost function After(s: State, a: Action): (t: State) {
    match a
    case Begin(job) =>
      if job in s.active then s else s.(active := s.active + {job}, execs := s.execs + multiset{Starting(job)})
    case Refuse(job) => s.(execs := Replace(s.execs, Starting(job), Ending(job)))
    case Start(job, run, saved) =>
      var (runs, disk) := Created(s.runs, s.disk, run, Run(job, Running), saved);
      s.(runs := runs, disk := disk, execs := Replace(s.execs, Starting(job), if saved then Executing(job, run) else Ending(job)))
    case Finish(job, run, status, saved) =>
      var (runs, disk) := Updated(s.runs, s.disk, run, Run(job, status), saved);
      s.(runs := runs, disk := disk, execs := Replace(s.execs, Executing(job, run), Ending(job)))
    case End(job) => s.(active := s.active - {job}, execs := s.execs - multiset{Ending(job)})
    case Restart => State({}, multiset{}, s.disk, s.disk)
  }

  ghost predicate StepAt(run: seq<State>, actions: seq<Action>, i: nat)
    requires i < |actions| && |run| == |actions| + 1
  {
    Enabled(run[i], actions[i]) && run[i + 1] == After(run[i], actions[i])
  }

  /** A run from a fresh store. */
  ghost predicate IsRun(run: seq<State>, actions: seq<Action>) {
    && |run| == |actions| + 1 && run[0] == State({}, multiset{}, map[], map[])
    && forall i :: 0 <= i < |actions| ==> StepAt(run, actions, i)
  }

  // ----- a pass of the scheduler -----

  ghost function BeginAll(s: State, jobs: seq<Job>): (t: State) {
    if jobs == [] then s else After(BeginAll(s, jobs[..|jobs| - 1]), Begin(jobs[|jobs| - 1].id))
  }

  ghost function StartingAll(jobs: seq<Job>): (r: multiset<Exec>) {
    if jobs == [] then multiset{} else StartingAll(jobs[..|jobs| - 1]) + multiset{Starting(jobs[|jobs| - 1].id)}
  }

  lemma {:induction false} IdsHave(jobs: seq<Job>, id: string)
    ensures id in IdsOf(jobs) <==> exists i :: 0 <= i < |jobs| && jobs[i].id == id
  {
    if jobs != [] {
      IdsHave(jobs[..|jobs| - 1], id);
    }
  }

  /** What the scheduler's pass does is to begin its jobs, one after the other, each successfully. */
  lemma {:induction false} PassFollowsProtocol(s: State, started: seq<Job>)
    requires forall i, j :: 0 <= i < j < |started| ==> started[i].id != started[j].id
    requires forall i :: 0 <= i < |started| ==> started[i].id !in s.active
    ensures var t := BeginAll(s, started);
      && t.active == s.active + IdsOf(started) && t.execs == s.execs + StartingAll(started)
      && t.runs == s.runs && t.disk == s.disk
  {
    if started != [] {
      var n := |started| - 1;
      PassFollowsProtocol(s, started[..n]);
      IdsHave(started[..n], started[n].id);
    }
  }

  // ----- exclusion -----

  ghost predicate NoExec(s: State, job: string) {
    forall e :: e in s.execs ==> e.job != job
  }

  ghost predicate OnlyExec(s: State, e: Exec) {
    e in s.execs && s.execs[e] == 1 && forall f :: f in s.execs && f.job == e.job ==> f == e
  }

  /** A job is active exactly when it has an execution, and it never has two. */
  ghost predicate JobExclusive(s: State, job: string) {
    if job in s.active then exists e: Exec :: e.job == job && OnlyExec(s, e) else NoExec(s, job)
  }

  lemma ElsewhereExclusive(s: State, t: State, job: string)
    requires JobExclusive(s, job) && (job in t.active <==> job in s.active)
    requires forall e: Exec :: e.job == job ==> t.execs[e] == s.execs[e]
    ensures JobExclusive(t, job)
  {
    if job in s.active {
      var e: Exec :| e.job == job && OnlyExec(s, e);
      assert OnlyExec(t, e);
    }
  }

  lemma ReplaceExclusive(s: State, t: State, e: Exec, f: Exec)
    requires JobExclusive(s, e.job) && e in s.execs && f.job == e.job
    requires t.active == s.active && t.execs == Replace(s.execs, e, f)
    ensures JobExclusive(t, e.job)
  {
    assert OnlyExec(s, e);
    assert OnlyExec(t, f);
  }

  lemma StepExclusive(s: State, a: Action, job: string)
    requires JobExclusive(s, job) && Enabled(s, a)
    ensures JobExclusive(After(s, a), job)
  {
    hide JobExclusive, Created, Updated;
    var t := After(s, a);
    if a.Restart? {
      NothingExclusive(t, job);
    } else if a.job != job {
      ElsewhereExclusive(s, t, job);
    } else {
      match a
      case Begin(_) => BeginExclusive(s, job);
      case Refuse(_) => ReplaceExclusive(s, t, Starting(job), Ending(job));
      case Start(_, run, saved) => ReplaceExclusive(s, t, Starting(job), if saved then Executing(job, run) else Ending(job));
      case Finish(_, run, status, saved) => ReplaceExclusive(s, t, Executing(job, run), Ending(job));
      case End(_) => EndExclusive(s, job);
    }
  }

  lemma NothingExclusive(s: State, job: string)
    requires s.active == {} && s.execs == multiset{}
    ensures JobExclusive(s, job)
  {
  }

  lemma BeginExclusive(s: State, job: string)
    requires JobExclusive(s, job)
    ensures JobExclusive(After(s, Begin(job)), job)
  {
    if job !in s.active {
      assert OnlyExec(After(s, Begin(job)), Starting(job));
    }
  }

  lemma EndExclusive(s: State, job: string)
    requires JobExclusive(s, job) && Ending(job) in s.execs
    ensures JobExclusive(After(s, End(job)), job)
  {
    assert OnlyExec(s, Ending(job));
  }

  /** In every run, restarts included, no job has two executions in flight. */
  lemma {:induction false} EveryRunExclusive(run: seq<State>, actions: seq<Action>, i: nat, job: string)
    requires IsRun(run, actions) && i < |run|
    ensures JobExclusive(run[i], job)
  {
    hide JobExclusive, Enabled, After;
    if i == 0 {
      NothingExclusive(run[0], job);
    } else {
      EveryRunExclusive(run, actions, i - 1, job);
      assert StepAt(run, actions, i - 1);
      StepExclusive(run[i - 1], actions[i - 1], job);
    }
  }

  // ----- run records -----

  ghost predicate NoneRunning(runs: map<string, Run>) {
    forall r :: r in runs ==> runs[r].status != Running
  }

  ghost predicate NoneRunningOf(runs: map<string, Run>, job: string) {
    forall r :: r in runs ==> runs[r] != Run(job, Running)
  }

  /** Restarts find no record of this job in status running. */
  ghost predicate RestartsCleanFor(run: seq<State>, actions: seq<Action>, job: string)
    requires |run| == |actions| + 1
  {
    forall i :: 0 <= i < |actions| && actions[i].Restart? ==> NoneRunningOf(run[i].disk, job)
  }

  /** Every execution with a record finds it in status running. */
  ghost predicate ExecsHaveRecords(s: State) {
    forall job, r :: Executing(job, r) in s.execs ==> r in s.runs && s.runs[r] == Run(job, Running)
  }

  /** A record of this job in status running belongs to an execution in flight. */
  ghost predicate RecordsOwned(s: State, job: string) {
    forall r :: r in s.runs && s.runs[r] == Run(job, Running) ==> Executing(job, r) in s.execs
  }

  /** Executions that hold no record come and go without touching the records. */
  lemma SameRecordsFit(s: State, t: State, job: string)
    requires ExecsHaveRecords(s) && t.runs == s.runs
    requires forall e: Exec :: e.Executing? ==> t.execs[e] == s.execs[e]
    ensures ExecsHaveRecords(t) && (RecordsOwned(s, job) ==> RecordsOwned(t, job))
  {
  }

  lemma StartRecordsFit(s: State, x: string, r: string, job: string)
    requires ExecsHaveRecords(s) && Enabled(s, Start(x, r, true))
    ensures var t := After(s, Start(x, r, true)); ExecsHaveRecords(t) && (RecordsOwned(s, job) ==> RecordsOwned(t, job))
  {
  }

  lemma FinishRecordsFit(s: State, x: string, r: string, status: RunStatus, saved: bool, job: string)
    requires ExecsHaveRecords(s) && JobExclusive(s, x) && Enabled(s, Finish(x, r, status, saved))
    ensures var t := After(s, Finish(x, r, status, saved)); ExecsHaveRecords(t) && (RecordsOwned(s, job) ==> RecordsOwned(t, job))
  {
    assert OnlyExec(s, Executing(x, r));
    hide JobExclusive;
    var t := After(s, Finish(x, r, status, saved));
    assert t.runs == s.runs[r := Run(x, status)];
    hide Updated;
  }

  lemma RestartRecordsFit(s: State, job: string)
    ensures var t := After(s, Restart); ExecsHaveRecords(t) && (NoneRunningOf(s.disk, job) ==> RecordsOwned(t, job))
  {
  }

  lemma LostStartFits(s: State, x: string, r: string, job: string)
    requires ExecsHaveRecords(s) && Enabled(s, Start(x, r, false))
    ensures var t := After(s, Start(x, r, false)); ExecsHaveRecords(t) && (RecordsOwned(s, job) ==> RecordsOwned(t, job))
  {
    hide ExecsHaveRecords, RecordsOwned;
    assert s.runs - {r} == s.runs;
    SameRecordsFit(s, After(s, Start(x, r, false)), job);
  }

  lemma StepRecordsFit(s: State, a: Action, job: string)
    requires ExecsHaveRecords(s) && Enabled(s, a)
    requires !a.Restart? ==> JobExclusive(s, a.job)
    ensures var t := After(s, a);
      && ExecsHaveRecords(t)
      && (RecordsOwned(s, job) && (a.Restart? ==> NoneRunningOf(s.disk, job)) ==> RecordsOwned(t, job))
  {
    hide JobExclusive, ExecsHaveRecords, RecordsOwned, NoneRunningOf, Created, Updated;
    match a
    case Finish(x, r, status, saved) => FinishRecordsFit(s, x, r, status, saved, job);
    case Start(x, r, saved) =>
      if saved {
        StartRecordsFit(s, x, r, job);
      } else {
        LostStartFits(s, x, r, job);
      }
    case Restart => RestartRecordsFit(s, job);
    case _ => SameRecordsFit(s, After(s, a), job);
  }

  lemma {:induction false} RunsHaveRecords(run: seq<State>, actions: seq<Action>, i: nat, job: string)
    requires IsRun(run, actions) && i < |run|
    ensures ExecsHaveRecords(run[i])
    ensures RestartsCleanFor(run, actions, job) ==> RecordsOwned(run[i], job)
  {
    hide JobExclusive, Enabled, After;
    if i > 0 {
      RunsHaveRecords(run, actions, i - 1, job);
      assert StepAt(run, actions, i - 1);
      if !actions[i - 1].Restart? {
        EveryRunExclusive(run, actions, i - 1, actions[i - 1].job);
      }
      StepRecordsFit(run[i - 1], actions[i - 1], job);
    }
  }

  /**
   A job whose records no restart finds running never has two records in status running, and has
   one only while it is active; whatever other jobs left behind.
   */
  lemma OneRunningRecord(run: seq<State>, actions: seq<Action>, i: nat, job: string, q: string, r: string)
    requires IsRun(run, actions) && RestartsCleanFor(run, actions, job) && i < |run|
    requires q in run[i].runs && r in run[i].runs && run[i].runs[q] == run[i].runs[r] == Run(job, Running)
    ensures q == r && job in run[i].active
  {
    hide IsRun, RestartsCleanFor;
    var s := run[i];
    RunsHaveRecords(run, actions, i, job);
    EveryRunExclusive(run, actions, i, job);
    assert Executing(job, q) in s.execs && Executing(job, r) in s.execs;
  }

  lemma ExtendRun(run: seq<State>, actions: seq<Action>, a: Action) returns (run': seq<State>, actions': seq<Action>)
    requires IsRun(run, actions) && Enabled(run[|actions|], a)
    ensures IsRun(run', actions') && run' == run + [After(run[|actions|], a)] && actions' == actions + [a]
  {
    hide Enabled, After;
    run', actions' := run + [After(run[|actions|], a)], actions + [a];
    forall i | 0 <= i < |actions'|
      ensures StepAt(run', actions', i)
    {
      if i < |actions| {
        assert StepAt(run, actions, i);
      }
    }
  }

  /**
   The condition is needed: from any run whose last restart found a running record of a job, that
   job's next execution gives it a second one.
   */
  lemma LeftoverRecordDoubles(run: seq<State>, actions: seq<Action>, job: string, q: string, r: string)
    returns (run': seq<State>, actions': seq<Action>)
    requires IsRun(run, actions) && actions != [] && actions[|actions| - 1].Restart?
    requires var s := run[|actions|]; q in s.runs && s.runs[q] == Run(job, Running) && r !in s.runs
    ensures IsRun(run', actions') && run <= run'
    ensures var s := run'[|actions'|]; q != r && q in s.runs && r in s.runs && s.runs[q] == s.runs[r] == Run(job, Running)
  {
    hide IsRun;
    var n := |actions|;
    assert StepAt(run, actions, n - 1) by {
      LastStep(run, actions);
    }
    assert run[n].active == {};
    var run1, actions1 := ExtendRun(run, actions, Begin(job));
    run', actions' := ExtendRun(run1, actions1, Start(job, r, true));
  }

  lemma LastStep(run: seq<State>, actions: seq<Action>)
    requires IsRun(run, actions) && actions != []
    ensures |run| == |actions| + 1 && StepAt(run, actions, |actions| - 1)
  {
    hide Enabled, After;
  }

  /** Such a run exists: a crash while the job runs. */
  lemma CrashLeavesARecord(job: string, q: string) returns (run: seq<State>, actions: seq<Action>)
    ensures IsRun(run, actions) && actions != [] && actions[|actions| - 1].Restart?
    ensures var s := run[|actions|]; q in s.runs && s.runs[q] == Run(job, Running)
  {
    run, actions := [State({}, multiset{}, map[], map[])], [];
    assert IsRun(run, actions);
    hide IsRun;
    run, actions := ExtendRun(run, actions, Begin(job));
    run, actions := ExtendRun(run, actions, Start(job, q, true));
    run, actions := ExtendRun(run, actions, Restart);
  }

  // ----- the outcome of a run -----

  datatype TargetResult = TargetResult(completed: bool, finishedAt: Option<int>)

  ghost function Completions(results: seq<TargetResult>): (r: set<int>) {
    set i | 0 <= i < |results| && results[i].completed
  }

  lemma NoCompletions()
    ensures Completions([]) == {}
  {
  }

  lemma CompletionsOneMore(results: seq<TargetResult>, k: nat)
    requires k < |results|
    ensures |Completions(results[..k + 1])| == |Completions(results[..k])| + if results[k].completed then 1 else 0
  {
    assert Completions(results[..k + 1]) == Completions(results[..k]) + if results[k].completed then {k} else {};
  }

  /** Completed when every target completed, failed when none did, partial in between. */
  method SummarizeRun(results: seq<TargetResult>, now: int)
    returns (status: RunStatus, succeeded: nat, failed: nat, filled: seq<TargetResult>)
    ensures status == Completed <==> results != [] && forall i :: 0 <= i < |results| ==> results[i].completed
    ensures status == Failed <==> forall i :: 0 <= i < |results| ==> !results[i].completed
    ensures status != Running
    ensures succeeded == |Completions(results)| && succeeded + failed == |results|
    ensures |filled| == |results|
    ensures forall i :: 0 <= i < |results| ==>
      filled[i].completed == results[i].completed
      && filled[i].finishedAt == if results[i].finishedAt.None? then Some(now) else results[i].finishedAt
  {
    hide Completions;
    succeeded, failed, filled := 0, 0, results;
    NoCompletions();
    assert results[..0] == [];
    if |results| == 0 {
      return Failed, 0, 0, [];
    }
    for k := 0 to |results|
      invariant |filled| == |results| && succeeded + failed == k && succeeded == |Completions(results[..k])|
      invariant succeeded == 0 <==> forall i :: 0 <= i < k ==> !results[i].completed
      invariant failed == 0 <==> forall i :: 0 <= i < k ==> results[i].completed
      invariant forall i :: 0 <= i < |results| ==>
        filled[i].completed == results[i].completed
        && filled[i].finishedAt == if i < k && results[i].finishedAt.None? then Some(now) else results[i].finishedAt
    {
      CompletionsOneMore(results, k);
      if filled[k].finishedAt.None? {
        filled := filled[k := filled[k].(finishedAt := Some(now))];
      }
      if results[k].completed {
        succeeded := succeeded + 1;
      } else {
        failed := failed + 1;
      }
    }
    assert results[..|results|] == results;
    status := if succeeded == 0 then Failed else if failed > 0 then Partial else Completed;
    assert succeeded == 0 ==> !results[0].completed;
  }

  datatype Executed = Busy | Refused | Unrecorded(status: RunStatus) | Finished(status: RunStatus)

  /** The steps of one execution in the protocol. */
  ghost function Execution(s: State, job: string, ready: bool, run: string, created: bool, status: RunStatus, updated: bool): (t: State) {
    var begun := After(s, Begin(job));
    var started := if ready then After(begun, Start(job, run, created)) else After(begun, Refuse(job));
    var finished := if ready && created then After(started, Finish(job, run, status, updated)) else started;
    After(finished, End(job))
  }

  ghost function OutcomeOf(r: Executed): (status: RunStatus) {
    if r.Finished? || r.Unrecorded? then r.status else Failed
  }

  /** Every step of an execution of a free job with a fresh record id is enabled. */
  lemma ExecutionIsEnabled(s: State, job: string, ready: bool, run: string, created: bool, status: RunStatus, updated: bool)
    requires job !in s.active && run !in s.runs && status != Running
    ensures var begun := After(s, Begin(job));
      && Enabled(s, Begin(job))
      && (if ready then
            var started := After(begun, Start(job, run, created));
            && Enabled(begun, Start(job, run, created))
            && (if created then
                  Enabled(started, Finish(job, run, status, updated))
                  && Enabled(After(started, Finish(job, run, status, updated)), End(job))
                else Enabled(started, End(job)))
          else Enabled(begun, Refuse(job)) && Enabled(After(begun, Refuse(job)), End(job)))
  {
    hide Created, Updated, Replace;
    var begun := After(s, Begin(job));
    ReplaceHas(begun.execs, Starting(job), Ending(job));
    ReplaceHas(begun.execs, Starting(job), Executing(job, run));
    var started := After(begun, Start(job, run, created));
    ReplaceHas(started.execs, Executing(job, run), Ending(job));
  }

  lemma ReplaceHas(execs: multiset<Exec>, e: Exec, f: Exec)
    ensures f in Replace(execs, e, f)
  {
  }

  lemma ExecutionIs(s: State, job: string, ready: bool, run: string, created: bool, status: RunStatus, updated: bool)
    requires job !in s.active
    ensures var t := Execution(s, job, ready, run, created, status, updated);
      var (runs, disk) := Created(s.runs, s.disk, run, Run(job, Running), created);
      && t.active == s.active
      && (t.runs, t.disk) ==
         if !ready then (s.runs, s.disk)
         else if !created then (runs, disk)
         else Updated(runs, disk, run, Run(job, status), updated)
  {
    hide Created, Updated;
    assert s.active + {job} - {job} == s.active;
  }

  /**
   One execution, from the claim of the job to its release.  `ready` tells whether script, targets
   and timeout resolve.  It is an execution of the protocol; whatever happens, the job is free again
   and no record stays running.
   */
  method ExecuteJob(active: ActiveJobs, store: RunStore, job: string, ready: bool, run: string, created: bool,
                    results: seq<TargetResult>, now: int, updated: bool)
    returns (r: Executed)
    modifies active, store
    ensures active.activeJobs == old(active.activeJobs)
    ensures r == Busy <==> job in old(active.activeJobs)
    ensures r == Busy ==> store.runs == old(store.runs) && store.disk == old(store.disk)
    ensures r == Refused <==> r != Busy && !(ready && created)
    ensures OutcomeOf(r) != Running && (r.Finished? ==> updated) && (r.Unrecorded? ==> !updated)
    ensures r != Busy ==> forall s: State ::
      s.active == old(active.activeJobs) && s.runs == old(store.runs) && s.disk == old(store.disk) ==>
        var t := Execution(s, job, ready, run, created, OutcomeOf(r), updated);
        t.active == active.activeJobs && t.runs == store.runs && t.disk == store.disk
    ensures NoneRunning(old(store.runs)) ==> NoneRunning(store.runs)
  {
    hide Execution, Completions;
    var free := active.BeginRun(job);
    if !free {
      return Busy;
    }
    var ok := ready;
    if ok {
      ok := store.Create(run, Run(job, Running), created);
    }
    if ok {
      var status, succeeded, failed, filled := SummarizeRun(results, now);
      var saved := store.Update(run, Run(job, status), updated);
      r := if saved then Finished(status) else Unrecorded(status);
    } else {
      r := Refused;
    }
    active.EndRun(job);
    assert active.activeJobs == old(active.activeJobs);
    forall s: State | s.active == old(active.activeJobs) && s.runs == old(store.runs) && s.disk == old(store.disk)
      ensures var t := Execution(s, job, ready, run, created, OutcomeOf(r), updated);
        t.active == active.activeJobs && t.runs == store.runs && t.disk == store.disk
    {
      ExecutionIs(s, job, ready, run, created, OutcomeOf(r), updated);
    }
  }
}
