/**
 * The leased job scheduler. Several orchestrators share the job table; each claims due jobs up to a concurrency bound,
 * recovers jobs whose lease ran out, and never runs a job again once its run may have sent something.
 */
module Orchestrator {
  import opened Basics
  import Sorting

  type JobId = nat
  type RunId = nat
  type Proc = nat

  datatype Kind = Execute | Reconcile | Notification | Health
  datatype JobState = Scheduled | Running | Succeeded | JobFailed | Blocked | Cancelled
  datatype Job = Job(
    id: JobId, kind: Kind, run: Option<RunId>, state: JobState, scheduledAt: nat, nextAttemptAt: Option<nat>,
    attempts: nat, maxAttempts: nat, owner: Option<Proc>, leaseUntil: Option<nat>)

  // ---- Claiming ----

  predicate Due(j: Job, now: nat) {
    j.state == Scheduled && j.scheduledAt <= now && (j.nextAttemptAt.None? || j.nextAttemptAt.value <= now)
  }

  /** A live execution waits until start-up reconciliation is done. */
  predicate Held(j: Job, ready: bool, live: set<RunId>) {
    j.kind == Execute && !ready && j.run.Some? && j.run.value in live
  }

  predicate Eligible(j: Job, now: nat, ready: bool, live: set<RunId>) {
    Due(j, now) && !Held(j, ready, live)
  }

  predicate Before(a: Job, b: Job) {
    a.scheduledAt < b.scheduledAt || (a.scheduledAt == b.scheduledAt && a.id <= b.id)
  }

  predicate Sorted(s: seq<Job>) {
    Sorting.SortedBy(s, Before)
  }

  function DueJobs(jobs: seq<Job>, now: nat): seq<Job> {
    if jobs == [] then []
    else DueJobs(jobs[..|jobs| - 1], now) + if Due(jobs[|jobs| - 1], now) then [jobs[|jobs| - 1]] else []
  }

  function SortJobs(s: seq<Job>): seq<Job> {
    Sorting.Sort(s, Before)
  }

  /** Walks the candidates in order and takes the ones that are not held, up to the capacity. */
  function Pick(candidates: seq<Job>, capacity: nat, ready: bool, live: set<RunId>): seq<Job> {
    if candidates == [] || capacity == 0 then []
    else if Held(candidates[0], ready, live) then Pick(candidates[1..], capacity, ready, live)
    else [candidates[0]] + Pick(candidates[1..], capacity - 1, ready, live)
  }

  function RunningCount(jobs: seq<Job>): nat {
    if jobs == [] then 0 else RunningCount(jobs[..|jobs| - 1]) + if jobs[|jobs| - 1].state == Running then 1 else 0
  }

  function Take(jobs: seq<Job>, id: JobId, p: Proc, until: nat): seq<Job> {
    seq(|jobs|, i requires 0 <= i < |jobs| =>
          if jobs[i].id == id
          then jobs[i].(state := Running, attempts := jobs[i].attempts + 1, owner := Some(p), leaseUntil := Some(until)) else jobs[i])
  }

  function TakeAll(jobs: seq<Job>, picked: seq<Job>, p: Proc, until: nat): seq<Job> {
    if picked == [] then jobs else Take(TakeAll(jobs, picked[..|picked| - 1], p, until), picked[|picked| - 1].id, p, until)
  }

  // ---- The system ----

  /** What a worker remembers between reading the state after an error and writing the job's fate. */
  datatype Failing = Failing(id: JobId, reschedule: bool, fate: JobState)

  /** How far a worker is with an execution: it has read the run and decided, or the coordinator has read it too. */
  datatype Phase = Decided(job: Job) | Entered(job: Job)

  /** `launches` lists the runs the engine was started for, in order. */
  datatype Sys = Sys(
    now: nat, killed: bool, ready: bool, live: set<RunId>, submitted: set<RunId>, unknown: set<RunId>, jobs: seq<Job>,
    failing: map<Proc, Failing>, workers: map<Proc, Phase>, launches: seq<RunId>)

  datatype Config = Config(maxConcurrency: nat, leaseMs: nat, retryDelayMs: nat)

  predicate HasSubmitted(s: Sys, run: Option<RunId>) {
    run.Some? && run.value in s.submitted
  }

  function Capacity(cfg: Config, s: Sys, hint: nat): nat {
    var free := if cfg.maxConcurrency > RunningCount(s.jobs) then cfg.maxConcurrency - RunningCount(s.jobs) else 0;
    Min(hint, free)
  }

  function Picked(cfg: Config, s: Sys, hint: nat): seq<Job> {
    if s.killed then [] else Pick(SortJobs(DueJobs(s.jobs, s.now)), Capacity(cfg, s, hint), s.ready, s.live)
  }

  function Recovered(s: Sys, force: bool, j: Job): Job {
    if j.state != Running || !(force || j.leaseUntil.None? || j.leaseUntil.value <= s.now) then j
    else if HasSubmitted(s, j.run) then j.(state := Blocked, owner := None, leaseUntil := None)
    else j.(state := Scheduled, nextAttemptAt := Some(s.now), owner := None, leaseUntil := None)
  }

  /** How a worker classifies the error of a job it was running. */
  datatype Fault = Fault(killedCode: bool, retryable: bool, needsReconciliation: bool)

  function Decide(s: Sys, j: Job, f: Fault): Failing {
    var blocked := f.killedCode || HasSubmitted(s, j.run) || (j.run.Some? && j.run.value in s.unknown) || f.needsReconciliation;
    Failing(j.id, f.retryable && j.attempts < j.maxAttempts && !blocked, if !blocked then JobFailed else if f.killedCode then Cancelled else Blocked)
  }

  function Rescheduled(cfg: Config, s: Sys, id: JobId, j: Job): Job {
    if j.id != id then j
    else j.(state := Scheduled, nextAttemptAt := Some(s.now + cfg.retryDelayMs * j.attempts), owner := None, leaseUntil := None)
  }

  function Finished(id: JobId, fate: JobState, j: Job): Job {
    if j.id != id || (j.state != Running && j.state != fate) then j else j.(state := fate, owner := None, leaseUntil := None)
  }

  datatype Step =
    | Tick(ms: nat)
    | Claim(p: Proc, hint: nat)
    | Recover(force: bool)
    | ReadFault(p: Proc, job: Job, fault: Fault)
    | WriteFault(p: Proc)
    | Finish(id: JobId, fate: JobState)
    | CancelQueued
    | Kill
    | Unkill
    | Schedule(job: Job)
    | SetReady(ready: bool)
    | GoLive(run: RunId)
    | Submit(run: RunId)
    | LoseOutcome(run: RunId)
    | DecideRun(p: Proc, job: Job, runIsTerminal: bool)
    | EnterCoordinator(p: Proc)
    | StartEngine(p: Proc)
    | Crash(p: Proc)

  predicate Terminal(fate: JobState) {
    fate in {Succeeded, JobFailed, Blocked, Cancelled}
  }

  function Each(jobs: seq<Job>, f: Job -> Job): seq<Job> {
    seq(|jobs|, i requires 0 <= i < |jobs| => f(jobs[i]))
  }

  function Cancel(j: Job): Job {
    if j.state == Scheduled && j.kind == Execute then j.(state := Cancelled) else j
  }

  predicate FreshId(jobs: seq<Job>, id: JobId) {
    forall i :: 0 <= i < |jobs| ==> jobs[i].id != id
  }

  datatype Decision = Return | Block | Execution

  /** What a worker does with a claimed execution job, by the snapshot it reads. */
  function RunExecution(s: Sys, job: Job, runIsTerminal: bool): Decision {
    if job.run.None? || runIsTerminal then Return else if HasSubmitted(s, job.run) then Block else Execution
  }

  /** The worker's copy of a job is an older version of a row: same id, same run. */
  predicate Known(jobs: seq<Job>, job: Job) {
    exists i :: 0 <= i < |jobs| && jobs[i].id == job.id && jobs[i].run == job.run
  }

  function Apply(cfg: Config, s: Sys, step: Step): Sys {
    match step
    case Tick(ms) => s.(now := s.now + ms)
    case Claim(p, hint) => s.(jobs := TakeAll(s.jobs, Picked(cfg, s, hint), p, s.now + cfg.leaseMs))
    case Recover(force) => s.(jobs := Each(s.jobs, (j: Job) => Recovered(s, force, j)))
    case ReadFault(p, job, fault) => if Known(s.jobs, job) then s.(failing := s.failing[p := Decide(s, job, fault)]) else s
    case WriteFault(p) =>
      if p !in s.failing then s
      else
        var f := s.failing[p];
        s.(failing := s.failing - {p},
           jobs := if f.reschedule then Each(s.jobs, (j: Job) => Rescheduled(cfg, s, f.id, j)) else Each(s.jobs, (j: Job) => Finished(f.id, f.fate, j)))
    case Finish(id, fate) => if Terminal(fate) then s.(jobs := Each(s.jobs, (j: Job) => Finished(id, fate, j))) else s
    case CancelQueued => if s.killed then s.(jobs := Each(s.jobs, Cancel)) else s
    case Kill => s.(killed := true)
    case Unkill => s.(killed := false)
    case Schedule(job) => if job.state == Scheduled && FreshId(s.jobs, job.id) then s.(jobs := s.jobs + [job]) else s
    case SetReady(ready) => s.(ready := ready)
    case GoLive(run) => s.(live := s.live + {run})
    case Submit(run) => s.(submitted := s.submitted + {run})
    case LoseOutcome(run) => s.(unknown := s.unknown + {run})
    case DecideRun(p, job, runIsTerminal) =>
      if p in s.workers || s.killed || !Known(s.jobs, job) || RunExecution(s, job, runIsTerminal) != Execution then s
      else s.(workers := s.workers[p := Decided(job)])
    case EnterCoordinator(p) =>
      if p !in s.workers || !s.workers[p].Decided? then s
      else if s.killed || HasSubmitted(s, s.workers[p].job.run) then s.(workers := s.workers - {p})
      else s.(workers := s.workers[p := Entered(s.workers[p].job)])
    case StartEngine(p) =>
      if p !in s.workers || !s.workers[p].Entered? || s.workers[p].job.run.None? then s
      else s.(workers := s.workers - {p}, launches := s.launches + [s.workers[p].job.run.value])
    case Crash(p) => s.(workers := s.workers - {p}, failing := s.failing - {p})
  }

  const IDLE := Sys(0, false, false, {}, {}, {}, [], map[], map[], [])

  function After(cfg: Config, steps: seq<Step>): Sys {
    if steps == [] then IDLE else Apply(cfg, After(cfg, steps[..|steps| - 1]), steps[|steps| - 1])
  }

  // ---- Concurrency bound ----

  ghost predicate UniqueJobs(jobs: seq<Job>) {
    forall i, j :: 0 <= i < j < |jobs| ==> jobs[i].id != jobs[j].id
  }

  /** Changing no id and starting no job keeps the count of running jobs from growing. */
  lemma {:induction false} CountShrinks(jobs: seq<Job>, jobs': seq<Job>)
    requires |jobs'| == |jobs| && forall i :: 0 <= i < |jobs| && jobs'[i].state == Running ==> jobs[i].state == Running
    ensures RunningCount(jobs') <= RunningCount(jobs)
  {
    if jobs != [] {
      CountShrinks(jobs[..|jobs| - 1], jobs'[..|jobs| - 1]);
    }
  }

  lemma {:induction false} TakeAddsOne(jobs: seq<Job>, id: JobId, p: Proc, until: nat)
    requires UniqueJobs(jobs)
    ensures RunningCount(Take(jobs, id, p, until)) <= RunningCount(jobs) + 1
    ensures FreshId(jobs, id) ==> RunningCount(Take(jobs, id, p, until)) == RunningCount(jobs)
    decreases |jobs|
  {
    if jobs != [] {
      var n := |jobs| - 1;
      var front := jobs[..n];
      assert Take(jobs, id, p, until)[..n] == Take(front, id, p, until);
      TakeAddsOne(front, id, p, until);
      if jobs[n].id == id {
        assert FreshId(front, id);
      }
      if FreshId(jobs, id) {
        assert FreshId(front, id);
      }
    }
  }

  lemma {:induction false} TakeAllAdds(jobs: seq<Job>, picked: seq<Job>, p: Proc, until: nat)
    requires UniqueJobs(jobs)
    ensures UniqueJobs(TakeAll(jobs, picked, p, until)) && |TakeAll(jobs, picked, p, until)| == |jobs|
    ensures RunningCount(TakeAll(jobs, picked, p, until)) <= RunningCount(jobs) + |picked|
    ensures forall i :: 0 <= i < |jobs| ==> TakeAll(jobs, picked, p, until)[i].id == jobs[i].id
    decreases |picked|
  {
    if picked != [] {
      var n := |picked| - 1;
      TakeAllAdds(jobs, picked[..n], p, until);
      TakeAddsOne(TakeAll(jobs, picked[..n], p, until), picked[n].id, p, until);
    }
  }

  lemma {:induction false} PickWithin(candidates: seq<Job>, capacity: nat, ready: bool, live: set<RunId>)
    ensures |Pick(candidates, capacity, ready, live)| <= capacity
    decreases |candidates|
  {
    if candidates != [] && capacity > 0 {
      if Held(candidates[0], ready, live) {
        PickWithin(candidates[1..], capacity, ready, live);
      } else {
        PickWithin(candidates[1..], capacity - 1, ready, live);
      }
    }
  }

  /** A worker that will not reschedule its job is about to end it. */
  ghost predicate FatesEnd(s: Sys) {
    forall p :: p in s.failing && !s.failing[p].reschedule ==> Terminal(s.failing[p].fate)
  }

  ghost predicate WithinBound(cfg: Config, s: Sys) {
    UniqueJobs(s.jobs) && RunningCount(s.jobs) <= cfg.maxConcurrency && FatesEnd(s)
  }

  lemma CountAppend(jobs: seq<Job>, job: Job)
    requires job.state != Running
    ensures RunningCount(jobs + [job]) == RunningCount(jobs)
  {
    assert (jobs + [job])[..|jobs|] == jobs;
  }

  /** No change of the table starts a job or renames one. */
  ghost predicate StartsNothing(jobs: seq<Job>, jobs': seq<Job>) {
    |jobs'| == |jobs| && forall i :: 0 <= i < |jobs| ==> jobs'[i].id == jobs[i].id && (jobs'[i].state == Running ==> jobs[i].state == Running)
  }

  lemma FaultStartsNothing(cfg: Config, s: Sys, p: Proc)
    requires FatesEnd(s)
    ensures StartsNothing(s.jobs, Apply(cfg, s, WriteFault(p)).jobs)
  {
    if p in s.failing {
      var f := s.failing[p];
      var jobs' := Apply(cfg, s, WriteFault(p)).jobs;
      forall i | 0 <= i < |s.jobs| ensures jobs'[i].id == s.jobs[i].id && (jobs'[i].state == Running ==> s.jobs[i].state == Running) {
        assert jobs'[i] == if f.reschedule then Rescheduled(cfg, s, f.id, s.jobs[i]) else Finished(f.id, f.fate, s.jobs[i]);
      }
    }
  }

  /** Apart from claims and newly scheduled jobs, no step starts anything. */
  lemma StepStartsNothing(cfg: Config, s: Sys, step: Step)
    requires FatesEnd(s) && !step.Claim?
    ensures StartsNothing(s.jobs, Apply(cfg, s, step).jobs) ||
            (step.Schedule? && step.job.state == Scheduled && FreshId(s.jobs, step.job.id) && Apply(cfg, s, step).jobs == s.jobs + [step.job])
  {
    var jobs' := Apply(cfg, s, step).jobs;
    match step
    case WriteFault(p) => FaultStartsNothing(cfg, s, p);
    case Recover(force) =>
      assert forall i :: 0 <= i < |s.jobs| ==> jobs'[i] == Recovered(s, force, s.jobs[i]);
    case Finish(id, fate) =>
      assert Terminal(fate) ==> forall i :: 0 <= i < |s.jobs| ==> jobs'[i] == Finished(id, fate, s.jobs[i]);
    case CancelQueued =>
      assert s.killed ==> forall i :: 0 <= i < |s.jobs| ==> jobs'[i] == Cancel(s.jobs[i]);
    case _ =>
  }

  lemma BoundStays(cfg: Config, s: Sys, step: Step)
    requires WithinBound(cfg, s)
    ensures WithinBound(cfg, Apply(cfg, s, step))
  {
    var s' := Apply(cfg, s, step);
    if step.Claim? {
      PickWithin(SortJobs(DueJobs(s.jobs, s.now)), Capacity(cfg, s, step.hint), s.ready, s.live);
      TakeAllAdds(s.jobs, Picked(cfg, s, step.hint), step.p, s.now + cfg.leaseMs);
    } else {
      StepStartsNothing(cfg, s, step);
      if StartsNothing(s.jobs, s'.jobs) {
        CountShrinks(s.jobs, s'.jobs);
      } else {
        CountAppend(s.jobs, step.job);
      }
    }
    FatesStay(cfg, s, step);
  }

  lemma FatesStay(cfg: Config, s: Sys, step: Step)
    requires FatesEnd(s)
    ensures FatesEnd(Apply(cfg, s, step))
  {
  }

  /** However many orchestrators share the table, running jobs never exceed the concurrency bound. */
  lemma {:induction false} NeverOverbooked(cfg: Config, steps: seq<Step>)
    ensures WithinBound(cfg, After(cfg, steps))
  {
    if steps != [] {
      NeverOverbooked(cfg, steps[..|steps| - 1]);
      BoundStays(cfg, After(cfg, steps[..|steps| - 1]), steps[|steps| - 1]);
    }
  }

  // ---- Earliest first ----

  lemma {:induction false} DueJobsExact(jobs: seq<Job>, now: nat, j: Job)
    ensures j in DueJobs(jobs, now) <==> j in jobs && Due(j, now)
  {
    if jobs != [] {
      var n := |jobs| - 1;
      DueJobsExact(jobs[..n], now, j);
      assert jobs == jobs[..n] + [jobs[n]];
    }
  }

  lemma SortKeeps(s: seq<Job>)
    ensures Sorted(SortJobs(s)) && forall j :: j in SortJobs(s) <==> j in s
  {
    Sorting.SortKeeps(s, Before);
    forall j ensures j in SortJobs(s) <==> j in s {
      assert j in SortJobs(s) <==> j in multiset(SortJobs(s));
      assert j in s <==> j in multiset(s);
    }
  }

  /** From a sorted list, what is left behind comes after everything taken, and only for lack of capacity. */
  lemma {:induction false} PickEarliest(candidates: seq<Job>, capacity: nat, ready: bool, live: set<RunId>, a: Job, b: Job)
    requires Sorted(candidates)
    ensures var picked := Pick(candidates, capacity, ready, live);
            && (a in picked ==> a in candidates && !Held(a, ready, live))
            && (b in candidates && !Held(b, ready, live) && b !in picked ==> |picked| == capacity && (a in picked ==> Before(a, b)))
    decreases |candidates|
  {
    if candidates != [] && capacity > 0 {
      assert candidates == [candidates[0]] + candidates[1..];
      var first := candidates[0];
      if Held(first, ready, live) {
        PickEarliest(candidates[1..], capacity, ready, live, a, b);
      } else {
        PickEarliest(candidates[1..], capacity - 1, ready, live, a, b);
        if b in candidates && b != first {
          var k :| 0 <= k < |candidates| && candidates[k] == b;
          assert Before(candidates[0], candidates[k]);
        }
      }
    }
  }

  /** The job may be started now: scheduled, its time and its retry time reached, and no live execution before start-up is done. */
  ghost predicate CanStart(s: Sys, j: Job) {
    && j.state == Scheduled && j.scheduledAt <= s.now && (j.nextAttemptAt.Some? ==> j.nextAttemptAt.value <= s.now)
    && (j.kind == Execute && j.run.Some? && j.run.value in s.live ==> s.ready)
  }

  /** Scheduled earlier, or at the same time with the smaller id. */
  ghost predicate Earlier(a: Job, b: Job) {
    a.scheduledAt < b.scheduledAt || (a.scheduledAt == b.scheduledAt && a.id <= b.id)
  }

  /** The places of the running jobs in the table. */
  ghost function RunningJobs(jobs: seq<Job>): set<int> {
    set i | 0 <= i < |jobs| && jobs[i].state == Running
  }

  lemma {:induction false} CountIsSize(jobs: seq<Job>)
    ensures RunningCount(jobs) == |RunningJobs(jobs)|
  {
    if jobs != [] {
      var n := |jobs| - 1;
      CountIsSize(jobs[..n]);
      assert RunningJobs(jobs) == RunningJobs(jobs[..n]) + (if jobs[n].state == Running then {n} else {});
    }
  }

  /** However many orchestrators share the table, running jobs never outnumber the concurrency bound. */
  lemma RunningBounded(cfg: Config, steps: seq<Step>)
    ensures |RunningJobs(After(cfg, steps).jobs)| <= cfg.maxConcurrency
  {
    NeverOverbooked(cfg, steps);
    CountIsSize(After(cfg, steps).jobs);
  }

  /**
   * A claim takes only jobs that can start, none while killed, and leaves one behind only when its hint or the bound is
   * used up; every job taken comes before every such job left behind.
   */
  lemma ClaimIsEarliestFirst(cfg: Config, s: Sys, hint: nat, a: Job, b: Job)
    ensures var picked := Picked(cfg, s, hint);
            && (a in picked ==> !s.killed && a in s.jobs && CanStart(s, a))
            && (!s.killed && b in s.jobs && CanStart(s, b) && b !in picked ==>
                  (|picked| == hint || |picked| + |RunningJobs(s.jobs)| >= cfg.maxConcurrency) && (a in picked ==> Earlier(a, b)))
            && |picked| <= hint
  {
    var candidates := SortJobs(DueJobs(s.jobs, s.now));
    SortKeeps(DueJobs(s.jobs, s.now));
    DueJobsExact(s.jobs, s.now, a);
    DueJobsExact(s.jobs, s.now, b);
    PickEarliest(candidates, Capacity(cfg, s, hint), s.ready, s.live, a, b);
    PickWithin(candidates, Capacity(cfg, s, hint), s.ready, s.live);
    CountIsSize(s.jobs);
    assert Eligible(a, s.now, s.ready, s.live) <==> CanStart(s, a);
    assert Eligible(b, s.now, s.ready, s.live) <==> CanStart(s, b);
    assert Before(a, b) <==> Earlier(a, b);
  }

  // ---- What starts a job, and what never starts it again ----

  lemma {:induction false} TakeAllExact(jobs: seq<Job>, picked: seq<Job>, p: Proc, until: nat, i: nat)
    requires i < |jobs|
    ensures |TakeAll(jobs, picked, p, until)| == |jobs|
    ensures TakeAll(jobs, picked, p, until)[i].id == jobs[i].id && TakeAll(jobs, picked, p, until)[i].run == jobs[i].run
    ensures (forall k :: 0 <= k < |picked| ==> picked[k].id != jobs[i].id) ==> TakeAll(jobs, picked, p, until)[i] == jobs[i]
    ensures (exists k :: 0 <= k < |picked| && picked[k].id == jobs[i].id) ==> TakeAll(jobs, picked, p, until)[i].state == Running
    decreases |picked|
  {
    if picked != [] {
      var n := |picked| - 1;
      TakeAllExact(jobs, picked[..n], p, until, i);
      assert forall k :: 0 <= k < n ==> picked[..n][k] == picked[k];
    }
  }

  /** A job starts only by a claim, never while killed, and only if it was due and eligible at that moment. */
  lemma StartsOnlyWhenAllowed(cfg: Config, s: Sys, step: Step, i: nat)
    requires UniqueJobs(s.jobs) && FatesEnd(s) && i < |s.jobs| && s.jobs[i].state != Running
    requires i < |Apply(cfg, s, step).jobs| && Apply(cfg, s, step).jobs[i].state == Running
    ensures step.Claim? && !s.killed && s.jobs[i] in Picked(cfg, s, step.hint) && CanStart(s, s.jobs[i])
  {
    if step.Claim? {
      var picked := Picked(cfg, s, step.hint);
      TakeAllExact(s.jobs, picked, step.p, s.now + cfg.leaseMs, i);
      var k :| 0 <= k < |picked| && picked[k].id == s.jobs[i].id;
      ClaimIsEarliestFirst(cfg, s, step.hint, picked[k], picked[k]);
      assert picked[k] == s.jobs[i];
    } else {
      StepStartsNothing(cfg, s, step);
    }
  }

  lemma SubmittedGrows(cfg: Config, s: Sys, step: Step)
    ensures s.submitted <= Apply(cfg, s, step).submitted
  {
  }

  /** Work already submitted stays submitted. */
  lemma {:induction false} SubmittedStays(cfg: Config, steps: seq<Step>, j: nat, k: nat, run: RunId)
    requires j <= k <= |steps| && run in After(cfg, steps[..j]).submitted
    ensures run in After(cfg, steps[..k]).submitted
    decreases k
  {
    if j < k {
      assert steps[..k][..k - 1] == steps[..k - 1];
      SubmittedStays(cfg, steps, j, k - 1, run);
      SubmittedGrows(cfg, After(cfg, steps[..k - 1]), steps[k - 1]);
    }
  }

  // ---- Faults ----

  /** The run of the job may have sent something: work was submitted, or an outcome was lost. */
  ghost predicate MayHaveSent(s: Sys, j: Job) {
    j.run.Some? && (j.run.value in s.submitted || j.run.value in s.unknown)
  }

  /**
   * Exactly which faults are retried, and what the job ends as otherwise: a retry needs a retryable fault, an attempt left, and
   * nothing that blocks it; a kill cancels the job, anything else that blocks it leaves it blocked, and the rest fails it.
   */
  lemma FaultsExactly(cfg: Config, s: Sys, p: Proc, job: Job, fault: Fault)
    requires exists i :: 0 <= i < |s.jobs| && s.jobs[i].id == job.id && s.jobs[i].run == job.run
    ensures var s' := Apply(cfg, s, ReadFault(p, job, fault));
            && s' == s.(failing := s'.failing) && p in s'.failing && s'.failing == s.failing[p := s'.failing[p]]
            && var f := s'.failing[p];
               && f.id == job.id
               && (f.reschedule <==>
                     fault.retryable && job.attempts < job.maxAttempts && !fault.killedCode && !fault.needsReconciliation && !MayHaveSent(s, job))
               && (fault.killedCode ==> f.fate == Cancelled)
               && (!fault.killedCode && (fault.needsReconciliation || MayHaveSent(s, job)) ==> f.fate == Blocked)
               && (!fault.killedCode && !fault.needsReconciliation && !MayHaveSent(s, job) ==> f.fate == JobFailed)
  {
    assert Known(s.jobs, job);
  }

  // ---- What each step makes of one job ----

  ghost function Unleased(j: Job, state: JobState): Job {
    j.(state := state, owner := None, leaseUntil := None)
  }

  ghost predicate LeaseOver(j: Job, now: nat) {
    j.leaseUntil.None? || j.leaseUntil.value <= now
  }

  /** One row after a step, written out: started, recovered, requeued, ended, cancelled, or left alone. */
  ghost predicate RowAfter(cfg: Config, s: Sys, step: Step, j: Job, j': Job) {
    match step
    case Claim(p, hint) =>
      j' == if j in Picked(cfg, s, hint)
            then j.(state := Running, attempts := j.attempts + 1, owner := Some(p), leaseUntil := Some(s.now + cfg.leaseMs)) else j
    case Recover(force) =>
      if j.state == Running && (force || LeaseOver(j, s.now)) then
        j' == if j.run.Some? && j.run.value in s.submitted then Unleased(j, Blocked)
              else Unleased(j, Scheduled).(nextAttemptAt := Some(s.now))
      else j' == j
    case WriteFault(p) =>
      if p in s.failing && s.failing[p].id == j.id then
        if s.failing[p].reschedule then j' == Unleased(j, Scheduled).(nextAttemptAt := Some(s.now + cfg.retryDelayMs * j.attempts))
        else if j.state == Running || j.state == s.failing[p].fate then j' == Unleased(j, s.failing[p].fate)
        else j' == j
      else j' == j
    case Finish(id, fate) =>
      j' == if j.id == id && fate != Scheduled && fate != Running && (j.state == Running || j.state == fate) then Unleased(j, fate) else j
    case CancelQueued => j' == if s.killed && j.state == Scheduled && j.kind == Execute then j.(state := Cancelled) else j
    case _ => j' == j
  }

  lemma {:induction false} TakenOnce(jobs: seq<Job>, picked: seq<Job>, p: Proc, until: nat, i: nat)
    requires i < |jobs| && forall a, b :: 0 <= a < b < |picked| ==> picked[a].id != picked[b].id
    ensures |TakeAll(jobs, picked, p, until)| == |jobs|
    ensures (exists k :: 0 <= k < |picked| && picked[k].id == jobs[i].id) ==>
      TakeAll(jobs, picked, p, until)[i] == jobs[i].(state := Running, attempts := jobs[i].attempts + 1, owner := Some(p), leaseUntil := Some(until))
    ensures (forall k :: 0 <= k < |picked| ==> picked[k].id != jobs[i].id) ==> TakeAll(jobs, picked, p, until)[i] == jobs[i]
    decreases |picked|
  {
    if picked != [] {
      var n := |picked| - 1;
      TakenOnce(jobs, picked[..n], p, until, i);
      TakeAllExact(jobs, picked[..n], p, until, i);
      assert forall k :: 0 <= k < n ==> picked[..n][k] == picked[k] && picked[k].id != picked[n].id;
    }
  }

  function IdOf(j: Job): JobId {
    j.id
  }

  /** A job is picked at most once. */
  lemma {:induction false} DueUnique(jobs: seq<Job>, now: nat)
    requires UniqueJobs(jobs)
    ensures Sorting.DistinctBy(DueJobs(jobs, now), IdOf)
  {
    if jobs != [] {
      var n := |jobs| - 1;
      DueUnique(jobs[..n], now);
      var front := DueJobs(jobs[..n], now);
      forall a | 0 <= a < |front| ensures front[a].id != jobs[n].id {
        DueJobsExact(jobs[..n], now, front[a]);
        var k :| 0 <= k < n && jobs[..n][k] == front[a];
        assert jobs[k].id != jobs[n].id;
      }
    }
  }

  lemma {:induction false} PickUnique(candidates: seq<Job>, capacity: nat, ready: bool, live: set<RunId>)
    requires Sorting.DistinctBy(candidates, IdOf)
    ensures Sorting.DistinctBy(Pick(candidates, capacity, ready, live), IdOf)
    ensures forall y :: Sorting.NewKey(y, candidates, IdOf) ==> Sorting.NewKey(y, Pick(candidates, capacity, ready, live), IdOf)
    decreases |candidates|
  {
    if candidates != [] && capacity > 0 {
      var first, rest := candidates[0], candidates[1..];
      assert forall k :: 0 <= k < |rest| ==> rest[k] == candidates[k + 1] && rest[k].id != first.id;
      assert Sorting.DistinctBy(rest, IdOf) && Sorting.NewKey(first, rest, IdOf);
      var left := if Held(first, ready, live) then capacity else capacity - 1;
      PickUnique(rest, left, ready, live);
      if !Held(first, ready, live) { Sorting.DistinctCons(first, Pick(rest, left, ready, live), IdOf); }
      forall y | Sorting.NewKey(y, candidates, IdOf) ensures Sorting.NewKey(y, Pick(candidates, capacity, ready, live), IdOf) {
        assert IdOf(candidates[0]) != IdOf(y) && Sorting.NewKey(y, rest, IdOf);
      }
    }
  }

  lemma PickedUnique(cfg: Config, s: Sys, hint: nat)
    requires UniqueJobs(s.jobs)
    ensures var picked := Picked(cfg, s, hint); forall a, b :: 0 <= a < b < |picked| ==> picked[a].id != picked[b].id
  {
    DueUnique(s.jobs, s.now);
    Sorting.SortDistinct(DueJobs(s.jobs, s.now), Before, IdOf);
    PickUnique(SortJobs(DueJobs(s.jobs, s.now)), Capacity(cfg, s, hint), s.ready, s.live);
    var picked := Picked(cfg, s, hint);
    assert Sorting.DistinctBy(picked, IdOf);
    forall a, b | 0 <= a < b < |picked| ensures picked[a].id != picked[b].id { assert IdOf(picked[a]) != IdOf(picked[b]); }
  }

  lemma ClaimedRow(cfg: Config, s: Sys, p: Proc, hint: nat, i: nat)
    requires UniqueJobs(s.jobs) && i < |s.jobs|
    ensures |Apply(cfg, s, Claim(p, hint)).jobs| == |s.jobs|
    ensures RowAfter(cfg, s, Claim(p, hint), s.jobs[i], Apply(cfg, s, Claim(p, hint)).jobs[i])
  {
    var picked := Picked(cfg, s, hint);
    PickedUnique(cfg, s, hint);
    TakenOnce(s.jobs, picked, p, s.now + cfg.leaseMs, i);
    if k :| 0 <= k < |picked| && picked[k].id == s.jobs[i].id {
      ClaimIsEarliestFirst(cfg, s, hint, picked[k], picked[k]);
      assert picked[k] == s.jobs[i];
    }
  }

  lemma ReportedRow(cfg: Config, s: Sys, p: Proc, i: nat)
    requires i < |s.jobs|
    ensures |Apply(cfg, s, WriteFault(p)).jobs| == |s.jobs|
    ensures RowAfter(cfg, s, WriteFault(p), s.jobs[i], Apply(cfg, s, WriteFault(p)).jobs[i])
  {
    if p in s.failing {
      var f := s.failing[p];
      EachAt(s.jobs, (j: Job) => Rescheduled(cfg, s, f.id, j), i);
      EachAt(s.jobs, (j: Job) => Finished(f.id, f.fate, j), i);
    }
  }

  lemma SweptRow(cfg: Config, s: Sys, step: Step, i: nat)
    requires i < |s.jobs| && (step.Recover? || step.Finish? || step.CancelQueued?)
    ensures |Apply(cfg, s, step).jobs| == |s.jobs| && RowAfter(cfg, s, step, s.jobs[i], Apply(cfg, s, step).jobs[i])
  {
    match step
    case Recover(force) => EachAt(s.jobs, (j: Job) => Recovered(s, force, j), i);
    case Finish(id, fate) =>
      assert Terminal(fate) <==> fate != Scheduled && fate != Running;
      EachAt(s.jobs, (j: Job) => Finished(id, fate, j), i);
    case CancelQueued => EachAt(s.jobs, Cancel, i);
  }

  /** A new job is added exactly when it is scheduled and its id is new. */
  lemma ScheduledExactly(cfg: Config, s: Sys, job: Job)
    ensures Apply(cfg, s, Schedule(job)) ==
            if job.state == Scheduled && (forall k :: 0 <= k < |s.jobs| ==> s.jobs[k].id != job.id) then s.(jobs := s.jobs + [job]) else s
  {
    assert FreshId(s.jobs, job.id) <==> forall k :: 0 <= k < |s.jobs| ==> s.jobs[k].id != job.id;
  }

  /** Every step does exactly this to every row, and only a new job adds one. */
  lemma RowsExactly(cfg: Config, s: Sys, step: Step, i: nat)
    requires UniqueJobs(s.jobs) && i < |s.jobs|
    ensures var jobs' := Apply(cfg, s, step).jobs;
            i < |jobs'| && RowAfter(cfg, s, step, s.jobs[i], jobs'[i]) && (!step.Schedule? ==> |jobs'| == |s.jobs|)
  {
    match step
    case Claim(p, hint) => ClaimedRow(cfg, s, p, hint, i);
    case WriteFault(p) => ReportedRow(cfg, s, p, i);
    case Recover(force) => SweptRow(cfg, s, step, i);
    case Finish(id, fate) => SweptRow(cfg, s, step, i);
    case CancelQueued => SweptRow(cfg, s, step, i);
    case Schedule(job) => ScheduledExactly(cfg, s, job);
    case _ =>
  }

  /** A worker decides to execute, and is let in, exactly under these conditions of the snapshots it and the coordinator read. */
  lemma EntersExactly(cfg: Config, s: Sys, p: Proc, job: Job, runIsTerminal: bool)
    ensures Apply(cfg, s, DecideRun(p, job, runIsTerminal)) ==
            if p !in s.workers && !s.killed && (exists i :: 0 <= i < |s.jobs| && s.jobs[i].id == job.id && s.jobs[i].run == job.run) &&
               job.run.Some? && !runIsTerminal && job.run.value !in s.submitted
            then s.(workers := s.workers[p := Decided(job)]) else s
    ensures p in s.workers && s.workers[p] == Decided(job) ==>
      Apply(cfg, s, EnterCoordinator(p)).workers ==
      (if !s.killed && (job.run.Some? ==> job.run.value !in s.submitted) then s.workers[p := Entered(job)] else s.workers - {p})
  {
    assert Known(s.jobs, job) <==> exists i :: 0 <= i < |s.jobs| && s.jobs[i].id == job.id && s.jobs[i].run == job.run;
  }

  // ---- Executions and submitted work ----

  /** The workers the coordinator has let in for a run and that have not started the engine yet. */
  ghost function Inside(s: Sys, run: RunId): set<Proc> {
    set p | p in s.workers && s.workers[p].Entered? && s.workers[p].job.run == Some(run)
  }

  ghost function LaunchCount(launches: seq<RunId>, run: RunId): nat {
    if launches == [] then 0
    else LaunchCount(launches[..|launches| - 1], run) + if launches[|launches| - 1] == run then 1 else 0
  }

  /** The step starts the engine for the run: a worker the coordinator has let in acts. */
  ghost predicate Launches(s: Sys, step: Step, run: RunId) {
    step.StartEngine? && step.p in Inside(s, run)
  }

  /** The engine is started for a run by exactly the steps of workers already inside, whatever was submitted since. */
  lemma LaunchedExactly(cfg: Config, s: Sys, step: Step, run: RunId)
    ensures LaunchCount(Apply(cfg, s, step).launches, run) == LaunchCount(s.launches, run) + if Launches(s, step, run) then 1 else 0
  {
    LaunchStep(cfg, s, step);
    if step.StartEngine? && step.p in s.workers && s.workers[step.p].Entered? && s.workers[step.p].job.run.Some? {
      LaunchAppend(s.launches, s.workers[step.p].job.run.value, run);
    }
  }

  lemma LaunchAppend(launches: seq<RunId>, last: RunId, run: RunId)
    ensures LaunchCount(launches + [last], run) == LaunchCount(launches, run) + if last == run then 1 else 0
  {
    assert (launches + [last])[..|launches|] == launches;
  }

  lemma LaunchStep(cfg: Config, s: Sys, step: Step)
    ensures Apply(cfg, s, step).launches ==
            if step.StartEngine? && step.p in s.workers && s.workers[step.p].Entered? && s.workers[step.p].job.run.Some?
            then s.launches + [s.workers[step.p].job.run.value] else s.launches
  {
  }

  /** Once a run has submitted work, no worker is let in for it any more. */
  lemma NobodyEnters(cfg: Config, s: Sys, step: Step, run: RunId)
    requires run in s.submitted
    ensures Inside(Apply(cfg, s, step), run) <= Inside(s, run)
    ensures Launches(s, step, run) ==> Inside(Apply(cfg, s, step), run) <= Inside(s, run) - {step.p}
  {
  }

  /** Starts so far, plus the workers still inside. */
  ghost function Exposed(s: Sys, run: RunId): nat {
    LaunchCount(s.launches, run) + |Inside(s, run)|
  }

  lemma ExposedFalls(cfg: Config, s: Sys, step: Step, run: RunId)
    requires run in s.submitted
    ensures Exposed(Apply(cfg, s, step), run) <= Exposed(s, run)
  {
    LaunchedExactly(cfg, s, step, run);
    NobodyEnters(cfg, s, step, run);
    if Launches(s, step, run) {
      SubsetSize(Inside(Apply(cfg, s, step), run), Inside(s, run) - {step.p});
    } else {
      SubsetSize(Inside(Apply(cfg, s, step), run), Inside(s, run));
    }
  }

  lemma ExposedStep(cfg: Config, steps: seq<Step>, k: nat, run: RunId)
    requires k < |steps| && run in After(cfg, steps[..k]).submitted
    ensures Exposed(After(cfg, steps[..k + 1]), run) <= Exposed(After(cfg, steps[..k]), run)
  {
    assert steps[..k + 1][..k] == steps[..k];
    ExposedFalls(cfg, After(cfg, steps[..k]), steps[k], run);
  }

  ghost function ExposedAt(cfg: Config, steps: seq<Step>, k: nat, run: RunId): nat {
    if k <= |steps| then Exposed(After(cfg, steps[..k]), run) else 0
  }

  ghost predicate NoMore(cfg: Config, steps: seq<Step>, k: nat, run: RunId) {
    ExposedAt(cfg, steps, k + 1, run) <= ExposedAt(cfg, steps, k, run)
  }

  lemma {:induction false} ExposedAlong(cfg: Config, steps: seq<Step>, j: nat, k: nat, run: RunId)
    requires j <= k && forall m :: j <= m < k ==> NoMore(cfg, steps, m, run)
    ensures ExposedAt(cfg, steps, k, run) <= ExposedAt(cfg, steps, j, run)
    decreases k
  {
    if j < k {
      ExposedAlong(cfg, steps, j, k - 1, run);
      assert NoMore(cfg, steps, k - 1, run);
    }
  }

  /**
   * From the moment a run has submitted work, over any continuation of any history, the engine is started for it at most
   * once for each worker that was already inside at that moment; if none was, never again.
   */
  lemma SubmittedNeverRunsAgain(cfg: Config, steps: seq<Step>, j: nat, k: nat, run: RunId)
    requires j <= k <= |steps| && run in After(cfg, steps[..j]).submitted
    ensures LaunchCount(After(cfg, steps[..k]).launches, run) + |Inside(After(cfg, steps[..k]), run)| <=
            LaunchCount(After(cfg, steps[..j]).launches, run) + |Inside(After(cfg, steps[..j]), run)|
  {
    forall m | j <= m < k ensures NoMore(cfg, steps, m, run) {
      SubmittedStays(cfg, steps, j, m, run);
      ExposedStep(cfg, steps, m, run);
    }
    ExposedAlong(cfg, steps, j, k, run);
  }

  /** And at every moment after it, a lease recovery blocks its job and a fault that is read leads to no retry. */
  lemma SubmittedIsBlocked(cfg: Config, steps: seq<Step>, j: nat, k: nat, job: Job, force: bool, fault: Fault)
    requires j <= k <= |steps| && job.run.Some? && job.run.value in After(cfg, steps[..j]).submitted
    ensures var s := After(cfg, steps[..k]);
            && (job.state == Running && Recovered(s, force, job) != job ==> Recovered(s, force, job).state == Blocked)
            && !Decide(s, job, fault).reschedule && Decide(s, job, fault).fate in {Blocked, Cancelled}
  {
    SubmittedStays(cfg, steps, j, k, job.run.value);
  }

  /** The coordinator's read of a worker that is inside, and the worker's own read before it, at steps `j` and `i`. */
  ghost predicate ReadBy(cfg: Config, steps: seq<Step>, p: Proc, job: Job, i: nat, j: nat) {
    && i < j < |steps| && steps[i].DecideRun? && steps[i].p == p && steps[i].job == job && steps[j] == EnterCoordinator(p)
    && !HasSubmitted(After(cfg, steps[..i]), job.run) && !HasSubmitted(After(cfg, steps[..j]), job.run)
  }

  /** Where a worker's phase comes from: kept, decided in this step, or let in in this step. */
  lemma PhaseStep(cfg: Config, s: Sys, step: Step, p: Proc)
    requires p in Apply(cfg, s, step).workers
    ensures var phase := Apply(cfg, s, step).workers[p];
            || (p in s.workers && s.workers[p] == phase)
            || (phase.Decided? && step.DecideRun? && step.p == p && step.job == phase.job && !HasSubmitted(s, phase.job.run))
            || (phase.Entered? && step == EnterCoordinator(p) && p in s.workers && s.workers[p] == Decided(phase.job) && !HasSubmitted(s, phase.job.run))
  {
  }

  ghost predicate DecidedAt(cfg: Config, steps: seq<Step>, p: Proc, job: Job, i: nat) {
    i < |steps| && steps[i].DecideRun? && steps[i].p == p && steps[i].job == job && !HasSubmitted(After(cfg, steps[..i]), job.run)
  }

  lemma {:induction false} DecisionWasRead(cfg: Config, steps: seq<Step>, s: Sys, p: Proc) returns (i: nat)
    requires s == After(cfg, steps) && p in s.workers && s.workers[p].Decided?
    ensures DecidedAt(cfg, steps, p, s.workers[p].job, i)
  {
    var n := |steps| - 1;
    assert steps != [];
    var before := After(cfg, steps[..n]);
    PhaseStep(cfg, before, steps[n], p);
    if p in before.workers && before.workers[p] == s.workers[p] {
      i := DecisionWasRead(cfg, steps[..n], before, p);
      assert steps[..n][..i] == steps[..i];
    } else {
      i := n;
    }
  }

  lemma EnteredNow(cfg: Config, steps: seq<Step>, before: Sys, p: Proc, job: Job) returns (i: nat)
    requires steps != [] && before == After(cfg, steps[..|steps| - 1]) && steps[|steps| - 1] == EnterCoordinator(p)
    requires p in before.workers && before.workers[p] == Decided(job) && !HasSubmitted(before, job.run)
    ensures ReadBy(cfg, steps, p, job, i, |steps| - 1)
  {
    i := DecisionWasRead(cfg, steps[..|steps| - 1], before, p);
    assert steps[..|steps| - 1][..i] == steps[..i];
  }

  lemma {:induction false} EntryWasRead(cfg: Config, steps: seq<Step>, s: Sys, p: Proc) returns (i: nat, j: nat)
    requires s == After(cfg, steps) && p in s.workers && s.workers[p].Entered?
    ensures ReadBy(cfg, steps, p, s.workers[p].job, i, j)
  {
    var n := |steps| - 1;
    assert steps != [];
    var before := After(cfg, steps[..n]);
    PhaseStep(cfg, before, steps[n], p);
    if p in before.workers && before.workers[p] == s.workers[p] {
      i, j := EntryWasRead(cfg, steps[..n], before, p);
      assert steps[..n][..i] == steps[..i] && steps[..n][..j] == steps[..j];
    } else {
      j := n;
      i := EnteredNow(cfg, steps, before, p, s.workers[p].job);
    }
  }

  /**
   * When the engine is started for a run that has submitted work, the worker and the coordinator had both read the run
   * at earlier steps, one after the other, and at both of them nothing had been submitted.
   */
  lemma LaunchedOnlyWhenOvertaken(cfg: Config, steps: seq<Step>, k: nat, run: RunId) returns (job: Job, i: nat, j: nat)
    requires k < |steps| && run in After(cfg, steps[..k]).submitted && Launches(After(cfg, steps[..k]), steps[k], run)
    ensures j < k && job.run == Some(run) && ReadBy(cfg, steps, steps[k].p, job, i, j)
  {
    var p := steps[k].p;
    job := After(cfg, steps[..k]).workers[p].job;
    i, j := EntryWasRead(cfg, steps[..k], After(cfg, steps[..k]), p);
    assert steps[..k][..i] == steps[..i] && steps[..k][..j] == steps[..j];
  }

  // ---- The one retry that a submission can overtake ----

  /** The transaction of this step writes a retry decided earlier for the job. */
  ghost predicate WritesRetry(s: Sys, step: Step, id: JobId) {
    step.WriteFault? && step.p in s.failing && s.failing[step.p].reschedule && s.failing[step.p].id == id
  }

  lemma EachAt(jobs: seq<Job>, f: Job -> Job, i: nat)
    requires i < |jobs|
    ensures |Each(jobs, f)| == |jobs| && Each(jobs, f)[i] == f(jobs[i])
  {
  }

  /** What a step does to one row, apart from its id and run, which never change. */
  ghost predicate RowStep(s: Sys, step: Step, j: Job, j': Job) {
    && j'.id == j.id && j'.run == j.run
    && (HasSubmitted(s, j.run) && j.state != Scheduled ==> (j'.state == Scheduled <==> WritesRetry(s, step, j.id)))
  }

  lemma FaultRow(cfg: Config, s: Sys, p: Proc, i: nat)
    requires FatesEnd(s) && i < |s.jobs|
    ensures |Apply(cfg, s, WriteFault(p)).jobs| == |s.jobs|
    ensures RowStep(s, WriteFault(p), s.jobs[i], Apply(cfg, s, WriteFault(p)).jobs[i])
  {
    if p in s.failing {
      var f := s.failing[p];
      EachAt(s.jobs, (j: Job) => Rescheduled(cfg, s, f.id, j), i);
      EachAt(s.jobs, (j: Job) => Finished(f.id, f.fate, j), i);
    }
  }

  lemma ClaimRow(cfg: Config, s: Sys, p: Proc, hint: nat, i: nat)
    requires i < |s.jobs|
    ensures |Apply(cfg, s, Claim(p, hint)).jobs| == |s.jobs|
    ensures RowStep(s, Claim(p, hint), s.jobs[i], Apply(cfg, s, Claim(p, hint)).jobs[i])
  {
    var picked := Picked(cfg, s, hint);
    TakeAllExact(s.jobs, picked, p, s.now + cfg.leaseMs, i);
    if exists k :: 0 <= k < |picked| && picked[k].id == s.jobs[i].id {
    } else {
      assert forall k :: 0 <= k < |picked| ==> picked[k].id != s.jobs[i].id;
    }
  }

  /**
   * A job whose run has submitted work goes back to the queue in exactly one way: a worker writes a retry it had decided
   * on before, in a separate transaction, whatever has happened to the job since.
   */
  lemma RequeuedExactly(cfg: Config, s: Sys, step: Step, i: nat)
    requires FatesEnd(s) && i < |s.jobs|
    ensures i < |Apply(cfg, s, step).jobs| && RowStep(s, step, s.jobs[i], Apply(cfg, s, step).jobs[i])
  {
    match step
    case Claim(p, hint) => ClaimRow(cfg, s, p, hint, i);
    case WriteFault(p) => FaultRow(cfg, s, p, i);
    case Recover(force) => EachAt(s.jobs, (j: Job) => Recovered(s, force, j), i);
    case Finish(id, fate) => EachAt(s.jobs, (j: Job) => Finished(id, fate, j), i);
    case CancelQueued => EachAt(s.jobs, Cancel, i);
    case _ =>
  }

  lemma {:induction false} JobStays(cfg: Config, steps: seq<Step>, j: nat, k: nat, i: nat)
    requires j <= k <= |steps| && i < |After(cfg, steps[..j]).jobs|
    ensures i < |After(cfg, steps[..k]).jobs|
    ensures After(cfg, steps[..k]).jobs[i].id == After(cfg, steps[..j]).jobs[i].id
    ensures After(cfg, steps[..k]).jobs[i].run == After(cfg, steps[..j]).jobs[i].run
    decreases k
  {
    if j < k {
      assert steps[..k][..k - 1] == steps[..k - 1];
      JobStays(cfg, steps, j, k - 1, i);
      NeverOverbooked(cfg, steps[..k - 1]);
      RequeuedExactly(cfg, After(cfg, steps[..k - 1]), steps[k - 1], i);
    }
  }

  lemma FailingStep(cfg: Config, s: Sys, step: Step, p: Proc)
    requires p in Apply(cfg, s, step).failing
    ensures var f := Apply(cfg, s, step).failing[p];
            || (p in s.failing && s.failing[p] == f)
            || (step.ReadFault? && step.p == p && Known(s.jobs, step.job) && f == Decide(s, step.job, step.fault))
  {
  }

  /** A decided retry was read at an earlier step, when the run of that job had not submitted anything. */
  lemma {:induction false} RetryWasRead(cfg: Config, steps: seq<Step>, s: Sys, p: Proc) returns (j: nat, job: Job)
    requires s == After(cfg, steps) && p in s.failing && s.failing[p].reschedule
    ensures j < |steps| && steps[j].ReadFault? && steps[j].p == p && steps[j].job == job && job.id == s.failing[p].id
    ensures Known(After(cfg, steps[..j]).jobs, job) && !HasSubmitted(After(cfg, steps[..j]), job.run)
  {
    var n := |steps| - 1;
    assert steps != [];
    var before := After(cfg, steps[..n]);
    FailingStep(cfg, before, steps[n], p);
    if p in before.failing && before.failing[p] == s.failing[p] {
      j, job := RetryWasRead(cfg, steps[..n], before, p);
      assert steps[..n][..j] == steps[..j];
    } else {
      j, job := n, steps[n].job;
    }
  }

  /**
   * Over every history: when a job whose run has submitted work is put back in the queue, the retry was decided at an
   * earlier step, before that run had submitted anything.
   */
  lemma RequeuedOnlyWhenOvertaken(cfg: Config, steps: seq<Step>, k: nat, i: nat) returns (j: nat)
    requires k < |steps| && i < |After(cfg, steps[..k]).jobs| && i < |After(cfg, steps[..k + 1]).jobs|
    requires var s := After(cfg, steps[..k]); HasSubmitted(s, s.jobs[i].run) && s.jobs[i].state != Scheduled
    requires After(cfg, steps[..k + 1]).jobs[i].state == Scheduled
    ensures j < k && steps[j].ReadFault? && steps[k].WriteFault? && steps[j].p == steps[k].p
    ensures !HasSubmitted(After(cfg, steps[..j]), After(cfg, steps[..k]).jobs[i].run)
  {
    var s := After(cfg, steps[..k]);
    assert steps[..k + 1][..k] == steps[..k];
    NeverOverbooked(cfg, steps[..k]);
    RequeuedExactly(cfg, s, steps[k], i);
    var job;
    j, job := RetryWasRead(cfg, steps[..k], s, steps[k].p);
    assert steps[..k][..j] == steps[..j];
    var m :| 0 <= m < |After(cfg, steps[..j]).jobs| && After(cfg, steps[..j]).jobs[m].id == job.id && After(cfg, steps[..j]).jobs[m].run == job.run;
    JobStays(cfg, steps, j, k, m);
    assert s.jobs[m].id == s.jobs[i].id;
  }

  const SAMPLE := Job(1, Execute, Some(1), Scheduled, 0, None, 0, 3, None, None)
  const SAMPLE_RUNNING := SAMPLE.(state := Running, attempts := 1, owner := Some(0), leaseUntil := Some(10))

  /** A worker has claimed the sample job. */
  lemma SampleRuns(cfg: Config)
    requires cfg == Config(1, 10, 5)
    ensures Apply(cfg, Apply(cfg, IDLE, Schedule(SAMPLE)), Claim(0, 1)) == IDLE.(jobs := [SAMPLE_RUNNING])
  {
    assert Apply(cfg, IDLE, Schedule(SAMPLE)) == IDLE.(jobs := [SAMPLE]);
    SampleClaimed(cfg, IDLE.(jobs := [SAMPLE]));
  }

  lemma FaultRead(cfg: Config)
    ensures Apply(cfg, Apply(cfg, IDLE.(jobs := [SAMPLE_RUNNING]), ReadFault(0, SAMPLE_RUNNING, Fault(false, true, false))), Submit(1)) ==
            IDLE.(jobs := [SAMPLE_RUNNING], submitted := {1}, failing := map[0 := Failing(1, true, JobFailed)])
  {
    var s := IDLE.(jobs := [SAMPLE_RUNNING]);
    assert s.jobs[0] == SAMPLE_RUNNING;
    assert Known(s.jobs, SAMPLE_RUNNING);
  }

  lemma RetryWritten(cfg: Config, s: Sys)
    requires cfg == Config(1, 10, 5) && s == IDLE.(jobs := [SAMPLE_RUNNING], submitted := {1}, failing := map[0 := Failing(1, true, JobFailed)])
    ensures Apply(cfg, s, WriteFault(0)) == IDLE.(jobs := [SAMPLE.(attempts := 1, nextAttemptAt := Some(5))], submitted := {1})
  {
    EachAt(s.jobs, (j: Job) => Rescheduled(cfg, s, 1, j), 0);
  }

  /** Such an overtaken retry does happen: the work is submitted between the worker's read and its write. */
  lemma RetryOvertaken(cfg: Config)
    requires cfg == Config(1, 10, 5)
    ensures var claimed := Apply(cfg, Apply(cfg, IDLE, Schedule(SAMPLE)), Claim(0, 1));
            var submitted := Apply(cfg, Apply(cfg, claimed, ReadFault(0, SAMPLE_RUNNING, Fault(false, true, false))), Submit(1));
            Apply(cfg, submitted, WriteFault(0)) == IDLE.(jobs := [SAMPLE.(attempts := 1, nextAttemptAt := Some(5))], submitted := {1})
  {
    SampleRuns(cfg);
    FaultRead(cfg);
    RetryWritten(cfg, IDLE.(jobs := [SAMPLE_RUNNING], submitted := {1}, failing := map[0 := Failing(1, true, JobFailed)]));
  }

  lemma SampleClaimed(cfg: Config, s: Sys)
    requires cfg == Config(1, 10, 5) && s == IDLE.(jobs := [SAMPLE])
    ensures Apply(cfg, s, Claim(0, 1)).jobs == [SAMPLE_RUNNING]
  {
    assert [SAMPLE][..0] == [] && [SAMPLE][1..] == [];
    assert DueJobs([SAMPLE], 0) == [SAMPLE];
    Sorting.SortOne(SAMPLE, Before);
    assert RunningCount([SAMPLE]) == 0;
    assert Pick([SAMPLE], 1, false, {}) == [SAMPLE] + Pick([], 0, false, {});
    assert Picked(cfg, s, 1) == [SAMPLE];
    assert TakeAll([SAMPLE], [SAMPLE], 0, 10) == Take(TakeAll([SAMPLE], [], 0, 10), 1, 0, 10);
    assert Take([SAMPLE], 1, 0, 10) == [SAMPLE_RUNNING];
  }

  const SAMPLE_AGAIN := SAMPLE.(state := Running, attempts := 2, nextAttemptAt := Some(10), owner := Some(1), leaseUntil := Some(20))

  /** The first worker is inside when its lease runs out, and a second one claims the job. */
  ghost function LeaseLost(cfg: Config): Sys {
    var inside := Apply(cfg, Apply(cfg, IDLE.(jobs := [SAMPLE_RUNNING]), DecideRun(0, SAMPLE_RUNNING, false)), EnterCoordinator(0));
    Apply(cfg, Apply(cfg, Apply(cfg, inside, Tick(10)), Recover(false)), Claim(1, 1))
  }

  lemma FirstInside(cfg: Config)
    ensures Apply(cfg, Apply(cfg, IDLE.(jobs := [SAMPLE_RUNNING]), DecideRun(0, SAMPLE_RUNNING, false)), EnterCoordinator(0)) ==
            IDLE.(jobs := [SAMPLE_RUNNING], workers := map[0 := Entered(SAMPLE_RUNNING)])
  {
    var s := IDLE.(jobs := [SAMPLE_RUNNING]);
    assert s.jobs[0] == SAMPLE_RUNNING;
    assert Known(s.jobs, SAMPLE_RUNNING);
    assert Apply(cfg, s, DecideRun(0, SAMPLE_RUNNING, false)).workers == map[0 := Decided(SAMPLE_RUNNING)];
  }

  lemma SampleRecovered(cfg: Config, s: Sys)
    requires s.jobs == [SAMPLE_RUNNING] && s.now == 10 && s.submitted == {}
    ensures Apply(cfg, s, Recover(false)) == s.(jobs := [SAMPLE.(attempts := 1, nextAttemptAt := Some(10))])
  {
    EachAt(s.jobs, (j: Job) => Recovered(s, false, j), 0);
  }

  lemma SampleClaimedAgain(cfg: Config, s: Sys)
    requires cfg == Config(1, 10, 5) && s.jobs == [SAMPLE.(attempts := 1, nextAttemptAt := Some(10))] && s.now == 10 && !s.killed && !s.ready && s.live == {}
    ensures Apply(cfg, s, Claim(1, 1)) == s.(jobs := [SAMPLE_AGAIN])
  {
    var job := SAMPLE.(attempts := 1, nextAttemptAt := Some(10));
    assert [job][..0] == [] && [job][1..] == [];
    assert DueJobs([job], 10) == [job];
    Sorting.SortOne(job, Before);
    assert RunningCount([job]) == 0;
    assert Pick([job], 1, false, {}) == [job] + Pick([], 0, false, {});
    assert Picked(cfg, s, 1) == [job];
    assert TakeAll([job], [job], 1, 20) == Take(TakeAll([job], [], 1, 20), 1, 1, 20);
    assert Take([job], 1, 1, 20) == [SAMPLE_AGAIN];
  }

  lemma LeaseWasLost(cfg: Config)
    requires cfg == Config(1, 10, 5)
    ensures LeaseLost(cfg) == IDLE.(now := 10, jobs := [SAMPLE_AGAIN], workers := map[0 := Entered(SAMPLE_RUNNING)])
  {
    FirstInside(cfg);
    var ticked := IDLE.(now := 10, jobs := [SAMPLE_RUNNING], workers := map[0 := Entered(SAMPLE_RUNNING)]);
    SampleRecovered(cfg, ticked);
    SampleClaimedAgain(cfg, ticked.(jobs := [SAMPLE.(attempts := 1, nextAttemptAt := Some(10))]));
  }

  /** The second worker executes the job and submits. */
  lemma SecondSubmits(cfg: Config, s: Sys)
    requires s == IDLE.(now := 10, jobs := [SAMPLE_AGAIN], workers := map[0 := Entered(SAMPLE_RUNNING)])
    ensures var entered := Apply(cfg, Apply(cfg, s, DecideRun(1, SAMPLE_AGAIN, false)), EnterCoordinator(1));
            Apply(cfg, Apply(cfg, entered, StartEngine(1)), Submit(1)) == s.(submitted := {1}, launches := [1])
  {
    assert s.jobs[0] == SAMPLE_AGAIN;
    assert Known(s.jobs, SAMPLE_AGAIN);
    var decided := Apply(cfg, s, DecideRun(1, SAMPLE_AGAIN, false));
    assert decided.workers == map[0 := Entered(SAMPLE_RUNNING), 1 := Decided(SAMPLE_AGAIN)];
    var entered := Apply(cfg, decided, EnterCoordinator(1));
    assert entered.workers == map[0 := Entered(SAMPLE_RUNNING), 1 := Entered(SAMPLE_AGAIN)];
    assert Apply(cfg, entered, StartEngine(1)).workers == s.workers;
  }

  /**
   * The engine is started for a run that has already submitted work: a worker loses its lease between the coordinator's
   * read and the engine, another one executes the job and submits, and then the first one goes on.
   */
  lemma SubmittedRunLaunched(cfg: Config)
    requires cfg == Config(1, 10, 5)
    ensures var s := LeaseLost(cfg);
            var entered := Apply(cfg, Apply(cfg, s, DecideRun(1, SAMPLE_AGAIN, false)), EnterCoordinator(1));
            var submitted := Apply(cfg, Apply(cfg, entered, StartEngine(1)), Submit(1));
            && 1 in submitted.submitted && Launches(submitted, StartEngine(0), 1)
            && Apply(cfg, submitted, StartEngine(0)).launches == [1, 1]
  {
    LeaseWasLost(cfg);
    SecondSubmits(cfg, LeaseLost(cfg));
  }

  // ---- Recovery and claiming as the orchestrator runs them ----

  /** Taking one more job moves it from the head of what is left to the end of what is taken. */
  lemma PickedNext(jobs: seq<Job>, selected: seq<Job>, job: Job, rest: seq<Job>, p: Proc, until: nat)
    ensures selected + ([job] + rest) == selected + [job] + rest
    ensures TakeAll(jobs, selected + [job], p, until) == Take(TakeAll(jobs, selected, p, until), job.id, p, until)
  {
    assert (selected + [job])[..|selected|] == selected;
  }

  /** Where a claim stands after `i` candidates, with `capacity` leases left to take. */
  lemma PickAt(candidates: seq<Job>, i: nat, capacity: nat, ready: bool, live: set<RunId>)
    requires i <= |candidates|
    ensures i == |candidates| || capacity == 0 ==> Pick(candidates[i..], capacity, ready, live) == []
    ensures i < |candidates| && capacity > 0 && Held(candidates[i], ready, live) ==>
      Pick(candidates[i..], capacity, ready, live) == Pick(candidates[i + 1..], capacity, ready, live)
    ensures i < |candidates| && capacity > 0 && !Held(candidates[i], ready, live) ==>
      Pick(candidates[i..], capacity, ready, live) == [candidates[i]] + Pick(candidates[i + 1..], capacity - 1, ready, live)
  {
    if i < |candidates| {
      assert candidates[i..][1..] == candidates[i + 1..];
    }
  }

  class JobTable {
    var jobs: seq<Job>

    constructor ()
      ensures jobs == []
    {
      jobs := [];
    }

    method CountRunning() returns (n: nat)
      ensures n == RunningCount(jobs)
    {
      n := 0;
      for i := 0 to |jobs|
        invariant n == RunningCount(jobs[..i])
      {
        assert jobs[..i + 1][..i] == jobs[..i];
        if jobs[i].state == Running { n := n + 1; }
      }
      assert jobs[..|jobs|] == jobs;
    }

    method TakeJob(id: JobId, p: Proc, until: nat)
      modifies this
      ensures jobs == Take(old(jobs), id, p, until)
    {
      var i := 0;
      var before := jobs;
      while i < |jobs|
        invariant 0 <= i <= |jobs| == |before|
        invariant forall k :: 0 <= k < i ==> jobs[k] == Take(before, id, p, until)[k]
        invariant forall k :: i <= k < |jobs| ==> jobs[k] == before[k]
      {
        if jobs[i].id == id {
          jobs := jobs[i := jobs[i].(state := Running, attempts := jobs[i].attempts + 1, owner := Some(p), leaseUntil := Some(until))];
        }
        i := i + 1;
      }
    }

    /** Walks the sorted candidates, taking leases until the capacity of this claim is used up. */
    method ClaimJobs(candidates: seq<Job>, capacity: nat, ready: bool, live: set<RunId>, p: Proc, until: nat) returns (selected: seq<Job>)
      modifies this
      ensures selected == Pick(candidates, capacity, ready, live)
      ensures jobs == TakeAll(old(jobs), selected, p, until)
    {
      selected := [];
      var i := 0;
      ghost var begin := jobs;
      assert candidates[0..] == candidates;
      while i < |candidates| && |selected| < capacity
        invariant 0 <= i <= |candidates| && |selected| <= capacity
        invariant selected + Pick(candidates[i..], capacity - |selected|, ready, live) == Pick(candidates, capacity, ready, live)
        invariant jobs == TakeAll(begin, selected, p, until)
      {
        var job := candidates[i];
        PickAt(candidates, i, capacity - |selected|, ready, live);
        if !Held(job, ready, live) {
          TakeJob(job.id, p, until);
          PickedNext(begin, selected, job, Pick(candidates[i + 1..], capacity - |selected| - 1, ready, live), p, until);
          selected := selected + [job];
        }
        i := i + 1;
      }
      PickAt(candidates, i, capacity - |selected|, ready, live);
    }

    /** Sends jobs whose lease ran out back to the queue, or blocks them when their run may have sent something. */
    method RecoverJobs(now: nat, force: bool, submitted: set<RunId>)
      modifies this
      ensures |jobs| == |old(jobs)|
      ensures forall i :: 0 <= i < |jobs| ==>
        jobs[i] == Recovered(IDLE.(now := now, submitted := submitted), force, old(jobs)[i])
    {
      var before := jobs;
      var i := 0;
      while i < |jobs|
        invariant 0 <= i <= |jobs| == |before|
        invariant forall k :: 0 <= k < i ==> jobs[k] == Recovered(IDLE.(now := now, submitted := submitted), force, before[k])
        invariant forall k :: i <= k < |jobs| ==> jobs[k] == before[k]
      {
        var j := jobs[i];
        if j.state == Running && (force || j.leaseUntil.None? || j.leaseUntil.value <= now) {
          if j.run.Some? && j.run.value in submitted {
            jobs := jobs[i := j.(state := Blocked, owner := None, leaseUntil := None)];
          } else {
            jobs := jobs[i := j.(state := Scheduled, nextAttemptAt := Some(now), owner := None, leaseUntil := None)];
          }
        }
        i := i + 1;
      }
    }
  }
}
