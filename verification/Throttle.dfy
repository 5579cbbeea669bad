/** Uploads share a fixed number of permits. A job that finds none free waits its turn; finishing and aborting
    give a permit back, and a permit given back goes to the job that has waited longest. */
module Throttle {
  import opened Base

  const MAX_UPLOADS_IN_FLIGHT: nat := 4

  type Job = nat

  /** `Released` is the end of a job that was reported as started, `ReturnedUnused` of one that was not. */
  datatype Note = UploadThrottled(job: Job) | UploadStarted(job: Job) | Released(job: Job) | ReturnedUnused(job: Job)

  /** `silent` holders were granted their permit while waiting and have not run since. */
  datatype Permits = Permits(free: nat, holders: set<Job>, silent: set<Job>, waiting: seq<Job>, log: seq<Note>)

  const FULL := Permits(MAX_UPLOADS_IN_FLIGHT, {}, {}, [], [])

  /** `Init` is a job asking for a permit without waiting, `Resume` a waiting job running with the permit it was
      granted, `Stop` the end or the abortion of a job, in whatever state. */
  datatype Step = Init(job: Job) | Resume(job: Job) | Stop(job: Job)

  function WithoutJob(jobs: seq<Job>, job: Job): (rest: seq<Job>)
    ensures job !in rest
    ensures forall j :: j != job ==> (j in rest <==> j in jobs)
    ensures NoRepeats(jobs) ==> NoRepeats(rest)
  {
    if jobs == [] then []
    else
      var rest := WithoutJob(jobs[1..], job);
      if jobs[0] == job then rest else [jobs[0]] + rest
  }

  predicate NoRepeats(jobs: seq<Job>) {
    jobs == [] || (jobs[0] !in jobs[1..] && NoRepeats(jobs[1..]))
  }

  /** A free permit goes to the first waiter. */
  function Granted(p: Permits): Permits {
    if p.waiting == [] then p.(free := p.free + 1)
    else
      var next := p.waiting[0];
      p.(holders := p.holders + {next}, silent := p.silent + {next}, waiting := p.waiting[1..])
  }

  function After(p: Permits, step: Step): Permits {
    match step
    case Init(job) =>
      if job in p.holders || job in p.waiting then p
      else if p.free > 0 then
        p.(free := p.free - 1, holders := p.holders + {job}, log := p.log + [UploadStarted(job)])
      else p.(waiting := p.waiting + [job], log := p.log + [UploadThrottled(job)])
    case Resume(job) =>
      if job in p.silent then p.(silent := p.silent - {job}, log := p.log + [UploadStarted(job)]) else p
    case Stop(job) =>
      if job in p.holders then
        Granted(p.(holders := p.holders - {job}, silent := p.silent - {job},
                   log := p.log + [if job in p.silent then ReturnedUnused(job) else Released(job)]))
      else p.(waiting := WithoutJob(p.waiting, job))
  }

  function AfterAll(p: Permits, steps: seq<Step>): Permits
    decreases |steps|
  {
    if steps == [] then p else AfterAll(After(p, steps[0]), steps[1..])
  }

  function Starts(log: seq<Note>, job: Job): nat {
    if log == [] then 0
    else Starts(log[..|log| - 1], job) + if log[|log| - 1] == UploadStarted(job) then 1 else 0
  }

  function Releases(log: seq<Note>, job: Job): nat {
    if log == [] then 0
    else Releases(log[..|log| - 1], job) + if log[|log| - 1] == Released(job) then 1 else 0
  }

  ghost predicate Conserved(p: Permits) {
    && p.free + |p.holders| == MAX_UPLOADS_IN_FLIGHT
    && (p.free > 0 ==> p.waiting == []) && p.silent <= p.holders
    && NoRepeats(p.waiting) && forall j :: j in p.waiting ==> j !in p.holders
  }

  ghost predicate Accounted(p: Permits, job: Job) {
    Starts(p.log, job) == Releases(p.log, job) + if job in p.holders && job !in p.silent then 1 else 0
  }

  lemma Logged(log: seq<Note>, n: Note, job: Job)
    ensures Starts(log + [n], job) == Starts(log, job) + if n == UploadStarted(job) then 1 else 0
    ensures Releases(log + [n], job) == Releases(log, job) + if n == Released(job) then 1 else 0
  {
    assert (log + [n])[..|log|] == log;
  }

  lemma {:induction false} AppendNoRepeats(jobs: seq<Job>, job: Job)
    requires NoRepeats(jobs) && job !in jobs
    ensures NoRepeats(jobs + [job])
  {
    if jobs != [] {
      AppendNoRepeats(jobs[1..], job);
      assert (jobs + [job])[1..] == jobs[1..] + [job];
    }
  }

  lemma StepConserves(p: Permits, step: Step)
    requires Conserved(p)
    ensures Conserved(After(p, step))
  {
    if step.Init? && p.free == 0 && step.job !in p.holders && step.job !in p.waiting {
      AppendNoRepeats(p.waiting, step.job);
    }
    if step.Stop? && step.job in p.holders && p.waiting != [] {
      assert p.waiting[0] in p.waiting;
    }
  }

  lemma StepAccounts(p: Permits, step: Step, job: Job)
    requires Conserved(p) && Accounted(p, job)
    ensures Accounted(After(p, step), job)
  {
    if step.Init? {
      Logged(p.log, UploadStarted(step.job), job);
      Logged(p.log, UploadThrottled(step.job), job);
    } else if step.Resume? {
      Logged(p.log, UploadStarted(step.job), job);
    } else if step.job in p.holders {
      Logged(p.log, if step.job in p.silent then ReturnedUnused(step.job) else Released(step.job), job);
      if p.waiting != [] {
        assert p.waiting[0] in p.waiting;
      }
    }
  }

  /** Who waits, or was granted a permit while waiting and has not run since, has been told to wait. */
  ghost predicate WaitsReported(p: Permits) {
    forall j :: j in p.waiting || j in p.silent ==> UploadThrottled(j) in p.log
  }

  lemma StepReportsWaits(p: Permits, step: Step)
    requires WaitsReported(p)
    ensures WaitsReported(After(p, step))
  {
    var p' := After(p, step);
    forall j | j in p'.waiting || j in p'.silent
      ensures UploadThrottled(j) in p'.log
    {
      if step != Init(j) || j in p.waiting || j in p.silent {
        assert j in p.waiting || j in p.silent;
      }
    }
  }

  /** In every interleaving every wait is reported. */
  lemma {:induction false} EveryWaitIsReported(p: Permits, steps: seq<Step>)
    requires WaitsReported(p)
    ensures WaitsReported(AfterAll(p, steps))
    decreases |steps|
  {
    if steps != [] {
      StepReportsWaits(p, steps[0]);
      EveryWaitIsReported(After(p, steps[0]), steps[1..]);
    }
  }

  /** In every interleaving free and held permits add up to the limit, so at most that many jobs read files;
      nobody waits while a permit is free; and every reported start of a job is a permit it took: starts are
      the releases that followed one plus the permit it works with now. */
  lemma {:induction false} RunConserves(p: Permits, steps: seq<Step>, job: Job)
    requires Conserved(p) && Accounted(p, job)
    ensures Conserved(AfterAll(p, steps)) && Accounted(AfterAll(p, steps), job)
    decreases |steps|
  {
    if steps != [] {
      StepConserves(p, steps[0]);
      StepAccounts(p, steps[0], job);
      RunConserves(After(p, steps[0]), steps[1..], job);
    }
  }

  lemma EveryRunConserves(steps: seq<Step>, job: Job)
    ensures Conserved(AfterAll(FULL, steps)) && Accounted(AfterAll(FULL, steps), job)
  {
    RunConserves(FULL, steps, job);
  }

  // ----- Waiting jobs get their turn

  /** How many wait before the job. */
  function Ahead(waiting: seq<Job>, job: Job): nat
    requires job in waiting
  {
    if waiting[0] == job then 0 else 1 + Ahead(waiting[1..], job)
  }

  lemma {:induction false} LeavingHelps(waiting: seq<Job>, gone: Job, job: Job)
    requires job in waiting && gone != job
    ensures job in WithoutJob(waiting, gone)
    ensures Ahead(WithoutJob(waiting, gone), job) <= Ahead(waiting, job)
  {
    if waiting[0] != job {
      LeavingHelps(waiting[1..], gone, job);
      var rest := WithoutJob(waiting[1..], gone);
      assert ([waiting[0]] + rest)[1..] == rest;
    } else {
      assert WithoutJob(waiting, gone)[0] == job;
    }
  }

  lemma {:induction false} QueueingBehind(waiting: seq<Job>, other: Job, job: Job)
    requires job in waiting
    ensures Ahead(waiting + [other], job) == Ahead(waiting, job)
  {
    if waiting[0] != job {
      QueueingBehind(waiting[1..], other, job);
      assert (waiting + [other])[1..] == waiting[1..] + [other];
    }
  }

  /** A step gives a permit back. */
  predicate GivesBack(p: Permits, step: Step) {
    step.Stop? && step.job in p.holders
  }

  lemma StepIsFair(p: Permits, step: Step, job: Job)
    requires Conserved(p) && job in p.waiting && step != Stop(job)
    ensures var p' := After(p, step);
            if job in p'.waiting then Ahead(p'.waiting, job) + (if GivesBack(p, step) then 1 else 0) <= Ahead(p.waiting, job)
            else job in p'.holders
  {
    if step.Init? && step.job !in p.holders && step.job !in p.waiting && p.free == 0 {
      QueueingBehind(p.waiting, step.job, job);
    } else if step.Stop? && step.job !in p.holders {
      LeavingHelps(p.waiting, step.job, job);
    }
  }

  lemma HolderStays(p: Permits, step: Step, job: Job)
    requires job in p.holders && step != Stop(job)
    ensures job in After(p, step).holders
  {
  }

  function Returns(p: Permits, steps: seq<Step>): nat
    decreases |steps|
  {
    if steps == [] then 0 else (if GivesBack(p, steps[0]) then 1 else 0) + Returns(After(p, steps[0]), steps[1..])
  }

  /** A job that is not stopped holds a permit as soon as more permits were given back than jobs waited before
      it. */
  lemma {:induction false} WaitingEnds(p: Permits, steps: seq<Step>, job: Job)
    requires Conserved(p) && Stop(job) !in steps
    requires job in p.holders || (job in p.waiting && Returns(p, steps) > Ahead(p.waiting, job))
    ensures job in AfterAll(p, steps).holders
    decreases |steps|
  {
    if steps != [] {
      StepConserves(p, steps[0]);
      if job in p.holders {
        HolderStays(p, steps[0], job);
      } else {
        StepIsFair(p, steps[0], job);
      }
      WaitingEnds(After(p, steps[0]), steps[1..], job);
    }
  }

  // ----- The shared permits

  class Throttle {
    var free: nat
    var holders: set<Job>
    var silent: set<Job>
    var waiting: seq<Job>
    var log: seq<Note>

    ghost function State(): Permits
      reads this
    {
      Permits(free, holders, silent, waiting, log)
    }

    constructor ()
      ensures State() == FULL && Conserved(State())
    {
      free, holders, silent, waiting, log := MAX_UPLOADS_IN_FLIGHT, {}, {}, [], [];
    }

    /** `init`: takes a permit that is free and reports the start, or reports the wait. */
    method Begin(job: Job) returns (acquired: bool)
      requires Conserved(State())
      modifies this
      ensures State() == After(old(State()), Init(job)) && Conserved(State())
      ensures acquired <==> job in holders
    {
      StepConserves(State(), Init(job));
      if job in holders || job in waiting {
        return job in holders;
      }
      if free > 0 {
        free := free - 1;
        holders := holders + {job};
        log := log + [UploadStarted(job)];
        return true;
      }
      waiting := waiting + [job];
      log := log + [UploadThrottled(job)];
      return false;
    }

    /** `acquire`: a waiting job goes on once it holds its permit, and reports the start then. */
    method Acquire(job: Job) returns (acquired: bool)
      requires Conserved(State())
      modifies this
      ensures State() == After(old(State()), Resume(job)) && Conserved(State())
      ensures acquired <==> job in holders
    {
      StepConserves(State(), Resume(job));
      if job in silent {
        silent := silent - {job};
        log := log + [UploadStarted(job)];
      }
      return job in holders;
    }

    /** The job drops its permit, or its place among the waiting. */
    method Drop(job: Job)
      requires Conserved(State())
      modifies this
      ensures State() == After(old(State()), Stop(job)) && Conserved(State())
      ensures job !in holders && job !in waiting
    {
      ghost var before := State();
      StepConserves(State(), Stop(job));
      if job !in holders {
        waiting := WithoutJob(waiting, job);
        return;
      }
      log := log + [if job in silent then ReturnedUnused(job) else Released(job)];
      holders, silent := holders - {job}, silent - {job};
      if waiting == [] {
        free := free + 1;
      } else {
        var next := waiting[0];
        assert next in before.waiting;
        holders, silent, waiting := holders + {next}, silent + {next}, waiting[1..];
      }
    }
  }
}
