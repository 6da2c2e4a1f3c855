/** When a verdict or a run may be older than the assignment it ends: exactly which assignments are sure of a verdict of
    their own, and which of a run of their own. */
module Reassignment {
  import opened Etcd
  import opened JobRunner
  import opened JobDraining
  import opened JobRecovery
  import opened JobScenarios
  import JobFeed

  predicate RemovesJob(cfg: Config, e: Entry, job: string) {
    e.actor.Run? && e.event == Delete(AssignKey(cfg.server, job))
  }

  /** The run has judged the job since some moment of the history, and before another. */
  predicate JudgedBetween(log: seq<Entry>, from: nat, to: nat, actor: Actor, job: string)
    requires to <= |log|
  {
    exists p :: from <= p < to && log[p].actor == actor && JudgesJob(log[p].event, job)
  }

  /** Since some moment no run has removed the job's key without having judged it since then. */
  ghost predicate RemovedAfresh(cfg: Config, log: seq<Entry>, from: nat, job: string) {
    forall q | from <= q < |log| && RemovesJob(cfg, log[q], job) :: JudgedBetween(log, from, q, log[q].actor, job)
  }

  /** A worker has judged the job and is about to remove its key. */
  predicate IsBeingRemoved(s: State, job: string) {
    exists i :: 0 <= i < |s.workers| && InPhase(s, i, Judged) && s.workers[i].attempt.job == job
  }

  ghost predicate AfreshInv(cfg: Config, s: State, from: nat, job: string) {
    && from <= |s.log|
    && RemovedAfresh(cfg, s.log, from, job)
    && forall i | 0 <= i < |s.workers| && InPhase(s, i, Judged) && s.workers[i].attempt.job == job ::
         JudgedBetween(s.log, from, |s.log|, Run(s.workers[i].run), job)
  }

  lemma LongerLog(cfg: Config, log: seq<Entry>, e: Entry, from: nat, job: string)
    requires from <= |log| && RemovedAfresh(cfg, log, from, job)
    requires RemovesJob(cfg, e, job) ==> JudgedBetween(log, from, |log|, e.actor, job)
    ensures RemovedAfresh(cfg, log + [e], from, job)
    ensures forall actor :: JudgedBetween(log, from, |log|, actor, job) ==>
              JudgedBetween(log + [e], from, |log| + 1, actor, job)
  {
    var longer := log + [e];
    forall q, actor | from <= q <= |log| && JudgedBetween(log, from, q, actor, job)
      ensures JudgedBetween(longer, from, q, actor, job) && JudgedBetween(longer, from, |log| + 1, actor, job)
    {
      var p :| from <= p < q && log[p].actor == actor && JudgesJob(log[p].event, job);
      assert longer[p] == log[p];
    }
  }

  /** A write that removes nothing unjudged, by a worker that moves on or by a client. */
  lemma WriteKeepsAfresh(cfg: Config, s: State, workers: seq<Worker>, e: Event, actor: Actor, from: nat, job: string)
    requires AfreshInv(cfg, s, from, job)
    requires RemovesJob(cfg, Entry(e, actor), job) ==> JudgedBetween(s.log, from, |s.log|, actor, job)
    requires forall i | 0 <= i < |workers| && workers[i].At? && workers[i].phase == Judged &&
               workers[i].attempt.job == job ::
               (i < |s.workers| && workers[i] == s.workers[i]) || (actor == Run(workers[i].run) && JudgesJob(e, job))
    ensures AfreshInv(cfg, Write(cfg, s.(workers := workers), e, actor), from, job)
  {
    var t := Write(cfg, s.(workers := workers), e, actor);
    LongerLog(cfg, s.log, Entry(e, actor), from, job);
    forall i | 0 <= i < |t.workers| && InPhase(t, i, Judged) && t.workers[i].attempt.job == job
      ensures JudgedBetween(t.log, from, |t.log|, Run(t.workers[i].run), job)
    {
      if i < |s.workers| && workers[i] == s.workers[i] {
        assert InPhase(s, i, Judged);
      } else {
        assert t.log[|s.log|] == Entry(e, actor);
      }
    }
  }

  lemma StepKeepsAfresh(cfg: Config, s: State, step: Step, from: nat, job: string)
    requires AfreshInv(cfg, s, from, job) && Enabled(cfg, s, step)
    ensures AfreshInv(cfg, Do(cfg, s, step), from, job)
  {
    match step {
      case ClientWrite(e) => WriteKeepsAfresh(cfg, s, s.workers, e, Client, from, job);
      case Clear(i) => RunKeepsAfresh(cfg, s, i, step, from, job);
      case Mark(i) => RunKeepsAfresh(cfg, s, i, step, from, job);
      case Print(i) => RunKeepsAfresh(cfg, s, i, step, from, job);
      case Judge(i) => RunKeepsAfresh(cfg, s, i, step, from, job);
      case Remove(i) => RunKeepsAfresh(cfg, s, i, step, from, job);
      case _ => QuietKeepsAfresh(cfg, s, step, from, job);
    }
  }

  lemma RunKeepsAfresh(cfg: Config, s: State, i: nat, step: Step, from: nat, job: string)
    requires AfreshInv(cfg, s, from, job) && Enabled(cfg, s, step)
    requires step == Clear(i) || step == Mark(i) || step == Print(i) || step == Judge(i) || step == Remove(i)
    ensures AfreshInv(cfg, Do(cfg, s, step), from, job)
  {
    var w := s.workers[i];
    var own, actor := w.attempt.job, Run(w.run);
    OwnKeysAreNotAssigned(cfg, own, job);
    match step {
      case Clear(_) =>
        var e := Delete(OutputKey(own));
        var next := w.(phase := Cleared, attempt := w.attempt.(cleared := Emits(s.store, e)));
        WriteKeepsAfresh(cfg, s, s.workers[i := next], e, actor, from, job);
        assert s.workers[i := w.(attempt := next.attempt)][i := next] == s.workers[i := next];
      case Mark(_) =>
        WriteKeepsAfresh(cfg, s, s.workers[i := w.(phase := Marked)], Put(StateKey(own), RUNNING), actor, from, job);
      case Print(_) =>
        var e := Put(OutputKey(own), w.attempt.output);
        WriteKeepsAfresh(cfg, s, s.workers[i := w.(phase := Printed)], e, actor, from, job);
      case Judge(_) =>
        var e := Put(StateKey(own), Verdict(w.attempt.ok));
        WriteKeepsAfresh(cfg, s, s.workers[i := w.(phase := Judged)], e, actor, from, job);
      case Remove(_) =>
        WriteKeepsAfresh(cfg, s, s.workers[i := Idle], Delete(AssignKey(cfg.server, own)), actor, from, job);
    }
  }

  lemma OwnKeysAreNotAssigned(cfg: Config, own: string, job: string)
    ensures StateKey(own) != AssignKey(cfg.server, job) && OutputKey(own) != AssignKey(cfg.server, job)
    ensures AssignKey(cfg.server, own) == AssignKey(cfg.server, job) ==> own == job
  {
    assert StateKey(own)[5] == 'j' && OutputKey(own)[5] == 'j' && AssignKey(cfg.server, job)[5] == 'a';
    JobOfAssignKey(cfg.server, own);
    JobOfAssignKey(cfg.server, job);
  }

  lemma QuietKeepsAfresh(cfg: Config, s: State, step: Step, from: nat, job: string)
    requires AfreshInv(cfg, s, from, job) && Enabled(cfg, s, step) && !step.ClientWrite?
    requires !step.Clear? && !step.Mark? && !step.Print? && !step.Judge? && !step.Remove?
    ensures AfreshInv(cfg, Do(cfg, s, step), from, job)
  {
    var t := Do(cfg, s, step);
    assert t.log == s.log;
    forall i | 0 <= i < |t.workers| && InPhase(t, i, Judged)
      ensures i < |s.workers| && InPhase(s, i, Judged) && t.workers[i] == s.workers[i]
    {
    }
  }

  lemma {:induction false} RunsKeepAfresh(cfg: Config, s: State, steps: seq<Step>, t: State, from: nat, job: string)
    requires AfreshInv(cfg, s, from, job) && After(cfg, s, steps) == Some(t)
    ensures AfreshInv(cfg, t, from, job)
    decreases |steps|
  {
    if steps != [] {
      StepKeepsAfresh(cfg, s, steps[0], from, job);
      RunsKeepAfresh(cfg, Do(cfg, s, steps[0]), steps[1..], t, from, job);
    }
  }

  /** Every run from here on, whatever clients do and however often the process dies, removes the job's key only
      after a verdict it has recorded from here on. */
  ghost predicate StaysUntilJudged(cfg: Config, s: State, job: string) {
    forall steps: seq<Step> ::
      After(cfg, s, steps).Some? ==> RemovedAfresh(cfg, After(cfg, s, steps).value.log, |s.log|, job)
  }

  /** The moment a job is assigned decides: its assignment is sure of a verdict of its own if and only if no worker
      is just about to remove the key on account of an earlier one. */
  lemma StaysUntilJudgedIff(cfg: Config, s: State, job: string)
    requires AssignKey(cfg.server, job) in s.store
    ensures StaysUntilJudged(cfg, s, job) <==> !IsBeingRemoved(s, job)
  {
    if i :| 0 <= i < |s.workers| && InPhase(s, i, Judged) && s.workers[i].attempt.job == job {
      RemovalIsNext(cfg, s, i);
    } else {
      forall steps: seq<Step> | After(cfg, s, steps).Some?
        ensures RemovedAfresh(cfg, After(cfg, s, steps).value.log, |s.log|, job)
      {
        RunsKeepAfresh(cfg, s, steps, After(cfg, s, steps).value, |s.log|, job);
      }
    }
  }

  lemma RemovalIsNext(cfg: Config, s: State, i: nat)
    requires InPhase(s, i, Judged) && AssignKey(cfg.server, s.workers[i].attempt.job) in s.store
    ensures !StaysUntilJudged(cfg, s, s.workers[i].attempt.job)
  {
    var job := s.workers[i].attempt.job;
    assert After(cfg, s, []) == Some(s);
    var steps, t := Then(cfg, s, [], s, Remove(i));
    assert RemovesJob(cfg, t.log[|s.log|], job);
    assert !RemovedAfresh(cfg, t.log, |s.log|, job);
  }

  /** So a job assigned at a moment when no worker is about to remove its key is still assigned at any later time,
      unless a client has unassigned it or a run has judged it since. */
  lemma AssignedUntilJudgedAfresh(cfg: Config, initial: Store, before: seq<Step>, s: State, steps: seq<Step>, t: State,
                                  job: string)
    requires After(cfg, Boot(cfg, initial, [], 0), before) == Some(s) && After(cfg, s, steps) == Some(t)
    requires AssignKey(cfg.server, job) in s.store && !IsBeingRemoved(s, job)
    ensures s.log <= t.log
    ensures AssignKey(cfg.server, job) in t.store
      || (exists q :: |s.log| <= q < |t.log| && t.log[q] == Entry(Delete(AssignKey(cfg.server, job)), Client))
      || (exists q :: |s.log| <= q < |t.log| && RemovesJob(cfg, t.log[q], job) &&
                      JudgedBetween(t.log, |s.log|, q, t.log[q].actor, job))
  {
    FirstBoot(cfg, initial);
    RunsKeepHistory(cfg, initial, Boot(cfg, initial, [], 0), before, s);
    RunsKeepHistory(cfg, initial, s, steps, t);
    StaysUntilJudgedIff(cfg, s, job);
    assert RemovedAfresh(cfg, t.log, |s.log|, job);
    if AssignKey(cfg.server, job) !in t.store {
      assert Events(t.log)[..|s.log|] == Events(s.log);
      var q := GoneMeansDeleted(initial, Events(t.log), |s.log|, AssignKey(cfg.server, job));
      assert t.log[q].event == Delete(AssignKey(cfg.server, job));
    }
  }

  // ---- A run of its own

  /** Since some moment no run that had begun before has removed the job's key. */
  ghost predicate RemovedByNewRuns(cfg: Config, log: seq<Entry>, from: nat, runs: nat, job: string) {
    forall q | from <= q < |log| && RemovesJob(cfg, log[q], job) :: log[q].actor.id >= runs
  }

  /** A worker has begun a run of the job. */
  predicate IsBeingRun(s: State, job: string) {
    exists i :: 0 <= i < |s.workers| && s.workers[i].At? && s.workers[i].attempt.job == job
  }

  ghost predicate NewRunsInv(cfg: Config, s: State, from: nat, runs: nat, job: string) {
    && from <= |s.log| && runs <= s.runs
    && RemovedByNewRuns(cfg, s.log, from, runs, job)
    && forall i | 0 <= i < |s.workers| && s.workers[i].At? && s.workers[i].attempt.job == job ::
         s.workers[i].run >= runs
  }

  lemma WriteKeepsNewRuns(cfg: Config, s: State, i: nat, w: Worker, e: Event, from: nat, runs: nat, job: string)
    requires NewRunsInv(cfg, s, from, runs, job) && i < |s.workers| && s.workers[i].At?
    requires w.At? ==> w.run == s.workers[i].run && w.attempt.job == s.workers[i].attempt.job
    requires e.key == AssignKey(cfg.server, job) ==> s.workers[i].attempt.job == job
    ensures NewRunsInv(cfg, Write(cfg, s.(workers := s.workers[i := w]), e, Run(s.workers[i].run)), from, runs, job)
  {
    var t := Write(cfg, s.(workers := s.workers[i := w]), e, Run(s.workers[i].run));
    assert forall q | 0 <= q < |s.log| :: t.log[q] == s.log[q];
    assert s.workers[i].attempt.job == job ==> s.workers[i].run >= runs;
  }

  lemma RunKeepsNewRuns(cfg: Config, s: State, i: nat, step: Step, from: nat, runs: nat, job: string)
    requires NewRunsInv(cfg, s, from, runs, job) && Enabled(cfg, s, step)
    requires step == Clear(i) || step == Mark(i) || step == Print(i) || step == Judge(i) || step == Remove(i)
    ensures NewRunsInv(cfg, Do(cfg, s, step), from, runs, job)
  {
    var w := s.workers[i];
    var own := w.attempt.job;
    OwnKeysAreNotAssigned(cfg, own, job);
    match step {
      case Clear(_) =>
        var e := Delete(OutputKey(own));
        var next := w.(phase := Cleared, attempt := w.attempt.(cleared := Emits(s.store, e)));
        WriteKeepsNewRuns(cfg, s, i, next, e, from, runs, job);
        assert s.workers[i := w.(attempt := next.attempt)][i := next] == s.workers[i := next];
      case Mark(_) =>
        WriteKeepsNewRuns(cfg, s, i, w.(phase := Marked), Put(StateKey(own), RUNNING), from, runs, job);
      case Print(_) =>
        WriteKeepsNewRuns(cfg, s, i, w.(phase := Printed), Put(OutputKey(own), w.attempt.output), from, runs, job);
      case Judge(_) =>
        WriteKeepsNewRuns(cfg, s, i, w.(phase := Judged), Put(StateKey(own), Verdict(w.attempt.ok)), from, runs, job);
      case Remove(_) =>
        WriteKeepsNewRuns(cfg, s, i, Idle, Delete(AssignKey(cfg.server, own)), from, runs, job);
    }
  }

  lemma StepKeepsNewRuns(cfg: Config, s: State, step: Step, from: nat, runs: nat, job: string)
    requires NewRunsInv(cfg, s, from, runs, job) && Enabled(cfg, s, step)
    ensures NewRunsInv(cfg, Do(cfg, s, step), from, runs, job)
  {
    match step {
      case ClientWrite(e) => assert forall q | 0 <= q < |s.log| :: Do(cfg, s, step).log[q] == s.log[q];
      case Clear(i) => RunKeepsNewRuns(cfg, s, i, step, from, runs, job);
      case Mark(i) => RunKeepsNewRuns(cfg, s, i, step, from, runs, job);
      case Print(i) => RunKeepsNewRuns(cfg, s, i, step, from, runs, job);
      case Judge(i) => RunKeepsNewRuns(cfg, s, i, step, from, runs, job);
      case Remove(i) => RunKeepsNewRuns(cfg, s, i, step, from, runs, job);
      case _ =>
    }
  }

  lemma {:induction false} RunsKeepNewRuns(cfg: Config, s: State, steps: seq<Step>, t: State, from: nat, runs: nat,
                                           job: string)
    requires NewRunsInv(cfg, s, from, runs, job) && After(cfg, s, steps) == Some(t)
    ensures NewRunsInv(cfg, t, from, runs, job)
    decreases |steps|
  {
    if steps != [] {
      StepKeepsNewRuns(cfg, s, steps[0], from, runs, job);
      RunsKeepNewRuns(cfg, Do(cfg, s, steps[0]), steps[1..], t, from, runs, job);
    }
  }

  /** A run that has begun can go on until it removes the key. */
  lemma {:induction false} CanRemove(cfg: Config, s: State, i: nat) returns (steps: seq<Step>, t: State)
    requires i < |s.workers| && s.workers[i].At? && AssignKey(cfg.server, s.workers[i].attempt.job) in s.store
    ensures After(cfg, s, steps) == Some(t) && |s.log| < |t.log|
    ensures t.log[|t.log| - 1] ==
            Entry(Delete(AssignKey(cfg.server, s.workers[i].attempt.job)), Run(s.workers[i].run))
    decreases WorkerCost(s.workers[i])
  {
    var w := s.workers[i];
    var step := NextStep(i, w);
    BusyCanGoOn(cfg, s, i);
    var next := Do(cfg, s, step);
    var rest: seq<Step> := [];
    t := next;
    assert After(cfg, next, rest) == Some(next);
    if w.phase != Judged {
      NextKeepsKey(cfg, s, i);
      rest, t := CanRemove(cfg, next, i);
    }
    steps := [step] + rest;
    assert steps[1..] == rest;
  }

  lemma NextKeepsKey(cfg: Config, s: State, i: nat)
    requires i < |s.workers| && s.workers[i].At? && s.workers[i].phase != Judged
    requires AssignKey(cfg.server, s.workers[i].attempt.job) in s.store && Enabled(cfg, s, NextStep(i, s.workers[i]))
    ensures var w, t := s.workers[i], Do(cfg, s, NextStep(i, s.workers[i]));
      && AssignKey(cfg.server, w.attempt.job) in t.store && |s.log| <= |t.log| && i < |t.workers|
      && t.workers[i].At? && t.workers[i].run == w.run && t.workers[i].attempt.job == w.attempt.job
      && WorkerCost(t.workers[i]) < WorkerCost(w)
  {
    OwnKeysAreNotAssigned(cfg, s.workers[i].attempt.job, s.workers[i].attempt.job);
  }

  /** Every run from here on removes the job's key only by a run that begins from here on. */
  ghost predicate StaysUntilRun(cfg: Config, s: State, job: string) {
    forall steps: seq<Step> ::
      After(cfg, s, steps).Some? ==> RemovedByNewRuns(cfg, After(cfg, s, steps).value.log, |s.log|, s.runs, job)
  }

  /** An assignment is sure of a run of its own if and only if no run of the job is going on when it is made. */
  lemma StaysUntilRunIff(cfg: Config, s: State, job: string)
    requires OrderInv(cfg, s) && AssignKey(cfg.server, job) in s.store
    ensures StaysUntilRun(cfg, s, job) <==> !IsBeingRun(s, job)
  {
    if i :| 0 <= i < |s.workers| && s.workers[i].At? && s.workers[i].attempt.job == job {
      assert WorkerInv(cfg, s.log, s.runs, s.workers[i]);
      var steps, t := CanRemove(cfg, s, i);
      assert RemovesJob(cfg, t.log[|t.log| - 1], job);
      assert !RemovedByNewRuns(cfg, t.log, |s.log|, s.runs, job);
    } else {
      forall steps: seq<Step> | After(cfg, s, steps).Some?
        ensures RemovedByNewRuns(cfg, After(cfg, s, steps).value.log, |s.log|, s.runs, job)
      {
        RunsKeepNewRuns(cfg, s, steps, After(cfg, s, steps).value, |s.log|, s.runs, job);
      }
    }
  }

  // ---- The case is real

  /** A process that starts with one job assigned runs and judges it; a client assigns it again;
      the worker removes the key; the process dies.  The job is no longer assigned, and its only verdict is older
      than the client's last word. */
  lemma ReassignmentCanBeForgotten(cfg: Config, job: string, command: string) returns (steps: seq<Step>, t: State)
    requires cfg.slots >= 1 && cfg.runnable(command)
    ensures After(cfg, Boot(cfg, Ready(cfg, job, command), [], 0), steps) == Some(t)
    ensures AssignKey(cfg.server, job) !in t.store && t.feed == JobFeed.STOPPED
    ensures |t.log| >= 2 && t.log[|t.log| - 2] == Entry(Put(AssignKey(cfg.server, job), ""), Client)
    ensures RemovesJob(cfg, t.log[|t.log| - 1], job)
  {
    var s0 := Boot(cfg, Ready(cfg, job, command), [], 0);
    var m: State;
    steps, m := JudgesOnce(cfg, job, command, "");
    steps, m := Then(cfg, s0, steps, m, ClientWrite(Put(AssignKey(cfg.server, job), "")));
    steps, m := Then(cfg, s0, steps, m, Remove(0));
    steps, t := Then(cfg, s0, steps, m, Crash);
  }
}
