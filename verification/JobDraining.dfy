/** Left alone by its clients, the older server comes to rest, whatever the schedule, and what it leaves assigned is
    known exactly. */
module JobDraining {
  import opened Etcd
  import opened JobRunner
  import opened JobRecovery
  import JobFeed

  predicate IsServerStep(step: Step) {
    !step.ClientWrite? && !step.Crash?
  }

  // ---- The work that is left

  function WorkerCost(w: Worker): nat {
    match w
    case Idle => 0
    case Taken(_) => 8
    case At(phase, _, _) =>
      match phase
      case Fetched => 7
      case Cleared => 6
      case Marked => 5
      case Exited => 4
      case Printed => 3
      case Judged => 2
  }

  function WorkersCost(workers: seq<Worker>): nat {
    JobFeed.Sum(Costs(workers))
  }

  function Costs(workers: seq<Worker>): seq<nat> {
    seq(|workers|, i requires 0 <= i < |workers| => WorkerCost(workers[i]))
  }

  /** The number of server steps still possible, at most.  The delete event that a worker's last write emits is
      paid for in advance; its other writes reach no watch of the directory. */
  function Cost(cfg: Config, s: State): nat {
    (if s.feed.watching then 0 else 1)
    + (if s.feed.listing.Some? then 0 else 1 + 10 * |DirJobs(cfg.server, s.store)|)
    + 10 * |s.feed.unsent| + JobFeed.PendingCost(s.feed.pending, 11) + (if s.feed.hand.Some? then 10 else 0)
    + 9 * |s.feed.queue| + WorkersCost(s.workers)
  }

  lemma WorkersCostAfter(workers: seq<Worker>, i: nat, w: Worker)
    requires i < |workers|
    ensures WorkersCost(workers[i := w]) + WorkerCost(workers[i]) == WorkersCost(workers) + WorkerCost(w)
  {
    JobFeed.SumAfter(Costs(workers), i, WorkerCost(w));
    assert Costs(workers[i := w]) == Costs(workers)[i := WorkerCost(w)];
  }

  /** A write to the job's own keys leaves the assign directory and its watch alone. */
  lemma OwnWriteCosts(cfg: Config, s: State, i: nat, w: Worker, e: Event, suffix: string)
    requires i < |s.workers| && WorkerCost(w) < WorkerCost(s.workers[i])
    requires w.At? && e.key == JobKey(w.attempt.job) + suffix
    ensures var t := Write(cfg, s.(workers := s.workers[i := w]), e, Run(w.run));
      && t.feed == s.feed && DirJobs(cfg.server, t.store) == DirJobs(cfg.server, s.store)
      && Cost(cfg, t) < Cost(cfg, s)
  {
    WorkersCostAfter(s.workers, i, w);
    JobKeysAreNotAssigned(cfg.server, w.attempt.job, suffix);
    DirJobsAfter(cfg.server, s.store, e);
  }

  lemma ClearCosts(cfg: Config, s: State, i: nat)
    requires Enabled(cfg, s, Clear(i))
    ensures Cost(cfg, Do(cfg, s, Clear(i))) < Cost(cfg, s)
  {
    var w := s.workers[i];
    var e := Delete(OutputKey(w.attempt.job));
    var next := w.(phase := Cleared, attempt := w.attempt.(cleared := Emits(s.store, e)));
    assert OutputKey(w.attempt.job) == JobKey(w.attempt.job) + ("/state" + "/stdouterr");
    OwnWriteCosts(cfg, s, i, next, e, "/state" + "/stdouterr");
    assert s.workers[i := w.(attempt := next.attempt)][i := next] == s.workers[i := next];
  }

  lemma WriteCosts(cfg: Config, s: State, i: nat, step: Step)
    requires Enabled(cfg, s, step) && (step == Mark(i) || step == Print(i) || step == Judge(i))
    ensures Cost(cfg, Do(cfg, s, step)) < Cost(cfg, s)
  {
    var w := s.workers[i];
    var job := w.attempt.job;
    match step {
      case Mark(_) => OwnWriteCosts(cfg, s, i, w.(phase := Marked), Put(StateKey(job), RUNNING), "/state");
      case Print(_) =>
        assert OutputKey(job) == JobKey(job) + ("/state" + "/stdouterr");
        OwnWriteCosts(cfg, s, i, w.(phase := Printed), Put(OutputKey(job), w.attempt.output), "/state" + "/stdouterr");
      case Judge(_) =>
        OwnWriteCosts(cfg, s, i, w.(phase := Judged), Put(StateKey(job), Verdict(w.attempt.ok)), "/state");
    }
  }

  lemma RemoveCosts(cfg: Config, s: State, i: nat)
    requires Enabled(cfg, s, Remove(i))
    ensures Cost(cfg, Do(cfg, s, Remove(i))) < Cost(cfg, s)
  {
    var job := s.workers[i].attempt.job;
    var e := Delete(AssignKey(cfg.server, job));
    WorkersCostAfter(s.workers, i, Idle);
    JobFeed.PendingCostAppend(s.feed.pending, e, 11);
    UnassigningShrinks(cfg, s.store, job);
  }

  lemma UnassigningShrinks(cfg: Config, store: Store, job: string)
    ensures var after := Apply(store, Delete(AssignKey(cfg.server, job)));
            |DirJobs(cfg.server, after)| <= |DirJobs(cfg.server, store)|
  {
    JobOfAssignKey(cfg.server, job);
    DirJobsAfter(cfg.server, store, Delete(AssignKey(cfg.server, job)));
    JobFeed.Shrinks(DirJobs(cfg.server, store), job);
  }

  lemma FetchCosts(cfg: Config, s: State, i: nat)
    requires Enabled(cfg, s, Fetch(i))
    ensures Cost(cfg, Do(cfg, s, Fetch(i))) < Cost(cfg, s)
  {
    WorkersCostAfter(s.workers, i, Idle);
    WorkersCostAfter(s.workers, i, At(Fetched, s.runs, Attempt(s.workers[i].job, false, "", false)));
  }

  lemma TakeCosts(cfg: Config, s: State, i: nat)
    requires Enabled(cfg, s, Take(i))
    ensures Cost(cfg, Do(cfg, s, Take(i))) < Cost(cfg, s)
  {
    WorkersCostAfter(s.workers, i, Taken(s.feed.queue[0]));
  }

  lemma ExecuteCosts(cfg: Config, s: State, i: nat, output: string, ok: bool)
    requires Enabled(cfg, s, Execute(i, output, ok))
    ensures Cost(cfg, Do(cfg, s, Execute(i, output, ok))) < Cost(cfg, s)
  {
    var w := s.workers[i];
    WorkersCostAfter(s.workers, i, At(Exited, w.run, w.attempt.(output := output, ok := ok)));
  }

  /** Every server step leaves less work. */
  lemma StepCosts(cfg: Config, s: State, step: Step)
    requires CoverInv(cfg, s) && Enabled(cfg, s, step) && IsServerStep(step)
    ensures Cost(cfg, Do(cfg, s, step)) < Cost(cfg, s)
  {
    match step {
      case OpenWatch => FeedCosts(cfg, s, step);
      case ListJobs(_) => FeedCosts(cfg, s, step);
      case SendListed => FeedCosts(cfg, s, step);
      case Receive => FeedCosts(cfg, s, step);
      case SendWatched => FeedCosts(cfg, s, step);
      case Take(i) => TakeCosts(cfg, s, i);
      case Fetch(i) => FetchCosts(cfg, s, i);
      case Clear(i) => ClearCosts(cfg, s, i);
      case Mark(i) => WriteCosts(cfg, s, i, step);
      case Execute(i, output, ok) => ExecuteCosts(cfg, s, i, output, ok);
      case Print(i) => WriteCosts(cfg, s, i, step);
      case Judge(i) => WriteCosts(cfg, s, i, step);
      case Remove(i) => RemoveCosts(cfg, s, i);
    }
  }

  lemma FeedCosts(cfg: Config, s: State, step: Step)
    requires CoverInv(cfg, s) && Enabled(cfg, s, step)
    requires step.OpenWatch? || step.ListJobs? || step.SendListed? || step.Receive? || step.SendWatched?
    ensures Cost(cfg, Do(cfg, s, step)) < Cost(cfg, s)
  {
    if step.ListJobs? {
      ListingCosts(cfg, s, step.jobs);
    }
  }

  lemma ListingCosts(cfg: Config, s: State, jobs: seq<string>)
    requires CoverInv(cfg, s) && Enabled(cfg, s, ListJobs(jobs))
    ensures Cost(cfg, Do(cfg, s, ListJobs(jobs))) < Cost(cfg, s)
  {
    JobFeed.UnlistedSendsNothing(cfg.server, cfg.slots, s.feed);
    JobFeed.DistinctCount(jobs, DirJobs(cfg.server, s.store));
  }

  /** What a busy worker does next. */
  function NextStep(i: nat, w: Worker): Step
    requires !w.Idle?
  {
    match w
    case Taken(_) => Fetch(i)
    case At(phase, _, _) =>
      match phase
      case Fetched => Clear(i)
      case Cleared => Mark(i)
      case Marked => Execute(i, "", true)
      case Exited => Print(i)
      case Printed => Judge(i)
      case Judged => Remove(i)
  }

  lemma BusyCanGoOn(cfg: Config, s: State, i: nat)
    requires i < |s.workers| && !s.workers[i].Idle?
    ensures IsServerStep(NextStep(i, s.workers[i])) && Enabled(cfg, s, NextStep(i, s.workers[i]))
  {
  }

  /** Deadlock freedom: with at least one worker, a server that is not at rest can take a step. */
  lemma SomeStepIsEnabled(cfg: Config, s: State) returns (step: Step)
    requires CoverInv(cfg, s) && cfg.slots >= 1 && !AtRest(s)
    ensures IsServerStep(step) && Enabled(cfg, s, step)
  {
    if i :| 0 <= i < |s.workers| && !s.workers[i].Idle? {
      BusyCanGoOn(cfg, s, i);
      step := NextStep(i, s.workers[i]);
    } else if s.feed.queue != [] {
      assert s.workers[0].Idle?;
      step := Take(0);
    } else if s.feed.hand.Some? {
      step := SendWatched;
    } else if s.feed.pending != [] {
      step := Receive;
    } else if s.feed.unsent != [] {
      step := SendListed;
    } else if !s.feed.watching {
      step := OpenWatch;
    } else {
      var jobs := JobFeed.SomeListing(DirJobs(cfg.server, s.store));
      step := ListJobs(jobs);
    }
  }

  ghost predicate Halted(cfg: Config, s: State) {
    forall step | IsServerStep(step) :: !Enabled(cfg, s, step)
  }

  lemma HaltedIsAtRest(cfg: Config, s: State)
    requires CoverInv(cfg, s) && cfg.slots >= 1 && Halted(cfg, s)
    ensures AtRest(s) && DirJobs(cfg.server, s.store) == s.missed + s.dropped
  {
    if AtRest(s) {
      RestLeaves(cfg, s);
    } else {
      var step := SomeStepIsEnabled(cfg, s);
      assert false;
    }
  }

  lemma {:induction false} RunsCost(cfg: Config, s: State, steps: seq<Step>, t: State)
    requires CoverInv(cfg, s) && After(cfg, s, steps) == Some(t)
    requires forall step | step in steps :: IsServerStep(step)
    ensures CoverInv(cfg, t) && |steps| + Cost(cfg, t) <= Cost(cfg, s)
    decreases |steps|
  {
    if steps != [] {
      StepCosts(cfg, s, steps[0]);
      StepKeepsCover(cfg, s, steps[0]);
      RunsCost(cfg, Do(cfg, s, steps[0]), steps[1..], t);
    }
  }

  /** Whatever the schedule: take any reachable state, after any client writes and crashes.  From there the server
      takes at most Cost more steps, and where it can take none it is at rest; the jobs still assigned are those
      that were missed or dropped. */
  lemma EveryScheduleSettles(cfg: Config, initial: Store, before: seq<Step>, s: State, steps: seq<Step>, t: State)
    requires After(cfg, Boot(cfg, initial, [], 0), before) == Some(s) && After(cfg, s, steps) == Some(t)
    requires forall step | step in steps :: IsServerStep(step)
    ensures |steps| <= Cost(cfg, s)
    ensures cfg.slots >= 1 && Halted(cfg, t) ==>
      AtRest(t) && DirJobs(cfg.server, t.store) == t.missed + t.dropped
  {
    ReachedIsCovered(cfg, initial, before, s);
    RunsCost(cfg, s, steps, t);
    if cfg.slots >= 1 && Halted(cfg, t) {
      HaltedIsAtRest(cfg, t);
    }
  }

  // ---- What a server left alone has done

  /** The server has come from one state to another by itself: all events since are its runs'. */
  ghost predicate HasComeFrom(cfg: Config, initial: Store, s: State, t: State) {
    && CoverInv(cfg, t) && HistoryInv(cfg, initial, t)
    && s.log <= t.log
    && forall q | |s.log| <= q < |t.log| :: t.log[q].actor.Run?
  }

  lemma StepLogs(cfg: Config, s: State, step: Step)
    requires Enabled(cfg, s, step) && IsServerStep(step)
    ensures s.log <= Do(cfg, s, step).log
    ensures forall q | |s.log| <= q < |Do(cfg, s, step).log| :: Do(cfg, s, step).log[q].actor.Run?
  {
  }

  lemma StepComes(cfg: Config, initial: Store, s: State, t: State, step: Step)
    requires HasComeFrom(cfg, initial, s, t) && Enabled(cfg, t, step) && IsServerStep(step)
    ensures HasComeFrom(cfg, initial, s, Do(cfg, t, step))
    ensures Cost(cfg, Do(cfg, t, step)) < Cost(cfg, t)
  {
    StepCosts(cfg, t, step);
    StepKeepsCover(cfg, t, step);
    StepLogs(cfg, t, step);
    StepKeepsHistory(cfg, initial, t, step);
    assert forall q | |s.log| <= q < |t.log| :: Do(cfg, t, step).log[q] == t.log[q];
  }

  /** A job that was assigned and no longer is has been judged before its key went. */
  ghost predicate JudgedSince(cfg: Config, s: State, t: State, job: string) {
    exists q :: |s.log| <= q < |t.log| && t.log[q].event == Delete(AssignKey(cfg.server, job)) &&
                t.log[q].actor.Run? && HasVerdict(cfg, t.log[..q], job)
  }

  lemma GoneMeansJudged(cfg: Config, initial: Store, s: State, t: State, job: string)
    requires HistoryInv(cfg, initial, s) && HasComeFrom(cfg, initial, s, t)
    requires job in DirJobs(cfg.server, s.store) && job !in DirJobs(cfg.server, t.store)
    ensures JudgedSince(cfg, s, t, job)
  {
    DirJobsAreKeys(cfg.server, s.store, job);
    DirJobsAreKeys(cfg.server, t.store, job);
    assert Events(t.log)[..|s.log|] == Events(s.log);
    var q := GoneMeansDeleted(initial, Events(t.log), |s.log|, AssignKey(cfg.server, job));
    assert t.log[q].event == Delete(AssignKey(cfg.server, job));
    RemovedAfterVerdict(cfg, t.log, t.runs, q, job);
  }

  // ---- A start on what a store holds

  predicate Runnable(cfg: Config, store: Store, job: string) {
    JobKey(job) in store && cfg.runnable(store[JobKey(job)])
  }

  /** What a worker says of a job: it has found something to run, or is past that. */
  predicate Found(w: Worker, job: string) {
    w.At? && w.attempt.job == job
  }

  /** One job, since a start on a store and without any client: its node is as it was; it was found or dropped by
      what the node holds; and if there is nothing to run it stays assigned. */
  ghost predicate UntouchedJob(cfg: Config, base: Store, s: State, job: string) {
    && (Runnable(cfg, s.store, job) <==> Runnable(cfg, base, job))
    && (job in s.dropped ==> !Runnable(cfg, base, job))
    && (forall i | 0 <= i < |s.workers| && Found(s.workers[i], job) :: Runnable(cfg, base, job))
    && (AssignKey(cfg.server, job) in s.store ==> AssignKey(cfg.server, job) in base)
    && (AssignKey(cfg.server, job) in base && !Runnable(cfg, base, job) ==> AssignKey(cfg.server, job) in s.store)
  }

  /** A job's state and output are never another job's node, nor an assign key. */
  lemma OwnKeys(cfg: Config, job: string, other: string)
    requires '/' !in job
    ensures StateKey(other) != JobKey(job) && OutputKey(other) != JobKey(job)
    ensures AssignKey(cfg.server, other) != JobKey(job)
    ensures StateKey(other) != AssignKey(cfg.server, job) && OutputKey(other) != AssignKey(cfg.server, job)
  {
    var n := |JOB_PREFIX|;
    assert forall k | n <= k < |JobKey(job)| :: JobKey(job)[k] == job[k - n];
    assert StateKey(other)[n + |other|] == '/' && OutputKey(other)[n + |other|] == '/';
    assert JobKey(job)[5] == 'j' && StateKey(other)[5] == 'j' && OutputKey(other)[5] == 'j';
    assert AssignKey(cfg.server, other)[5] == 'a' && AssignKey(cfg.server, job)[5] == 'a';
  }

  /** A write by a server, none of them on the node of a job without a slash. */
  predicate IsOwnWrite(cfg: Config, w: Worker, e: Event) {
    w.At? &&
    var job := w.attempt.job;
    (e.key == StateKey(job) || e.key == OutputKey(job) || e == Delete(AssignKey(cfg.server, job)))
  }

  /** A worker that goes on with its job and writes, or just writes. */
  lemma WriteLeavesJob(cfg: Config, base: Store, s: State, i: nat, next: Worker, e: Event, job: string)
    requires UntouchedJob(cfg, base, s, job) && '/' !in job && i < |s.workers| && IsOwnWrite(cfg, s.workers[i], e)
    requires Found(next, job) ==> Found(s.workers[i], job)
    ensures UntouchedJob(cfg, base, Write(cfg, s.(workers := s.workers[i := next]), e, Run(s.workers[i].run)), job)
  {
    var other := s.workers[i].attempt.job;
    OwnKeys(cfg, job, other);
    assert Found(s.workers[i], other);
    JobOfAssignKey(cfg.server, job);
    JobOfAssignKey(cfg.server, other);
  }

  lemma FetchLeavesJob(cfg: Config, base: Store, s: State, i: nat, job: string)
    requires UntouchedJob(cfg, base, s, job) && Enabled(cfg, s, Fetch(i))
    ensures UntouchedJob(cfg, base, Do(cfg, s, Fetch(i)), job)
  {
  }

  lemma StepLeavesJob(cfg: Config, base: Store, s: State, step: Step, job: string)
    requires UntouchedJob(cfg, base, s, job) && '/' !in job && Enabled(cfg, s, step) && IsServerStep(step)
    ensures UntouchedJob(cfg, base, Do(cfg, s, step), job)
  {
    match step {
      case Fetch(i) => FetchLeavesJob(cfg, base, s, i, job);
      case Clear(i) =>
        var w := s.workers[i];
        var e := Delete(OutputKey(w.attempt.job));
        var next := w.(phase := Cleared, attempt := w.attempt.(cleared := Emits(s.store, e)));
        WriteLeavesJob(cfg, base, s, i, next, e, job);
        assert s.workers[i := w.(attempt := next.attempt)][i := next] == s.workers[i := next];
      case Mark(i) => LaterLeavesJob(cfg, base, s, i, step, job);
      case Execute(i, output, ok) =>
      case Print(i) => LaterLeavesJob(cfg, base, s, i, step, job);
      case Judge(i) => LaterLeavesJob(cfg, base, s, i, step, job);
      case Remove(i) => LaterLeavesJob(cfg, base, s, i, step, job);
      case _ =>
    }
  }

  lemma LaterLeavesJob(cfg: Config, base: Store, s: State, i: nat, step: Step, job: string)
    requires UntouchedJob(cfg, base, s, job) && '/' !in job && Enabled(cfg, s, step)
    requires step == Mark(i) || step == Print(i) || step == Judge(i) || step == Remove(i)
    ensures UntouchedJob(cfg, base, Do(cfg, s, step), job)
  {
    var w := s.workers[i];
    match step {
      case Mark(_) =>
        WriteLeavesJob(cfg, base, s, i, w.(phase := Marked), Put(StateKey(w.attempt.job), RUNNING), job);
      case Print(_) =>
        WriteLeavesJob(cfg, base, s, i, w.(phase := Printed), Put(OutputKey(w.attempt.job), w.attempt.output), job);
      case Judge(_) =>
        WriteLeavesJob(cfg, base, s, i, w.(phase := Judged), Put(StateKey(w.attempt.job), Verdict(w.attempt.ok)), job);
      case Remove(_) =>
        WriteLeavesJob(cfg, base, s, i, Idle, Delete(AssignKey(cfg.server, w.attempt.job)), job);
    }
  }

  /** Without clients nothing is missed. */
  lemma StepMissesNothing(cfg: Config, s: State, step: Step)
    requires s.missed == {} && Enabled(cfg, s, step) && IsServerStep(step)
    ensures Do(cfg, s, step).missed == {}
  {
    if i :| 0 <= i < |s.workers| && s.workers[i].At? && (step == Mark(i) || step == Print(i) || step == Judge(i)) {
      var job := s.workers[i].attempt.job;
      JobKeysAreNotAssigned(cfg.server, job, "/state");
      JobKeysAreNotAssigned(cfg.server, job, "/state" + "/stdouterr");
      assert OutputKey(job) == JobKey(job) + ("/state" + "/stdouterr");
    }
  }

  lemma {:induction false} RunsLeaveJob(cfg: Config, base: Store, s: State, steps: seq<Step>, t: State, job: string)
    requires UntouchedJob(cfg, base, s, job) && '/' !in job && s.missed == {} && After(cfg, s, steps) == Some(t)
    requires forall step | step in steps :: IsServerStep(step)
    ensures UntouchedJob(cfg, base, t, job) && t.missed == {}
    decreases |steps|
  {
    if steps != [] {
      StepLeavesJob(cfg, base, s, steps[0], job);
      StepMissesNothing(cfg, s, steps[0]);
      RunsLeaveJob(cfg, base, Do(cfg, s, steps[0]), steps[1..], t, job);
    }
  }

  /** A crash and a restart make up for what was missed: left alone after any run that ended in a crash, every
      schedule comes to an end at rest, and a job is then still assigned if and only if it was assigned at the
      crash and its node holds nothing to run. */
  lemma RestartSettles(cfg: Config, initial: Store, before: seq<Step>, s: State, steps: seq<Step>, t: State,
                       job: string)
    requires After(cfg, Boot(cfg, initial, [], 0), before) == Some(s) && cfg.slots >= 1 && '/' !in job
    requires After(cfg, Do(cfg, s, Crash), steps) == Some(t) && Halted(cfg, t)
    requires forall step | step in steps :: IsServerStep(step)
    ensures |steps| <= Cost(cfg, Do(cfg, s, Crash)) && AtRest(t)
    ensures AssignKey(cfg.server, job) in t.store <==>
            AssignKey(cfg.server, job) in s.store && !Runnable(cfg, s.store, job)
  {
    ReachedIsCovered(cfg, initial, before, s);
    StepKeepsCover(cfg, s, Crash);
    RunsCost(cfg, Do(cfg, s, Crash), steps, t);
    HaltedIsAtRest(cfg, t);
    JobAfterStart(cfg, Do(cfg, s, Crash), steps, t, job);
  }

  lemma JobAfterStart(cfg: Config, s: State, steps: seq<Step>, t: State, job: string)
    requires s == Boot(cfg, s.store, s.log, s.runs) && '/' !in job && After(cfg, s, steps) == Some(t)
    requires forall step | step in steps :: IsServerStep(step)
    requires DirJobs(cfg.server, t.store) == t.missed + t.dropped
    ensures AssignKey(cfg.server, job) in t.store <==>
            AssignKey(cfg.server, job) in s.store && !Runnable(cfg, s.store, job)
  {
    assert UntouchedJob(cfg, s.store, s, job);
    RunsLeaveJob(cfg, s.store, s, steps, t, job);
    DirJobsAreKeys(cfg.server, t.store, job);
  }
}
